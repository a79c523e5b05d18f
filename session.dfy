/**
 * The game session as the page runs it: one object holding the score and
 * the caches, both updated in place.  The constructor is the start-up code
 * (score 0, empty cache list, then the scan); Collect and Deposit are the two
 * button handlers of a cache's popup, the cache being named by its index.
 */
module Session {
  import opened Keys
  import opened Placement
  import opened Interaction

  class Game {
    /** The player's score: coins collected and not yet deposited. */
    var points: int
    /** Every cache created at start-up, in creation order. */
    var caches: seq<Cache>

    function State(): GameState
      reads this
    {
      GameState(points, caches)
    }

    /** Start-up: the score begins at 0, then the scan creates the caches. */
    constructor (luck: string -> real)
      ensures State() == Start(KeyedLuck(luck))
    {
      points := 0;
      caches := [];
      new;
      var keyed := KeyedLuck(luck);
      PlaceCaches(keyed);
      assert [] + ScanCaches(keyed) == ScanCaches(keyed);
    }

    /** Creates the cache on cell (i, j), with the coin count of its own key, and appends it. */
    method MakePit(luck: Key -> real, i: int, j: int)
      modifies this`caches
      ensures caches == old(caches) + [NewCache(luck, (i, j))]
    {
      var coinValue := InitialCoins(luck, (i, j));
      var cache := Cache((i, j), coinValue);
      caches := caches + [cache];
    }

    /**
     * The scan: row i from -8 up to 7 in the outer loop, column j from -8 up
     * to 7 in the inner one, creating a cache on each cell that passes the
     * placement test.
     */
    method PlaceCaches(luck: Key -> real)
      modifies this`caches
      ensures caches == old(caches) + ScanCaches(luck)
    {
      assert caches == old(caches) + Placed(luck, 0);
      for i := -NeighborhoodSize to NeighborhoodSize
        invariant caches == old(caches) + Placed(luck, CellIndex((i, -NeighborhoodSize)))
      {
        for j := -NeighborhoodSize to NeighborhoodSize
          invariant caches == old(caches) + Placed(luck, CellIndex((i, j)))
        {
          ghost var before := caches;
          if Spawns(luck, (i, j)) {
            MakePit(luck, i, j);
          }
          ScanStepAfter(luck, i, j, old(caches), before, caches);
        }
        RowEnd(i);
      }
    }

    /** The popup's "collect" button: one coin from cache k to the score, if it has one. */
    method Collect(k: nat)
      requires k < |caches|
      modifies this
      ensures State() == Collected(old(State()), k)
      ensures Total(State()) == old(Total(State()))
      ensures old(NonNegative(State())) ==> NonNegative(State())
    {
      CollectConserves(State(), k);
      if NonNegative(State()) {
        CollectKeepsNonNegative(State(), k);
      }
      if caches[k].coins > 0 {
        caches := caches[k := caches[k].(coins := caches[k].coins - 1)];
        points := points + 1;
      }
    }

    /** The popup's "deposit" button: one coin from the score into cache k, if there is one. */
    method Deposit(k: nat)
      requires k < |caches|
      modifies this
      ensures State() == Deposited(old(State()), k)
      ensures Total(State()) == old(Total(State()))
      ensures old(NonNegative(State())) ==> NonNegative(State())
    {
      DepositConserves(State(), k);
      if NonNegative(State()) {
        DepositKeepsNonNegative(State(), k);
      }
      if points > 0 {
        points := points - 1;
        caches := caches[k := caches[k].(coins := caches[k].coins + 1)];
      }
    }
  }
}
