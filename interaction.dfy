/**
 * The collect/deposit state machine.  The game's state is the player's point
 * score and the list of caches; a click on a cache's "collect" button moves
 * one coin from that cache to the score, a click on "deposit" moves one coin
 * from the score back into that cache, and each click does nothing when there
 * is no coin to move.  A cache is named by its index in the list.
 */
module Interaction {
  import opened Keys
  import opened Placement

  datatype GameState = GameState(points: int, caches: seq<Cache>)

  /** The coins held in all caches together. */
  function SumCoins(caches: seq<Cache>): int
    decreases |caches|
  {
    if caches == [] then 0 else caches[0].coins + SumCoins(caches[1..])
  }

  /** Every coin in the game: the score plus the coins still in caches. */
  function Total(s: GameState): int {
    s.points + SumCoins(s.caches)
  }

  /** No cache holds a negative number of coins and the score is not negative. */
  predicate NonNegative(s: GameState) {
    s.points >= 0 && forall k :: 0 <= k < |s.caches| ==> s.caches[k].coins >= 0
  }

  /** The state after a click on "collect" of cache k. */
  function Collected(s: GameState, k: nat): GameState
    requires k < |s.caches|
  {
    var cache := s.caches[k];
    if cache.coins > 0 then
      GameState(s.points + 1, s.caches[k := cache.(coins := cache.coins - 1)])
    else
      s
  }

  /** The state after a click on "deposit" of cache k. */
  function Deposited(s: GameState, k: nat): GameState
    requires k < |s.caches|
  {
    var cache := s.caches[k];
    if s.points > 0 then
      GameState(s.points - 1, s.caches[k := cache.(coins := cache.coins + 1)])
    else
      s
  }

  /** Replacing one cache changes the sum by the difference of the two coin counts. */
  lemma {:induction false} SumCoinsUpdate(caches: seq<Cache>, k: nat, c: Cache)
    requires k < |caches|
    ensures SumCoins(caches[k := c]) == SumCoins(caches) - caches[k].coins + c.coins
    decreases |caches|
  {
    if k > 0 {
      SumCoinsUpdate(caches[1..], k - 1, c);
      assert caches[k := c][1..] == caches[1..][k - 1 := c];
    } else {
      assert caches[k := c][1..] == caches[1..];
    }
  }

  /**
   * Collect on a cache with coins takes one coin from it and adds one point;
   * on a cache without coins it changes nothing.  No other cache changes, and
   * no cache moves.
   */
  lemma CollectEffect(s: GameState, k: nat)
    requires k < |s.caches|
    ensures var r := Collected(s, k);
      |r.caches| == |s.caches| &&
      (forall m :: 0 <= m < |s.caches| && m != k ==> r.caches[m] == s.caches[m]) &&
      r.caches[k].location == s.caches[k].location &&
      (s.caches[k].coins > 0 ==> r.caches[k].coins == s.caches[k].coins - 1 && r.points == s.points + 1) &&
      (s.caches[k].coins <= 0 ==> r == s)
  {
  }

  /**
   * Deposit with a positive score puts one coin into the cache and takes one
   * point; with no points it changes nothing.  No other cache changes, and no
   * cache moves.
   */
  lemma DepositEffect(s: GameState, k: nat)
    requires k < |s.caches|
    ensures var r := Deposited(s, k);
      |r.caches| == |s.caches| &&
      (forall m :: 0 <= m < |s.caches| && m != k ==> r.caches[m] == s.caches[m]) &&
      r.caches[k].location == s.caches[k].location &&
      (s.points > 0 ==> r.caches[k].coins == s.caches[k].coins + 1 && r.points == s.points - 1) &&
      (s.points <= 0 ==> r == s)
  {
  }

  /** Collect moves a coin; it neither creates nor destroys one. */
  lemma CollectConserves(s: GameState, k: nat)
    requires k < |s.caches|
    ensures Total(Collected(s, k)) == Total(s)
  {
    var cache := s.caches[k];
    SumCoinsUpdate(s.caches, k, cache.(coins := cache.coins - 1));
  }

  /** Deposit moves a coin; it neither creates nor destroys one. */
  lemma DepositConserves(s: GameState, k: nat)
    requires k < |s.caches|
    ensures Total(Deposited(s, k)) == Total(s)
  {
    var cache := s.caches[k];
    SumCoinsUpdate(s.caches, k, cache.(coins := cache.coins + 1));
  }

  lemma CollectKeepsNonNegative(s: GameState, k: nat)
    requires k < |s.caches| && NonNegative(s)
    ensures NonNegative(Collected(s, k))
  {
  }

  lemma DepositKeepsNonNegative(s: GameState, k: nat)
    requires k < |s.caches| && NonNegative(s)
    ensures NonNegative(Deposited(s, k))
  {
  }

  /** A deposit undoes a successful collect on the same cache. */
  lemma DepositUndoesCollect(s: GameState, k: nat)
    requires k < |s.caches| && s.caches[k].coins > 0 && s.points >= 0
    ensures Deposited(Collected(s, k), k) == s
  {
    var c := s.caches[k];
    assert s.caches[k := c.(coins := c.coins - 1)][k := c] == s.caches;
  }

  /** A collect undoes a successful deposit on the same cache. */
  lemma CollectUndoesDeposit(s: GameState, k: nat)
    requires k < |s.caches| && s.points > 0 && s.caches[k].coins >= 0
    ensures Collected(Deposited(s, k), k) == s
  {
    var c := s.caches[k];
    assert s.caches[k := c.(coins := c.coins + 1)][k := c] == s.caches;
  }

  /** A cache holding 5 coins: collect leaves 4 and one point; deposit then restores both. */
  lemma CollectDepositExample()
    ensures var s := GameState(0, [Cache((0, 0), 5)]);
      Collected(s, 0) == GameState(1, [Cache((0, 0), 4)]) &&
      Deposited(Collected(s, 0), 0) == s &&
      Deposited(s, 0) == s
  {
  }

  /** A click in the game: the button pressed and the index of its cache. */
  datatype Click = Collect(cache: nat) | Deposit(cache: nat)

  predicate ClicksFit(clicks: seq<Click>, count: nat) {
    forall n :: 0 <= n < |clicks| ==> clicks[n].cache < count
  }

  /** The state after a session of clicks, in order. */
  function Play(s: GameState, clicks: seq<Click>): (r: GameState)
    requires ClicksFit(clicks, |s.caches|)
    ensures |r.caches| == |s.caches|
    decreases |clicks|
  {
    if clicks == [] then s
    else
      var next := match clicks[0]
        case Collect(k) => Collected(s, k)
        case Deposit(k) => Deposited(s, k);
      Play(next, clicks[1..])
  }

  /**
   * Over any session of clicks: the total number of coins stays the same,
   * every cache keeps its location, and no count becomes negative.
   */
  lemma {:induction false} PlayPreserves(s: GameState, clicks: seq<Click>)
    requires ClicksFit(clicks, |s.caches|)
    ensures Total(Play(s, clicks)) == Total(s)
    ensures Locations(Play(s, clicks).caches) == Locations(s.caches)
    ensures NonNegative(s) ==> NonNegative(Play(s, clicks))
    decreases |clicks|
  {
    if clicks != [] {
      var next := match clicks[0]
        case Collect(k) => Collected(s, k)
        case Deposit(k) => Deposited(s, k);
      match clicks[0] {
        case Collect(k) =>
          CollectConserves(s, k);
          CollectEffect(s, k);
          if NonNegative(s) { CollectKeepsNonNegative(s, k); }
        case Deposit(k) =>
          DepositConserves(s, k);
          DepositEffect(s, k);
          if NonNegative(s) { DepositKeepsNonNegative(s, k); }
      }
      assert Locations(next.caches) == Locations(s.caches);
      PlayPreserves(next, clicks[1..]);
    }
  }

  /**
   * The score alone stays non-negative over any session of clicks, whatever
   * the caches hold: deposit takes a point only when the score is positive.
   */
  lemma {:induction false} ScoreNeverNegative(s: GameState, clicks: seq<Click>)
    requires ClicksFit(clicks, |s.caches|) && s.points >= 0
    ensures Play(s, clicks).points >= 0
    decreases |clicks|
  {
    if clicks != [] {
      var next := match clicks[0]
        case Collect(k) => Collected(s, k)
        case Deposit(k) => Deposited(s, k);
      ScoreNeverNegative(next, clicks[1..]);
    }
  }

  /** The state right after start-up: no points yet, and the caches of the scan. */
  function Start(luck: Key -> real): GameState {
    GameState(0, ScanCaches(luck))
  }

  /** Every score the game reaches is non-negative, for every oracle. */
  lemma ReachableScoreNonNegative(luck: Key -> real, clicks: seq<Click>)
    requires ClicksFit(clicks, |Start(luck).caches|)
    ensures Play(Start(luck), clicks).points >= 0
  {
    ScoreNeverNegative(Start(luck), clicks);
  }

  /** The oracle answers in [0, 1), as a deterministic hash normalised to that range does. */
  ghost predicate LuckInRange(luck: Key -> real) {
    forall key :: 0.0 <= luck(key) < 1.0
  }

  /**
   * With such an oracle, the game starts with no negative count, and keeps
   * that through any session of clicks.
   */
  lemma NeverNegative(luck: Key -> real, clicks: seq<Click>)
    requires LuckInRange(luck)
    requires ClicksFit(clicks, |Start(luck).caches|)
    ensures NonNegative(Start(luck))
    ensures NonNegative(Play(Start(luck), clicks))
  {
    var caches := ScanCaches(luck);
    ScanCachesSpec(luck);
    forall k | 0 <= k < |caches|
      ensures caches[k].coins >= 0
    {
      var c := caches[k].location;
      assert 0.0 <= luck(CoinKey(c.0, c.1)) < 1.0;
    }
    PlayPreserves(Start(luck), clicks);
  }

  /** Caches holding 0..99 coins each hold 0..99 coins per cache between them. */
  lemma {:induction false} SumCoinsBounds(caches: seq<Cache>)
    requires forall k :: 0 <= k < |caches| ==> 0 <= caches[k].coins < 100
    ensures 0 <= SumCoins(caches) <= 99 * |caches|
    decreases |caches|
  {
    if caches != [] {
      SumCoinsBounds(caches[1..]);
    }
  }

  /** With no negative count, no single cache holds more than all caches together. */
  lemma {:induction false} CoinsAtMostSum(caches: seq<Cache>, k: nat)
    requires k < |caches|
    requires forall m :: 0 <= m < |caches| ==> caches[m].coins >= 0
    ensures caches[k].coins <= SumCoins(caches)
    decreases |caches|
  {
    if k > 0 {
      CoinsAtMostSum(caches[1..], k - 1);
    } else {
      SumCoinsNonNegative(caches[1..]);
    }
  }

  /** Caches with no negative count hold a non-negative number of coins between them. */
  lemma {:induction false} SumCoinsNonNegative(caches: seq<Cache>)
    requires forall m :: 0 <= m < |caches| ==> caches[m].coins >= 0
    ensures SumCoins(caches) >= 0
    decreases |caches|
  {
    if caches != [] {
      SumCoinsNonNegative(caches[1..]);
    }
  }

  /** With an oracle answering in [0, 1), the game starts with at most 99 coins per cell of the square. */
  lemma StartTotalBounded(luck: Key -> real)
    requires LuckInRange(luck)
    ensures 0 <= Total(Start(luck)) <= 99 * CellCount
  {
    var caches := ScanCaches(luck);
    ScanCachesSpec(luck);
    forall k | 0 <= k < |caches|
      ensures 0 <= caches[k].coins < 100
    {
      var c := caches[k].location;
      assert 0.0 <= luck(CoinKey(c.0, c.1)) < 1.0;
    }
    SumCoinsBounds(caches);
  }

  /**
   * With an oracle answering in [0, 1), the score and every coin count stay
   * within 0..99 * CellCount in every reachable state: far below 2^53, where
   * adding or taking one coin is exact in the program's number type.
   */
  lemma ReachableCountsBounded(luck: Key -> real, clicks: seq<Click>)
    requires LuckInRange(luck)
    requires ClicksFit(clicks, |Start(luck).caches|)
    ensures var r := Play(Start(luck), clicks);
      0 <= r.points <= 99 * CellCount &&
      forall k :: 0 <= k < |r.caches| ==> 0 <= r.caches[k].coins <= 99 * CellCount
  {
    var r := Play(Start(luck), clicks);
    StartTotalBounded(luck);
    NeverNegative(luck, clicks);
    PlayPreserves(Start(luck), clicks);
    SumCoinsNonNegative(r.caches);
    forall k | 0 <= k < |r.caches|
      ensures r.caches[k].coins <= 99 * CellCount
    {
      CoinsAtMostSum(r.caches, k);
    }
  }
}
