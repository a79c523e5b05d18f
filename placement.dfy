/**
 * Cache placement.  At start-up the game scans the square of cells around
 * the home location, row by row, and places a cache on a cell when the
 * `luck` oracle, asked with the cell's placement key, answers below the
 * spawn probability.  A new cache's coin count is read from the same oracle
 * under the cell's coin-value key.
 *
 * `luck` is a parameter: a deterministic map from keys to reals (the
 * oracle on key strings seen through Keys.Text, see Keys.KeyedLuck).
 * Everything here is a function of it, so the same oracle always yields the
 * same caches.
 */
module Placement {
  import opened Keys

  /** Cells reach this many steps from the home cell, on each side of it. */
  const NeighborhoodSize: int := 8
  /** Cells in one row of the scanned square: the loops run from -NeighborhoodSize up to NeighborhoodSize - 1. */
  const RowLength: int := 2 * NeighborhoodSize
  /** Cells in the scanned square: RowLength rows of RowLength cells. */
  const CellCount: int := RowLength * RowLength
  const SpawnProbability: real := 0.1

  /** A cell as its (row, column) offset from the home cell. */
  type Cell = (int, int)

  /** A cache and the coins it holds. */
  datatype Cache = Cache(location: Cell, coins: int)

  predicate InNeighborhood(c: Cell) {
    -NeighborhoodSize <= c.0 < NeighborhoodSize && -NeighborhoodSize <= c.1 < NeighborhoodSize
  }

  /** Row-major order: by row first, by column within a row. */
  predicate RowMajorBefore(a: Cell, b: Cell) {
    a.0 < b.0 || (a.0 == b.0 && a.1 < b.1)
  }

  predicate StrictlyRowMajor(cells: seq<Cell>) {
    forall a, b :: 0 <= a < b < |cells| ==> RowMajorBefore(cells[a], cells[b])
  }

  /**
   * Position of cell (i, j) among the cells the scan visits.  The row length
   * is written as the literal 16, which RowGeometry equates with RowLength;
   * a literal keeps the arithmetic linear for the verifier.
   */
  function CellIndex(c: Cell): int {
    (c.0 + NeighborhoodSize) * 16 + (c.1 + NeighborhoodSize)
  }

  /** The literal row length of CellIndex and CellAt is RowLength, and consecutive rows are RowLength apart. */
  lemma RowGeometry(c: Cell)
    ensures RowLength == 16 && CellCount == 256
    ensures CellIndex((c.0 + 1, c.1)) == CellIndex(c) + RowLength
  {
  }

  /** The cell the scan visits in step n. */
  function CellAt(n: int): (c: Cell)
    requires 0 <= n < CellCount
    ensures InNeighborhood(c) && CellIndex(c) == n
  {
    (n / 16 - NeighborhoodSize, n % 16 - NeighborhoodSize)
  }

  /** The cells in the order the two nested loops visit them. */
  function ScanOrder(): (cells: seq<Cell>)
    ensures |cells| == CellCount == 256
    ensures forall k :: 0 <= k < |cells| ==> InNeighborhood(cells[k]) && CellIndex(cells[k]) == k
  {
    seq(CellCount, n requires 0 <= n < CellCount => CellAt(n))
  }

  /** Cell c is the one the scan visits in step CellIndex(c). */
  lemma CellAtIndex(c: Cell)
    requires InNeighborhood(c)
    ensures 0 <= CellIndex(c) < CellCount && CellAt(CellIndex(c)) == c
  {
    var n := CellIndex(c);
    assert n / 16 == c.0 + NeighborhoodSize && n % 16 == c.1 + NeighborhoodSize;
  }

  /** Every cell of the square is visited, in exactly one step. */
  lemma ScanVisitsEachCellOnce(c: Cell)
    requires InNeighborhood(c)
    ensures 0 <= CellIndex(c) < CellCount && ScanOrder()[CellIndex(c)] == c
    ensures forall k :: 0 <= k < CellCount ==> (ScanOrder()[k] == c <==> k == CellIndex(c))
  {
    CellAtIndex(c);
  }

  /** The scan visits exactly the cells of the square. */
  lemma ScanCoversNeighborhood(c: Cell)
    ensures c in ScanOrder() <==> InNeighborhood(c)
  {
    if InNeighborhood(c) {
      ScanVisitsEachCellOnce(c);
    }
  }

  lemma CellIndexMonotone(a: Cell, b: Cell)
    requires InNeighborhood(a) && InNeighborhood(b)
    requires CellIndex(a) < CellIndex(b)
    ensures RowMajorBefore(a, b)
  {
  }

  /** The scan runs the row index in the outer loop, the column index in the inner one. */
  lemma ScanIsRowMajor()
    ensures StrictlyRowMajor(ScanOrder())
  {
    var cells := ScanOrder();
    forall a, b | 0 <= a < b < |cells|
      ensures RowMajorBefore(cells[a], cells[b])
    {
      CellIndexMonotone(cells[a], cells[b]);
    }
  }

  /** The placement test of a cell. */
  predicate Spawns(luck: Key -> real, c: Cell) {
    luck(PlacementKey(c.0, c.1)) < SpawnProbability
  }

  /** The initial coin count of a cache on cell c: `floor(luck(coin key) * 100)`. */
  function InitialCoins(luck: Key -> real, c: Cell): (coins: int)
    ensures 0.0 <= luck(CoinKey(c.0, c.1)) < 1.0 ==> 0 <= coins < 100
  {
    (luck(CoinKey(c.0, c.1)) * 100.0).Floor
  }

  function NewCache(luck: Key -> real, c: Cell): Cache {
    Cache(c, InitialCoins(luck, c))
  }

  function Locations(caches: seq<Cache>): (cells: seq<Cell>)
    ensures |cells| == |caches|
    ensures forall k :: 0 <= k < |caches| ==> cells[k] == caches[k].location
  {
    seq(|caches|, k requires 0 <= k < |caches| => caches[k].location)
  }

  lemma LocationsAppend(a: seq<Cache>, b: seq<Cache>)
    ensures Locations(a + b) == Locations(a) + Locations(b)
  {
  }

  /** What visiting cell c adds to the cache list: one new cache, or nothing. */
  function Visit(luck: Key -> real, c: Cell): seq<Cache> {
    if Spawns(luck, c) then [NewCache(luck, c)] else []
  }

  /**
   * The caches the scan has created after its first n steps, in creation
   * order: each step visits the next cell of ScanOrder().
   */
  function Placed(luck: Key -> real, n: int): seq<Cache>
    requires 0 <= n <= CellCount
    decreases n
  {
    if n == 0 then [] else Placed(luck, n - 1) + Visit(luck, CellAt(n - 1))
  }

  /** The caches the full start-up scan creates. */
  function ScanCaches(luck: Key -> real): seq<Cache> {
    Placed(luck, CellCount)
  }

  /** Placed follows the order of ScanOrder(): step n visits ScanOrder()[n]. */
  lemma {:induction false} PlacedFollowsScanOrder(luck: Key -> real, n: int)
    requires 0 <= n < CellCount
    ensures Placed(luck, n + 1) == Placed(luck, n) + Visit(luck, ScanOrder()[n])
  {
  }

  /** The step after the last cell of row i is the first cell of row i + 1. */
  lemma RowEnd(i: int)
    ensures CellIndex((i, NeighborhoodSize)) == CellIndex((i + 1, -NeighborhoodSize))
  {
  }

  /** One step of the scan, on cell (i, j): the caches so far, then those of the visit. */
  lemma ScanStep(luck: Key -> real, i: int, j: int)
    requires InNeighborhood((i, j))
    ensures 0 <= CellIndex((i, j)) < CellIndex((i, j + 1)) <= CellCount
    ensures Placed(luck, CellIndex((i, j + 1))) == Placed(luck, CellIndex((i, j))) + Visit(luck, (i, j))
  {
    CellAtIndex((i, j));
    assert CellIndex((i, j + 1)) == CellIndex((i, j)) + 1;
  }

  /** The same step, for a list that holds other caches in front of the scan's. */
  lemma ScanStepAfter(luck: Key -> real, i: int, j: int, front: seq<Cache>, before: seq<Cache>, after: seq<Cache>)
    requires InNeighborhood((i, j))
    requires 0 <= CellIndex((i, j)) && before == front + Placed(luck, CellIndex((i, j)))
    requires after == before + Visit(luck, (i, j))
    ensures CellIndex((i, j + 1)) <= CellCount
    ensures after == front + Placed(luck, CellIndex((i, j + 1)))
  {
    ScanStep(luck, i, j);
  }

  /** A scan places no more caches than it visits cells. */
  lemma {:induction false} PlacedAtMostSteps(luck: Key -> real, n: int)
    requires 0 <= n <= CellCount
    ensures |Placed(luck, n)| <= n
    decreases n
  {
    if n > 0 {
      PlacedAtMostSteps(luck, n - 1);
    }
  }

  /**
   * After n steps a cache stands on cell c exactly when c lies in the square,
   * comes before step n in the scan and passes the placement test.
   */
  lemma {:induction false} PlacedAt(luck: Key -> real, n: int, c: Cell)
    requires 0 <= n <= CellCount
    ensures c in Locations(Placed(luck, n)) <==> InNeighborhood(c) && CellIndex(c) < n && Spawns(luck, c)
    decreases n
  {
    if n > 0 {
      var last := CellAt(n - 1);
      PlacedAt(luck, n - 1, c);
      LocationsAppend(Placed(luck, n - 1), Visit(luck, last));
      assert Locations(Visit(luck, last)) == if Spawns(luck, last) then [last] else [];
      if InNeighborhood(c) {
        CellAtIndex(c);
      }
    }
  }

  /** Every placed cache starts with the coin count read under its own cell's key. */
  lemma {:induction false} PlacedCoins(luck: Key -> real, n: int)
    requires 0 <= n <= CellCount
    ensures forall k :: 0 <= k < |Placed(luck, n)| ==>
      Placed(luck, n)[k] == NewCache(luck, Placed(luck, n)[k].location)
    decreases n
  {
    if n > 0 {
      PlacedCoins(luck, n - 1);
    }
  }

  /** Caches come out in the order their cells were visited. */
  lemma {:induction false} PlacedInScanOrder(luck: Key -> real, n: int)
    requires 0 <= n <= CellCount
    ensures StrictlyRowMajor(Locations(Placed(luck, n)))
    decreases n
  {
    if n > 0 {
      var last := CellAt(n - 1);
      PlacedInScanOrder(luck, n - 1);
      var before := Locations(Placed(luck, n - 1));
      LocationsAppend(Placed(luck, n - 1), Visit(luck, last));
      if Spawns(luck, last) {
        assert Locations(Placed(luck, n)) == before + [last];
        forall a | 0 <= a < |before|
          ensures RowMajorBefore(before[a], last)
        {
          PlacedAt(luck, n - 1, before[a]);
          CellIndexMonotone(before[a], last);
        }
      } else {
        assert Locations(Placed(luck, n)) == before;
      }
    }
  }

  /** A strictly ordered sequence of cells names no cell twice. */
  lemma StrictlyRowMajorDistinct(cells: seq<Cell>)
    requires StrictlyRowMajor(cells)
    ensures forall a, b :: 0 <= a < |cells| && 0 <= b < |cells| && a != b ==> cells[a] != cells[b]
  {
    forall a, b | 0 <= a < |cells| && 0 <= b < |cells| && a != b
      ensures cells[a] != cells[b]
    {
      if a < b {
        assert RowMajorBefore(cells[a], cells[b]);
      } else {
        assert RowMajorBefore(cells[b], cells[a]);
      }
    }
  }

  /**
   * What the start-up scan produces: a cache on cell c exactly when c lies
   * in the square and passes the placement test; the caches in row-major
   * scan order, hence no cell twice and at most 256 of them; each with the
   * coin count of its own cell.
   */
  lemma ScanCachesSpec(luck: Key -> real)
    ensures forall c :: c in Locations(ScanCaches(luck)) <==> InNeighborhood(c) && Spawns(luck, c)
    ensures StrictlyRowMajor(Locations(ScanCaches(luck)))
    ensures forall a, b :: 0 <= a < b < |ScanCaches(luck)| ==>
      ScanCaches(luck)[a].location != ScanCaches(luck)[b].location
    ensures |ScanCaches(luck)| <= CellCount
    ensures forall k :: 0 <= k < |ScanCaches(luck)| ==>
      ScanCaches(luck)[k].coins == InitialCoins(luck, ScanCaches(luck)[k].location)
  {
    forall c
      ensures c in Locations(ScanCaches(luck)) <==> InNeighborhood(c) && Spawns(luck, c)
    {
      PlacedAt(luck, CellCount, c);
    }
    PlacedInScanOrder(luck, CellCount);
    StrictlyRowMajorDistinct(Locations(ScanCaches(luck)));
    PlacedAtMostSteps(luck, CellCount);
    PlacedCoins(luck, CellCount);
  }

  /** When the oracle never answers below the spawn probability, the scan creates no cache. */
  lemma NoSpawnNoCaches(luck: Key -> real)
    requires forall i, j :: luck(PlacementKey(i, j)) >= SpawnProbability
    ensures ScanCaches(luck) == []
  {
    PlacedNone(luck, CellCount);
  }

  lemma {:induction false} PlacedNone(luck: Key -> real, n: int)
    requires 0 <= n <= CellCount
    requires forall i, j :: luck(PlacementKey(i, j)) >= SpawnProbability
    ensures Placed(luck, n) == []
    decreases n
  {
    if n > 0 {
      PlacedNone(luck, n - 1);
    }
  }
}
