# Cache map game: placement and collect/deposit, in Dafny

This project models the game state of a small browser map game (`src/main.ts`),
taken apart from the map widget and the DOM around it.

- At start-up the game sets the score (`points`) to 0 and the cache list to empty.
- It then scans the 16 × 16 square of cells around the home cell.
  Rows `i` run from -8 to 7 in the outer loop and columns `j` from -8 to 7 in the inner one.
- A cell gets a cache when the deterministic `luck` oracle, asked with the key `"i,j"`, answers below 0.1.
- The new cache's coin count is `floor(luck("i,j,coinValue") * 100)`.
- Each cache's popup has two buttons.
  "Collect" moves one coin from the cache to the score, if the cache has one.
  "Deposit" moves one coin from the score into the cache, if the score is positive.

The Dafny modules follow that structure.

- `Keys` (keys.dfy) holds the key strings. JavaScript writes `[i, j].toString()` as the
  decimal integers joined by commas. The module proves that decimal notation reads back
  (`ParseInt(IntToString(n)) == n`). It also proves that distinct keys are distinct strings,
  and that no placement key equals a coin-value key.
- `Placement` (placement.dfy) holds the constants, the scan order, the placement test and
  the initial coin count. `Placed(luck, n)` is the list of caches after the first `n` steps
  of the scan. The lemmas state what the whole scan produces.
- `Interaction` (interaction.dfy) is the collect/deposit state machine on values: `GameState`
  is the score and the cache list. `Play` runs a whole session of clicks. The lemmas prove
  conservation of coins, non-negativity, the frame, and the undo properties.
- `Session` (session.dfy) is the game as the page runs it: a class `Game` whose fields
  `points` and `caches` are updated in place. The constructor is the start-up code.
  `PlaceCaches` holds the two nested loops and `MakePit` appends one cache.
  `Collect` and `Deposit` are the two button handlers. Each method is proved against the
  `Placement` and `Interaction` functions.

The oracle `luck` is a parameter. `Session.Game`'s constructor takes it as a function on
key strings. The other modules take it as a function on `Keys.Key` values
(`Keys.KeyedLuck(luck)`, which applies `luck` to `Keys.Text(key)`). `Keys.TextInjective`
proves that `Text` is injective, so the two views of the oracle are interchangeable.
A cache is named by its index in `caches`. The page instead captures the cache object in
the popup's closures; each object is pushed once and never removed, so the index names it.

Two facts about the code shape what is proved:

- The loops test `i < NEIGHBORHOOD_SIZE` and `j < NEIGHBORHOOD_SIZE` (src/main.ts:99-100),
  so each axis covers -8..7 and the square is not centred on the home cell.
- The code never checks that `luck` answers in [0, 1). Non-negativity of coin counts is
  therefore proved under that assumption (`Interaction.LuckInRange`). The score's
  non-negativity needs no such assumption (`Interaction.ReachableScoreNonNegative`).

## Model

| member | source | states |
|---|---|---|
| Keys.IntToString | src/main.ts:101 | computes the decimal notation JavaScript gives an integer; its shape, round trip and injectivity are stated by IntToStringShape, IntToStringRoundTrip and IntToStringInjective |
| Keys.Text | src/main.ts:53 | computes the oracle key string of a cell: "i,j" for the placement test and "i,j,coinValue" for the coin count; TextInjective states that distinct keys give distinct strings |
| Keys.IntToStringShape | src/main.ts:101 | the decimal notation of an integer is non-empty, has no comma, ends in a digit, and starts with '-' exactly for negative numbers |
| Keys.NatToStringDigits | src/main.ts:101 | the notation of a natural number is a non-empty string of digits |
| Keys.NatToStringRoundTrip | src/main.ts:101 | reading back the notation of a natural number gives the number |
| Keys.IntToStringRoundTrip | src/main.ts:101 | reading back the notation of any integer, sign included, gives the integer |
| Keys.IntToStringInjective | src/main.ts:101 | two integers with the same notation are equal |
| Keys.PlacementKeyInjective | src/main.ts:101 | two cells whose placement key strings "i,j" are equal are the same cell |
| Keys.CoinKeyInjective | src/main.ts:53 | two cells with the same coin-value key string `"i,j,coinValue"` are the same cell |
| Keys.PlacementAndCoinKeysDiffer | src/main.ts:53 | no placement key string equals any coin-value key string, so the coin value is read from a different point of the oracle than the placement test |
| Keys.TextInjective | src/main.ts:101 | distinct keys of either kind are distinct strings |
| Placement.RowGeometry | src/main.ts:99-100 | a row of the scan holds RowLength = 2 * NeighborhoodSize = 16 cells, the square holds 256, and the next row starts RowLength positions later |
| Placement.CellAt | src/main.ts:99-100 | step n of the scan visits a cell of the square whose position in the scan is n |
| Placement.ScanOrder | src/main.ts:99-100 | the scan makes 256 steps, each on a cell of the square at its own position |
| Placement.CellAtIndex | src/main.ts:99-100 | every cell of the square is the one visited at step CellIndex of that cell |
| Placement.ScanVisitsEachCellOnce | src/main.ts:99-100 | every cell with -8 <= i < 8 and -8 <= j < 8 is visited, at exactly one step |
| Placement.ScanCoversNeighborhood | src/main.ts:99-100 | the scan visits a cell exactly when it lies in the square |
| Placement.CellIndexMonotone | src/main.ts:99-100 | a later scan position means a later cell in row-major order |
| Placement.ScanIsRowMajor | src/main.ts:99-100 | the scan visits cells in strictly increasing row-major order: `i` outer, `j` inner |
| Placement.Spawns | src/main.ts:101 | holds when the oracle's answer for the cell's placement key is below 0.1; ScanCachesSpec states that exactly the cells of the square where it holds get a cache |
| Placement.InitialCoins | src/main.ts:53 | a cache's initial coin count depends only on its cell's coin-value key, and lies in 0..99 when the oracle answers in [0, 1) |
| Placement.NewCache | src/main.ts:53-59 | builds the cache of a cell, with the cell as location and InitialCoins as coin count; PlacedCoins states that every created cache is the NewCache of its own cell |
| Placement.Placed | src/main.ts:99-105 | computes the caches created by the first n steps of the scan; PlacedAt, PlacedInScanOrder, PlacedCoins and PlacedAtMostSteps state which cells they lie on, their order, their coin counts and their number |
| Placement.ScanCaches | src/main.ts:99-105 | computes the caches created by the full scan of 256 steps; ScanCachesSpec states its properties |
| Placement.PlacedFollowsScanOrder | src/main.ts:99-105 | step n of the scan adds the caches of cell ScanOrder()[n] |
| Placement.ScanStep | src/main.ts:100-103 | the visit of cell (i, j) adds a cache for that cell exactly when it passes the test, and the next column is the next step |
| Placement.ScanStepAfter | src/main.ts:100-103 | the same step for a cache list that holds other caches in front of the scan's |
| Placement.RowEnd | src/main.ts:99-100 | the step after the last column of row i is the first column of row i + 1 |
| Placement.PlacedAtMostSteps | src/main.ts:99-105 | n steps create at most n caches |
| Placement.PlacedAt | src/main.ts:99-105 | after n steps, a cache stands on cell c exactly when c is in the square, was visited before step n and passes the placement test |
| Placement.PlacedCoins | src/main.ts:53-59 | every created cache holds the initial coin count of its own cell |
| Placement.PlacedInScanOrder | src/main.ts:95 | caches are appended in scan order, so their locations are strictly row-major |
| Placement.StrictlyRowMajorDistinct | src/main.ts:95 | a strictly row-major list of cells holds no cell twice |
| Placement.ScanCachesSpec | src/main.ts:99-105 | after the scan, a cache is at (i, j) exactly when the cell is in the square and `luck("i,j") < 0.1`; the caches are in scan order, no two share a location, they number at most 256, and each starts with its cell's coin count |
| Placement.NoSpawnNoCaches | src/main.ts:101 | when the oracle never answers below 0.1 for a placement key, the scan creates no cache |
| Placement.PlacedNone | src/main.ts:101-103 | when the oracle never answers below 0.1 for a placement key, no prefix of the scan creates a cache |
| Interaction.SumCoinsUpdate | src/main.ts:76 | changing one cache's coin count changes the sum of all coin counts by the difference |
| Interaction.Collected | src/main.ts:74-81 | computes the state after a click on "collect"; CollectEffect, CollectConserves and CollectKeepsNonNegative state its effect, conservation and non-negativity |
| Interaction.Deposited | src/main.ts:83-90 | computes the state after a click on "deposit"; DepositEffect, DepositConserves and DepositKeepsNonNegative state its effect, conservation and non-negativity |
| Interaction.CollectEffect | src/main.ts:74-81 | collect on a cache with coins takes one coin from it and adds one point; on a cache without coins it changes nothing; other caches and every location stay the same |
| Interaction.DepositEffect | src/main.ts:83-90 | deposit with a positive score adds one coin to the cache and takes one point; with score 0 it changes nothing; other caches and every location stay the same |
| Interaction.CollectConserves | src/main.ts:75-77 | collect keeps points plus all coins in caches unchanged |
| Interaction.DepositConserves | src/main.ts:84-86 | deposit keeps points plus all coins in caches unchanged |
| Interaction.CollectKeepsNonNegative | src/main.ts:75-77 | collect keeps every coin count and the score non-negative |
| Interaction.DepositKeepsNonNegative | src/main.ts:84-86 | deposit keeps every coin count and the score non-negative |
| Interaction.DepositUndoesCollect | src/main.ts:74-90 | a deposit right after a successful collect on the same cache restores the cache's coins and the score |
| Interaction.CollectUndoesDeposit | src/main.ts:74-90 | a collect right after a successful deposit on the same cache restores the cache's coins and the score |
| Interaction.CollectDepositExample | src/main.ts:74-90 | a cache with 5 coins: collect gives 4 coins and 1 point, then deposit gives back 5 and 0; deposit at score 0 does nothing |
| Interaction.Play | src/main.ts:74-90 | a session of clicks never adds or removes a cache |
| Interaction.PlayPreserves | src/main.ts:74-90 | over any session of clicks, points plus coins stays constant, every cache keeps its location, and non-negativity is kept |
| Interaction.ScoreNeverNegative | src/main.ts:77-85 | from a non-negative score, every session of clicks leaves the score non-negative, whatever the caches hold |
| Interaction.Start | src/main.ts:37-42 | computes the state after start-up: score 0 and the caches of the full scan; Session.Game.constructor is proved to produce it |
| Interaction.ReachableScoreNonNegative | src/main.ts:37 | every score reached from start-up by clicks is non-negative, for every oracle |
| Interaction.SumCoinsBounds | src/main.ts:53 | caches holding 0..99 coins each hold between 0 and 99 times their number in total |
| Interaction.SumCoinsNonNegative | src/main.ts:76 | caches with no negative count hold a non-negative total |
| Interaction.CoinsAtMostSum | src/main.ts:76 | with no negative count, one cache holds at most the total of all caches |
| Interaction.StartTotalBounded | src/main.ts:53 | with an oracle answering in [0, 1), the coins at start-up total between 0 and 99 * 256 |
| Interaction.ReachableCountsBounded | src/main.ts:74-90 | with an oracle answering in [0, 1), the score and every coin count stay within 0..99 * 256 in every state reached by clicks |
| Interaction.NeverNegative | src/main.ts:37 | with an oracle answering in [0, 1), the start state and every state reached by clicks have no negative coin count and no negative score |
| Session.Game.constructor | src/main.ts:37-42 | start-up leaves the score at 0 and the cache list equal to the caches of the full scan |
| Session.Game.MakePit | src/main.ts:44-59 | creating a cache appends one cache on (i, j), with its cell's initial coin count, and nothing else |
| Session.Game.PlaceCaches | src/main.ts:99-105 | the nested loops append exactly the caches of the full scan, in scan order |
| Session.Game.Collect | src/main.ts:74-81 | the collect handler performs the collect transition, keeps the coin total, and keeps non-negativity |
| Session.Game.Deposit | src/main.ts:83-90 | the deposit handler performs the deposit transition, keeps the coin total, and keeps non-negativity |

## Left out

- The `luck` function is imported from a file that is not part of this model. It is a
  parameter here, typed as a function to reals. That typing already assumes every answer is a
  finite number; beyond that, nothing is assumed about it except where a lemma says so (`LuckInRange`).
- Non-finite answers of `luck` (NaN, ±Infinity) are not modelled. With a NaN answer the coin
  count is NaN, and a deposit into that cache takes a point while the cache's count stays NaN,
  so the coin total is not conserved.
- Interaction.CollectConserves, Interaction.DepositConserves, Interaction.PlayPreserves: the score
  and coin counts are unbounded integers here. In the program they are floating-point numbers, where
  adding or taking one is exact only below 2^53. From 2^53 up, `coins--` can leave the count unchanged
  while `points++` still adds a point, and an oracle answer near 1.8e306 gives an infinite count.
  So these lemmas match the program only while counts stay below 2^53. Finite answers are not
  enough for that. An oracle answering in [0, 1) is, by `ReachableCountsBounded`: every count
  stays within 0..99 * 256.
- Placement.InitialCoins: computes `floor(x * 100)` on exact reals. The floating-point
  rounding of the product in JavaScript is not modelled.
- Interaction.NeverNegative: holds only for an oracle answering in [0, 1). The code does not
  enforce that range, so a negative answer would give a cache a negative initial coin count.
- Interaction.DepositUndoesCollect: stated for states whose score is not negative. By
  `ReachableScoreNonNegative`, every reachable state qualifies, for every oracle.
- Interaction.CollectUndoesDeposit: stated for caches whose coin count is not negative.
  By `NeverNegative`, every reachable state qualifies.
- Keys.IntToString, Keys.IntToStringShape: cover integers only. JavaScript's notation for fractions and for
  numbers of 1e21 or more is not modelled; the scan only builds keys from -8..7.
- The map widget, tile layer, player marker and cache rectangles are a foreign UI library
  and are not modelled.
- The latitude/longitude bounds of a cell are not modelled. They are floating-point degree
  arithmetic used only for drawing.
- The popup's HTML, the status panel text and the coin-count display are presentation and are
  not modelled. The popup is rebuilt from the initial coin value captured at creation, so
  reopening a popup can show a stale count. This affects the display only, not the state.
- Event-listener registration is not modelled. Each click is a direct call to
  `Game.Collect` or `Game.Deposit` with the cache's index.
- Object identity of caches is not modelled. A cache is named by its position in `caches`
  rather than by a reference captured in a closure.
