# Enhanced best-fit cutting policy, modelled in Dafny

This project models `Policy2352259`, a stateless placement heuristic for
two-dimensional stock cutting. Given a snapshot (the stock grids and the
products still wanted), the policy picks a single placement. The model
covers its four layers:

- **Orientation enumeration** (`Orientation`): the sizes a product may
  take on a stock. This is the original size, plus the rotated size when
  the product is not square, keeping only the sizes that fit the stock's
  usable size.
- **Position scoring** (`Scoring`): for a rectangle at a top-left corner,
  the policy computes three numbers:
  - an edge-alignment count;
  - the Manhattan distance to the nearest corner of the grid's raw shape;
  - the number of occupied cells (value >= 0) bordering the rectangle.
  
  Each number has a reference meaning, and the policy's step-by-step
  computation is proved equal to it.
- **Exhaustive search** (`Search`): a row-major scan of every top-left
  position that fits the raw shape. Positions the external feasibility
  test rejects are skipped, and the first position with the highest total
  score is kept.
- **Action selection** (`Selection`): a loop over every product with
  remaining quantity, then every stock, then every valid orientation. It
  keeps the one placement that strictly beats all earlier ones, and
  returns none when nothing can be placed.

`Stock` holds the shared vocabulary: sizes, positions, the rectangular grid
and the row-major order.

Scores are integers scaled by ten: `100 * edge + 50 * adjacent - cornerDist`
is ten times the policy's `10 * edge + 5 * adjacent - 0.1 * cornerDist`.
In exact arithmetic, scaling by a positive constant preserves every strict
comparison, so the argmax and the tie-breaking stay the same (see
`Scoring.Total` under "## Left out" for the policy's floating-point totals). The policy's `float('-inf')`
starting score is `None`, which `Beats` treats as lower than every integer.

The main results:

- `Search.FindBestPosition` ensures `IsBestPosition`. The returned position
  is feasible and its score equals its total. No feasible position scores
  higher, and every feasible position earlier in row-major order scores
  strictly less. The result is `None` exactly when no position is feasible.
- `Selection.GetAction` returns `None` exactly when no choice
  (product, stock, orientation, position) is feasible. Otherwise it returns
  the action of a choice that `IsFirstBest` describes: feasible, with a
  maximal total, and scoring strictly more than every feasible choice met
  before it in the loop order.
- Lemmas about that specification:
  - the first best choice is unique;
  - its action names a valid stock and a valid size of a product that is
    still wanted;
  - its position is exactly the search result for that stock and size;
  - products without remaining quantity never affect the outcome.

## Model

| member | source | states |
|---|---|---|
| Stock.Rotated | student_submissions/s2210xxx/policy2352259.py:12-13 | The rotated size differs from the original exactly when the product is not square, the test on line 12. |
| Stock.RotatedTwice | student_submissions/s2210xxx/policy2352259.py:13 | Rotating twice gives the size back. A rotated size fits a limit exactly when the original fits the rotated limit. |
| Orientation.TwoValidSizes | student_submissions/s2210xxx/policy2352259.py:11-16 | A product has two valid orientations exactly when it is not square and fits the stock both ways round. |
| Orientation.Orientations | student_submissions/s2210xxx/policy2352259.py:11-13 | The original size always comes first. The rotated size is second, and it is present exactly when the product is not square. |
| Orientation.KeepFitting | student_submissions/s2210xxx/policy2352259.py:15-16 | The filter keeps exactly the sizes that fit, never adds any, and keeps a fitting first element first. |
| Orientation.KeepFittingAppend | student_submissions/s2210xxx/policy2352259.py:15-16 | The filter keeps the order of the kept sizes: filtering a concatenation is the concatenation of the filtered parts. |
| Orientation.ValidSizes | student_submissions/s2210xxx/policy2352259.py:9-16 | There are at most two sizes, and every one fits the usable size. A size is valid exactly when it is the original or (for a non-square product) the rotated size and it fits. The original comes first exactly when it fits. A square product has at most one size. Two sizes means original then rotated. |
| Orientation.ValidSizesIndexed | student_submissions/s2210xxx/policy2352259.py:9-16 | Lists the valid sizes index by index: how many there are, and which size is at each index. |
| Stock.BeforeTotal | student_submissions/s2210xxx/policy2352259.py:58-59 | The row-major scan order is a strict total order on positions. |
| Stock.Beats | student_submissions/s2210xxx/policy2352259.py:56 | `None`, the policy's `float('-inf')` start, is beaten by every integer (lines 56 and 80). The comparison is strict, as at lines 68 and 96: an equal score never beats the best. |
| Scoring.Total | student_submissions/s2210xxx/policy2352259.py:64-66 | The scaled total is exactly ten times the policy's `10 * edge + 5 * adjacent - 0.1 * corner_dist` in exact arithmetic. For the policy's doubles, see the `Scoring.Total` line under "## Left out". |
| Scoring.TotalComparesAsExact | student_submissions/s2210xxx/policy2352259.py:64-68 | Strict `>` and equality on scaled totals decide exactly as they do on the exact totals. |
| Scoring.EdgeScore | student_submissions/s2210xxx/policy2352259.py:25-29 | The edge count is always 0, 1 or 2. |
| Scoring.EdgeScorePositiveIffOnFrame | student_submissions/s2210xxx/policy2352259.py:24-29 | A non-empty rectangle inside the grid earns an edge point exactly when it covers a cell of the grid's outer frame. |
| Scoring.EdgeScoreTwoIffCorner | student_submissions/s2210xxx/policy2352259.py:24-29 | A non-empty rectangle inside the grid earns both edge points exactly when it covers a corner cell of the grid. |
| Scoring.Manhattan | student_submissions/s2210xxx/policy2352259.py:33 | A Manhattan distance is never negative. |
| Scoring.ManhattanZero | student_submissions/s2210xxx/policy2352259.py:33 | A Manhattan distance is zero exactly between equal positions. |
| Scoring.CornerDist | student_submissions/s2210xxx/policy2352259.py:32-33 | The corner distance is never negative. |
| Scoring.CornerDistIsNearest | student_submissions/s2210xxx/policy2352259.py:32-33 | The corner distance is at most the distance to each of the four corners, and equals the distance to one of them. |
| Scoring.CornerDistZeroIffCorner | student_submissions/s2210xxx/policy2352259.py:32-33 | The corner distance is zero exactly when the position is one of the four corners of the raw shape. |
| Scoring.CountRow | student_submissions/s2210xxx/policy2352259.py:38-40 | The occupied count over a row slice is between 0 and the slice length. |
| Scoring.CountCol | student_submissions/s2210xxx/policy2352259.py:42-44 | The occupied count over a column slice is between 0 and the slice length. |
| Scoring.RowRunCount | student_submissions/s2210xxx/policy2352259.py:38-40 | The count over a row slice is the number of occupied cells in that slice. |
| Scoring.ColRunCount | student_submissions/s2210xxx/policy2352259.py:42-44 | The count over a column slice is the number of occupied cells in that slice. |
| Scoring.NeighboursAreSides | student_submissions/s2210xxx/policy2352259.py:36-44 | The occupied bordering cells are exactly the union of the occupied cells of the four in-bounds sides. |
| Scoring.SidesDisjoint | student_submissions/s2210xxx/policy2352259.py:36-44 | No cell is counted twice: the four sides share no cell, so their sizes add up. |
| Scoring.AdjacentFilledBySide | student_submissions/s2210xxx/policy2352259.py:36-44 | The policy's side-by-side sum equals the number of occupied cells bordering the rectangle. |
| Scoring.AdjacentFilledBounds | student_submissions/s2210xxx/policy2352259.py:36-44 | The adjacency bonus is between 0 and 2 * width + 2 * height of the rectangle. |
| Scoring.AdjacentFilledOnEmptyGrid | student_submissions/s2210xxx/policy2352259.py:36-44 | On a grid with no occupied cell, the adjacency bonus is 0 everywhere. |
| Scoring.CountAdjacent | student_submissions/s2210xxx/policy2352259.py:36-44 | The four guarded accumulations compute the number of occupied cells bordering the rectangle. |
| Scoring.ScorePosition | student_submissions/s2210xxx/policy2352259.py:18-50 | Each part of the breakdown equals its reference meaning (edge count, nearest-corner distance, bordering occupied cells), and its scaled total equals `TotalScore`. |
| Search.BestPositionUnique | student_submissions/s2210xxx/policy2352259.py:52-72 | The outcome of the search is determined: two results that both satisfy `IsBestPosition` are equal. |
| Search.ScanPass | student_submissions/s2210xxx/policy2352259.py:60-61 | Skipping an infeasible position, or one that does not beat the best, keeps the best-so-far invariant one step further. |
| Search.ScanTake | student_submissions/s2210xxx/policy2352259.py:68-70 | Taking a feasible position that strictly beats the best keeps the invariant, with that position and its score as the new best. |
| Search.ScanNextRow | student_submissions/s2210xxx/policy2352259.py:58-59 | By the end of a row, every position of that row has been scanned. |
| Search.ScanDone | student_submissions/s2210xxx/policy2352259.py:58-72 | After the last row, the best so far is the best over all candidates. |
| Search.ScanCell | student_submissions/s2210xxx/policy2352259.py:59-70 | One step of the inner loop keeps the invariant. It takes (i, j) exactly when (i, j) is feasible and strictly beats the best score. |
| Search.ScanRow | student_submissions/s2210xxx/policy2352259.py:59-70 | The inner loop carries the invariant from the start of row i to the start of row i + 1. |
| Search.FindBestPosition | student_submissions/s2210xxx/policy2352259.py:52-72 | Returns a feasible position and its total score, at least the score of every feasible position, and the first in row-major order among equals. Returns `None` for both exactly when no position is feasible. |
| Selection.SlotCandidates | student_submissions/s2210xxx/policy2352259.py:92-94 | The positions searched for (product, stock, orientation) are exactly the feasible choices of that slot, scored the same way. |
| Selection.SlotMember | student_submissions/s2210xxx/policy2352259.py:92-94 | A feasible choice of a slot is a candidate of that slot's search, with the same score. |
| Selection.SlotPass | student_submissions/s2210xxx/policy2352259.py:94-96 | A slot whose search result does not strictly beat the best leaves the best unchanged and keeps the invariant. |
| Selection.SlotTakeFirst | student_submissions/s2210xxx/policy2352259.py:94-102 | A slot result that beats the best also scores strictly more than every feasible choice met before it. |
| Selection.SlotTake | student_submissions/s2210xxx/policy2352259.py:94-102 | A slot result that strictly beats the best becomes the new first best, with its score as the new best total. |
| Selection.SlotStep | student_submissions/s2210xxx/policy2352259.py:94-102 | After one orientation, the best is the slot result if that result strictly beats the old total, and the old best otherwise. The invariant holds at the next slot. |
| Selection.NextStock | student_submissions/s2210xxx/policy2352259.py:88-93 | After the last valid orientation of a stock, the loop moves on to the next stock with the invariant intact. |
| Selection.NextProduct | student_submissions/s2210xxx/policy2352259.py:83-88 | After the last stock, the loop moves on to the next product with the invariant intact. |
| Selection.SkipProduct | student_submissions/s2210xxx/policy2352259.py:84-85 | A product with quantity <= 0 has no feasible choice, so skipping it keeps the invariant. |
| Selection.SelectionDone | student_submissions/s2210xxx/policy2352259.py:83-104 | After the last product, the best is `None` exactly when no choice is feasible, and otherwise it is the first best choice. |
| Selection.TryOrientation | student_submissions/s2210xxx/policy2352259.py:93-102 | One orientation of the loop keeps the best choice, the held action and the held total in step with the first-best invariant. |
| Selection.SearchStock | student_submissions/s2210xxx/policy2352259.py:88-102 | The orientation loop of one stock carries the invariant from that stock to the next. |
| Selection.SearchProduct | student_submissions/s2210xxx/policy2352259.py:83-102 | The stock loop of one wanted product carries the invariant from that product to the next. |
| Selection.GetAction | student_submissions/s2210xxx/policy2352259.py:74-104 | Returns `None` exactly when no choice is feasible. Otherwise it returns the action of a first best choice: feasible, with a maximal score, and strictly better than every feasible choice met before it. |
| Selection.ChoiceBeforeTotal | student_submissions/s2210xxx/policy2352259.py:83-94 | The product, stock, orientation, position order is a strict total order on choices. |
| Selection.FirstBestUnique | student_submissions/s2210xxx/policy2352259.py:74-104 | There is at most one first best choice, so the decision is a function of the snapshot. |
| Selection.ChosenActionValid | student_submissions/s2210xxx/policy2352259.py:96-102 | The action of a feasible choice has:<br>- a valid stock index;<br>- a size among `ValidSizes` of a product with quantity > 0;<br>- a position inside the raw shape that the feasibility test accepts. |
| Selection.WinnerPositionIsBest | student_submissions/s2210xxx/policy2352259.py:94-102 | The position of the first best choice, with its score, is exactly what the search returns for that stock and size. |
| Selection.NothingFeasibleIffAllSearchesEmpty | student_submissions/s2210xxx/policy2352259.py:83-96 | No choice is feasible exactly when the search finds no candidate for every wanted product, every stock and every valid size. |
| Selection.InactiveProductIrrelevant | student_submissions/s2210xxx/policy2352259.py:83-85 | Changing a product that has no remaining quantity into another such product leaves unchanged:<br>- the feasible choices;<br>- their scores and actions;<br>- the first best choice. |

## Left out

- The `Policy` base class and its helpers are not part of this model. `_can_place_` becomes the parameter `canPlace` and `_get_stock_size_` becomes the parameter `stockSize`. Nothing is assumed about either one: the ranges of the scan already keep every position inside the raw shape.
- `__init__` and the `name` string are left out. They are constructor plumbing with no behaviour.
- numpy arrays become a rectangular `Grid` of integer rows. Each `np.sum(slice >= 0)` becomes a count over that slice (`CountRow`, `CountCol`).
- Scoring.Total: the model compares exact totals scaled by ten. The policy computes `total_score` in Python doubles, which can order two exactly equal totals strictly. An example is edge 1, adjacency 0, corner distance 1 (`9.9`) against edge 1, adjacency 1, corner distance 51 (`9.899999999999999`); such ties need corner distances that differ by a multiple of 50. On those inputs the policy may pick a later position or slot than the model. The `float('-inf')` sentinel is `None`.
- The observation dictionary becomes the `Observation` datatype, and the action dictionary becomes the `Action` datatype. The unused `info` argument is dropped.
- The environment loop that applies the action, changes grids and decrements quantities is not in this source file.
- Scoring.ScorePosition and Scoring.CountAdjacent require the rectangle to lie inside the raw shape. The policy only scores scanned positions, which always do. How numpy treats out-of-range slices is left out.
- Each loop body is its own method (`Search.ScanCell`, `Search.ScanRow`, `Selection.TryOrientation`, `Selection.SearchStock`, `Selection.SearchProduct`), called from the enclosing loop. The ghost argument `best` records which choice the held action came from; the policy does not store it.
