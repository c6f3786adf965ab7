/**
 * The shared vocabulary of the placement policy: sizes, positions, the
 * stock grid and the row-major scan order.
 */
module Stock {

  /** The optional value that stands for Python's `None` (and for a
      `float('-inf')` score that no candidate has beaten yet). */
  datatype Option<T> = None | Some(value: T)

  /** A (height, width) pair, as products and stocks report their size. */
  datatype Size = Size(h: nat, w: nat)

  /** A zero-based (row, column) top-left corner. */
  datatype Pos = Pos(i: int, j: int)

  /** The storage of one stock sheet: its raw shape and its cells. A cell
      holding a value >= 0 is occupied by that product; a negative value
      marks a cell that is free or outside the usable area. */
  datatype Sheet = Sheet(height: nat, width: nat, cells: seq<seq<int>>)

  /** A stock grid is rectangular: `height` rows of `width` cells, like
      the two-dimensional array it models. */
  type Grid = g: Sheet | |g.cells| == g.height && (forall r :: 0 <= r < |g.cells| ==> |g.cells[r]| == g.width)
    witness Sheet(0, 0, [])

  predicate Occupied(v: int) {
    v >= 0
  }

  /** The size with its two sides exchanged (a quarter turn). A turn
      changes the size exactly when it is not square. */
  function Rotated(s: Size): (r: Size)
    ensures r == s <==> s.h == s.w
  {
    Size(s.w, s.h)
  }

  /** Turning twice gives the size back, and the turned size fits a limit
      exactly when the original fits the turned limit. */
  lemma RotatedTwice(s: Size, limit: Size)
    ensures Rotated(Rotated(s)) == s
    ensures Fits(Rotated(s), limit) <==> Fits(s, Rotated(limit))
  {
  }

  /** `s` fits inside `limit` without rotation. */
  predicate Fits(s: Size, limit: Size) {
    s.h <= limit.h && s.w <= limit.w
  }

  /** The `sz` rectangle at `p` lies inside the raw shape of `g`. */
  predicate InBounds(g: Grid, p: Pos, sz: Size) {
    0 <= p.i && p.i + sz.h <= g.height && 0 <= p.j && p.j + sz.w <= g.width
  }

  /** The rectangle of size `sz` at `p` covers cell (r, c). */
  predicate Covers(p: Pos, sz: Size, r: int, c: int) {
    p.i <= r < p.i + sz.h && p.j <= c < p.j + sz.w
  }

  /** Row-major order: `p` is scanned strictly before `q`. */
  predicate Before(p: Pos, q: Pos) {
    p.i < q.i || (p.i == q.i && p.j < q.j)
  }

  /** `p` is a position the search scans (inside the raw shape) and the
      external feasibility test accepts. */
  predicate Candidate(g: Grid, sz: Size, canPlace: (Grid, Pos, Size) -> bool, p: Pos) {
    InBounds(g, p, sz) && canPlace(g, p, sz)
  }

  /** `x` beats the best score so far, where `None` is a score below every
      integer (the policy's `float('-inf')`). The comparison is strict: an
      equal score does not beat the best. */
  function Beats(x: int, best: Option<int>): (r: bool)
    ensures best.None? ==> r
    ensures r ==> best != Some(x)
  {
    best.None? || x > best.value
  }

  /** Row-major order is a strict total order on positions. */
  lemma BeforeTotal(p: Pos, q: Pos)
    ensures p == q || Before(p, q) || Before(q, p)
    ensures !(Before(p, q) && Before(q, p))
  {
  }
}
