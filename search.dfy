/**
 * The exhaustive search for the best top-left position of one size on
 * one stock: every position is tried in row-major order, infeasible ones
 * are skipped, and the first position reaching the highest total score
 * is kept.
 */
module Search {
  import opened Stock
  import opened Scoring

  /** The positions the search may return for size `sz` on `g`. */
  ghost function Candidates(g: Grid, sz: Size, canPlace: (Grid, Pos, Size) -> bool): iset<Pos> {
    iset q | Candidate(g, sz, canPlace, q)
  }

  /** The result of the search is the best candidate position, earliest in
      row-major order among equally good ones, with its total score, or no
      position and no score when there is no candidate at all. */
  ghost predicate IsBestPosition(g: Grid, sz: Size, canPlace: (Grid, Pos, Size) -> bool,
                                 bestPos: Option<Pos>, bestScore: Option<int>)
  {
    && (bestPos.None? <==> bestScore.None?)
    && (bestPos.None? <==> forall q :: q !in Candidates(g, sz, canPlace))
    && (bestPos.Some? ==>
          && bestPos.value in Candidates(g, sz, canPlace)
          && bestScore.value == TotalScore(g, bestPos.value, sz)
          && (forall q :: q in Candidates(g, sz, canPlace) ==> TotalScore(g, q, sz) <= bestScore.value)
          && (forall q :: q in Candidates(g, sz, canPlace) && Before(q, bestPos.value) ==>
                TotalScore(g, q, sz) < bestScore.value))
  }

  /** The scan, standing at row `i` and column `j`, has already been past `q`. */
  predicate Scanned(q: Pos, i: int, j: int) {
    q.i < i || (q.i == i && q.j < j)
  }

  /** `IsBestPosition` restricted to the positions scanned so far. */
  ghost predicate BestSoFar(g: Grid, sz: Size, canPlace: (Grid, Pos, Size) -> bool,
                            bestPos: Option<Pos>, bestScore: Option<int>, i: int, j: int)
  {
    && (bestPos.None? <==> bestScore.None?)
    && (bestPos.None? ==> forall q :: q in Candidates(g, sz, canPlace) ==> !Scanned(q, i, j))
    && (bestPos.Some? ==>
          && bestPos.value in Candidates(g, sz, canPlace)
          && Scanned(bestPos.value, i, j)
          && bestScore.value == TotalScore(g, bestPos.value, sz)
          && (forall q :: q in Candidates(g, sz, canPlace) && Scanned(q, i, j) ==>
                TotalScore(g, q, sz) <= bestScore.value)
          && (forall q :: q in Candidates(g, sz, canPlace) && Before(q, bestPos.value) ==>
                TotalScore(g, q, sz) < bestScore.value))
  }

  /** The search result is determined by the grid, the size and the
      feasibility test: two outcomes that both meet `IsBestPosition` agree. */
  lemma BestPositionUnique(g: Grid, sz: Size, canPlace: (Grid, Pos, Size) -> bool,
                           pos1: Option<Pos>, score1: Option<int>, pos2: Option<Pos>, score2: Option<int>)
    requires IsBestPosition(g, sz, canPlace, pos1, score1)
    requires IsBestPosition(g, sz, canPlace, pos2, score2)
    ensures pos1 == pos2 && score1 == score2
  {
    if pos1.Some? && pos2.Some? {
      BeforeTotal(pos1.value, pos2.value);
    }
  }

  /** The (position, score) pairs the search may hold once it stands at
      (i, j): those that `BestSoFar` admits. The loops state their invariant
      as membership in this set, which the verifier checks as one
      obligation instead of one per conjunct of `BestSoFar`. */
  ghost function ScanOutcomes(g: Grid, sz: Size, canPlace: (Grid, Pos, Size) -> bool, i: int, j: int): iset<(Option<Pos>, Option<int>)> {
    iset r: (Option<Pos>, Option<int>) | BestSoFar(g, sz, canPlace, r.0, r.1, i, j)
  }

  /** Passing over (i, j) without taking it keeps the best so far, when
      (i, j) is no candidate or does not beat the best. */
  lemma ScanPass(g: Grid, sz: Size, canPlace: (Grid, Pos, Size) -> bool,
                 bestPos: Option<Pos>, bestScore: Option<int>, i: int, j: int)
    requires BestSoFar(g, sz, canPlace, bestPos, bestScore, i, j)
    requires Candidate(g, sz, canPlace, Pos(i, j)) ==>
               bestScore.Some? && TotalScore(g, Pos(i, j), sz) <= bestScore.value
    ensures BestSoFar(g, sz, canPlace, bestPos, bestScore, i, j + 1)
  {
    forall q | Candidate(g, sz, canPlace, q) && Scanned(q, i, j + 1)
      ensures Scanned(q, i, j) || q == Pos(i, j)
    {
    }
  }

  /** Taking (i, j) when it strictly beats the best so far. */
  lemma ScanTake(g: Grid, sz: Size, canPlace: (Grid, Pos, Size) -> bool,
                 bestPos: Option<Pos>, bestScore: Option<int>, i: int, j: int)
    requires BestSoFar(g, sz, canPlace, bestPos, bestScore, i, j)
    requires Candidate(g, sz, canPlace, Pos(i, j))
    requires Beats(TotalScore(g, Pos(i, j), sz), bestScore)
    ensures BestSoFar(g, sz, canPlace, Some(Pos(i, j)), Some(TotalScore(g, Pos(i, j), sz)), i, j + 1)
  {
    var p := Pos(i, j);
    forall q | Candidate(g, sz, canPlace, q) && Scanned(q, i, j + 1)
      ensures TotalScore(g, q, sz) <= TotalScore(g, p, sz)
    {
      if q != p {
        assert Scanned(q, i, j);
      }
    }
    forall q | Candidate(g, sz, canPlace, q) && Before(q, p)
      ensures TotalScore(g, q, sz) < TotalScore(g, p, sz)
    {
      assert Scanned(q, i, j);
    }
  }

  /** The end of a row: every candidate of row i has been scanned. */
  lemma ScanNextRow(g: Grid, sz: Size, canPlace: (Grid, Pos, Size) -> bool,
                    bestPos: Option<Pos>, bestScore: Option<int>, i: int, j: int)
    requires BestSoFar(g, sz, canPlace, bestPos, bestScore, i, j)
    requires j >= g.width - sz.w + 1
    ensures BestSoFar(g, sz, canPlace, bestPos, bestScore, i + 1, 0)
  {
    forall q | Candidate(g, sz, canPlace, q) && Scanned(q, i + 1, 0)
      ensures Scanned(q, i, j)
    {
    }
    if bestPos.Some? {
      assert Scanned(bestPos.value, i, j);
    }
  }

  /** The end of the scan: every candidate has been scanned. */
  lemma ScanDone(g: Grid, sz: Size, canPlace: (Grid, Pos, Size) -> bool,
                 bestPos: Option<Pos>, bestScore: Option<int>, i: int)
    requires BestSoFar(g, sz, canPlace, bestPos, bestScore, i, 0)
    requires i >= g.height - sz.h + 1
    ensures IsBestPosition(g, sz, canPlace, bestPos, bestScore)
  {
    forall q | Candidate(g, sz, canPlace, q)
      ensures Scanned(q, i, 0)
    {
    }
  }

  /** One step of the scan: the position (i, j) is scored when the
      feasibility test accepts it, and taken when it strictly beats the best
      score so far. */
  method ScanCell(g: Grid, sz: Size, canPlace: (Grid, Pos, Size) -> bool,
                  bestPos0: Option<Pos>, bestScore0: Option<int>, i: int, j: int)
    returns (bestPos: Option<Pos>, bestScore: Option<int>)
    requires 0 <= i && 0 <= j && i + sz.h <= g.height && j + sz.w <= g.width
    requires (bestPos0, bestScore0) in ScanOutcomes(g, sz, canPlace, i, j)
    ensures (bestPos, bestScore) in ScanOutcomes(g, sz, canPlace, i, j + 1)
    ensures bestPos == if Candidate(g, sz, canPlace, Pos(i, j)) && Beats(TotalScore(g, Pos(i, j), sz), bestScore0)
                       then Some(Pos(i, j)) else bestPos0
  {
    bestPos, bestScore := bestPos0, bestScore0;
    var p := Pos(i, j);
    if canPlace(g, p, sz) {
      var scores := ScorePosition(g, p, sz);
      var total := Total(scores);
      if Beats(total, bestScore) {
        ScanTake(g, sz, canPlace, bestPos, bestScore, i, j);
        bestScore := Some(total);
        bestPos := Some(p);
      } else {
        ScanPass(g, sz, canPlace, bestPos, bestScore, i, j);
      }
    } else {
      ScanPass(g, sz, canPlace, bestPos, bestScore, i, j);
    }
  }

  /** One row of the scan: every column (i, j) at which the rectangle fits
      the raw shape, from left to right. */
  method ScanRow(g: Grid, sz: Size, canPlace: (Grid, Pos, Size) -> bool,
                 bestPos0: Option<Pos>, bestScore0: Option<int>, i: int)
    returns (bestPos: Option<Pos>, bestScore: Option<int>)
    requires 0 <= i && i + sz.h <= g.height
    requires (bestPos0, bestScore0) in ScanOutcomes(g, sz, canPlace, i, 0)
    ensures (bestPos, bestScore) in ScanOutcomes(g, sz, canPlace, i + 1, 0)
  {
    bestPos, bestScore := bestPos0, bestScore0;
    var cols := g.width - sz.w + 1;
    var j := 0;
    while j < cols
      invariant 0 <= j && (cols > 0 ==> j <= cols)
      invariant (bestPos, bestScore) in ScanOutcomes(g, sz, canPlace, i, j)
    {
      bestPos, bestScore := ScanCell(g, sz, canPlace, bestPos, bestScore, i, j);
      j := j + 1;
    }
    ScanNextRow(g, sz, canPlace, bestPos, bestScore, i, j);
  }

  /** The policy's search over the raw shape of `g` for size `sz`. */
  method FindBestPosition(g: Grid, sz: Size, canPlace: (Grid, Pos, Size) -> bool)
    returns (bestPos: Option<Pos>, bestScore: Option<int>)
    ensures IsBestPosition(g, sz, canPlace, bestPos, bestScore)
  {
    bestPos, bestScore := None, None;
    var rows := g.height - sz.h + 1;
    var i := 0;
    while i < rows
      invariant 0 <= i && (rows > 0 ==> i <= rows)
      invariant (bestPos, bestScore) in ScanOutcomes(g, sz, canPlace, i, 0)
    {
      bestPos, bestScore := ScanRow(g, sz, canPlace, bestPos, bestScore, i);
      i := i + 1;
    }
    ScanDone(g, sz, canPlace, bestPos, bestScore, i);
  }
}
