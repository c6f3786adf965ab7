/**
 * Action selection: one pass over every product with remaining quantity,
 * every stock and every valid orientation, keeping the single best
 * placement found by the position search.
 */
module Selection {
  import opened Stock
  import opened Orientation
  import opened Scoring
  import opened Search

  /** A pending demand: the product's size and how many are still wanted. */
  datatype Product = Product(size: Size, quantity: int)

  /** The snapshot the policy decides on. */
  datatype Observation = Observation(stocks: seq<Grid>, products: seq<Product>)

  /** The decision: put a piece of `size` at `position` on stock `stockIdx`. */
  datatype Action = Action(stockIdx: nat, size: Size, position: Pos)

  /** One placement the policy considers: product `prod`, stock `stock`,
      orientation `orient` of that product on that stock, position `pos`. */
  datatype Choice = Choice(prod: nat, stock: nat, orient: nat, pos: Pos)

  /** The indices of `c` name a product, a stock and one of the product's
      valid orientations on that stock. */
  predicate InRange(obs: Observation, stockSize: Grid -> Size, c: Choice) {
    && c.prod < |obs.products|
    && c.stock < |obs.stocks|
    && c.orient < ValidCount(obs.products[c.prod].size, stockSize(obs.stocks[c.stock]))
  }

  /** The size the choice places. */
  function SizeOf(obs: Observation, stockSize: Grid -> Size, c: Choice): Size
    requires InRange(obs, stockSize, c)
  {
    ValidAt(obs.products[c.prod].size, stockSize(obs.stocks[c.stock]), c.orient)
  }

  /** A choice the policy can make: its product is still wanted and its
      position is a candidate of the search for its stock and size. */
  predicate Feasible(obs: Observation, stockSize: Grid -> Size, canPlace: (Grid, Pos, Size) -> bool, c: Choice) {
    && InRange(obs, stockSize, c)
    && obs.products[c.prod].quantity > 0
    && Candidate(obs.stocks[c.stock], SizeOf(obs, stockSize, c), canPlace, c.pos)
  }

  /** The total score of a choice. */
  ghost function Score(obs: Observation, stockSize: Grid -> Size, c: Choice): int
    requires InRange(obs, stockSize, c)
  {
    TotalScore(obs.stocks[c.stock], c.pos, SizeOf(obs, stockSize, c))
  }

  /** The action a choice stands for. */
  function ActionOf(obs: Observation, stockSize: Grid -> Size, c: Choice): Action
    requires InRange(obs, stockSize, c)
  {
    Action(c.stock, SizeOf(obs, stockSize, c), c.pos)
  }

  /** The order in which the policy meets choices: product, then stock, then
      orientation, then row-major position. */
  predicate ChoiceBefore(c: Choice, d: Choice) {
    || c.prod < d.prod
    || (c.prod == d.prod && c.stock < d.stock)
    || (c.prod == d.prod && c.stock == d.stock && c.orient < d.orient)
    || (c.prod == d.prod && c.stock == d.stock && c.orient == d.orient && Before(c.pos, d.pos))
  }

  /** The set of all feasible choices. */
  ghost function FeasibleChoices(obs: Observation, stockSize: Grid -> Size, canPlace: (Grid, Pos, Size) -> bool): iset<Choice> {
    iset c | Feasible(obs, stockSize, canPlace, c)
  }

  /** `c` is a best feasible choice, and every feasible choice met before it
      scores strictly less. */
  ghost predicate IsFirstBest(obs: Observation, stockSize: Grid -> Size, canPlace: (Grid, Pos, Size) -> bool, c: Choice) {
    && Feasible(obs, stockSize, canPlace, c)
    && (forall d :: Feasible(obs, stockSize, canPlace, d) ==> Score(obs, stockSize, d) <= Score(obs, stockSize, c))
    && (forall d :: Feasible(obs, stockSize, canPlace, d) && ChoiceBefore(d, c) ==>
          Score(obs, stockSize, d) < Score(obs, stockSize, c))
  }

  /** The triple loop, standing at product k, stock s and orientation o, has
      already searched the (product, stock, orientation) slot of `c`. */
  predicate Done(c: Choice, k: int, s: int, o: int) {
    || c.prod < k
    || (c.prod == k && c.stock < s)
    || (c.prod == k && c.stock == s && c.orient < o)
  }

  /** `IsFirstBest` restricted to the slots searched so far: `best` is the
      first best feasible choice among them, or none when there is none. */
  ghost predicate SelectedSoFar(obs: Observation, stockSize: Grid -> Size, canPlace: (Grid, Pos, Size) -> bool,
                                best: Option<Choice>, k: int, s: int, o: int)
  {
    && (best.Some? ==> best.value in FeasibleChoices(obs, stockSize, canPlace) && Done(best.value, k, s, o))
    && (forall c :: c in FeasibleChoices(obs, stockSize, canPlace) && Done(c, k, s, o) ==>
          best.Some? && Score(obs, stockSize, c) <= Score(obs, stockSize, best.value))
    && (forall c :: best.Some? && c in FeasibleChoices(obs, stockSize, canPlace) && ChoiceBefore(c, best.value) ==>
          Score(obs, stockSize, c) < Score(obs, stockSize, best.value))
  }

  /** The best choices the policy may hold once it stands at slot
      (k, s, o): those that `SelectedSoFar` admits. The loops state their
      invariant as membership in this set, which the verifier checks as
      one obligation instead of one per conjunct of `SelectedSoFar`. */
  ghost function Selections(obs: Observation, stockSize: Grid -> Size, canPlace: (Grid, Pos, Size) -> bool,
                            k: int, s: int, o: int): iset<Option<Choice>> {
    iset b | SelectedSoFar(obs, stockSize, canPlace, b, k, s, o)
  }

  /** The action the policy holds for `best` (a held choice is always in
      range; `None` stands for no choice). */
  function ActionFor(obs: Observation, stockSize: Grid -> Size, best: Option<Choice>): Option<Action> {
    if best.Some? && InRange(obs, stockSize, best.value) then Some(ActionOf(obs, stockSize, best.value)) else None
  }

  /** The best total the policy holds for `best`, `None` standing for the
      policy's `float('-inf')`. */
  ghost function TotalFor(obs: Observation, stockSize: Grid -> Size, best: Option<Choice>): Option<int> {
    if best.Some? && InRange(obs, stockSize, best.value) then Some(Score(obs, stockSize, best.value)) else None
  }

  /** The positions searched for slot (k, s, o) are its feasible choices. */
  lemma SlotCandidates(obs: Observation, stockSize: Grid -> Size, canPlace: (Grid, Pos, Size) -> bool,
                       k: nat, s: nat, o: nat, q: Pos)
    requires k < |obs.products| && obs.products[k].quantity > 0 && s < |obs.stocks|
    requires o < ValidCount(obs.products[k].size, stockSize(obs.stocks[s]))
    ensures Choice(k, s, o, q) in FeasibleChoices(obs, stockSize, canPlace) <==>
      q in Candidates(obs.stocks[s], ValidAt(obs.products[k].size, stockSize(obs.stocks[s]), o), canPlace)
    ensures Score(obs, stockSize, Choice(k, s, o, q)) ==
      TotalScore(obs.stocks[s], q, ValidAt(obs.products[k].size, stockSize(obs.stocks[s]), o))
  {
  }

  /** A feasible choice of slot (k, s, o) is a candidate position of that
      slot's search, scored as that search scores it. */
  lemma SlotMember(obs: Observation, stockSize: Grid -> Size, canPlace: (Grid, Pos, Size) -> bool,
                   k: nat, s: nat, o: nat, c: Choice)
    requires c in FeasibleChoices(obs, stockSize, canPlace)
    requires c.prod == k && c.stock == s && c.orient == o
    ensures k < |obs.products| && s < |obs.stocks|
    ensures o < ValidCount(obs.products[k].size, stockSize(obs.stocks[s]))
    ensures c.pos in Candidates(obs.stocks[s], ValidAt(obs.products[k].size, stockSize(obs.stocks[s]), o), canPlace)
    ensures Score(obs, stockSize, c) ==
      TotalScore(obs.stocks[s], c.pos, ValidAt(obs.products[k].size, stockSize(obs.stocks[s]), o))
  {
  }

  /** Searching slot (k, s, o) without improving the best keeps it. */
  lemma SlotPass(obs: Observation, stockSize: Grid -> Size, canPlace: (Grid, Pos, Size) -> bool,
                 best: Option<Choice>, k: nat, s: nat, o: nat, pos: Option<Pos>, score: Option<int>)
    requires SelectedSoFar(obs, stockSize, canPlace, best, k, s, o)
    requires k < |obs.products| && obs.products[k].quantity > 0 && s < |obs.stocks|
    requires o < ValidCount(obs.products[k].size, stockSize(obs.stocks[s]))
    requires IsBestPosition(obs.stocks[s], ValidAt(obs.products[k].size, stockSize(obs.stocks[s]), o), canPlace, pos, score)
    requires !(pos.Some? && Beats(score.value, TotalFor(obs, stockSize, best)))
    ensures SelectedSoFar(obs, stockSize, canPlace, best, k, s, o + 1)
  {
    forall c | c in FeasibleChoices(obs, stockSize, canPlace) && Done(c, k, s, o + 1) && !Done(c, k, s, o)
      ensures best.Some? && Score(obs, stockSize, c) <= Score(obs, stockSize, best.value)
    {
      SlotMember(obs, stockSize, canPlace, k, s, o, c);
    }
  }

  /** A choice of slot (k, s, o) that beats everything searched before
      slot (k, s, o) also beats everything of its own slot met before it. */
  lemma SlotTakeFirst(obs: Observation, stockSize: Grid -> Size, canPlace: (Grid, Pos, Size) -> bool,
                      best: Option<Choice>, k: nat, s: nat, o: nat, pos: Option<Pos>, score: Option<int>)
    requires SelectedSoFar(obs, stockSize, canPlace, best, k, s, o)
    requires k < |obs.products| && obs.products[k].quantity > 0 && s < |obs.stocks|
    requires o < ValidCount(obs.products[k].size, stockSize(obs.stocks[s]))
    requires IsBestPosition(obs.stocks[s], ValidAt(obs.products[k].size, stockSize(obs.stocks[s]), o), canPlace, pos, score)
    requires pos.Some? && Beats(score.value, TotalFor(obs, stockSize, best))
    ensures forall c :: c in FeasibleChoices(obs, stockSize, canPlace) && ChoiceBefore(c, Choice(k, s, o, pos.value)) ==>
      Score(obs, stockSize, c) < score.value
  {
    var w := Choice(k, s, o, pos.value);
    forall c | c in FeasibleChoices(obs, stockSize, canPlace) && ChoiceBefore(c, w)
      ensures Score(obs, stockSize, c) < score.value
    {
      if !Done(c, k, s, o) {
        SlotMember(obs, stockSize, canPlace, k, s, o, c);
      }
    }
  }

  /** Searching slot (k, s, o) and improving the best takes its position. */
  lemma SlotTake(obs: Observation, stockSize: Grid -> Size, canPlace: (Grid, Pos, Size) -> bool,
                 best: Option<Choice>, k: nat, s: nat, o: nat, pos: Option<Pos>, score: Option<int>)
    requires SelectedSoFar(obs, stockSize, canPlace, best, k, s, o)
    requires k < |obs.products| && obs.products[k].quantity > 0 && s < |obs.stocks|
    requires o < ValidCount(obs.products[k].size, stockSize(obs.stocks[s]))
    requires IsBestPosition(obs.stocks[s], ValidAt(obs.products[k].size, stockSize(obs.stocks[s]), o), canPlace, pos, score)
    requires pos.Some? && Beats(score.value, TotalFor(obs, stockSize, best))
    ensures SelectedSoFar(obs, stockSize, canPlace, Some(Choice(k, s, o, pos.value)), k, s, o + 1)
    ensures score == TotalFor(obs, stockSize, Some(Choice(k, s, o, pos.value)))
  {
    SlotCandidates(obs, stockSize, canPlace, k, s, o, pos.value);
    forall c | c in FeasibleChoices(obs, stockSize, canPlace) && Done(c, k, s, o + 1)
      ensures Score(obs, stockSize, c) <= score.value
    {
      if !Done(c, k, s, o) {
        SlotMember(obs, stockSize, canPlace, k, s, o, c);
      }
    }
    SlotTakeFirst(obs, stockSize, canPlace, best, k, s, o, pos, score);
  }

  /** One orientation of the policy's loop: the search result for slot
      (k, s, o) replaces the best exactly when it strictly beats it. */
  lemma SlotStep(obs: Observation, stockSize: Grid -> Size, canPlace: (Grid, Pos, Size) -> bool,
                 best: Option<Choice>, k: nat, s: nat, o: nat, pos: Option<Pos>, score: Option<int>)
    returns (next: Option<Choice>)
    requires SelectedSoFar(obs, stockSize, canPlace, best, k, s, o)
    requires k < |obs.products| && obs.products[k].quantity > 0 && s < |obs.stocks|
    requires o < ValidCount(obs.products[k].size, stockSize(obs.stocks[s]))
    requires IsBestPosition(obs.stocks[s], ValidAt(obs.products[k].size, stockSize(obs.stocks[s]), o), canPlace, pos, score)
    ensures next == if pos.Some? && Beats(score.value, TotalFor(obs, stockSize, best))
                    then Some(Choice(k, s, o, pos.value)) else best
    ensures SelectedSoFar(obs, stockSize, canPlace, next, k, s, o + 1)
    ensures next.Some? ==> InRange(obs, stockSize, next.value)
    ensures pos.Some? && Beats(score.value, TotalFor(obs, stockSize, best)) ==> score == TotalFor(obs, stockSize, next)
  {
    if pos.Some? && Beats(score.value, TotalFor(obs, stockSize, best)) {
      SlotTake(obs, stockSize, canPlace, best, k, s, o, pos, score);
      next := Some(Choice(k, s, o, pos.value));
    } else {
      SlotPass(obs, stockSize, canPlace, best, k, s, o, pos, score);
      next := best;
    }
  }

  /** After the last orientation of stock s come the slots of stock s + 1. */
  lemma NextStock(obs: Observation, stockSize: Grid -> Size, canPlace: (Grid, Pos, Size) -> bool,
                  best: Option<Choice>, k: nat, s: nat, o: nat)
    requires SelectedSoFar(obs, stockSize, canPlace, best, k, s, o)
    requires k < |obs.products| && s < |obs.stocks|
    requires o == ValidCount(obs.products[k].size, stockSize(obs.stocks[s]))
    ensures SelectedSoFar(obs, stockSize, canPlace, best, k, s + 1, 0)
  {
    forall c | c in FeasibleChoices(obs, stockSize, canPlace)
      ensures Done(c, k, s + 1, 0) <==> Done(c, k, s, o)
    {
    }
  }

  /** After the last stock of product k come the slots of product k + 1. */
  lemma NextProduct(obs: Observation, stockSize: Grid -> Size, canPlace: (Grid, Pos, Size) -> bool,
                    best: Option<Choice>, k: nat)
    requires SelectedSoFar(obs, stockSize, canPlace, best, k, |obs.stocks|, 0)
    ensures SelectedSoFar(obs, stockSize, canPlace, best, k + 1, 0, 0)
  {
    forall c | c in FeasibleChoices(obs, stockSize, canPlace)
      ensures Done(c, k + 1, 0, 0) <==> Done(c, k, |obs.stocks|, 0)
    {
    }
  }

  /** A product with no remaining quantity has no feasible choice. */
  lemma SkipProduct(obs: Observation, stockSize: Grid -> Size, canPlace: (Grid, Pos, Size) -> bool,
                    best: Option<Choice>, k: nat)
    requires SelectedSoFar(obs, stockSize, canPlace, best, k, 0, 0)
    requires k < |obs.products| && obs.products[k].quantity <= 0
    ensures SelectedSoFar(obs, stockSize, canPlace, best, k + 1, 0, 0)
  {
    forall c | c in FeasibleChoices(obs, stockSize, canPlace)
      ensures Done(c, k + 1, 0, 0) <==> Done(c, k, 0, 0)
    {
    }
  }

  /** After the last product every feasible choice has been searched. */
  lemma SelectionDone(obs: Observation, stockSize: Grid -> Size, canPlace: (Grid, Pos, Size) -> bool,
                      best: Option<Choice>)
    requires SelectedSoFar(obs, stockSize, canPlace, best, |obs.products|, 0, 0)
    ensures best.None? <==> forall c :: !Feasible(obs, stockSize, canPlace, c)
    ensures best.Some? ==> IsFirstBest(obs, stockSize, canPlace, best.value)
  {
    forall c | Feasible(obs, stockSize, canPlace, c)
      ensures c in FeasibleChoices(obs, stockSize, canPlace) && Done(c, |obs.products|, 0, 0)
    {
    }
  }

  /** One orientation of the policy's loop: search the best position of
      the o-th valid size of product k on stock s and keep it when it
      strictly beats the best total so far. */
  method TryOrientation(obs: Observation, stockSize: Grid -> Size, canPlace: (Grid, Pos, Size) -> bool,
                        k: nat, s: nat, o: nat, size: Size,
                        action0: Option<Action>, bestTotal0: Option<int>, ghost best0: Option<Choice>)
    returns (action: Option<Action>, bestTotal: Option<int>, ghost best: Option<Choice>)
    requires k < |obs.products| && obs.products[k].quantity > 0 && s < |obs.stocks|
    requires o < ValidCount(obs.products[k].size, stockSize(obs.stocks[s]))
    requires size == ValidAt(obs.products[k].size, stockSize(obs.stocks[s]), o)
    requires best0 in Selections(obs, stockSize, canPlace, k, s, o)
    requires (action0, bestTotal0) == (ActionFor(obs, stockSize, best0), TotalFor(obs, stockSize, best0))
    ensures best in Selections(obs, stockSize, canPlace, k, s, o + 1)
    ensures (action, bestTotal) == (ActionFor(obs, stockSize, best), TotalFor(obs, stockSize, best))
  {
    action, bestTotal := action0, bestTotal0;
    var pos, score := FindBestPosition(obs.stocks[s], size, canPlace);
    best := SlotStep(obs, stockSize, canPlace, best0, k, s, o, pos, score);
    if pos.Some? && Beats(score.value, bestTotal) {
      bestTotal := score;
      action := Some(Action(s, size, pos.value));
    }
  }

  /** The orientation loop of the policy for product k on stock s. */
  method SearchStock(obs: Observation, stockSize: Grid -> Size, canPlace: (Grid, Pos, Size) -> bool,
                     k: nat, s: nat, action0: Option<Action>, bestTotal0: Option<int>, ghost best0: Option<Choice>)
    returns (action: Option<Action>, bestTotal: Option<int>, ghost best: Option<Choice>)
    requires k < |obs.products| && obs.products[k].quantity > 0 && s < |obs.stocks|
    requires best0 in Selections(obs, stockSize, canPlace, k, s, 0)
    requires (action0, bestTotal0) == (ActionFor(obs, stockSize, best0), TotalFor(obs, stockSize, best0))
    ensures best in Selections(obs, stockSize, canPlace, k, s + 1, 0)
    ensures (action, bestTotal) == (ActionFor(obs, stockSize, best), TotalFor(obs, stockSize, best))
  {
    action, bestTotal, best := action0, bestTotal0, best0;
    var sizes := ValidSizes(obs.products[k].size, stockSize(obs.stocks[s]));
    ValidSizesIndexed(obs.products[k].size, stockSize(obs.stocks[s]));
    var o := 0;
    while o < |sizes|
      invariant o <= |sizes|
      invariant best in Selections(obs, stockSize, canPlace, k, s, o)
      invariant (action, bestTotal) == (ActionFor(obs, stockSize, best), TotalFor(obs, stockSize, best))
    {
      action, bestTotal, best := TryOrientation(obs, stockSize, canPlace, k, s, o, sizes[o], action, bestTotal, best);
      o := o + 1;
    }
    NextStock(obs, stockSize, canPlace, best, k, s, o);
  }

  /** The stock loop of the policy for product k, which is still wanted. */
  method SearchProduct(obs: Observation, stockSize: Grid -> Size, canPlace: (Grid, Pos, Size) -> bool,
                       k: nat, action0: Option<Action>, bestTotal0: Option<int>, ghost best0: Option<Choice>)
    returns (action: Option<Action>, bestTotal: Option<int>, ghost best: Option<Choice>)
    requires k < |obs.products| && obs.products[k].quantity > 0
    requires best0 in Selections(obs, stockSize, canPlace, k, 0, 0)
    requires (action0, bestTotal0) == (ActionFor(obs, stockSize, best0), TotalFor(obs, stockSize, best0))
    ensures best in Selections(obs, stockSize, canPlace, k + 1, 0, 0)
    ensures (action, bestTotal) == (ActionFor(obs, stockSize, best), TotalFor(obs, stockSize, best))
  {
    action, bestTotal, best := action0, bestTotal0, best0;
    var s := 0;
    while s < |obs.stocks|
      invariant s <= |obs.stocks|
      invariant best in Selections(obs, stockSize, canPlace, k, s, 0)
      invariant (action, bestTotal) == (ActionFor(obs, stockSize, best), TotalFor(obs, stockSize, best))
    {
      action, bestTotal, best := SearchStock(obs, stockSize, canPlace, k, s, action, bestTotal, best);
      s := s + 1;
    }
    NextProduct(obs, stockSize, canPlace, best, k);
  }

  /** The policy's decision for one snapshot: no action when nothing can be
      placed, and otherwise the action of the first best choice. */
  method GetAction(obs: Observation, stockSize: Grid -> Size, canPlace: (Grid, Pos, Size) -> bool)
    returns (action: Option<Action>)
    ensures action.None? <==> forall c :: !Feasible(obs, stockSize, canPlace, c)
    ensures action.Some? ==>
      exists c :: IsFirstBest(obs, stockSize, canPlace, c) && action.value == ActionOf(obs, stockSize, c)
  {
    action := None;
    var bestTotal: Option<int> := None;
    ghost var best: Option<Choice> := None;
    var k := 0;
    while k < |obs.products|
      invariant k <= |obs.products|
      invariant best in Selections(obs, stockSize, canPlace, k, 0, 0)
      invariant (action, bestTotal) == (ActionFor(obs, stockSize, best), TotalFor(obs, stockSize, best))
    {
      if obs.products[k].quantity <= 0 {
        SkipProduct(obs, stockSize, canPlace, best, k);
      } else {
        action, bestTotal, best := SearchProduct(obs, stockSize, canPlace, k, action, bestTotal, best);
      }
      k := k + 1;
    }
    SelectionDone(obs, stockSize, canPlace, best);
  }

  // ---------------------------------------------------------------------
  // Properties of the decision

  /** The order in which choices are met is a strict total order. */
  lemma ChoiceBeforeTotal(c: Choice, d: Choice)
    ensures c == d || ChoiceBefore(c, d) || ChoiceBefore(d, c)
    ensures !(ChoiceBefore(c, d) && ChoiceBefore(d, c))
  {
    BeforeTotal(c.pos, d.pos);
  }

  /** There is at most one first best choice, so the decision is determined
      by the snapshot. */
  lemma FirstBestUnique(obs: Observation, stockSize: Grid -> Size, canPlace: (Grid, Pos, Size) -> bool,
                        c: Choice, d: Choice)
    requires IsFirstBest(obs, stockSize, canPlace, c)
    requires IsFirstBest(obs, stockSize, canPlace, d)
    ensures c == d
  {
    ChoiceBeforeTotal(c, d);
  }

  /** The chosen action names a valid stock, one of the valid sizes of a
      product that is still wanted, and a position the search accepts. */
  lemma ChosenActionValid(obs: Observation, stockSize: Grid -> Size, canPlace: (Grid, Pos, Size) -> bool, c: Choice)
    requires Feasible(obs, stockSize, canPlace, c)
    ensures ActionOf(obs, stockSize, c).stockIdx < |obs.stocks|
    ensures obs.products[c.prod].quantity > 0
    ensures ActionOf(obs, stockSize, c).size in ValidSizes(obs.products[c.prod].size, stockSize(obs.stocks[c.stock]))
    ensures InBounds(obs.stocks[c.stock], c.pos, ActionOf(obs, stockSize, c).size)
    ensures canPlace(obs.stocks[c.stock], c.pos, ActionOf(obs, stockSize, c).size)
  {
    ValidSizesIndexed(obs.products[c.prod].size, stockSize(obs.stocks[c.stock]));
  }

  /** The position of the first best choice is exactly what the position
      search returns for that stock and size, with that score. */
  lemma WinnerPositionIsBest(obs: Observation, stockSize: Grid -> Size, canPlace: (Grid, Pos, Size) -> bool, c: Choice)
    requires IsFirstBest(obs, stockSize, canPlace, c)
    ensures IsBestPosition(obs.stocks[c.stock], SizeOf(obs, stockSize, c), canPlace,
                           Some(c.pos), Some(Score(obs, stockSize, c)))
  {
    var g, sz := obs.stocks[c.stock], SizeOf(obs, stockSize, c);
    assert c.pos in Candidates(g, sz, canPlace);
    forall q | q in Candidates(g, sz, canPlace)
      ensures TotalScore(g, q, sz) <= Score(obs, stockSize, c)
    {
      var d := Choice(c.prod, c.stock, c.orient, q);
      assert Feasible(obs, stockSize, canPlace, d);
    }
    forall q | q in Candidates(g, sz, canPlace) && Before(q, c.pos)
      ensures TotalScore(g, q, sz) < Score(obs, stockSize, c)
    {
      var d := Choice(c.prod, c.stock, c.orient, q);
      assert Feasible(obs, stockSize, canPlace, d) && ChoiceBefore(d, c);
    }
  }

  /** No choice is feasible exactly when the position search finds nothing
      for every product still wanted, every stock and every valid size. */
  lemma NothingFeasibleIffAllSearchesEmpty(obs: Observation, stockSize: Grid -> Size, canPlace: (Grid, Pos, Size) -> bool)
    ensures (forall c :: !Feasible(obs, stockSize, canPlace, c)) <==>
      (forall k, s, o, q ::
         0 <= k < |obs.products| && obs.products[k].quantity > 0 && 0 <= s < |obs.stocks| &&
         0 <= o < |ValidSizes(obs.products[k].size, stockSize(obs.stocks[s]))| ==>
           q !in Candidates(obs.stocks[s], ValidSizes(obs.products[k].size, stockSize(obs.stocks[s]))[o], canPlace))
  {
    forall k, s, o, q |
      0 <= k < |obs.products| && obs.products[k].quantity > 0 && 0 <= s < |obs.stocks| &&
      0 <= o < |ValidSizes(obs.products[k].size, stockSize(obs.stocks[s]))|
      ensures q in Candidates(obs.stocks[s], ValidSizes(obs.products[k].size, stockSize(obs.stocks[s]))[o], canPlace) <==>
              Feasible(obs, stockSize, canPlace, Choice(k, s, o, q))
    {
      ValidSizesIndexed(obs.products[k].size, stockSize(obs.stocks[s]));
    }
    forall c | Feasible(obs, stockSize, canPlace, c)
      ensures c.orient < |ValidSizes(obs.products[c.prod].size, stockSize(obs.stocks[c.stock]))|
    {
      ValidSizesIndexed(obs.products[c.prod].size, stockSize(obs.stocks[c.stock]));
    }
  }

  /** A product with no remaining quantity never contributes: replacing it
      by any other product with no remaining quantity changes neither the
      feasible choices nor their scores and actions, hence not the first
      best choice either. */
  lemma InactiveProductIrrelevant(obs: Observation, obs2: Observation, stockSize: Grid -> Size,
                                  canPlace: (Grid, Pos, Size) -> bool, k: nat)
    requires obs2.stocks == obs.stocks && |obs2.products| == |obs.products|
    requires k < |obs.products| && obs.products[k].quantity <= 0 && obs2.products[k].quantity <= 0
    requires forall j :: 0 <= j < |obs.products| && j != k ==> obs2.products[j] == obs.products[j]
    ensures forall c :: Feasible(obs, stockSize, canPlace, c) <==> Feasible(obs2, stockSize, canPlace, c)
    ensures forall c :: Feasible(obs, stockSize, canPlace, c) ==>
      Score(obs, stockSize, c) == Score(obs2, stockSize, c) && ActionOf(obs, stockSize, c) == ActionOf(obs2, stockSize, c)
    ensures forall c :: IsFirstBest(obs, stockSize, canPlace, c) <==> IsFirstBest(obs2, stockSize, canPlace, c)
  {
    forall c | Feasible(obs, stockSize, canPlace, c) || Feasible(obs2, stockSize, canPlace, c)
      ensures c.prod != k && obs2.products[c.prod] == obs.products[c.prod]
    {
    }
  }
}
