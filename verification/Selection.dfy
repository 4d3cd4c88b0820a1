/** `select_long_term` of `memory/selection.py`: the greedy choice of memories, and why the
    assembler's later budget check agrees with it. */
module Selection {
  import opened Outcomes
  import opened Boundaries
  import opened Temporal
  import opened Assembly

  const LONG_TERM := "long_term_memories"

  /** What the block of `es` will measure, annotated and framed. */
  function BlockSize(policy: Policy, renderer: Option<Renderer>, es: seq<Entry>): nat {
    var text := TextOf(HistoryPieces(policy, es, "\n"));
    if renderer.None? then |text|
    else
      var size := RenderedLength(renderer.value, LONG_TERM, text);
      if size.Ok? then size.value else 0
  }

  /** One memory: what its score is made of, its length, and its entry in a block. How many
      terms of the query its text contains is a number here. */
  datatype Candidate = Candidate(id: string, active: bool, manual: bool, overlap: nat, length: nat, entry: Entry)

  function Entries(cs: seq<Candidate>): seq<Entry> {
    seq(|cs|, i requires 0 <= i < |cs| => cs[i].entry)
  }

  // ---------------------------------------------------------------- the order

  /** Python's order of strings: by code point, a proper prefix first. */
  predicate Precedes(a: string, b: string) {
    if b == "" then false
    else if a == "" then true
    else if a[0] != b[0] then a[0] < b[0]
    else Precedes(a[1..], b[1..])
  }

  /** Manual before curated, more terms before fewer, then by id. */
  predicate Better(a: Candidate, b: Candidate) {
    if a.manual != b.manual then a.manual
    else if a.overlap != b.overlap then a.overlap > b.overlap
    else Precedes(a.id, b.id)
  }

  function Insert(c: Candidate, sorted: seq<Candidate>): seq<Candidate> {
    if sorted == [] || !Better(c, sorted[|sorted| - 1]) then sorted + [c]
    else Insert(c, sorted[..|sorted| - 1]) + [sorted[|sorted| - 1]]
  }

  /** The active memories, best score first; `sorted` keeps the order of equals. */
  function Ranked(memories: seq<Candidate>): seq<Candidate> {
    if memories == [] then []
    else
      var front, last := Ranked(memories[..|memories| - 1]), memories[|memories| - 1];
      if last.active then Insert(last, front) else front
  }

  lemma {:induction false} PrecedesOrders(a: string, b: string, c: string)
    requires !Precedes(b, a) && !Precedes(c, b)
    ensures !Precedes(c, a)
  {
    if a != "" && b != "" && c != "" && a[0] == b[0] == c[0] {
      PrecedesOrders(a[1..], b[1..], c[1..]);
    }
  }

  lemma {:induction false} PrecedesOneWay(a: string, b: string)
    requires Precedes(a, b)
    ensures !Precedes(b, a)
  {
    if a != "" && a[0] == b[0] {
      PrecedesOneWay(a[1..], b[1..]);
    }
  }

  lemma {:induction false} BetterOrders(a: Candidate, b: Candidate, c: Candidate)
    requires !Better(b, a) && !Better(c, b)
    ensures !Better(c, a)
  {
    if a.manual == c.manual && a.overlap == c.overlap {
      PrecedesOrders(a.id, b.id, c.id);
    }
  }

  ghost predicate InOrder(cs: seq<Candidate>) {
    forall i, j | 0 <= i < j < |cs| :: !Better(cs[j], cs[i])
  }

  /** None of them is worse than `bound`. */
  ghost predicate NoWorse(cs: seq<Candidate>, bound: Candidate) {
    forall c | c in cs :: !Better(bound, c)
  }

  lemma {:induction false} InsertHolds(c: Candidate, sorted: seq<Candidate>)
    ensures multiset(Insert(c, sorted)) == multiset(sorted) + multiset{c}
    ensures forall e :: e in Insert(c, sorted) <==> e in sorted || e == c
  {
    if sorted != [] && Better(c, sorted[|sorted| - 1]) {
      InsertHolds(c, sorted[..|sorted| - 1]);
      assert sorted == sorted[..|sorted| - 1] + [sorted[|sorted| - 1]];
    }
  }

  lemma {:induction false} PushInOrder(cs: seq<Candidate>, c: Candidate)
    requires InOrder(cs) && NoWorse(cs, c)
    ensures InOrder(cs + [c])
  {
  }

  lemma {:induction false} InsertKeepsOrder(c: Candidate, sorted: seq<Candidate>)
    requires InOrder(sorted)
    ensures InOrder(Insert(c, sorted))
  {
    if sorted == [] {
    } else if Better(c, sorted[|sorted| - 1]) {
      var front, last := sorted[..|sorted| - 1], sorted[|sorted| - 1];
      InsertKeepsOrder(c, front);
      InsertHolds(c, front);
      BetterOneWay(c, last);
      forall e | e in front ensures !Better(last, e) {
        var k :| 0 <= k < |front| && front[k] == e;
        assert sorted[k] == e;
      }
      PushInOrder(Insert(c, front), last);
    } else {
      forall i | 0 <= i < |sorted| ensures !Better(c, sorted[i]) {
        if i < |sorted| - 1 {
          BetterOrders(sorted[i], sorted[|sorted| - 1], c);
        }
      }
      assert NoWorse(sorted, c);
      PushInOrder(sorted, c);
    }
  }

  lemma {:induction false} BetterOneWay(a: Candidate, b: Candidate)
    requires Better(a, b)
    ensures !Better(b, a)
  {
    if Precedes(a.id, b.id) {
      PrecedesOneWay(a.id, b.id);
    }
  }

  /** The ranking holds exactly the active memories, and none comes before a better one. */
  lemma {:induction false} RankedIs(memories: seq<Candidate>)
    ensures InOrder(Ranked(memories))
    ensures forall c :: c in Ranked(memories) <==> c in memories && c.active
  {
    if memories != [] {
      var front, last := memories[..|memories| - 1], memories[|memories| - 1];
      RankedIs(front);
      InsertKeepsOrder(last, Ranked(front));
      InsertHolds(last, Ranked(front));
      assert forall c :: c in memories <==> c in front || c == last;
    }
  }

  /** The first difference decides; without one the shorter text comes first. */
  ghost predicate FirstDifference(a: string, b: string) {
    || (exists k :: 0 <= k < |a| && k < |b| && a[..k] == b[..k] && a[k] < b[k])
    || (|a| < |b| && a == b[..|a|])
  }

  lemma {:induction false} DifferLater(a: string, b: string)
    requires a != "" && b != "" && a[0] == b[0]
    ensures FirstDifference(a, b) <==> FirstDifference(a[1..], b[1..])
  {
    if k :| 0 <= k < |a| && k < |b| && a[..k] == b[..k] && a[k] < b[k] {
      assert a[1..][..k - 1] == a[..k][1..] && b[1..][..k - 1] == b[..k][1..];
      assert a[1..][k - 1] < b[1..][k - 1];
    }
    if k :| 0 <= k < |a[1..]| && k < |b[1..]| && a[1..][..k] == b[1..][..k] && a[1..][k] < b[1..][k] {
      assert a[..k + 1] == [a[0]] + a[1..][..k] && b[..k + 1] == [b[0]] + b[1..][..k];
      assert a[k + 1] < b[k + 1];
    }
    assert a == [a[0]] + a[1..] && b == [b[0]] + b[1..];
    if |a| < |b| {
      assert b[..|a|] == [b[0]] + b[1..][..|a| - 1];
    }
  }

  lemma {:induction false} PrecedesIff(a: string, b: string)
    ensures Precedes(a, b) <==> FirstDifference(a, b)
  {
    if a != "" && b != "" {
      if a[0] == b[0] {
        PrecedesIff(a[1..], b[1..]);
        DifferLater(a, b);
      } else {
        assert a[..0] == b[..0];
      }
    }
  }

  /** Manual memories first; among equals those with more terms of the query; then by id. */
  ghost predicate RankedByScore(cs: seq<Candidate>) {
    forall i, j | 0 <= i < j < |cs| ::
      && (cs[j].manual ==> cs[i].manual)
      && (cs[i].manual == cs[j].manual ==> cs[i].overlap >= cs[j].overlap)
      && (cs[i].manual == cs[j].manual && cs[i].overlap == cs[j].overlap ==> !FirstDifference(cs[j].id, cs[i].id))
  }

  /** What the ranking is: exactly the active memories, by score. */
  lemma {:induction false} RankingMeans(memories: seq<Candidate>)
    ensures RankedByScore(Ranked(memories))
    ensures forall c :: c in Ranked(memories) <==> c in memories && c.active
  {
    var cs := Ranked(memories);
    RankedIs(memories);
    forall i, j | 0 <= i < j < |cs|
      ensures (cs[j].manual ==> cs[i].manual) && (cs[i].manual == cs[j].manual ==> cs[i].overlap >= cs[j].overlap)
      ensures cs[i].manual == cs[j].manual && cs[i].overlap == cs[j].overlap ==> !FirstDifference(cs[j].id, cs[i].id)
    {
      assert !Better(cs[j], cs[i]);
      PrecedesIff(cs[j].id, cs[i].id);
    }
  }

  // ---------------------------------------------------------------- the choice

  /** The choice among the first `n` candidates: each one that still fits after those before it. */
  function Chosen(size: seq<Candidate> -> nat, candidates: seq<Candidate>, maxChars: nat, n: nat): seq<Candidate>
    requires n <= |candidates|
  {
    if n == 0 then []
    else
      var front := Chosen(size, candidates, maxChars, n - 1);
      if size(front + [candidates[n - 1]]) > maxChars then front else front + [candidates[n - 1]]
  }

  function TotalLength(cs: seq<Candidate>): nat {
    if cs == [] then 0 else TotalLength(cs[..|cs| - 1]) + cs[|cs| - 1].length
  }

  /** With a time policy the block as it will be shown, without one the texts alone. */
  function Measure(policy: Option<Policy>, renderer: Option<Renderer>): seq<Candidate> -> nat {
    cs => if policy.Some? then BlockSize(policy.value, renderer, Entries(cs)) else TotalLength(cs)
  }

  /** What is selected of all memories. */
  function Selected(policy: Option<Policy>, renderer: Option<Renderer>, memories: seq<Candidate>, maxChars: nat): seq<Candidate> {
    Chosen(Measure(policy, renderer), Ranked(memories), maxChars, |Ranked(memories)|)
  }

  /** `select_long_term`; the policy comes with its projector, or neither does. */
  method SelectLongTerm(projected: bool, policy: Option<Policy>, renderer: Option<Renderer>, memories: seq<Candidate>, maxChars: nat)
    returns (r: Outcome<seq<Candidate>>)
    ensures r == if projected != policy.Some? then Err("TEMPORAL_ENTRY_INVALID") else Ok(Selected(policy, renderer, memories, maxChars))
  {
    if projected != policy.Some? {
      return Err("TEMPORAL_ENTRY_INVALID");
    }
    var ranked := Ranked(memories);
    var selected: seq<Candidate>, used := [], 0;
    for i := 0 to |ranked|
      invariant selected == Chosen(Measure(policy, renderer), ranked, maxChars, i)
      invariant policy.None? ==> used == TotalLength(selected)
    {
      var candidate := selected + [ranked[i]];
      assert candidate[..|selected|] == selected;
      var size := if policy.Some? then BlockSize(policy.value, renderer, Entries(candidate)) else used + ranked[i].length;
      assert size == Measure(policy, renderer)(candidate);
      if size > maxChars {
        continue;
      }
      selected, used := candidate, size;
    }
    return Ok(selected);
  }

  lemma {:induction false} ChosenFits(size: seq<Candidate> -> nat, candidates: seq<Candidate>, maxChars: nat, n: nat)
    requires n <= |candidates|
    ensures var chosen := Chosen(size, candidates, maxChars, n);
            && (chosen != [] ==> size(chosen) <= maxChars)
            && (forall i | 0 <= i < |chosen| :: exists k :: 0 <= k < n && candidates[k] == chosen[i])
  {
    if n > 0 {
      ChosenFits(size, candidates, maxChars, n - 1);
      var front, chosen := Chosen(size, candidates, maxChars, n - 1), Chosen(size, candidates, maxChars, n);
      forall i | 0 <= i < |chosen| ensures exists k :: 0 <= k < n && candidates[k] == chosen[i] {
        if i < |front| {
          var k :| 0 <= k < n - 1 && candidates[k] == front[i];
          assert candidates[k] == chosen[i];
        } else {
          assert candidates[n - 1] == chosen[i];
        }
      }
    }
  }

  ghost predicate Distinct(cs: seq<Candidate>) {
    forall i, j | 0 <= i < j < |cs| :: cs[i].entry.id != cs[j].entry.id
  }

  lemma {:induction false} PushDistinct(cs: seq<Candidate>, c: Candidate)
    requires Distinct(cs) && forall e | e in cs :: e.entry.id != c.entry.id
    ensures Distinct(cs + [c])
  {
  }

  lemma {:induction false} InsertIsDistinct(c: Candidate, sorted: seq<Candidate>)
    requires Distinct(sorted) && forall e | e in sorted :: e.entry.id != c.entry.id
    ensures Distinct(Insert(c, sorted))
  {
    if sorted != [] && Better(c, sorted[|sorted| - 1]) {
      var front, last := sorted[..|sorted| - 1], sorted[|sorted| - 1];
      InsertIsDistinct(c, front);
      InsertHolds(c, front);
      PushDistinct(Insert(c, front), last);
    } else {
      PushDistinct(sorted, c);
    }
  }

  lemma {:induction false} RankedIsDistinct(memories: seq<Candidate>)
    requires Distinct(memories)
    ensures Distinct(Ranked(memories))
  {
    if memories != [] {
      var front, last := memories[..|memories| - 1], memories[|memories| - 1];
      RankedIsDistinct(front);
      RankedIs(front);
      if last.active {
        InsertIsDistinct(last, Ranked(front));
      }
    }
  }

  lemma {:induction false} ChosenIsDistinct(size: seq<Candidate> -> nat, candidates: seq<Candidate>, maxChars: nat, n: nat)
    requires n <= |candidates| && Distinct(candidates)
    ensures Distinct(Chosen(size, candidates, maxChars, n))
  {
    if n > 0 {
      ChosenIsDistinct(size, candidates, maxChars, n - 1);
      ChosenFits(size, candidates, maxChars, n - 1);
      PushDistinct(Chosen(size, candidates, maxChars, n - 1), candidates[n - 1]);
    }
  }

  lemma {:induction false} FramedSize(renderer: Option<Renderer>, text: string, fragments: seq<Fragment>)
    requires Tiles(text, fragments) && fragments != []
    ensures var s := UntrustedSegment(renderer, LONG_TERM, text, fragments);
            s.Ok? && |s.value.content| ==
              if renderer.None? then |text|
              else if RenderedLength(renderer.value, LONG_TERM, text).Ok? then RenderedLength(renderer.value, LONG_TERM, text).value else 0
  {
    if renderer.Some? {
      TilesMeansConcatenation(text, fragments);
      PiecesText(fragments);
      RenderedLengthIsExact(renderer.value, LONG_TERM, PiecesOf(fragments));
    }
  }

  lemma {:induction false} BlockText(policy: Policy, renderer: Option<Renderer>, es: seq<Entry>, plain: string)
    requires es != [] && Unique(EntryIds(es)) && ValidEntries(es)
    ensures var s := BlockSegment(Some(policy), renderer, LONG_TERM, es, plain);
            s.Ok? && |s.value.content| == BlockSize(policy, renderer, es)
  {
    AnnotatedIsValid(policy, es, "\n");
    AnnotatedNotEmpty(policy, es, "\n");
    var h := Annotated(policy, es, "\n").value;
    FramedSize(renderer, h.text, h.fragments);
  }

  /** What the block measures when nothing was chosen. */
  function EmptySize(renderer: Option<Renderer>): nat {
    if renderer.None? then 2
    else
      var size := RenderedLength(renderer.value, LONG_TERM, "[]");
      if size.Ok? then size.value else 0
  }

  lemma {:induction false} EmptyText(policy: Policy, renderer: Option<Renderer>)
    ensures var s := BlockSegment(Some(policy), renderer, LONG_TERM, [], "");
            s.Ok? && |s.value.content| == EmptySize(renderer)
  {
    if renderer.Some? {
      var pieces := [Piece(LONG_TERM + ":body", "[]", [Source("memory:" + LONG_TERM, "prompt_assembler")], UntrustedData, Some(LONG_TERM), Body)];
      assert pieces[..0] == [];
      assert TextOf(pieces) == "[]";
      RenderedLengthIsExact(renderer.value, LONG_TERM, pieces);
    }
  }

  lemma {:induction false} SelectedIs(policy: Option<Policy>, renderer: Option<Renderer>, memories: seq<Candidate>, maxChars: nat)
    requires Distinct(memories) && ValidEntries(Entries(memories))
    ensures var chosen := Selected(policy, renderer, memories, maxChars);
            && Unique(EntryIds(Entries(chosen))) && ValidEntries(Entries(chosen))
            && (chosen != [] ==> Measure(policy, renderer)(chosen) <= maxChars)
            && (forall c | c in chosen :: c in memories && c.active)
  {
    var size, ranked := Measure(policy, renderer), Ranked(memories);
    var chosen := Selected(policy, renderer, memories, maxChars);
    RankedIs(memories);
    RankedIsDistinct(memories);
    ChosenFits(size, ranked, maxChars, |ranked|);
    ChosenIsDistinct(size, ranked, maxChars, |ranked|);
    DistinctEntries(chosen);
    ChosenAreValid(memories, chosen);
  }

  lemma {:induction false} DistinctEntries(cs: seq<Candidate>)
    requires Distinct(cs)
    ensures Unique(EntryIds(Entries(cs)))
  {
  }

  lemma {:induction false} ChosenAreValid(memories: seq<Candidate>, chosen: seq<Candidate>)
    requires ValidEntries(Entries(memories)) && forall c | c in chosen :: c in memories
    ensures ValidEntries(Entries(chosen))
  {
    forall i | 0 <= i < |chosen| ensures exists k :: 0 <= k < |memories| && Entries(memories)[k] == Entries(chosen)[i] {
      assert chosen[i] in memories;
      var k :| 0 <= k < |memories| && memories[k] == chosen[i];
      assert Entries(memories)[k] == Entries(chosen)[i];
    }
  }

  /** The assembler's budget check on the selected memories fails only when nothing was selected
      and even the empty block does not fit. */
  lemma {:induction false} BudgetAgrees(policy: Policy, renderer: Option<Renderer>, memories: seq<Candidate>, maxChars: nat)
    requires Distinct(memories) && ValidEntries(Entries(memories))
    ensures var chosen := Selected(Some(policy), renderer, memories, maxChars);
            var s := BlockSegment(Some(policy), renderer, LONG_TERM, Entries(chosen), "");
            s.Ok? && (WithinBudget(Some(maxChars), s.value) <==> chosen != [] || EmptySize(renderer) <= maxChars)
  {
    var chosen := Selected(Some(policy), renderer, memories, maxChars);
    SelectedIs(Some(policy), renderer, memories, maxChars);
    if chosen == [] {
      assert Entries(chosen) == [];
      EmptyText(policy, renderer);
    } else {
      BlockText(policy, renderer, Entries(chosen), "");
    }
  }

  /** Greedy by score: an active memory that was passed over would have overflowed the block of
      memories selected before it, none of which it is better than. */
  lemma {:induction false} PassedOverOverflows(policy: Option<Policy>, renderer: Option<Renderer>, memories: seq<Candidate>, maxChars: nat, c: Candidate)
    requires c in memories && c.active && c !in Selected(policy, renderer, memories, maxChars)
    ensures exists k :: 0 <= k <= |Selected(policy, renderer, memories, maxChars)|
                        && Measure(policy, renderer)(Selected(policy, renderer, memories, maxChars)[..k] + [c]) > maxChars
                        && NoWorse(Selected(policy, renderer, memories, maxChars)[..k], c)
  {
    var size, ranked := Measure(policy, renderer), Ranked(memories);
    RankedIs(memories);
    var i :| 0 <= i < |ranked| && ranked[i] == c;
    var before, all := Chosen(size, ranked, maxChars, i), Chosen(size, ranked, maxChars, |ranked|);
    StaysChosen(size, ranked, maxChars, i, |ranked|);
    StaysChosen(size, ranked, maxChars, i + 1, |ranked|);
    Overflows(size, ranked, maxChars, i);
    ChosenFits(size, ranked, maxChars, i);
    assert all[..|before|] == before;
  }

  lemma {:induction false} Overflows(size: seq<Candidate> -> nat, candidates: seq<Candidate>, maxChars: nat, k: nat)
    requires k < |candidates| && candidates[k] !in Chosen(size, candidates, maxChars, |candidates|)
    ensures size(Chosen(size, candidates, maxChars, k) + [candidates[k]]) > maxChars
  {
    StaysChosen(size, candidates, maxChars, k + 1, |candidates|);
    var front, next := Chosen(size, candidates, maxChars, k), Chosen(size, candidates, maxChars, k + 1);
    assert (front + [candidates[k]])[|front|] == candidates[k];
    assert forall e | e in next :: e in Chosen(size, candidates, maxChars, |candidates|);
  }

  lemma {:induction false} StaysChosen(size: seq<Candidate> -> nat, candidates: seq<Candidate>, maxChars: nat, m: nat, n: nat)
    requires m <= n <= |candidates|
    ensures Chosen(size, candidates, maxChars, m) <= Chosen(size, candidates, maxChars, n)
  {
    if m < n {
      StaysChosen(size, candidates, maxChars, m, n - 1);
    }
  }
}
