/** What is in the messages of the tool events: each event in its own message. */
module ToolContents {
  import opened Outcomes
  import opened Text
  import opened Boundaries
  import opened Temporal
  import opened ToolHistory
  import opened PromptContents

  // ---------------------------------------------------------------- the pieces of one entry

  /** The pieces that belong to an entry. */
  function PiecesFor(pieces: seq<Piece>, id: string): seq<Piece> {
    if pieces == [] then []
    else PiecesFor(pieces[..|pieces| - 1], id) + (if pieces[|pieces| - 1].entryId == Some(id) then [pieces[|pieces| - 1]] else [])
  }

  /** Every piece says which entry it belongs to. */
  predicate Labelled(pieces: seq<Piece>) {
    forall k | 0 <= k < |pieces| :: pieces[k].entryId.Some? && pieces[k].entryId.value != ""
  }

  lemma {:induction false} PiecesForConcat(a: seq<Piece>, b: seq<Piece>, id: string)
    ensures PiecesFor(a + b, id) == PiecesFor(a, id) + PiecesFor(b, id)
  {
    if b == [] {
      assert a + b == a;
    } else {
      assert (a + b)[..|a + b| - 1] == a + b[..|b| - 1];
      PiecesForConcat(a, b[..|b| - 1], id);
    }
  }

  lemma {:induction false} LastText(pieces: seq<Piece>, p: Piece)
    ensures TextOf(pieces + [p]) == TextOf(pieces) + p.content
    ensures BodyTexts(pieces + [p])
            == if p.kind.Body? && p.content != "" then BodyTexts(pieces) + [Credit(p.content, p.sources, p.trust)] else BodyTexts(pieces)
  {
    assert (pieces + [p])[..|pieces|] == pieces;
  }

  lemma {:induction false} LastFragment(fragments: seq<Fragment>, f: Fragment, id: string)
    ensures FragmentsFor(fragments + [f], id) == if f.entryId == id then FragmentsFor(fragments, id) + [f] else FragmentsFor(fragments, id)
    ensures Contents(fragments + [f]) == Contents(fragments) + f.content
    ensures BodiesOf(fragments + [f]) == if f.kind.Body? then BodiesOf(fragments) + [CreditOf(f)] else BodiesOf(fragments)
  {
    assert (fragments + [f])[..|fragments|] == fragments;
  }

  lemma {:induction false} LastPiece(pieces: seq<Piece>, p: Piece, id: string)
    ensures PiecesFor(pieces + [p], id) == if p.entryId == Some(id) then PiecesFor(pieces, id) + [p] else PiecesFor(pieces, id)
  {
    assert (pieces + [p])[..|pieces|] == pieces;
  }

  /** The fragments of an entry read like its pieces. */
  ghost predicate ReadsFor(pieces: seq<Piece>, id: string) {
    var fragments := FragmentsFor(FragmentsOf(pieces), id);
    Contents(fragments) == TextOf(PiecesFor(pieces, id)) && BodiesOf(fragments) == BodyTexts(PiecesFor(pieces, id))
  }

  lemma {:induction false} ReadsPush(front: seq<Piece>, p: Piece, id: string)
    requires ReadsFor(front, id) && p.entryId.Some? && p.entryId.value != ""
    ensures ReadsFor(front + [p], id)
  {
    LastPiece(front, p, id);
    LastText(PiecesFor(front, id), p);
    if p.content == "" {
      assert (front + [p])[..|front|] == front;
      assert FragmentsOf(front + [p]) == FragmentsOf(front);
    } else {
      var f := Placed(p, |TextOf(front)|);
      FragmentsPush(front, p);
      LastFragment(FragmentsOf(front), f, id);
      LastFragment(FragmentsFor(FragmentsOf(front), id), f, id);
    }
  }

  lemma {:induction false} ForReads(pieces: seq<Piece>, id: string)
    requires Labelled(pieces)
    ensures ReadsFor(pieces, id)
  {
    if pieces != [] {
      var front, p := pieces[..|pieces| - 1], pieces[|pieces| - 1];
      ForReads(front, id);
      ReadsPush(front, p, id);
      assert pieces == front + [p];
    }
  }

  ghost predicate AllOf(pieces: seq<Piece>, id: string) {
    forall k | 0 <= k < |pieces| :: pieces[k].entryId == Some(id)
  }

  lemma {:induction false} OwnPieces(pieces: seq<Piece>, id: string, other: string)
    requires AllOf(pieces, id)
    ensures PiecesFor(pieces, other) == if id == other then pieces else []
  {
    if pieces != [] {
      var front, p := pieces[..|pieces| - 1], pieces[|pieces| - 1];
      assert pieces == front + [p];
      assert AllOf(front, id) && p.entryId == Some(id);
      OwnPieces(front, id, other);
      OwnLast(front, p, id, other);
    }
  }

  lemma {:induction false} OwnLast(front: seq<Piece>, p: Piece, id: string, other: string)
    requires p.entryId == Some(id) && PiecesFor(front, other) == if id == other then front else []
    ensures PiecesFor(front + [p], other) == if id == other then front + [p] else []
  {
    LastPiece(front, p, other);
  }

  lemma {:induction false} EntryLabels(policy: Policy, first: bool, marked: bool, e: Entry, separator: string)
    ensures AllOf(EntryPieces(policy, first, marked, e, separator), e.id)
  {
  }

  predicate Distinct(es: seq<Entry>) {
    (forall i | 0 <= i < |es| :: es[i].id != "") && forall i, j | 0 <= i < j < |es| :: es[i].id != es[j].id
  }

  /** The pieces of the last entry of a history. */
  function LastPieces(policy: Policy, es: seq<Entry>, separator: string): seq<Piece>
    requires es != []
  {
    var front, e := es[..|es| - 1], es[|es| - 1];
    EntryPieces(policy, front == [], Reasons(policy, Last(front), LastMarked(policy, front), e) != {}, e, separator)
  }

  lemma {:induction false} HistoryLabels(policy: Policy, es: seq<Entry>, separator: string)
    requires forall i | 0 <= i < |es| :: es[i].id != ""
    ensures Labelled(HistoryPieces(policy, es, separator))
  {
    if es != [] {
      var front, e := es[..|es| - 1], es[|es| - 1];
      HistoryLabels(policy, front, separator);
      EntryLabels(policy, front == [], Reasons(policy, Last(front), LastMarked(policy, front), e) != {}, e, separator);
    }
  }

  lemma {:induction false} NoPiecesYet(policy: Policy, es: seq<Entry>, separator: string, id: string)
    requires forall i | 0 <= i < |es| :: es[i].id != id
    ensures PiecesFor(HistoryPieces(policy, es, separator), id) == []
  {
    if es != [] {
      var front, e := es[..|es| - 1], es[|es| - 1];
      var marked := Reasons(policy, Last(front), LastMarked(policy, front), e) != {};
      NoPiecesYet(policy, front, separator, id);
      EntryLabels(policy, front == [], marked, e, separator);
      OwnPieces(EntryPieces(policy, front == [], marked, e, separator), e.id, id);
      PiecesForConcat(HistoryPieces(policy, front, separator), EntryPieces(policy, front == [], marked, e, separator), id);
    }
  }

  /** The mark of entry `i` depends on the entries before it alone. */
  lemma {:induction false} MarkAt(policy: Policy, es: seq<Entry>, i: nat)
    requires i < |es|
    ensures |Marks(policy, es)| == |es|
            && Marks(policy, es)[i] == (Reasons(policy, Last(es[..i]), LastMarked(policy, es[..i]), es[i]) != {})
    decreases |es|
  {
    var front := es[..|es| - 1];
    MarksLength(policy, es);
    if i < |es| - 1 {
      MarksLength(policy, front);
      MarkAt(policy, front, i);
      assert front[..i] == es[..i];
    }
  }

  /** The pieces of entry `i` in the whole history are those of its own step of the scan. */
  lemma {:induction false} PiecesOfEntry(policy: Policy, es: seq<Entry>, separator: string, i: nat)
    requires i < |es| && Distinct(es)
    ensures PiecesFor(HistoryPieces(policy, es, separator), es[i].id) == LastPieces(policy, es[..i + 1], separator)
    decreases |es|
  {
    var n, id := |es| - 1, es[i].id;
    HistorySplits(policy, es, separator, id);
    if i == n {
      NoPiecesYet(policy, es[..n], separator, id);
      assert es[..n + 1] == es;
      assert [] + LastPieces(policy, es, separator) == LastPieces(policy, es, separator);
    } else {
      PiecesOfEntry(policy, es[..n], separator, i);
      SameStep(policy, es, separator, n, i);
    }
  }

  lemma {:induction false} SameStep(policy: Policy, es: seq<Entry>, separator: string, n: nat, i: nat)
    requires i < n <= |es|
    ensures LastPieces(policy, es[..n][..i + 1], separator) == LastPieces(policy, es[..i + 1], separator)
  {
    assert es[..n][..i + 1] == es[..i + 1];
  }

  /** The last entry adds its own pieces and no others. */
  lemma {:induction false} HistorySplits(policy: Policy, es: seq<Entry>, separator: string, id: string)
    requires es != []
    ensures var front := PiecesFor(HistoryPieces(policy, es[..|es| - 1], separator), id);
            PiecesFor(HistoryPieces(policy, es, separator), id)
            == if es[|es| - 1].id == id then front + LastPieces(policy, es, separator) else front
  {
    HistoryEnds(policy, es, separator);
    SplitOwn(HistoryPieces(policy, es[..|es| - 1], separator), LastPieces(policy, es, separator), es[|es| - 1].id, id);
  }

  lemma {:induction false} HistoryEnds(policy: Policy, es: seq<Entry>, separator: string)
    requires es != []
    ensures HistoryPieces(policy, es, separator) == HistoryPieces(policy, es[..|es| - 1], separator) + LastPieces(policy, es, separator)
    ensures AllOf(LastPieces(policy, es, separator), es[|es| - 1].id)
  {
    var front, e := es[..|es| - 1], es[|es| - 1];
    EntryLabels(policy, front == [], Reasons(policy, Last(front), LastMarked(policy, front), e) != {}, e, separator);
  }

  lemma {:induction false} SplitOwn(before: seq<Piece>, last: seq<Piece>, own: string, id: string)
    requires AllOf(last, own)
    ensures PiecesFor(before + last, id) == if own == id then PiecesFor(before, id) + last else PiecesFor(before, id)
  {
    OwnPieces(last, own, id);
    PiecesForConcat(before, last, id);
    assert PiecesFor(before, id) + [] == PiecesFor(before, id);
  }

  lemma {:induction false} StepPieces(policy: Policy, es: seq<Entry>, separator: string, i: nat)
    requires i < |es|
    ensures |Marks(policy, es)| == |es|
            && LastPieces(policy, es[..i + 1], separator) == EntryPieces(policy, i == 0, Marks(policy, es)[i], es[i], separator)
  {
    MarkAt(policy, es, i);
    assert es[..i + 1][..i] == es[..i];
  }

  // ---------------------------------------------------------------- the messages

  /** One event: the time it happened on a line of its own when it is marked, then its body. */
  function EventLine(policy: Policy, e: ToolEvent, marked: bool): string {
    if !marked then e.body
    else "[时间：" + policy.stamp(e.at) + "]" + (if e.body == "" then "" else "\n" + e.body)
  }

  lemma {:induction false} EventStamp(policy: Policy, e: ToolEvent)
    ensures FormatMarker(EntryOf(e).span, policy) == "[时间：" + policy.stamp(e.at) + "]"
  {
  }

  lemma {:induction false} EventText(policy: Policy, first: bool, marked: bool, e: ToolEvent)
    ensures TextOf(EntryPieces(policy, first, marked, EntryOf(e), "")) == EventLine(policy, e, marked)
  {
    var entry := EntryOf(e);
    var a := if first then [] else [SeparatorPiece(entry, "")];
    var b := if marked then MarkerPieces(policy, entry) else [];
    OnePieceText(SeparatorPiece(entry, ""));
    assert TextOf(a) == "";
    if marked {
      MarkerText(policy, entry);
      EventStamp(policy, e);
    }
    PartsText(a, b, BodyPiece(entry));
    EventJoins(policy, e, marked, TextOf(a), TextOf(b), TextOf(a + b + [BodyPiece(entry)]));
  }

  lemma {:induction false} EventJoins(policy: Policy, e: ToolEvent, marked: bool, a: string, b: string, all: string)
    requires a == "" && all == a + b + e.body
    requires b == if !marked then "" else "[时间：" + policy.stamp(e.at) + "]" + (if e.body == "" then "" else "\n")
    ensures all == EventLine(policy, e, marked)
  {
  }

  lemma {:induction false} EventReads(policy: Policy, events: seq<ToolEvent>, i: nat)
    requires i < |events| && Distinct(EntriesOf(events))
    ensures |Marks(policy, EntriesOf(events))| == |events|
    ensures var own := FragmentsFor(FragmentsOf(HistoryPieces(policy, EntriesOf(events), "")), events[i].id);
            && Contents(own) == EventLine(policy, events[i], Marks(policy, EntriesOf(events))[i])
            && BodiesOf(own) == if events[i].body == "" then [] else [Credit(events[i].body, events[i].sources, UntrustedData)]
  {
    var es := EntriesOf(events);
    HistoryLabels(policy, es, "");
    ForReads(HistoryPieces(policy, es, ""), events[i].id);
    PiecesOfEntry(policy, es, "", i);
    StepPieces(policy, es, "", i);
    EventText(policy, i == 0, Marks(policy, es)[i], events[i]);
    OneBody(policy, i == 0, Marks(policy, es)[i], EntryOf(events[i]), "");
  }

  lemma {:induction false} MessageReads(renderer: Option<Renderer>, index: nat, fragments: seq<Fragment>)
    ensures MessageOf(renderer, index, fragments).text == Framed(renderer, "tool_history.event." + Decimal(index), Contents(fragments))
  {
    if renderer.Some? {
      BlockNameIsValid(index);
      WrapTiles(renderer.value, BlockName(index), PiecesOf(fragments));
      PiecesText(fragments);
    }
  }

  lemma {:induction false} OneMoreMessage(renderer: Option<Renderer>, events: seq<ToolEvent>, fragments: seq<Fragment>, offset: nat, order: nat, n: nat)
    requires 0 < n <= |events|
    ensures RenderEvents(renderer, events, fragments, offset, order, n).texts
            == RenderEvents(renderer, events, fragments, offset, order, n - 1).texts
               + [MessageOf(renderer, n - 1, FragmentsFor(fragments, events[n - 1].id)).text]
  {
  }

  function Collected(f: nat -> string, n: nat): (texts: seq<string>)
    ensures |texts| == n
  {
    if n == 0 then [] else Collected(f, n - 1) + [f(n - 1)]
  }

  lemma {:induction false} CollectedAt(f: nat -> string, n: nat, i: nat)
    requires i < n
    ensures Collected(f, n)[i] == f(i)
  {
    if i < n - 1 {
      CollectedAt(f, n - 1, i);
    }
  }

  function MessageText(renderer: Option<Renderer>, events: seq<ToolEvent>, fragments: seq<Fragment>): nat -> string {
    (i: nat) => if i < |events| then MessageOf(renderer, i, FragmentsFor(fragments, events[i].id)).text else ""
  }

  lemma {:induction false} TextsRendered(renderer: Option<Renderer>, events: seq<ToolEvent>, fragments: seq<Fragment>, offset: nat, order: nat, n: nat)
    requires n <= |events|
    ensures RenderEvents(renderer, events, fragments, offset, order, n).texts == Collected(MessageText(renderer, events, fragments), n)
  {
    if n > 0 {
      TextsRendered(renderer, events, fragments, offset, order, n - 1);
      OneMoreMessage(renderer, events, fragments, offset, order, n);
    }
  }

  /** Each event has a message of its own, in order, which shows that event and no other: its time
      when the whole-list condition marks it, and its body. */
  lemma {:induction false} ToolsShow(renderer: Option<Renderer>, policy: Policy, events: seq<ToolEvent>, offset: nat, order: nat, marks: seq<bool>)
    requires Distinct(EntriesOf(events)) && IsMarking(policy, EntriesOf(events), marks)
    ensures var r := RenderTools(renderer, policy, events, offset, order);
            && r.Ok? && |r.value.texts| == |events|
            && forall i | 0 <= i < |events| ::
                 r.value.texts[i] == Framed(renderer, "tool_history.event." + Decimal(i), EventLine(policy, events[i], marks[i]))
  {
    var es := EntriesOf(events);
    var fragments := FragmentsOf(HistoryPieces(policy, es, ""));
    DistinctIds(es);
    ScanIsMarking(policy, es);
    MarkingIsUnique(policy, es, marks, Marks(policy, es), |es|);
    TextsRendered(renderer, events, fragments, offset, order, |events|);
    forall i | 0 <= i < |events|
      ensures Collected(MessageText(renderer, events, fragments), |events|)[i]
              == Framed(renderer, "tool_history.event." + Decimal(i), EventLine(policy, events[i], marks[i]))
    {
      CollectedAt(MessageText(renderer, events, fragments), |events|, i);
      EventReads(policy, events, i);
      MessageReads(renderer, i, FragmentsFor(fragments, events[i].id));
    }
  }

  lemma {:induction false} DistinctIds(es: seq<Entry>)
    requires Distinct(es)
    ensures Unique(EntryIds(es))
  {
  }
}
