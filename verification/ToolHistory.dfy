/** `render_tool_history` of `runtime/controller.py`: the tool events of a turn as messages. */
module ToolHistory {
  import opened Outcomes
  import opened Text
  import opened Boundaries
  import opened Temporal
  import opened Provenance
  import opened Assembly

  datatype ToolEvent = ToolEvent(id: string, at: int, body: string, sources: seq<Source>)

  predicate ValidEvent(e: ToolEvent) {
    e.id != "" && e.sources != []
  }

  function EntryOf(e: ToolEvent): Entry {
    Entry(e.id, e.body, TimeSpan(e.at, e.at, Event), e.sources, UntrustedData)
  }

  function EntriesOf(events: seq<ToolEvent>): seq<Entry> {
    seq(|events|, i requires 0 <= i < |events| => EntryOf(events[i]))
  }

  /** The fragments of one event, in order. */
  function FragmentsFor(fragments: seq<Fragment>, id: string): seq<Fragment> {
    if fragments == [] then []
    else
      var front := FragmentsFor(fragments[..|fragments| - 1], id);
      if fragments[|fragments| - 1].entryId == id then front + [fragments[|fragments| - 1]] else front
  }

  function BlockName(index: nat): string {
    "tool_history.event." + Decimal(index)
  }

  lemma {:induction false} BlockNameIsValid(index: nat)
    ensures ValidBlockName(BlockName(index))
  {
  }

  /** The message text of one event and the fragments that make it up; the block names of
      events are always accepted by `wrap`. */
  function MessageOf(renderer: Option<Renderer>, index: nat, fragments: seq<Fragment>): Rendered {
    if renderer.Some? then
      BlockNameIsValid(index);
      Wrap(renderer.value, BlockName(index), PiecesOf(fragments)).value
    else Rendered(Contents(fragments), fragments)
  }

  function FragmentOfEvent(pointer: string, order: nat, eventId: string, f: Fragment, start: nat): RequestPart {
    RequestPart("tool-history:" + eventId + ":" + f.id, order, Included, f.trust, Some(pointer), Some((start, start + |f.content|)), f.content, f.sources)
  }

  /** The parts of one message, with their spans counted from its start. */
  function PartsFor(pointer: string, order: nat, eventId: string, fragments: seq<Fragment>): seq<RequestPart> {
    if fragments == [] then []
    else
      var n := |fragments| - 1;
      PartsFor(pointer, order, eventId, fragments[..n]) + [FragmentOfEvent(pointer, order + n, eventId, fragments[n], |Contents(fragments[..n])|)]
  }

  function EventParts(pointer: string, order: nat, e: ToolEvent, fragments: seq<Fragment>): seq<RequestPart> {
    if fragments == [] then
      [RequestPart("tool-history:" + e.id + ":empty-body", order, Included, UntrustedData, Some(pointer), Some((0, 0)), "", e.sources)]
    else PartsFor(pointer, order, e.id, fragments)
  }

  datatype ToolMessages = ToolMessages(texts: seq<string>, parts: seq<RequestPart>)

  /** One more message, and its parts after all the parts before. */
  function AddMessage(e: ToolEvent, index: nat, offset: nat, order: nat, before: ToolMessages, message: Rendered): ToolMessages {
    ToolMessages(before.texts + [message.text],
                 before.parts + EventParts(ContentPointer(offset + index), order + |before.parts|, e, message.fragments))
  }

  function AddEvent(renderer: Option<Renderer>, e: ToolEvent, fragments: seq<Fragment>, index: nat, offset: nat, order: nat, before: ToolMessages): ToolMessages {
    AddMessage(e, index, offset, order, before, MessageOf(renderer, index, FragmentsFor(fragments, e.id)))
  }

  /** The first `n` events rendered. */
  function RenderEvents(renderer: Option<Renderer>, events: seq<ToolEvent>, fragments: seq<Fragment>, offset: nat, order: nat, n: nat): ToolMessages
    requires n <= |events|
  {
    if n == 0 then ToolMessages([], [])
    else AddEvent(renderer, events[n - 1], fragments, n - 1, offset, order, RenderEvents(renderer, events, fragments, offset, order, n - 1))
  }

  function RenderTools(renderer: Option<Renderer>, policy: Policy, events: seq<ToolEvent>, offset: nat, order: nat): Outcome<ToolMessages> {
    var annotated :- Annotated(policy, EntriesOf(events), "");
    Ok(RenderEvents(renderer, events, annotated.fragments, offset, order, |events|))
  }

  method RenderToolHistory(renderer: Option<Renderer>, policy: Policy, events: seq<ToolEvent>, messageOffset: nat, partOrder: nat)
    returns (r: Outcome<ToolMessages>)
    ensures r == RenderTools(renderer, policy, events, messageOffset, partOrder)
  {
    var annotated :- AnnotateHistory(policy, EntriesOf(events), "");
    var done := RenderAll(renderer, events, annotated.fragments, messageOffset, partOrder);
    return Ok(done);
  }

  method RenderAll(renderer: Option<Renderer>, events: seq<ToolEvent>, fragments: seq<Fragment>, offset: nat, order: nat)
    returns (done: ToolMessages)
    ensures done == RenderEvents(renderer, events, fragments, offset, order, |events|)
  {
    done := ToolMessages([], []);
    for i := 0 to |events|
      invariant done == RenderEvents(renderer, events, fragments, offset, order, i)
    {
      done := AppendMessage(events[i], i, offset, order, done, MessageOf(renderer, i, FragmentsFor(fragments, events[i].id)));
    }
  }

  method AppendMessage(e: ToolEvent, index: nat, offset: nat, order: nat, before: ToolMessages, message: Rendered) returns (after: ToolMessages)
    ensures after == AddMessage(e, index, offset, order, before, message)
  {
    var added := PlaceFragments(ContentPointer(offset + index), order + |before.parts|, e, message.fragments);
    after := ToolMessages(before.texts + [message.text], before.parts + added);
  }

  /** The inner loop with its `local_cursor`. */
  method PlaceFragments(pointer: string, order: nat, e: ToolEvent, fragments: seq<Fragment>) returns (parts: seq<RequestPart>)
    ensures parts == EventParts(pointer, order, e, fragments)
  {
    if fragments == [] {
      return EventParts(pointer, order, e, fragments);
    }
    parts := [];
    var localCursor := 0;
    for k := 0 to |fragments|
      invariant parts == PartsFor(pointer, order, e.id, fragments[..k]) && |parts| == k
      invariant localCursor == |Contents(fragments[..k])|
    {
      assert fragments[..k + 1][..k] == fragments[..k];
      parts := parts + [FragmentOfEvent(pointer, order + |parts|, e.id, fragments[k], localCursor)];
      localCursor := localCursor + |fragments[k].content|;
    }
    assert fragments[..|fragments|] == fragments;
  }

  // ---------------------------------------------------------------- the parts attribute their message

  /** Parts that tile `text` as the content of message `i`, numbered from `order`. */
  ghost predicate Laid(i: nat, order: nat, text: string, parts: seq<RequestPart>) {
    && OrdersFrom(parts, order) && AllSpanned(parts)
    && (forall k | 0 <= k < |parts| ::
          parts[k].participation.Included? && parts[k].pointer == Some(ContentPointer(i)) && parts[k].sources != [])
    && Covers(parts, |text|) && SlicesOf(text, parts)
  }

  lemma {:induction false} PlacedPush(i: nat, order: nat, text: string, parts: seq<RequestPart>, p: RequestPart)
    requires Laid(i, order, text, parts) && p.span == Some((|text|, |text| + |p.content|)) && p.order == order + |parts|
    requires p.participation.Included? && p.pointer == Some(ContentPointer(i)) && p.sources != []
    ensures Laid(i, order, text + p.content, parts + [p])
  {
    SlicesPush(text, parts, p);
  }

  lemma {:induction false} PartsStep(pointer: string, order: nat, eventId: string, fragments: seq<Fragment>) returns (p: RequestPart)
    requires fragments != []
    ensures var n := |fragments| - 1;
            var text := Contents(fragments[..n]);
            && PartsFor(pointer, order, eventId, fragments) == PartsFor(pointer, order, eventId, fragments[..n]) + [p]
            && Contents(fragments) == text + p.content
            && p.span == Some((|text|, |text| + |p.content|)) && p.order == order + n
            && p.participation.Included? && p.pointer == Some(pointer) && p.sources == fragments[n].sources
  {
    var n := |fragments| - 1;
    p := FragmentOfEvent(pointer, order + n, eventId, fragments[n], |Contents(fragments[..n])|);
  }

  lemma {:induction false} PlacedParts(i: nat, order: nat, eventId: string, fragments: seq<Fragment>, parts: seq<RequestPart>, text: string)
    requires forall k | 0 <= k < |fragments| :: fragments[k].sources != []
    requires parts == PartsFor(ContentPointer(i), order, eventId, fragments) && text == Contents(fragments)
    ensures |parts| == |fragments| && Laid(i, order, text, parts)
  {
    if fragments != [] {
      var n := |fragments| - 1;
      var p := PartsStep(ContentPointer(i), order, eventId, fragments);
      var front, before := PartsFor(ContentPointer(i), order, eventId, fragments[..n]), Contents(fragments[..n]);
      PlacedParts(i, order, eventId, fragments[..n], front, before);
      PlacedPush(i, order, before, front, p);
    }
  }

  lemma {:induction false} SlicesPush(text: string, parts: seq<RequestPart>, p: RequestPart)
    requires AllSpanned(parts) && Covers(parts, |text|) && SlicesOf(text, parts)
    requires p.span == Some((|text|, |text| + |p.content|))
    ensures AllSpanned(parts + [p]) && Covers(parts + [p], |text| + |p.content|) && SlicesOf(text + p.content, parts + [p])
  {
    var all, more := parts + [p], text + p.content;
    forall i | 0 <= i < |all|
      ensures 0 <= all[i].span.value.0 <= all[i].span.value.1 <= |more|
      ensures more[all[i].span.value.0..all[i].span.value.1] == all[i].content
    {
      if i < |parts| {
        assert more[all[i].span.value.0..all[i].span.value.1] == text[all[i].span.value.0..all[i].span.value.1];
      } else {
        assert more[|text|..|text| + |p.content|] == p.content;
      }
    }
  }

  lemma {:induction false} FragmentsForAre(fragments: seq<Fragment>, id: string)
    ensures forall f | f in FragmentsFor(fragments, id) :: f in fragments && f.entryId == id
  {
    if fragments != [] {
      FragmentsForAre(fragments[..|fragments| - 1], id);
    }
  }

  lemma {:induction false} MessageIsSourced(renderer: Option<Renderer>, index: nat, fragments: seq<Fragment>)
    requires forall k | 0 <= k < |fragments| :: ValidFragment(fragments[k])
    ensures var m := MessageOf(renderer, index, fragments);
            m.text == Contents(m.fragments) && forall k | 0 <= k < |m.fragments| :: ValidFragment(m.fragments[k])
  {
    BlockNameIsValid(index);
    if renderer.Some? {
      PiecesValid(fragments);
      WrappedValid(renderer.value, BlockName(index), PiecesOf(fragments));
      WrapTiles(renderer.value, BlockName(index), PiecesOf(fragments));
      var w := Wrap(renderer.value, BlockName(index), PiecesOf(fragments)).value;
      TilesMeansConcatenation(w.text, w.fragments);
    }
  }

  /** One event's message is exactly tiled by its parts. */
  lemma {:induction false} EventAttributes(i: nat, order: nat, e: ToolEvent, message: Rendered)
    requires ValidEvent(e) && message.text == Contents(message.fragments)
    requires forall k | 0 <= k < |message.fragments| :: ValidFragment(message.fragments[k])
    ensures var parts := EventParts(ContentPointer(i), order, e, message.fragments);
            parts != [] && parts[0].participation.Included? && Attributes(i, message.text, parts) && OrdersFrom(parts, order)
  {
    PlacedParts(i, order, e.id, message.fragments, PartsFor(ContentPointer(i), order, e.id, message.fragments), message.text);
  }

  // ---------------------------------------------------------------- the messages are the history

  /** The text that the fragments of one entry make. */
  function TextFor(fragments: seq<Fragment>, id: string): string {
    Contents(FragmentsFor(fragments, id))
  }

  function TextsFor(fragments: seq<Fragment>, es: seq<Entry>): string {
    if es == [] then "" else TextsFor(fragments, es[..|es| - 1]) + TextFor(fragments, es[|es| - 1].id)
  }

  function PieceTextFor(pieces: seq<Piece>, id: string): string {
    if pieces == [] then ""
    else
      var p := pieces[|pieces| - 1];
      PieceTextFor(pieces[..|pieces| - 1], id) + (if Placed(p, 0).entryId == id then p.content else "")
  }

  lemma {:induction false} TextForPieces(pieces: seq<Piece>, id: string)
    ensures TextFor(FragmentsOf(pieces), id) == PieceTextFor(pieces, id)
  {
    if pieces != [] {
      var front, all := FragmentsOf(pieces[..|pieces| - 1]), FragmentsOf(pieces);
      TextForPieces(pieces[..|pieces| - 1], id);
      if pieces[|pieces| - 1].content == "" {
        assert all == front;
      } else {
        assert all[..|all| - 1] == front;
        var some := FragmentsFor(all, id);
        assert all[|all| - 1].entryId == id ==> some[..|some| - 1] == FragmentsFor(front, id);
      }
    }
  }

  lemma {:induction false} PieceTextConcat(a: seq<Piece>, b: seq<Piece>, id: string)
    ensures PieceTextFor(a + b, id) == PieceTextFor(a, id) + PieceTextFor(b, id)
  {
    if b == [] {
      assert a + b == a;
    } else {
      assert (a + b)[..|a + b| - 1] == a + b[..|b| - 1];
      PieceTextConcat(a, b[..|b| - 1], id);
    }
  }

  lemma {:induction false} AllOfEntry(pieces: seq<Piece>, id: string, other: string)
    requires id != "" && forall k | 0 <= k < |pieces| :: pieces[k].entryId == Some(id)
    ensures PieceTextFor(pieces, other) == if other == id then TextOf(pieces) else ""
  {
    if pieces != [] {
      AllOfEntry(pieces[..|pieces| - 1], id, other);
    }
  }

  /** The pieces that the last entry adds to a history. */
  lemma {:induction false} LastPieces(policy: Policy, es: seq<Entry>, separator: string) returns (added: seq<Piece>)
    requires es != []
    ensures HistoryPieces(policy, es, separator) == HistoryPieces(policy, es[..|es| - 1], separator) + added
    ensures forall k | 0 <= k < |added| :: added[k].entryId == Some(es[|es| - 1].id)
  {
    var n := |es| - 1;
    var marked := Reasons(policy, Last(es[..n]), LastMarked(policy, es[..n]), es[n]) != {};
    added := EntryPieces(policy, es[..n] == [], marked, es[n], separator);
  }

  lemma {:induction false} NotInFront(es: seq<Entry>, id: string)
    requires es != [] && id !in EntryIds(es)
    ensures id !in EntryIds(es[..|es| - 1]) && id != es[|es| - 1].id
  {
    var n := |es| - 1;
    assert EntryIds(es)[n] == es[n].id;
    forall i | 0 <= i < n ensures EntryIds(es[..n])[i] != id {
      assert EntryIds(es)[i] == es[i].id;
    }
  }

  lemma {:induction false} NoneOfEntry(policy: Policy, es: seq<Entry>, separator: string, id: string, pieces: seq<Piece>)
    requires id !in EntryIds(es) && (forall i | 0 <= i < |es| :: ValidEntry(es[i])) && pieces == HistoryPieces(policy, es, separator)
    ensures PieceTextFor(pieces, id) == ""
  {
    if es != [] {
      var n := |es| - 1;
      var front := HistoryPieces(policy, es[..n], separator);
      var added := LastPieces(policy, es, separator);
      NotInFront(es, id);
      NoneOfEntry(policy, es[..n], separator, id, front);
      AllOfEntry(added, es[n].id, id);
      PieceTextConcat(front, added, id);
    }
  }

  function PieceTextsFor(pieces: seq<Piece>, es: seq<Entry>): string {
    if es == [] then "" else PieceTextsFor(pieces, es[..|es| - 1]) + PieceTextFor(pieces, es[|es| - 1].id)
  }

  lemma {:induction false} EntryTextsStay(pieces: seq<Piece>, added: seq<Piece>, es: seq<Entry>, id: string)
    requires id != "" && id !in EntryIds(es) && forall k | 0 <= k < |added| :: added[k].entryId == Some(id)
    ensures PieceTextsFor(pieces + added, es) == PieceTextsFor(pieces, es)
  {
    if es != [] {
      var n := |es| - 1;
      NotInFront(es, id);
      EntryTextsStay(pieces, added, es[..n], id);
      PieceTextConcat(pieces, added, es[n].id);
      AllOfEntry(added, id, es[n].id);
    }
  }

  lemma {:induction false} OneMoreGroup(front: seq<Piece>, added: seq<Piece>, es: seq<Entry>)
    requires es != [] && es[|es| - 1].id != "" && es[|es| - 1].id !in EntryIds(es[..|es| - 1])
    requires PieceTextsFor(front, es[..|es| - 1]) == TextOf(front) && PieceTextFor(front, es[|es| - 1].id) == ""
    requires forall k | 0 <= k < |added| :: added[k].entryId == Some(es[|es| - 1].id)
    ensures PieceTextsFor(front + added, es) == TextOf(front + added)
  {
    EntryTextsStay(front, added, es[..|es| - 1], es[|es| - 1].id);
    NewGroupText(front, added, es[|es| - 1].id);
    TextOfConcat(front, added);
  }

  lemma {:induction false} NewGroupText(front: seq<Piece>, added: seq<Piece>, id: string)
    requires id != "" && PieceTextFor(front, id) == "" && forall k | 0 <= k < |added| :: added[k].entryId == Some(id)
    ensures PieceTextFor(front + added, id) == TextOf(added)
  {
    PieceTextConcat(front, added, id);
    AllOfEntry(added, id, id);
  }

  lemma {:induction false} GroupsAreAll(policy: Policy, es: seq<Entry>, separator: string, pieces: seq<Piece>)
    requires Unique(EntryIds(es)) && forall i | 0 <= i < |es| :: ValidEntry(es[i])
    requires pieces == HistoryPieces(policy, es, separator)
    ensures PieceTextsFor(pieces, es) == TextOf(pieces)
  {
    if es != [] {
      var n := |es| - 1;
      var front := HistoryPieces(policy, es[..n], separator);
      var added := LastPieces(policy, es, separator);
      UniqueFront(es);
      GroupsAreAll(policy, es[..n], separator, front);
      NoneOfEntry(policy, es[..n], separator, es[n].id, front);
      OneMoreGroup(front, added, es);
    }
  }

  lemma {:induction false} TextsForPieces(pieces: seq<Piece>, es: seq<Entry>)
    ensures TextsFor(FragmentsOf(pieces), es) == PieceTextsFor(pieces, es)
  {
    if es != [] {
      TextsForPieces(pieces, es[..|es| - 1]);
      TextForPieces(pieces, es[|es| - 1].id);
    }
  }

  /** Splitting the annotated block by event loses and repeats nothing: the texts of the
      events, in order, are the whole block. */
  lemma {:induction false} EventsMakeTheBlock(policy: Policy, es: seq<Entry>, separator: string)
    requires Unique(EntryIds(es)) && forall i | 0 <= i < |es| :: ValidEntry(es[i])
    ensures var h := Annotated(policy, es, separator).value;
            TextsFor(h.fragments, es) == h.text
  {
    TextsForPieces(HistoryPieces(policy, es, separator), es);
    GroupsAreAll(policy, es, separator, HistoryPieces(policy, es, separator));
  }
}
