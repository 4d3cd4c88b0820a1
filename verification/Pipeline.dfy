/** End to end: what the producers build is always what the validator accepts. */
module Pipeline {
  import opened Outcomes
  import opened Text
  import opened Boundaries
  import opened Temporal
  import opened Provenance
  import opened Assembly
  import opened ToolHistory

  // ---------------------------------------------------------------- the payload

  /** The reader of array indexes reads decimal numerals; what else it accepts does not matter. */
  ghost predicate ReadsNumerals(reader: Reader) {
    forall n: nat :: reader.index(Decimal(n)) == Some(n)
  }

  function Message(content: string, others: map<string, Json>): Json {
    JObject(others["content" := JString(content)])
  }

  function Messages(contents: seq<string>, others: map<string, Json>): seq<Json> {
    seq(|contents|, i requires 0 <= i < |contents| => Message(contents[i], others))
  }

  /** A request payload: the messages, whatever other fields it and they have. */
  function Payload(contents: seq<string>, others: map<string, Json>, messageFields: map<string, Json>): Json {
    JObject(others["messages" := JArray(Messages(contents, messageFields))])
  }

  lemma {:induction false} EscapePlain(s: string)
    requires '~' !in s && '/' !in s
    ensures Escape(s) == s
  {
    if s == "" {
      assert Escape(s) == "";
    } else {
      assert s == [s[0]] + s[1..];
      assert '~' !in s[1..] && '/' !in s[1..];
      EscapePlain(s[1..]);
    }
  }

  lemma {:induction false} PointerCons(a: string, path: seq<string>)
    requires '~' !in a && '/' !in a
    ensures PointerTo([a] + path) == "/" + a + PointerTo(path)
  {
    EscapePlain(a);
    assert ([a] + path)[1..] == path;
  }

  lemma {:induction false} PointerToThree(a: string, b: string, c: string)
    requires '~' !in a && '/' !in a && '~' !in b && '/' !in b && '~' !in c && '/' !in c
    ensures PointerTo([a, b, c]) == "/" + a + ("/" + b + ("/" + c + ""))
  {
    PointerCons(c, []);
    PointerCons(b, [c]);
    PointerCons(a, [b, c]);
    assert [c] + [] == [c] && [b] + [c] == [b, c] && [a] + [b, c] == [a, b, c];
  }

  lemma {:induction false} ContentPointerIsPath(i: nat)
    ensures ContentPointer(i) == PointerTo(["messages", Decimal(i), "content"])
  {
    var d := Decimal(i);
    PointerToThree("messages", d, "content");
    JoinThree(d);
  }

  lemma {:induction false} JoinThree(d: string)
    ensures "/" + "messages" + ("/" + d + ("/" + "content" + "")) == "/messages/" + d + "/content"
  {
    assert "/" + "messages" == "/messages" && "/" + "content" + "" == "/content";
    assert "/messages" + ("/" + d + "/content") == ("/messages" + "/") + d + "/content";
    assert "/messages" + "/" == "/messages/";
  }

  lemma {:induction false} DescendThree(reader: Reader, payload: Json, a: string, b: string, c: string)
    ensures var x := Enter(reader, payload, a);
            var y := if x.Some? then Enter(reader, x.value, b) else None;
            Descend(reader, payload, [a, b, c]) == if y.Some? then Enter(reader, y.value, c) else None
  {
    assert [a, b, c][..2] == [a, b] && [a, b][..1] == [a] && [a][..0] == [];
    assert Descend(reader, payload, [a]) == Enter(reader, payload, a);
    assert Descend(reader, payload, [a, b]) == if Enter(reader, payload, a).Some? then Enter(reader, Enter(reader, payload, a).value, b) else None;
  }

  /** The pointer of a message resolves to its text. */
  lemma {:induction false} ContentResolves(reader: Reader, contents: seq<string>, others: map<string, Json>, messageFields: map<string, Json>, i: nat)
    requires ReadsNumerals(reader) && i < |contents|
    ensures Resolve(reader, Payload(contents, others, messageFields), ContentPointer(i)) == Some(JString(contents[i]))
  {
    var payload := Payload(contents, others, messageFields);
    ContentPointerIsPath(i);
    ResolvePath(reader, payload, ["messages", Decimal(i), "content"]);
    DescendThree(reader, payload, "messages", Decimal(i), "content");
  }

  lemma {:induction false} PointersDiffer(i: nat, j: nat)
    requires i != j
    ensures ContentPointer(i) != ContentPointer(j)
  {
    var a, b := ContentPointer(i), ContentPointer(j);
    if a == b {
      assert a[10..|a| - 8] == Decimal(i) && b[10..|b| - 8] == Decimal(j);
      DecimalInjective(i, j);
    }
  }

  // ---------------------------------------------------------------- parts by message

  function Flatten(groups: seq<seq<RequestPart>>): seq<RequestPart> {
    if groups == [] then [] else Flatten(groups[..|groups| - 1]) + groups[|groups| - 1]
  }

  /** One group of parts for each message, in order. */
  ghost predicate Grouping(contents: seq<string>, groups: seq<seq<RequestPart>>, first: nat) {
    |groups| == |contents| && forall i | 0 <= i < |contents| :: Attributes(first + i, contents[i], groups[i])
  }

  lemma {:induction false} FlattenConcat(a: seq<seq<RequestPart>>, b: seq<seq<RequestPart>>)
    ensures Flatten(a + b) == Flatten(a) + Flatten(b)
  {
    if b == [] {
      assert a + b == a;
    } else {
      assert (a + b)[..|a + b| - 1] == a + b[..|b| - 1];
      FlattenConcat(a, b[..|b| - 1]);
    }
  }

  lemma {:induction false} IncludedConcat(a: seq<RequestPart>, b: seq<RequestPart>)
    ensures IncludedParts(a + b) == IncludedParts(a) + IncludedParts(b)
  {
    if b == [] {
      assert a + b == a;
    } else {
      assert (a + b)[..|a + b| - 1] == a + b[..|b| - 1];
      IncludedConcat(a, b[..|b| - 1]);
    }
  }

  lemma {:induction false} SpannedConcat(a: seq<RequestPart>, b: seq<RequestPart>, pointer: string)
    ensures SpannedAt(a + b, pointer) == SpannedAt(a, pointer) + SpannedAt(b, pointer)
  {
    if b == [] {
      assert a + b == a;
    } else {
      assert (a + b)[..|a + b| - 1] == a + b[..|b| - 1];
      SpannedConcat(a, b[..|b| - 1], pointer);
    }
  }

  lemma {:induction false} AllIncluded(parts: seq<RequestPart>)
    ensures (forall k | 0 <= k < |parts| :: parts[k].participation.Included?) ==> IncludedParts(parts) == parts
    ensures (forall k | 0 <= k < |parts| :: parts[k].participation.Empty?) ==> IncludedParts(parts) == []
  {
    if parts != [] {
      AllIncluded(parts[..|parts| - 1]);
    }
  }

  lemma {:induction false} SpannedHere(parts: seq<RequestPart>, here: string, pointer: string)
    requires AllSpanned(parts) && forall k | 0 <= k < |parts| :: parts[k].pointer == Some(here)
    ensures SpannedAt(parts, pointer) == if pointer == here then parts else []
  {
    if parts != [] {
      SpannedHere(parts[..|parts| - 1], here, pointer);
    }
  }

  /** The included parts of one group: all of them or none. */
  lemma {:induction false} GroupIncluded(i: nat, content: string, group: seq<RequestPart>, pointer: string)
    requires Attributes(i, content, group)
    ensures IncludedParts(group) == [] || IncludedParts(group) == group
    ensures SpannedAt(IncludedParts(group), pointer) == if pointer == ContentPointer(i) then IncludedParts(group) else []
  {
    AllIncluded(group);
    if IncludedParts(group) != [] {
      SpannedHere(group, ContentPointer(i), pointer);
    }
  }

  /** The spanned parts at the pointer of message `i` are exactly the included parts of its group. */
  lemma {:induction false} SpannedAreGroup(contents: seq<string>, groups: seq<seq<RequestPart>>, i: nat)
    requires Grouping(contents, groups, 0)
    ensures SpannedAt(IncludedParts(Flatten(groups)), ContentPointer(i)) == if i < |groups| then IncludedParts(groups[i]) else []
  {
    if groups != [] {
      var n := |groups| - 1;
      SpannedAreGroup(contents[..n], groups[..n], i);
      IncludedConcat(Flatten(groups[..n]), groups[n]);
      SpannedConcat(IncludedParts(Flatten(groups[..n])), IncludedParts(groups[n]), ContentPointer(i));
      GroupIncluded(n, contents[n], groups[n], ContentPointer(i));
      if i != n {
        PointersDiffer(i, n);
      }
    }
  }

  /** Every included part belongs to the group of its message. */
  lemma {:induction false} PartOfGroup(contents: seq<string>, groups: seq<seq<RequestPart>>, p: RequestPart) returns (i: nat)
    requires Grouping(contents, groups, 0) && p in IncludedParts(Flatten(groups))
    ensures i < |groups| && p in groups[i] && IncludedParts(groups[i]) == groups[i]
  {
    var n := |groups| - 1;
    IncludedConcat(Flatten(groups[..n]), groups[n]);
    if p in IncludedParts(Flatten(groups[..n])) {
      i := PartOfGroup(contents[..n], groups[..n], p);
    } else {
      GroupIncluded(n, contents[n], groups[n], "");
      i := n;
    }
  }

  // ---------------------------------------------------------------- sorted already

  predicate Ascending(parts: seq<RequestPart>)
    requires AllSpanned(parts)
  {
    forall i, j | 0 <= i < |parts| && 0 <= j < |parts| && j == i + 1 :: !SpanLess(parts[j], parts[i])
  }

  lemma {:induction false} InsertAtEnd(p: RequestPart, sorted: seq<RequestPart>)
    requires p.span.Some? && AllSpanned(sorted) && (sorted != [] ==> !SpanLess(p, sorted[|sorted| - 1]))
    ensures InsertBySpan(p, sorted) == sorted + [p]
  {
  }

  lemma {:induction false} AscendingFront(parts: seq<RequestPart>)
    requires AllSpanned(parts) && Ascending(parts) && parts != []
    ensures var n := |parts| - 1;
            AllSpanned(parts[..n]) && Ascending(parts[..n]) && (n > 0 ==> !SpanLess(parts[n], parts[..n][n - 1]))
  {
  }

  lemma {:induction false} SortKeepsAscending(parts: seq<RequestPart>)
    requires AllSpanned(parts) && Ascending(parts)
    ensures SortBySpan(parts) == parts
  {
    if parts != [] {
      var n := |parts| - 1;
      AscendingFront(parts);
      SortKeepsAscending(parts[..n]);
      InsertAtEnd(parts[n], parts[..n]);
      assert parts[..n] + [parts[n]] == parts;
    }
  }

  lemma {:induction false} CoversAscends(content: string, parts: seq<RequestPart>)
    requires AllSpanned(parts) && Covers(parts, |content|) && SlicesOf(content, parts)
    ensures Ascending(parts)
  {
  }

  // ---------------------------------------------------------------- acceptance

  lemma {:induction false} IncludedIncreasing(parts: seq<RequestPart>, first: nat)
    requires OrdersFrom(parts, first)
    ensures Increasing(IncludedParts(parts))
    ensures forall p | p in IncludedParts(parts) :: first <= p.order < first + |parts|
  {
    if parts != [] {
      IncludedIncreasing(parts[..|parts| - 1], first);
    }
  }

  ghost predicate Resolves(reader: Reader, payload: Json, contents: seq<string>) {
    forall i | 0 <= i < |contents| :: Resolve(reader, payload, ContentPointer(i)) == Some(JString(contents[i]))
  }

  lemma {:induction false} PartMatches(reader: Reader, payload: Json, contents: seq<string>, groups: seq<seq<RequestPart>>, p: RequestPart)
    requires Grouping(contents, groups, 0) && Resolves(reader, payload, contents) && p in IncludedParts(Flatten(groups))
    ensures Matches(reader, payload, p) && p.span.Some? && p.pointer.Some?
    ensures exists i: nat :: i < |contents| && p.pointer == Some(ContentPointer(i)) && IncludedParts(groups[i]) == groups[i] && groups[i] != []
  {
    var i := PartOfGroup(contents, groups, p);
    var k :| 0 <= k < |groups[i]| && groups[i][k] == p;
    InGroup(i, contents[i], groups[i], k);
  }

  lemma {:induction false} InGroup(i: nat, content: string, group: seq<RequestPart>, k: nat)
    requires Attributes(i, content, group) && IncludedParts(group) == group && k < |group|
    ensures var p := group[k];
            && AllSpanned(group) && Covers(group, |content|) && SlicesOf(content, group)
            && p.pointer == Some(ContentPointer(i)) && p.sources != [] && p.span.Some?
            && 0 <= p.span.value.0 <= p.span.value.1 <= |content|
            && content[p.span.value.0..p.span.value.1] == p.content
  {
    AllIncluded(group);
  }

  lemma {:induction false} GroupCovered(contents: seq<string>, groups: seq<seq<RequestPart>>, i: nat)
    requires Grouping(contents, groups, 0) && i < |contents| && IncludedParts(groups[i]) == groups[i] && groups[i] != []
    requires forall p | p in IncludedParts(Flatten(groups)) :: p.span.Some?
    ensures Covered(IncludedParts(Flatten(groups)), ContentPointer(i), |contents[i]|)
  {
    SpannedAreGroup(contents, groups, i);
    InGroup(i, contents[i], groups[i], 0);
    CoversAscends(contents[i], groups[i]);
    SortKeepsAscending(groups[i]);
    SpannedAtIsSpanned(IncludedParts(Flatten(groups)), ContentPointer(i));
  }

  predicate NoUnknown(parts: seq<RequestPart>) {
    forall k | 0 <= k < |parts| :: !parts[k].participation.UnknownSource?
  }

  lemma {:induction false} GroupsKnown(contents: seq<string>, groups: seq<seq<RequestPart>>)
    requires Grouping(contents, groups, 0)
    ensures NoUnknown(Flatten(groups))
  {
    if groups != [] {
      var n := |groups| - 1;
      GroupsKnown(contents[..n], groups[..n]);
    }
  }

  lemma {:induction false} AllMatch(reader: Reader, payload: Json, contents: seq<string>, groups: seq<seq<RequestPart>>)
    requires Grouping(contents, groups, 0) && Resolves(reader, payload, contents)
    ensures var included := IncludedParts(Flatten(groups));
            && (forall i | 0 <= i < |included| :: Matches(reader, payload, included[i]))
            && SpansCovered(reader, payload, included)
  {
    var included := IncludedParts(Flatten(groups));
    forall p | p in included ensures p.span.Some? {
      PartMatches(reader, payload, contents, groups, p);
    }
    forall k | 0 <= k < |included|
      ensures Matches(reader, payload, included[k])
      ensures included[k].span.Some? && included[k].pointer.Some? ==>
                Covered(included, included[k].pointer.value, LengthAt(reader, payload, included[k].pointer.value))
    {
      PartMatches(reader, payload, contents, groups, included[k]);
      var i: nat :| i < |contents| && included[k].pointer == Some(ContentPointer(i)) && IncludedParts(groups[i]) == groups[i] && groups[i] != [];
      GroupCovered(contents, groups, i);
    }
  }

  /** Every part that takes part is a span of the text of one of `n` messages. */
  ghost predicate SpansOfMessages(parts: seq<RequestPart>, n: nat) {
    forall p | p in IncludedParts(parts) :: p.span.Some? && exists i: nat :: i < n && p.pointer == Some(ContentPointer(i))
  }

  /** Parts that attribute their messages, in one increasing order, are accepted. */
  lemma {:induction false} GroupsAccepted(reader: Reader, payload: Json, contents: seq<string>, groups: seq<seq<RequestPart>>)
    requires Grouping(contents, groups, 0) && Resolves(reader, payload, contents)
    requires OrdersFrom(Flatten(groups), 0) && IncludedParts(Flatten(groups)) != []
    ensures Attributed(reader, payload, Flatten(groups)) && SpansOfMessages(Flatten(groups), |contents|)
  {
    forall p | p in IncludedParts(Flatten(groups))
      ensures p.span.Some? && exists i: nat :: i < |contents| && p.pointer == Some(ContentPointer(i))
    {
      PartMatches(reader, payload, contents, groups, p);
    }
    IncludedIncreasing(Flatten(groups), 0);
    GroupsKnown(contents, groups);
    AllMatch(reader, payload, contents, groups);
  }

  // ---------------------------------------------------------------- the producers

  function ContentsOf(segments: seq<PromptSegment>): seq<string> {
    seq(|segments|, i requires 0 <= i < |segments| => segments[i].content)
  }

  /** One group of parts for each segment, and together they are the parts of the prompt. */
  ghost predicate SegmentsLaid(segments: seq<PromptSegment>, turn: string, groups: seq<seq<RequestPart>>) {
    Flatten(groups) == PartsOf(segments, turn) && Grouping(ContentsOf(segments), groups, 0)
  }

  /** `request_parts` gives one group for each segment, in order. */
  lemma {:induction false} SegmentsGroup(segments: seq<PromptSegment>, turn: string) returns (groups: seq<seq<RequestPart>>)
    requires AllTiled(segments)
    ensures SegmentsLaid(segments, turn, groups)
  {
    if segments == [] {
      groups := [];
    } else {
      var front, s := segments[..|segments| - 1], segments[|segments| - 1];
      TiledFront(segments);
      var before := SegmentsGroup(front, turn);
      groups := SegmentStep(front, s, turn, before);
    }
  }

  lemma {:induction false} TiledFront(segments: seq<PromptSegment>)
    requires AllTiled(segments) && segments != []
    ensures var front, s := segments[..|segments| - 1], segments[|segments| - 1];
            AllTiled(front) && TiledSegment(s) && front + [s] == segments
  {
  }

  lemma {:induction false} SegmentStep(front: seq<PromptSegment>, s: PromptSegment, turn: string, groups: seq<seq<RequestPart>>)
    returns (more: seq<seq<RequestPart>>)
    requires TiledSegment(s) && SegmentsLaid(front, turn, groups)
    ensures SegmentsLaid(front + [s], turn, more)
  {
    var added := SegmentParts(|front|, |PartsOf(front, turn)|, s, turn);
    SegmentAttributes(|front|, |PartsOf(front, turn)|, s, turn);
    PartsPush(front, s, turn);
    GroupJoins(ContentsOf(front), groups, PartsOf(front, turn), s.content, added);
    assert ContentsOf(front + [s]) == ContentsOf(front) + [s.content];
    more := groups + [added];
  }

  lemma {:induction false} PartsPush(front: seq<PromptSegment>, s: PromptSegment, turn: string)
    ensures PartsOf(front + [s], turn) == PartsOf(front, turn) + SegmentParts(|front|, |PartsOf(front, turn)|, s, turn)
  {
    assert (front + [s])[..|front|] == front;
  }

  lemma {:induction false} GroupJoins(contents: seq<string>, groups: seq<seq<RequestPart>>, parts: seq<RequestPart>, content: string, added: seq<RequestPart>)
    requires Flatten(groups) == parts && Grouping(contents, groups, 0) && Attributes(|contents|, content, added)
    ensures Flatten(groups + [added]) == parts + added && Grouping(contents + [content], groups + [added], 0)
  {
    GroupingPush(contents, groups, 0, content, added);
    FlattenPush(groups, added);
  }

  lemma {:induction false} FlattenPush(groups: seq<seq<RequestPart>>, group: seq<RequestPart>)
    ensures Flatten(groups + [group]) == Flatten(groups) + group
  {
    assert (groups + [group])[..|groups|] == groups;
  }

  lemma {:induction false} PartsHaveOrders(segments: seq<PromptSegment>, turn: string)
    ensures OrdersFrom(PartsOf(segments, turn), 0)
  {
    OrdersAreIndexes(segments, turn);
  }

  lemma {:induction false} FragmentsForValid(fragments: seq<Fragment>, id: string)
    requires forall k | 0 <= k < |fragments| :: ValidFragment(fragments[k])
    ensures forall k | 0 <= k < |FragmentsFor(fragments, id)| :: ValidFragment(FragmentsFor(fragments, id)[k])
  {
    FragmentsForAre(fragments, id);
    var some := FragmentsFor(fragments, id);
    forall k | 0 <= k < |some| ensures ValidFragment(some[k]) {
      assert some[k] in some;
    }
  }

  ghost predicate EventsGrouped(m: ToolMessages, groups: seq<seq<RequestPart>>, offset: nat, order: nat) {
    Flatten(groups) == m.parts && Grouping(m.texts, groups, offset) && OrdersFrom(m.parts, order)
  }

  lemma {:induction false} EventStep(renderer: Option<Renderer>, e: ToolEvent, fragments: seq<Fragment>, index: nat, offset: nat, order: nat,
                                     before: ToolMessages, groups: seq<seq<RequestPart>>) returns (added: seq<RequestPart>)
    requires ValidEvent(e) && (forall k | 0 <= k < |fragments| :: ValidFragment(fragments[k]))
    requires EventsGrouped(before, groups, offset, order) && |before.texts| == index
    ensures var r := AddEvent(renderer, e, fragments, index, offset, order, before);
            |r.texts| == index + 1 && EventsGrouped(r, groups + [added], offset, order)
  {
    var some := FragmentsFor(fragments, e.id);
    FragmentsForValid(fragments, e.id);
    MessageIsSourced(renderer, index, some);
    added := MessageStep(e, index, offset, order, before, groups, MessageOf(renderer, index, some));
  }

  lemma {:induction false} MessageStep(e: ToolEvent, index: nat, offset: nat, order: nat, before: ToolMessages, groups: seq<seq<RequestPart>>, message: Rendered)
    returns (added: seq<RequestPart>)
    requires ValidEvent(e) && message.text == Contents(message.fragments)
    requires forall k | 0 <= k < |message.fragments| :: ValidFragment(message.fragments[k])
    requires EventsGrouped(before, groups, offset, order) && |before.texts| == index
    ensures EventsGrouped(AddMessage(e, index, offset, order, before, message), groups + [added], offset, order)
  {
    EventAttributes(offset + index, order + |before.parts|, e, message);
    added := EventParts(ContentPointer(offset + index), order + |before.parts|, e, message.fragments);
    MessageJoins(before, groups, offset, order, message.text, added);
  }

  lemma {:induction false} MessageJoins(before: ToolMessages, groups: seq<seq<RequestPart>>, offset: nat, order: nat, text: string, added: seq<RequestPart>)
    requires EventsGrouped(before, groups, offset, order)
    requires Attributes(offset + |before.texts|, text, added) && OrdersFrom(added, order + |before.parts|)
    ensures EventsGrouped(ToolMessages(before.texts + [text], before.parts + added), groups + [added], offset, order)
  {
    GroupingPush(before.texts, groups, offset, text, added);
    FlattenPush(groups, added);
  }

  /** One group of parts for each tool event, numbered after the messages and parts before. */
  lemma {:induction false} EventsGroup(renderer: Option<Renderer>, events: seq<ToolEvent>, fragments: seq<Fragment>, offset: nat, order: nat, n: nat)
    returns (groups: seq<seq<RequestPart>>)
    requires n <= |events| && (forall i | 0 <= i < |events| :: ValidEvent(events[i]))
    requires forall k | 0 <= k < |fragments| :: ValidFragment(fragments[k])
    ensures var r := RenderEvents(renderer, events, fragments, offset, order, n);
            |r.texts| == n && EventsGrouped(r, groups, offset, order)
  {
    if n == 0 {
      groups := [];
    } else {
      var front := EventsGroup(renderer, events, fragments, offset, order, n - 1);
      var before := RenderEvents(renderer, events, fragments, offset, order, n - 1);
      var added := EventStep(renderer, events[n - 1], fragments, n - 1, offset, order, before, front);
      groups := front + [added];
    }
  }

  lemma {:induction false} GroupingPush(contents: seq<string>, groups: seq<seq<RequestPart>>, first: nat, content: string, group: seq<RequestPart>)
    requires Grouping(contents, groups, first) && Attributes(first + |contents|, content, group)
    ensures Grouping(contents + [content], groups + [group], first)
  {
  }

  lemma {:induction false} GroupingConcat(a: seq<string>, ga: seq<seq<RequestPart>>, b: seq<string>, gb: seq<seq<RequestPart>>)
    requires Grouping(a, ga, 0) && Grouping(b, gb, |a|)
    ensures Grouping(a + b, ga + gb, 0)
  {
    forall i | 0 <= i < |a + b| ensures Attributes(0 + i, (a + b)[i], (ga + gb)[i]) {
      if i < |a| {
        assert Attributes(0 + i, a[i], ga[i]);
      } else {
        assert Attributes(|a| + (i - |a|), b[i - |a|], gb[i - |a|]);
      }
    }
  }

  lemma {:induction false} SomethingIncluded(parts: seq<RequestPart>, p: RequestPart)
    requires p in parts && p.participation.Included?
    ensures p in IncludedParts(parts)
  {
    var n := |parts| - 1;
    if p != parts[n] {
      assert p in parts[..n];
      SomethingIncluded(parts[..n], p);
    }
  }

  lemma {:induction false} FirstSegmentIncluded(segments: seq<PromptSegment>, turn: string)
    requires segments != [] && (segments[0].content != "" || segments[0].fragments != [])
    ensures PartsOf(segments, turn) != [] && PartsOf(segments, turn)[0].participation.Included?
  {
    if |segments| > 1 {
      assert segments[..|segments| - 1][0] == segments[0];
      FirstSegmentIncluded(segments[..|segments| - 1], turn);
    } else {
      assert PartsOf(segments[..0], turn) == [];
    }
  }

  /** Everything that the prompt's segments and the tool events produce is accepted by the
      validator on the messages they make up, whatever else the payload contains. */
  lemma {:induction false} ProducedIsAccepted(reader: Reader, segments: seq<PromptSegment>, turn: string, renderer: Option<Renderer>,
                                              policy: Policy, events: seq<ToolEvent>, others: map<string, Json>, messageFields: map<string, Json>)
    requires ReadsNumerals(reader) && AllTiled(segments) && segments != [] && (segments[0].content != "" || segments[0].fragments != [])
    requires Unique(EntryIds(EntriesOf(events))) && forall i | 0 <= i < |events| :: ValidEvent(events[i])
    ensures var parts := PartsOf(segments, turn);
            var tools := RenderTools(renderer, policy, events, |segments|, |parts|);
            && tools.Ok?
            && Attributed(reader, Payload(ContentsOf(segments) + tools.value.texts, others, messageFields), parts + tools.value.parts)
            && SpansOfMessages(parts + tools.value.parts, |ContentsOf(segments) + tools.value.texts|)
  {
    var parts := PartsOf(segments, turn);
    var groups := SegmentsGroup(segments, turn);
    PartsHaveOrders(segments, turn);
    FirstSegmentIncluded(segments, turn);
    EntriesValid(events);
    AnnotatedIsValid(policy, EntriesOf(events), "");
    var h := Annotated(policy, EntriesOf(events), "").value;
    var toolGroups := EventsGroup(renderer, events, h.fragments, |segments|, |parts|, |events|);
    var tools := RenderTools(renderer, policy, events, |segments|, |parts|).value;
    JoinedAccepted(reader, ContentsOf(segments), groups, tools.texts, toolGroups, others, messageFields);
  }

  lemma {:induction false} EntriesValid(events: seq<ToolEvent>)
    requires forall i | 0 <= i < |events| :: ValidEvent(events[i])
    ensures forall i | 0 <= i < |EntriesOf(events)| :: ValidEntry(EntriesOf(events)[i])
  {
  }

  lemma {:induction false} JoinedAccepted(reader: Reader, a: seq<string>, ga: seq<seq<RequestPart>>, b: seq<string>, gb: seq<seq<RequestPart>>,
                                          others: map<string, Json>, messageFields: map<string, Json>)
    requires ReadsNumerals(reader) && Grouping(a, ga, 0) && Grouping(b, gb, |a|)
    requires OrdersFrom(Flatten(ga), 0) && OrdersFrom(Flatten(gb), |Flatten(ga)|)
    requires Flatten(ga) != [] && Flatten(ga)[0].participation.Included?
    ensures Attributed(reader, Payload(a + b, others, messageFields), Flatten(ga) + Flatten(gb))
    ensures SpansOfMessages(Flatten(ga) + Flatten(gb), |a + b|)
  {
    var payload := Payload(a + b, others, messageFields);
    GroupingConcat(a, ga, b, gb);
    FlattenConcat(ga, gb);
    forall i | 0 <= i < |a + b| ensures Resolve(reader, payload, ContentPointer(i)) == Some(JString((a + b)[i])) {
      ContentResolves(reader, a + b, others, messageFields, i);
    }
    var all := Flatten(ga) + Flatten(gb);
    assert all[0] in all;
    SomethingIncluded(all, all[0]);
    GroupsAccepted(reader, payload, a + b, ga + gb);
  }

  /** The same from the inputs of `assemble`: for every policy, every frame, all entries and
      all tool events, an assembled prompt passes `validate_provenance`. */
  lemma {:induction false} AssembledIsAccepted(reader: Reader, policy: Policy, timed: bool, renderer: Option<Renderer>, p: Prompt, turn: string,
                                               events: seq<ToolEvent>, others: map<string, Json>, messageFields: map<string, Json>)
    requires ReadsNumerals(reader) && p.persona != ""
    requires ValidEntries(p.overview) && ValidEntries(p.longTerm) && ValidEntries(p.recent) && ValidEntry(p.input)
    requires Unique(EntryIds(EntriesOf(events))) && forall i | 0 <= i < |events| :: ValidEvent(events[i])
    requires Assemble(if timed then Some(policy) else None, renderer, p).Ok?
    ensures var segments := Assemble(if timed then Some(policy) else None, renderer, p).value;
            var parts := PartsOf(segments, turn);
            var tools := RenderTools(renderer, policy, events, |segments|, |parts|);
            && tools.Ok?
            && Attributed(reader, Payload(ContentsOf(segments) + tools.value.texts, others, messageFields), parts + tools.value.parts)
            && SpansOfMessages(parts + tools.value.parts, |ContentsOf(segments) + tools.value.texts|)
  {
    var chosen := if timed then Some(policy) else None;
    AssembledIsTiled(chosen, renderer, p);
    var segments := Assemble(chosen, renderer, p).value;
    PersonaNotEmpty(renderer, p.persona, p.personaSource);
    ProducedIsAccepted(reader, segments, turn, renderer, policy, events, others, messageFields);
  }

  lemma {:induction false} PersonaNotEmpty(renderer: Option<Renderer>, persona: string, source: Source)
    requires persona != ""
    ensures PersonaSegment(renderer, persona, source).content != ""
  {
    if renderer.Some? {
      var all := SystemPieces(renderer.value, persona, source);
      assert all == [all[0]] + all[1..];
      TextOfConcat([all[0]], all[1..]);
      assert [all[0]][..0] == [];
      assert TextOf([all[0]]) == persona;
    }
  }
}
