/** When acceptance by `validate_provenance` gives every character exactly one part. The
    checks go by the spelling of a pointer, and two whole-content parts are never compared,
    so it depends on the parts handed in; this module states the exact condition. */
module Attribution {
  import opened Outcomes
  import opened Boundaries
  import opened Text
  import opened Temporal
  import opened Provenance
  import opened Assembly
  import opened ToolHistory
  import opened Pipeline

  // ---------------------------------------------------------------- places

  /** One step down a payload, free of spelling: the key, or the index counted from the front. */
  datatype Step = Key(key: string) | Index(index: nat)

  function StepInto(reader: Reader, current: Json, token: string): Option<Step> {
    match current
    case JObject(fields) => if token in fields then Some(Key(token)) else None
    case JArray(items) =>
      (match reader.index(token)
       case None => None
       case Some(k) => if 0 <= k < |items| then Some(Index(k)) else if -|items| <= k < 0 then Some(Index(|items| + k)) else None)
    case _ => None
  }

  function Follow(current: Json, step: Step): Option<Json> {
    match step
    case Key(key) => if current.JObject? && key in current.fields then Some(current.fields[key]) else None
    case Index(index) => if current.JArray? && index < |current.items| then Some(current.items[index]) else None
  }

  function ValueAt(payload: Json, place: seq<Step>): Option<Json> {
    if place == [] then Some(payload)
    else
      var before := ValueAt(payload, place[..|place| - 1]);
      if before.None? then None else Follow(before.value, place[|place| - 1])
  }

  function WalkPlace(reader: Reader, payload: Json, tokens: seq<string>): Option<seq<Step>> {
    if tokens == [] then Some([])
    else
      var before := WalkPlace(reader, payload, tokens[..|tokens| - 1]);
      if before.None? || ValueAt(payload, before.value).None? then None
      else
        var step := StepInto(reader, ValueAt(payload, before.value).value, Unescape(tokens[|tokens| - 1]));
        if step.None? then None else Some(before.value + [step.value])
  }

  /** The place a pointer leads to: two spellings of one field have the same place. */
  function PlaceOf(reader: Reader, payload: Json, pointer: string): Option<seq<Step>> {
    if pointer == "" then Some([])
    else if pointer[0] != '/' then None
    else WalkPlace(reader, payload, Split(pointer[1..]))
  }

  lemma {:induction false} EnterIsFollow(reader: Reader, current: Json, token: string)
    ensures var step := StepInto(reader, current, token);
            Enter(reader, current, token) == (if step.None? then None else Follow(current, step.value))
            && (step.Some? ==> Follow(current, step.value).Some?)
  {
  }

  lemma {:induction false} OneStepOn(payload: Json, place: seq<Step>, step: Step)
    ensures ValueAt(payload, place + [step]) ==
            if ValueAt(payload, place).None? then None else Follow(ValueAt(payload, place).value, step)
  {
    assert (place + [step])[..|place|] == place;
  }

  lemma {:induction false} WalkReaches(reader: Reader, payload: Json, tokens: seq<string>)
    ensures var place := WalkPlace(reader, payload, tokens);
            Walk(reader, payload, tokens) == (if place.None? then None else ValueAt(payload, place.value))
            && (place.Some? ==> ValueAt(payload, place.value).Some?)
  {
    if tokens != [] {
      var n := |tokens| - 1;
      WalkReaches(reader, payload, tokens[..n]);
      var before := WalkPlace(reader, payload, tokens[..n]);
      if before.Some? {
        var current, token := ValueAt(payload, before.value).value, Unescape(tokens[n]);
        EnterIsFollow(reader, current, token);
        var step := StepInto(reader, current, token);
        if step.Some? {
          OneStepOn(payload, before.value, step.value);
        }
      }
    }
  }

  /** Resolving a pointer is going to its place; so one place holds one value. */
  lemma {:induction false} PlaceResolves(reader: Reader, payload: Json, pointer: string)
    ensures var place := PlaceOf(reader, payload, pointer);
            Resolve(reader, payload, pointer) == if place.None? then None else ValueAt(payload, place.value)
  {
    if pointer != "" && pointer[0] == '/' {
      WalkReaches(reader, payload, Split(pointer[1..]));
    }
  }

  // ---------------------------------------------------------------- one part for every character

  /** The text a part speaks of, as `validate_provenance` reads it. */
  function TextRead(reader: Reader, payload: Json, part: RequestPart): string {
    if part.pointer.None? then ""
    else
      match Resolve(reader, payload, part.pointer.value)
      case None => ""
      case Some(JString(s)) => s
      case Some(v) => reader.canonical(v)
  }

  predicate SamePlace(reader: Reader, payload: Json, a: RequestPart, b: RequestPart) {
    && a.pointer.Some? && b.pointer.Some?
    && PlaceOf(reader, payload, a.pointer.value).Some?
    && PlaceOf(reader, payload, a.pointer.value) == PlaceOf(reader, payload, b.pointer.value)
  }

  predicate HasChar(part: RequestPart, c: nat) {
    part.span.None? || part.span.value.0 <= c < part.span.value.1
  }

  /** Part `i` has character `c` of the text of `part`. */
  predicate Attributes(reader: Reader, payload: Json, included: seq<RequestPart>, part: RequestPart, c: nat, i: nat) {
    i < |included| && SamePlace(reader, payload, part, included[i]) && HasChar(included[i], c)
  }

  /** Every character of every attributed text lies in exactly one included part. */
  ghost predicate EachCharOnce(reader: Reader, payload: Json, included: seq<RequestPart>) {
    forall k, c: nat | 0 <= k < |included| && c < |TextRead(reader, payload, included[k])| ::
      OnceAt(reader, payload, included, included[k], c)
  }

  ghost predicate OnceAt(reader: Reader, payload: Json, included: seq<RequestPart>, part: RequestPart, c: nat) {
    && (exists i: nat :: Attributes(reader, payload, included, part, c, i))
    && (forall i: nat, j: nat | Attributes(reader, payload, included, part, c, i) && Attributes(reader, payload, included, part, c, j) :: i == j)
  }

  /** No two included parts of one non-empty text are both whole-content, and no two of them
      spell its place differently. */
  predicate Separate(reader: Reader, payload: Json, included: seq<RequestPart>) {
    forall i, j | 0 <= i < j < |included| && SamePlace(reader, payload, included[i], included[j])
                  && TextRead(reader, payload, included[i]) != "" ::
      included[i].pointer == included[j].pointer && (included[i].span.Some? || included[j].span.Some?)
  }

  // ---------------------------------------------------------------- the spans of one pointer

  /** Spans read from a text run forwards. */
  predicate Forward(sorted: seq<RequestPart>)
    requires AllSpanned(sorted)
  {
    forall i | 0 <= i < |sorted| :: sorted[i].span.value.0 <= sorted[i].span.value.1
  }

  lemma {:induction false} CoverHasChar(sorted: seq<RequestPart>, length: nat, c: nat, n: nat) returns (k: nat)
    requires AllSpanned(sorted) && Forward(sorted) && Covers(sorted, length)
    requires 1 <= n <= |sorted| && c < sorted[n - 1].span.value.1
    ensures k < |sorted| && HasChar(sorted[k], c)
  {
    if sorted[n - 1].span.value.0 <= c {
      k := n - 1;
    } else {
      k := CoverHasChar(sorted, length, c, n - 1);
    }
  }

  lemma {:induction false} CoverInOrder(sorted: seq<RequestPart>, i: nat, n: nat, length: nat)
    requires AllSpanned(sorted) && Forward(sorted) && i < n < |sorted| && Covers(sorted, length)
    ensures sorted[i].span.value.1 <= sorted[n].span.value.0
    decreases n - i
  {
    if i < n - 1 {
      CoverInOrder(sorted, i, n - 1, length);
    }
  }

  lemma {:induction false} InSorted(parts: seq<RequestPart>, p: RequestPart) returns (k: nat)
    requires AllSpanned(parts) && p in parts
    ensures k < |SortBySpan(parts)| && SortBySpan(parts)[k] == p
  {
    SortKeepsParts(parts);
    assert p in multiset(SortBySpan(parts));
    k :| 0 <= k < |SortBySpan(parts)| && SortBySpan(parts)[k] == p;
  }

  lemma {:induction false} InSpanned(parts: seq<RequestPart>, pointer: string, i: nat)
    requires i < |parts| && parts[i].pointer == Some(pointer) && parts[i].span.Some?
    ensures parts[i] in SpannedAt(parts, pointer)
  {
    if i < |parts| - 1 {
      InSpanned(parts[..|parts| - 1], pointer, i);
    }
  }

  lemma {:induction false} SortedForward(reader: Reader, payload: Json, included: seq<RequestPart>, pointer: string)
    requires forall i | 0 <= i < |included| :: Matches(reader, payload, included[i])
    ensures AllSpanned(SpannedAt(included, pointer)) && Forward(SortBySpan(SpannedAt(included, pointer)))
  {
    SpannedAtIsSpanned(included, pointer);
    SpannedAtAre(included, pointer);
    var spanned := SpannedAt(included, pointer);
    var sorted := SortBySpan(spanned);
    forall i | 0 <= i < |sorted| ensures sorted[i].span.value.0 <= sorted[i].span.value.1 {
      SortedAre(spanned, sorted[i]);
      var j :| 0 <= j < |included| && included[j] == sorted[i];
      assert Matches(reader, payload, included[j]);
    }
  }

  /** Two different parts spanned at one pointer share no character. */
  lemma {:induction false} SpansAreDisjoint(reader: Reader, payload: Json, included: seq<RequestPart>, pointer: string, length: nat,
                                            i: nat, j: nat, c: nat)
    requires Increasing(included) && forall i | 0 <= i < |included| :: Matches(reader, payload, included[i])
    requires Covered(included, pointer, length) && i < |included| && j < |included|
    requires included[i].pointer == included[j].pointer == Some(pointer) && HasChar(included[i], c) && HasChar(included[j], c)
    ensures i == j
  {
    SortedForward(reader, payload, included, pointer);
    InSpanned(included, pointer, i);
    InSpanned(included, pointer, j);
    var a := InSorted(SpannedAt(included, pointer), included[i]);
    var b := InSorted(SpannedAt(included, pointer), included[j]);
    if a < b {
      CoverInOrder(SortBySpan(SpannedAt(included, pointer)), a, b, length);
    } else if b < a {
      CoverInOrder(SortBySpan(SpannedAt(included, pointer)), b, a, length);
    }
  }

  lemma {:induction false} SpansHaveChar(reader: Reader, payload: Json, included: seq<RequestPart>, pointer: string, length: nat, c: nat)
    returns (i: nat)
    requires forall i | 0 <= i < |included| :: Matches(reader, payload, included[i])
    requires Covered(included, pointer, length) && c < length
    ensures i < |included| && included[i].pointer == Some(pointer) && included[i].span.Some? && HasChar(included[i], c)
  {
    SortedForward(reader, payload, included, pointer);
    var spanned := SpannedAt(included, pointer);
    var sorted := SortBySpan(spanned);
    var k := CoverHasChar(sorted, length, c, |sorted|);
    SortedAre(spanned, sorted[k]);
    SpannedAtAre(included, pointer);
    i :| 0 <= i < |included| && included[i] == sorted[k];
  }

  // ---------------------------------------------------------------- the condition

  /** An accepted part, with what acceptance says of the parts spelled like it. */
  lemma {:induction false} PartFacts(reader: Reader, payload: Json, parts: seq<RequestPart>, k: nat)
    requires Attributed(reader, payload, parts) && k < |IncludedParts(parts)|
    ensures var included := IncludedParts(parts);
            && Matches(reader, payload, included[k]) && SamePlace(reader, payload, included[k], included[k])
            && (included[k].span.Some? ==> Covered(included, included[k].pointer.value, |TextRead(reader, payload, included[k])|))
  {
    var part := IncludedParts(parts)[k];
    assert Matches(reader, payload, part);
    PlaceResolves(reader, payload, part.pointer.value);
  }

  lemma {:induction false} SameText(reader: Reader, payload: Json, a: RequestPart, b: RequestPart)
    requires SamePlace(reader, payload, a, b)
    ensures TextRead(reader, payload, a) == TextRead(reader, payload, b)
  {
    PlaceResolves(reader, payload, a.pointer.value);
    PlaceResolves(reader, payload, b.pointer.value);
  }

  /** Some part spelled like `k`, spanned if `k` is, has character `c`. */
  lemma {:induction false} CharHasPart(reader: Reader, payload: Json, parts: seq<RequestPart>, k: nat, c: nat) returns (i: nat)
    requires Attributed(reader, payload, parts) && k < |IncludedParts(parts)|
    requires c < |TextRead(reader, payload, IncludedParts(parts)[k])|
    ensures var included := IncludedParts(parts);
            && Attributes(reader, payload, included, included[k], c, i) && included[i].pointer == included[k].pointer
            && (included[i].span.Some? <==> included[k].span.Some?) && (included[k].span.None? ==> i == k)
  {
    var included := IncludedParts(parts);
    PartFacts(reader, payload, parts, k);
    if included[k].span.Some? {
      i := SpansHaveChar(reader, payload, included, included[k].pointer.value, |TextRead(reader, payload, included[k])|, c);
    } else {
      i := k;
    }
  }

  /** Under one spelling, parts that are not both whole-content share no character. */
  lemma {:induction false} SpelledAlike(reader: Reader, payload: Json, parts: seq<RequestPart>, i: nat, j: nat, c: nat)
    requires Attributed(reader, payload, parts) && i < |IncludedParts(parts)| && j < |IncludedParts(parts)|
    requires var a, b := IncludedParts(parts)[i], IncludedParts(parts)[j];
             a.pointer == b.pointer && (a.span.Some? || b.span.Some?) && HasChar(a, c) && HasChar(b, c)
    ensures i == j
  {
    var included := IncludedParts(parts);
    PartFacts(reader, payload, parts, i);
    PartFacts(reader, payload, parts, j);
    var k := if included[i].span.Some? then i else j;
    SpansAreDisjoint(reader, payload, included, included[k].pointer.value, |TextRead(reader, payload, included[k])|, i, j, c);
  }

  lemma {:induction false} SeparateIsOnce(reader: Reader, payload: Json, parts: seq<RequestPart>, k: nat, c: nat)
    requires Attributed(reader, payload, parts) && Separate(reader, payload, IncludedParts(parts)) && k < |IncludedParts(parts)|
    requires c < |TextRead(reader, payload, IncludedParts(parts)[k])|
    ensures OnceAt(reader, payload, IncludedParts(parts), IncludedParts(parts)[k], c)
  {
    var included := IncludedParts(parts);
    var some := CharHasPart(reader, payload, parts, k, c);
    forall i: nat, j: nat | Attributes(reader, payload, included, included[k], c, i) && Attributes(reader, payload, included, included[k], c, j)
      ensures i == j
    {
      SameText(reader, payload, included[k], included[i]);
      SameText(reader, payload, included[k], included[j]);
      if i != j {
        var a, b := if i < j then i else j, if i < j then j else i;
        assert SamePlace(reader, payload, included[a], included[b]);
        SpelledAlike(reader, payload, parts, i, j, c);
      }
    }
  }

  lemma {:induction false} OnceIsSeparate(reader: Reader, payload: Json, parts: seq<RequestPart>, i: nat, j: nat)
    requires Attributed(reader, payload, parts) && EachCharOnce(reader, payload, IncludedParts(parts))
    requires var included := IncludedParts(parts);
             i < j < |included| && SamePlace(reader, payload, included[i], included[j]) && TextRead(reader, payload, included[i]) != ""
    ensures var included := IncludedParts(parts);
            included[i].pointer == included[j].pointer && (included[i].span.Some? || included[j].span.Some?)
  {
    var included := IncludedParts(parts);
    SameText(reader, payload, included[i], included[j]);
    var a := CharHasPart(reader, payload, parts, i, 0);
    var b := CharHasPart(reader, payload, parts, j, 0);
    assert Attributes(reader, payload, included, included[i], 0, b);
    assert OnceAt(reader, payload, included, included[i], 0);
    assert a == b;
  }

  /** In an accepted list every character of an attributed text lies in exactly one included
      part, if and only if no two included parts of one text are both whole-content and no two
      spell its place differently. */
  lemma {:induction false} EachCharOnceIff(reader: Reader, payload: Json, parts: seq<RequestPart>)
    requires Attributed(reader, payload, parts)
    ensures EachCharOnce(reader, payload, IncludedParts(parts)) <==> Separate(reader, payload, IncludedParts(parts))
  {
    var included := IncludedParts(parts);
    if Separate(reader, payload, included) {
      forall k, c: nat | 0 <= k < |included| && c < |TextRead(reader, payload, included[k])|
        ensures OnceAt(reader, payload, included, included[k], c)
      {
        SeparateIsOnce(reader, payload, parts, k, c);
      }
    }
    if EachCharOnce(reader, payload, included) {
      forall i, j | 0 <= i < j < |included| && SamePlace(reader, payload, included[i], included[j])
                    && TextRead(reader, payload, included[i]) != ""
        ensures included[i].pointer == included[j].pointer && (included[i].span.Some? || included[j].span.Some?)
      {
        OnceIsSeparate(reader, payload, parts, i, j);
      }
    }
  }

  // ---------------------------------------------------------------- the program's own prompts

  lemma {:induction false} OneStepPlace(reader: Reader, payload: Json, front: seq<string>, place: seq<Step>, current: Json, raw: string, step: Step)
    requires WalkPlace(reader, payload, front) == Some(place) && ValueAt(payload, place) == Some(current)
    requires StepInto(reader, current, Unescape(raw)) == Some(step)
    ensures WalkPlace(reader, payload, front + [raw]) == Some(place + [step])
    ensures ValueAt(payload, place + [step]) == Follow(current, step)
  {
    assert (front + [raw])[..|front|] == front;
    OneStepOn(payload, place, step);
  }

  /** A pointer of three tokens: a field, an item of its array, a field of that item. */
  lemma {:induction false} ThreeSteps(reader: Reader, payload: Json, ra: string, rd: string, rc: string, a: string, i: nat, c: string)
    requires Unescape(ra) == a && reader.index(Unescape(rd)) == Some(i) && Unescape(rc) == c
    requires payload.JObject? && a in payload.fields && payload.fields[a].JArray? && i < |payload.fields[a].items|
    requires var item := payload.fields[a].items[i]; item.JObject? && c in item.fields
    ensures WalkPlace(reader, payload, [ra, rd, rc]) == Some([Key(a), Index(i), Key(c)])
  {
    OneStepPlace(reader, payload, [], [], payload, ra, Key(a));
    assert [] + [ra] == [ra] && [] + [Key(a)] == [Key(a)];
    OneStepPlace(reader, payload, [ra], [Key(a)], payload.fields[a], rd, Index(i));
    assert [ra] + [rd] == [ra, rd] && [Key(a)] + [Index(i)] == [Key(a), Index(i)];
    OneStepPlace(reader, payload, [ra, rd], [Key(a), Index(i)], payload.fields[a].items[i], rc, Key(c));
    assert [ra, rd] + [rc] == [ra, rd, rc] && [Key(a), Index(i)] + [Key(c)] == [Key(a), Index(i), Key(c)];
  }

  lemma {:induction false} PathPlace(reader: Reader, payload: Json, a: string, d: string, i: nat, c: string)
    requires reader.index(d) == Some(i)
    requires payload.JObject? && a in payload.fields && payload.fields[a].JArray? && i < |payload.fields[a].items|
    requires var item := payload.fields[a].items[i]; item.JObject? && c in item.fields
    ensures PlaceOf(reader, payload, PointerTo([a, d, c])) == Some([Key(a), Index(i), Key(c)])
  {
    var path := [a, d, c];
    TokensOfPointer(path);
    UnescapeInvertsEscape(a);
    UnescapeInvertsEscape(d);
    UnescapeInvertsEscape(c);
    assert seq(|path|, k requires 0 <= k < |path| => Escape(path[k])) == [Escape(a), Escape(d), Escape(c)];
    ThreeSteps(reader, payload, Escape(a), Escape(d), Escape(c), a, i, c);
  }

  /** The place of the text of message `i`. */
  function MessagePlace(i: nat): seq<Step> {
    [Key("messages"), Index(i), Key("content")]
  }

  lemma {:induction false} ContentPlace(reader: Reader, contents: seq<string>, others: map<string, Json>, fields: map<string, Json>, i: nat)
    requires ReadsNumerals(reader) && i < |contents|
    ensures PlaceOf(reader, Payload(contents, others, fields), ContentPointer(i)) == Some(MessagePlace(i))
  {
    ContentPointerIsPath(i);
    PathPlace(reader, Payload(contents, others, fields), "messages", Decimal(i), i, "content");
  }

  lemma {:induction false} MessagesSeparate(reader: Reader, contents: seq<string>, others: map<string, Json>, fields: map<string, Json>,
                                            parts: seq<RequestPart>)
    requires ReadsNumerals(reader) && SpansOfMessages(parts, |contents|)
    ensures Separate(reader, Payload(contents, others, fields), IncludedParts(parts))
  {
    var payload, included := Payload(contents, others, fields), IncludedParts(parts);
    forall i, j | 0 <= i < j < |included| && SamePlace(reader, payload, included[i], included[j])
      ensures included[i].pointer == included[j].pointer && (included[i].span.Some? || included[j].span.Some?)
    {
      var m: nat :| m < |contents| && included[i].pointer == Some(ContentPointer(m));
      var n: nat :| n < |contents| && included[j].pointer == Some(ContentPointer(n));
      ContentPlace(reader, contents, others, fields, m);
      ContentPlace(reader, contents, others, fields, n);
      assert MessagePlace(m)[1] == MessagePlace(n)[1];
    }
  }

  /** Of a prompt that the program assembles, every character of every message has exactly
      one part, and with it its sources. */
  lemma {:induction false} AssembledOnce(reader: Reader, policy: Policy, timed: bool, renderer: Option<Renderer>, p: Prompt, turn: string,
                                         events: seq<ToolEvent>, others: map<string, Json>, fields: map<string, Json>)
    requires ReadsNumerals(reader) && p.persona != ""
    requires ValidEntries(p.overview) && ValidEntries(p.longTerm) && ValidEntries(p.recent) && ValidEntry(p.input)
    requires Unique(EntryIds(EntriesOf(events))) && forall i | 0 <= i < |events| :: ValidEvent(events[i])
    requires Assemble(if timed then Some(policy) else None, renderer, p).Ok?
    ensures var segments := Assemble(if timed then Some(policy) else None, renderer, p).value;
            var parts := PartsOf(segments, turn);
            var tools := RenderTools(renderer, policy, events, |segments|, |parts|);
            tools.Ok? && EachCharOnce(reader, Payload(ContentsOf(segments) + tools.value.texts, others, fields), IncludedParts(parts + tools.value.parts))
  {
    AssembledIsAccepted(reader, policy, timed, renderer, p, turn, events, others, fields);
    var segments := Assemble(if timed then Some(policy) else None, renderer, p).value;
    var parts := PartsOf(segments, turn);
    var tools := RenderTools(renderer, policy, events, |segments|, |parts|).value;
    var contents := ContentsOf(segments) + tools.texts;
    MessagesSeparate(reader, contents, others, fields, parts + tools.parts);
    EachCharOnceIff(reader, Payload(contents, others, fields), parts + tools.parts);
  }

  // ---------------------------------------------------------------- both failures happen

  function Whole(id: string, order: int, pointer: string, content: string): RequestPart {
    RequestPart(id, order, Included, UntrustedData, Some(pointer), None, content, [Source("s", "p")])
  }

  /** Two whole-content parts are accepted whenever both pointers lead to the text. */
  lemma {:induction false} TwoWholesPass(reader: Reader, payload: Json, p: string, q: string, text: string)
    requires Resolve(reader, payload, p) == Resolve(reader, payload, q) == Some(JString(text))
    ensures var parts := [Whole("a", 0, p, text), Whole("b", 1, q, text)];
            Attributed(reader, payload, parts) && IncludedParts(parts) == parts
  {
    var a, b := Whole("a", 0, p, text), Whole("b", 1, q, text);
    assert [a, b][..1] == [a] && [a][..0] == [];
    assert IncludedParts([a]) == [a];
    assert IncludedParts([a, b]) == [a, b];
  }

  lemma {:induction false} OneToken(reader: Reader, fields: map<string, Json>, token: string)
    requires '/' !in token && Unescape(token) in fields
    ensures Resolve(reader, JObject(fields), "/" + token) == Some(fields[Unescape(token)])
    ensures PlaceOf(reader, JObject(fields), "/" + token) == Some([Key(Unescape(token))])
  {
    assert ("/" + token)[1..] == token;
    SplitPlain(token);
    assert [token][..0] == [];
    assert Walk(reader, JObject(fields), [token]) == Some(fields[Unescape(token)]);
    assert WalkPlace(reader, JObject(fields), []) == Some([]) && [] + [Key(Unescape(token))] == [Key(Unescape(token))];
    assert WalkPlace(reader, JObject(fields), [token]) == Some([Key(Unescape(token))]);
  }

  /** One field under one pointer, accepted as attributed twice. */
  lemma {:induction false} WholesRepeat(reader: Reader)
    ensures var payload := JObject(map["a" := JString("x")]);
            var parts := [Whole("a", 0, "/a", "x"), Whole("b", 1, "/a", "x")];
            Attributed(reader, payload, parts) && !EachCharOnce(reader, payload, IncludedParts(parts))
  {
    var payload := JObject(map["a" := JString("x")]);
    OneToken(reader, map["a" := JString("x")], "a");
    assert "/" + "a" == "/a";
    TwoWholesPass(reader, payload, "/a", "/a", "x");
    EachCharOnceIff(reader, payload, [Whole("a", 0, "/a", "x"), Whole("b", 1, "/a", "x")]);
  }

  /** One field under two spellings, accepted as attributed twice. */
  lemma {:induction false} SpellingsRepeat(reader: Reader)
    ensures var payload := JObject(map["~" := JString("x")]);
            var parts := [Whole("a", 0, "/~", "x"), Whole("b", 1, "/~0", "x")];
            Attributed(reader, payload, parts) && !EachCharOnce(reader, payload, IncludedParts(parts))
  {
    var fields := map["~" := JString("x")];
    assert Unescape("~") == "~";
    assert "~0"[2..] == "" && "~0"[1..] == "0";
    assert Replace("~0", '1', '/') == "~0";
    assert Unescape("~0") == "~";
    OneToken(reader, fields, "~");
    OneToken(reader, fields, "~0");
    assert "/" + "~" == "/~" && "/" + "~0" == "/~0";
    TwoWholesPass(reader, JObject(fields), "/~", "/~0", "x");
    EachCharOnceIff(reader, JObject(fields), [Whole("a", 0, "/~", "x"), Whole("b", 1, "/~0", "x")]);
  }
}
