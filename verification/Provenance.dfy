/** `model_calls/provenance.py`: reading a payload through JSON Pointers and checking that
    the spans at each pointer tile the text found there. The checks are made pointer by
    pointer, as it is spelled; Attribution says when that gives every character one part. */
module Provenance {
  import opened Outcomes
  import opened Boundaries

  datatype Json =
    | JNull
    | JBool(b: bool)
    | JNumber(n: int)
    | JString(s: string)
    | JArray(items: seq<Json>)
    | JObject(fields: map<string, Json>)

  datatype Participation = Included | Empty | Excluded | UnknownSource

  datatype RequestPart = RequestPart(
    id: string, order: int, participation: Participation, trust: Trust, pointer: Option<string>,
    span: Option<(int, int)>, content: string, sources: seq<Source>)

  /** How `int` reads a token and how canonical JSON writes a value; both are opaque. */
  datatype Reader = Reader(index: string -> Option<int>, canonical: Json -> string)

  // ---------------------------------------------------------------- JSON Pointers

  function Split(s: string): (r: seq<string>)
    ensures r != []
  {
    if s == "" then [""]
    else
      var rest := Split(s[1..]);
      if s[0] == '/' then [""] + rest else [[s[0]] + rest[0]] + rest[1..]
  }

  /** `str.replace` of a two-character pattern `~d` by one character. */
  function Replace(s: string, d: char, into: char): string {
    if |s| < 2 then s
    else if s[0] == '~' && s[1] == d then [into] + Replace(s[2..], d, into)
    else [s[0]] + Replace(s[1..], d, into)
  }

  function Unescape(raw: string): string {
    Replace(Replace(raw, '1', '/'), '0', '~')
  }

  /** One step into a value; a sequence index may be negative, as Python's is. */
  function Enter(reader: Reader, current: Json, token: string): Option<Json> {
    match current
    case JObject(fields) => if token in fields then Some(fields[token]) else None
    case JArray(items) =>
      (match reader.index(token)
       case None => None
       case Some(k) => if 0 <= k < |items| then Some(items[k]) else if -|items| <= k < 0 then Some(items[|items| + k]) else None)
    case _ => None
  }

  function Walk(reader: Reader, current: Json, tokens: seq<string>): Option<Json> {
    if tokens == [] then Some(current)
    else
      var before := Walk(reader, current, tokens[..|tokens| - 1]);
      if before.None? then None else Enter(reader, before.value, Unescape(tokens[|tokens| - 1]))
  }

  function Resolve(reader: Reader, payload: Json, pointer: string): Option<Json> {
    if pointer == "" then Some(payload)
    else if pointer[0] != '/' then None
    else Walk(reader, payload, Split(pointer[1..]))
  }

  method ResolveJsonPointer(reader: Reader, payload: Json, pointer: string) returns (r: Option<Json>)
    ensures r == Resolve(reader, payload, pointer)
  {
    if pointer == "" {
      return Some(payload);
    }
    if pointer[0] != '/' {
      return None;
    }
    var tokens := Split(pointer[1..]);
    var current := payload;
    for i := 0 to |tokens|
      invariant Walk(reader, payload, tokens[..i]) == Some(current)
    {
      assert tokens[..i + 1][..i] == tokens[..i];
      var next := Enter(reader, current, Unescape(tokens[i]));
      if next.None? {
        WalkFails(reader, payload, tokens, i + 1);
        return None;
      }
      current := next.value;
    }
    assert tokens[..|tokens|] == tokens;
    return Some(current);
  }

  lemma {:induction false} WalkFails(reader: Reader, current: Json, tokens: seq<string>, k: nat)
    requires k <= |tokens| && Walk(reader, current, tokens[..k]).None?
    ensures Walk(reader, current, tokens).None?
  {
    if k == |tokens| {
      assert tokens[..k] == tokens;
    } else {
      assert tokens[..|tokens| - 1][..k] == tokens[..k];
      WalkFails(reader, current, tokens[..|tokens| - 1], k);
    }
  }

  /** The escaped form of a key, as section 3 of RFC 6901 writes it. */
  function Escape(key: string): string {
    if key == "" then ""
    else (if key[0] == '~' then "~0" else if key[0] == '/' then "~1" else [key[0]]) + Escape(key[1..])
  }

  lemma {:induction false} EscapeHasNoSlash(key: string)
    ensures '/' !in Escape(key)
  {
    if key != "" {
      EscapeHasNoSlash(key[1..]);
    }
  }

  /** After the first replacement only the escaped tildes are left. */
  function TildesEscaped(key: string): string {
    if key == "" then "" else (if key[0] == '~' then "~0" else [key[0]]) + TildesEscaped(key[1..])
  }

  lemma {:induction false} FirstReplacement(key: string)
    ensures Replace(Escape(key), '1', '/') == TildesEscaped(key)
  {
    if key != "" {
      var rest := Escape(key[1..]);
      FirstReplacement(key[1..]);
      if key[0] == '~' {
        assert Escape(key) == "~0" + rest;
        assert Escape(key)[1..] == "0" + rest;
        assert ("0" + rest)[1..] == rest;
        assert Replace("0" + rest, '1', '/') == "0" + Replace(rest, '1', '/');
      } else if key[0] == '/' {
        assert Escape(key) == "~1" + rest;
        assert Escape(key)[2..] == rest;
      } else {
        assert Escape(key) == [key[0]] + rest;
        assert Escape(key)[1..] == rest;
      }
    }
  }

  lemma {:induction false} SecondReplacement(key: string)
    ensures Replace(TildesEscaped(key), '0', '~') == key
  {
    if key != "" {
      var rest := TildesEscaped(key[1..]);
      SecondReplacement(key[1..]);
      assert key == [key[0]] + key[1..];
      if key[0] == '~' {
        assert TildesEscaped(key)[2..] == rest;
      } else {
        assert TildesEscaped(key)[1..] == rest;
      }
    }
  }

  /** Reading an escaped key gives the key back, whatever it contains. */
  lemma {:induction false} UnescapeInvertsEscape(key: string)
    ensures Unescape(Escape(key)) == key
  {
    FirstReplacement(key);
    SecondReplacement(key);
  }

  lemma {:induction false} SplitPlain(s: string)
    requires '/' !in s
    ensures Split(s) == [s]
  {
    if s != "" {
      assert '/' !in s[1..];
      SplitPlain(s[1..]);
      assert s == [s[0]] + s[1..];
    }
  }

  lemma {:induction false} SplitFirst(a: string, rest: string)
    requires '/' !in a
    ensures Split(a + "/" + rest) == [a] + Split(rest)
  {
    var s := a + "/" + rest;
    if a == "" {
      assert s[1..] == rest;
    } else {
      assert s[0] == a[0] && s[1..] == a[1..] + "/" + rest;
      SplitFirst(a[1..], rest);
      assert a == [a[0]] + a[1..];
    }
  }

  /** The pointer that names a path of keys. */
  function PointerTo(path: seq<string>): string {
    if path == [] then "" else "/" + Escape(path[0]) + PointerTo(path[1..])
  }

  lemma {:induction false} TokensOfPointer(path: seq<string>)
    requires path != []
    ensures var p := PointerTo(path); p != "" && p[0] == '/' && Split(p[1..]) == seq(|path|, i requires 0 <= i < |path| => Escape(path[i]))
  {
    var p, tokens := PointerTo(path), seq(|path|, i requires 0 <= i < |path| => Escape(path[i]));
    var first, rest := Escape(path[0]), PointerTo(path[1..]);
    EscapeHasNoSlash(path[0]);
    assert p[1..] == first + rest;
    if |path| == 1 {
      assert first + rest == first;
      SplitPlain(first);
    } else {
      TokensOfPointer(path[1..]);
      assert rest == "/" + rest[1..];
      assert first + rest == first + "/" + rest[1..];
      SplitFirst(first, rest[1..]);
      assert tokens == [first] + seq(|path[1..]|, i requires 0 <= i < |path[1..]| => Escape(path[1..][i]));
    }
  }

  function Descend(reader: Reader, current: Json, path: seq<string>): Option<Json> {
    if path == [] then Some(current)
    else
      var before := Descend(reader, current, path[..|path| - 1]);
      if before.None? then None else Enter(reader, before.value, path[|path| - 1])
  }

  lemma {:induction false} WalkEscaped(reader: Reader, current: Json, path: seq<string>)
    ensures Walk(reader, current, seq(|path|, i requires 0 <= i < |path| => Escape(path[i]))) == Descend(reader, current, path)
  {
    if path != [] {
      var n := |path| - 1;
      var tokens := seq(|path|, i requires 0 <= i < |path| => Escape(path[i]));
      assert tokens[..n] == seq(|path[..n]|, i requires 0 <= i < |path[..n]| => Escape(path[..n][i]));
      WalkEscaped(reader, current, path[..n]);
      UnescapeInvertsEscape(path[n]);
    }
  }

  /** Every place in a payload has a pointer, and resolving it leads there. */
  lemma {:induction false} ResolvePath(reader: Reader, payload: Json, path: seq<string>)
    ensures Resolve(reader, payload, PointerTo(path)) == Descend(reader, payload, path)
  {
    if path != [] {
      TokensOfPointer(path);
      WalkEscaped(reader, payload, path);
    }
  }

  // ---------------------------------------------------------------- the checks

  function IncludedParts(parts: seq<RequestPart>): seq<RequestPart> {
    if parts == [] then []
    else
      var front := IncludedParts(parts[..|parts| - 1]);
      if parts[|parts| - 1].participation.Included? then front + [parts[|parts| - 1]] else front
  }

  function At(parts: seq<RequestPart>, pointer: string): seq<RequestPart> {
    if parts == [] then []
    else
      var front := At(parts[..|parts| - 1], pointer);
      if parts[|parts| - 1].pointer == Some(pointer) then front + [parts[|parts| - 1]] else front
  }

  function SpannedAt(parts: seq<RequestPart>, pointer: string): seq<RequestPart> {
    if parts == [] then []
    else
      var front, p := SpannedAt(parts[..|parts| - 1], pointer), parts[|parts| - 1];
      if p.pointer == Some(pointer) && p.span.Some? then front + [p] else front
  }

  predicate Increasing(parts: seq<RequestPart>) {
    forall i, j | 0 <= i < j < |parts| :: parts[i].order < parts[j].order
  }

  /** The content of one part is what the payload holds at its place. */
  predicate Matches(reader: Reader, payload: Json, part: RequestPart) {
    && part.sources != [] && part.pointer.Some?
    && var target := Resolve(reader, payload, part.pointer.value);
       target.Some?
       && match part.span
          case None => part.content == if target.value.JString? then target.value.s else reader.canonical(target.value)
          case Some((start, end)) =>
            && target.value.JString? && 0 <= start <= end <= |target.value.s|
            && target.value.s[start..end] == part.content
  }

  predicate SpanLess(a: RequestPart, b: RequestPart)
    requires a.span.Some? && b.span.Some?
  {
    a.span.value.0 < b.span.value.0 || (a.span.value.0 == b.span.value.0 && a.span.value.1 < b.span.value.1)
  }

  predicate AllSpanned(parts: seq<RequestPart>) {
    forall i | 0 <= i < |parts| :: parts[i].span.Some?
  }

  function InsertBySpan(p: RequestPart, sorted: seq<RequestPart>): (r: seq<RequestPart>)
    requires p.span.Some? && AllSpanned(sorted)
    ensures AllSpanned(r)
  {
    if sorted == [] || !SpanLess(p, sorted[|sorted| - 1]) then sorted + [p]
    else InsertBySpan(p, sorted[..|sorted| - 1]) + [sorted[|sorted| - 1]]
  }

  /** `sorted(parts, key=text_span)`, which is stable. */
  function SortBySpan(parts: seq<RequestPart>): (r: seq<RequestPart>)
    requires AllSpanned(parts)
    ensures AllSpanned(r)
  {
    if parts == [] then [] else InsertBySpan(parts[|parts| - 1], SortBySpan(parts[..|parts| - 1]))
  }

  lemma {:induction false} InsertKeepsParts(p: RequestPart, sorted: seq<RequestPart>)
    requires p.span.Some? && AllSpanned(sorted)
    ensures multiset(InsertBySpan(p, sorted)) == multiset(sorted) + multiset{p}
  {
    if sorted != [] && SpanLess(p, sorted[|sorted| - 1]) {
      assert sorted == sorted[..|sorted| - 1] + [sorted[|sorted| - 1]];
      InsertKeepsParts(p, sorted[..|sorted| - 1]);
    }
  }

  lemma {:induction false} SortKeepsParts(parts: seq<RequestPart>)
    requires AllSpanned(parts)
    ensures multiset(SortBySpan(parts)) == multiset(parts)
  {
    if parts != [] {
      assert parts == parts[..|parts| - 1] + [parts[|parts| - 1]];
      SortKeepsParts(parts[..|parts| - 1]);
      InsertKeepsParts(parts[|parts| - 1], SortBySpan(parts[..|parts| - 1]));
    }
  }

  /** Consecutive from 0 to `length`, without overlap and without a hole. */
  predicate Covers(sorted: seq<RequestPart>, length: nat)
    requires AllSpanned(sorted)
  {
    && (sorted == [] ==> length == 0)
    && (sorted != [] ==> sorted[0].span.value.0 == 0 && sorted[|sorted| - 1].span.value.1 == length)
    && forall i, j | 0 <= i < |sorted| && 0 <= j < |sorted| && j == i + 1 :: sorted[j].span.value.0 == sorted[i].span.value.1
  }

  lemma {:induction false} SpannedAtIsSpanned(parts: seq<RequestPart>, pointer: string)
    ensures AllSpanned(SpannedAt(parts, pointer))
  {
    if parts != [] {
      SpannedAtIsSpanned(parts[..|parts| - 1], pointer);
    }
  }

  /** One attributed text: its spanned parts are all its parts, and they cover it. */
  predicate Covered(included: seq<RequestPart>, pointer: string, length: nat) {
    SpannedAtIsSpanned(included, pointer);
    && (forall i | 0 <= i < |included| && included[i].pointer == Some(pointer) :: included[i].span.Some?)
    && Covers(SortBySpan(SpannedAt(included, pointer)), length)
  }

  function LengthAt(reader: Reader, payload: Json, pointer: string): nat {
    var target := Resolve(reader, payload, pointer);
    if target.Some? && target.value.JString? then |target.value.s| else 0
  }

  /** Every text that some span attributes is covered. */
  predicate SpansCovered(reader: Reader, payload: Json, included: seq<RequestPart>) {
    forall i | 0 <= i < |included| && included[i].span.Some? && included[i].pointer.Some? ::
      Covered(included, included[i].pointer.value, LengthAt(reader, payload, included[i].pointer.value))
  }

  /** What acceptance by `validate_provenance` means. */
  predicate Attributed(reader: Reader, payload: Json, parts: seq<RequestPart>) {
    var included := IncludedParts(parts);
    && included != [] && Increasing(included)
    && (forall i | 0 <= i < |included| :: Matches(reader, payload, included[i]))
    && SpansCovered(reader, payload, included)
    && (forall i | 0 <= i < |parts| :: !parts[i].participation.UnknownSource?)
  }

  // ---------------------------------------------------------------- the validator

  method ValidateProvenance(reader: Reader, payload: Json, parts: seq<RequestPart>) returns (accepted: bool)
    ensures accepted <==> Attributed(reader, payload, parts)
  {
    var included := IncludedParts(parts);
    if included == [] || !Increasing(included) {
      return false;
    }
    var matching, byPointer, pointers := GroupSpans(reader, payload, included);
    if !matching {
      return false;
    }
    var covered, lengths := CheckPointers(reader, payload, included, byPointer, pointers);
    PointersSuffice(reader, payload, included, byPointer, pointers, lengths);
    return covered && forall i | 0 <= i < |parts| :: !parts[i].participation.UnknownSource?;
  }

  lemma {:induction false} PointersSuffice(reader: Reader, payload: Json, included: seq<RequestPart>, byPointer: map<string, seq<RequestPart>>,
                                           pointers: seq<string>, lengths: seq<nat>)
    requires Grouped(included, byPointer, pointers) && |lengths| == |pointers|
    requires forall i | 0 <= i < |pointers| :: lengths[i] == LengthAt(reader, payload, pointers[i])
    ensures AllCovered(included, pointers, lengths) <==> SpansCovered(reader, payload, included)
  {
    AllCoveredMeans(included, pointers, lengths);
    if AllCovered(included, pointers, lengths) {
      forall i | 0 <= i < |included| && included[i].span.Some? && included[i].pointer.Some?
        ensures Covered(included, included[i].pointer.value, LengthAt(reader, payload, included[i].pointer.value))
      {
        SpannedIn(included, i);
        var k :| 0 <= k < |pointers| && pointers[k] == included[i].pointer.value;
      }
    }
    if SpansCovered(reader, payload, included) {
      forall k | 0 <= k < |pointers| ensures Covered(included, pointers[k], lengths[k]) {
        assert pointers[k] in pointers;
        SpannedIsThere(included, pointers[k]);
        var i :| 0 <= i < |included| && included[i].span.Some? && included[i].pointer == Some(pointers[k]);
      }
    }
  }

  /** The second loop: the text at each pointer is read once more and its spans are checked. */
  method CheckPointers(reader: Reader, payload: Json, included: seq<RequestPart>, byPointer: map<string, seq<RequestPart>>, pointers: seq<string>)
    returns (ok: bool, ghost lengths: seq<nat>)
    requires Grouped(included, byPointer, pointers)
    ensures |lengths| == |pointers| && forall i | 0 <= i < |pointers| :: lengths[i] == LengthAt(reader, payload, pointers[i])
    ensures ok <==> AllCovered(included, pointers, lengths)
  {
    var found := LengthsAt(reader, payload, pointers);
    lengths := found;
    ok := CheckAll(included, byPointer, pointers, found);
  }

  method LengthsAt(reader: Reader, payload: Json, pointers: seq<string>) returns (lengths: seq<nat>)
    ensures |lengths| == |pointers| && forall i | 0 <= i < |pointers| :: lengths[i] == LengthAt(reader, payload, pointers[i])
  {
    lengths := [];
    for i := 0 to |pointers|
      invariant |lengths| == i && forall k | 0 <= k < i :: lengths[k] == LengthAt(reader, payload, pointers[k])
    {
      var length := TargetLength(reader, payload, pointers[i]);
      lengths := lengths + [length];
    }
  }

  method TargetLength(reader: Reader, payload: Json, pointer: string) returns (length: nat)
    ensures length == LengthAt(reader, payload, pointer)
  {
    var target := ResolveJsonPointer(reader, payload, pointer);
    length := if target.Some? && target.value.JString? then |target.value.s| else 0;
  }

  predicate AllCovered(included: seq<RequestPart>, pointers: seq<string>, lengths: seq<nat>)
    requires |lengths| == |pointers|
  {
    pointers == [] || (var n := |pointers| - 1;
                       AllCovered(included, pointers[..n], lengths[..n]) && Covered(included, pointers[n], lengths[n]))
  }

  lemma {:induction false} AllCoveredMeans(included: seq<RequestPart>, pointers: seq<string>, lengths: seq<nat>)
    requires |lengths| == |pointers|
    ensures AllCovered(included, pointers, lengths) <==> forall i | 0 <= i < |pointers| :: Covered(included, pointers[i], lengths[i])
  {
    if pointers != [] {
      var n := |pointers| - 1;
      AllCoveredMeans(included, pointers[..n], lengths[..n]);
      assert forall i | 0 <= i < n :: pointers[..n][i] == pointers[i] && lengths[..n][i] == lengths[i];
    }
  }

  lemma {:induction false} UncoveredPrefix(included: seq<RequestPart>, pointers: seq<string>, lengths: seq<nat>, k: nat)
    requires |lengths| == |pointers| && k <= |pointers| && !AllCovered(included, pointers[..k], lengths[..k])
    ensures !AllCovered(included, pointers, lengths)
  {
    var n := |pointers| - 1;
    if k <= n {
      assert pointers[..n][..k] == pointers[..k] && lengths[..n][..k] == lengths[..k];
      UncoveredPrefix(included, pointers[..n], lengths[..n], k);
    } else {
      assert pointers[..k] == pointers && lengths[..k] == lengths;
    }
  }

  method CheckAll(included: seq<RequestPart>, byPointer: map<string, seq<RequestPart>>, pointers: seq<string>, lengths: seq<nat>) returns (ok: bool)
    requires Grouped(included, byPointer, pointers) && |lengths| == |pointers|
    ensures ok <==> AllCovered(included, pointers, lengths)
  {
    for i := 0 to |pointers|
      invariant AllCovered(included, pointers[..i], lengths[..i])
    {
      assert pointers[..i + 1][..i] == pointers[..i] && lengths[..i + 1][..i] == lengths[..i];
      SpannedAtIsSpanned(included, pointers[i]);
      ok := CheckCover(included, pointers[i], byPointer[pointers[i]], lengths[i]);
      if !ok {
        UncoveredPrefix(included, pointers, lengths, i + 1);
        return;
      }
    }
    assert pointers[..|pointers|] == pointers && lengths[..|pointers|] == lengths;
    return true;
  }

  /** One part: it has a source and a place, and the payload holds its content there. */
  method MatchPart(reader: Reader, payload: Json, part: RequestPart) returns (ok: bool)
    ensures ok <==> Matches(reader, payload, part)
  {
    if part.sources == [] || part.pointer.None? {
      return false;
    }
    var target := ResolveJsonPointer(reader, payload, part.pointer.value);
    if target.None? {
      return false;
    }
    if part.span.None? {
      return part.content == if target.value.JString? then target.value.s else reader.canonical(target.value);
    }
    if !target.value.JString? {
      return false;
    }
    var (start, end) := part.span.value;
    return 0 <= start <= end <= |target.value.s| && target.value.s[start..end] == part.content;
  }

  /** `by_pointer` holds exactly the spanned parts so far, by pointer. */
  ghost predicate Grouped(parts: seq<RequestPart>, byPointer: map<string, seq<RequestPart>>, pointers: seq<string>) {
    && (forall p | p in pointers :: p in byPointer && byPointer[p] == SpannedAt(parts, p) && byPointer[p] != [])
    && (forall p | p !in pointers :: p !in byPointer && SpannedAt(parts, p) == [])
  }

  lemma {:induction false} SpannedStep(parts: seq<RequestPart>, part: RequestPart, p: string)
    ensures SpannedAt(parts + [part], p) ==
            SpannedAt(parts, p) + (if part.pointer == Some(p) && part.span.Some? then [part] else [])
  {
    assert (parts + [part])[..|parts|] == parts;
  }

  lemma {:induction false} GroupedSkip(parts: seq<RequestPart>, byPointer: map<string, seq<RequestPart>>, pointers: seq<string>, part: RequestPart)
    requires Grouped(parts, byPointer, pointers) && part.span.None?
    ensures Grouped(parts + [part], byPointer, pointers)
  {
    forall p ensures SpannedAt(parts + [part], p) == SpannedAt(parts, p) {
      SpannedStep(parts, part, p);
    }
  }

  /** `by_pointer.setdefault(pointer, []).append(part)`. */
  method AddSpan(byPointer: map<string, seq<RequestPart>>, pointers: seq<string>, part: RequestPart, ghost parts: seq<RequestPart>)
    returns (after: map<string, seq<RequestPart>>, order: seq<string>)
    requires part.pointer.Some? && part.span.Some? && Grouped(parts, byPointer, pointers)
    ensures Grouped(parts + [part], after, order)
  {
    var pointer := part.pointer.value;
    order := if pointer in byPointer then pointers else pointers + [pointer];
    assert forall p :: p in order <==> p in pointers || p == pointer;
    after := byPointer[pointer := (if pointer in byPointer then byPointer[pointer] else []) + [part]];
    forall p | p in order ensures p in after && after[p] == SpannedAt(parts + [part], p) && after[p] != [] {
      SpannedStep(parts, part, p);
    }
    forall p | p !in order ensures p !in after && SpannedAt(parts + [part], p) == [] {
      SpannedStep(parts, part, p);
    }
  }

  /** The loop that reads every part back and fills the dictionary `by_pointer`. */
  method GroupSpans(reader: Reader, payload: Json, included: seq<RequestPart>)
    returns (matching: bool, byPointer: map<string, seq<RequestPart>>, pointers: seq<string>)
    ensures matching <==> forall i | 0 <= i < |included| :: Matches(reader, payload, included[i])
    ensures matching ==> Grouped(included, byPointer, pointers)
  {
    byPointer, pointers := map[], [];
    for i := 0 to |included|
      invariant forall k | 0 <= k < i :: Matches(reader, payload, included[k])
      invariant Grouped(included[..i], byPointer, pointers)
    {
      assert included[..i + 1] == included[..i] + [included[i]];
      var ok := MatchPart(reader, payload, included[i]);
      if !ok {
        return false, byPointer, pointers;
      }
      if included[i].span.Some? {
        byPointer, pointers := AddSpan(byPointer, pointers, included[i], included[..i]);
      } else {
        GroupedSkip(included[..i], byPointer, pointers, included[i]);
      }
    }
    assert included[..|included|] == included;
    return true, byPointer, pointers;
  }

  method CheckCover(included: seq<RequestPart>, pointer: string, spanned: seq<RequestPart>, length: nat) returns (ok: bool)
    requires spanned == SpannedAt(included, pointer) && spanned != [] && AllSpanned(spanned)
    ensures ok <==> Covered(included, pointer, length)
  {
    if exists i | 0 <= i < |included| :: included[i].pointer == Some(pointer) && included[i].span.None? {
      return false;
    }
    var sorted := SortBySpan(spanned);
    SortKeepsParts(spanned);
    SameSize(spanned, sorted);
    ok := CursorLoop(sorted, length);
  }

  /** The cursor loop over the spans of one pointer. */
  method CursorLoop(sorted: seq<RequestPart>, length: nat) returns (ok: bool)
    requires AllSpanned(sorted) && sorted != []
    ensures ok <==> Covers(sorted, length)
  {
    var cursor := 0;
    for i := 0 to |sorted|
      invariant cursor == if i == 0 then 0 else sorted[i - 1].span.value.1
      invariant i > 0 ==> sorted[0].span.value.0 == 0
      invariant forall k, j | 0 <= k < i && 0 <= j < i && j == k + 1 :: sorted[j].span.value.0 == sorted[k].span.value.1
    {
      if sorted[i].span.value.0 != cursor {
        return false;
      }
      cursor := sorted[i].span.value.1;
    }
    return cursor == length;
  }

  lemma {:induction false} SameSize(a: seq<RequestPart>, b: seq<RequestPart>)
    requires multiset(a) == multiset(b)
    ensures |a| == |b|
  {
    assert |multiset(a)| == |a| && |multiset(b)| == |b|;
  }

  lemma {:induction false} SpannedIn(parts: seq<RequestPart>, i: nat)
    requires i < |parts| && parts[i].span.Some? && parts[i].pointer.Some?
    ensures SpannedAt(parts, parts[i].pointer.value) != []
  {
    if i < |parts| - 1 {
      SpannedIn(parts[..|parts| - 1], i);
    }
  }

  lemma {:induction false} SpannedIsThere(parts: seq<RequestPart>, pointer: string)
    requires SpannedAt(parts, pointer) != []
    ensures exists i :: 0 <= i < |parts| && parts[i].span.Some? && parts[i].pointer == Some(pointer)
  {
    var n := |parts| - 1;
    if parts[n].pointer == Some(pointer) && parts[n].span.Some? {
      assert parts[n].span.Some?;
    } else {
      SpannedIsThere(parts[..n], pointer);
      var i :| 0 <= i < n && parts[..n][i].span.Some? && parts[..n][i].pointer == Some(pointer);
      assert parts[i].span.Some?;
    }
  }

  // ---------------------------------------------------------------- soundness

  function PartContents(parts: seq<RequestPart>): string {
    if parts == [] then "" else PartContents(parts[..|parts| - 1]) + parts[|parts| - 1].content
  }

  predicate SlicesOf(text: string, sorted: seq<RequestPart>)
    requires AllSpanned(sorted)
  {
    forall i | 0 <= i < |sorted| ::
      0 <= sorted[i].span.value.0 <= sorted[i].span.value.1 <= |text|
      && text[sorted[i].span.value.0..sorted[i].span.value.1] == sorted[i].content
  }

  lemma {:induction false} CoverConcatenates(text: string, sorted: seq<RequestPart>)
    requires AllSpanned(sorted) && Covers(sorted, |text|) && SlicesOf(text, sorted)
    ensures PartContents(sorted) == text
  {
    if sorted != [] {
      PrefixConcatenates(text, sorted, |sorted|);
      assert sorted[..|sorted|] == sorted;
    }
  }

  lemma {:induction false} PrefixConcatenates(text: string, sorted: seq<RequestPart>, n: nat)
    requires AllSpanned(sorted) && Covers(sorted, |text|) && SlicesOf(text, sorted) && 1 <= n <= |sorted|
    ensures PartContents(sorted[..n]) == text[..sorted[n - 1].span.value.1]
  {
    assert sorted[..n][..n - 1] == sorted[..n - 1];
    if n == 1 {
      assert sorted[..0] == [];
      assert text[0..sorted[0].span.value.1] == text[..sorted[0].span.value.1];
    } else {
      PrefixConcatenates(text, sorted, n - 1);
      var a, b := sorted[n - 1].span.value.0, sorted[n - 1].span.value.1;
      assert text[..a] + text[a..b] == text[..b];
    }
  }

  lemma {:induction false} SpannedAtAre(parts: seq<RequestPart>, pointer: string)
    ensures forall p | p in SpannedAt(parts, pointer) :: p in parts && p.pointer == Some(pointer) && p.span.Some?
  {
    if parts != [] {
      SpannedAtAre(parts[..|parts| - 1], pointer);
      assert parts == parts[..|parts| - 1] + [parts[|parts| - 1]];
    }
  }

  lemma {:induction false} SortedAre(parts: seq<RequestPart>, p: RequestPart)
    requires AllSpanned(parts) && p in SortBySpan(parts)
    ensures p in parts
  {
    SortKeepsParts(parts);
    assert p in multiset(SortBySpan(parts));
  }

  lemma {:induction false} SpannedAreSlices(reader: Reader, payload: Json, included: seq<RequestPart>, pointer: string, text: string)
    requires forall i | 0 <= i < |included| :: Matches(reader, payload, included[i])
    requires Resolve(reader, payload, pointer) == Some(JString(text))
    requires AllSpanned(SpannedAt(included, pointer))
    ensures SlicesOf(text, SortBySpan(SpannedAt(included, pointer)))
    ensures forall p | p in SpannedAt(included, pointer) :: p.sources != []
  {
    SpannedAtAre(included, pointer);
    var spanned := SpannedAt(included, pointer);
    forall p | p in spanned ensures Matches(reader, payload, p) {
      var j :| 0 <= j < |included| && included[j] == p;
    }
    var sorted := SortBySpan(spanned);
    forall i | 0 <= i < |sorted| ensures sorted[i] in spanned {
      SortedAre(spanned, sorted[i]);
    }
  }

  lemma {:induction false} SpannedTarget(reader: Reader, payload: Json, parts: seq<RequestPart>, pointer: string)
    requires Attributed(reader, payload, parts) && SpannedAt(IncludedParts(parts), pointer) != []
    ensures Resolve(reader, payload, pointer).Some? && Resolve(reader, payload, pointer).value.JString?
    ensures Covered(IncludedParts(parts), pointer, |Resolve(reader, payload, pointer).value.s|)
  {
    var included := IncludedParts(parts);
    SpannedIsThere(included, pointer);
    var k :| 0 <= k < |included| && included[k].span.Some? && included[k].pointer == Some(pointer);
    assert Matches(reader, payload, included[k]);
  }

  /** Acceptance is sound: the text at every pointer with spans is exactly the contents of
      its parts, taken in span order, each of them with a source. */
  lemma {:induction false} AcceptanceIsSound(reader: Reader, payload: Json, parts: seq<RequestPart>, pointer: string)
    requires Attributed(reader, payload, parts) && SpannedAt(IncludedParts(parts), pointer) != []
    ensures var spanned := SpannedAt(IncludedParts(parts), pointer);
            AllSpanned(spanned) &&
            var target := Resolve(reader, payload, pointer);
            && target.Some? && target.value.JString?
            && PartContents(SortBySpan(spanned)) == target.value.s
            && forall p | p in spanned :: p.sources != []
  {
    var included := IncludedParts(parts);
    SpannedAtIsSpanned(included, pointer);
    SpannedTarget(reader, payload, parts, pointer);
    var text := Resolve(reader, payload, pointer).value.s;
    SpannedAreSlices(reader, payload, included, pointer, text);
    CoverConcatenates(text, SortBySpan(SpannedAt(included, pointer)));
  }
}
