/** `prompting/assembler.py`: the segments of one prompt and the parts that attribute them. */
module Assembly {
  import opened Outcomes
  import opened Text
  import opened Boundaries
  import opened Temporal
  import opened Provenance

  datatype PromptSegment = PromptSegment(id: string, trust: Trust, content: string, fragments: seq<Fragment>)

  // ---------------------------------------------------------------- parts of one message

  function ContentPointer(i: nat): string {
    "/messages/" + Decimal(i) + "/content"
  }

  /** The source of a segment that was not built from fragments. */
  function SegmentSource(id: string, turn: string): Source {
    if id == "base_persona" || "state_persona:" <= id then Source("config:" + id, "config_loader")
    else if id == "current_input" then Source("runtime:user_input:" + turn, "user_input")
    else if id == "memory_overview" || id == "long_term_memories" then Source("memory:" + id, "memory_selector")
    else if id == "recent_records" then Source("memory:recent_records", "raw_record_selector")
    else Source("generated:" + id, "prompt_assembler")
  }

  function FragmentPart(index: nat, order: nat, f: Fragment): RequestPart {
    RequestPart("message:" + Decimal(index) + ":" + f.id, order, Included, f.trust, Some(ContentPointer(index)),
                Some((f.start, f.end)), f.content, f.sources)
  }

  function WholePart(index: nat, order: nat, s: PromptSegment, turn: string): RequestPart {
    if s.content == "" then RequestPart("message:" + Decimal(index) + ":" + s.id, order, Empty, s.trust, None, None, "", [])
    else RequestPart("message:" + Decimal(index) + ":" + s.id, order, Included, s.trust, Some(ContentPointer(index)),
                     Some((0, |s.content|)), s.content, [SegmentSource(s.id, turn)])
  }

  function SegmentParts(index: nat, order: nat, s: PromptSegment, turn: string): seq<RequestPart> {
    if s.fragments != [] then seq(|s.fragments|, k requires 0 <= k < |s.fragments| => FragmentPart(index, order + k, s.fragments[k]))
    else [WholePart(index, order, s, turn)]
  }

  /** `request_parts` over the first segments. */
  function PartsOf(segments: seq<PromptSegment>, turn: string): seq<RequestPart> {
    if segments == [] then []
    else
      var front := PartsOf(segments[..|segments| - 1], turn);
      front + SegmentParts(|segments| - 1, |front|, segments[|segments| - 1], turn)
  }

  method RequestParts(segments: seq<PromptSegment>, turn: string) returns (parts: seq<RequestPart>)
    ensures parts == PartsOf(segments, turn)
  {
    parts := [];
    var order := 0;
    for index := 0 to |segments|
      invariant parts == PartsOf(segments[..index], turn) && order == |parts|
    {
      assert segments[..index + 1][..index] == segments[..index];
      var added := PartsOfSegment(index, order, segments[index], turn);
      parts := parts + added;
      order := order + |added|;
    }
    assert segments[..|segments|] == segments;
  }

  /** The parts of one segment, numbered from `order`. */
  method PartsOfSegment(index: nat, order: nat, s: PromptSegment, turn: string) returns (parts: seq<RequestPart>)
    ensures parts == SegmentParts(index, order, s, turn)
  {
    if s.fragments == [] {
      return [WholePart(index, order, s, turn)];
    }
    parts := [];
    for k := 0 to |s.fragments|
      invariant |parts| == k && forall i | 0 <= i < k :: parts[i] == FragmentPart(index, order + i, s.fragments[i])
    {
      parts := parts + [FragmentPart(index, order + k, s.fragments[k])];
    }
  }

  // ---------------------------------------------------------------- what the parts of one message must be

  /** The parts of message `i` with text `content`: none that is included, or spans that tile it. */
  ghost predicate Attributes(i: nat, content: string, parts: seq<RequestPart>) {
    || (forall k | 0 <= k < |parts| :: parts[k].participation.Empty?)
    || (&& AllSpanned(parts) && parts != []
        && (forall k | 0 <= k < |parts| ::
              parts[k].participation.Included? && parts[k].pointer == Some(ContentPointer(i)) && parts[k].sources != [])
        && Covers(parts, |content|) && SlicesOf(content, parts))
  }

  predicate TiledSegment(s: PromptSegment) {
    s.fragments == [] || (Tiles(s.content, s.fragments) && forall k | 0 <= k < |s.fragments| :: ValidFragment(s.fragments[k]))
  }

  lemma {:induction false} FragmentsAttribute(index: nat, order: nat, content: string, fragments: seq<Fragment>, parts: seq<RequestPart>)
    requires fragments != [] && Tiles(content, fragments) && forall k | 0 <= k < |fragments| :: ValidFragment(fragments[k])
    requires |parts| == |fragments| && forall k | 0 <= k < |parts| :: parts[k] == FragmentPart(index, order + k, fragments[k])
    ensures Attributes(index, content, parts)
  {
    assert AllSpanned(parts);
    forall i, j | 0 <= i < |parts| && 0 <= j < |parts| && j == i + 1 ensures parts[j].span.value.0 == parts[i].span.value.1 {
      assert fragments[j].start == fragments[i].end;
    }
  }

  lemma {:induction false} WholeAttributes(index: nat, order: nat, s: PromptSegment, turn: string)
    ensures Attributes(index, s.content, [WholePart(index, order, s, turn)])
  {
    assert s.content[0..|s.content|] == s.content;
  }

  lemma {:induction false} SegmentAttributes(index: nat, order: nat, s: PromptSegment, turn: string)
    requires TiledSegment(s)
    ensures Attributes(index, s.content, SegmentParts(index, order, s, turn))
  {
    if s.fragments != [] {
      FragmentsAttribute(index, order, s.content, s.fragments, SegmentParts(index, order, s, turn));
    } else {
      WholeAttributes(index, order, s, turn);
    }
  }

  predicate OrdersFrom(parts: seq<RequestPart>, first: nat) {
    forall k | 0 <= k < |parts| :: parts[k].order == first + k
  }

  lemma {:induction false} OrdersAreIndexes(segments: seq<PromptSegment>, turn: string)
    ensures OrdersFrom(PartsOf(segments, turn), 0)
  {
    if segments != [] {
      OrdersAreIndexes(segments[..|segments| - 1], turn);
    }
  }

  // ---------------------------------------------------------------- the segments

  /** `compose_system_instruction`, given the stripped texts. */
  function SystemPieces(r: Renderer, persona: string, source: Source): seq<Piece> {
    [Piece("chat-system:persona", persona, [source], TrustedInstruction, Some("chat-system"), Body),
     Piece("chat-system:separator", "\n\n", [Source("generated:trusted-composition:chat-system", "trusted_prompt_composer")],
           TrustedInstruction, Some("chat-system"), Separator),
     Piece("chat-system:untrusted-boundary-instruction", r.instruction, [r.config], TrustedInstruction, Some("chat-system"), Body)]
  }

  function PersonaSegment(renderer: Option<Renderer>, persona: string, source: Source): PromptSegment {
    if renderer.None? then PromptSegment("base_persona", TrustedInstruction, persona, [])
    else
      var rendered := Position(SystemPieces(renderer.value, persona, source));
      PromptSegment("base_persona", TrustedInstruction, rendered.text, rendered.fragments)
  }

  function UntrustedSegment(renderer: Option<Renderer>, id: string, content: string, fragments: seq<Fragment>): Outcome<PromptSegment> {
    if renderer.None? then Ok(PromptSegment(id, UntrustedData, content, fragments))
    else
      var pieces := if fragments != [] then PiecesOf(fragments)
                    else [Piece(id + ":body", content, [Source("memory:" + id, "prompt_assembler")], UntrustedData, Some(id), Body)];
      var rendered :- Wrap(renderer.value, id, pieces);
      Ok(PromptSegment(id, UntrustedData, rendered.text, rendered.fragments))
  }

  /** The pieces of the annotated input that come before its body, promoted to trusted metadata. */
  function InputMarkers(fragments: seq<Fragment>): seq<Piece> {
    if fragments == [] then []
    else
      var f := fragments[|fragments| - 1];
      InputMarkers(fragments[..|fragments| - 1])
      + (if f.kind.Body? then []
         else [Piece(f.id, f.content, f.sources, TrustedMetadata, Some(f.entryId), if f.kind.Marker? then TrustedTimeMetadata else f.kind)])
  }

  function FirstBody(fragments: seq<Fragment>): Option<Fragment> {
    if fragments == [] then None
    else
      var earlier := FirstBody(fragments[..|fragments| - 1]);
      if earlier.Some? then earlier
      else if fragments[|fragments| - 1].kind.Body? then Some(fragments[|fragments| - 1]) else None
  }

  function InputSegment(policy: Option<Policy>, renderer: Option<Renderer>, input: Entry): Outcome<PromptSegment> {
    if policy.None? then Ok(PromptSegment("current_input", UserInstruction, input.body, []))
    else
      var annotated :- Annotated(policy.value, [input], "\n");
      if renderer.None? then Ok(PromptSegment("current_input", UserInstruction, annotated.text, annotated.fragments))
      else BoundedInput(renderer.value, annotated.fragments)
  }

  /** The time stands before the frame as trusted metadata; only the body is framed. */
  function BoundedInput(r: Renderer, fragments: seq<Fragment>): Outcome<PromptSegment> {
    var body := FirstBody(fragments);
    if body.None? then Err("STOP_ITERATION")
    else
      var bounded :- Wrap(r, "current_input", PiecesOf([body.value]));
      var rendered := Position(InputMarkers(fragments) + PiecesOf(bounded.fragments));
      Ok(PromptSegment("current_input", UserInstruction, rendered.text, rendered.fragments))
  }

  /** A block of history entries, or its plain text without a time policy. */
  function BlockSegment(policy: Option<Policy>, renderer: Option<Renderer>, id: string, es: seq<Entry>, plain: string): Outcome<PromptSegment> {
    if policy.Some? && es != [] then
      var annotated :- Annotated(policy.value, es, "\n");
      UntrustedSegment(renderer, id, if annotated.text == "" then "[]" else annotated.text, annotated.fragments)
    else UntrustedSegment(renderer, id, if plain == "" then "[]" else plain, [])
  }

  datatype Prompt = Prompt(
    persona: string, personaSource: Source, states: seq<(string, string)>,
    overview: seq<Entry>, overviewText: string, longTerm: seq<Entry>, longTermText: string,
    recent: seq<Entry>, recentText: string, input: Entry,
    overviewChars: Option<nat>, longTermChars: Option<nat>, recentChars: Option<nat>)

  predicate WithinBudget(limit: Option<nat>, s: PromptSegment) {
    limit.None? || |s.content| <= limit.value
  }

  function StateSegments(states: seq<(string, string)>): seq<PromptSegment> {
    seq(|states|, i requires 0 <= i < |states| => PromptSegment("state_persona:" + states[i].0, TrustedInstruction, states[i].1, []))
  }

  /** The three memory blocks, and their budgets. */
  function MemorySegments(policy: Option<Policy>, renderer: Option<Renderer>, p: Prompt): Outcome<seq<PromptSegment>> {
    Budgeted(p, BlockSegment(policy, renderer, "memory_overview", p.overview, p.overviewText),
             BlockSegment(policy, renderer, "long_term_memories", p.longTerm, p.longTermText),
             BlockSegment(policy, renderer, "recent_records", p.recent, p.recentText))
  }

  function Budgeted(p: Prompt, overview: Outcome<PromptSegment>, longTerm: Outcome<PromptSegment>, recent: Outcome<PromptSegment>): Outcome<seq<PromptSegment>> {
    var a :- overview;
    var b :- longTerm;
    var c :- recent;
    if !WithinBudget(p.overviewChars, a) || !WithinBudget(p.longTermChars, b) || !WithinBudget(p.recentChars, c)
      then Err("PROMPT_BUDGET_EXCEEDED")
    else Ok([a, b, c])
  }

  /** `assemble`: the segments in their fixed order. */
  function Assemble(policy: Option<Policy>, renderer: Option<Renderer>, p: Prompt): Outcome<seq<PromptSegment>> {
    InOrder([PersonaSegment(renderer, p.persona, p.personaSource)] + StateSegments(p.states),
            MemorySegments(policy, renderer, p), InputSegment(policy, renderer, p.input))
  }

  function InOrder(personas: seq<PromptSegment>, memory: Outcome<seq<PromptSegment>>, input: Outcome<PromptSegment>): Outcome<seq<PromptSegment>> {
    var m :- memory;
    var i :- input;
    Ok(personas + m + [i])
  }

  // ---------------------------------------------------------------- every segment is tiled

  lemma {:induction false} PositionedSegment(id: string, trust: Trust, pieces: seq<Piece>)
    requires forall k | 0 <= k < |pieces| :: ValidPiece(pieces[k])
    ensures TiledSegment(PromptSegment(id, trust, TextOf(pieces), FragmentsOf(pieces)))
  {
    PositionTiles(pieces);
    PositionValid(pieces);
  }

  lemma {:induction false} PiecesValid(fragments: seq<Fragment>)
    requires forall k | 0 <= k < |fragments| :: ValidFragment(fragments[k])
    ensures forall k | 0 <= k < |PiecesOf(fragments)| :: ValidPiece(PiecesOf(fragments)[k])
  {
  }

  lemma {:induction false} UntrustedIsTiled(renderer: Option<Renderer>, id: string, content: string, fragments: seq<Fragment>)
    requires TiledSegment(PromptSegment(id, UntrustedData, content, fragments)) && id != ""
    ensures var s := UntrustedSegment(renderer, id, content, fragments); s.Ok? ==> TiledSegment(s.value)
  {
    if renderer.Some? && ValidBlockName(id) {
      var pieces := if fragments != [] then PiecesOf(fragments)
                    else [Piece(id + ":body", content, [Source("memory:" + id, "prompt_assembler")], UntrustedData, Some(id), Body)];
      FramedValid(renderer.value, id, pieces);
      PositionedSegment(id, UntrustedData, FramedPieces(renderer.value, id, pieces));
    }
  }

  lemma {:induction false} BlockIsTiled(policy: Option<Policy>, renderer: Option<Renderer>, id: string, es: seq<Entry>, plain: string)
    requires id != "" && forall i | 0 <= i < |es| :: ValidEntry(es[i])
    ensures var s := BlockSegment(policy, renderer, id, es, plain); s.Ok? ==> TiledSegment(s.value)
  {
    if policy.Some? && es != [] && Unique(EntryIds(es)) {
      AnnotatedIsValid(policy.value, es, "\n");
      AnnotatedNotEmpty(policy.value, es, "\n");
      var h := Annotated(policy.value, es, "\n").value;
      UntrustedIsTiled(renderer, id, h.text, h.fragments);
    } else {
      UntrustedIsTiled(renderer, id, if plain == "" then "[]" else plain, []);
    }
  }

  /** The first entry is always marked, so an annotated history is never empty. */
  lemma {:induction false} AnnotatedNotEmpty(policy: Policy, es: seq<Entry>, separator: string)
    requires es != []
    ensures TextOf(HistoryPieces(policy, es, separator)) != ""
  {
    var n := |es| - 1;
    var front := HistoryPieces(policy, es[..n], separator);
    var marked := Reasons(policy, Last(es[..n]), LastMarked(policy, es[..n]), es[n]) != {};
    TextOfConcat(front, EntryPieces(policy, es[..n] == [], marked, es[n], separator));
    if n > 0 {
      AnnotatedNotEmpty(policy, es[..n], separator);
    } else {
      assert First in Reasons(policy, Last(es[..n]), LastMarked(policy, es[..n]), es[n]);
      MarkedNotEmpty(policy, es[n], separator);
    }
  }

  lemma {:induction false} MarkedNotEmpty(policy: Policy, e: Entry, separator: string)
    ensures TextOf(EntryPieces(policy, true, true, e, separator)) != ""
  {
    var marker := Piece(e.id + ":marker", FormatMarker(e.span, policy), MarkerSources(policy, e), UntrustedData, Some(e.id), Marker);
    var all := EntryPieces(policy, true, true, e, separator);
    assert all == [marker] + all[1..];
    TextOfConcat([marker], all[1..]);
    assert [marker][..0] == [];
    assert TextOf([marker]) == marker.content;
  }

  lemma {:induction false} InputMarkersValid(fragments: seq<Fragment>)
    requires forall k | 0 <= k < |fragments| :: ValidFragment(fragments[k])
    ensures forall k | 0 <= k < |InputMarkers(fragments)| :: ValidPiece(InputMarkers(fragments)[k])
  {
    if fragments != [] {
      InputMarkersValid(fragments[..|fragments| - 1]);
    }
  }

  lemma {:induction false} FirstBodyIsOne(fragments: seq<Fragment>)
    ensures FirstBody(fragments).Some? ==> FirstBody(fragments).value in fragments
  {
    if fragments != [] {
      FirstBodyIsOne(fragments[..|fragments| - 1]);
    }
  }

  lemma {:induction false} WrappedValid(r: Renderer, block: string, pieces: seq<Piece>)
    requires forall k | 0 <= k < |pieces| :: ValidPiece(pieces[k])
    ensures var w := Wrap(r, block, pieces); w.Ok? ==> forall k | 0 <= k < |w.value.fragments| :: ValidFragment(w.value.fragments[k])
  {
    FramedValid(r, block, pieces);
    PositionValid(FramedPieces(r, block, pieces));
  }

  lemma {:induction false} InputIsTiled(policy: Option<Policy>, renderer: Option<Renderer>, input: Entry)
    requires ValidEntry(input)
    ensures var s := InputSegment(policy, renderer, input); s.Ok? ==> TiledSegment(s.value)
  {
    if policy.Some? {
      AnnotatedIsValid(policy.value, [input], "\n");
      if renderer.Some? {
        BoundedInputIsTiled(renderer.value, Annotated(policy.value, [input], "\n").value.fragments);
      }
    }
  }

  lemma {:induction false} BoundedInputIsTiled(r: Renderer, fragments: seq<Fragment>)
    requires forall k | 0 <= k < |fragments| :: ValidFragment(fragments[k])
    ensures var s := BoundedInput(r, fragments); s.Ok? ==> TiledSegment(s.value)
  {
    FirstBodyIsOne(fragments);
    var body := FirstBody(fragments);
    if body.Some? {
      var bounded := Wrap(r, "current_input", PiecesOf([body.value]));
      PiecesValid([body.value]);
      WrappedValid(r, "current_input", PiecesOf([body.value]));
      InputMarkersValid(fragments);
      if bounded.Ok? {
        PiecesValid(bounded.value.fragments);
        PositionedSegment("current_input", UserInstruction, InputMarkers(fragments) + PiecesOf(bounded.value.fragments));
      }
    }
  }

  predicate AllTiled(segments: seq<PromptSegment>) {
    forall i | 0 <= i < |segments| :: TiledSegment(segments[i])
  }

  predicate ValidEntries(es: seq<Entry>) {
    forall i | 0 <= i < |es| :: ValidEntry(es[i])
  }

  lemma {:induction false} BudgetedIsTiled(p: Prompt, a: Outcome<PromptSegment>, b: Outcome<PromptSegment>, c: Outcome<PromptSegment>)
    requires (a.Ok? ==> TiledSegment(a.value)) && (b.Ok? ==> TiledSegment(b.value)) && (c.Ok? ==> TiledSegment(c.value))
    ensures Budgeted(p, a, b, c).Ok? ==> AllTiled(Budgeted(p, a, b, c).value)
  {
  }

  lemma {:induction false} MemoryIsTiled(policy: Option<Policy>, renderer: Option<Renderer>, p: Prompt)
    requires ValidEntries(p.overview) && ValidEntries(p.longTerm) && ValidEntries(p.recent)
    ensures var m := MemorySegments(policy, renderer, p); m.Ok? ==> AllTiled(m.value)
  {
    var a := BlockSegment(policy, renderer, "memory_overview", p.overview, p.overviewText);
    var b := BlockSegment(policy, renderer, "long_term_memories", p.longTerm, p.longTermText);
    var c := BlockSegment(policy, renderer, "recent_records", p.recent, p.recentText);
    BlockIsTiled(policy, renderer, "memory_overview", p.overview, p.overviewText);
    BlockIsTiled(policy, renderer, "long_term_memories", p.longTerm, p.longTermText);
    BlockIsTiled(policy, renderer, "recent_records", p.recent, p.recentText);
    BudgetedIsTiled(p, a, b, c);
  }

  lemma {:induction false} PersonaIsTiled(renderer: Option<Renderer>, persona: string, source: Source)
    ensures TiledSegment(PersonaSegment(renderer, persona, source))
  {
    if renderer.Some? {
      PositionedSegment("base_persona", TrustedInstruction, SystemPieces(renderer.value, persona, source));
    }
  }

  lemma {:induction false} InOrderIsTiled(personas: seq<PromptSegment>, memory: Outcome<seq<PromptSegment>>, input: Outcome<PromptSegment>)
    requires AllTiled(personas) && (memory.Ok? ==> AllTiled(memory.value)) && (input.Ok? ==> TiledSegment(input.value))
    ensures InOrder(personas, memory, input).Ok? ==> AllTiled(InOrder(personas, memory, input).value)
  {
  }

  lemma {:induction false} PersonasAreTiled(renderer: Option<Renderer>, p: Prompt)
    ensures AllTiled([PersonaSegment(renderer, p.persona, p.personaSource)] + StateSegments(p.states))
  {
    PersonaIsTiled(renderer, p.persona, p.personaSource);
  }

  /** Every segment of every assembled prompt is plain text or exactly tiled by its fragments. */
  lemma {:induction false} AssembledIsTiled(policy: Option<Policy>, renderer: Option<Renderer>, p: Prompt)
    requires ValidEntries(p.overview) && ValidEntries(p.longTerm) && ValidEntries(p.recent) && ValidEntry(p.input)
    requires Assemble(policy, renderer, p).Ok?
    ensures AllTiled(Assemble(policy, renderer, p).value)
    ensures Assemble(policy, renderer, p).value[0] == PersonaSegment(renderer, p.persona, p.personaSource)
  {
    PersonasAreTiled(renderer, p);
    MemoryIsTiled(policy, renderer, p);
    InputIsTiled(policy, renderer, p.input);
    InOrderIsTiled([PersonaSegment(renderer, p.persona, p.personaSource)] + StateSegments(p.states),
                   MemorySegments(policy, renderer, p), InputSegment(policy, renderer, p.input));
  }
}
