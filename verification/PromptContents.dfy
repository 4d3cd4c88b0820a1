/** What is in an assembled prompt: which segment shows which text. */
module PromptContents {
  import opened Outcomes
  import opened Boundaries
  import opened Temporal
  import opened Assembly

  // ---------------------------------------------------------------- what a segment shows

  /** A text as it is shown: bare, or between the boundaries of its block. */
  function Framed(renderer: Option<Renderer>, block: string, inner: string): string {
    if renderer.None? then inner
    else Opening(renderer.value, block, inner) + inner + BeforeClose(inner) + Closing(renderer.value, block, inner)
  }

  function OrBrackets(text: string): string {
    if text == "" then "[]" else text
  }

  /** A memory block shows its own entries, annotated and each with its own sources, when there is
      a time policy and there are entries, else its own text; nothing is written "[]". */
  ghost predicate ShowsBlock(policy: Option<Policy>, renderer: Option<Renderer>, id: string, es: seq<Entry>, plain: string, s: PromptSegment) {
    && s.id == id && s.trust == UntrustedData
    && if policy.Some? && es != [] then
         && Unique(EntryIds(es)) && s.content == Framed(renderer, id, TextOf(HistoryPieces(policy.value, es, "\n")))
         && BodiesOf(s.fragments) == NonEmptyBodies(es)
       else s.content == Framed(renderer, id, OrBrackets(plain))
  }

  /** The persona, and with frames the text that explains them. */
  ghost predicate ShowsPersona(renderer: Option<Renderer>, persona: string, s: PromptSegment) {
    && s.id == "base_persona" && s.trust == TrustedInstruction
    && s.content == if renderer.None? then persona else persona + "\n\n" + renderer.value.instruction
  }

  /** The input: with a time policy the time stands on a line of its own before it, outside the
      frame. */
  function InputText(policy: Option<Policy>, renderer: Option<Renderer>, input: Entry): string {
    if policy.None? then input.body
    else FormatMarker(input.span, policy.value) + (if input.body == "" then "" else "\n" + Framed(renderer, "current_input", input.body))
  }

  ghost predicate ShowsInput(policy: Option<Policy>, renderer: Option<Renderer>, input: Entry, s: PromptSegment) {
    && s.id == "current_input" && s.trust == UserInstruction && s.content == InputText(policy, renderer, input)
    && (policy.Some? ==> BodiesOf(s.fragments) == NonEmptyBodies([input]))
  }

  // ---------------------------------------------------------------- one block

  lemma {:induction false} OnePieceText(p: Piece)
    ensures TextOf([p]) == p.content && BodyTexts([p]) == if p.kind.Body? && p.content != "" then [Credit(p.content, p.sources, p.trust)] else []
  {
    assert [p][..0] == [];
  }

  /** A frame adds no body of its own. */
  lemma {:induction false} FrameBodies(r: Renderer, block: string, inner: seq<Piece>)
    ensures BodiesOf(FragmentsOf(FramedPieces(r, block, inner))) == BodyTexts(inner)
  {
    var content := TextOf(inner);
    var head := [Frame(r, block, ":untrusted-boundary-open", Opening(r, block, content))];
    var tail := [Frame(r, block, ":untrusted-boundary-close-separator", BeforeClose(content)), Frame(r, block, ":untrusted-boundary-close", Closing(r, block, content))];
    BodiesOfPieces(FramedPieces(r, block, inner));
    NoBodies(head);
    NoBodies(tail);
    BodyTextsConcat(head, inner);
    BodyTextsConcat(head + inner, tail);
  }

  lemma {:induction false} PiecesBodies(fragments: seq<Fragment>)
    requires forall k | 0 <= k < |fragments| :: fragments[k].content != ""
    ensures BodyTexts(PiecesOf(fragments)) == BodiesOf(fragments)
  {
    if fragments != [] {
      var n := |fragments| - 1;
      assert PiecesOf(fragments)[..n] == PiecesOf(fragments[..n]);
      PiecesBodies(fragments[..n]);
    }
  }

  lemma {:induction false} NoneEmpty(pieces: seq<Piece>)
    ensures forall k | 0 <= k < |FragmentsOf(pieces)| :: FragmentsOf(pieces)[k].content != ""
  {
    if pieces != [] {
      NoneEmpty(pieces[..|pieces| - 1]);
    }
  }

  lemma {:induction false} BlockNames()
    ensures ValidBlockName("memory_overview") && ValidBlockName("long_term_memories") && ValidBlockName("recent_records") && ValidBlockName("current_input")
  {
  }

  function Inner(id: string, content: string, fragments: seq<Fragment>): seq<Piece> {
    if fragments != [] then PiecesOf(fragments)
    else [Piece(id + ":body", content, [Source("memory:" + id, "prompt_assembler")], UntrustedData, Some(id), Body)]
  }

  lemma {:induction false} InnerIs(id: string, content: string, fragments: seq<Fragment>)
    requires fragments != [] ==> Tiles(content, fragments)
    ensures TextOf(Inner(id, content, fragments)) == content
    ensures fragments != [] ==> BodyTexts(Inner(id, content, fragments)) == BodiesOf(fragments)
  {
    if fragments != [] {
      TilesMeansConcatenation(content, fragments);
      PiecesText(fragments);
      PiecesBodies(fragments);
    } else {
      OnePieceText(Inner(id, content, fragments)[0]);
    }
  }

  lemma {:induction false} WrapShows(r: Renderer, id: string, content: string, fragments: seq<Fragment>)
    requires ValidBlockName(id) && (fragments != [] ==> Tiles(content, fragments))
    ensures var w := Wrap(r, id, Inner(id, content, fragments));
            && w.Ok? && w.value.text == Framed(Some(r), id, content) && Tiles(w.value.text, w.value.fragments)
            && (fragments != [] ==> BodiesOf(w.value.fragments) == BodiesOf(fragments))
  {
    InnerIs(id, content, fragments);
    WrapTiles(r, id, Inner(id, content, fragments));
    FrameBodies(r, id, Inner(id, content, fragments));
  }

  lemma {:induction false} UntrustedShows(renderer: Option<Renderer>, id: string, content: string, fragments: seq<Fragment>)
    requires ValidBlockName(id) && (fragments != [] ==> Tiles(content, fragments))
    ensures var s := UntrustedSegment(renderer, id, content, fragments);
            && s.Ok? && s.value.id == id && s.value.trust == UntrustedData && s.value.content == Framed(renderer, id, content)
            && (fragments != [] ==> BodiesOf(s.value.fragments) == BodiesOf(fragments))
  {
    if renderer.Some? {
      WrapShows(renderer.value, id, content, fragments);
    }
  }

  lemma {:induction false} BlockShows(policy: Option<Policy>, renderer: Option<Renderer>, id: string, es: seq<Entry>, plain: string)
    requires ValidBlockName(id)
    ensures IsBlock(policy, renderer, id, es, plain, BlockSegment(policy, renderer, id, es, plain))
  {
    if policy.Some? && es != [] {
      if Unique(EntryIds(es)) {
        var h := Annotated(policy.value, es, "\n").value;
        AnnotatedNotEmpty(policy.value, es, "\n");
        PositionTiles(HistoryPieces(policy.value, es, "\n"));
        BodiesComeBack(policy.value, es, "\n");
        UntrustedShows(renderer, id, h.text, h.fragments);
      }
    } else {
      UntrustedShows(renderer, id, OrBrackets(plain), []);
    }
  }

  // ---------------------------------------------------------------- the persona and the input

  lemma {:induction false} ThreePieces(a: Piece, b: Piece, c: Piece)
    ensures TextOf([a, b, c]) == a.content + b.content + c.content
  {
    assert [a, b, c] == [a] + [b] + [c];
    TextOfConcat([a], [b]);
    TextOfConcat([a] + [b], [c]);
    OnePieceText(a);
    OnePieceText(b);
    OnePieceText(c);
  }

  lemma {:induction false} PersonaShows(renderer: Option<Renderer>, persona: string, source: Source)
    ensures ShowsPersona(renderer, persona, PersonaSegment(renderer, persona, source))
  {
    if renderer.Some? {
      var pieces := SystemPieces(renderer.value, persona, source);
      ThreePieces(pieces[0], pieces[1], pieces[2]);
    }
  }

  function MarkerPiece(policy: Policy, e: Entry): Piece {
    Piece(e.id + ":marker", FormatMarker(e.span, policy), MarkerSources(policy, e), UntrustedData, Some(e.id), Marker)
  }

  function BreakPiece(policy: Policy, e: Entry): Piece {
    Piece(e.id + ":marker-separator", "\n", MarkerSources(policy, e), UntrustedData, Some(e.id), Separator)
  }

  /** A single entry is always marked. */
  lemma {:induction false} OneEntry(policy: Policy, e: Entry)
    ensures HistoryPieces(policy, [e], "\n")
            == if e.body == "" then [MarkerPiece(policy, e), BodyPiece(e)] else [MarkerPiece(policy, e), BreakPiece(policy, e), BodyPiece(e)]
  {
    assert [e][..0] == [];
    assert First in Reasons(policy, Last([]), LastMarked(policy, []), e);
  }

  lemma {:induction false} TwoPieces(a: Piece, b: Piece)
    ensures TextOf([a, b]) == a.content + b.content
  {
    assert [a, b] == [a] + [b];
    TextOfConcat([a], [b]);
    OnePieceText(a);
    OnePieceText(b);
  }

  lemma {:induction false} OneEntryText(policy: Policy, e: Entry)
    ensures TextOf(HistoryPieces(policy, [e], "\n")) == FormatMarker(e.span, policy) + (if e.body == "" then "" else "\n" + e.body)
  {
    OneEntry(policy, e);
    if e.body == "" {
      TwoPieces(MarkerPiece(policy, e), BodyPiece(e));
    } else {
      ThreePieces(MarkerPiece(policy, e), BreakPiece(policy, e), BodyPiece(e));
    }
  }

  lemma {:induction false} FragmentsPush(pieces: seq<Piece>, p: Piece)
    requires p.content != ""
    ensures FragmentsOf(pieces + [p]) == FragmentsOf(pieces) + [Placed(p, |TextOf(pieces)|)]
  {
    assert (pieces + [p])[..|pieces|] == pieces;
  }

  lemma {:induction false} ThreeFragments(m: Piece, n: Piece, o: Piece)
    requires m.content != "" && n.content != "" && o.content != ""
    ensures FragmentsOf([m, n, o]) == [Placed(m, 0), Placed(n, |TextOf([m])|), Placed(o, |TextOf([m, n])|)]
  {
    FragmentsPush([], m);
    FragmentsPush([m], n);
    FragmentsPush([m, n], o);
    assert [] + [m] == [m] && [m] + [n] == [m, n] && [m, n] + [o] == [m, n, o];
    assert FragmentsOf([m]) == [Placed(m, 0)];
    assert FragmentsOf([m, n]) == [Placed(m, 0), Placed(n, |TextOf([m])|)];
  }

  lemma {:induction false} MarkerWritten(e: Entry, policy: Policy)
    ensures FormatMarker(e.span, policy) != ""
  {
  }

  lemma {:induction false} OneEntryFragments(policy: Policy, e: Entry) returns (a: Fragment, b: Fragment, c: Fragment)
    requires e.body != ""
    ensures FragmentsOf(HistoryPieces(policy, [e], "\n")) == [a, b, c]
    ensures a.kind.Marker? && a.content == FormatMarker(e.span, policy) && b.kind.Separator? && b.content == "\n"
    ensures c.kind.Body? && c.content == e.body && CreditOf(c) == Credit(e.body, e.sources, e.trust)
  {
    var m, n, o := MarkerPiece(policy, e), BreakPiece(policy, e), BodyPiece(e);
    MarkerWritten(e, policy);
    OneEntry(policy, e);
    ThreeFragments(m, n, o);
    a, b, c := Placed(m, 0), Placed(n, |TextOf([m])|), Placed(o, |TextOf([m, n])|);
  }

  function Promoted(f: Fragment): Piece {
    Piece(f.id, f.content, f.sources, TrustedMetadata, Some(f.entryId), if f.kind.Marker? then TrustedTimeMetadata else f.kind)
  }

  lemma {:induction false} MarkersPush(fragments: seq<Fragment>, f: Fragment)
    ensures InputMarkers(fragments + [f]) == InputMarkers(fragments) + (if f.kind.Body? then [] else [Promoted(f)])
    ensures FirstBody(fragments + [f]) == if FirstBody(fragments).Some? then FirstBody(fragments) else if f.kind.Body? then Some(f) else None
  {
    assert (fragments + [f])[..|fragments|] == fragments;
  }

  lemma {:induction false} NoBodyYet(a: Fragment, b: Fragment)
    requires !a.kind.Body? && !b.kind.Body?
    ensures FirstBody([a, b]).None? && InputMarkers([a, b]) == [Promoted(a), Promoted(b)]
    ensures TextOf(InputMarkers([a, b])) == a.content + b.content && BodyTexts(InputMarkers([a, b])) == []
  {
    MarkersPush([], a);
    MarkersPush([a], b);
    assert [] + [a] == [a] && [a] + [b] == [a, b];
    assert InputMarkers([a]) == [Promoted(a)];
    TwoPieces(Promoted(a), Promoted(b));
    NoBodies([Promoted(a), Promoted(b)]);
  }

  lemma {:induction false} MarkersThenBody(a: Fragment, b: Fragment, c: Fragment)
    requires !a.kind.Body? && !b.kind.Body? && c.kind.Body?
    ensures FirstBody([a, b, c]) == Some(c) && InputMarkers([a, b, c]) == InputMarkers([a, b])
  {
    NoBodyYet(a, b);
    MarkersPush([a, b], c);
    assert [a, b] + [c] == [a, b, c];
  }

  lemma {:induction false} BoundedShows(r: Renderer, a: Fragment, b: Fragment, c: Fragment)
    requires !a.kind.Body? && !b.kind.Body? && c.kind.Body? && c.content != ""
    ensures var s := BoundedInput(r, [a, b, c]);
            && s.Ok? && s.value.id == "current_input" && s.value.trust == UserInstruction
            && s.value.content == a.content + b.content + Framed(Some(r), "current_input", c.content)
            && BodiesOf(s.value.fragments) == [CreditOf(c)]
  {
    MarkersThenBody(a, b, c);
    NoBodyYet(a, b);
    BlockNames();
    var inner := PiecesOf([c]);
    assert inner == [PieceOf(c)];
    OnePieceText(PieceOf(c));
    WrapTiles(r, "current_input", inner);
    var w := Wrap(r, "current_input", inner).value;
    FrameBodies(r, "current_input", inner);
    FramesAfter(InputMarkers([a, b, c]), w);
  }

  lemma {:induction false} LaidText(w: Rendered)
    requires Tiles(w.text, w.fragments)
    ensures TextOf(PiecesOf(w.fragments)) == w.text && BodyTexts(PiecesOf(w.fragments)) == BodiesOf(w.fragments)
  {
    TilesMeansConcatenation(w.text, w.fragments);
    PiecesText(w.fragments);
    PiecesBodies(w.fragments);
  }

  /** Markers, then a frame that was laid out before. */
  lemma {:induction false} FramesAfter(markers: seq<Piece>, w: Rendered)
    requires Tiles(w.text, w.fragments) && BodyTexts(markers) == []
    ensures var pieces := markers + PiecesOf(w.fragments);
            TextOf(pieces) == TextOf(markers) + w.text && BodiesOf(FragmentsOf(pieces)) == BodiesOf(w.fragments)
  {
    LaidText(w);
    TextOfConcat(markers, PiecesOf(w.fragments));
    BodiesOfPieces(markers + PiecesOf(w.fragments));
    BodyTextsConcat(markers, PiecesOf(w.fragments));
  }

  lemma {:induction false} AnnotatedInput(policy: Policy, input: Entry)
    ensures Annotated(policy, [input], "\n").Ok?
    ensures var h := Annotated(policy, [input], "\n").value;
            && h.text == FormatMarker(input.span, policy) + (if input.body == "" then "" else "\n" + input.body)
            && h.fragments == FragmentsOf(HistoryPieces(policy, [input], "\n")) && BodiesOf(h.fragments) == NonEmptyBodies([input])
  {
    OneEntryText(policy, input);
    BodiesComeBack(policy, [input], "\n");
  }

  lemma {:induction false} FramedInput(policy: Policy, r: Renderer, input: Entry, fragments: seq<Fragment>)
    requires fragments == FragmentsOf(HistoryPieces(policy, [input], "\n"))
    ensures var s := BoundedInput(r, fragments);
            if input.body == "" then s == Err("STOP_ITERATION") else s.Ok? && ShowsInput(Some(policy), Some(r), input, s.value)
  {
    OneBodyOf(input);
    if input.body == "" {
      NothingToFrame(policy, input);
    } else {
      var a, b, c := OneEntryFragments(policy, input);
      BoundedShows(r, a, b, c);
      Joined(a.content, b.content, Framed(Some(r), "current_input", input.body));
    }
  }

  lemma {:induction false} Joined(a: string, b: string, c: string)
    ensures a + b + c == a + (b + c)
  {
  }

  /** The input cannot be framed when it is empty: there is no body to frame. */
  lemma {:induction false} InputShows(policy: Option<Policy>, renderer: Option<Renderer>, input: Entry)
    ensures var s := InputSegment(policy, renderer, input);
            if policy.Some? && renderer.Some? && input.body == "" then s == Err("STOP_ITERATION")
            else s.Ok? && ShowsInput(policy, renderer, input, s.value)
  {
    if policy.Some? {
      AnnotatedInput(policy.value, input);
      if renderer.Some? {
        FramedInput(policy.value, renderer.value, input, Annotated(policy.value, [input], "\n").value.fragments);
      }
    }
  }

  lemma {:induction false} OneBodyOf(e: Entry)
    ensures NonEmptyBodies([e]) == if e.body == "" then [] else [Credit(e.body, e.sources, e.trust)]
  {
    assert [e][..0] == [];
  }

  lemma {:induction false} NothingToFrame(policy: Policy, e: Entry)
    requires e.body == ""
    ensures FirstBody(FragmentsOf(HistoryPieces(policy, [e], "\n"))).None?
  {
    BodiesComeBack(policy, [e], "\n");
    OneBodyOf(e);
    NoFirstBody(FragmentsOf(HistoryPieces(policy, [e], "\n")));
  }

  lemma {:induction false} NoFirstBody(fragments: seq<Fragment>)
    requires BodiesOf(fragments) == []
    ensures FirstBody(fragments).None?
  {
    if fragments != [] {
      NoFirstBody(fragments[..|fragments| - 1]);
    }
  }

  // ---------------------------------------------------------------- the whole prompt

  /** The personas of the state, in their order. */
  ghost predicate ShowsStates(states: seq<(string, string)>, segments: seq<PromptSegment>) {
    && |segments| == |states|
    && forall i | 0 <= i < |states| :: segments[i] == PromptSegment("state_persona:" + states[i].0, TrustedInstruction, states[i].1, [])
  }

  /** Every segment in its place, each with its own text. */
  ghost predicate ShowsPrompt(policy: Option<Policy>, renderer: Option<Renderer>, p: Prompt, segments: seq<PromptSegment>) {
    var n := |p.states|;
    && |segments| == n + 5 && ShowsPersona(renderer, p.persona, segments[0])
    && ShowsStates(p.states, segments[1..n + 1])
    && ShowsBlock(policy, renderer, "memory_overview", p.overview, p.overviewText, segments[n + 1])
    && ShowsBlock(policy, renderer, "long_term_memories", p.longTerm, p.longTermText, segments[n + 2])
    && ShowsBlock(policy, renderer, "recent_records", p.recent, p.recentText, segments[n + 3])
    && ShowsInput(policy, renderer, p.input, segments[n + 4])
  }

  /** The length of what a block shows. */
  function ShownLength(policy: Option<Policy>, renderer: Option<Renderer>, id: string, es: seq<Entry>, plain: string): nat {
    |Framed(renderer, id, if policy.Some? && es != [] then TextOf(HistoryPieces(policy.value, es, "\n")) else OrBrackets(plain))|
  }

  predicate Over(limit: Option<nat>, length: nat) {
    limit.Some? && length > limit.value
  }

  /** One of the three memory blocks is longer than its own limit. */
  predicate OverBudget(policy: Option<Policy>, renderer: Option<Renderer>, p: Prompt) {
    || Over(p.overviewChars, ShownLength(policy, renderer, "memory_overview", p.overview, p.overviewText))
    || Over(p.longTermChars, ShownLength(policy, renderer, "long_term_memories", p.longTerm, p.longTermText))
    || Over(p.recentChars, ShownLength(policy, renderer, "recent_records", p.recent, p.recentText))
  }

  ghost predicate DistinctEntries(policy: Option<Policy>, p: Prompt) {
    policy.None? || (Unique(EntryIds(p.overview)) && Unique(EntryIds(p.longTerm)) && Unique(EntryIds(p.recent)))
  }

  /** What building one block gives. */
  ghost predicate IsBlock(policy: Option<Policy>, renderer: Option<Renderer>, id: string, es: seq<Entry>, plain: string, o: Outcome<PromptSegment>) {
    && (o.Ok? <==> policy.None? || Unique(EntryIds(es)))
    && (if o.Ok? then ShowsBlock(policy, renderer, id, es, plain, o.value) else o == Err("VALUE_ERROR"))
  }

  lemma {:induction false} LengthIs(policy: Option<Policy>, renderer: Option<Renderer>, id: string, es: seq<Entry>, plain: string, s: PromptSegment)
    requires ShowsBlock(policy, renderer, id, es, plain, s)
    ensures |s.content| == ShownLength(policy, renderer, id, es, plain)
  {
  }

  lemma {:induction false} BudgetedIs(p: Prompt, a: Outcome<PromptSegment>, b: Outcome<PromptSegment>, c: Outcome<PromptSegment>)
    requires !a.Crashed? && !b.Crashed? && !c.Crashed?
    requires (!a.Ok? ==> a.code == "VALUE_ERROR") && (!b.Ok? ==> b.code == "VALUE_ERROR") && (!c.Ok? ==> c.code == "VALUE_ERROR")
    ensures var m := Budgeted(p, a, b, c);
            if !a.Ok? || !b.Ok? || !c.Ok? then m == Err("VALUE_ERROR")
            else if Over(p.overviewChars, |a.value.content|) || Over(p.longTermChars, |b.value.content|) || Over(p.recentChars, |c.value.content|)
              then m == Err("PROMPT_BUDGET_EXCEEDED")
            else m == Ok([a.value, b.value, c.value])
  {
  }

  /** The three blocks, or why there are none. */
  ghost predicate ShowsMemory(policy: Option<Policy>, renderer: Option<Renderer>, p: Prompt, m: Outcome<seq<PromptSegment>>) {
    if !DistinctEntries(policy, p) then m == Err("VALUE_ERROR")
    else if OverBudget(policy, renderer, p) then m == Err("PROMPT_BUDGET_EXCEEDED")
    else
      && m.Ok? && |m.value| == 3 && ShowsBlock(policy, renderer, "memory_overview", p.overview, p.overviewText, m.value[0])
      && ShowsBlock(policy, renderer, "long_term_memories", p.longTerm, p.longTermText, m.value[1])
      && ShowsBlock(policy, renderer, "recent_records", p.recent, p.recentText, m.value[2])
  }

  lemma {:induction false} BlocksShow(policy: Option<Policy>, renderer: Option<Renderer>, p: Prompt,
                                      a: Outcome<PromptSegment>, b: Outcome<PromptSegment>, c: Outcome<PromptSegment>)
    requires IsBlock(policy, renderer, "memory_overview", p.overview, p.overviewText, a)
    requires IsBlock(policy, renderer, "long_term_memories", p.longTerm, p.longTermText, b)
    requires IsBlock(policy, renderer, "recent_records", p.recent, p.recentText, c)
    ensures ShowsMemory(policy, renderer, p, Budgeted(p, a, b, c))
  {
    BudgetedIs(p, a, b, c);
    if a.Ok? && b.Ok? && c.Ok? {
      LengthIs(policy, renderer, "memory_overview", p.overview, p.overviewText, a.value);
      LengthIs(policy, renderer, "long_term_memories", p.longTerm, p.longTermText, b.value);
      LengthIs(policy, renderer, "recent_records", p.recent, p.recentText, c.value);
    }
  }

  lemma {:induction false} MemoryShows(policy: Option<Policy>, renderer: Option<Renderer>, p: Prompt)
    ensures ShowsMemory(policy, renderer, p, MemorySegments(policy, renderer, p))
  {
    BlockNames();
    BlockShows(policy, renderer, "memory_overview", p.overview, p.overviewText);
    BlockShows(policy, renderer, "long_term_memories", p.longTerm, p.longTermText);
    BlockShows(policy, renderer, "recent_records", p.recent, p.recentText);
    BlocksShow(policy, renderer, p, BlockSegment(policy, renderer, "memory_overview", p.overview, p.overviewText),
               BlockSegment(policy, renderer, "long_term_memories", p.longTerm, p.longTermText),
               BlockSegment(policy, renderer, "recent_records", p.recent, p.recentText));
  }

  lemma {:induction false} InOrderIs(persona: PromptSegment, states: seq<PromptSegment>, m: Outcome<seq<PromptSegment>>, i: Outcome<PromptSegment>)
    requires m.Ok? ==> |m.value| == 3
    ensures var all, n := InOrder([persona] + states, m, i), |states|;
            if m.Err? then all == Err(m.code)
            else if m.Ok? && i.Err? then all == Err(i.code)
            else m.Ok? && i.Ok? ==>
                   && all.Ok? && |all.value| == n + 5 && all.value[0] == persona && all.value[1..n + 1] == states
                   && all.value[n + 1] == m.value[0] && all.value[n + 2] == m.value[1] && all.value[n + 3] == m.value[2] && all.value[n + 4] == i.value
  {
  }

  /** The whole of `assemble`: it fails exactly when entries repeat, a memory block is over its
      own limit, or an empty input would have to be framed; and otherwise every segment shows
      what it is named for. */
  lemma {:induction false} AssembledShows(policy: Option<Policy>, renderer: Option<Renderer>, p: Prompt)
    ensures var a := Assemble(policy, renderer, p);
            var empty := policy.Some? && renderer.Some? && p.input.body == "";
            && (a == Err("PROMPT_BUDGET_EXCEEDED") <==> DistinctEntries(policy, p) && OverBudget(policy, renderer, p))
            && (a.Ok? <==> DistinctEntries(policy, p) && !OverBudget(policy, renderer, p) && !empty)
            && (a.Ok? ==> ShowsPrompt(policy, renderer, p, a.value))
  {
    var persona, m, i := PersonaSegment(renderer, p.persona, p.personaSource), MemorySegments(policy, renderer, p), InputSegment(policy, renderer, p.input);
    PersonaShows(renderer, p.persona, p.personaSource);
    MemoryShows(policy, renderer, p);
    InputShows(policy, renderer, p.input);
    PartsShow(policy, renderer, p, persona, m, i);
  }

  lemma {:induction false} PartsShow(policy: Option<Policy>, renderer: Option<Renderer>, p: Prompt,
                                     persona: PromptSegment, m: Outcome<seq<PromptSegment>>, i: Outcome<PromptSegment>)
    requires ShowsPersona(renderer, p.persona, persona) && ShowsMemory(policy, renderer, p, m)
    requires if policy.Some? && renderer.Some? && p.input.body == "" then i == Err("STOP_ITERATION") else i.Ok? && ShowsInput(policy, renderer, p.input, i.value)
    ensures var a := InOrder([persona] + StateSegments(p.states), m, i);
            var empty := policy.Some? && renderer.Some? && p.input.body == "";
            && (a == Err("PROMPT_BUDGET_EXCEEDED") <==> DistinctEntries(policy, p) && OverBudget(policy, renderer, p))
            && (a.Ok? <==> DistinctEntries(policy, p) && !OverBudget(policy, renderer, p) && !empty)
            && (a.Ok? ==> ShowsPrompt(policy, renderer, p, a.value))
  {
    InOrderIs(persona, StateSegments(p.states), m, i);
    if m.Ok? && i.Ok? {
      SegmentsShow(policy, renderer, p, persona, m, i.value, InOrder([persona] + StateSegments(p.states), m, i).value);
    }
  }

  lemma {:induction false} SegmentsShow(policy: Option<Policy>, renderer: Option<Renderer>, p: Prompt,
                                        persona: PromptSegment, m: Outcome<seq<PromptSegment>>, i: PromptSegment, all: seq<PromptSegment>)
    requires ShowsPersona(renderer, p.persona, persona) && ShowsMemory(policy, renderer, p, m) && m.Ok? && ShowsInput(policy, renderer, p.input, i)
    requires |all| == |p.states| + 5 && all[0] == persona && all[1..|p.states| + 1] == StateSegments(p.states)
    requires var n := |p.states|; all[n + 1] == m.value[0] && all[n + 2] == m.value[1] && all[n + 3] == m.value[2] && all[n + 4] == i
    ensures ShowsPrompt(policy, renderer, p, all)
  {
    StatesShow(p.states);
  }

  lemma {:induction false} StatesShow(states: seq<(string, string)>)
    ensures ShowsStates(states, StateSegments(states))
  {
  }

  // ---------------------------------------------------------------- how an annotated history reads

  /** One entry: its time on a line of its own when it is marked, then its body. */
  function Line(policy: Policy, e: Entry, marked: bool): string {
    if !marked then e.body
    else if e.body == "" then FormatMarker(e.span, policy)
    else FormatMarker(e.span, policy) + "\n" + e.body
  }

  /** The entries one below the other. */
  function Lines(policy: Policy, es: seq<Entry>, marks: seq<bool>): string
    requires |marks| == |es|
  {
    if es == [] then ""
    else if |es| == 1 then Line(policy, es[0], marks[0])
    else Lines(policy, es[..|es| - 1], marks[..|es| - 1]) + "\n" + Line(policy, es[|es| - 1], marks[|es| - 1])
  }

  lemma {:induction false} MarkerText(policy: Policy, e: Entry)
    ensures TextOf(MarkerPieces(policy, e)) == FormatMarker(e.span, policy) + (if e.body == "" then "" else "\n")
  {
    if e.body == "" {
      assert MarkerPieces(policy, e) == [MarkerPiece(policy, e)];
      OnePieceText(MarkerPiece(policy, e));
    } else {
      assert MarkerPieces(policy, e) == [MarkerPiece(policy, e), BreakPiece(policy, e)];
      TwoPieces(MarkerPiece(policy, e), BreakPiece(policy, e));
    }
  }

  lemma {:induction false} PartsText(a: seq<Piece>, b: seq<Piece>, c: Piece)
    ensures TextOf(a + b + [c]) == TextOf(a) + TextOf(b) + c.content
  {
    TextOfConcat(a, b);
    TextOfConcat(a + b, [c]);
    OnePieceText(c);
  }

  lemma {:induction false} EntryText(policy: Policy, first: bool, marked: bool, e: Entry)
    ensures TextOf(EntryPieces(policy, first, marked, e, "\n")) == (if first then "" else "\n") + Line(policy, e, marked)
  {
    var a := if first then [] else [SeparatorPiece(e, "\n")];
    var b := if marked then MarkerPieces(policy, e) else [];
    OnePieceText(SeparatorPiece(e, "\n"));
    MarkerText(policy, e);
    PartsText(a, b, BodyPiece(e));
    Joined(TextOf(a), TextOf(b), e.body);
  }

  lemma {:induction false} HistoryReads(policy: Policy, es: seq<Entry>)
    ensures |Marks(policy, es)| == |es| && TextOf(HistoryPieces(policy, es, "\n")) == Lines(policy, es, Marks(policy, es))
  {
    MarksLength(policy, es);
    if es != [] {
      var n := |es| - 1;
      HistoryReads(policy, es[..n]);
      assert Marks(policy, es)[..n] == Marks(policy, es[..n]);
      EntryText(policy, n == 0, Marks(policy, es)[n], es[n]);
      TextOfConcat(HistoryPieces(policy, es[..n], "\n"), EntryPieces(policy, n == 0, Marks(policy, es)[n], es[n], "\n"));
      if n == 0 {
        assert es[..0] == [];
      }
    }
  }

  /** The whole text of an annotated history, for the markers that the whole-list condition sets. */
  lemma {:induction false} HistoryShows(policy: Policy, es: seq<Entry>, marks: seq<bool>)
    requires IsMarking(policy, es, marks)
    ensures TextOf(HistoryPieces(policy, es, "\n")) == Lines(policy, es, marks)
  {
    HistoryReads(policy, es);
    ScanIsMarking(policy, es);
    MarkingIsUnique(policy, es, marks, Marks(policy, es), |es|);
    assert marks == Marks(policy, es);
  }

  /** The parts of a segment take over what its fragments say: text, place, sources and trust. */
  lemma {:induction false} PartsCarry(index: nat, order: nat, s: PromptSegment, turn: string, k: nat)
    requires k < |s.fragments|
    ensures |SegmentParts(index, order, s, turn)| == |s.fragments|
    ensures var part, f := SegmentParts(index, order, s, turn)[k], s.fragments[k];
            && part.content == f.content && part.sources == f.sources && part.trust == f.trust
            && part.span == Some((f.start, f.end)) && part.pointer == Some(ContentPointer(index)) && part.order == order + k
  {
  }
}
