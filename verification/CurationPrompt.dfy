/** The prompt of the curator (`_expand_prompt` and its callers in `memory/curation.py`): its
    template is expanded with a source for every stretch, and the result is accepted. */
module CurationPrompt {
  import opened Outcomes
  import opened Boundaries
  import opened Temporal
  import opened Provenance
  import opened Assembly
  import opened ToolHistory
  import opened Pipeline
  import opened Attribution

  datatype PromptPiece = PromptPiece(id: string, content: string, sources: seq<Source>, trust: Trust)

  datatype Positioned = Positioned(piece: PromptPiece, start: nat, end: nat)

  datatype Expanded = Expanded(text: string, placed: seq<Positioned>)

  // ---------------------------------------------------------------- the template

  /** What the scan of a template finds: a literal before each hole, and the text after the last. */
  datatype Hole = Escaped | Named(name: string) | Braced(name: string) | Invalid

  datatype Template = Template(holes: seq<(string, Hole)>, tail: string)

  predicate StartsName(c: char) {
    'a' <= c <= 'z' || 'A' <= c <= 'Z' || c == '_'
  }

  predicate ContinuesName(c: char) {
    StartsName(c) || '0' <= c <= '9'
  }

  /** The longest run of name characters from `i` on. */
  function NameEnd(text: string, i: nat): (end: nat)
    requires i <= |text|
    ensures i <= end <= |text| && (forall k | i <= k < end :: ContinuesName(text[k]))
    ensures end < |text| ==> !ContinuesName(text[end])
    decreases |text| - i
  {
    if i == |text| || !ContinuesName(text[i]) then i else NameEnd(text, i + 1)
  }

  predicate NameAt(text: string, i: nat) {
    i < |text| && StartsName(text[i])
  }

  /** `Template.pattern` at a dollar sign: two of them, a name, a name in braces, or nothing. */
  function HoleAt(text: string): (r: (Hole, nat))
    requires text != [] && text[0] == '$'
    ensures 1 <= r.1 <= |text| && HoleText(r.0) == text[..r.1]
  {
    if |text| >= 2 && text[1] == '$' then (Escaped, 2)
    else if NameAt(text, 1) then
      var end := NameEnd(text, 1);
      assert ['$'] + text[1..end] == text[..end];
      (Named(text[1..end]), end)
    else if |text| >= 2 && text[1] == '{' && NameAt(text, 2) && NameEnd(text, 2) < |text| && text[NameEnd(text, 2)] == '}' then
      var end := NameEnd(text, 2);
      assert ['$', '{'] + text[2..end] + ['}'] == text[..end + 1];
      (Braced(text[2..end]), end + 1)
    else (Invalid, 1)
  }

  function HoleText(hole: Hole): string {
    match hole
    case Escaped => ['$', '$']
    case Named(name) => ['$'] + name
    case Braced(name) => ['$', '{'] + name + ['}']
    case Invalid => ['$']
  }

  /** The first dollar sign, or the end. */
  function DollarFrom(text: string): (i: nat)
    ensures i <= |text| && '$' !in text[..i] && (i < |text| ==> text[i] == '$')
  {
    if text == "" || text[0] == '$' then 0
    else
      var i := DollarFrom(text[1..]);
      assert text[..i + 1] == [text[0]] + text[1..][..i];
      i + 1
  }

  /** `finditer` over the template. */
  function Scan(text: string): Template
    decreases |text|
  {
    var i := DollarFrom(text);
    if i == |text| then Template([], text)
    else
      var (hole, n) := HoleAt(text[i..]);
      var rest := Scan(text[i..][n..]);
      Template([(text[..i], hole)] + rest.holes, rest.tail)
  }

  /** The text of a template: every literal and every hole as written. */
  function Written(holes: seq<(string, Hole)>): string {
    if holes == [] then "" else holes[0].0 + HoleText(holes[0].1) + Written(holes[1..])
  }

  lemma {:induction false} SplitText(text: string, i: nat, n: nat)
    requires i + n <= |text|
    ensures text[..i] + text[i..][..n] + text[i..][n..] == text
  {
  }

  lemma {:induction false} WrittenPush(literal: string, hole: Hole, rest: Template, text: string)
    requires Written(rest.holes) + rest.tail == text
    ensures Written([(literal, hole)] + rest.holes) + rest.tail == literal + HoleText(hole) + text
  {
    var holes := [(literal, hole)] + rest.holes;
    assert holes[1..] == rest.holes && holes[0] == (literal, hole);
  }

  lemma {:induction false} NoDollars(literal: string, hole: Hole, holes: seq<(string, Hole)>)
    requires '$' !in literal && forall k | 0 <= k < |holes| :: '$' !in holes[k].0
    ensures forall k | 0 <= k <= |holes| :: '$' !in ([(literal, hole)] + holes)[k].0
  {
  }

  /** The scan loses nothing of the template, and no dollar sign is left in a literal. */
  lemma {:induction false} ScanKeepsText(text: string)
    ensures var t := Scan(text);
            && Written(t.holes) + t.tail == text && '$' !in t.tail
            && forall k | 0 <= k < |t.holes| :: '$' !in t.holes[k].0
    decreases |text|
  {
    var i := DollarFrom(text);
    if i == |text| {
      assert text[..i] == text;
    } else {
      var (hole, n) := HoleAt(text[i..]);
      var rest := Scan(text[i..][n..]);
      ScanKeepsText(text[i..][n..]);
      WrittenPush(text[..i], hole, rest, text[i..][n..]);
      NoDollars(text[..i], hole, rest.holes);
      SplitText(text, i, n);
    }
  }

  function Literal(text: string, source: Source): PromptPiece {
    PromptPiece("template", text, [source], TrustedInstruction)
  }

  function HolePieces(hole: Hole, values: map<string, seq<PromptPiece>>, source: Source): Outcome<seq<PromptPiece>> {
    match hole
    case Escaped => Ok([Literal("$", source)])
    case Named(name) => if name in values then Ok(values[name]) else Err("PROMPT_TEMPLATE_INVALID")
    case Braced(name) => if name in values then Ok(values[name]) else Err("PROMPT_TEMPLATE_INVALID")
    case Invalid => Err("PROMPT_TEMPLATE_INVALID")
  }

  /** The pieces of the first `n` holes, with the literals before them. */
  function PiecesUpTo(t: Template, values: map<string, seq<PromptPiece>>, source: Source, n: nat): Outcome<seq<PromptPiece>>
    requires n <= |t.holes|
  {
    if n == 0 then Ok([])
    else
      var before :- PiecesUpTo(t, values, source, n - 1);
      var filled :- HolePieces(t.holes[n - 1].1, values, source);
      Ok(before + [Literal(t.holes[n - 1].0, source)] + filled)
  }

  function TemplatePieces(t: Template, values: map<string, seq<PromptPiece>>, source: Source): Outcome<seq<PromptPiece>> {
    var pieces :- PiecesUpTo(t, values, source, |t.holes|);
    Ok(pieces + [Literal(t.tail, source)])
  }

  /** `append`: the text so far and the spans of the pieces that are not empty. */
  function Appended(before: Expanded, piece: PromptPiece): Expanded {
    if piece.content == "" then before
    else
      Expanded(before.text + piece.content,
               before.placed + [Positioned(piece, |before.text|, |before.text| + |piece.content|)])
  }

  function AppendedAll(before: Expanded, pieces: seq<PromptPiece>): Expanded {
    if pieces == [] then before else Appended(AppendedAll(before, pieces[..|pieces| - 1]), pieces[|pieces| - 1])
  }

  const NOTHING := Expanded("", [])

  lemma {:induction false} AppendedConcat(before: Expanded, a: seq<PromptPiece>, b: seq<PromptPiece>)
    ensures AppendedAll(before, a + b) == AppendedAll(AppendedAll(before, a), b)
  {
    if b == [] {
      assert a + b == a;
    } else {
      assert (a + b)[..|a + b| - 1] == a + b[..|b| - 1];
      AppendedConcat(before, a, b[..|b| - 1]);
    }
  }

  method AppendAll(before: Expanded, pieces: seq<PromptPiece>) returns (after: Expanded)
    ensures after == AppendedAll(before, pieces)
  {
    after := before;
    for i := 0 to |pieces|
      invariant after == AppendedAll(before, pieces[..i])
    {
      assert pieces[..i + 1][..i] == pieces[..i];
      after := Appended(after, pieces[i]);
    }
    assert pieces[..|pieces|] == pieces;
  }

  lemma {:induction false} OneHole(before: seq<PromptPiece>, literal: PromptPiece, filled: seq<PromptPiece>)
    ensures AppendedAll(NOTHING, before + [literal] + filled) == AppendedAll(Appended(AppendedAll(NOTHING, before), literal), filled)
  {
    AppendedConcat(NOTHING, before, [literal]);
    AppendedConcat(NOTHING, before + [literal], filled);
    assert [literal][..0] == [];
  }

  /** `_expand_prompt`: one scan, spans recorded while the text grows. */
  method ExpandPrompt(template: string, values: map<string, seq<PromptPiece>>, source: Source) returns (r: Outcome<Expanded>)
    ensures r == var pieces := TemplatePieces(Scan(template), values, source);
                 if pieces.Ok? then Ok(AppendedAll(NOTHING, pieces.value)) else Err("PROMPT_TEMPLATE_INVALID")
  {
    var t := Scan(template);
    var done := NOTHING;
    ghost var pieces := [];
    for i := 0 to |t.holes|
      invariant PiecesUpTo(t, values, source, i) == Ok(pieces) && done == AppendedAll(NOTHING, pieces)
    {
      var (literal, hole) := t.holes[i];
      var filled := HolePieces(hole, values, source);
      if !filled.Ok? {
        NeverExpands(t, values, source, i + 1, |t.holes|);
        return Err("PROMPT_TEMPLATE_INVALID");
      }
      done := AppendAll(Appended(done, Literal(literal, source)), filled.value);
      OneHole(pieces, Literal(literal, source), filled.value);
      pieces := pieces + [Literal(literal, source)] + filled.value;
    }
    LastLiteral(pieces, Literal(t.tail, source));
    return Ok(Appended(done, Literal(t.tail, source)));
  }

  lemma {:induction false} LastLiteral(before: seq<PromptPiece>, literal: PromptPiece)
    ensures AppendedAll(NOTHING, before + [literal]) == Appended(AppendedAll(NOTHING, before), literal)
  {
    AppendedConcat(NOTHING, before, [literal]);
    assert [literal][..0] == [];
  }

  lemma {:induction false} NeverExpands(t: Template, values: map<string, seq<PromptPiece>>, source: Source, i: nat, n: nat)
    requires i <= n <= |t.holes| && PiecesUpTo(t, values, source, i).IsFailure()
    ensures PiecesUpTo(t, values, source, n).IsFailure()
  {
    if i < n {
      NeverExpands(t, values, source, i, n - 1);
    }
  }

  // ---------------------------------------------------------------- the values

  function AsPrompt(block: string, f: Fragment): PromptPiece {
    PromptPiece(block + ":" + f.id, f.content, f.sources, f.trust)
  }

  function AllAsPrompt(block: string, fragments: seq<Fragment>): seq<PromptPiece> {
    seq(|fragments|, i requires 0 <= i < |fragments| => AsPrompt(block, fragments[i]))
  }

  /** Entries without a time policy: their bodies, with a line break before each but the first. */
  function PlainPieces(block: string, es: seq<Entry>): seq<PromptPiece> {
    if es == [] then []
    else
      var n := |es| - 1;
      PlainPieces(block, es[..n])
      + (if n == 0 then [] else [PromptPiece(block + ":" + es[n].id + ":separator", "\n", es[n].sources, es[n].trust)])
      + [PromptPiece(block + ":" + es[n].id + ":body", es[n].body, es[n].sources, es[n].trust)]
  }

  /** `_history_pieces`; an empty block has a text and sources of its own. */
  function BlockPieces(policy: Option<Policy>, block: string, es: seq<Entry>, emptyText: string, emptySources: seq<Source>): Outcome<seq<PromptPiece>> {
    if es == [] then Ok([PromptPiece(block + ":empty", emptyText, emptySources, UntrustedData)])
    else if policy.None? then Ok(PlainPieces(block, es))
    else
      var annotated :- Annotated(policy.value, es, "\n");
      Ok(AllAsPrompt(block, annotated.fragments))
  }

  /** `_bounded_pieces`: one frame around the whole block. */
  function BoundedPieces(renderer: Option<Renderer>, block: string, pieces: seq<PromptPiece>): Outcome<seq<PromptPiece>> {
    if renderer.None? then Ok(pieces)
    else
      var rendered :- Wrap(renderer.value, block, seq(|pieces|, i requires 0 <= i < |pieces| =>
                             Piece(pieces[i].id, pieces[i].content, pieces[i].sources, pieces[i].trust, Some(pieces[i].id), Body)));
      Ok(seq(|rendered.fragments|, i requires 0 <= i < |rendered.fragments| =>
               PromptPiece(rendered.fragments[i].id, rendered.fragments[i].content, rendered.fragments[i].sources, rendered.fragments[i].trust)))
  }

  function Block(policy: Option<Policy>, renderer: Option<Renderer>, block: string, es: seq<Entry>, emptyText: string, emptySources: seq<Source>)
    : Outcome<seq<PromptPiece>>
  {
    var pieces :- BlockPieces(policy, block, es, emptyText, emptySources);
    BoundedPieces(renderer, block, pieces)
  }

  datatype Inputs = Inputs(
    persona: string, personaSource: Source, template: string, promptSource: Source,
    records: seq<Entry>, memories: seq<Entry>, overview: seq<Entry>, overviewText: string, documentSource: Source,
    contract: string, contractSource: Source)

  function Values(policy: Option<Policy>, renderer: Option<Renderer>, x: Inputs): Outcome<map<string, seq<PromptPiece>>> {
    var records :- Block(policy, renderer, "batch_records", x.records, "[]", []);
    var memories :- Block(policy, renderer, "existing_memories", x.memories, "[]", [x.documentSource]);
    var overview :- Block(policy, renderer, "current_overview", x.overview, x.overviewText, [x.documentSource]);
    Ok(NamedValues(renderer, x, records, memories, overview))
  }

  function NamedValues(renderer: Option<Renderer>, x: Inputs, records: seq<PromptPiece>, memories: seq<PromptPiece>, overview: seq<PromptPiece>)
    : map<string, seq<PromptPiece>>
  {
    map["batch_records" := records, "existing_memories" := memories, "current_overview" := overview,
        "curator_persona" := [PromptPiece("curator_persona", x.persona, [x.personaSource], TrustedInstruction)],
        "untrusted_boundary" := [PromptPiece("untrusted_boundary",
                                             if renderer.Some? then renderer.value.instruction else "untrusted_data",
                                             [if renderer.Some? then renderer.value.config else x.promptSource], TrustedInstruction)],
        "output_schema" := [PromptPiece("output_schema", x.contract, [x.contractSource], TrustedInstruction)]]
  }

  /** The system message: the persona, and with frames the text that explains them. */
  function SystemPrompt(renderer: Option<Renderer>, x: Inputs): seq<PromptPiece> {
    [PromptPiece("persona", x.persona, [x.personaSource], TrustedInstruction)]
    + (if renderer.None? then []
       else [PromptPiece("separator", "\n\n", [Source("generated:trusted-composition:curation-system", "trusted_prompt_composer")], TrustedInstruction),
             PromptPiece("untrusted-boundary-instruction", renderer.value.instruction, [renderer.value.config], TrustedInstruction)])
  }

  // ---------------------------------------------------------------- the parts

  function PromptPart(i: nat, order: nat, p: Positioned): RequestPart {
    RequestPart("curation:" + p.piece.id, order, Included, p.piece.trust, Some(ContentPointer(i)), Some((p.start, p.end)), p.piece.content, p.piece.sources)
  }

  function PromptParts(i: nat, order: nat, placed: seq<Positioned>): seq<RequestPart> {
    seq(|placed|, k requires 0 <= k < |placed| => PromptPart(i, order + k, placed[k]))
  }

  predicate Sourced(pieces: seq<PromptPiece>) {
    forall k | 0 <= k < |pieces| :: pieces[k].sources != []
  }

  lemma {:induction false} OnePlaced(i: nat, order: nat, e: Expanded, p: PromptPiece)
    requires Laid(i, order, e.text, PromptParts(i, order, e.placed)) && p.sources != []
    ensures var after := Appended(e, p); Laid(i, order, after.text, PromptParts(i, order, after.placed))
  {
    if p.content != "" {
      var more := Positioned(p, |e.text|, |e.text| + |p.content|);
      var part := PromptPart(i, order + |e.placed|, more);
      PlacedPush(i, order, e.text, PromptParts(i, order, e.placed), part);
      assert PromptParts(i, order, e.placed + [more]) == PromptParts(i, order, e.placed) + [part];
    }
  }

  /** The parts of placed pieces tile the text that placing them gave. */
  lemma {:induction false} PlacedAreLaid(i: nat, order: nat, pieces: seq<PromptPiece>)
    requires Sourced(pieces)
    ensures var e := AppendedAll(NOTHING, pieces); Laid(i, order, e.text, PromptParts(i, order, e.placed))
  {
    if pieces != [] {
      PlacedAreLaid(i, order, pieces[..|pieces| - 1]);
      OnePlaced(i, order, AppendedAll(NOTHING, pieces[..|pieces| - 1]), pieces[|pieces| - 1]);
    }
  }

  lemma {:induction false} LaidAttributes(i: nat, order: nat, text: string, parts: seq<RequestPart>)
    requires Laid(i, order, text, parts)
    ensures Assembly.Attributes(i, text, parts)
  {
  }

  lemma {:induction false} BlockIsSourced(policy: Option<Policy>, renderer: Option<Renderer>, block: string, es: seq<Entry>, emptyText: string, emptySources: seq<Source>)
    requires ValidEntries(es) && (es == [] ==> emptySources != []) && block != ""
    ensures var pieces := Block(policy, renderer, block, es, emptyText, emptySources); pieces.Ok? ==> Sourced(pieces.value)
  {
    var pieces := BlockPieces(policy, block, es, emptyText, emptySources);
    if pieces.Ok? {
      HistoryIsSourced(policy, block, es, emptyText, emptySources);
      BoundedIsSourced(renderer, block, pieces.value);
    }
  }

  lemma {:induction false} HistoryIsSourced(policy: Option<Policy>, block: string, es: seq<Entry>, emptyText: string, emptySources: seq<Source>)
    requires ValidEntries(es) && (es == [] ==> emptySources != [])
    ensures var pieces := BlockPieces(policy, block, es, emptyText, emptySources); pieces.Ok? ==> Sourced(pieces.value)
  {
    if es != [] {
      if policy.None? {
        PlainIsSourced(block, es);
      } else if Annotated(policy.value, es, "\n").Ok? {
        AnnotatedIsValid(policy.value, es, "\n");
      }
    }
  }

  lemma {:induction false} PlainIsSourced(block: string, es: seq<Entry>)
    requires ValidEntries(es)
    ensures Sourced(PlainPieces(block, es))
  {
    if es != [] {
      PlainIsSourced(block, es[..|es| - 1]);
    }
  }

  lemma {:induction false} BoundedIsSourced(renderer: Option<Renderer>, block: string, pieces: seq<PromptPiece>)
    requires Sourced(pieces)
    ensures var bounded := BoundedPieces(renderer, block, pieces); bounded.Ok? ==> Sourced(bounded.value)
  {
    if renderer.Some? && BoundedPieces(renderer, block, pieces).Ok? {
      var inner := seq(|pieces|, i requires 0 <= i < |pieces| =>
                         Piece(pieces[i].id, pieces[i].content, pieces[i].sources, pieces[i].trust, Some(pieces[i].id), Body));
      var framed := FramedPieces(renderer.value, block, inner);
      forall k | 0 <= k < |FragmentsOf(framed)| ensures FragmentsOf(framed)[k].sources != [] {
        var i := FragmentsComeFromPieces(framed, k);
      }
    }
  }

  predicate AllSourced(values: map<string, seq<PromptPiece>>) {
    forall name | name in values :: Sourced(values[name])
  }

  lemma {:induction false} NamedAreSourced(renderer: Option<Renderer>, x: Inputs, records: seq<PromptPiece>, memories: seq<PromptPiece>, overview: seq<PromptPiece>)
    requires Sourced(records) && Sourced(memories) && Sourced(overview)
    ensures AllSourced(NamedValues(renderer, x, records, memories, overview))
  {
  }

  lemma {:induction false} ValuesAreSourced(policy: Option<Policy>, renderer: Option<Renderer>, x: Inputs)
    requires ValidEntries(x.records) && ValidEntries(x.memories) && ValidEntries(x.overview) && x.records != []
    ensures var values := Values(policy, renderer, x); values.Ok? ==> AllSourced(values.value)
  {
    BlockIsSourced(policy, renderer, "batch_records", x.records, "[]", []);
    BlockIsSourced(policy, renderer, "existing_memories", x.memories, "[]", [x.documentSource]);
    BlockIsSourced(policy, renderer, "current_overview", x.overview, x.overviewText, [x.documentSource]);
    var records := Block(policy, renderer, "batch_records", x.records, "[]", []);
    var memories := Block(policy, renderer, "existing_memories", x.memories, "[]", [x.documentSource]);
    var overview := Block(policy, renderer, "current_overview", x.overview, x.overviewText, [x.documentSource]);
    if records.Ok? && memories.Ok? && overview.Ok? {
      NamedAreSourced(renderer, x, records.value, memories.value, overview.value);
    }
  }

  lemma {:induction false} TemplateIsSourced(t: Template, values: map<string, seq<PromptPiece>>, source: Source, n: nat)
    requires n <= |t.holes| && AllSourced(values)
    ensures var pieces := PiecesUpTo(t, values, source, n); pieces.Ok? ==> Sourced(pieces.value)
  {
    if n > 0 {
      TemplateIsSourced(t, values, source, n - 1);
    }
  }

  /** The curator's two messages and their parts, in one increasing order. */
  function CurationParts(renderer: Option<Renderer>, x: Inputs, prompt: Expanded): seq<RequestPart> {
    var system := AppendedAll(NOTHING, SystemPrompt(renderer, x));
    PromptParts(0, 0, system.placed) + PromptParts(1, |system.placed|, prompt.placed)
  }

  lemma {:induction false} TwoGroups(a: seq<RequestPart>, b: seq<RequestPart>, x: string, y: string)
    requires Laid(0, 0, x, a) && Laid(1, |a|, y, b)
    ensures Flatten([a, b]) == a + b && Grouping([x, y], [a, b], 0) && OrdersFrom(a + b, 0)
  {
    assert [a, b][..1] == [a] && [a][..0] == [];
    assert Flatten([a]) == [] + a;
    LaidAttributes(0, 0, x, a);
    LaidAttributes(1, |a|, y, b);
  }

  lemma {:induction false} SystemIsPlaced(renderer: Option<Renderer>, x: Inputs)
    requires x.persona != ""
    ensures AppendedAll(NOTHING, SystemPrompt(renderer, x)).placed != []
  {
    var persona := PromptPiece("persona", x.persona, [x.personaSource], TrustedInstruction);
    var rest := SystemPrompt(renderer, x)[1..];
    assert SystemPrompt(renderer, x) == [persona] + rest;
    AppendedConcat(NOTHING, [persona], rest);
    assert [persona][..0] == [];
    PlacedGrow(Appended(NOTHING, persona), rest);
  }

  lemma {:induction false} PlacedGrow(before: Expanded, pieces: seq<PromptPiece>)
    ensures |AppendedAll(before, pieces).placed| >= |before.placed|
  {
    if pieces != [] {
      PlacedGrow(before, pieces[..|pieces| - 1]);
    }
  }

  /** Whatever the template, the frames, the time policy and the entries: an expanded curation
      prompt passes `validate_provenance`, and every character of both messages has one part. */
  lemma {:induction false} CurationIsAccepted(reader: Reader, policy: Option<Policy>, renderer: Option<Renderer>, x: Inputs,
                                              others: map<string, Json>, fields: map<string, Json>)
    requires ReadsNumerals(reader) && x.persona != "" && x.records != []
    requires ValidEntries(x.records) && ValidEntries(x.memories) && ValidEntries(x.overview)
    requires var values := Values(policy, renderer, x); values.Ok? && TemplatePieces(Scan(x.template), values.value, x.promptSource).Ok?
    ensures var values := Values(policy, renderer, x).value;
            var prompt := AppendedAll(NOTHING, TemplatePieces(Scan(x.template), values, x.promptSource).value);
            var system := AppendedAll(NOTHING, SystemPrompt(renderer, x));
            var payload := Payload([system.text, prompt.text], others, fields);
            var parts := CurationParts(renderer, x, prompt);
            Attributed(reader, payload, parts) && EachCharOnce(reader, payload, IncludedParts(parts))
  {
    var values := Values(policy, renderer, x).value;
    var pieces := TemplatePieces(Scan(x.template), values, x.promptSource).value;
    ValuesAreSourced(policy, renderer, x);
    TemplateIsSourced(Scan(x.template), values, x.promptSource, |Scan(x.template).holes|);
    PromptAccepted(reader, renderer, x, pieces, others, fields);
  }

  lemma {:induction false} PromptAccepted(reader: Reader, renderer: Option<Renderer>, x: Inputs, pieces: seq<PromptPiece>,
                                          others: map<string, Json>, fields: map<string, Json>)
    requires ReadsNumerals(reader) && x.persona != "" && Sourced(pieces)
    ensures var prompt, system := AppendedAll(NOTHING, pieces), AppendedAll(NOTHING, SystemPrompt(renderer, x));
            var payload := Payload([system.text, prompt.text], others, fields);
            var parts := CurationParts(renderer, x, prompt);
            Attributed(reader, payload, parts) && EachCharOnce(reader, payload, IncludedParts(parts))
  {
    var prompt, system := AppendedAll(NOTHING, pieces), AppendedAll(NOTHING, SystemPrompt(renderer, x));
    var contents := [system.text, prompt.text];
    var a, b := PromptParts(0, 0, system.placed), PromptParts(1, |system.placed|, prompt.placed);
    PlacedAreLaid(0, 0, SystemPrompt(renderer, x));
    PlacedAreLaid(1, |system.placed|, pieces);
    SystemIsPlaced(renderer, x);
    TwoGroups(a, b, system.text, prompt.text);
    GroupsPass(reader, contents, [a, b], others, fields);
  }

  lemma {:induction false} GroupsPass(reader: Reader, contents: seq<string>, groups: seq<seq<RequestPart>>, others: map<string, Json>, fields: map<string, Json>)
    requires ReadsNumerals(reader) && Grouping(contents, groups, 0) && OrdersFrom(Flatten(groups), 0)
    requires Flatten(groups) != [] && Flatten(groups)[0].participation.Included?
    ensures var payload := Payload(contents, others, fields);
            Attributed(reader, payload, Flatten(groups)) && EachCharOnce(reader, payload, IncludedParts(Flatten(groups)))
  {
    var payload, all := Payload(contents, others, fields), Flatten(groups);
    forall i | 0 <= i < |contents| ensures Resolve(reader, payload, ContentPointer(i)) == Some(JString(contents[i])) {
      ContentResolves(reader, contents, others, fields, i);
    }
    assert all[0] in all;
    SomethingIncluded(all, all[0]);
    GroupsAccepted(reader, payload, contents, groups);
    MessagesSeparate(reader, contents, others, fields, all);
    EachCharOnceIff(reader, payload, all);
  }
}
