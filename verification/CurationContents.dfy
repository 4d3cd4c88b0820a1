/** What is in the curator's prompt: the template as written, with each hole filled by the text
    that belongs to its name. */
module CurationContents {
  import opened Outcomes
  import opened Boundaries
  import opened Temporal
  import opened PromptContents
  import opened CurationPrompt

  // ---------------------------------------------------------------- texts of pieces

  function Spoken(pieces: seq<PromptPiece>): string {
    if pieces == [] then "" else Spoken(pieces[..|pieces| - 1]) + pieces[|pieces| - 1].content
  }

  lemma {:induction false} SpokenConcat(a: seq<PromptPiece>, b: seq<PromptPiece>)
    ensures Spoken(a + b) == Spoken(a) + Spoken(b)
  {
    if b == [] {
      assert a + b == a;
    } else {
      assert (a + b)[..|a + b| - 1] == a + b[..|b| - 1];
      SpokenConcat(a, b[..|b| - 1]);
    }
  }

  lemma {:induction false} SpokenOne(p: PromptPiece)
    ensures Spoken([p]) == p.content
  {
    assert [p][..0] == [];
  }

  /** Placing pieces writes their contents one after the other. */
  lemma {:induction false} PlacedText(before: Expanded, pieces: seq<PromptPiece>)
    ensures AppendedAll(before, pieces).text == before.text + Spoken(pieces)
  {
    if pieces != [] {
      PlacedText(before, pieces[..|pieces| - 1]);
    }
  }

  // ---------------------------------------------------------------- the template

  predicate Fillable(hole: Hole, texts: map<string, string>) {
    match hole
    case Escaped => true
    case Named(name) => name in texts
    case Braced(name) => name in texts
    case Invalid => false
  }

  ghost predicate AllFillable(holes: seq<(string, Hole)>, texts: map<string, string>) {
    forall k | 0 <= k < |holes| :: Fillable(holes[k].1, texts)
  }

  function HoleFilled(hole: Hole, texts: map<string, string>): string
    requires Fillable(hole, texts)
  {
    match hole
    case Escaped => "$"
    case Named(name) => texts[name]
    case Braced(name) => texts[name]
  }

  /** Each literal as written, `$$` as one dollar sign, each name as its text. */
  function Filled(holes: seq<(string, Hole)>, texts: map<string, string>): string
    requires forall k | 0 <= k < |holes| :: Fillable(holes[k].1, texts)
  {
    if holes == [] then ""
    else Filled(holes[..|holes| - 1], texts) + holes[|holes| - 1].0 + HoleFilled(holes[|holes| - 1].1, texts)
  }

  function TextsOf(values: map<string, seq<PromptPiece>>): map<string, string> {
    map name | name in values :: Spoken(values[name])
  }

  lemma {:induction false} HoleReads(hole: Hole, values: map<string, seq<PromptPiece>>, source: Source)
    ensures var pieces := HolePieces(hole, values, source);
            && (pieces.Ok? <==> Fillable(hole, TextsOf(values))) && !pieces.Crashed?
            && (pieces.Ok? ==> Spoken(pieces.value) == HoleFilled(hole, TextsOf(values)))
  {
    SpokenOne(Literal("$", source));
  }

  lemma {:induction false} OneMoreHole(t: Template, values: map<string, seq<PromptPiece>>, source: Source, n: nat)
    requires n < |t.holes|
    ensures var before, filled := PiecesUpTo(t, values, source, n), HolePieces(t.holes[n].1, values, source);
            var pieces := PiecesUpTo(t, values, source, n + 1);
            && (pieces.Ok? <==> before.Ok? && filled.Ok?)
            && (pieces.Ok? ==> Spoken(pieces.value) == Spoken(before.value) + t.holes[n].0 + Spoken(filled.value))
  {
    var literal := Literal(t.holes[n].0, source);
    var before, filled := PiecesUpTo(t, values, source, n), HolePieces(t.holes[n].1, values, source);
    if before.Ok? && filled.Ok? {
      SpokenOne(literal);
      SpokenConcat(before.value, [literal]);
      SpokenConcat(before.value + [literal], filled.value);
    }
  }

  lemma {:induction false} HolesRead(t: Template, values: map<string, seq<PromptPiece>>, source: Source, n: nat)
    requires n <= |t.holes|
    ensures var pieces, texts := PiecesUpTo(t, values, source, n), TextsOf(values);
            && (pieces.Ok? <==> AllFillable(t.holes[..n], texts)) && (pieces.Ok? ==> Spoken(pieces.value) == Filled(t.holes[..n], texts))
  {
    if n > 0 {
      var holes := t.holes[..n];
      HolesRead(t, values, source, n - 1);
      HoleReads(t.holes[n - 1].1, values, source);
      OneMoreHole(t, values, source, n - 1);
      assert holes[..n - 1] == t.holes[..n - 1] && holes[n - 1] == t.holes[n - 1];
      FillableFront(holes, TextsOf(values));
      FilledPush(holes, TextsOf(values), PiecesUpTo(t, values, source, n), PiecesUpTo(t, values, source, n - 1), HolePieces(t.holes[n - 1].1, values, source));
    }
  }

  lemma {:induction false} FilledPush(holes: seq<(string, Hole)>, texts: map<string, string>,
                                      all: Outcome<seq<PromptPiece>>, before: Outcome<seq<PromptPiece>>, filled: Outcome<seq<PromptPiece>>)
    requires holes != [] && (all.Ok? <==> before.Ok? && filled.Ok?)
    requires (before.Ok? <==> AllFillable(holes[..|holes| - 1], texts)) && (filled.Ok? <==> Fillable(holes[|holes| - 1].1, texts))
    requires AllFillable(holes, texts) <==> AllFillable(holes[..|holes| - 1], texts) && Fillable(holes[|holes| - 1].1, texts)
    requires before.Ok? ==> Spoken(before.value) == Filled(holes[..|holes| - 1], texts)
    requires filled.Ok? ==> Spoken(filled.value) == HoleFilled(holes[|holes| - 1].1, texts)
    requires all.Ok? ==> Spoken(all.value) == Spoken(before.value) + holes[|holes| - 1].0 + Spoken(filled.value)
    ensures (all.Ok? <==> AllFillable(holes, texts)) && (all.Ok? ==> Spoken(all.value) == Filled(holes, texts))
  {
  }

  lemma {:induction false} FillableFront(holes: seq<(string, Hole)>, texts: map<string, string>)
    requires holes != []
    ensures AllFillable(holes, texts) <==> AllFillable(holes[..|holes| - 1], texts) && Fillable(holes[|holes| - 1].1, texts)
  {
    assert forall k | 0 <= k < |holes| - 1 :: holes[..|holes| - 1][k] == holes[k];
  }

  /** The expansion succeeds exactly when every hole names a value, and then reads as the
      template with its holes filled. */
  lemma {:induction false} ExpandedReads(t: Template, values: map<string, seq<PromptPiece>>, source: Source)
    ensures var pieces, texts := TemplatePieces(t, values, source), TextsOf(values);
            && (pieces.Ok? <==> AllFillable(t.holes, texts))
            && (pieces.Ok? ==> AppendedAll(NOTHING, pieces.value).text == Filled(t.holes, texts) + t.tail)
  {
    var n, tail := |t.holes|, Literal(t.tail, source);
    HolesRead(t, values, source, n);
    assert t.holes[..n] == t.holes;
    var front := PiecesUpTo(t, values, source, n);
    if front.Ok? {
      SpokenOne(tail);
      SpokenConcat(front.value, [tail]);
      PlacedText(NOTHING, front.value + [tail]);
    }
  }

  // ---------------------------------------------------------------- the values

  function BodiesBelow(es: seq<Entry>): string {
    if es == [] then ""
    else BodiesBelow(es[..|es| - 1]) + (if |es| == 1 then "" else "\n") + es[|es| - 1].body
  }

  /** The text of a block: its entries, annotated or one below the other, or its own text. */
  function BlockText(policy: Option<Policy>, es: seq<Entry>, emptyText: string): string {
    if es == [] then emptyText
    else if policy.None? then BodiesBelow(es)
    else TextOf(HistoryPieces(policy.value, es, "\n"))
  }

  lemma {:induction false} PlainReads(block: string, es: seq<Entry>)
    ensures Spoken(PlainPieces(block, es)) == BodiesBelow(es)
  {
    if es != [] {
      var n := |es| - 1;
      var line := if n == 0 then [] else [PromptPiece(block + ":" + es[n].id + ":separator", "\n", es[n].sources, es[n].trust)];
      var body := PromptPiece(block + ":" + es[n].id + ":body", es[n].body, es[n].sources, es[n].trust);
      PlainReads(block, es[..n]);
      if n > 0 {
        SpokenOne(line[0]);
      }
      SpokenOne(body);
      SpokenConcat(PlainPieces(block, es[..n]), line);
      SpokenConcat(PlainPieces(block, es[..n]) + line, [body]);
    }
  }

  lemma {:induction false} FragmentsRead(block: string, fragments: seq<Fragment>)
    ensures Spoken(AllAsPrompt(block, fragments)) == Contents(fragments)
  {
    if fragments != [] {
      assert AllAsPrompt(block, fragments)[..|fragments| - 1] == AllAsPrompt(block, fragments[..|fragments| - 1]);
      FragmentsRead(block, fragments[..|fragments| - 1]);
    }
  }

  lemma {:induction false} BlockReads(policy: Option<Policy>, block: string, es: seq<Entry>, emptyText: string, emptySources: seq<Source>)
    ensures var pieces := BlockPieces(policy, block, es, emptyText, emptySources);
            pieces.Ok? ==> Spoken(pieces.value) == BlockText(policy, es, emptyText)
  {
    if es == [] {
      SpokenOne(PromptPiece(block + ":empty", emptyText, emptySources, UntrustedData));
    } else if policy.None? {
      PlainReads(block, es);
    } else if Annotated(policy.value, es, "\n").Ok? {
      var h := Annotated(policy.value, es, "\n").value;
      PositionTiles(HistoryPieces(policy.value, es, "\n"));
      TilesMeansConcatenation(h.text, h.fragments);
      FragmentsRead(block, h.fragments);
    }
  }

  function AsInner(pieces: seq<PromptPiece>): seq<Piece> {
    seq(|pieces|, i requires 0 <= i < |pieces| => Piece(pieces[i].id, pieces[i].content, pieces[i].sources, pieces[i].trust, Some(pieces[i].id), Body))
  }

  lemma {:induction false} InnerReads(pieces: seq<PromptPiece>)
    ensures TextOf(AsInner(pieces)) == Spoken(pieces)
  {
    if pieces != [] {
      assert AsInner(pieces)[..|pieces| - 1] == AsInner(pieces[..|pieces| - 1]);
      InnerReads(pieces[..|pieces| - 1]);
    }
  }

  function AsPieces(fragments: seq<Fragment>): seq<PromptPiece> {
    seq(|fragments|, i requires 0 <= i < |fragments| => PromptPiece(fragments[i].id, fragments[i].content, fragments[i].sources, fragments[i].trust))
  }

  lemma {:induction false} AsPiecesRead(fragments: seq<Fragment>)
    ensures Spoken(AsPieces(fragments)) == Contents(fragments)
  {
    if fragments != [] {
      assert AsPieces(fragments)[..|fragments| - 1] == AsPieces(fragments[..|fragments| - 1]);
      AsPiecesRead(fragments[..|fragments| - 1]);
    }
  }

  lemma {:induction false} BoundedReads(renderer: Option<Renderer>, block: string, pieces: seq<PromptPiece>)
    ensures var bounded := BoundedPieces(renderer, block, pieces); bounded.Ok? ==> Spoken(bounded.value) == Framed(renderer, block, Spoken(pieces))
  {
    if renderer.Some? && ValidBlockName(block) {
      InnerReads(pieces);
      WrapTiles(renderer.value, block, AsInner(pieces));
      var w := Wrap(renderer.value, block, AsInner(pieces)).value;
      TilesMeansConcatenation(w.text, w.fragments);
      AsPiecesRead(w.fragments);
      BoundedIs(renderer.value, block, pieces, w);
    }
  }

  lemma {:induction false} BoundedIs(r: Renderer, block: string, pieces: seq<PromptPiece>, w: Rendered)
    requires Wrap(r, block, AsInner(pieces)) == Ok(w)
    ensures BoundedPieces(Some(r), block, pieces) == Ok(AsPieces(w.fragments))
  {
    assert AsInner(pieces) == seq(|pieces|, i requires 0 <= i < |pieces| =>
                                    Piece(pieces[i].id, pieces[i].content, pieces[i].sources, pieces[i].trust, Some(pieces[i].id), Body));
    assert seq(|w.fragments|, i requires 0 <= i < |w.fragments| =>
                 PromptPiece(w.fragments[i].id, w.fragments[i].content, w.fragments[i].sources, w.fragments[i].trust)) == AsPieces(w.fragments);
  }

  lemma {:induction false} ValueReads(policy: Option<Policy>, renderer: Option<Renderer>, block: string, es: seq<Entry>, emptyText: string, emptySources: seq<Source>)
    ensures var value := Block(policy, renderer, block, es, emptyText, emptySources);
            value.Ok? ==> Spoken(value.value) == Framed(renderer, block, BlockText(policy, es, emptyText))
  {
    BlockReads(policy, block, es, emptyText, emptySources);
    var pieces := BlockPieces(policy, block, es, emptyText, emptySources);
    if pieces.Ok? {
      BoundedReads(renderer, block, pieces.value);
    }
  }

  /** Which text belongs to which name. */
  function NamedTexts(policy: Option<Policy>, renderer: Option<Renderer>, x: Inputs): map<string, string> {
    map["batch_records" := Framed(renderer, "batch_records", BlockText(policy, x.records, "[]")),
        "existing_memories" := Framed(renderer, "existing_memories", BlockText(policy, x.memories, "[]")),
        "current_overview" := Framed(renderer, "current_overview", BlockText(policy, x.overview, x.overviewText)),
        "curator_persona" := x.persona,
        "untrusted_boundary" := if renderer.Some? then renderer.value.instruction else "untrusted_data",
        "output_schema" := x.contract]
  }

  lemma {:induction false} NamesRead(policy: Option<Policy>, renderer: Option<Renderer>, x: Inputs,
                                     records: seq<PromptPiece>, memories: seq<PromptPiece>, overview: seq<PromptPiece>)
    requires Spoken(records) == Framed(renderer, "batch_records", BlockText(policy, x.records, "[]"))
    requires Spoken(memories) == Framed(renderer, "existing_memories", BlockText(policy, x.memories, "[]"))
    requires Spoken(overview) == Framed(renderer, "current_overview", BlockText(policy, x.overview, x.overviewText))
    ensures TextsOf(NamedValues(renderer, x, records, memories, overview)) == NamedTexts(policy, renderer, x)
  {
    var values := NamedValues(renderer, x, records, memories, overview);
    SpokenOne(values["curator_persona"][0]);
    SpokenOne(values["untrusted_boundary"][0]);
    SpokenOne(values["output_schema"][0]);
    SameTexts(TextsOf(values), NamedTexts(policy, renderer, x));
  }

  lemma {:induction false} SameTexts(a: map<string, string>, b: map<string, string>)
    requires a.Keys == b.Keys && forall name | name in a :: a[name] == b[name]
    ensures a == b
  {
  }

  lemma {:induction false} ValuesRead(policy: Option<Policy>, renderer: Option<Renderer>, x: Inputs)
    requires Values(policy, renderer, x).Ok?
    ensures TextsOf(Values(policy, renderer, x).value) == NamedTexts(policy, renderer, x)
  {
    var records := Block(policy, renderer, "batch_records", x.records, "[]", []);
    var memories := Block(policy, renderer, "existing_memories", x.memories, "[]", [x.documentSource]);
    var overview := Block(policy, renderer, "current_overview", x.overview, x.overviewText, [x.documentSource]);
    ValueReads(policy, renderer, "batch_records", x.records, "[]", []);
    ValueReads(policy, renderer, "existing_memories", x.memories, "[]", [x.documentSource]);
    ValueReads(policy, renderer, "current_overview", x.overview, x.overviewText, [x.documentSource]);
    NamesRead(policy, renderer, x, records.value, memories.value, overview.value);
  }

  /** The curator's prompt: the template with its holes filled by the texts that belong there, the
      records of the batch, the memories and the overview among them; and the system message. */
  lemma {:induction false} CurationReads(policy: Option<Policy>, renderer: Option<Renderer>, x: Inputs)
    requires Values(policy, renderer, x).Ok?
    ensures var t, texts := Scan(x.template), NamedTexts(policy, renderer, x);
            var pieces := TemplatePieces(t, Values(policy, renderer, x).value, x.promptSource);
            && (pieces.Ok? <==> AllFillable(t.holes, texts))
            && (pieces.Ok? ==> AppendedAll(NOTHING, pieces.value).text == Filled(t.holes, texts) + t.tail)
    ensures AppendedAll(NOTHING, SystemPrompt(renderer, x)).text
            == if renderer.None? then x.persona else x.persona + "\n\n" + renderer.value.instruction
  {
    ValuesRead(policy, renderer, x);
    ExpandedReads(Scan(x.template), Values(policy, renderer, x).value, x.promptSource);
    SystemReads(renderer, x);
  }

  lemma {:induction false} SystemReads(renderer: Option<Renderer>, x: Inputs)
    ensures AppendedAll(NOTHING, SystemPrompt(renderer, x)).text
            == if renderer.None? then x.persona else x.persona + "\n\n" + renderer.value.instruction
  {
    var all := SystemPrompt(renderer, x);
    PlacedText(NOTHING, all);
    SpokenOne(all[0]);
    if renderer.Some? {
      assert all == [all[0]] + [all[1]] + [all[2]];
      SpokenConcat([all[0]], [all[1]]);
      SpokenConcat([all[0]] + [all[1]], [all[2]]);
      SpokenOne(all[1]);
      SpokenOne(all[2]);
    } else {
      assert all == [all[0]];
    }
  }
}
