/** `prompting/boundaries.py`: laying pieces of text end to end, and the frames around
    untrusted text. */
module Boundaries {
  import opened Outcomes

  /** Where a text came from; only the producer and the identity matter here. */
  datatype Source = Source(id: string, producer: string)

  datatype Trust = TrustedInstruction | TrustedMetadata | UserInstruction | UntrustedData

  datatype FragmentKind = Marker | TrustedTimeMetadata | Body | Separator

  datatype Fragment = Fragment(
    id: string, kind: FragmentKind, entryId: string, start: int, end: int, content: string,
    sources: seq<Source>, trust: Trust)

  /** A piece of text that has no position yet. */
  datatype Piece = Piece(
    id: string, content: string, sources: seq<Source>, trust: Trust, entryId: Option<string>, kind: FragmentKind)

  datatype Rendered = Rendered(text: string, fragments: seq<Fragment>)

  /** `AnnotatedFragment`'s validator. */
  predicate ValidFragment(f: Fragment) {
    && f.id != "" && f.entryId != "" && f.start >= 0 && f.sources != []
    && f.end - f.start == |f.content|
    && (f.kind.Marker? ==> f.trust.UntrustedData?)
    && (f.kind.TrustedTimeMetadata? ==> f.trust.TrustedMetadata?)
  }

  /** The fragments cut the text into consecutive non-empty stretches, each read back exactly. */
  predicate Tiles(text: string, fragments: seq<Fragment>) {
    && (fragments == [] ==> text == "")
    && (fragments != [] ==> fragments[0].start == 0 && fragments[|fragments| - 1].end == |text|)
    && (forall i, j | 0 <= i < |fragments| && 0 <= j < |fragments| && j == i + 1 :: fragments[j].start == fragments[i].end)
    && (forall i | 0 <= i < |fragments| ::
          0 <= fragments[i].start < fragments[i].end <= |text|
          && text[fragments[i].start..fragments[i].end] == fragments[i].content)
  }

  function Contents(fragments: seq<Fragment>): string {
    if fragments == [] then "" else Contents(fragments[..|fragments| - 1]) + fragments[|fragments| - 1].content
  }

  /** Tiling means that the contents, in order, are the text. */
  lemma {:induction false} TilesMeansConcatenation(text: string, fragments: seq<Fragment>)
    requires Tiles(text, fragments)
    ensures Contents(fragments) == text
  {
    if fragments != [] {
      var n := |fragments| - 1;
      var front, cut := fragments[..n], fragments[n].start;
      assert Tiles(text[..cut], front) by {
        forall i | 0 <= i < n ensures front[i].end <= cut && text[..cut][front[i].start..front[i].end] == front[i].content {
          EndsBefore(text, fragments, i, n);
          assert text[..cut][front[i].start..front[i].end] == text[front[i].start..front[i].end];
        }
      }
      TilesMeansConcatenation(text[..cut], front);
    }
  }

  lemma {:induction false} EndsBefore(text: string, fragments: seq<Fragment>, i: nat, n: nat)
    requires Tiles(text, fragments) && i < n < |fragments|
    ensures fragments[i].end <= fragments[n].start
    decreases n - i
  {
    if i + 1 < n {
      EndsBefore(text, fragments, i + 1, n);
    }
  }

  // ---------------------------------------------------------------- positioning

  function TextOf(pieces: seq<Piece>): string {
    if pieces == [] then "" else TextOf(pieces[..|pieces| - 1]) + pieces[|pieces| - 1].content
  }

  function Placed(p: Piece, start: nat): Fragment {
    Fragment(p.id, p.kind, if p.entryId.Some? && p.entryId.value != "" then p.entryId.value else p.id, start, start + |p.content|,
             p.content, p.sources, p.trust)
  }

  /** The fragments of the non-empty pieces, each at the end of the text before it. */
  function FragmentsOf(pieces: seq<Piece>): seq<Fragment> {
    if pieces == [] then []
    else
      var front, p := pieces[..|pieces| - 1], pieces[|pieces| - 1];
      FragmentsOf(front) + (if p.content == "" then [] else [Placed(p, |TextOf(front)|)])
  }

  function Position(pieces: seq<Piece>): Rendered {
    Rendered(TextOf(pieces), FragmentsOf(pieces))
  }

  method PositionPieces(pieces: seq<Piece>) returns (r: Rendered)
    ensures r == Position(pieces)
    ensures Tiles(r.text, r.fragments)
  {
    var text := "";
    var fragments: seq<Fragment> := [];
    var cursor := 0;
    for i := 0 to |pieces|
      invariant text == TextOf(pieces[..i]) && fragments == FragmentsOf(pieces[..i])
      invariant cursor == |text|
    {
      assert pieces[..i + 1][..i] == pieces[..i];
      var piece := pieces[i];
      if piece.content != "" {
        var start := cursor;
        text := text + piece.content;
        cursor := cursor + |piece.content|;
        fragments := fragments + [Placed(piece, start)];
      }
    }
    assert pieces[..|pieces|] == pieces;
    PositionTiles(pieces);
    return Rendered(text, fragments);
  }

  lemma {:induction false} TilesPush(text: string, fragments: seq<Fragment>, f: Fragment)
    requires Tiles(text, fragments)
    requires f.content != "" && f.start == |text| && f.end == |text| + |f.content|
    ensures Tiles(text + f.content, fragments + [f])
  {
    var more, all := text + f.content, fragments + [f];
    forall i | 0 <= i < |fragments| ensures more[all[i].start..all[i].end] == all[i].content {
      assert more[all[i].start..all[i].end] == text[fragments[i].start..fragments[i].end];
    }
    assert more[|text|..|text| + |f.content|] == f.content;
  }

  /** Whatever the pieces, their positions tile the whole text. */
  lemma {:induction false} PositionTiles(pieces: seq<Piece>)
    ensures Tiles(TextOf(pieces), FragmentsOf(pieces))
  {
    if pieces != [] {
      var front, p := pieces[..|pieces| - 1], pieces[|pieces| - 1];
      PositionTiles(front);
      if p.content != "" {
        TilesPush(TextOf(front), FragmentsOf(front), Placed(p, |TextOf(front)|));
      }
    }
  }

  lemma {:induction false} TextOfConcat(a: seq<Piece>, b: seq<Piece>)
    ensures TextOf(a + b) == TextOf(a) + TextOf(b)
  {
    if b == [] {
      assert a + b == a;
    } else {
      assert (a + b)[..|a + b| - 1] == a + b[..|b| - 1];
      TextOfConcat(a, b[..|b| - 1]);
    }
  }

  predicate ValidPiece(p: Piece) {
    && p.id != "" && p.sources != [] && (p.kind.Marker? ==> p.trust.UntrustedData?)
    && (p.kind.TrustedTimeMetadata? ==> p.trust.TrustedMetadata?)
  }

  /** Every fragment comes from a piece, with its sources and its trust. */
  lemma {:induction false} FragmentsComeFromPieces(pieces: seq<Piece>, k: nat) returns (i: nat)
    requires k < |FragmentsOf(pieces)|
    ensures i < |pieces| && var f := FragmentsOf(pieces)[k];
            f.content == pieces[i].content && f.sources == pieces[i].sources && f.trust == pieces[i].trust && f.kind == pieces[i].kind
            && (ValidPiece(pieces[i]) ==> ValidFragment(f))
  {
    var n := |pieces| - 1;
    if k < |FragmentsOf(pieces[..n])| {
      i := FragmentsComeFromPieces(pieces[..n], k);
    } else {
      i := n;
    }
  }

  // ---------------------------------------------------------------- pieces from fragments

  function PieceOf(f: Fragment): Piece {
    Piece(f.id, f.content, f.sources, f.trust, Some(f.entryId), f.kind)
  }

  function PiecesOf(fragments: seq<Fragment>): seq<Piece> {
    seq(|fragments|, i requires 0 <= i < |fragments| => PieceOf(fragments[i]))
  }

  lemma {:induction false} PiecesText(fragments: seq<Fragment>)
    ensures TextOf(PiecesOf(fragments)) == Contents(fragments)
  {
    if fragments != [] {
      var n := |fragments| - 1;
      assert PiecesOf(fragments)[..n] == PiecesOf(fragments[..n]);
      PiecesText(fragments[..n]);
    }
  }

  /** Positioning the pieces of a tiling gives the same fragments back. */
  lemma {:induction false} PositionInvertsPieces(text: string, fragments: seq<Fragment>)
    requires Tiles(text, fragments) && forall i | 0 <= i < |fragments| :: ValidFragment(fragments[i])
    ensures Position(PiecesOf(fragments)) == Rendered(text, fragments)
  {
    TilesMeansConcatenation(text, fragments);
    PiecesText(fragments);
    SameFragments(text, fragments, |fragments|);
    assert PiecesOf(fragments)[..|fragments|] == PiecesOf(fragments);
  }

  lemma {:induction false} SameFragments(text: string, fragments: seq<Fragment>, n: nat)
    requires Tiles(text, fragments) && n <= |fragments| && forall i | 0 <= i < |fragments| :: ValidFragment(fragments[i])
    ensures FragmentsOf(PiecesOf(fragments)[..n]) == fragments[..n]
    ensures |TextOf(PiecesOf(fragments)[..n])| == if n == |fragments| then |text| else fragments[n].start
  {
    if n > 0 {
      SameFragments(text, fragments, n - 1);
      assert PiecesOf(fragments)[..n][..n - 1] == PiecesOf(fragments)[..n - 1];
    }
  }

  // ---------------------------------------------------------------- frames

  /** The boundary text and the eight hexadecimal digits of the digest that tag a frame. */
  datatype Renderer = Renderer(config: Source, instruction: string, tag: (string, string) -> string)

  predicate BlockChar(c: char, first: bool) {
    'a' <= c <= 'z' || '0' <= c <= '9' || (!first && c in ['_', '.', ':', '-'])
  }

  /** `^[a-z0-9][a-z0-9_.:-]*$` on the whole name. */
  predicate ValidBlockName(name: string) {
    name != "" && BlockChar(name[0], true) && forall c | c in name :: BlockChar(c, false)
  }

  function Opening(r: Renderer, block: string, content: string): string {
    "[UNTRUSTED " + block + "#" + r.tag(block, content) + "]\n"
  }

  function Closing(r: Renderer, block: string, content: string): string {
    "[/UNTRUSTED " + block + "#" + r.tag(block, content) + "]"
  }

  function BeforeClose(content: string): string {
    if content != "" && content[|content| - 1] == '\n' then "" else "\n"
  }

  function Frame(r: Renderer, block: string, id: string, text: string): Piece {
    Piece(block + id, text, [r.config, Source("generated:untrusted-boundary:" + block, "untrusted_boundary_renderer")],
          TrustedInstruction, Some(block), Separator)
  }

  function FramedPieces(r: Renderer, block: string, inner: seq<Piece>): seq<Piece> {
    var content := TextOf(inner);
    [Frame(r, block, ":untrusted-boundary-open", Opening(r, block, content))] + inner
    + [Frame(r, block, ":untrusted-boundary-close-separator", BeforeClose(content)),
       Frame(r, block, ":untrusted-boundary-close", Closing(r, block, content))]
  }

  /** `wrap`: one pair of boundaries, tagged with a digest of the block name and the content. */
  function Wrap(r: Renderer, block: string, inner: seq<Piece>): Outcome<Rendered> {
    if !ValidBlockName(block) then Err("VALUE_ERROR") else Ok(Position(FramedPieces(r, block, inner)))
  }

  function RenderedLength(r: Renderer, block: string, content: string): Outcome<nat> {
    if !ValidBlockName(block) then Err("VALUE_ERROR")
    else Ok(|Opening(r, block, content)| + |content| + |BeforeClose(content)| + |Closing(r, block, content)|)
  }

  lemma {:induction false} FramedText(r: Renderer, block: string, inner: seq<Piece>)
    ensures var content := TextOf(inner);
            TextOf(FramedPieces(r, block, inner)) == Opening(r, block, content) + content + BeforeClose(content) + Closing(r, block, content)
  {
    var content := TextOf(inner);
    var head := [Frame(r, block, ":untrusted-boundary-open", Opening(r, block, content))];
    var a, b := Frame(r, block, ":untrusted-boundary-close-separator", BeforeClose(content)), Frame(r, block, ":untrusted-boundary-close", Closing(r, block, content));
    TextOfConcat(head, inner);
    TextOfConcat(head + inner, [a, b]);
    assert [a, b][..1] == [a] && head[..0] == [] && [a][..0] == [];
    assert TextOf(head) == Opening(r, block, content);
    assert TextOf([a]) == BeforeClose(content);
    assert TextOf([a, b]) == BeforeClose(content) + Closing(r, block, content);
  }

  /** `rendered_length` is the length of what `wrap` gives, for every block and every content;
      and the two refuse the same block names. */
  lemma {:induction false} RenderedLengthIsExact(r: Renderer, block: string, inner: seq<Piece>)
    ensures RenderedLength(r, block, TextOf(inner)).Ok? <==> Wrap(r, block, inner).Ok?
    ensures Wrap(r, block, inner).Ok? ==> RenderedLength(r, block, TextOf(inner)) == Ok(|Wrap(r, block, inner).value.text|)
  {
    FramedText(r, block, inner);
  }

  /** The framed content is between the boundaries, and the fragments tile the whole. */
  lemma {:induction false} WrapTiles(r: Renderer, block: string, inner: seq<Piece>)
    requires ValidBlockName(block)
    ensures var w := Wrap(r, block, inner);
            && w.Ok? && Tiles(w.value.text, w.value.fragments) && w.value.fragments != []
            && w.value.text == Opening(r, block, TextOf(inner)) + TextOf(inner) + BeforeClose(TextOf(inner)) + Closing(r, block, TextOf(inner))
  {
    FramedText(r, block, inner);
    PositionTiles(FramedPieces(r, block, inner));
  }

  lemma {:induction false} FramedValid(r: Renderer, block: string, inner: seq<Piece>)
    requires forall i | 0 <= i < |inner| :: ValidPiece(inner[i])
    ensures forall i | 0 <= i < |FramedPieces(r, block, inner)| :: ValidPiece(FramedPieces(r, block, inner)[i])
  {
    var all := FramedPieces(r, block, inner);
    forall i | 0 <= i < |all| ensures ValidPiece(all[i]) {
      if 1 <= i <= |inner| {
        assert all[i] == inner[i - 1];
      }
    }
  }

  lemma {:induction false} PositionValid(pieces: seq<Piece>)
    requires forall i | 0 <= i < |pieces| :: ValidPiece(pieces[i])
    ensures forall k | 0 <= k < |FragmentsOf(pieces)| :: ValidFragment(FragmentsOf(pieces)[k])
  {
    forall k | 0 <= k < |FragmentsOf(pieces)| ensures ValidFragment(FragmentsOf(pieces)[k]) {
      var i := FragmentsComeFromPieces(pieces, k);
    }
  }
}
