/** The decoder of KeyDecoder in front of the editor of LineEditor. */
module TtyInput {
  import opened Outcomes
  import opened Folds
  import opened Utf8Decoding
  import opened LineEditor
  import opened KeyDecoder

  /** What the program asks of a character: its glyph, `isprintable`, and whether it is kept
      although it is not printable (a tab, a blank, a format character). */
  datatype Face = Face(glyph: Glyph, printable: bool, kept: bool)

  type Font = Piece -> Face

  const PASTE_START: seq<Byte> := [0x1B, 0x5B, 0x32, 0x30, 0x30, 0x7E]
  const PASTE_END: seq<Byte> := [0x1B, 0x5B, 0x32, 0x30, 0x31, 0x7E]
  const KITTY_SHIFT_ENTER: seq<Byte> := [0x1B, 0x5B, 0x31, 0x33, 0x3B, 0x32, 0x75]
  const LEGACY_SHIFT_ENTER: seq<Byte> := [0x1B, 0x0D]

  function GlyphsFor(font: Font, pieces: seq<Piece>): seq<Glyph> {
    seq(|pieces|, i requires 0 <= i < |pieces| => font(pieces[i]).glyph)
  }

  /** `str.isprintable`: every character is. */
  predicate AllPrintable(font: Font, pieces: seq<Piece>) {
    forall i | 0 <= i < |pieces| :: font(pieces[i]).printable
  }

  /** `_handle_escape` and the character tests of `_handle_char`, on what was decoded. */
  function KeyOf(font: Font, t: Token): Key {
    match t
    case Escape(raw) =>
      if raw == PASTE_START then PasteStart
      else if raw == PASTE_END then PasteEnd
      else if raw == KITTY_SHIFT_ENTER || raw == LEGACY_SHIFT_ENTER then ShiftEnter
      else Ignored
    case Character(raw) =>
      var pieces := Lenient(raw);
      if |pieces| > 1 then Garbled(GlyphsFor(font, pieces), AllPrintable(font, pieces))
      else CharacterKey(raw, font(pieces[0]))
  }

  function CharacterKey(raw: Bytes, face: Face): Key {
    if raw == [0x0D] then Enter
    else if raw == [0x0A] then LineBreak
    else if raw == [0x7F] || raw == [0x08] then Erase(face.glyph)
    else if raw == [0x04] then EndOfInput(face.glyph)
    else Char(face.glyph, face.printable || face.kept)
  }

  function KeysOf(font: Font, tokens: seq<Token>): seq<Key> {
    seq(|tokens|, i requires 0 <= i < |tokens| => KeyOf(font, tokens[i]))
  }

  // ---------------------------------------------------------------- one chunk

  function PasteAfter(paste: bool, key: Key): bool {
    if key.PasteStart? then true else if key.PasteEnd? then false else paste
  }

  function PasteAll(paste: bool, keys: seq<Key>): bool {
    Final(PasteAfter, paste, keys)
  }

  /** What the loop of `_feed` handles, what stays pending, and whether a key ends it. */
  datatype Fed = Fed(keys: seq<Key>, rest: seq<Byte>, raised: bool)

  function FeedRun(font: Font, paste: bool, pending: seq<Byte>): Fed
    decreases |pending|
  {
    var t := Next(pending);
    if t.None? then Fed([], pending, false)
    else
      var key, rest := KeyOf(font, t.value), pending[|t.value.raw|..];
      if Raises(paste, key) then Fed([], rest, true)
      else After(key, FeedRun(font, PasteAfter(paste, key), rest))
  }

  function After(key: Key, fed: Fed): Fed {
    fed.(keys := [key] + fed.keys)
  }

  /** What was handled before, and the run that goes on. */
  function Continued(done: seq<Key>, fed: Fed): Fed {
    fed.(keys := done + fed.keys)
  }

  class TtyInputSource {
    const font: Font
    const decoder: Decoder
    const editor: TtyLineEditor

    constructor (font: Font, screen: Screen)
      ensures editor.Valid() && fresh(decoder) && fresh(editor) && this.font == font
      ensures decoder.pending == [] && editor.Edited() == EditState([], false, []) && editor.start == screen && editor.echoed == []
    {
      this.font := font;
      decoder := new Decoder();
      editor := new TtyLineEditor(screen);
    }

    /** `_feed`: every sequence that the pending bytes complete is handled and the rest waits,
        unless a sequence raises: then it is gone, and what is behind it waits. */
    method Feed(chunk: seq<Byte>) returns (raised: bool)
      requires editor.Valid()
      modifies decoder, editor
      ensures var e := old(editor.Edited());
              var fed := FeedRun(font, e.paste, old(decoder.pending) + chunk);
              && editor.Valid() && decoder.pending == fed.rest && raised == fed.raised
              && editor.Edited() == EditsAll(e, fed.keys) && editor.echoed == old(editor.echoed) + EchoAll(e, fed.keys, editor.start.width)
              && forall origin | Drawn(origin, old(editor.buffer), old(editor.screen)) && DrawsAll(e, fed.keys) ::
                   Drawn(OriginAll(origin, e, fed.keys), editor.buffer, editor.screen)
    {
      ghost var e, out := editor.Edited(), editor.echoed;
      raised := FeedEach(chunk);
      DrawnAfter(editor.start, out, e, FeedRun(font, e.paste, old(decoder.pending) + chunk).keys);
    }

    method FeedEach(chunk: seq<Byte>) returns (raised: bool)
      requires editor.Valid()
      modifies decoder, editor
      ensures var e := old(editor.Edited());
              var fed := FeedRun(font, e.paste, old(decoder.pending) + chunk);
              && editor.Valid() && decoder.pending == fed.rest && raised == fed.raised
              && editor.Edited() == EditsAll(e, fed.keys) && editor.echoed == old(editor.echoed) + EchoAll(e, fed.keys, editor.start.width)
    {
      decoder.pending := decoder.pending + chunk;
      ghost var e, out, keys := editor.Edited(), editor.echoed, [];
      ghost var all := FeedRun(font, e.paste, decoder.pending);
      raised := false;
      assert out + [] == out;
      while decoder.pending != []
        invariant editor.Valid() && editor.Edited() == EditsAll(e, keys) && editor.echoed == out + EchoAll(e, keys, editor.start.width)
        invariant all == Continued(keys, FeedRun(font, editor.pasteMode, decoder.pending)) && !raised
        decreases |decoder.pending|
      {
        var key;
        key, raised := HandleNext();
        if key.None? || raised {
          break;
        }
        NextKey(e, out, keys, key.value, editor.start.width, FeedRun(font, editor.pasteMode, decoder.pending));
        keys := keys + [key.value];
      }
      EndOfRun(keys, Fed([], decoder.pending, raised));
    }

    /** One turn of the loop. */
    method HandleNext() returns (key: Option<Key>, raised: bool)
      requires editor.Valid() && decoder.pending != []
      modifies decoder, editor
      ensures editor.Valid() && (raised ==> key.Some?) && (key.Some? ==> |decoder.pending| < |old(decoder.pending)|)
      ensures key.None? || raised ==> editor.Edited() == old(editor.Edited()) && editor.echoed == old(editor.echoed)
      ensures key.None? || raised ==> FeedRun(font, old(editor.pasteMode), old(decoder.pending)) == Fed([], decoder.pending, raised)
      ensures key.Some? && !raised ==>
                && editor.Edited() == Edits(old(editor.Edited()), key.value)
                && editor.echoed == old(editor.echoed) + EchoOf(old(editor.Edited()), key.value, editor.start.width)
                && FeedRun(font, old(editor.pasteMode), old(decoder.pending)) == After(key.value, FeedRun(font, editor.pasteMode, decoder.pending))
    {
      ghost var e := editor.Edited();
      var token := decoder.Consume();
      if token.None? {
        return None, false;
      }
      var k := KeyOf(font, token.value);
      key := Some(k);
      raised := editor.Handle(k);
      if raised {
        RaisedIsQuiet(e, k, editor.start.width);
      }
      assert Edits(e, k).paste == PasteAfter(e.paste, k);
    }
  }

  lemma {:induction false} RaisedIsQuiet(e: EditState, key: Key, width: nat)
    requires Raises(e.paste, key)
    ensures Edits(e, key) == e && EchoOf(e, key, width) == []
  {
  }

  lemma {:induction false} EndOfRun(done: seq<Key>, fed: Fed)
    requires fed.keys == []
    ensures Continued(done, fed) == fed.(keys := done)
  {
  }

  lemma {:induction false} NextKey(e: EditState, out: seq<Output>, keys: seq<Key>, key: Key, width: nat, fed: Fed)
    ensures Continued(keys, After(key, fed)) == Continued(keys + [key], fed)
    ensures EditsAll(e, keys + [key]) == Edits(EditsAll(e, keys), key)
    ensures out + EchoAll(e, keys + [key], width) == out + EchoAll(e, keys, width) + EchoOf(EditsAll(e, keys), key, width)
  {
    OneMoreKey(Edits, Echoing(width), e, keys, key);
    assert keys + ([key] + fed.keys) == (keys + [key]) + fed.keys;
    Joined(out, EchoAll(e, keys, width), EchoOf(EditsAll(e, keys), key, width));
  }

  // ---------------------------------------------------------------- when a chunk is cut short

  lemma {:induction false} PasteIsEdited(e: EditState, keys: seq<Key>)
    ensures EditsAll(e, keys).paste == PasteAll(e.paste, keys)
  {
    if keys != [] {
      PasteIsEdited(e, keys[..|keys| - 1]);
    }
  }

  lemma {:induction false} PasteFirst(paste: bool, key: Key, keys: seq<Key>)
    ensures PasteAll(paste, [key] + keys) == PasteAll(PasteAfter(paste, key), keys)
  {
    FoldConcat(PasteAfter, (p, k) => [k], paste, [key], keys);
    assert [key][..0] == [];
  }

  /** The keys of a run are those of the decoded sequences, up to the first that raises. */
  ghost predicate RunOf(paste: bool, keys: seq<Key>, rest: seq<Byte>, fed: Fed) {
    if fed.raised then |fed.keys| < |keys| && fed.keys == keys[..|fed.keys|] && Raises(PasteAll(paste, fed.keys), keys[|fed.keys|])
    else fed.keys == keys && fed.rest == rest
  }

  lemma {:induction false} RunStep(paste: bool, key: Key, keys: seq<Key>, rest: seq<Byte>, fed: Fed)
    requires RunOf(PasteAfter(paste, key), keys, rest, fed)
    ensures RunOf(paste, [key] + keys, rest, After(key, fed))
  {
    PasteFirst(paste, key, fed.keys);
    if fed.raised {
      assert ([key] + keys)[..1 + |fed.keys|] == [key] + keys[..|fed.keys|];
    }
  }

  lemma {:induction false} KeysConcat(font: Font, a: seq<Token>, b: seq<Token>)
    ensures KeysOf(font, a + b) == KeysOf(font, a) + KeysOf(font, b)
  {
  }

  lemma {:induction false} RunIsDecode(font: Font, paste: bool, p: seq<Byte>)
    ensures RunOf(paste, KeysOf(font, Decode(p).tokens), Decode(p).rest, FeedRun(font, paste, p))
    decreases |p|
  {
    if Next(p).Some? {
      var t := Next(p).value;
      var rest := p[|t.raw|..];
      KeysConcat(font, [t], Decode(rest).tokens);
      assert KeysOf(font, [t]) == [KeyOf(font, t)];
      if !Raises(paste, KeyOf(font, t)) {
        RunIsDecode(font, PasteAfter(paste, KeyOf(font, t)), rest);
        RunStep(paste, KeyOf(font, t), KeysOf(font, Decode(rest).tokens), Decode(rest).rest, FeedRun(font, PasteAfter(paste, KeyOf(font, t)), rest));
      }
    }
  }

  /** No key of a run raises. */
  lemma {:induction false} RunIsQuiet(font: Font, paste: bool, p: seq<Byte>, i: nat)
    requires i < |FeedRun(font, paste, p).keys|
    ensures var keys := FeedRun(font, paste, p).keys; !Raises(PasteAll(paste, keys[..i]), keys[i])
    decreases |p|
  {
    var key := KeyOf(font, Next(p).value);
    var rest := p[|Next(p).value.raw|..];
    var after := FeedRun(font, PasteAfter(paste, key), rest);
    if i > 0 {
      RunIsQuiet(font, PasteAfter(paste, key), rest, i - 1);
      PasteFirst(paste, key, after.keys[..i - 1]);
      assert ([key] + after.keys)[..i] == [key] + after.keys[..i - 1];
    } else {
      assert FeedRun(font, paste, p).keys[..0] == [];
    }
  }

  /** The sequence at `i` ends `_feed`: it is a malformed one of several bytes, one of the
      characters that replace it is not printable, and it is not pasted. */
  ghost predicate CutsShort(font: Font, paste: bool, tokens: seq<Token>, i: nat)
    requires i < |tokens|
  {
    && tokens[i].Character? && |tokens[i].raw| > 1 && !WellFormed(tokens[i].raw)
    && !AllPrintable(font, Lenient(tokens[i].raw)) && !PasteAll(paste, KeysOf(font, tokens)[..i])
  }

  lemma {:induction false} NextAnnounces(p: seq<Byte>)
    requires Next(p).Some? && Next(p).value.Character?
    ensures var raw := Next(p).value.raw; |raw| == Utf8Length(raw[0])
  {
  }

  lemma {:induction false} TokensAnnounce(p: seq<Byte>, i: nat)
    requires i < |Decode(p).tokens| && Decode(p).tokens[i].Character?
    ensures var raw := Decode(p).tokens[i].raw; |raw| == Utf8Length(raw[0])
    decreases |p|
  {
    var rest := p[|Next(p).value.raw|..];
    assert Decode(p).tokens == [Next(p).value] + Decode(rest).tokens;
    if i == 0 {
      NextAnnounces(p);
    } else {
      TokensAnnounce(rest, i - 1);
    }
  }

  lemma {:induction false} RaisesWhen(font: Font, paste: bool, p: seq<Byte>, i: nat)
    requires i < |Decode(p).tokens|
    ensures var tokens := Decode(p).tokens;
            Raises(PasteAll(paste, KeysOf(font, tokens)[..i]), KeyOf(font, tokens[i])) <==> CutsShort(font, paste, tokens, i)
  {
    if Decode(p).tokens[i].Character? {
      TokensAnnounce(p, i);
      OneCharacterIff(Decode(p).tokens[i].raw);
    }
  }

  /** The whole stream: `_feed` is cut short if and only if it meets a malformed sequence of
      several bytes that becomes unprintable characters, outside a paste. */
  lemma {:induction false} CutShortIff(font: Font, paste: bool, p: seq<Byte>)
    ensures FeedRun(font, paste, p).raised <==> exists i | 0 <= i < |Decode(p).tokens| :: CutsShort(font, paste, Decode(p).tokens, i)
  {
    var tokens, fed := Decode(p).tokens, FeedRun(font, paste, p);
    RunIsDecode(font, paste, p);
    if fed.raised {
      RaisesWhen(font, paste, p, |fed.keys|);
    } else {
      forall i | 0 <= i < |tokens| ensures !CutsShort(font, paste, tokens, i) {
        RaisesWhen(font, paste, p, i);
        RunIsQuiet(font, paste, p, i);
      }
    }
  }

  /** Well-formed text is never cut short. */
  lemma {:induction false} TextIsHandled(font: Font, paste: bool, p: seq<Byte>)
    requires forall i | 0 <= i < |Decode(p).tokens| && Decode(p).tokens[i].Character? :: |Decode(p).tokens[i].raw| == 1 || WellFormed(Decode(p).tokens[i].raw)
    ensures FeedRun(font, paste, p) == Fed(KeysOf(font, Decode(p).tokens), Decode(p).rest, false)
  {
    CutShortIff(font, paste, p);
    RunIsDecode(font, paste, p);
  }

  // ---------------------------------------------------------------- chunks

  /** Two chunks, the second after what the first left. */
  function FedTwice(font: Font, paste: bool, p: seq<Byte>, q: seq<Byte>): Fed {
    var first := FeedRun(font, paste, p);
    Continued(first.keys, FeedRun(font, PasteAll(paste, first.keys), first.rest + q))
  }

  lemma {:induction false} FedTwiceStep(font: Font, paste: bool, p: seq<Byte>, q: seq<Byte>)
    requires Next(p).Some? && !Raises(paste, KeyOf(font, Next(p).value))
    ensures var key := KeyOf(font, Next(p).value);
            FedTwice(font, paste, p, q) == After(key, FedTwice(font, PasteAfter(paste, key), p[|Next(p).value.raw|..], q))
  {
    var key, rest := KeyOf(font, Next(p).value), p[|Next(p).value.raw|..];
    var first := FeedRun(font, PasteAfter(paste, key), rest);
    PasteFirst(paste, key, first.keys);
    var second := FeedRun(font, PasteAll(PasteAfter(paste, key), first.keys), first.rest + q);
    assert ([key] + first.keys) + second.keys == [key] + (first.keys + second.keys);
  }

  /** A cut changes nothing before the sequence that raises; behind it, the bytes that were
      dropped with one chunk are handled with two. */
  lemma {:induction false} CutRuns(font: Font, paste: bool, p: seq<Byte>, q: seq<Byte>)
    requires AllShort(Decode(p + q).tokens)
    ensures var first, whole := FeedRun(font, paste, p), FeedRun(font, paste, p + q);
            if first.raised then whole == Fed(first.keys, first.rest + q, true) else whole == FedTwice(font, paste, p, q)
    decreases |p|
  {
    if Next(p).None? {
      assert FeedRun(font, paste, p) == Fed([], p, false);
      EndOfRun([], Fed([], p, false));
      var whole := FeedRun(font, paste, p + q);
      assert [] + whole.keys == whole.keys;
    } else {
      NextExtends(p, q);
      ShortTail(p + q);
      var key, n := KeyOf(font, Next(p).value), |Next(p).value.raw|;
      assert (p + q)[n..] == p[n..] + q;
      if !Raises(paste, key) {
        CutRuns(font, PasteAfter(paste, key), p[n..], q);
        FedTwiceStep(font, paste, p, q);
      }
    }
  }

  /** The editor after some chunks: its state, all it has echoed, and the bytes left over. */
  datatype Typing = Typing(edited: EditState, echoed: seq<Output>, rest: seq<Byte>)

  function TypedChunk(font: Font, before: Typing, width: nat, chunk: seq<Byte>): Typing {
    var fed := FeedRun(font, before.edited.paste, before.rest + chunk);
    Typing(EditsAll(before.edited, fed.keys), before.echoed + EchoAll(before.edited, fed.keys, width), fed.rest)
  }

  /** Typing chunk by chunk, as `Feed` does it. */
  function TypedAll(font: Font, e: EditState, width: nat, chunks: seq<seq<Byte>>): Typing {
    if chunks == [] then Typing(e, [], [])
    else TypedChunk(font, TypedAll(font, e, width, chunks[..|chunks| - 1]), width, chunks[|chunks| - 1])
  }

  /** What `fed` makes of a fresh start from `e`. */
  function TypedRun(e: EditState, width: nat, fed: Fed): Typing {
    Typing(EditsAll(e, fed.keys), EchoAll(e, fed.keys, width), fed.rest)
  }

  lemma {:induction false} EditsConcat(e: EditState, a: seq<Key>, b: seq<Key>, width: nat)
    ensures EditsAll(e, a + b) == EditsAll(EditsAll(e, a), b)
    ensures EchoAll(e, a + b, width) == EchoAll(e, a, width) + EchoAll(EditsAll(e, a), b, width)
  {
    FoldConcat(Edits, Echoing(width), e, a, b);
  }

  lemma {:induction false} SecondChunk(font: Font, e: EditState, width: nat, p: seq<Byte>, q: seq<Byte>)
    ensures TypedChunk(font, TypedRun(e, width, FeedRun(font, e.paste, p)), width, q) == TypedRun(e, width, FedTwice(font, e.paste, p, q))
  {
    var first := FeedRun(font, e.paste, p);
    PasteIsEdited(e, first.keys);
    EditsConcat(e, first.keys, FeedRun(font, PasteAll(e.paste, first.keys), first.rest + q).keys, width);
  }

  lemma {:induction false} OneChunk(font: Font, e: EditState, width: nat, p: seq<Byte>)
    ensures TypedAll(font, e, width, [p]) == TypedRun(e, width, FeedRun(font, e.paste, p))
  {
    assert [p][..0] == [];
    assert [] + p == p;
    var keys := FeedRun(font, e.paste, p).keys;
    assert [] + EchoAll(e, keys, width) == EchoAll(e, keys, width);
  }

  lemma {:induction false} ChunksRun(font: Font, e: EditState, width: nat, chunks: seq<seq<Byte>>)
    requires AllShort(Decode(Concat(chunks)).tokens) && !FeedRun(font, e.paste, Concat(chunks)).raised
    ensures TypedAll(font, e, width, chunks) == TypedRun(e, width, FeedRun(font, e.paste, Concat(chunks)))
  {
    if chunks != [] {
      var front, last := chunks[..|chunks| - 1], chunks[|chunks| - 1];
      PrefixTokens(Concat(front), last);
      CutRuns(font, e.paste, Concat(front), last);
      ChunksRun(font, e, width, front);
      SecondChunk(font, e, width, Concat(front), last);
    }
  }

  /** However the bytes of one stream arrive, the buffer, the paste mode, the lines handed in,
      the echo and the bytes left over are those of the whole stream, when nothing in it cuts
      `_feed` short; and so is the screen, which is the picture of the buffer when all that is
      typed can be drawn. */
  lemma {:induction false} TypingIsChunkIndependent(font: Font, e: EditState, screen: Screen, chunks: seq<seq<Byte>>)
    requires AllShort(Decode(Concat(chunks)).tokens)
    requires forall i | 0 <= i < |Decode(Concat(chunks)).tokens| :: !CutsShort(font, e.paste, Decode(Concat(chunks)).tokens, i)
    ensures var all, keys := TypedAll(font, e, screen.width, chunks), KeysOf(font, Decode(Concat(chunks)).tokens);
            && all == TypedAll(font, e, screen.width, [Concat(chunks)])
            && all == Typing(EditsAll(e, keys), EchoAll(e, keys, screen.width), Decode(Concat(chunks)).rest)
            && forall origin | Drawn(origin, e.buffer, screen) && DrawsAll(e, keys) ::
                 Drawn(OriginAll(origin, e, keys), all.edited.buffer, EmulateAll(screen, all.echoed))
  {
    CutShortIff(font, e.paste, Concat(chunks));
    RunIsDecode(font, e.paste, Concat(chunks));
    ChunksRun(font, e, screen.width, chunks);
    OneChunk(font, e, screen.width, Concat(chunks));
    DrawnByAll(e, KeysOf(font, Decode(Concat(chunks)).tokens), screen);
  }

  lemma {:induction false} RestShrinks(font: Font, paste: bool, p: seq<Byte>)
    ensures var fed := FeedRun(font, paste, p);
            if Next(p).None? then fed == Fed([], p, false) else |fed.rest| < |p|
    decreases |p|
  {
    if Next(p).Some? && !Raises(paste, KeyOf(font, Next(p).value)) {
      RestShrinks(font, PasteAfter(paste, KeyOf(font, Next(p).value)), p[|Next(p).value.raw|..]);
    }
  }

  /** Two chunks against one, exactly: they agree if and only if the first is not cut short, or
      is and the bytes behind complete no sequence. */
  lemma {:induction false} CutAgreesIff(font: Font, e: EditState, width: nat, p: seq<Byte>, q: seq<Byte>)
    requires AllShort(Decode(p + q).tokens)
    ensures TypedAll(font, e, width, [p, q]) == TypedAll(font, e, width, [p + q])
            <==> !FeedRun(font, e.paste, p).raised || Next(FeedRun(font, e.paste, p).rest + q).None?
  {
    var first := FeedRun(font, e.paste, p);
    assert [p, q][..1] == [p];
    OneChunk(font, e, width, p);
    OneChunk(font, e, width, p + q);
    SecondChunk(font, e, width, p, q);
    CutRuns(font, e.paste, p, q);
    RestShrinks(font, PasteAll(e.paste, first.keys), first.rest + q);
    EndOfRun(first.keys, Fed([], first.rest + q, false));
  }

  // ---------------------------------------------------------------- a stream for which chunks matter

  lemma {:induction false} OneByte(b: Byte)
    requires b < 0x80
    ensures Lenient([b]) == [Scalar([b])]
  {
    WholeFront([b]);
  }

  lemma {:induction false} LetterDecodes(raw: seq<Byte>)
    requires raw == [0xE9, 0x0D, 0x41]
    ensures Lenient(raw) == [Replacement, Scalar([0x0D]), Scalar([0x41])]
  {
    assert raw[1..] == [0x0D, 0x41] && raw[1..][..1] == [0x0D] && raw[1..][1..] == [0x41];
    OneByte(0x41);
    assert Lenient(raw[1..]) == [Scalar([0x0D])] + Lenient([0x41]);
    assert Lenient(raw) == [Replacement] + Lenient(raw[1..]);
  }

  lemma {:induction false} LetterRaises(font: Font, raw: seq<Byte>, more: seq<Byte>)
    requires raw == [0xE9, 0x0D, 0x41] && !font(Scalar([0x0D])).printable
    ensures FeedRun(font, false, raw + more) == Fed([], more, true)
  {
    var p := raw + more;
    LetterDecodes(raw);
    assert p[0] == 0xE9 && p[..3] == raw && p[3..] == more;
    assert Next(p).Some? && Next(p).value == Character(raw);
    assert !font(Lenient(raw)[1]).printable;
  }

  lemma {:induction false} LetterTyped(font: Font, p: seq<Byte>)
    requires p == [0x42] && font(Scalar([0x42])).printable
    ensures FeedRun(font, false, p) == Fed([Char(font(Scalar([0x42])).glyph, true)], [], false)
  {
    OneByte(0x42);
    assert p[..1] == p && p[1..] == [];
    assert FeedRun(font, false, []) == Fed([], [], false);
  }

  lemma {:induction false} LetterAlone(font: Font, e: EditState, width: nat, p: seq<Byte>, more: seq<Byte>)
    requires p == [0xE9, 0x0D, 0x41] && e == EditState([], false, []) && !font(Scalar([0x0D])).printable
    ensures TypedAll(font, e, width, [p + more]) == Typing(e, [], more)
  {
    LetterRaises(font, p, more);
    OneChunk(font, e, width, p + more);
    LetterEdits(e, Glyph("", 0), width);
  }

  lemma {:induction false} LetterThen(font: Font, e: EditState, width: nat, p: seq<Byte>, q: seq<Byte>)
    requires p == [0xE9, 0x0D, 0x41] && q == [0x42] && e == EditState([], false, [])
    requires !font(Scalar([0x0D])).printable && font(Scalar([0x42])).printable
    ensures var glyph := font(Scalar([0x42])).glyph;
            TypedAll(font, e, width, [p, q]) == Typing(EditState([Text(glyph)], false, []), [Put(glyph)], [])
  {
    var glyph := font(Scalar([0x42])).glyph;
    LetterAlone(font, e, width, p, []);
    assert p + [] == p && [p, q][..1] == [p];
    LetterTyped(font, q);
    LetterEdits(e, glyph, width);
    assert [] + q == q && [] + [Put(glyph)] == [Put(glyph)];
    assert TypedChunk(font, Typing(e, [], []), width, q) == Typing(EditState([Text(glyph)], false, []), [Put(glyph)], []);
  }

  /** A Latin-1 letter, Enter, and "AB": in one chunk only the B is left, and it waits; it is
      typed when it comes in a chunk of its own. */
  lemma {:induction false} LatinLetter(font: Font, width: nat)
    requires !font(Scalar([0x0D])).printable && font(Scalar([0x42])).printable
    ensures var e, glyph := EditState([], false, []), font(Scalar([0x42])).glyph;
            && TypedAll(font, e, width, [[0xE9, 0x0D, 0x41, 0x42]]) == Typing(e, [], [0x42])
            && TypedAll(font, e, width, [[0xE9, 0x0D, 0x41], [0x42]]) == Typing(EditState([Text(glyph)], false, []), [Put(glyph)], [])
  {
    var e, p, q := EditState([], false, []), [0xE9, 0x0D, 0x41], [0x42];
    LetterAlone(font, e, width, p, q);
    LetterThen(font, e, width, p, q);
    assert p + q == [0xE9, 0x0D, 0x41, 0x42];
  }

  lemma {:induction false} LetterEdits(e: EditState, glyph: Glyph, width: nat)
    requires e == EditState([], false, [])
    ensures EditsAll(e, []) == e && EchoAll(e, [], width) == []
    ensures EditsAll(e, [Char(glyph, true)]) == EditState([Text(glyph)], false, [])
    ensures EchoAll(e, [Char(glyph, true)], width) == [Put(glyph)]
  {
    assert [] + [Char(glyph, true)] == [Char(glyph, true)];
    OneMoreKey(Edits, Echoing(width), e, [], Char(glyph, true));
    assert EchoOf(e, Char(glyph, true), width) == [Put(glyph)];
  }
}
