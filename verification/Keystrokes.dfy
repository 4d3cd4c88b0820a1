/** From bytes to the state of the editor: what each key does, spelled out byte by byte, and
    what a whole line of text does. */
module Keystrokes {
  import opened Outcomes
  import opened Folds
  import opened Utf8Decoding
  import opened LineEditor
  import opened KeyDecoder
  import opened TtyInput

  // ---------------------------------------------------------------- what one sequence does

  /** The entry that a decoded sequence becomes when it is typed. */
  ghost predicate IsEntry(font: Font, raw: Bytes, item: Item) {
    var pieces := Lenient(raw);
    if |pieces| == 1 then item == Text(font(pieces[0]).glyph)
    else item.Malformed? && |item.glyphs| == |pieces| && forall i | 0 <= i < |pieces| :: item.glyphs[i] == font(pieces[i]).glyph
  }

  predicate Adds(e: EditState, item: Item, f: EditState) {
    f == EditState(e.buffer + [item], e.paste, e.results)
  }

  /** An entry of several characters stands in the last line. */
  ghost predicate LineStuck(buffer: seq<Item>) {
    exists i :: 0 <= i < |buffer| && buffer[i].Malformed? && forall k | i < k < |buffer| :: !buffer[k].Newline?
  }

  /** Inside a paste both line ends are line breaks, and everything else is typed. */
  ghost predicate Pasted(font: Font, e: EditState, raw: Bytes, f: EditState) {
    if raw == [0x0D] || raw == [0x0A] then Adds(e, Newline, f) else exists item :: IsEntry(font, raw, item) && Adds(e, item, f)
  }

  /** A character that means nothing else is typed when it can be printed, or is one of those
      that are kept; several characters at once, when all can be printed. */
  ghost predicate Typable(font: Font, raw: Bytes) {
    var pieces := Lenient(raw);
    if |pieces| == 1 then font(pieces[0]).printable || font(pieces[0]).kept
    else forall i | 0 <= i < |pieces| :: font(pieces[i]).printable
  }

  /** Outside a paste: CR hands the buffer in, LF breaks the line, DEL and BS take the last entry
      away, EOT hands in what there is or says that there is nothing. */
  ghost predicate Struck(font: Font, e: EditState, raw: Bytes, f: EditState) {
    if raw == [0x0D] then f == EditState([], false, e.results + [Some(e.buffer)])
    else if raw == [0x0A] then Adds(e, Newline, f)
    else if raw == [0x7F] || raw == [0x08] then
      f == if e.buffer == [] || LineStuck(e.buffer) then e else EditState(e.buffer[..|e.buffer| - 1], false, e.results)
    else if raw == [0x04] then
      f == if e.buffer != [] then EditState([], false, e.results + [Some(e.buffer)]) else EditState([], false, e.results + [None])
    else if Typable(font, raw) then exists item :: IsEntry(font, raw, item) && Adds(e, item, f)
    else f == e
  }

  /** ESC [ 2 0 0 ~ starts a paste and ESC [ 2 0 1 ~ ends it; outside one ESC [ 1 3 ; 2 u and ESC
      CR break the line; no other sequence does anything. */
  predicate Escaped(e: EditState, raw: Bytes, f: EditState) {
    if raw == [0x1B, 0x5B, 0x32, 0x30, 0x30, 0x7E] then f == EditState(e.buffer, true, e.results)
    else if raw == [0x1B, 0x5B, 0x32, 0x30, 0x31, 0x7E] then f == EditState(e.buffer, false, e.results)
    else if !e.paste && (raw == [0x1B, 0x5B, 0x31, 0x33, 0x3B, 0x32, 0x75] || raw == [0x1B, 0x0D]) then Adds(e, Newline, f)
    else f == e
  }

  ghost predicate Does(font: Font, e: EditState, t: Token, f: EditState) {
    match t
    case Escape(raw) => Escaped(e, raw, f)
    case Character(raw) => if e.paste then Pasted(font, e, raw, f) else Struck(font, e, raw, f)
  }

  // ---------------------------------------------------------------- and the editor does it

  lemma {:induction false} StuckIff(items: seq<Item>)
    ensures LineStuck(items) <==> !Plain(items[StartOfLine(items)..])
  {
    var start := StartOfLine(items);
    if LineStuck(items) {
      var i :| 0 <= i < |items| && items[i].Malformed? && forall k | i < k < |items| :: !items[k].Newline?;
      assert items[start..][i - start] == items[i];
    }
    if !Plain(items[start..]) {
      var k :| 0 <= k < |items[start..]| && items[start..][k].Malformed?;
      assert items[start + k].Malformed?;
      forall h | start + k < h < |items| ensures !items[h].Newline? {
        assert items[start..][h - start] == items[h];
      }
    }
  }

  lemma {:induction false} NewlineEnds(items: seq<Item>)
    requires items != [] && items[|items| - 1].Newline?
    ensures !LineStuck(items)
  {
  }

  lemma {:induction false} ErasedIs(items: seq<Item>)
    requires items != []
    ensures Erased(items) == if LineStuck(items) then items else items[..|items| - 1]
  {
    StuckIff(items);
    if items[|items| - 1].Newline? {
      NewlineEnds(items);
    }
  }

  lemma {:induction false} EscapeDoes(font: Font, e: EditState, raw: Bytes)
    ensures Escaped(e, raw, Edits(e, KeyOf(font, Escape(raw))))
  {
  }

  /** The four bytes that mean something by themselves are one character. */
  lemma {:induction false} ControlIsOne(raw: Bytes)
    requires raw == [0x0D] || raw == [0x0A] || raw == [0x7F] || raw == [0x08] || raw == [0x04]
    ensures Lenient(raw) == [Scalar(raw)]
  {
    WholeFront(raw);
  }

  lemma {:induction false} ControlDoes(font: Font, e: EditState, raw: Bytes)
    requires raw == [0x0D] || raw == [0x0A] || raw == [0x7F] || raw == [0x08] || raw == [0x04]
    ensures Does(font, e, Character(raw), Edits(e, KeyOf(font, Character(raw))))
  {
    ControlIsOne(raw);
    if e.paste {
      assert IsEntry(font, raw, Text(font(Scalar(raw)).glyph));
    } else if (raw == [0x7F] || raw == [0x08]) && e.buffer != [] {
      ErasedIs(e.buffer);
    }
  }

  lemma {:induction false} OthersDo(font: Font, e: EditState, raw: Bytes)
    requires raw != [0x0D] && raw != [0x0A] && raw != [0x7F] && raw != [0x08] && raw != [0x04]
    ensures Does(font, e, Character(raw), Edits(e, KeyOf(font, Character(raw))))
  {
    var pieces := Lenient(raw);
    if |pieces| == 1 {
      assert IsEntry(font, raw, Text(font(pieces[0]).glyph));
    } else {
      assert IsEntry(font, raw, Malformed(GlyphsFor(font, pieces)));
    }
  }

  /** Whatever the key does to the editor is what it is for. */
  lemma {:induction false} KeyDoes(font: Font, e: EditState, t: Token)
    ensures Does(font, e, t, Edits(e, KeyOf(font, t)))
  {
    match t
    case Escape(raw) => EscapeDoes(font, e, raw);
    case Character(raw) =>
      if raw == [0x0D] || raw == [0x0A] || raw == [0x7F] || raw == [0x08] || raw == [0x04] {
        ControlDoes(font, e, raw);
      } else {
        OthersDo(font, e, raw);
      }
  }

  /** What a key is answered with on the screen, but for a deletion: the glyphs of what is typed,
      and CR LF for every line break and every line handed in. */
  lemma {:induction false} EchoIs(e: EditState, key: Key, width: nat)
    ensures var f, echo := Edits(e, key), EchoOf(e, key, width);
            && (|f.buffer| == |e.buffer| + 1 ==>
                  match f.buffer[|e.buffer|]
                  case Newline => echo == [CarriageReturn, LineFeed]
                  case Text(g) => echo == [Put(g)]
                  case Malformed(gs) => |echo| == |gs| && forall i | 0 <= i < |gs| :: echo[i] == Put(gs[i]))
            && (|f.results| > |e.results| && e.buffer != [] ==> echo == [CarriageReturn, LineFeed])
            && (f == e && !key.Erase? ==> echo == [])
  {
  }

  // ---------------------------------------------------------------- a whole stream

  /** The editor after the bytes `p`, with nothing pending before them: what `Feed` gives. */
  function Result(font: Font, e: EditState, p: seq<Byte>): EditState {
    EditsAll(e, FeedRun(font, e.paste, p).keys)
  }

  /** The states from `e` on, one for each sequence handled. */
  ghost predicate Follows(font: Font, e: EditState, tokens: seq<Token>, states: seq<EditState>) {
    && |states| == |tokens| + 1 && states[0] == e
    && forall i | 0 <= i < |tokens| :: Does(font, states[i], tokens[i], states[i + 1])
  }

  lemma {:induction false} FollowsPush(font: Font, e: EditState, tokens: seq<Token>, states: seq<EditState>, t: Token, f: EditState)
    requires Follows(font, e, tokens, states) && Does(font, states[|tokens|], t, f)
    ensures Follows(font, e, tokens + [t], states + [f])
  {
  }

  lemma {:induction false} KeysDo(font: Font, e: EditState, tokens: seq<Token>) returns (states: seq<EditState>)
    ensures Follows(font, e, tokens, states) && states[|tokens|] == EditsAll(e, KeysOf(font, tokens))
  {
    if tokens == [] {
      states := [e];
    } else {
      var front, last := tokens[..|tokens| - 1], tokens[|tokens| - 1];
      var before := KeysDo(font, e, front);
      assert KeysOf(font, tokens) == KeysOf(font, front) + [KeyOf(font, last)] && tokens == front + [last];
      KeysStep(font, e, front, last);
      KeyDoes(font, before[|front|], last);
      FollowsPush(font, e, front, before, last, Edits(before[|front|], KeyOf(font, last)));
      states := before + [Edits(before[|front|], KeyOf(font, last))];
    }
  }

  lemma {:induction false} KeysStep(font: Font, e: EditState, front: seq<Token>, last: Token)
    ensures EditsAll(e, KeysOf(font, front) + [KeyOf(font, last)]) == Edits(EditsAll(e, KeysOf(font, front)), KeyOf(font, last))
  {
    OneMoreKey(Edits, Echoing(2), e, KeysOf(font, front), KeyOf(font, last));
  }

  /** Any bytes at all: the sequences that are handled, one after the other, each doing what its
      bytes mean; all that are complete, unless one raises. */
  lemma {:induction false} StreamDoes(font: Font, e: EditState, p: seq<Byte>) returns (n: nat, states: seq<EditState>)
    ensures n <= |Decode(p).tokens| && (n < |Decode(p).tokens| <==> FeedRun(font, e.paste, p).raised)
    ensures Follows(font, e, Decode(p).tokens[..n], states) && states[n] == Result(font, e, p)
  {
    var tokens, fed := Decode(p).tokens, FeedRun(font, e.paste, p);
    RunIsDecode(font, e.paste, p);
    n := |fed.keys|;
    assert KeysOf(font, tokens[..n]) == fed.keys;
    states := KeysDo(font, e, tokens[..n]);
  }

  // ---------------------------------------------------------------- typing a line

  /** A character that is typed as itself: no control character, well-formed and printable. */
  ghost predicate Prints(font: Font, code: int) {
    IsScalar(code) && code >= 0x20 && code != 0x7F && font(Scalar(Utf8(code))).printable
  }

  ghost predicate AllPrint(font: Font, codes: seq<nat>) {
    forall i | 0 <= i < |codes| :: Prints(font, codes[i])
  }

  function Entries(font: Font, codes: seq<nat>): seq<Item>
    requires forall i | 0 <= i < |codes| :: codes[i] < 0x110000
  {
    seq(|codes|, i requires 0 <= i < |codes| => Text(font(Scalar(Utf8(codes[i]))).glyph))
  }

  lemma {:induction false} CharacterIsNext(code: nat, rest: seq<Byte>)
    requires code < 0x110000 && code != 0x1B
    ensures var p := Utf8(code) + rest; Next(p) == Some(Character(Utf8(code))) && p[|Utf8(code)|..] == rest
  {
    var p := Utf8(code) + rest;
    assert p[0] == Utf8(code)[0] && p[..|Utf8(code)|] == Utf8(code);
  }

  lemma {:induction false} FirstKey(font: Font, paste: bool, p: seq<Byte>, raw: Bytes, rest: seq<Byte>)
    requires Next(p) == Some(Character(raw)) && p[|raw|..] == rest && !Raises(paste, KeyOf(font, Character(raw)))
    ensures var key := KeyOf(font, Character(raw)); FeedRun(font, paste, p) == After(key, FeedRun(font, PasteAfter(paste, key), rest))
  {
  }

  lemma {:induction false} PrintedKey(font: Font, code: nat)
    requires Prints(font, code)
    ensures KeyOf(font, Character(Utf8(code))) == Char(font(Scalar(Utf8(code))).glyph, true)
  {
    LenientKeeps(code);
    NotControl(code);
  }

  lemma {:induction false} NotControl(code: nat)
    requires 0x20 <= code < 0x110000 && code != 0x7F
    ensures var raw := Utf8(code); raw != [0x0D] && raw != [0x0A] && raw != [0x7F] && raw != [0x08] && raw != [0x04]
  {
  }

  lemma {:induction false} FirstEdit(e: EditState, key: Key, keys: seq<Key>)
    ensures EditsAll(e, [key] + keys) == EditsAll(Edits(e, key), keys)
  {
    FoldConcat(Edits, Echoing(2), e, [key], keys);
    assert [key][..0] == [];
  }

  lemma {:induction false} OneCharacter(font: Font, e: EditState, code: nat, more: seq<Byte>)
    requires !e.paste && Prints(font, code)
    ensures var f := EditState(e.buffer + [Text(font(Scalar(Utf8(code))).glyph)], false, e.results);
            var run, rest := FeedRun(font, false, Utf8(code) + more), FeedRun(font, false, more);
            EditsAll(e, run.keys) == EditsAll(f, rest.keys) && run.rest == rest.rest && run.raised == rest.raised
  {
    var key := Char(font(Scalar(Utf8(code))).glyph, true);
    CharacterIsNext(code, more);
    PrintedKey(font, code);
    FirstKey(font, false, Utf8(code) + more, Utf8(code), more);
    FirstEdit(e, key, FeedRun(font, false, more).keys);
  }

  lemma {:induction false} TextSplits(font: Font, e: EditState, codes: seq<nat>, tail: seq<Byte>)
    requires codes != [] && forall i | 0 <= i < |codes| :: codes[i] < 0x110000
    ensures Utf8Text(codes) + tail == Utf8(codes[0]) + (Utf8Text(codes[1..]) + tail)
    ensures (e.buffer + [Text(font(Scalar(Utf8(codes[0]))).glyph)]) + Entries(font, codes[1..]) == e.buffer + Entries(font, codes)
  {
  }

  /** Text and then the bytes `tail`: the text is in the buffer when the tail is handled. */
  lemma {:induction false} TextThen(font: Font, e: EditState, codes: seq<nat>, tail: seq<Byte>)
    requires !e.paste && AllPrint(font, codes)
    ensures var f := EditState(e.buffer + Entries(font, codes), false, e.results);
            var run, rest := FeedRun(font, false, Utf8Text(codes) + tail), FeedRun(font, false, tail);
            EditsAll(e, run.keys) == EditsAll(f, rest.keys) && run.rest == rest.rest && run.raised == rest.raised
    decreases |codes|
  {
    if codes == [] {
      assert e.buffer + Entries(font, codes) == e.buffer;
      assert Utf8Text(codes) + tail == tail;
    } else {
      assert Prints(font, codes[0]);
      assert forall i | 0 <= i < |codes[1..]| :: codes[1..][i] == codes[i + 1];
      TextSplits(font, e, codes, tail);
      OneCharacter(font, e, codes[0], Utf8Text(codes[1..]) + tail);
      TextThen(font, EditState(e.buffer + [Text(font(Scalar(Utf8(codes[0]))).glyph)], false, e.results), codes[1..], tail);
    }
  }

  lemma {:induction false} EnterAlone(font: Font, f: EditState)
    requires !f.paste
    ensures FeedRun(font, false, [0x0D]) == Fed([Enter], [], false)
    ensures EditsAll(f, [Enter]) == EditState([], false, f.results + [Some(f.buffer)])
  {
    var raw: Bytes := [0x0D];
    ControlIsOne(raw);
    assert raw[..1] == raw && raw[1..] == [];
    assert Next(raw) == Some(Character(raw));
    FirstKey(font, false, raw, raw, []);
    assert FeedRun(font, false, []) == Fed([], [], false);
    FirstEdit(f, Enter, []);
    assert [Enter] + [] == [Enter];
  }

  /** Printable text and Enter, outside a paste: exactly that text is handed in, behind what was
      in the buffer, nothing is left, and nothing raises. */
  lemma {:induction false} LineIsHandedIn(font: Font, e: EditState, codes: seq<nat>)
    requires !e.paste && AllPrint(font, codes)
    ensures Result(font, e, Utf8Text(codes) + [0x0D]) == EditState([], false, e.results + [Some(e.buffer + Entries(font, codes))])
    ensures var run := FeedRun(font, false, Utf8Text(codes) + [0x0D]); run.rest == [] && !run.raised
  {
    TextThen(font, e, codes, [0x0D]);
    EnterAlone(font, EditState(e.buffer + Entries(font, codes), false, e.results));
  }

  lemma {:induction false} TextPush(codes: seq<nat>, code: nat)
    requires code < 0x110000 && forall i | 0 <= i < |codes| :: codes[i] < 0x110000
    ensures Utf8Text(codes + [code]) == Utf8Text(codes) + Utf8(code)
  {
    if codes == [] {
      assert [code][1..] == [] && [] + [code] == [code];
      assert Utf8Text([code]) == Utf8(code) + [];
    } else {
      assert (codes + [code])[1..] == codes[1..] + [code];
      TextPush(codes[1..], code);
    }
  }

  /** And so does a line that arrives in chunks, cut anywhere, inside a character too. */
  lemma {:induction false} LineInChunks(font: Font, e: EditState, width: nat, codes: seq<nat>, chunks: seq<seq<Byte>>)
    requires !e.paste && AllPrint(font, codes) && Concat(chunks) == Utf8Text(codes) + [0x0D]
    ensures var all := TypedAll(font, e, width, chunks);
            all.edited == EditState([], false, e.results + [Some(e.buffer + Entries(font, codes))]) && all.rest == []
  {
    var p := Concat(chunks);
    LineIsHandedIn(font, e, codes);
    LineIsShort(font, codes, p);
    ChunksRun(font, e, width, chunks);
  }

  lemma {:induction false} LineIsShort(font: Font, codes: seq<nat>, p: seq<Byte>)
    requires AllPrint(font, codes) && p == Utf8Text(codes) + [0x0D]
    ensures AllShort(Decode(p).tokens)
  {
    assert forall i | 0 <= i < |codes| :: Prints(font, codes[i]);
    TextPush(codes, 0x0D);
    TextDecodes(codes + [0x0D]);
  }
}
