/** The incremental decoder of `runtime/tty_input.py`: bytes in chunks of any size, characters
    and escape sequences out. */
module KeyDecoder {
  import opened Outcomes
  import opened Utf8Decoding

  type Bytes = s: seq<Byte> | s != [] witness [0]

  datatype Token = Character(raw: Bytes) | Escape(raw: Bytes)

  const ESC: Byte := 0x1B
  const BRACKET: Byte := 0x5B

  predicate IsFinal(b: Byte) {
    0x40 <= b <= 0x7E
  }

  /** The first final byte of a control sequence from `index` on, or the end. */
  function FinalFrom(pending: seq<Byte>, index: nat): (i: nat)
    requires index <= |pending|
    ensures index <= i <= |pending|
    ensures i < |pending| ==> IsFinal(pending[i])
    ensures forall k | index <= k < i :: !IsFinal(pending[k])
    decreases |pending| - index
  {
    if index == |pending| || IsFinal(pending[index]) then index else FinalFrom(pending, index + 1)
  }

  function NextCharacter(pending: seq<Byte>): Option<Token>
    requires pending != []
  {
    var n := Utf8Length(pending[0]);
    if |pending| < n then None else Some(Character(pending[..n]))
  }

  /** `_consume_escape`: two bytes, a whole control sequence, or the introducer alone when the
      sequence has grown past 64 bytes without its final byte. */
  function NextEscape(pending: seq<Byte>): Option<Token> {
    if |pending| < 2 then None
    else if pending[1] != BRACKET then Some(Escape(pending[..2]))
    else
      var i := FinalFrom(pending, 2);
      if i < |pending| then Some(Escape(pending[..i + 1]))
      else if |pending| > 64 then Some(Escape(pending[..2])) else None
  }

  function Next(pending: seq<Byte>): (t: Option<Token>)
    ensures t.Some? ==> 1 <= |t.value.raw| <= |pending| && t.value.raw == pending[..|t.value.raw|]
  {
    if pending == [] then None
    else if pending[0] == ESC then NextEscape(pending)
    else NextCharacter(pending)
  }

  datatype Decoded = Decoded(tokens: seq<Token>, rest: seq<Byte>)

  /** The loop of `_feed` on everything that is pending. */
  function Decode(pending: seq<Byte>): Decoded
    decreases |pending|
  {
    var t := Next(pending);
    if t.None? then Decoded([], pending)
    else
      var after := Decode(pending[|t.value.raw|..]);
      Decoded([t.value] + after.tokens, after.rest)
  }

  class Decoder {
    var pending: seq<Byte>

    constructor ()
      ensures pending == []
    {
      pending := [];
    }

    /** One character or one escape sequence off the front of the pending bytes. */
    method Consume() returns (token: Option<Token>)
      requires pending != []
      modifies this`pending
      ensures token == Next(old(pending))
      ensures pending == if token.None? then old(pending) else old(pending)[|token.value.raw|..]
    {
      if pending[0] == ESC {
        token := ConsumeEscape();
      } else {
        var length := Utf8Length(pending[0]);
        if |pending| < length {
          return None;
        }
        token := Some(Character(pending[..length]));
        pending := pending[length..];
      }
    }

    method ConsumeEscape() returns (token: Option<Token>)
      requires pending != [] && pending[0] == ESC
      modifies this`pending
      ensures token == NextEscape(old(pending))
      ensures pending == if token.None? then old(pending) else old(pending)[|token.value.raw|..]
    {
      if |pending| < 2 {
        return None;
      }
      if pending[1] != BRACKET {
        token := Some(Escape(pending[..2]));
        pending := pending[2..];
        return;
      }
      var index := 2;
      while index < |pending|
        invariant 2 <= index <= |pending| && pending == old(pending)
        invariant FinalFrom(pending, 2) == FinalFrom(pending, index)
      {
        if IsFinal(pending[index]) {
          token := Some(Escape(pending[..index + 1]));
          pending := pending[index + 1..];
          return;
        }
        index := index + 1;
      }
      if |pending| > 64 {
        token := Some(Escape(pending[..2]));
        pending := pending[2..];
        return;
      }
      return None;
    }
  }

  // ---------------------------------------------------------------- chunks do not matter

  /** A control sequence that was read whole and is longer than the 65 bytes that any
      chunking leaves intact. */
  predicate Long(t: Token) {
    t.Escape? && |t.raw| >= 66
  }

  predicate AllShort(tokens: seq<Token>) {
    forall i | 0 <= i < |tokens| :: !Long(tokens[i])
  }

  lemma {:induction false} FinalExtends(p: seq<Byte>, q: seq<Byte>, index: nat)
    requires index <= |p|
    ensures var i := FinalFrom(p, index); if i < |p| then FinalFrom(p + q, index) == i else FinalFrom(p + q, index) >= |p|
    decreases |p| - index
  {
    if index < |p| {
      assert (p + q)[index] == p[index];
      if !IsFinal(p[index]) {
        FinalExtends(p, q, index + 1);
      }
    }
  }

  /** More bytes change the next token only if they complete a long control sequence. */
  lemma {:induction false} NextExtends(p: seq<Byte>, q: seq<Byte>)
    requires Next(p).Some?
    ensures Next(p + q).Some? && (!Long(Next(p + q).value) ==> Next(p + q) == Next(p))
  {
    var all := p + q;
    assert all[0] == p[0] && all[..|Next(p).value.raw|] == p[..|Next(p).value.raw|];
    if p[0] == ESC {
      assert all[1] == p[1];
      if p[1] == BRACKET {
        FinalExtends(p, q, 2);
        var i := FinalFrom(all, 2);
        assert FinalFrom(p, 2) < |p| ==> all[..i + 1] == p[..i + 1];
      }
    }
  }

  /** Decoding in two pieces. */
  function Twice(p: seq<Byte>, q: seq<Byte>): Decoded {
    var first := Decode(p);
    var second := Decode(first.rest + q);
    Decoded(first.tokens + second.tokens, second.rest)
  }

  lemma {:induction false} TwiceStep(p: seq<Byte>, q: seq<Byte>)
    requires Next(p).Some?
    ensures var t := Next(p).value; var rest := p[|t.raw|..];
            Twice(p, q) == Decoded([t] + Twice(rest, q).tokens, Twice(rest, q).rest)
  {
    var t := Next(p).value;
    var first := Decode(p[|t.raw|..]);
    assert Decode(p).tokens == [t] + first.tokens && Decode(p).rest == first.rest;
  }

  lemma {:induction false} ShortTail(p: seq<Byte>)
    requires Next(p).Some? && AllShort(Decode(p).tokens)
    ensures !Long(Next(p).value) && AllShort(Decode(p[|Next(p).value.raw|..]).tokens)
  {
    var after := Decode(p[|Next(p).value.raw|..]);
    assert Decode(p).tokens == [Next(p).value] + after.tokens;
    assert Decode(p).tokens[0] == Next(p).value;
    forall i | 0 <= i < |after.tokens| ensures !Long(after.tokens[i]) {
      assert after.tokens[i] == Decode(p).tokens[i + 1];
    }
  }

  /** One cut anywhere leaves tokens and leftover as they are. */
  lemma {:induction false} OneCut(p: seq<Byte>, q: seq<Byte>)
    requires AllShort(Decode(p + q).tokens)
    ensures Twice(p, q) == Decode(p + q)
    decreases |p|
  {
    if Next(p).None? {
      assert Decode(p) == Decoded([], p);
      assert Twice(p, q) == Decode(p + q);
    } else {
      NextExtends(p, q);
      ShortTail(p + q);
      var n := |Next(p).value.raw|;
      assert (p + q)[n..] == p[n..] + q;
      OneCut(p[n..], q);
      TwiceStep(p, q);
    }
  }

  function Concat(chunks: seq<seq<Byte>>): seq<Byte> {
    if chunks == [] then [] else Concat(chunks[..|chunks| - 1]) + chunks[|chunks| - 1]
  }

  /** Feeding the chunks one after another. */
  function FeedAll(chunks: seq<seq<Byte>>): Decoded {
    if chunks == [] then Decoded([], [])
    else
      var before := FeedAll(chunks[..|chunks| - 1]);
      var more := Decode(before.rest + chunks[|chunks| - 1]);
      Decoded(before.tokens + more.tokens, more.rest)
  }

  lemma {:induction false} PrefixTokens(p: seq<Byte>, q: seq<Byte>)
    requires AllShort(Decode(p + q).tokens)
    ensures AllShort(Decode(p).tokens)
  {
    OneCut(p, q);
    forall i | 0 <= i < |Decode(p).tokens| ensures !Long(Decode(p).tokens[i]) {
      assert Decode(p + q).tokens[i] == Decode(p).tokens[i];
    }
  }

  /** Chunk independence: when no control sequence of the stream is longer than 65 bytes,
      every way of cutting it into chunks gives the same tokens and the same leftover. */
  lemma {:induction false} ChunksDoNotMatter(chunks: seq<seq<Byte>>)
    requires AllShort(Decode(Concat(chunks)).tokens)
    ensures FeedAll(chunks) == Decode(Concat(chunks))
  {
    if chunks != [] {
      var front, last := chunks[..|chunks| - 1], chunks[|chunks| - 1];
      PrefixTokens(Concat(front), last);
      ChunksDoNotMatter(front);
      OneCut(Concat(front), last);
    }
  }

  // ---------------------------------------------------------------- and exactly when they do

  lemma {:induction false} NextTruncates(p: seq<Byte>, m: nat)
    requires Next(p).Some? && |Next(p).value.raw| <= m <= |p|
    requires p[0] == ESC && |p| >= 2 && p[1] == BRACKET ==> FinalFrom(p, 2) < m
    ensures Next(p[..m]) == Next(p)
  {
    var n := |Next(p).value.raw|;
    assert p[..m][..n] == p[..n];
    if p[0] == ESC && p[1] == BRACKET {
      assert p == p[..m] + p[m..];
      FinalExtends(p[..m], p[m..], 2);
      var i := FinalFrom(p, 2);
      assert p[..m][..i + 1] == p[..i + 1];
    }
  }

  /** A long control sequence at the front is torn apart by a cut after 65 bytes. */
  lemma {:induction false} LongIsTorn(p: seq<Byte>)
    requires Next(p).Some? && Long(Next(p).value)
    ensures Next(p[..65]) == Some(Escape(p[..2])) && Next(p[..65]) != Next(p)
  {
    var i := FinalFrom(p, 2);
    assert p[0] == ESC && p[1] == BRACKET && i < |p| && i >= 65;
    var cut := p[..65];
    assert p == cut + p[65..];
    FinalExtends(cut, p[65..], 2);
    assert cut[..2] == p[..2];
  }

  /** A long control sequence holds a final byte. */
  lemma {:induction false} LongHasFinal(p: seq<Byte>) returns (k: nat)
    requires !AllShort(Decode(p).tokens)
    ensures k < |p| && IsFinal(p[k])
    decreases |p|
  {
    var t := Next(p).value;
    if Long(t) {
      k := FinalFrom(p, 2);
    } else {
      var rest := p[|t.raw|..];
      LaterLong(p);
      var inner := LongHasFinal(rest);
      k := |t.raw| + inner;
    }
  }

  lemma {:induction false} LaterLong(p: seq<Byte>)
    requires !AllShort(Decode(p).tokens) && !Long(Next(p).value)
    ensures !AllShort(Decode(p[|Next(p).value.raw|..]).tokens)
  {
    var after := Decode(p[|Next(p).value.raw|..]);
    assert Decode(p).tokens == [Next(p).value] + after.tokens;
    var i :| 0 <= i < |Decode(p).tokens| && Long(Decode(p).tokens[i]);
    assert after.tokens[i - 1] == Decode(p).tokens[i];
  }

  /** So no control sequence before it was given up half read. */
  lemma {:induction false} EarlierAreWhole(p: seq<Byte>, k: nat)
    requires Next(p).Some? && |Next(p).value.raw| <= k < |p| && IsFinal(p[k])
    ensures p[0] == ESC && |p| >= 2 && p[1] == BRACKET ==> FinalFrom(p, 2) < |Next(p).value.raw|
  {
  }

  /** Some cut of a stream with a long control sequence changes the tokens. */
  lemma {:induction false} SomeCutMatters(p: seq<Byte>) returns (cut: nat)
    requires !AllShort(Decode(p).tokens)
    ensures cut <= |p| && Twice(p[..cut], p[cut..]).tokens != Decode(p).tokens
    decreases |p|
  {
    var t := Next(p).value;
    if Long(t) {
      cut := 65;
      LongIsTorn(p);
      TwiceStep(p[..cut], p[cut..]);
      assert Twice(p[..cut], p[cut..]).tokens[0] == Escape(p[..2]) && Decode(p).tokens[0] == t;
    } else {
      var n := |t.raw|;
      var rest := p[n..];
      LaterLong(p);
      var inner := SomeCutMatters(rest);
      var k := LongHasFinal(rest);
      EarlierAreWhole(p, n + k);
      cut := n + inner;
      CutAfter(p, n, inner);
    }
  }

  lemma {:induction false} CutAfter(p: seq<Byte>, n: nat, inner: nat)
    requires Next(p).Some? && |Next(p).value.raw| == n && n + inner <= |p|
    requires p[0] == ESC && |p| >= 2 && p[1] == BRACKET ==> FinalFrom(p, 2) < n
    requires Twice(p[n..][..inner], p[n..][inner..]).tokens != Decode(p[n..]).tokens
    ensures Twice(p[..n + inner], p[n + inner..]).tokens != Decode(p).tokens
  {
    NextTruncates(p, n + inner);
    CutTokens(p, n, inner);
    SameHead(Next(p).value, Twice(p[n..][..inner], p[n..][inner..]).tokens, Decode(p[n..]).tokens,
             Twice(p[..n + inner], p[n + inner..]).tokens, Decode(p).tokens);
  }

  lemma {:induction false} CutTokens(p: seq<Byte>, n: nat, inner: nat)
    requires Next(p).Some? && |Next(p).value.raw| == n && n + inner <= |p| && Next(p[..n + inner]) == Next(p)
    ensures Twice(p[..n + inner], p[n + inner..]).tokens == [Next(p).value] + Twice(p[n..][..inner], p[n..][inner..]).tokens
    ensures Decode(p).tokens == [Next(p).value] + Decode(p[n..]).tokens
  {
    var m := n + inner;
    assert p[..m][n..] == p[n..][..inner] && p[m..] == p[n..][inner..];
    TwiceStep(p[..m], p[m..]);
  }

  lemma {:induction false} SameHead(t: Token, a: seq<Token>, b: seq<Token>, ta: seq<Token>, tb: seq<Token>)
    requires a != b && ta == [t] + a && tb == [t] + b
    ensures ta != tb
  {
    assert ta[1..] == a && tb[1..] == b;
  }

  /** The exact condition: a stream decodes alike under every cut in two if and only if it has
      no control sequence of 66 bytes or more. */
  lemma {:induction false} ChunkIndependenceIff(p: seq<Byte>)
    ensures AllShort(Decode(p).tokens) <==> forall cut: nat | cut <= |p| :: Twice(p[..cut], p[cut..]) == Decode(p)
  {
    if AllShort(Decode(p).tokens) {
      forall cut: nat | cut <= |p| ensures Twice(p[..cut], p[cut..]) == Decode(p) {
        assert p[..cut] + p[cut..] == p;
        OneCut(p[..cut], p[cut..]);
      }
    } else {
      var cut := SomeCutMatters(p);
    }
  }

  // ---------------------------------------------------------------- well-formed text

  function Utf8Text(codes: seq<nat>): seq<Byte>
    requires forall i | 0 <= i < |codes| :: codes[i] < 0x110000
  {
    if codes == [] then [] else Utf8(codes[0]) + Utf8Text(codes[1..])
  }

  /** Text without escapes decodes to its characters, one token each, and nothing is left. */
  lemma {:induction false} TextDecodes(codes: seq<nat>)
    requires forall i | 0 <= i < |codes| :: codes[i] < 0x110000 && codes[i] != 0x1B
    ensures Decode(Utf8Text(codes)) == Decoded(seq(|codes|, i requires 0 <= i < |codes| => Character(Utf8(codes[i]))), [])
  {
    if codes != [] {
      var first, rest := Utf8(codes[0]), Utf8Text(codes[1..]);
      var all := first + rest;
      assert all[0] == first[0] && first[0] != ESC;
      assert all[..|first|] == first && all[|first|..] == rest;
      TextDecodes(codes[1..]);
      assert seq(|codes|, i requires 0 <= i < |codes| => Character(Utf8(codes[i])))
             == [Character(first)] + seq(|codes[1..]|, i requires 0 <= i < |codes[1..]| => Character(Utf8(codes[1..][i])));
    }
  }
}
