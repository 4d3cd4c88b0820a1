/** `tools/memory_source.py`: the ordered sources of one memory, page by page. */
module MemorySource {
  import opened Outcomes
  import opened Models
  import opened LongTerm
  import opened Coherence

  // ---------------------------------------------------------------- base64url without padding

  type Octet = b: int | 0 <= b < 256

  /** The URL-safe alphabet. */
  function Sextet(n: int): char
    requires 0 <= n < 64
  {
    if n < 26 then ('A' as int + n) as char
    else if n < 52 then ('a' as int + n - 26) as char
    else if n < 62 then ('0' as int + n - 52) as char
    else if n == 62 then '-' else '_'
  }

  /** The value of a character of the URL-safe alphabet or of the plain one, which the decoder
      takes as well (sections 5 and 4 of RFC 4648). */
  function Value(c: char): (n: int)
    ensures -1 <= n < 64
  {
    if 'A' <= c <= 'Z' then c as int - 'A' as int
    else if 'a' <= c <= 'z' then c as int - 'a' as int + 26
    else if '0' <= c <= '9' then c as int - '0' as int + 52
    else if c == '-' || c == '+' then 62 else if c == '_' || c == '/' then 63 else -1
  }

  lemma {:induction false} ValueOfSextet(n: int)
    requires 0 <= n < 64
    ensures Value(Sextet(n)) == n
  {
  }

  function Encode64(bytes: seq<Octet>): string {
    if bytes == [] then ""
    else if |bytes| == 1 then [Sextet(bytes[0] / 4), Sextet(bytes[0] % 4 * 16)]
    else if |bytes| == 2 then
      [Sextet(bytes[0] / 4), Sextet(bytes[0] % 4 * 16 + bytes[1] / 16), Sextet(bytes[1] % 16 * 4)]
    else
      [Sextet(bytes[0] / 4), Sextet(bytes[0] % 4 * 16 + bytes[1] / 16),
       Sextet(bytes[1] % 16 * 4 + bytes[2] / 64), Sextet(bytes[2] % 64)] + Encode64(bytes[3..])
  }

  /** Decoding of the re-padded text: a last group of one character is an error. */
  function Decode64(s: string): Option<seq<Octet>> {
    if s == "" then Some([])
    else if |s| == 1 then None
    else
      var a, b := Value(s[0]), Value(s[1]);
      if a < 0 || b < 0 then None
      else if |s| == 2 then Some([a * 4 + b / 16])
      else
        var c := Value(s[2]);
        if c < 0 then None
        else if |s| == 3 then Some([a * 4 + b / 16, b % 16 * 16 + c / 4])
        else
          var d := Value(s[3]);
          var rest := Decode64(s[4..]);
          if d < 0 || rest.None? then None
          else Some([a * 4 + b / 16, b % 16 * 16 + c / 4, c % 4 * 64 + d] + rest.value)
  }

  lemma {:induction false} Group(x: Octet, y: Octet, z: Octet)
    ensures x / 4 * 4 + (x % 4 * 16 + y / 16) / 16 == x
    ensures (x % 4 * 16 + y / 16) % 16 * 16 + (y % 16 * 4 + z / 64) / 4 == y
    ensures (y % 16 * 4 + z / 64) % 4 * 64 + z % 64 == z
    ensures 0 <= x % 4 * 16 + y / 16 < 64 && 0 <= y % 16 * 4 + z / 64 < 64
  {
  }

  lemma {:induction false} Quad(x: Octet, y: Octet, z: Octet, rest: string)
    ensures 0 <= x % 4 * 16 + y / 16 < 64 && 0 <= y % 16 * 4 + z / 64 < 64
    ensures var s := [Sextet(x / 4), Sextet(x % 4 * 16 + y / 16), Sextet(y % 16 * 4 + z / 64), Sextet(z % 64)] + rest;
            Decode64(s) == if Decode64(rest).None? then None else Some([x, y, z] + Decode64(rest).value)
  {
    Group(x, y, z);
    ValueOfSextet(x / 4);
    ValueOfSextet(x % 4 * 16 + y / 16);
    ValueOfSextet(y % 16 * 4 + z / 64);
    ValueOfSextet(z % 64);
    var s := [Sextet(x / 4), Sextet(x % 4 * 16 + y / 16), Sextet(y % 16 * 4 + z / 64), Sextet(z % 64)] + rest;
    assert s[4..] == rest;
  }

  lemma {:induction false} Tail(x: Octet, y: Octet)
    ensures 0 <= x % 4 * 16 + y / 16 < 64
    ensures Decode64([Sextet(x / 4), Sextet(x % 4 * 16)]) == Some([x])
    ensures Decode64([Sextet(x / 4), Sextet(x % 4 * 16 + y / 16), Sextet(y % 16 * 4)]) == Some([x, y])
  {
    Group(x, 0, 0);
    Group(x, y, 0);
    ValueOfSextet(x / 4);
    ValueOfSextet(x % 4 * 16);
    ValueOfSextet(x % 4 * 16 + y / 16);
    ValueOfSextet(y % 16 * 4);
  }

  /** Decoding inverts encoding, for every length modulo 3. */
  lemma {:induction false} Decode64Inverts(bytes: seq<Octet>)
    ensures Decode64(Encode64(bytes)) == Some(bytes)
  {
    if |bytes| == 1 {
      Tail(bytes[0], 0);
      assert bytes == [bytes[0]];
    } else if |bytes| == 2 {
      Tail(bytes[0], bytes[1]);
      assert bytes == [bytes[0], bytes[1]];
    } else if |bytes| >= 3 {
      Decode64Inverts(bytes[3..]);
      Quad(bytes[0], bytes[1], bytes[2], Encode64(bytes[3..]));
      assert bytes == [bytes[0], bytes[1], bytes[2]] + bytes[3..];
    }
  }

  // ---------------------------------------------------------------- cursors

  /** The JSON text of a cursor and how it is read; only their agreement matters. */
  datatype Codec = Codec(dumps: (int, int) -> seq<Octet>, loads: seq<Octet> -> Option<(int, int)>)

  ghost predicate Agrees(codec: Codec) {
    forall revision: int, offset: int :: codec.loads(codec.dumps(revision, offset)) == Some((revision, offset))
  }

  function EncodeCursor(codec: Codec, revision: int, offset: int): string {
    Encode64(codec.dumps(revision, offset))
  }

  function DecodeCursor(codec: Codec, cursor: string, revision: int): Outcome<int> {
    var bytes := Decode64(cursor);
    if bytes.None? then Err("CURSOR_INVALID")
    else
      var payload := codec.loads(bytes.value);
      if payload.None? || payload.value.0 != revision then Err("CURSOR_INVALID") else Ok(payload.value.1)
  }

  /** A cursor is read back at the revision it was issued for, and at no other. */
  lemma {:induction false} CursorRoundTrip(codec: Codec, revision: int, offset: int, at: int)
    requires Agrees(codec)
    ensures DecodeCursor(codec, EncodeCursor(codec, revision, offset), at)
            == if at == revision then Ok(offset) else Err("CURSOR_INVALID")
  {
    Decode64Inverts(codec.dumps(revision, offset));
  }

  // ---------------------------------------------------------------- pages

  predicate RefBefore(raw: map<string, RawRecord>, a: SourceReference, b: SourceReference)
    requires a.recordId in raw && b.recordId in raw
  {
    raw[a.recordId].sequence < raw[b.recordId].sequence
  }

  predicate Known(raw: map<string, RawRecord>, refs: seq<SourceReference>) {
    forall i | 0 <= i < |refs| :: refs[i].recordId in raw
  }

  function InsertRef(raw: map<string, RawRecord>, r: SourceReference, sorted: seq<SourceReference>): (all: seq<SourceReference>)
    requires r.recordId in raw && Known(raw, sorted)
    ensures Known(raw, all) && multiset(all) == multiset(sorted) + multiset{r}
  {
    if sorted == [] || !RefBefore(raw, r, sorted[|sorted| - 1]) then sorted + [r]
    else
      assert sorted == sorted[..|sorted| - 1] + [sorted[|sorted| - 1]];
      InsertRef(raw, r, sorted[..|sorted| - 1]) + [sorted[|sorted| - 1]]
  }

  /** `sorted` by sequence; record ids are unique in a log, so the second key never decides. */
  function SortRefs(raw: map<string, RawRecord>, refs: seq<SourceReference>): (all: seq<SourceReference>)
    requires Known(raw, refs)
    ensures Known(raw, all) && multiset(all) == multiset(refs)
  {
    if refs == [] then []
    else
      assert refs == refs[..|refs| - 1] + [refs[|refs| - 1]];
      InsertRef(raw, refs[|refs| - 1], SortRefs(raw, refs[..|refs| - 1]))
  }

  datatype Page = Page(records: seq<RawRecord>, nextCursor: Option<string>)

  /** Python's slice bound for an index. */
  function Bound(k: int, length: nat): nat {
    if k < 0 then (if k + length < 0 then 0 else k + length) else if k > length then length else k
  }

  function Slice(refs: seq<SourceReference>, from: int, to: int): seq<SourceReference> {
    var a, b := Bound(from, |refs|), Bound(to, |refs|);
    if a <= b then refs[a..b] else []
  }

  /** One record of a page: its digest is checked, and its text is shown to the guard. */
  function Fetched(safe: string -> bool, raw: map<string, RawRecord>, r: SourceReference): Outcome<RawRecord>
    requires r.recordId in raw
  {
    if raw[r.recordId].sha != r.sha then Err("SOURCE_HASH_MISMATCH")
    else if !safe(raw[r.recordId].content) then Err("CREDENTIAL_REJECTED")
    else Ok(raw[r.recordId])
  }

  function Records(safe: string -> bool, raw: map<string, RawRecord>, refs: seq<SourceReference>): Outcome<seq<RawRecord>>
    requires Known(raw, refs)
  {
    if refs == [] then Ok([])
    else
      var front :- Records(safe, raw, refs[..|refs| - 1]);
      var r :- Fetched(safe, raw, refs[|refs| - 1]);
      Ok(front + [r])
  }

  /** One page from `offset` of the sources in order. */
  function PageAt(codec: Codec, revision: int, safe: string -> bool, raw: map<string, RawRecord>, sorted: seq<SourceReference>,
                  offset: int, pageSize: nat): Outcome<Page>
    requires Known(raw, sorted)
  {
    var refs := Slice(sorted, offset, offset + pageSize);
    var records :- Records(safe, raw, refs);
    var next := offset + |refs|;
    Ok(Page(records, if next < |sorted| then Some(EncodeCursor(codec, revision, next)) else None))
  }

  /** The loop of `execute_sync` over the references of one page. */
  method ReadPage(codec: Codec, revision: int, safe: string -> bool, raw: map<string, RawRecord>, sorted: seq<SourceReference>,
                  offset: int, pageSize: nat)
    returns (r: Outcome<Page>)
    requires Known(raw, sorted)
    ensures r == PageAt(codec, revision, safe, raw, sorted, offset, pageSize)
  {
    var refs := Slice(sorted, offset, offset + pageSize);
    var records: seq<RawRecord> := [];
    for i := 0 to |refs|
      invariant Records(safe, raw, refs[..i]) == Ok(records)
    {
      assert refs[..i + 1][..i] == refs[..i];
      var record := raw[refs[i].recordId];
      if record.sha != refs[i].sha {
        RecordsFail(safe, raw, refs, i + 1);
        return Err("SOURCE_HASH_MISMATCH");
      }
      if !safe(record.content) {
        RecordsFail(safe, raw, refs, i + 1);
        return Err("CREDENTIAL_REJECTED");
      }
      records := records + [record];
    }
    assert refs[..|refs|] == refs;
    var next := offset + |refs|;
    return Ok(Page(records, if next < |sorted| then Some(EncodeCursor(codec, revision, next)) else None));
  }

  lemma {:induction false} RecordsFail(safe: string -> bool, raw: map<string, RawRecord>, refs: seq<SourceReference>, k: nat)
    requires Known(raw, refs) && k <= |refs| && !Records(safe, raw, refs[..k]).Ok?
    ensures Records(safe, raw, refs) == Records(safe, raw, refs[..k])
  {
    if k == |refs| {
      assert refs[..k] == refs;
    } else {
      assert refs[..|refs| - 1][..k] == refs[..k];
      RecordsFail(safe, raw, refs[..|refs| - 1], k);
    }
  }

  /** The record that a source names. */
  predicate Resolved(raw: map<string, RawRecord>, refs: seq<SourceReference>) {
    Known(raw, refs) && forall i | 0 <= i < |refs| :: raw[refs[i].recordId].sha == refs[i].sha
  }

  function Named(raw: map<string, RawRecord>, refs: seq<SourceReference>): seq<RawRecord>
    requires Known(raw, refs)
  {
    seq(|refs|, i requires 0 <= i < |refs| => raw[refs[i].recordId])
  }

  /** The records, unless the guard rejects the text of one. */
  function Guarded(safe: string -> bool, records: seq<RawRecord>): Outcome<seq<RawRecord>> {
    if forall r | r in records :: safe(r.content) then Ok(records) else Err("CREDENTIAL_REJECTED")
  }

  lemma {:induction false} GuardedTogether(safe: string -> bool, a: seq<RawRecord>, b: seq<RawRecord>)
    ensures Guarded(safe, a + b) == if Guarded(safe, a).Ok? && Guarded(safe, b).Ok? then Ok(a + b) else Err("CREDENTIAL_REJECTED")
  {
    forall r ensures r in a + b <==> r in a || r in b {
    }
  }

  lemma {:induction false} RecordsAreNamed(safe: string -> bool, raw: map<string, RawRecord>, refs: seq<SourceReference>)
    requires Resolved(raw, refs)
    ensures Records(safe, raw, refs) == Guarded(safe, Named(raw, refs))
  {
    if refs != [] {
      var front, r := refs[..|refs| - 1], raw[refs[|refs| - 1].recordId];
      RecordsAreNamed(safe, raw, front);
      assert Named(raw, refs) == Named(raw, front) + [r];
      GuardedTogether(safe, Named(raw, front), [r]);
    }
  }

  /** Asking for page after page with the cursors that were issued. */
  function Follow(codec: Codec, revision: int, safe: string -> bool, raw: map<string, RawRecord>, sorted: seq<SourceReference>,
                  pageSize: nat, offset: nat): Outcome<seq<RawRecord>>
    requires Known(raw, sorted) && pageSize >= 1
    decreases |sorted| - offset
  {
    var page :- PageAt(codec, revision, safe, raw, sorted, offset, pageSize);
    if page.nextCursor.None? then Ok(page.records)
    else
      var next :- DecodeCursor(codec, page.nextCursor.value, revision);
      if next <= offset || next > |sorted| then Err("CURSOR_INVALID")
      else
        var rest :- Follow(codec, revision, safe, raw, sorted, pageSize, next);
        Ok(page.records + rest)
  }

  lemma {:induction false} ResolvedSlice(raw: map<string, RawRecord>, sorted: seq<SourceReference>, a: nat, b: nat)
    requires Resolved(raw, sorted) && a <= b <= |sorted|
    ensures Resolved(raw, sorted[a..b]) && Named(raw, sorted[a..b]) == Named(raw, sorted)[a..b]
  {
  }

  /** The page from `offset` to `end`. */
  lemma {:induction false} OnePage(codec: Codec, revision: int, safe: string -> bool, raw: map<string, RawRecord>, sorted: seq<SourceReference>,
                                   pageSize: nat, offset: nat, end: nat)
    requires Resolved(raw, sorted) && offset <= |sorted| && end == if offset + pageSize <= |sorted| then offset + pageSize else |sorted|
    ensures var part := Named(raw, sorted)[offset..end];
            PageAt(codec, revision, safe, raw, sorted, offset, pageSize)
            == if Guarded(safe, part).Ok? then Ok(Page(part, if end < |sorted| then Some(EncodeCursor(codec, revision, end)) else None))
               else Err("CREDENTIAL_REJECTED")
  {
    assert Slice(sorted, offset, offset + pageSize) == sorted[offset..end];
    ResolvedSlice(raw, sorted, offset, end);
    RecordsAreNamed(safe, raw, sorted[offset..end]);
  }

  lemma {:induction false} FollowStep(codec: Codec, revision: int, safe: string -> bool, raw: map<string, RawRecord>, sorted: seq<SourceReference>,
                                      pageSize: nat, offset: nat, page: Outcome<Page>, next: int)
    requires Known(raw, sorted) && pageSize >= 1 && page == PageAt(codec, revision, safe, raw, sorted, offset, pageSize)
    requires page.Ok? && page.value.nextCursor.Some? ==> DecodeCursor(codec, page.value.nextCursor.value, revision) == Ok(next) && offset < next <= |sorted|
    ensures Follow(codec, revision, safe, raw, sorted, pageSize, offset)
            == if !page.Ok? then page.PropagateFailure()
               else if page.value.nextCursor.None? then Ok(page.value.records)
               else
                 var rest := Follow(codec, revision, safe, raw, sorted, pageSize, next);
                 if rest.Ok? then Ok(page.value.records + rest.value) else rest
  {
  }

  /** Following the issued cursors ends, and the pages together are the whole sorted list,
      nothing repeated and nothing missed, unless the guard rejects a text in it. */
  lemma {:induction false} PagesAreAll(codec: Codec, revision: int, safe: string -> bool, raw: map<string, RawRecord>, sorted: seq<SourceReference>,
                                       pageSize: nat, offset: nat)
    requires Agrees(codec) && Resolved(raw, sorted) && pageSize >= 1 && offset <= |sorted|
    ensures Follow(codec, revision, safe, raw, sorted, pageSize, offset) == Guarded(safe, Named(raw, sorted)[offset..])
    decreases |sorted| - offset
  {
    var all, end := Named(raw, sorted), if offset + pageSize <= |sorted| then offset + pageSize else |sorted|;
    OnePage(codec, revision, safe, raw, sorted, pageSize, offset, end);
    CursorRoundTrip(codec, revision, end, revision);
    FollowStep(codec, revision, safe, raw, sorted, pageSize, offset, PageAt(codec, revision, safe, raw, sorted, offset, pageSize), end);
    assert all[offset..end] + all[end..] == all[offset..];
    GuardedTogether(safe, all[offset..end], all[end..]);
    if end < |sorted| {
      PagesAreAll(codec, revision, safe, raw, sorted, pageSize, end);
    } else {
      assert all[offset..end] == all[offset..];
    }
  }

  predicate InLogOrder(raw: map<string, RawRecord>, refs: seq<SourceReference>)
    requires Known(raw, refs)
  {
    forall i, j | 0 <= i < j < |refs| :: raw[refs[i].recordId].sequence <= raw[refs[j].recordId].sequence
  }

  predicate AtMost(raw: map<string, RawRecord>, refs: seq<SourceReference>, bound: int)
    requires Known(raw, refs)
  {
    forall i | 0 <= i < |refs| :: raw[refs[i].recordId].sequence <= bound
  }

  lemma {:induction false} InOrderPush(raw: map<string, RawRecord>, refs: seq<SourceReference>, r: SourceReference)
    requires Known(raw, refs) && InLogOrder(raw, refs) && r.recordId in raw && AtMost(raw, refs, raw[r.recordId].sequence)
    ensures InLogOrder(raw, refs + [r])
  {
  }

  lemma {:induction false} InsertedAre(raw: map<string, RawRecord>, r: SourceReference, sorted: seq<SourceReference>, bound: int)
    requires r.recordId in raw && Known(raw, sorted) && raw[r.recordId].sequence <= bound && AtMost(raw, sorted, bound)
    ensures AtMost(raw, InsertRef(raw, r, sorted), bound)
  {
    var all := InsertRef(raw, r, sorted);
    forall i | 0 <= i < |all| ensures raw[all[i].recordId].sequence <= bound {
      assert all[i] in multiset(all);
      if all[i] != r {
        assert all[i] in multiset(sorted);
        var k :| 0 <= k < |sorted| && sorted[k] == all[i];
      }
    }
  }

  lemma {:induction false} InsertKeepsOrder(raw: map<string, RawRecord>, r: SourceReference, sorted: seq<SourceReference>)
    requires r.recordId in raw && Known(raw, sorted) && InLogOrder(raw, sorted)
    ensures InLogOrder(raw, InsertRef(raw, r, sorted))
  {
    if sorted != [] && RefBefore(raw, r, sorted[|sorted| - 1]) {
      var front, last := sorted[..|sorted| - 1], sorted[|sorted| - 1];
      InsertKeepsOrder(raw, r, front);
      InsertedAre(raw, r, front, raw[last.recordId].sequence);
      InOrderPush(raw, InsertRef(raw, r, front), last);
    } else {
      InOrderPush(raw, sorted, r);
    }
  }

  /** The pages come in the order of the log. */
  lemma {:induction false} SortedInOrder(raw: map<string, RawRecord>, refs: seq<SourceReference>)
    requires Known(raw, refs)
    ensures InLogOrder(raw, SortRefs(raw, refs))
  {
    if refs != [] {
      SortedInOrder(raw, refs[..|refs| - 1]);
      InsertKeepsOrder(raw, refs[|refs| - 1], SortRefs(raw, refs[..|refs| - 1]));
    }
  }

  lemma {:induction false} SourcesAreResolved(d: Document, rs: seq<RawRecord>, i: nat)
    requires WellFormedLog(rs) && Coherent(d, rs) && i < |d.memories|
    ensures Resolved(ById(rs), d.memories[i].sources)
  {
    CoherentResolves(d, rs);
    forall j | 0 <= j < |d.memories[i].sources|
      ensures d.memories[i].sources[j].recordId in ById(rs)
              && ById(rs)[d.memories[i].sources[j].recordId].sha == d.memories[i].sources[j].sha
    {
      RefErrorNone(rs, d.memories[i].sources[j]);
      assert HasRecord(rs, d.memories[i].sources[j]);
    }
  }

  lemma {:induction false} SortedResolved(raw: map<string, RawRecord>, refs: seq<SourceReference>)
    requires Resolved(raw, refs)
    ensures Resolved(raw, SortRefs(raw, refs))
  {
    var all := SortRefs(raw, refs);
    forall i | 0 <= i < |all| ensures raw[all[i].recordId].sha == all[i].sha {
      assert all[i] in multiset(all);
      var k :| 0 <= k < |refs| && refs[k] == all[i];
    }
  }

  /** Over every coherent document, the pages of every memory are all its source records,
      unless the guard rejects one of their texts. */
  lemma {:induction false} EveryMemoryPages(codec: Codec, safe: string -> bool, d: Document, rs: seq<RawRecord>, i: nat, pageSize: nat)
    requires Agrees(codec) && WellFormedLog(rs) && Coherent(d, rs) && i < |d.memories| && pageSize >= 1
    ensures var raw, refs := ById(rs), d.memories[i].sources;
            Known(raw, refs) && Follow(codec, d.revision, safe, raw, SortRefs(raw, refs), pageSize, 0) == Guarded(safe, Named(raw, SortRefs(raw, refs)))
  {
    var raw, refs := ById(rs), d.memories[i].sources;
    SourcesAreResolved(d, rs, i);
    SortedResolved(raw, refs);
    PagesAreAll(codec, d.revision, safe, raw, SortRefs(raw, refs), pageSize, 0);
    assert Named(raw, SortRefs(raw, refs))[0..] == Named(raw, SortRefs(raw, refs));
  }
}
