/** `memory/long_term.py`: the curated document, kept in a primary file and a last-valid copy. */
module LongTerm {
  import opened Outcomes
  import opened Models
  import opened Storage
  import opened RawArchive

  // ---------------------------------------------------------------- sources

  function RefError(raw: map<string, RawRecord>, src: SourceReference): Option<string> {
    if src.recordId !in raw then Some("SOURCE_RECORD_MISSING")
    else if raw[src.recordId].sha != src.sha then Some("SOURCE_HASH_MISMATCH")
    else None
  }

  function RefsError(raw: map<string, RawRecord>, srcs: seq<SourceReference>): Option<string> {
    if srcs == [] then None
    else
      var earlier := RefsError(raw, srcs[..|srcs| - 1]);
      if earlier.Some? then earlier else RefError(raw, srcs[|srcs| - 1])
  }

  function MemoriesError(raw: map<string, RawRecord>, ms: seq<MemoryItem>): Option<string> {
    if ms == [] then None
    else
      var earlier := MemoriesError(raw, ms[..|ms| - 1]);
      if earlier.Some? then earlier else RefsError(raw, ms[|ms| - 1].sources)
  }

  function SpanError(raw: map<string, RawRecord>, sp: CoverageSpan): Option<string>
    requires ValidSpan(sp)
  {
    if exists id | id in sp.ids :: id !in raw then Some("SOURCE_RECORD_MISSING")
    else if exists k | 0 <= k < |sp.ids| :: raw[sp.ids[k]].sequence != sp.start + k then Some("MEMORY_COVERAGE_INVALID")
    else if exists k | 0 <= k < |sp.ids| :: raw[sp.ids[k]].sha != sp.hashes[k] then Some("SOURCE_HASH_MISMATCH")
    else None
  }

  function SpansError(raw: map<string, RawRecord>, spans: seq<CoverageSpan>): Option<string>
    requires forall i | 0 <= i < |spans| :: ValidSpan(spans[i])
  {
    if spans == [] then None
    else
      var earlier := SpansError(raw, spans[..|spans| - 1]);
      if earlier.Some? then earlier else SpanError(raw, spans[|spans| - 1])
  }

  /** `_validate_sources`: an empty document needs no archive at all. */
  function SourcesCheck(d: Document, read: Outcome<seq<RawRecord>>): (r: Outcome<()>)
    requires forall i | 0 <= i < |d.overview.spans| :: ValidSpan(d.overview.spans[i])
    requires !read.Crashed?
    ensures !r.Crashed?
  {
    if d.memories == [] && d.overview.spans == [] then Ok(())
    else if !read.Ok? then Err(read.code)
    else
      var raw := ById(read.value);
      var m := MemoriesError(raw, d.memories);
      if m.Some? then Err(m.value) else
      var sp := SpansError(raw, d.overview.spans);
      if sp.Some? then Err(sp.value) else Ok(())
  }

  predicate HasRecord(rs: seq<RawRecord>, src: SourceReference) {
    exists r | r in rs :: r.id == src.recordId && r.sha == src.sha
  }

  predicate SpanResolves(rs: seq<RawRecord>, sp: CoverageSpan)
    requires ValidSpan(sp)
  {
    && sp.end <= |rs|
    && forall k | 0 <= k < |sp.ids| ::
         rs[sp.start - 1 + k].id == sp.ids[k] && rs[sp.start - 1 + k].sha == sp.hashes[k]
  }

  /** No reference of the document dangles: every source is a record with the recorded
      digest, every span position is the record of that sequence, id and digest. */
  predicate SourcesResolve(d: Document, rs: seq<RawRecord>) {
    && (forall i, j | 0 <= i < |d.memories| && 0 <= j < |d.memories[i].sources| :: HasRecord(rs, d.memories[i].sources[j]))
    && (forall i | 0 <= i < |d.overview.spans| :: ValidSpan(d.overview.spans[i]) && SpanResolves(rs, d.overview.spans[i]))
  }

  lemma {:induction false} RefErrorNone(rs: seq<RawRecord>, src: SourceReference)
    requires WellFormedLog(rs)
    ensures RefError(ById(rs), src).None? <==> HasRecord(rs, src)
  {
    ByIdLookup(rs, src.recordId);
    if r :| r in rs && r.id == src.recordId && r.sha == src.sha {
      var i :| 0 <= i < |rs| && rs[i] == r;
      ByIdAt(rs, i);
    }
  }

  lemma {:induction false} RefsErrorNone(rs: seq<RawRecord>, srcs: seq<SourceReference>)
    requires WellFormedLog(rs)
    ensures RefsError(ById(rs), srcs).None? <==> forall j | 0 <= j < |srcs| :: HasRecord(rs, srcs[j])
  {
    if srcs != [] {
      RefsErrorNone(rs, srcs[..|srcs| - 1]);
      RefErrorNone(rs, srcs[|srcs| - 1]);
    }
  }

  lemma {:induction false} MemoriesErrorNone(rs: seq<RawRecord>, ms: seq<MemoryItem>)
    requires WellFormedLog(rs)
    ensures MemoriesError(ById(rs), ms).None? <==>
            forall i, j | 0 <= i < |ms| && 0 <= j < |ms[i].sources| :: HasRecord(rs, ms[i].sources[j])
  {
    if ms != [] {
      MemoriesErrorNone(rs, ms[..|ms| - 1]);
      RefsErrorNone(rs, ms[|ms| - 1].sources);
    }
  }

  lemma {:induction false} SpanErrorNone(rs: seq<RawRecord>, sp: CoverageSpan)
    requires WellFormedLog(rs) && ValidSpan(sp)
    ensures SpanError(ById(rs), sp).None? <==> SpanResolves(rs, sp)
  {
    if SpanResolves(rs, sp) {
      forall k | 0 <= k < |sp.ids| ensures sp.ids[k] in ById(rs) && ById(rs)[sp.ids[k]] == rs[sp.start - 1 + k] {
        ByIdAt(rs, sp.start - 1 + k);
      }
      SpanErrorFound(rs, sp);
    }
    if SpanError(ById(rs), sp).None? {
      SpanErrorClean(rs, sp);
    }
  }

  lemma {:induction false} SpanErrorClean(rs: seq<RawRecord>, sp: CoverageSpan)
    requires WellFormedLog(rs) && ValidSpan(sp) && SpanError(ById(rs), sp).None?
    ensures SpanResolves(rs, sp)
  {
    var raw := ById(rs);
    forall k | 0 <= k < |sp.ids|
      ensures sp.start - 1 + k < |rs| && rs[sp.start - 1 + k].id == sp.ids[k] && rs[sp.start - 1 + k].sha == sp.hashes[k]
    {
      assert sp.ids[k] in raw;
      assert raw[sp.ids[k]].sequence == sp.start + k && raw[sp.ids[k]].sha == sp.hashes[k];
      ByIdLookup(rs, sp.ids[k]);
      var i :| 0 <= i < |rs| && rs[i] == raw[sp.ids[k]];
      assert rs[i].sequence == i + 1;
    }
    assert sp.ids[|sp.ids| - 1] in raw;
  }

  lemma {:induction false} SpanErrorFound(rs: seq<RawRecord>, sp: CoverageSpan)
    requires WellFormedLog(rs) && ValidSpan(sp) && SpanResolves(rs, sp)
    requires forall k | 0 <= k < |sp.ids| :: sp.ids[k] in ById(rs) && ById(rs)[sp.ids[k]] == rs[sp.start - 1 + k]
    ensures SpanError(ById(rs), sp).None?
  {
    forall id | id in sp.ids ensures id in ById(rs) {
      var k :| 0 <= k < |sp.ids| && sp.ids[k] == id;
    }
  }

  lemma {:induction false} SpansErrorNone(rs: seq<RawRecord>, spans: seq<CoverageSpan>)
    requires WellFormedLog(rs) && forall i | 0 <= i < |spans| :: ValidSpan(spans[i])
    ensures SpansError(ById(rs), spans).None? <==> forall i | 0 <= i < |spans| :: SpanResolves(rs, spans[i])
  {
    if spans != [] {
      SpansErrorNone(rs, spans[..|spans| - 1]);
      SpanErrorNone(rs, spans[|spans| - 1]);
    }
  }

  /** The dictionary look-ups of `_validate_sources` decide exactly that no reference dangles. */
  lemma {:induction false} SourcesCheckIff(d: Document, rs: seq<RawRecord>)
    requires WellFormedLog(rs) && forall i | 0 <= i < |d.overview.spans| :: ValidSpan(d.overview.spans[i])
    ensures SourcesCheck(d, Ok(rs)).Ok? <==> SourcesResolve(d, rs)
  {
    MemoriesErrorNone(rs, d.memories);
    SpansErrorNone(rs, d.overview.spans);
  }

  lemma {:induction false} HasRecordMono(rs: seq<RawRecord>, more: seq<RawRecord>, src: SourceReference)
    requires HasRecord(rs, src) && rs <= more
    ensures HasRecord(more, src)
  {
    var r :| r in rs && r.id == src.recordId && r.sha == src.sha;
    assert r in more;
  }

  lemma {:induction false} SourcesResolveMono(d: Document, rs: seq<RawRecord>, more: seq<RawRecord>)
    requires SourcesResolve(d, rs) && rs <= more
    ensures SourcesResolve(d, more)
  {
    forall i, j | 0 <= i < |d.memories| && 0 <= j < |d.memories[i].sources| ensures HasRecord(more, d.memories[i].sources[j]) {
      HasRecordMono(rs, more, d.memories[i].sources[j]);
    }
  }

  // ---------------------------------------------------------------- operations

  predicate WithinReadLimits(cfg: Settings, d: Document) {
    && cfg.documentBytes(d) <= cfg.maxDocumentBytes
    && |d.memories| <= cfg.maxItems
    && |d.overview.text| <= cfg.maxOverviewChars
  }

  /** `_parse_bytes`. */
  ghost function ParseFile(cfg: Settings, f: DocumentFile, read: Outcome<seq<RawRecord>>): (r: Outcome<Document>)
    requires !read.Crashed?
    ensures !r.Crashed? && (r.Ok? ==> f == Holds(r.value))
  {
    match f
    case Missing => Err("MEMORY_DOCUMENT_INVALID")
    case Unparsable => Err("MEMORY_DOCUMENT_INVALID")
    case Holds(d) =>
      if cfg.documentBytes(d) > cfg.maxDocumentBytes then Err("MEMORY_DOCUMENT_TOO_LARGE")
      else if !ValidDocument(d) then Err("MEMORY_DOCUMENT_INVALID")
      else if |d.memories| > cfg.maxItems then Err("MEMORY_DOCUMENT_TOO_LARGE")
      else if |d.overview.text| > cfg.maxOverviewChars then Err("MEMORY_OVERVIEW_TOO_LARGE")
      else
        var sources := SourcesCheck(d, read);
        if sources.Ok? then Ok(d) else Err(sources.code)
  }

  /** What `load` gives: the document and the two fields it leaves in the store. */
  datatype Loaded = Loaded(document: Document, readOnly: bool, loadedHash: Option<DocumentFile>)

  function RefreshLastValid(s: DiskState): seq<DiskState> {
    if s.lastValid == s.primary then [] else [s.(lastValid := s.primary)]
  }

  predicate SafeTexts(cfg: Settings, d: Document) {
    (forall m | m in d.memories :: cfg.safe(m.text)) && cfg.safe(d.overview.text)
  }

  /** `commit`, with the store's two fields as arguments: two files, two steps. */
  ghost function CommitTrace(cfg: Settings, s: DiskState, d: Document, readOnly: bool, loadedHash: Option<DocumentFile>): (t: Trace<Document>)
    ensures !t.outcome.Crashed? && (t.outcome.Ok? ==> t.outcome.value == d)
  {
    if readOnly then Trace([], Err("MEMORY_READ_ONLY_FALLBACK"))
    else if !ValidDocument(d) then Trace([], Err("MEMORY_DOCUMENT_INVALID"))
    else
      var sources := SourcesCheck(d, ReadSegments(s.segments));
      if !sources.Ok? then Trace([], Err(sources.code))
      else if !SafeTexts(cfg, d) then Trace([], Err("CREDENTIAL_REJECTED"))
      else if |d.overview.text| > cfg.maxOverviewChars then Trace([], Err("MEMORY_OVERVIEW_TOO_LARGE"))
      else if !s.primary.Missing? && loadedHash.Some? && loadedHash.value != s.primary then Trace([], Err("CONCURRENT_MANUAL_EDIT"))
      else if cfg.documentBytes(d) > cfg.maxDocumentBytes then Trace([], Err("MEMORY_DOCUMENT_TOO_LARGE"))
      else
        var written := s.(primary := Holds(d));
        Trace([written] + RefreshLastValid(written), Ok(d))
  }

  /** The memories of a hand-edited document, with the changed ones marked manual. */
  function MarkManual(previous: Document, ms: seq<MemoryItem>, now: int): seq<MemoryItem> {
    seq(|ms|, i requires 0 <= i < |ms| =>
      if ms[i] in previous.memories then ms[i] else ms[i].(createdBy := Manual, updatedAt := now))
  }

  function Reconciled(previous: Document, edited: Document, now: int): Document {
    Document(previous.revision + 1, previous.curation,
             edited.overview.(revision := previous.revision + 1),
             MarkManual(previous, edited.memories, now))
  }

  /** An item of a hand edit: as it was when it was not touched, else as the user wrote it, and
      marked. */
  predicate KeepsItem(previous: Document, edited: MemoryItem, now: int, m: MemoryItem) {
    m == if edited in previous.memories then edited else edited.(createdBy := Manual, updatedAt := now)
  }

  /** `d` takes over the hand edit `edited` of `previous`: every item in its place, the text of
      the overview as the user wrote it, the coverage of both, and the next revision. */
  predicate KeepsEdit(previous: Document, edited: Document, now: int, d: Document) {
    && d.revision == d.overview.revision == previous.revision + 1
    && d.curation == edited.curation == previous.curation
    && d.overview.spans == edited.overview.spans == previous.overview.spans && d.overview.text == edited.overview.text
    && |d.memories| == |edited.memories|
    && forall i | 0 <= i < |d.memories| :: KeepsItem(previous, edited.memories[i], now, d.memories[i])
  }

  lemma {:induction false} ReconciledKeeps(previous: Document, edited: Document, now: int)
    requires edited.curation == previous.curation && edited.overview.spans == previous.overview.spans
    ensures KeepsEdit(previous, edited, now, Reconciled(previous, edited, now))
  {
  }

  /** Only one document takes over a hand edit. */
  lemma {:induction false} OneKeepsEdit(previous: Document, edited: Document, now: int, a: Document, b: Document)
    requires KeepsEdit(previous, edited, now, a) && KeepsEdit(previous, edited, now, b)
    ensures a == b
  {
    assert forall i | 0 <= i < |a.memories| :: KeepsItem(previous, edited.memories[i], now, a.memories[i]) && KeepsItem(previous, edited.memories[i], now, b.memories[i]);
    assert a.memories == b.memories;
  }

  function AsLoaded(d: Document): Loaded {
    Loaded(d, false, Some(Holds(d)))
  }

  function MapOk<T, U>(o: Outcome<T>, f: T -> U): Outcome<U> {
    if o.Ok? then Ok(f(o.value)) else o.PropagateFailure()
  }

  /** `load`: parse, fall back to the copy, reconcile a hand edit, or refresh the copy. */
  ghost function LoadTrace(cfg: Settings, s: DiskState, now: int): (t: Trace<Loaded>)
    ensures !t.outcome.Crashed?
  {
    var parsed := ParseFile(cfg, s.primary, ReadSegments(s.segments));
    if parsed.Ok? then AdoptTrace(cfg, s, parsed.value, now) else FallBackTrace(cfg, s, parsed.code)
  }

  /** An unreadable primary file: the copy is served read-only. */
  ghost function FallBackTrace(cfg: Settings, s: DiskState, code: string): (t: Trace<Loaded>)
    ensures !t.outcome.Crashed? && t.writes == []
  {
    if s.lastValid.Missing? then Trace([], Err(code))
    else
      var fallback := ParseFile(cfg, s.lastValid, ReadSegments(s.segments));
      Trace([], if fallback.Ok? then Ok(Loaded(fallback.value, true, None)) else Err(fallback.code))
  }

  /** A readable primary file `d`. */
  ghost function AdoptTrace(cfg: Settings, s: DiskState, d: Document, now: int): (t: Trace<Loaded>)
    ensures !t.outcome.Crashed?
  {
    if s.lastValid.Missing? || s.lastValid == s.primary then
      Trace(RefreshLastValid(s), Ok(AsLoaded(d)))
    else
      var previous := ParseFile(cfg, s.lastValid, ReadSegments(s.segments));
      if !previous.Ok? then Trace([], Err(previous.code))
      else if d.memories == previous.value.memories then
        Trace(RefreshLastValid(s), Ok(AsLoaded(d)))
      else if d.curation != previous.value.curation || d.overview.spans != previous.value.overview.spans then
        Trace([], Err("MEMORY_DOCUMENT_INVALID"))
      else
        var c := CommitTrace(cfg, s, Reconciled(previous.value, d, now), false, Some(s.primary));
        Trace(c.writes, MapOk(c.outcome, AsLoaded))
  }

  function DocumentOf(l: Loaded): Document {
    l.document
  }

  ghost function LoadDocumentTrace(cfg: Settings, s: DiskState, now: int): Trace<Document> {
    var t := LoadTrace(cfg, s, now);
    Trace(t.writes, MapOk(t.outcome, DocumentOf))
  }

  ghost function InitializeTrace(cfg: Settings, s: DiskState, now: int): (t: Trace<Loaded>)
    ensures !t.outcome.Crashed?
  {
    if !s.primary.Missing? then LoadTrace(cfg, s, now)
    else if cfg.documentBytes(EMPTY_DOCUMENT) > cfg.maxDocumentBytes then Trace([], Err("MEMORY_DOCUMENT_TOO_LARGE"))
    else
      var created := s.(primary := Holds(EMPTY_DOCUMENT));
      Then(Trace([created], Ok(())), LoadTrace(cfg, created, now))
  }

  /** `publish_target`: forward only from the recorded baseline or the target itself. */
  ghost function PublishTrace(cfg: Settings, s: DiskState, baseline: PreTurnCheckpoint, target: Document,
                              targetIdentity: Option<Document>, now: int): (t: Trace<Document>)
    ensures !t.outcome.Crashed?
  {
    if targetIdentity != Some(target) then Trace([], Err("TURN_TRANSACTION_INVALID"))
    else
      var load := LoadTrace(cfg, s, now);
      if !load.outcome.Ok? then Trace(load.writes, load.outcome.PropagateFailure())
      else
        var current := load.outcome.value;
        if current.document == target then Trace(load.writes, Ok(target))
        else if Some(current.document.revision) != baseline.longTermRevision
                || Some(current.document) != baseline.longTermIdentity then
          Trace(load.writes, Err("TURN_TRANSACTION_CONFLICT"))
        else Then(load, CommitTrace(cfg, End(s, load), target, current.readOnly, current.loadedHash))
  }

  predicate ReferencesRecord(d: Document, r: RawRecord) {
    || r.sequence <= d.curation.frontier
    || r.id in d.curation.coveredIds
    || (exists i | 0 <= i < |d.overview.spans| :: r.id in d.overview.spans[i].ids)
    || (exists i, j | 0 <= i < |d.memories| && 0 <= j < |d.memories[i].sources| :: d.memories[i].sources[j].recordId == r.id)
  }

  /** `assert_pending_discardable`. */
  ghost function DiscardableCheck(cfg: Settings, s: DiskState, r: RawRecord): Outcome<()> {
    var parsed := ParseFile(cfg, s.primary, ReadSegments(s.segments));
    if !parsed.Ok? then Err(parsed.code)
    else if ReferencesRecord(parsed.value, r) then Err("MEMORY_PENDING_REFERENCED")
    else Ok(())
  }

  const CLEARED_TEXT := "长期记忆已清空；既有已整理范围仅保留来源覆盖索引。"

  function Cleared(d: Document): Document {
    Document(d.revision + 1, d.curation, Overview(d.revision + 1, CLEARED_TEXT, d.overview.spans), [])
  }

  ghost function ClearMemoriesTrace(cfg: Settings, s: DiskState, now: int): Trace<Document> {
    var init := InitializeTrace(cfg, s, now);
    if !init.outcome.Ok? then Trace(init.writes, init.outcome.PropagateFailure())
    else
      var l := init.outcome.value;
      Then(init, CommitTrace(cfg, End(s, init), Cleared(l.document), l.readOnly, l.loadedHash))
  }

  ghost function FactoryTrace(cfg: Settings, s: DiskState): Trace<Document> {
    CommitTrace(cfg, s, EMPTY_DOCUMENT, false, if s.primary.Missing? then None else Some(s.primary))
  }

  class LongTermStore {
    const cfg: Settings
    const disk: Disk
    const archive: RawRecordArchive
    var readOnly: bool
    var loadedHash: Option<DocumentFile>

    ghost predicate Valid() {
      archive.disk == disk && archive.cfg == cfg
    }

    constructor (cfg: Settings, disk: Disk, archive: RawRecordArchive)
      requires archive.disk == disk && archive.cfg == cfg
      ensures Valid() && this.disk == disk && this.cfg == cfg && this.archive == archive
      ensures !readOnly && loadedHash == None
    {
      this.cfg, this.disk, this.archive := cfg, disk, archive;
      readOnly, loadedHash := false, None;
    }

    method ValidateSources(d: Document) returns (r: Outcome<()>)
      requires Valid() && forall i | 0 <= i < |d.overview.spans| :: ValidSpan(d.overview.spans[i])
      ensures r == SourcesCheck(d, ReadSegments(disk.segments))
    {
      if d.memories == [] && d.overview.spans == [] {
        return Ok(());
      }
      var read := archive.ReadAll();
      if !read.Ok? {
        return Err(read.code);
      }
      var raw := ById(read.value);
      var m := CheckMemories(raw, d.memories);
      if m.Some? {
        return Err(m.value);
      }
      var sp := CheckSpans(raw, d.overview.spans);
      return if sp.Some? then Err(sp.value) else Ok(());
    }

    static method CheckMemories(raw: map<string, RawRecord>, ms: seq<MemoryItem>) returns (e: Option<string>)
      ensures e == MemoriesError(raw, ms)
    {
      for i := 0 to |ms|
        invariant MemoriesError(raw, ms[..i]) == None
      {
        assert ms[..i + 1][..i] == ms[..i];
        var srcs := ms[i].sources;
        for j := 0 to |srcs|
          invariant RefsError(raw, srcs[..j]) == None
        {
          assert srcs[..j + 1][..j] == srcs[..j];
          e := RefError(raw, srcs[j]);
          if e.Some? {
            RefsErrorPrefix(raw, srcs, j + 1);
            MemoriesErrorPrefix(raw, ms, i + 1);
            return;
          }
        }
        assert srcs[..|srcs|] == srcs;
      }
      assert ms[..|ms|] == ms;
      return None;
    }

    static method CheckSpans(raw: map<string, RawRecord>, spans: seq<CoverageSpan>) returns (e: Option<string>)
      requires forall i | 0 <= i < |spans| :: ValidSpan(spans[i])
      ensures e == SpansError(raw, spans)
    {
      for i := 0 to |spans|
        invariant SpansError(raw, spans[..i]) == None
      {
        assert spans[..i + 1][..i] == spans[..i];
        e := SpanError(raw, spans[i]);
        if e.Some? {
          SpansErrorPrefix(raw, spans, i + 1);
          return;
        }
      }
      assert spans[..|spans|] == spans;
      return None;
    }

    method Parse(f: DocumentFile) returns (r: Outcome<Document>)
      requires Valid()
      ensures r == ParseFile(cfg, f, ReadSegments(disk.segments))
    {
      if !f.Holds? {
        return Err("MEMORY_DOCUMENT_INVALID");
      }
      var d := f.document;
      if cfg.documentBytes(d) > cfg.maxDocumentBytes {
        return Err("MEMORY_DOCUMENT_TOO_LARGE");
      }
      var valid := ValidateDocument(d);
      if !valid {
        return Err("MEMORY_DOCUMENT_INVALID");
      }
      if |d.memories| > cfg.maxItems {
        return Err("MEMORY_DOCUMENT_TOO_LARGE");
      }
      if |d.overview.text| > cfg.maxOverviewChars {
        return Err("MEMORY_OVERVIEW_TOO_LARGE");
      }
      var sources := ValidateSources(d);
      return if sources.Ok? then Ok(d) else Err(sources.code);
    }

    /** `_refresh_last_valid`: no write when the copy already equals the primary file. */
    method RefreshCopy() returns (r: Outcome<()>)
      modifies disk
      ensures Follows(old(disk.State()), old(disk.fuse), Trace(RefreshLastValid(old(disk.State())), Ok(())), disk.State(), disk.fuse, r)
    {
      if disk.lastValid == disk.primary {
        return Ok(());
      }
      r := disk.Step(disk.State().(lastValid := disk.primary));
    }

    method Commit(d: Document) returns (r: Outcome<Document>)
      requires Valid()
      modifies disk, this`loadedHash
      ensures Follows(old(disk.State()), old(disk.fuse),
                      CommitTrace(cfg, old(disk.State()), d, readOnly, old(loadedHash)), disk.State(), disk.fuse, r)
      ensures r.Ok? ==> loadedHash == Some(Holds(d)) && !readOnly
    {
      if readOnly {
        return Err("MEMORY_READ_ONLY_FALLBACK");
      }
      var valid := ValidateDocument(d);
      if !valid {
        return Err("MEMORY_DOCUMENT_INVALID");
      }
      var sources := ValidateSources(d);
      if !sources.Ok? {
        return Err(sources.code);
      }
      if !SafeTexts(cfg, d) {
        return Err("CREDENTIAL_REJECTED");
      }
      if |d.overview.text| > cfg.maxOverviewChars {
        return Err("MEMORY_OVERVIEW_TOO_LARGE");
      }
      if !disk.primary.Missing? && loadedHash.Some? && loadedHash.value != disk.primary {
        return Err("CONCURRENT_MANUAL_EDIT");
      }
      if cfg.documentBytes(d) > cfg.maxDocumentBytes {
        return Err("MEMORY_DOCUMENT_TOO_LARGE");
      }
      var _ :- disk.Step(disk.State().(primary := Holds(d)));
      loadedHash := Some(Holds(d));
      var _ :- RefreshCopy();
      return Ok(d);
    }

    method Load(now: int) returns (r: Outcome<Document>)
      requires Valid()
      modifies disk, this
      ensures Follows(old(disk.State()), old(disk.fuse), LoadDocumentTrace(cfg, old(disk.State()), now), disk.State(), disk.fuse, r)
      ensures r.Ok? ==> LoadTrace(cfg, old(disk.State()), now).outcome == Ok(Loaded(r.value, readOnly, loadedHash))
    {
      var parsed := Parse(disk.primary);
      if parsed.Ok? {
        r := Adopt(parsed.value, now);
      } else {
        r := FallBack(parsed.code);
      }
    }

    method FallBack(code: string) returns (r: Outcome<Document>)
      requires Valid()
      modifies this
      ensures r == MapOk(FallBackTrace(cfg, disk.State(), code).outcome, DocumentOf)
      ensures r.Ok? ==> FallBackTrace(cfg, disk.State(), code).outcome == Ok(Loaded(r.value, readOnly, loadedHash))
    {
      if disk.lastValid.Missing? {
        return Err(code);
      }
      var fallback :- Parse(disk.lastValid);
      readOnly, loadedHash := true, None;
      return Ok(fallback);
    }

    method Adopt(document: Document, now: int) returns (r: Outcome<Document>)
      requires Valid() && disk.primary == Holds(document)
      modifies disk, this
      ensures var t := AdoptTrace(cfg, old(disk.State()), document, now);
              Follows(old(disk.State()), old(disk.fuse), Trace(t.writes, MapOk(t.outcome, DocumentOf)), disk.State(), disk.fuse, r)
      ensures r.Ok? ==> AdoptTrace(cfg, old(disk.State()), document, now).outcome == Ok(Loaded(r.value, readOnly, loadedHash))
    {
      if disk.lastValid.Missing? || disk.lastValid == disk.primary {
        r := Refresh(document);
        return;
      }
      var previous :- Parse(disk.lastValid);
      if document.memories == previous.memories {
        r := Refresh(document);
      } else if document.curation != previous.curation || document.overview.spans != previous.overview.spans {
        r := Err("MEMORY_DOCUMENT_INVALID");
      } else {
        readOnly, loadedHash := false, Some(disk.primary);
        r := Commit(Reconciled(previous, document, now));
      }
    }

    /** The document is taken as it is; the copy follows it. */
    method Refresh(document: Document) returns (r: Outcome<Document>)
      requires disk.primary == Holds(document)
      modifies disk, this
      ensures Follows(old(disk.State()), old(disk.fuse), Trace(RefreshLastValid(old(disk.State())), Ok(document)), disk.State(), disk.fuse, r)
      ensures r.Ok? ==> readOnly == false && loadedHash == Some(Holds(document))
    {
      readOnly, loadedHash := false, Some(disk.primary);
      var _ :- RefreshCopy();
      return Ok(document);
    }

    method Initialize(now: int) returns (r: Outcome<Document>)
      requires Valid()
      modifies disk, this
      ensures Follows(old(disk.State()), old(disk.fuse),
                      Trace(InitializeTrace(cfg, old(disk.State()), now).writes, MapOk(InitializeTrace(cfg, old(disk.State()), now).outcome, DocumentOf)),
                      disk.State(), disk.fuse, r)
      ensures r.Ok? ==> InitializeTrace(cfg, old(disk.State()), now).outcome == Ok(Loaded(r.value, readOnly, loadedHash))
    {
      if !disk.primary.Missing? {
        r := Load(now);
        return;
      }
      if cfg.documentBytes(EMPTY_DOCUMENT) > cfg.maxDocumentBytes {
        return Err("MEMORY_DOCUMENT_TOO_LARGE");
      }
      ghost var s, fuse, created := disk.State(), disk.fuse, disk.State().(primary := Holds(EMPTY_DOCUMENT));
      var step := disk.Step(disk.State().(primary := Holds(EMPTY_DOCUMENT)));
      ghost var s1, fuse1 := disk.State(), disk.fuse;
      if step.Ok? {
        r := Load(now);
        FollowsThen(s, fuse, Trace([created], Ok(())), s1, fuse1, step, LoadDocumentTrace(cfg, s1, now), disk.State(), disk.fuse, r);
      } else {
        r := step.PropagateFailure();
      }
    }

    method PublishTarget(baseline: PreTurnCheckpoint, target: Document, targetIdentity: Option<Document>, now: int)
      returns (r: Outcome<Document>)
      requires Valid()
      modifies disk, this
      ensures Follows(old(disk.State()), old(disk.fuse),
                      PublishTrace(cfg, old(disk.State()), baseline, target, targetIdentity, now), disk.State(), disk.fuse, r)
    {
      if targetIdentity != Some(target) {
        return Err("TURN_TRANSACTION_INVALID");
      }
      ghost var s, fuse := disk.State(), disk.fuse;
      var current :- Load(now);
      if current == target {
        return Ok(current);
      }
      if Some(current.revision) != baseline.longTermRevision || Some(current) != baseline.longTermIdentity {
        return Err("TURN_TRANSACTION_CONFLICT");
      }
      ghost var s1, fuse1, l := disk.State(), disk.fuse, Loaded(current, readOnly, loadedHash);
      r := Commit(target);
      FollowsThen(s, fuse, LoadTrace(cfg, s, now), s1, fuse1, Ok(l),
                  CommitTrace(cfg, s1, target, l.readOnly, l.loadedHash), disk.State(), disk.fuse, r);
    }

    method AssertPendingDiscardable(record: RawRecord) returns (r: Outcome<()>)
      requires Valid()
      ensures r == DiscardableCheck(cfg, disk.State(), record)
    {
      var document :- Parse(disk.primary);
      if ReferencesRecord(document, record) {
        return Err("MEMORY_PENDING_REFERENCED");
      }
      return Ok(());
    }

    method ClearLongTermMemories(now: int) returns (r: Outcome<Document>)
      requires Valid()
      modifies disk, this
      ensures Follows(old(disk.State()), old(disk.fuse), ClearMemoriesTrace(cfg, old(disk.State()), now), disk.State(), disk.fuse, r)
    {
      ghost var s, fuse := disk.State(), disk.fuse;
      var document :- Initialize(now);
      ghost var s1, fuse1, l := disk.State(), disk.fuse, Loaded(document, readOnly, loadedHash);
      r := Commit(Cleared(document));
      FollowsThen(s, fuse, InitializeTrace(cfg, s, now), s1, fuse1, Ok(l),
                  CommitTrace(cfg, s1, Cleared(document), l.readOnly, l.loadedHash), disk.State(), disk.fuse, r);
    }

    /** An explicit factory reset may replace an invalid primary file. */
    method ResetToFactoryState() returns (r: Outcome<Document>)
      requires Valid()
      modifies disk, this
      ensures Follows(old(disk.State()), old(disk.fuse), FactoryTrace(cfg, old(disk.State())), disk.State(), disk.fuse, r)
    {
      readOnly := false;
      loadedHash := if disk.primary.Missing? then None else Some(disk.primary);
      r := Commit(EMPTY_DOCUMENT);
    }
  }

  lemma {:induction false} RefsErrorPrefix(raw: map<string, RawRecord>, srcs: seq<SourceReference>, k: nat)
    requires k <= |srcs| && RefsError(raw, srcs[..k]).Some?
    ensures RefsError(raw, srcs) == RefsError(raw, srcs[..k])
  {
    if k == |srcs| {
      assert srcs[..k] == srcs;
    } else {
      assert srcs[..|srcs| - 1][..k] == srcs[..k];
      RefsErrorPrefix(raw, srcs[..|srcs| - 1], k);
    }
  }

  lemma {:induction false} MemoriesErrorPrefix(raw: map<string, RawRecord>, ms: seq<MemoryItem>, k: nat)
    requires k <= |ms| && MemoriesError(raw, ms[..k]).Some?
    ensures MemoriesError(raw, ms) == MemoriesError(raw, ms[..k])
  {
    if k == |ms| {
      assert ms[..k] == ms;
    } else {
      assert ms[..|ms| - 1][..k] == ms[..k];
      MemoriesErrorPrefix(raw, ms[..|ms| - 1], k);
    }
  }

  lemma {:induction false} SpansErrorPrefix(raw: map<string, RawRecord>, spans: seq<CoverageSpan>, k: nat)
    requires k <= |spans| && forall i | 0 <= i < |spans| :: ValidSpan(spans[i])
    requires SpansError(raw, spans[..k]).Some?
    ensures SpansError(raw, spans) == SpansError(raw, spans[..k])
  {
    if k == |spans| {
      assert spans[..k] == spans;
    } else {
      assert spans[..|spans| - 1][..k] == spans[..k];
      SpansErrorPrefix(raw, spans[..|spans| - 1], k);
    }
  }
}
