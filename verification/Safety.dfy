/** What every atomic step of every storage operation keeps. */
module Safety {
  import opened Outcomes
  import opened Models
  import opened Storage
  import opened RawArchive
  import opened LongTerm
  import opened Transaction
  import opened Curation
  import opened Coherence

  function Log(s: DiskState): seq<RawRecord> {
    var read := ReadSegments(s.segments);
    if read.Ok? then read.value else []
  }

  ghost predicate SafeLog(cfg: Settings, segs: seq<Segment>) {
    && ReadSegments(segs).Ok? && LogShape(ReadSegments(segs).value)
    && WithinLimits(cfg, segs) && OnlyLastEmpty(segs)
    && (segs != [] && segs[|segs| - 1].lines == [] ==> CompletePairs(ReadSegments(segs).value))
  }

  ghost predicate SafeDocuments(primary: DocumentFile, lastValid: DocumentFile, rs: seq<RawRecord>) {
    || (primary.Missing? && lastValid.Missing?)
    || (primary.Holds? && Coherent(primary.document, rs)
        && (lastValid.Missing? || (lastValid.Holds? && Coherent(lastValid.document, rs))))
  }

  /** The log once the journal's decision is published over the baseline. */
  function Full(j: Journal, baseline: seq<RawRecord>): seq<RawRecord> {
    baseline + [j.user] + (if j.assistant.Some? then [j.assistant.value] else [])
  }

  /** The journal was opened over `baseline`, and the log is still on the way from some
      prefix of it to the published log. */
  ghost predicate Anchored(j: Journal, baseline: seq<RawRecord>, rs: seq<RawRecord>) {
    && CompletePairs(baseline)
    && WellFormedLog(Full(j, baseline)) && LogShape(Full(j, baseline))
    && j.checkpoint.rawIdentity == Identity(baseline)
    && rs <= Full(j, baseline)
    && (j.target.Some? ==> Coherent(j.target.value, baseline))
  }

  ghost predicate SafeJournal(f: JournalFile, rs: seq<RawRecord>) {
    match f
    case NoJournal => true
    case BadJournal => false
    case JournalOf(j) => exists baseline :: Anchored(j, baseline, rs)
  }

  /** The invariant of the disk, at every moment: the log is readable, turn-shaped and within
      its limits, no reference of either document file dangles, and an open journal matches. */
  ghost predicate SafeDisk(cfg: Settings, s: DiskState) {
    && SafeLog(cfg, s.segments)
    && SafeDocuments(s.primary, s.lastValid, Log(s))
    && SafeJournal(s.journal, Log(s))
  }

  /** The answered turns: everything but an unanswered last USER. */
  function AnsweredPart(rs: seq<RawRecord>): seq<RawRecord> {
    if PendingOf(rs).Some? then rs[..|rs| - 1] else rs
  }

  /** Every step leaves a safe disk whose log still starts with `base`. */
  ghost predicate Safe<T>(cfg: Settings, base: seq<RawRecord>, t: Trace<T>) {
    forall i | 0 <= i < |t.writes| :: SafeDisk(cfg, t.writes[i]) && base <= Log(t.writes[i])
  }

  lemma {:induction false} SafeAfter<T>(cfg: Settings, base: seq<RawRecord>, s: DiskState, t: Trace<T>, k: nat)
    requires SafeDisk(cfg, s) && base <= Log(s) && Safe(cfg, base, t)
    ensures SafeDisk(cfg, After(s, t, k)) && base <= Log(After(s, t, k))
  {
  }

  lemma {:induction false} SafeThen<T, U>(cfg: Settings, base: seq<RawRecord>, t: Trace<T>, u: Trace<U>)
    requires Safe(cfg, base, t) && (t.outcome.Ok? ==> Safe(cfg, base, u))
    ensures Safe(cfg, base, Then(t, u))
  {
  }

  lemma {:induction false} LogWellFormed(s: DiskState)
    requires ReadSegments(s.segments).Ok?
    ensures WellFormedLog(Log(s))
  {
    ReadSegmentsSound(s.segments);
  }

  // ---------------------------------------------------------------- log steps

  /** Where an appended record leaves the disk. */
  function Appended(cfg: Settings, s: DiskState, r: RawRecord): DiskState {
    s.(segments := AppendSegments(cfg, s.segments, r))
  }

  lemma {:induction false} AppendStep(cfg: Settings, s: DiskState, r: RawRecord)
    requires ValidSettings(cfg) && SafeDisk(cfg, s)
    requires ValidRecord(r) && r.sequence == |Log(s)| + 1 && Fresh(Log(s), r)
    requires cfg.lineBytes(r) <= cfg.maxRecordBytes
    requires LogShape(Log(s) + [r]) && SafeJournal(s.journal, Log(s) + [r])
    ensures SafeDisk(cfg, Appended(cfg, s, r)) && Log(Appended(cfg, s, r)) == Log(s) + [r]
  {
    AppendReads(cfg, s.segments, Log(s), r);
    AppendKeepsLog(cfg, s.segments, Log(s), r);
    DocumentsKept(s.primary, s.lastValid, Log(s), Log(s) + [r]);
  }

  lemma {:induction false} AppendKeepsLog(cfg: Settings, segs: seq<Segment>, rs: seq<RawRecord>, r: RawRecord)
    requires ValidSettings(cfg) && WithinLimits(cfg, segs) && OnlyLastEmpty(segs)
    requires cfg.lineBytes(r) <= cfg.maxRecordBytes && LogShape(rs + [r])
    requires ReadSegments(AppendSegments(cfg, segs, r)) == Ok(rs + [r])
    ensures SafeLog(cfg, AppendSegments(cfg, segs, r))
  {
    AppendKeepsLimits(cfg, segs, r);
  }

  /** Documents stay safe while the log keeps the records up to their frontiers. */
  lemma {:induction false} DocumentsKept(primary: DocumentFile, lastValid: DocumentFile, rs: seq<RawRecord>, other: seq<RawRecord>)
    requires SafeDocuments(primary, lastValid, rs)
    requires rs <= other || (other <= rs
      && (primary.Holds? ==> primary.document.curation.frontier <= |other|)
      && (lastValid.Holds? ==> lastValid.document.curation.frontier <= |other|))
    ensures SafeDocuments(primary, lastValid, other)
  {
    if primary.Holds? {
      CoherentFrame(primary.document, rs, other);
    }
    if lastValid.Holds? {
      CoherentFrame(lastValid.document, rs, other);
    }
  }

  lemma {:induction false} AppendCases(cfg: Settings, s: DiskState, draft: RawRecord)
    requires ReadSegments(s.segments).Ok?
    ensures var t := AppendTrace(cfg, s, draft);
            var r := Renumbered(draft, |Log(s)| + 1);
            if t.outcome.Ok? then
              && t == Trace([Appended(cfg, s, r)], Ok(r)) && ValidRecord(r)
              && cfg.lineBytes(r) <= cfg.maxRecordBytes
              && (forall x | x in Log(s) :: x.turn != r.turn || x.role != r.role)
            else t.writes == []
  {
  }

  /** The one write of an append, whatever the archive then decides. */
  lemma {:induction false} AppendSafe(cfg: Settings, s: DiskState, draft: RawRecord)
    requires ValidSettings(cfg) && SafeDisk(cfg, s)
    requires draft.id !in IdsOf(Log(s))
    requires var r := Renumbered(draft, |Log(s)| + 1); LogShape(Log(s) + [r]) && SafeJournal(s.journal, Log(s) + [r])
    ensures AppendKeeps(cfg, s, Renumbered(draft, |Log(s)| + 1), AppendTrace(cfg, s, draft))
  {
    var t := AppendTrace(cfg, s, draft);
    AppendCases(cfg, s, draft);
    if t.outcome.Ok? {
      var r := Renumbered(draft, |Log(s)| + 1);
      forall x | x in Log(s) ensures x.id != r.id {
        var i :| 0 <= i < |Log(s)| && Log(s)[i] == x;
        assert IdsOf(Log(s))[i] == x.id;
      }
      AppendStep(cfg, s, r);
    }
  }

  /** An append adds exactly `r` at the end of the log, or nothing. */
  ghost predicate AppendKeeps(cfg: Settings, s: DiskState, r: RawRecord, t: Trace<RawRecord>) {
    && Safe(cfg, Log(s), t)
    && (t.outcome.Ok? ==>
          && t.outcome.value == r && t.writes == [Appended(cfg, s, r)]
          && SafeDisk(cfg, End(s, t)) && Log(End(s, t)) == Log(s) + [r])
  }

  lemma {:induction false} SafeJournalPrefix(f: JournalFile, rs: seq<RawRecord>, shorter: seq<RawRecord>)
    requires SafeJournal(f, rs) && shorter <= rs
    ensures SafeJournal(f, shorter)
  {
    if f.JournalOf? {
      var baseline :| Anchored(f.journal, baseline, rs);
      assert Anchored(f.journal, baseline, shorter);
    }
  }

  lemma {:induction false} DropStep(cfg: Settings, s: DiskState)
    requires SafeDisk(cfg, s) && PendingOf(Log(s)).Some?
    ensures s.segments != [] && s.segments[|s.segments| - 1].lines != []
    ensures var next := s.(segments := DropLastLine(s.segments));
            SafeDisk(cfg, next) && Log(next) == AnsweredPart(Log(s)) && CompletePairs(Log(next))
  {
    var rs := Log(s);
    DropKeepsLog(cfg, s.segments, rs);
    PendingBeyondFrontiers(s);
    DocumentsKept(s.primary, s.lastValid, rs, AnsweredPart(rs));
    SafeJournalPrefix(s.journal, rs, AnsweredPart(rs));
  }

  lemma {:induction false} DropKeepsLog(cfg: Settings, segs: seq<Segment>, rs: seq<RawRecord>)
    requires SafeLog(cfg, segs) && ReadSegments(segs) == Ok(rs) && PendingOf(rs).Some?
    ensures segs != [] && segs[|segs| - 1].lines != []
    ensures SafeLog(cfg, DropLastLine(segs)) && ReadSegments(DropLastLine(segs)) == Ok(AnsweredPart(rs))
    ensures CompletePairs(AnsweredPart(rs))
  {
    DropLastLineReads(segs, rs);
    DropLastLineKeepsLimits(cfg, segs);
  }

  lemma {:induction false} PendingBeyondFrontiers(s: DiskState)
    requires ReadSegments(s.segments).Ok? && LogShape(Log(s)) && PendingOf(Log(s)).Some?
    requires SafeDocuments(s.primary, s.lastValid, Log(s))
    ensures s.primary.Holds? ==> PendingFree(s.primary.document, Log(s))
    ensures s.lastValid.Holds? ==> PendingFree(s.lastValid.document, Log(s))
  {
    FilePendingFree(s, s.primary);
    FilePendingFree(s, s.lastValid);
  }

  lemma {:induction false} FilePendingFree(s: DiskState, f: DocumentFile)
    requires ReadSegments(s.segments).Ok? && LogShape(Log(s)) && PendingOf(Log(s)).Some?
    requires f.Holds? ==> Coherent(f.document, Log(s))
    ensures f.Holds? ==> PendingFree(f.document, Log(s))
  {
    LogWellFormed(s);
    if f.Holds? {
      PendingUnreferenced(f.document, Log(s));
    }
  }

  predicate PendingFree(d: Document, rs: seq<RawRecord>)
    requires rs != []
  {
    d.curation.frontier < |rs| && !ReferencesRecord(d, rs[|rs| - 1])
  }

  // ---------------------------------------------------------------- document steps

  /** A document written over the primary file keeps the disk safe, before and after the
      copy follows; the log and the journal are not touched. */
  lemma {:induction false} WriteDocumentStep(cfg: Settings, s: DiskState, d: Document)
    requires SafeDisk(cfg, s) && Coherent(d, Log(s))
    ensures SafeDisk(cfg, s.(primary := Holds(d)))
    ensures SafeDisk(cfg, s.(primary := Holds(d), lastValid := Holds(d)))
  {
  }

  /** The two writes of a commit, the second only when the copy differs. */
  function DocumentWrites(s: DiskState, d: Document): seq<DiskState> {
    if s.lastValid == Holds(d) then [s.(primary := Holds(d))]
    else [s.(primary := Holds(d)), s.(primary := Holds(d), lastValid := Holds(d))]
  }

  lemma {:induction false} CommitCases(cfg: Settings, s: DiskState, d: Document, readOnly: bool, loadedHash: Option<DocumentFile>)
    ensures var t := CommitTrace(cfg, s, d, readOnly, loadedHash);
            if t.outcome.Ok? then
              && t.writes == DocumentWrites(s, d) && ValidDocument(d)
              && SourcesCheck(d, ReadSegments(s.segments)).Ok?
            else t.writes == []
  {
  }

  lemma {:induction false} DocumentWritesSafe<T>(cfg: Settings, base: seq<RawRecord>, s: DiskState, d: Document, t: Trace<T>)
    requires SafeDisk(cfg, s) && base <= Log(s) && Coherent(d, Log(s)) && t.writes == DocumentWrites(s, d)
    ensures Safe(cfg, base, t) && SafeDisk(cfg, End(s, t)) && End(s, t) == s.(primary := Holds(d), lastValid := Holds(d))
  {
    WriteDocumentStep(cfg, s, d);
    StepsSafe(cfg, base, s.(primary := Holds(d)), s.(primary := Holds(d), lastValid := Holds(d)), t);
  }

  lemma {:induction false} StepsSafe<T>(cfg: Settings, base: seq<RawRecord>, a: DiskState, b: DiskState, t: Trace<T>)
    requires SafeDisk(cfg, a) && SafeDisk(cfg, b) && base <= Log(a) && base <= Log(b)
    requires t.writes == [a] || t.writes == [a, b]
    ensures Safe(cfg, base, t)
  {
  }

  lemma {:induction false} CheckedIsCoherent(s: DiskState, d: Document)
    requires ReadSegments(s.segments).Ok? && ValidDocument(d) && SourcesCheck(d, ReadSegments(s.segments)).Ok?
    requires ValidDocument(d) && SourcesResolve(d, Log(s)) ==> Coherent(d, Log(s))
    ensures Coherent(d, Log(s))
  {
    LogWellFormed(s);
    SourcesCheckIff(d, Log(s));
  }

  lemma {:induction false} CommitSafe(cfg: Settings, base: seq<RawRecord>, s: DiskState, d: Document, readOnly: bool, loadedHash: Option<DocumentFile>)
    requires SafeDisk(cfg, s) && base <= Log(s)
    requires ValidDocument(d) && SourcesResolve(d, Log(s)) ==> Coherent(d, Log(s))
    ensures var t := CommitTrace(cfg, s, d, readOnly, loadedHash);
            && Safe(cfg, base, t)
            && End(s, t).segments == s.segments && End(s, t).journal == s.journal
            && (t.outcome.Ok? ==> End(s, t) == s.(primary := Holds(d), lastValid := Holds(d)) && Coherent(d, Log(s)))
  {
    CommitCases(cfg, s, d, readOnly, loadedHash);
    CommittedSafe(cfg, base, s, d, CommitTrace(cfg, s, d, readOnly, loadedHash));
  }

  lemma {:induction false} CommittedSafe(cfg: Settings, base: seq<RawRecord>, s: DiskState, d: Document, t: Trace<Document>)
    requires SafeDisk(cfg, s) && base <= Log(s)
    requires ValidDocument(d) && SourcesResolve(d, Log(s)) ==> Coherent(d, Log(s))
    requires if t.outcome.Ok? then
               && t.writes == DocumentWrites(s, d) && ValidDocument(d)
               && SourcesCheck(d, ReadSegments(s.segments)).Ok?
             else t.writes == []
    ensures Safe(cfg, base, t)
    ensures End(s, t).segments == s.segments && End(s, t).journal == s.journal
    ensures t.outcome.Ok? ==> End(s, t) == s.(primary := Holds(d), lastValid := Holds(d)) && Coherent(d, Log(s))
  {
    if t.outcome.Ok? {
      CheckedIsCoherent(s, d);
      DocumentWritesSafe(cfg, base, s, d, t);
    }
  }

  lemma {:induction false} SameSources(a: Document, b: Document, rs: seq<RawRecord>)
    requires |a.memories| == |b.memories| && a.overview.spans == b.overview.spans && SourcesResolve(a, rs)
    requires forall i | 0 <= i < |a.memories| :: a.memories[i].sources == b.memories[i].sources
    ensures SourcesResolve(b, rs)
  {
  }

  lemma {:induction false} KeptItems(previous: Document, edited: Document, now: int, d: Document)
    requires KeepsEdit(previous, edited, now, d)
    ensures forall i | 0 <= i < |d.memories| :: d.memories[i].id == edited.memories[i].id && d.memories[i].sources == edited.memories[i].sources
  {
    forall i | 0 <= i < |d.memories|
      ensures d.memories[i].id == edited.memories[i].id && d.memories[i].sources == edited.memories[i].sources
    {
      assert KeepsItem(previous, edited.memories[i], now, d.memories[i]);
    }
  }

  /** A hand edit of a coherent pair of documents, once taken over, is coherent. */
  lemma {:induction false} KeptEditCoherent(previous: Document, edited: Document, rs: seq<RawRecord>, now: int, d: Document)
    requires Coherent(previous, rs) && Coherent(edited, rs) && KeepsEdit(previous, edited, now, d) && ValidDocument(d)
    ensures Coherent(d, rs)
  {
    KeptItems(previous, edited, now, d);
    SameSources(edited, d, rs[..d.curation.frontier]);
  }

  lemma {:induction false} RefreshSafe(cfg: Settings, s: DiskState)
    requires SafeDisk(cfg, s) && s.primary.Holds?
    ensures SafeDisk(cfg, s.(lastValid := s.primary))
  {
  }

  lemma {:induction false} LoadSafe(cfg: Settings, base: seq<RawRecord>, s: DiskState, now: int)
    requires SafeDisk(cfg, s) && base <= Log(s)
    ensures LoadKeeps(cfg, base, s, LoadTrace(cfg, s, now))
  {
    LoadCases(cfg, s, now);
    LoadedSafe(cfg, base, s, now, LoadTrace(cfg, s, now));
  }

  /** A load leaves the log and the journal alone and gives a coherent document. */
  ghost predicate LoadKeeps(cfg: Settings, base: seq<RawRecord>, s: DiskState, t: Trace<Loaded>) {
    && Safe(cfg, base, t)
    && End(s, t).segments == s.segments && End(s, t).journal == s.journal
    && SafeDisk(cfg, End(s, t))
    && (t.outcome.Ok? ==> Coherent(t.outcome.value.document, Log(s)))
  }

  /** The three things a load can do to the disk. */
  ghost predicate LoadShape(s: DiskState, now: int, t: Trace<Loaded>) {
    || (t.writes == [] && (t.outcome.Ok? ==> Holds(t.outcome.value.document) == s.primary || Holds(t.outcome.value.document) == s.lastValid))
    || (t.writes == [s.(lastValid := s.primary)] && t.outcome.Ok? && s.primary == Holds(t.outcome.value.document))
    || (&& s.primary.Holds? && s.lastValid.Holds?
        && s.primary.document.curation == s.lastValid.document.curation
        && s.primary.document.overview.spans == s.lastValid.document.overview.spans
        && t.outcome.Ok? && KeepsEdit(s.lastValid.document, s.primary.document, now, t.outcome.value.document)
        && ValidDocument(t.outcome.value.document)
        && t.writes == DocumentWrites(s, t.outcome.value.document))
  }

  lemma {:induction false} LoadCases(cfg: Settings, s: DiskState, now: int)
    ensures LoadShape(s, now, LoadTrace(cfg, s, now))
  {
    var parsed := ParseFile(cfg, s.primary, ReadSegments(s.segments));
    if parsed.Ok? {
      AdoptCases(cfg, s, parsed.value, now);
    }
  }

  lemma {:induction false} AdoptCases(cfg: Settings, s: DiskState, d: Document, now: int)
    requires s.primary == Holds(d)
    ensures LoadShape(s, now, AdoptTrace(cfg, s, d, now))
  {
    if s.lastValid.Holds? && d.curation == s.lastValid.document.curation && d.overview.spans == s.lastValid.document.overview.spans {
      CommitCases(cfg, s, Reconciled(s.lastValid.document, d, now), false, Some(s.primary));
      ReconciledKeeps(s.lastValid.document, d, now);
    }
  }

  lemma {:induction false} LoadedSafe(cfg: Settings, base: seq<RawRecord>, s: DiskState, now: int, t: Trace<Loaded>)
    requires SafeDisk(cfg, s) && base <= Log(s) && LoadShape(s, now, t)
    ensures LoadKeeps(cfg, base, s, t)
  {
    if t.writes == [] {
      QuietLoadSafe(cfg, base, s, t);
    } else if t.writes == [s.(lastValid := s.primary)] && t.outcome.Ok? && s.primary == Holds(t.outcome.value.document) {
      RefreshLoadSafe(cfg, base, s, t);
    } else {
      ReconciledLoadSafe(cfg, base, s, now, t);
    }
  }

  lemma {:induction false} RefreshLoadSafe(cfg: Settings, base: seq<RawRecord>, s: DiskState, t: Trace<Loaded>)
    requires SafeDisk(cfg, s) && base <= Log(s)
    requires t.writes == [s.(lastValid := s.primary)] && t.outcome.Ok? && s.primary == Holds(t.outcome.value.document)
    ensures LoadKeeps(cfg, base, s, t)
  {
    RefreshSafe(cfg, s);
  }

  lemma {:induction false} ReconciledLoadSafe(cfg: Settings, base: seq<RawRecord>, s: DiskState, now: int, t: Trace<Loaded>)
    requires SafeDisk(cfg, s) && base <= Log(s)
    requires s.primary.Holds? && s.lastValid.Holds?
    requires t.outcome.Ok? && KeepsEdit(s.lastValid.document, s.primary.document, now, t.outcome.value.document)
    requires ValidDocument(t.outcome.value.document) && t.writes == DocumentWrites(s, t.outcome.value.document)
    ensures LoadKeeps(cfg, base, s, t)
  {
    DocumentsCoherent(cfg, s);
    KeptEditCoherent(s.lastValid.document, s.primary.document, Log(s), now, t.outcome.value.document);
    DocumentWritesSafe(cfg, base, s, t.outcome.value.document, t);
  }

  lemma {:induction false} DocumentsCoherent(cfg: Settings, s: DiskState)
    requires SafeDisk(cfg, s)
    ensures s.primary.Holds? ==> Coherent(s.primary.document, Log(s))
    ensures s.lastValid.Holds? ==> Coherent(s.lastValid.document, Log(s))
  {
  }

  lemma {:induction false} QuietLoadSafe(cfg: Settings, base: seq<RawRecord>, s: DiskState, t: Trace<Loaded>)
    requires SafeDisk(cfg, s) && t.writes == []
    requires t.outcome.Ok? ==> Holds(t.outcome.value.document) == s.primary || Holds(t.outcome.value.document) == s.lastValid
    ensures LoadKeeps(cfg, base, s, t)
  {
    DocumentsCoherent(cfg, s);
  }

  lemma {:induction false} InitializeSafe(cfg: Settings, base: seq<RawRecord>, s: DiskState, now: int)
    requires SafeDisk(cfg, s) && base <= Log(s)
    ensures LoadKeeps(cfg, base, s, InitializeTrace(cfg, s, now))
  {
    var created := s.(primary := Holds(EMPTY_DOCUMENT));
    EmptyIsCoherent(Log(s));
    if s.primary.Missing? {
      LoadSafe(cfg, base, created, now);
      ThenEnd(s, Trace([created], Ok(())), LoadTrace(cfg, created, now));
      SafeThen(cfg, base, Trace([created], Ok(())), LoadTrace(cfg, created, now));
    } else {
      LoadSafe(cfg, base, s, now);
    }
  }

  // ---------------------------------------------------------------- roll-forward

  lemma {:induction false} AnchoredNext(j: Journal, baseline: seq<RawRecord>, rs: seq<RawRecord>)
    requires Anchored(j, baseline, rs) && |rs| < |Full(j, baseline)|
    ensures var r := Full(j, baseline)[|rs|];
            && rs + [r] <= Full(j, baseline) && Anchored(j, baseline, rs + [r])
            && LogShape(rs + [r]) && r.sequence == |rs| + 1 && ValidRecord(r) && Renumbered(r, |rs| + 1) == r
            && r.id !in IdsOf(rs)
  {
    var full := Full(j, baseline);
    assert forall i | 0 <= i < |rs| :: rs[i].id != full[|rs|].id;
  }

  lemma {:induction false} IdentityMeansBaseline(j: Journal, baseline: seq<RawRecord>, rs: seq<RawRecord>)
    requires Anchored(j, baseline, rs) && Identity(rs) == j.checkpoint.rawIdentity
    ensures rs == baseline
  {
    assert |Identity(rs)| == |rs| && |Identity(baseline)| == |baseline|;
    assert Full(j, baseline)[..|baseline|] == baseline;
  }

  lemma {:induction false} MissingUser(j: Journal, baseline: seq<RawRecord>, rs: seq<RawRecord>)
    requires Anchored(j, baseline, rs)
    ensures j.user.id in ById(rs) <==> |rs| > |baseline|
    ensures j.user.id in ById(rs) ==> ById(rs)[j.user.id] == j.user
    ensures j.assistant.Some? ==> (j.assistant.value.id in ById(rs) <==> |rs| == |baseline| + 2)
    ensures j.assistant.Some? && j.assistant.value.id in ById(rs) ==> ById(rs)[j.assistant.value.id] == j.assistant.value
  {
    var full := Full(j, baseline);
    ByIdLookup(rs, j.user.id);
    assert full[|baseline|] == j.user;
    assert forall i | 0 <= i < |rs| :: rs[i].id == full[i].id;
    assert UniqueIds(rs);
    if |rs| > |baseline| {
      ByIdAt(rs, |baseline|);
    }
    if j.assistant.Some? {
      ByIdLookup(rs, j.assistant.value.id);
      assert full[|baseline| + 1] == j.assistant.value;
      if |rs| == |baseline| + 2 {
        ByIdAt(rs, |baseline| + 1);
      }
    }
  }

  lemma {:induction false} PublishUserCases(cfg: Settings, s: DiskState, user: RawRecord, baseline: seq<(string, Digest)>)
    requires ReadSegments(s.segments).Ok?
    ensures var t := PublishUserTrace(cfg, s, user, baseline);
            if user.id in ById(Log(s)) then t.writes == [] && (t.outcome.Ok? ==> t.outcome.value == ById(Log(s))[user.id])
            else if Identity(Log(s)) == baseline then t == AppendTrace(cfg, s, user.(role := User))
            else t.writes == [] && !t.outcome.Ok?
  {
  }

  /** Publishing the USER half. */
  lemma {:induction false} PublishUserSafe(cfg: Settings, s: DiskState, j: Journal, baseline: seq<RawRecord>)
    requires ValidSettings(cfg) && SafeDisk(cfg, s) && s.journal == JournalOf(j) && ValidJournal(j)
    requires Anchored(j, baseline, Log(s))
    ensures UserKeeps(cfg, s, j, baseline, PublishUserTrace(cfg, s, j.user, j.checkpoint.rawIdentity))
  {
    MissingUser(j, baseline, Log(s));
    PublishUserCases(cfg, s, j.user, j.checkpoint.rawIdentity);
    if j.user.id !in ById(Log(s)) && Identity(Log(s)) == j.checkpoint.rawIdentity {
      UserAppended(cfg, s, j, baseline);
    }
  }

  ghost predicate UserKeeps(cfg: Settings, s: DiskState, j: Journal, baseline: seq<RawRecord>, t: Trace<RawRecord>) {
    && Safe(cfg, Log(s), t)
    && (t.outcome.Ok? ==>
          && t.outcome.value == j.user && SafeDisk(cfg, End(s, t))
          && End(s, t).journal == s.journal && Anchored(j, baseline, Log(End(s, t)))
          && Log(s) <= Log(End(s, t)) && |Log(End(s, t))| > |baseline|)
  }

  lemma {:induction false} UserAppended(cfg: Settings, s: DiskState, j: Journal, baseline: seq<RawRecord>)
    requires ValidSettings(cfg) && SafeDisk(cfg, s) && s.journal == JournalOf(j) && ValidJournal(j)
    requires Anchored(j, baseline, Log(s)) && Identity(Log(s)) == j.checkpoint.rawIdentity
    ensures UserKeeps(cfg, s, j, baseline, AppendTrace(cfg, s, j.user.(role := User)))
  {
    IdentityMeansBaseline(j, baseline, Log(s));
    AnchoredNext(j, baseline, Log(s));
    AppendSafe(cfg, s, j.user.(role := User));
  }

  lemma {:induction false} AnswerCases(cfg: Settings, s: DiskState, user: RawRecord, assistant: RawRecord)
    requires ReadSegments(s.segments).Ok?
    ensures var t := AppendAnswerTrace(cfg, s, user, assistant);
            || (t.writes == [] && (assistant.id in ById(Log(s)) || !t.outcome.Ok?))
            || (assistant.id !in ById(Log(s)) && t == AppendTrace(cfg, s, assistant.(role := Assistant)))
  {
  }

  lemma {:induction false} PublishAnswerSafe(cfg: Settings, s: DiskState, j: Journal, baseline: seq<RawRecord>)
    requires ValidSettings(cfg) && SafeDisk(cfg, s) && s.journal == JournalOf(j) && ValidJournal(j) && j.assistant.Some?
    requires Anchored(j, baseline, Log(s)) && |Log(s)| > |baseline|
    ensures RawKeeps(cfg, s, j, baseline, AppendAnswerTrace(cfg, s, j.user, j.assistant.value))
  {
    MissingUser(j, baseline, Log(s));
    AnswerCases(cfg, s, j.user, j.assistant.value);
    if |Log(s)| == |baseline| + 1 {
      AnswerAppended(cfg, s, j, baseline);
    } else {
      assert Log(s) == Full(j, baseline);
    }
  }

  lemma {:induction false} AnswerAppended(cfg: Settings, s: DiskState, j: Journal, baseline: seq<RawRecord>)
    requires ValidSettings(cfg) && SafeDisk(cfg, s) && s.journal == JournalOf(j) && ValidJournal(j) && j.assistant.Some?
    requires Anchored(j, baseline, Log(s)) && |Log(s)| == |baseline| + 1
    ensures RawKeeps(cfg, s, j, baseline, AppendTrace(cfg, s, j.assistant.value.(role := Assistant)))
  {
    AnchoredNext(j, baseline, Log(s));
    AppendSafe(cfg, s, j.assistant.value.(role := Assistant));
    assert Log(s) + [j.assistant.value] == Full(j, baseline);
  }

  /** The records of the decision are all in the log, and nothing else changed. */
  ghost predicate RawKeeps(cfg: Settings, s: DiskState, j: Journal, baseline: seq<RawRecord>, t: Trace<RawRecord>) {
    && Safe(cfg, Log(s), t)
    && (t.outcome.Ok? ==>
          && SafeDisk(cfg, End(s, t)) && End(s, t).journal == s.journal
          && Log(End(s, t)) == Full(j, baseline) && Log(s) <= Log(End(s, t)))
  }

  lemma {:induction false} PublishRawSafe(cfg: Settings, s: DiskState, j: Journal, baseline: seq<RawRecord>)
    requires ValidSettings(cfg) && SafeDisk(cfg, s) && s.journal == JournalOf(j) && ValidJournal(j)
    requires Anchored(j, baseline, Log(s))
    ensures RawKeeps(cfg, s, j, baseline, PublishRawTrace(cfg, s, j))
  {
    if j.state == ReadyPending {
      PendingUserSafe(cfg, s, j, baseline);
    } else if j.state == ReadyToCommit {
      TurnSafe(cfg, s, j, baseline);
    }
  }

  lemma {:induction false} PendingUserCases(cfg: Settings, s: DiskState, user: RawRecord, baseline: seq<(string, Digest)>)
    requires ReadSegments(s.segments).Ok?
    ensures var t := AppendPendingTrace(cfg, s, user, baseline);
            if user.id in ById(Log(s)) then t.writes == []
            else if Identity(Log(s)) == baseline then t == AppendTrace(cfg, s, user.(role := User))
            else t.writes == [] && !t.outcome.Ok?
  {
  }

  lemma {:induction false} PendingUserSafe(cfg: Settings, s: DiskState, j: Journal, baseline: seq<RawRecord>)
    requires ValidSettings(cfg) && SafeDisk(cfg, s) && s.journal == JournalOf(j) && ValidJournal(j)
    requires Anchored(j, baseline, Log(s)) && j.state == ReadyPending
    ensures RawKeeps(cfg, s, j, baseline, AppendPendingTrace(cfg, s, j.user, j.checkpoint.rawIdentity))
  {
    MissingUser(j, baseline, Log(s));
    PendingUserCases(cfg, s, j.user, j.checkpoint.rawIdentity);
    if j.user.id in ById(Log(s)) {
      assert Log(s) == Full(j, baseline);
    } else if Identity(Log(s)) == j.checkpoint.rawIdentity {
      UserAppended(cfg, s, j, baseline);
    }
  }

  lemma {:induction false} TurnSafe(cfg: Settings, s: DiskState, j: Journal, baseline: seq<RawRecord>)
    requires ValidSettings(cfg) && SafeDisk(cfg, s) && s.journal == JournalOf(j) && ValidJournal(j)
    requires Anchored(j, baseline, Log(s)) && j.assistant.Some?
    ensures RawKeeps(cfg, s, j, baseline, AppendTurnTrace(cfg, s, j.user, j.assistant.value, j.checkpoint.rawIdentity))
  {
    var first := PublishUserTrace(cfg, s, j.user, j.checkpoint.rawIdentity);
    PublishUserSafe(cfg, s, j, baseline);
    if first.outcome.Ok? {
      var s1 := End(s, first);
      PublishAnswerSafe(cfg, s1, j, baseline);
      BothHalves(cfg, s, j, baseline, first, AppendAnswerTrace(cfg, s1, j.user, j.assistant.value));
    }
  }

  lemma {:induction false} BothHalves(cfg: Settings, s: DiskState, j: Journal, baseline: seq<RawRecord>, first: Trace<RawRecord>, second: Trace<RawRecord>)
    requires first.outcome.Ok? && UserKeeps(cfg, s, j, baseline, first) && RawKeeps(cfg, End(s, first), j, baseline, second)
    ensures RawKeeps(cfg, s, j, baseline, Then(first, second))
  {
    ThenEnd(s, first, second);
    SafeLonger(cfg, Log(s), Log(End(s, first)), second);
    SafeThen(cfg, Log(s), first, second);
  }

  lemma {:induction false} SafeLonger<T>(cfg: Settings, base: seq<RawRecord>, longer: seq<RawRecord>, t: Trace<T>)
    requires base <= longer && Safe(cfg, longer, t)
    ensures Safe(cfg, base, t)
  {
  }

  lemma {:induction false} PublishDocumentSafe(cfg: Settings, s: DiskState, j: Journal, baseline: seq<RawRecord>, now: int)
    requires SafeDisk(cfg, s) && Anchored(j, baseline, Log(s)) && Log(s) == Full(j, baseline)
    ensures var t := PublishDocumentTrace(cfg, s, j, now);
            && Safe(cfg, Log(s), t)
            && (t.outcome.Ok? ==> SafeDisk(cfg, End(s, t)) && End(s, t).segments == s.segments && End(s, t).journal == s.journal)
  {
    if j.state == ReadyToCommit && j.target.Some? && ValidDocument(j.target.value) {
      CoherentGrows(j.target.value, baseline, Log(s));
      PublishSafe(cfg, s, j.checkpoint, j.target.value, j.targetIdentity, now);
    }
  }

  lemma {:induction false} PublishSafe(cfg: Settings, s: DiskState, checkpoint: PreTurnCheckpoint, target: Document, identity: Option<Document>, now: int)
    requires SafeDisk(cfg, s) && Coherent(target, Log(s))
    ensures PublishKeeps(cfg, s, PublishTrace(cfg, s, checkpoint, target, identity, now))
  {
    var t := PublishTrace(cfg, s, checkpoint, target, identity, now);
    var load := LoadTrace(cfg, s, now);
    LoadSafe(cfg, Log(s), s, now);
    PublishCases(cfg, s, checkpoint, target, identity, now);
    if t.writes == [] && !t.outcome.Ok? {
    } else if t.writes == load.writes && (t.outcome.Ok? ==> load.outcome.Ok?) {
      SameWritesKeep(cfg, s, t, load);
    } else {
      var s1, l := End(s, load), load.outcome.value;
      CommitSafe(cfg, Log(s), s1, target, l.readOnly, l.loadedHash);
      LoadThenCommit(cfg, s, load, CommitTrace(cfg, s1, target, l.readOnly, l.loadedHash), target);
    }
  }

  ghost predicate PublishKeeps(cfg: Settings, s: DiskState, t: Trace<Document>) {
    && Safe(cfg, Log(s), t)
    && (t.outcome.Ok? ==> SafeDisk(cfg, End(s, t)) && End(s, t).segments == s.segments && End(s, t).journal == s.journal)
  }

  lemma {:induction false} SameWritesKeep(cfg: Settings, s: DiskState, t: Trace<Document>, load: Trace<Loaded>)
    requires LoadKeeps(cfg, Log(s), s, load) && t.writes == load.writes
    ensures PublishKeeps(cfg, s, t)
  {
    assert End(s, t) == End(s, load);
  }

  lemma {:induction false} LoadThenCommit(cfg: Settings, s: DiskState, load: Trace<Loaded>, c: Trace<Document>, d: Document)
    requires LoadKeeps(cfg, Log(s), s, load) && load.outcome.Ok?
    requires Safe(cfg, Log(s), c) && End(End(s, load), c).segments == End(s, load).segments
    requires End(End(s, load), c).journal == End(s, load).journal
    ensures PublishKeeps(cfg, s, Then(load, c))
  {
    ThenEnd(s, load, c);
    SafeThen(cfg, Log(s), load, c);
    SafeAfter(cfg, Log(s), End(s, load), c, |c.writes|);
  }

  /** Publishing is nothing, a load, or a load and a commit over it. */
  lemma {:induction false} PublishCases(cfg: Settings, s: DiskState, checkpoint: PreTurnCheckpoint, target: Document, identity: Option<Document>, now: int)
    ensures var t := PublishTrace(cfg, s, checkpoint, target, identity, now);
            var load := LoadTrace(cfg, s, now);
            || (t.writes == [] && !t.outcome.Ok?)
            || (t.writes == load.writes && (t.outcome.Ok? ==> load.outcome.Ok?))
            || (load.outcome.Ok? && t == Then(load, CommitTrace(cfg, End(s, load), target, load.outcome.value.readOnly, load.outcome.value.loadedHash)))
  {
  }

  /** What `commit` and `recover` keep. */
  ghost predicate RollKeeps(cfg: Settings, s: DiskState, t: Trace<()>) {
    && Safe(cfg, Log(s), t)
    && (t.outcome.Ok? ==> SafeDisk(cfg, End(s, t)) && End(s, t).journal.NoJournal? && Log(s) <= Log(End(s, t)))
  }

  lemma {:induction false} CommitJournalCases(cfg: Settings, s: DiskState, now: int)
    ensures var t := CommitJournalTrace(cfg, s, now);
            || (t.writes == [] && (t.outcome.Ok? ==> s.journal.NoJournal?))
            || (&& s.journal.JournalOf? && ValidJournal(s.journal.journal)
                && var published := PublishedTrace(cfg, s, s.journal.journal, now);
                   t == Then(published, Trace([End(s, published).(journal := NoJournal)], Ok(()))))
  {
  }

  lemma {:induction false} UnlinkSafe(cfg: Settings, base: seq<RawRecord>, s: DiskState, t: Trace<()>)
    requires Safe(cfg, base, t) && (t.outcome.Ok? ==> SafeDisk(cfg, End(s, t)) && base <= Log(End(s, t)))
    ensures var all := Then(t, Trace([End(s, t).(journal := NoJournal)], Ok(())));
            && Safe(cfg, base, all)
            && (all.outcome.Ok? ==> t.outcome.Ok? && End(s, all) == End(s, t).(journal := NoJournal) && SafeDisk(cfg, End(s, all)))
  {
  }

  lemma {:induction false} CommitJournalSafe(cfg: Settings, s: DiskState, now: int)
    requires ValidSettings(cfg) && SafeDisk(cfg, s)
    ensures var t := CommitJournalTrace(cfg, s, now);
            && RollKeeps(cfg, s, t)
            && (t.outcome.Ok? && s.journal.JournalOf? ==>
                  exists baseline :: Anchored(s.journal.journal, baseline, Log(s)) && Log(End(s, t)) == Full(s.journal.journal, baseline))
  {
    CommitJournalCases(cfg, s, now);
    if CommitJournalTrace(cfg, s, now).writes != [] || s.journal.JournalOf? {
      DecisionSafe(cfg, s, now);
    }
  }

  lemma {:induction false} DecisionSafe(cfg: Settings, s: DiskState, now: int)
    requires ValidSettings(cfg) && SafeDisk(cfg, s) && s.journal.JournalOf?
    ensures var t := CommitJournalTrace(cfg, s, now);
            && RollKeeps(cfg, s, t)
            && (t.outcome.Ok? ==>
                  exists baseline :: Anchored(s.journal.journal, baseline, Log(s)) && Log(End(s, t)) == Full(s.journal.journal, baseline))
  {
    var j := s.journal.journal;
    CommitJournalCases(cfg, s, now);
    var baseline :| Anchored(j, baseline, Log(s));
    if ValidJournal(j) {
      PublishedSafe(cfg, s, j, baseline, now);
      UnlinkSafe(cfg, Log(s), s, PublishedTrace(cfg, s, j, now));
    }
  }

  lemma {:induction false} PublishedSafe(cfg: Settings, s: DiskState, j: Journal, baseline: seq<RawRecord>, now: int)
    requires ValidSettings(cfg) && SafeDisk(cfg, s) && s.journal == JournalOf(j) && ValidJournal(j)
    requires Anchored(j, baseline, Log(s))
    ensures var t := PublishedTrace(cfg, s, j, now);
            && Safe(cfg, Log(s), t)
            && (t.outcome.Ok? ==> SafeDisk(cfg, End(s, t)) && Log(End(s, t)) == Full(j, baseline) && Log(s) <= Log(End(s, t)))
  {
    var raw := PublishRawTrace(cfg, s, j);
    PublishRawSafe(cfg, s, j, baseline);
    if raw.outcome.Ok? {
      var s1 := End(s, raw);
      var document := PublishDocumentTrace(cfg, s1, j, now);
      assert Anchored(j, baseline, Log(s1));
      PublishDocumentSafe(cfg, s1, j, baseline, now);
      SafeLonger(cfg, Log(s), Log(s1), document);
      ThenEnd(s, raw, document);
      SafeThen(cfg, Log(s), raw, document);
    }
  }

  lemma {:induction false} RecoverCases(cfg: Settings, s: DiskState, now: int)
    ensures var t := RecoverTrace(cfg, s, now);
            || t == CommitJournalTrace(cfg, s, now)
            || (t == Trace([s.(journal := NoJournal)], Ok(())) && s.journal.JournalOf?)
  {
  }

  lemma {:induction false} DropJournalSafe(cfg: Settings, s: DiskState)
    requires SafeDisk(cfg, s)
    ensures RollKeeps(cfg, s, Trace([s.(journal := NoJournal)], Ok(())))
  {
  }

  /** Recovery keeps the disk safe at every step, from any journal state. */
  lemma {:induction false} RecoverSafe(cfg: Settings, s: DiskState, now: int)
    requires ValidSettings(cfg) && SafeDisk(cfg, s)
    ensures RollKeeps(cfg, s, RecoverTrace(cfg, s, now))
  {
    RecoverCases(cfg, s, now);
    CommitJournalSafe(cfg, s, now);
    DropJournalSafe(cfg, s);
  }
}
