/** A full reset empties both stores and leaves the journal: what the next start-up then does. */
module AfterReset {
  import opened Outcomes
  import opened Models
  import opened Storage
  import opened RawArchive
  import opened LongTerm
  import opened Transaction
  import opened Coherence
  import opened Safety
  import opened Reset
  import opened Session
  import opened Recovery
  import opened Limits

  // ---------------------------------------------------------------- the end of a reset

  /** The empty document is within the configured limits. */
  predicate EmptyFits(cfg: Settings) {
    && cfg.safe(EMPTY_DOCUMENT.overview.text) && |EMPTY_DOCUMENT.overview.text| <= cfg.maxOverviewChars
    && cfg.documentBytes(EMPTY_DOCUMENT) <= cfg.maxDocumentBytes
  }

  function ResetWith(f: JournalFile): DiskState {
    DiskState([], Holds(EMPTY_DOCUMENT), Holds(EMPTY_DOCUMENT), f)
  }

  lemma {:induction false} EmptyCommits(cfg: Settings, s: DiskState)
    ensures var t := FactoryTrace(cfg, s);
            && (t.outcome.Ok? <==> EmptyFits(cfg))
            && (t.outcome.Ok? ==> End(s, t) == s.(primary := Holds(EMPTY_DOCUMENT), lastValid := Holds(EMPTY_DOCUMENT)))
  {
    EmptyIsCoherent([]);
  }

  lemma {:induction false} ClearEnds(s: DiskState)
    ensures End(s, ClearTrace(s)) == s.(segments := []) && ClearTrace(s).outcome.Ok?
  {
    if s.segments != [] {
      assert s.segments[..0] == [];
    } else {
      assert s.(segments := []) == s;
    }
  }

  lemma {:induction false} LoadLeavesJournal(cfg: Settings, s: DiskState, now: int)
    ensures End(s, LoadTrace(cfg, s, now)).journal == s.journal
  {
    LoadCases(cfg, s, now);
  }

  lemma {:induction false} InitLeavesJournal(cfg: Settings, s: DiskState, now: int)
    ensures End(s, InitializeTrace(cfg, s, now)).journal == s.journal
  {
    LoadLeavesJournal(cfg, s, now);
    var created := s.(primary := Holds(EMPTY_DOCUMENT));
    var load := LoadTrace(cfg, created, now);
    LoadLeavesJournal(cfg, created, now);
    ThenEnd(s, Trace([created], Ok(())), load);
  }

  lemma {:induction false} EmptyEnds(cfg: Settings, s: DiskState)
    ensures var t := EmptyTrace(cfg, s);
            (t.outcome.Ok? <==> EmptyFits(cfg)) && (t.outcome.Ok? ==> End(s, t) == ResetWith(s.journal))
  {
    EmptyCommits(cfg, s);
    var factory := FactoryTrace(cfg, s);
    if factory.outcome.Ok? {
      ClearEnds(End(s, factory));
      ThenEnd(s, factory, ClearTrace(End(s, factory)));
    }
  }

  /** From any disk whatsoever: `reset all` succeeds if and only if the empty document fits
      the limits, and then both stores are empty and the journal is as it was. */
  lemma {:induction false} ResetEnds(cfg: Settings, s: DiskState, now: int)
    ensures var t := ResetAllTrace(cfg, s, now);
            (t.outcome.Ok? <==> EmptyFits(cfg)) && (t.outcome.Ok? ==> End(s, t) == ResetWith(s.journal))
  {
    var init := Ignoring(InitializeTrace(cfg, s, now));
    InitLeavesJournal(cfg, s, now);
    EmptyEnds(cfg, End(s, init));
    ThenEnd(s, init, EmptyTrace(cfg, End(s, init)));
  }

  // ---------------------------------------------------------------- the next start-up

  lemma {:induction false} IdentityOfNothing(rs: seq<RawRecord>)
    ensures Identity(rs) == Identity([]) <==> rs == []
  {
    assert |Identity(rs)| == |rs|;
  }

  lemma {:induction false} EmptyStoreLoads(cfg: Settings, s: DiskState, now: int)
    requires EmptyFits(cfg) && s.primary == s.lastValid == Holds(EMPTY_DOCUMENT) && ReadSegments(s.segments).Ok?
    ensures WithinReadLimits(cfg, EMPTY_DOCUMENT)
    ensures InitializeTrace(cfg, s, now) == LoadTrace(cfg, s, now) == Trace([], Ok(AsLoaded(EMPTY_DOCUMENT)))
  {
    EmptyIsCoherent(Log(s));
    LogWellFormed(s);
    Loadable(cfg, EMPTY_DOCUMENT, Log(s), Log(s));
    CleanLoad(cfg, s, EMPTY_DOCUMENT, now);
  }

  lemma {:induction false} MissingFromEmpty(cfg: Settings, s: DiskState, user: RawRecord, baseline: seq<(string, Digest)>)
    requires s.segments == [] && baseline != Identity([])
    ensures PublishUserTrace(cfg, s, user, baseline) == Trace([], Err("TURN_TRANSACTION_CONFLICT"))
    ensures AppendPendingTrace(cfg, s, user, baseline) == Trace([], Err("TURN_TRANSACTION_CONFLICT"))
  {
    assert ById([]) == map[];
  }

  lemma {:induction false} RawRefused(cfg: Settings, s: DiskState, j: Journal, now: int)
    requires ValidJournal(j) && j.state != Prepared
    requires PublishUserTrace(cfg, s, j.user, j.checkpoint.rawIdentity) == Trace([], Err("TURN_TRANSACTION_CONFLICT"))
    requires AppendPendingTrace(cfg, s, j.user, j.checkpoint.rawIdentity) == Trace([], Err("TURN_TRANSACTION_CONFLICT"))
    ensures PublishedTrace(cfg, s, j, now) == Trace([], Err("TURN_TRANSACTION_CONFLICT"))
  {
  }

  /** Over a log that was not empty every later start-up stops, and changes nothing. */
  lemma {:induction false} ResetThenConflict(cfg: Settings, j: Journal, rs: seq<RawRecord>, now: int)
    requires JournalSafe(cfg, j) && ValidJournal(j) && j.state != Prepared && EmptyFits(cfg)
    requires j.checkpoint.rawIdentity == Identity(rs) && rs != []
    ensures BootTrace(cfg, ResetWith(JournalOf(j)), now) == Trace([], Err("TURN_TRANSACTION_CONFLICT"))
  {
    var s := ResetWith(JournalOf(j));
    EmptyStoreLoads(cfg, s, now);
    LoadedJournal(cfg, s, j);
    IdentityOfNothing(rs);
    MissingFromEmpty(cfg, s, j.user, j.checkpoint.rawIdentity);
    RawRefused(cfg, s, j, now);
    AfterLoad(cfg, s, AsLoaded(EMPTY_DOCUMENT), [], "TURN_TRANSACTION_CONFLICT", now);
  }

  /** Whether the decision can be published over the emptied stores. */
  predicate TakesEmpty(cfg: Settings, d: Document, j: Journal) {
    && RecordsFit(cfg, j)
    && (j.target.None? || j.target == Some(EMPTY_DOCUMENT) || (d == EMPTY_DOCUMENT && CommitFits(cfg, j.target.value)))
  }

  lemma {:induction false} OtherBaseline(cfg: Settings, s: DiskState, d: Document, j: Journal, now: int)
    requires EmptyFits(cfg) && s.primary == s.lastValid == Holds(EMPTY_DOCUMENT) && ReadSegments(s.segments).Ok?
    requires j.checkpoint.longTermIdentity == Some(d) && j.targetIdentity == j.target && j.state == ReadyToCommit
    requires j.target.Some? && j.target.value != EMPTY_DOCUMENT && d != EMPTY_DOCUMENT && ValidDocument(j.target.value)
    ensures PublishDocumentTrace(cfg, s, j, now) == Trace([], Err("TURN_TRANSACTION_CONFLICT"))
  {
    EmptyStoreLoads(cfg, s, now);
  }

  lemma {:induction false} TakenDocument(cfg: Settings, s: DiskState, d: Document, j: Journal, now: int)
    requires Undelivered(cfg, [], d, j) && EmptyFits(cfg) && TakesEmpty(cfg, d, j)
    requires s.primary == s.lastValid == Holds(EMPTY_DOCUMENT) && ReadSegments(s.segments).Ok?
    ensures PublishDocumentTrace(cfg, s, j, now).outcome.Ok?
    ensures End(s, PublishDocumentTrace(cfg, s, j, now)).segments == s.segments
  {
    if j.target.Some? {
      EmptyStoreLoads(cfg, s, now);
      LogWellFormed(s);
      if j.target.value == EMPTY_DOCUMENT {
        ResumesAfter(cfg, s, j, [], now);
      } else {
        TargetOf(cfg, [], d, j);
        ResumesOver(cfg, s, d, j, [], now);
      }
    }
  }

  lemma {:induction false} RefusedDocument(cfg: Settings, s: DiskState, d: Document, j: Journal, now: int)
    requires Undelivered(cfg, [], d, j) && EmptyFits(cfg) && RecordsFit(cfg, j) && !TakesEmpty(cfg, d, j)
    requires s.primary == s.lastValid == Holds(EMPTY_DOCUMENT) && ReadSegments(s.segments).Ok?
    ensures !PublishDocumentTrace(cfg, s, j, now).outcome.Ok?
  {
    if d == EMPTY_DOCUMENT {
      LogWellFormed(s);
      TargetOf(cfg, [], d, j);
      ResumesOver(cfg, s, d, j, [], now);
    } else {
      OtherBaseline(cfg, s, d, j, now);
    }
  }

  /** The log is that of an empty archive: the decided records are published into it. */
  lemma {:induction false} ResetThenRecords(cfg: Settings, d: Document, j: Journal, now: int)
    requires Undelivered(cfg, [], d, j) && RecordsFit(cfg, j) && EmptyFits(cfg)
    ensures var s := ResetWith(JournalOf(j)); var t := PublishedTrace(cfg, s, j, now);
            (t.outcome.Ok? <==> TakesEmpty(cfg, d, j)) && (t.outcome.Ok? ==> ReadSegments(End(s, t).segments) == Ok(Full(j, [])))
  {
    var s := ResetWith(JournalOf(j));
    RawResumes(cfg, [], j, s, 0);
    var raw := PublishRawTrace(cfg, s, j);
    var s1 := End(s, raw);
    FinalLog(cfg, [], j, s1);
    var document := PublishDocumentTrace(cfg, s1, j, now);
    if TakesEmpty(cfg, d, j) {
      TakenDocument(cfg, s1, d, j, now);
      ThenEnd(s, raw, document);
    } else {
      RefusedDocument(cfg, s1, d, j, now);
    }
  }

  lemma {:induction false} PublishedBoot(cfg: Settings, s: DiskState, j: Journal, l: Loaded, now: int)
    requires s.journal == JournalOf(j) && JournalSafe(cfg, j) && ValidJournal(j) && j.state != Prepared
    requires InitializeTrace(cfg, s, now) == Trace([], Ok(l))
    ensures var t := PublishedTrace(cfg, s, j, now);
            && (BootTrace(cfg, s, now).outcome.Ok? <==> t.outcome.Ok?)
            && (t.outcome.Ok? ==> End(s, BootTrace(cfg, s, now)).segments == End(s, t).segments)
  {
    LoadedJournal(cfg, s, j);
    var t := PublishedTrace(cfg, s, j, now);
    BootIsRecover(cfg, s, l, now);
    if t.outcome.Ok? {
      ThenEnd(s, t, Trace([End(s, t).(journal := NoJournal)], Ok(())));
    }
  }

  lemma {:induction false} BootIsRecover(cfg: Settings, s: DiskState, l: Loaded, now: int)
    requires InitializeTrace(cfg, s, now) == Trace([], Ok(l))
    ensures BootTrace(cfg, s, now) == RecoverTrace(cfg, s, now)
  {
  }

  lemma {:induction false} ResetThenRefused(cfg: Settings, d: Document, j: Journal, now: int)
    requires Undelivered(cfg, [], d, j) && !RecordsFit(cfg, j) && EmptyFits(cfg)
    ensures !BootTrace(cfg, ResetWith(JournalOf(j)), now).outcome.Ok?
  {
    var s := ResetWith(JournalOf(j));
    EmptyIsCoherent([]);
    EmptyStoreLoads(cfg, s, now);
    Loadable(cfg, EMPTY_DOCUMENT, [], []);
    RefusedStops(cfg, [], j, s, EMPTY_DOCUMENT, 0, now);
  }

  lemma {:induction false} ResetOverNothing(cfg: Settings, d: Document, j: Journal, now: int)
    requires Undelivered(cfg, [], d, j) && EmptyFits(cfg)
    ensures var s := ResetWith(JournalOf(j)); var boot := BootTrace(cfg, s, now);
            (boot.outcome.Ok? <==> TakesEmpty(cfg, d, j)) && (boot.outcome.Ok? ==> ReadSegments(End(s, boot).segments) == Ok(Full(j, [])))
  {
    var s := ResetWith(JournalOf(j));
    if RecordsFit(cfg, j) {
      EmptyStoreLoads(cfg, s, now);
      ResetThenRecords(cfg, d, j, now);
      PublishedBoot(cfg, s, j, AsLoaded(EMPTY_DOCUMENT), now);
    } else {
      ResetThenRefused(cfg, d, j, now);
    }
  }

  /** A full reset over an open decision succeeds, and the next start-up then completes if and
      only if the decision's log was empty and the decision can be published over the emptied
      stores; it then brings the decided turn back. Otherwise no start-up completes. */
  lemma {:induction false} ResetThenStart(cfg: Settings, s: DiskState, segs: seq<Segment>, d: Document, j: Journal, now: int, later: int)
    requires Undelivered(cfg, segs, d, j) && EmptyFits(cfg) && s.journal == JournalOf(j)
    ensures var t := ResetAllTrace(cfg, s, now);
            var s1 := End(s, t);
            var boot := BootTrace(cfg, s1, later);
            && t.outcome.Ok? && s1 == ResetWith(JournalOf(j))
            && (boot.outcome.Ok? <==> ReadSegments(segs).value == [] && TakesEmpty(cfg, d, j))
            && (boot.outcome.Ok? ==> ReadSegments(End(s1, boot).segments) == Ok(Full(j, [])))
  {
    ResetEnds(cfg, s, now);
    if ReadSegments(segs).value == [] {
      ResetOverNothing(cfg, d, j, later);
    } else {
      ResetThenConflict(cfg, j, ReadSegments(segs).value, later);
    }
  }
}
