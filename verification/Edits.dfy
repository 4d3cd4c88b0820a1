/** Hand edits between the steps: from any disk at all, what `commit` and `recover` may change. */
module Edits {
  import opened Outcomes
  import opened Models
  import opened Storage
  import opened RawArchive
  import opened LongTerm
  import opened Transaction
  import opened Safety

  /** One operation on the log: it keeps every readable record and adds at most `r` after them. */
  ghost predicate OnlyAdds(s: DiskState, r: RawRecord, t: Trace<RawRecord>) {
    forall w | w in t.writes ::
      && w == s.(segments := w.segments)
      && ReadSegments(s.segments).Ok?
      && ReadSegments(w.segments) == Ok(Log(s) + [Renumbered(r, |Log(s)| + 1)])
  }

  lemma {:induction false} NotAnId(rs: seq<RawRecord>, id: string)
    requires id !in ById(rs)
    ensures forall x | x in rs :: x.id != id
  {
    ByIdLookup(rs, id);
    forall x | x in rs ensures x.id != id {
      var i :| 0 <= i < |rs| && rs[i] == x;
    }
  }

  lemma {:induction false} AppendOnlyAdds(cfg: Settings, s: DiskState, r: RawRecord)
    requires ReadSegments(s.segments).Ok? ==> r.id !in ById(Log(s))
    ensures OnlyAdds(s, r, AppendTrace(cfg, s, r))
  {
    var t := AppendTrace(cfg, s, r);
    if ReadSegments(s.segments).Ok? {
      AppendCases(cfg, s, r);
      NotAnId(Log(s), r.id);
      if t.outcome.Ok? {
        AppendReads(cfg, s.segments, Log(s), Renumbered(r, |Log(s)| + 1));
      }
    }
  }

  /** From any disk, publishing the USER keeps the readable log and adds at most the
      journalled record; and it adds it only over exactly the recorded baseline. */
  lemma {:induction false} UserOnlyAdds(cfg: Settings, s: DiskState, user: RawRecord, baseline: seq<(string, Digest)>)
    requires user.role == User
    ensures var t := PublishUserTrace(cfg, s, user, baseline);
            OnlyAdds(s, user, t) && (t.writes != [] ==> ReadSegments(s.segments).Ok? && Identity(Log(s)) == baseline)
    ensures var t := AppendPendingTrace(cfg, s, user, baseline);
            OnlyAdds(s, user, t) && (t.writes != [] ==> ReadSegments(s.segments).Ok? && Identity(Log(s)) == baseline)
  {
    if ReadSegments(s.segments).Ok? {
      PublishUserCases(cfg, s, user, baseline);
      PendingUserCases(cfg, s, user, baseline);
      if user.id !in ById(Log(s)) {
        assert user.(role := User) == user;
        AppendOnlyAdds(cfg, s, user);
      }
    }
  }

  /** From any disk, publishing the ASSISTANT adds it only directly after its own USER. */
  lemma {:induction false} AnswerOnlyAdds(cfg: Settings, s: DiskState, user: RawRecord, assistant: RawRecord)
    requires assistant.role == Assistant
    ensures var t := AppendAnswerTrace(cfg, s, user, assistant);
            OnlyAdds(s, assistant, t)
            && (t.writes != [] ==> ReadSegments(s.segments).Ok? && Log(s) != [] && Log(s)[|Log(s)| - 1].id == user.id)
  {
    if ReadSegments(s.segments).Ok? {
      AnswerCases(cfg, s, user, assistant);
      assert assistant.(role := Assistant) == assistant;
      if assistant.id !in ById(Log(s)) {
        AppendOnlyAdds(cfg, s, assistant);
      }
    }
  }

  // ---------------------------------------------------------------- documents

  lemma {:induction false} LoadKeepsEdits(s: DiskState, now: int, t: Trace<Loaded>)
    requires LoadShape(s, now, t)
    ensures forall w | w in t.writes ::
              && w.segments == s.segments && w.journal == s.journal
              && (|| w.primary == s.primary
                  || (s.primary.Holds? && s.lastValid.Holds? && w.primary.Holds? && KeepsEdit(s.lastValid.document, s.primary.document, now, w.primary.document)))
  {
  }

  lemma {:induction false} PublishedOverBaseline(cfg: Settings, s: DiskState, checkpoint: PreTurnCheckpoint, target: Document, identity: Option<Document>, now: int)
    ensures var t := PublishTrace(cfg, s, checkpoint, target, identity, now);
            var load := LoadTrace(cfg, s, now);
            || t.writes == [] || t.writes == load.writes
            || (load.outcome.Ok? && Some(load.outcome.value.document) == checkpoint.longTermIdentity
                && t == Then(load, CommitTrace(cfg, End(s, load), target, load.outcome.value.readOnly, load.outcome.value.loadedHash)))
  {
  }

  /** A commit that stops keeps its journal at every step: only a completed one drops it. */
  lemma {:induction false} JournalKeptUntilDone(cfg: Settings, s: DiskState, now: int)
    ensures var t := CommitJournalTrace(cfg, s, now);
            forall i | 0 <= i < |t.writes| :: t.writes[i].journal == s.journal || (t.outcome.Ok? && i == |t.writes| - 1)
  {
    CommitJournalCases(cfg, s, now);
    if s.journal.JournalOf? && ValidJournal(s.journal.journal) {
      PublishedKeepsJournal(cfg, s, s.journal.journal, now);
    }
  }

  lemma {:induction false} PublishedKeepsJournal(cfg: Settings, s: DiskState, j: Journal, now: int)
    requires ValidJournal(j)
    ensures forall w | w in PublishedTrace(cfg, s, j, now).writes :: w.journal == s.journal
  {
    var raw := PublishRawTrace(cfg, s, j);
    RawKeepsJournal(cfg, s, j);
    var s1 := End(s, raw);
    assert s1 == s || s1 in raw.writes;
    if j.state == ReadyToCommit && j.target.Some? {
      PublishWrites(cfg, s1, j, now);
    }
  }

  lemma {:induction false} RawKeepsJournal(cfg: Settings, s: DiskState, j: Journal)
    requires ValidJournal(j)
    ensures forall w | w in PublishRawTrace(cfg, s, j).writes :: w.journal == s.journal
  {
    UserOnlyAdds(cfg, s, j.user, j.checkpoint.rawIdentity);
    if j.state == ReadyToCommit {
      var first := PublishUserTrace(cfg, s, j.user, j.checkpoint.rawIdentity);
      var s1 := End(s, first);
      assert s1 == s || s1 in first.writes;
      AnswerOnlyAdds(cfg, s1, j.user, j.assistant.value);
      if first.outcome.Ok? {
        UserIsReturned(cfg, s, j);
        AnswerOnlyAdds(cfg, s1, first.outcome.value, j.assistant.value);
      }
    }
  }

  lemma {:induction false} UserIsReturned(cfg: Settings, s: DiskState, j: Journal)
    ensures var first := PublishUserTrace(cfg, s, j.user, j.checkpoint.rawIdentity);
            j.state == ReadyToCommit && j.assistant.Some? && first.outcome.Ok? ==>
              PublishRawTrace(cfg, s, j).writes == first.writes + AppendAnswerTrace(cfg, End(s, first), first.outcome.value, j.assistant.value).writes
  {
  }

  // ---------------------------------------------------------------- whole commits and recoveries

  /** `r` is one of the two journalled records, numbered for the place it has. */
  predicate Journalled(j: Journal, r: RawRecord) {
    r == Renumbered(j.user, r.sequence) || (j.assistant.Some? && r == Renumbered(j.assistant.value, r.sequence))
  }

  /** Every record of a readable log stays, in its place, and only journalled records follow
      it; a log that cannot be read is not touched. */
  ghost predicate KeepsLog(s: DiskState, w: DiskState, j: Journal) {
    if !ReadSegments(s.segments).Ok? then w.segments == s.segments
    else
      && ReadSegments(w.segments).Ok? && Log(s) <= Log(w)
      && forall i | |Log(s)| <= i < |Log(w)| :: Journalled(j, Log(w)[i])
  }

  /** The primary file is left, or the hand edit in it is marked, or it gives way to the target
      because the document in it, marked or not, is exactly the recorded baseline. */
  ghost predicate KeepsDocument(s: DiskState, w: DiskState, j: Journal, now: int) {
    || w.primary == s.primary
    || (&& s.primary.Holds? && s.lastValid.Holds?
        && w.primary.Holds? && KeepsEdit(s.lastValid.document, s.primary.document, now, w.primary.document))
    || (&& j.target.Some? && w.primary == Holds(j.target.value) && s.primary.Holds?
        && (|| j.checkpoint.longTermIdentity == Some(s.primary.document)
            || (s.lastValid.Holds? && j.checkpoint.longTermIdentity.Some?
                && KeepsEdit(s.lastValid.document, s.primary.document, now, j.checkpoint.longTermIdentity.value))))
  }

  lemma {:induction false} LogTwice(a: DiskState, b: DiskState, c: DiskState, j: Journal)
    requires KeepsLog(a, b, j) && KeepsLog(b, c, j)
    ensures KeepsLog(a, c, j)
  {
    if ReadSegments(a.segments).Ok? {
      forall i | |Log(a)| <= i < |Log(c)| ensures Journalled(j, Log(c)[i]) {
        if i < |Log(b)| {
          assert Log(c)[i] == Log(b)[i];
        }
      }
    }
  }

  lemma {:induction false} AddsKeeps(s: DiskState, r: RawRecord, t: Trace<RawRecord>, j: Journal)
    requires OnlyAdds(s, r, t) && (r == j.user || j.assistant == Some(r))
    ensures forall w | w in t.writes :: KeepsLog(s, w, j) && w == s.(segments := w.segments)
  {
  }

  lemma {:induction false} RawKeepsLog(cfg: Settings, s: DiskState, j: Journal)
    requires ValidJournal(j) && j.state != Prepared
    ensures forall w | w in PublishRawTrace(cfg, s, j).writes :: KeepsLog(s, w, j) && w == s.(segments := w.segments)
  {
    var id := j.checkpoint.rawIdentity;
    var first := PublishUserTrace(cfg, s, j.user, id);
    UserOnlyAdds(cfg, s, j.user, id);
    AddsKeeps(s, j.user, first, j);
    AddsKeeps(s, j.user, AppendPendingTrace(cfg, s, j.user, id), j);
    if j.state == ReadyToCommit && first.outcome.Ok? {
      var s1 := End(s, first);
      var second := AppendAnswerTrace(cfg, s1, first.outcome.value, j.assistant.value);
      assert s1 == s || s1 in first.writes;
      AnswerOnlyAdds(cfg, s1, first.outcome.value, j.assistant.value);
      AddsKeeps(s1, j.assistant.value, second, j);
      UserIsReturned(cfg, s, j);
      forall w | w in second.writes ensures KeepsLog(s, w, j) {
        if ReadSegments(s.segments).Ok? {
          LogTwice(s, s1, w, j);
        }
      }
    }
  }

  /** A document that may be written back is the one in the primary file, or its marked form. */
  predicate TakenFrom(s: DiskState, d: Document, now: int) {
    && s.primary.Holds?
    && (d == s.primary.document || (s.lastValid.Holds? && KeepsEdit(s.lastValid.document, s.primary.document, now, d)))
  }

  lemma {:induction false} LoadedIsTaken(cfg: Settings, s: DiskState, now: int)
    ensures var load := LoadTrace(cfg, s, now);
            load.outcome.Ok? && !load.outcome.value.readOnly ==> TakenFrom(s, load.outcome.value.document, now)
  {
    if s.primary.Holds? {
      var parsed := ParseFile(cfg, s.primary, ReadSegments(s.segments));
      if parsed.Ok? {
        AdoptIsTaken(cfg, s, parsed.value, now);
      }
    }
  }

  lemma {:induction false} AdoptIsTaken(cfg: Settings, s: DiskState, d: Document, now: int)
    requires s.primary == Holds(d)
    ensures var load := AdoptTrace(cfg, s, d, now); load.outcome.Ok? ==> TakenFrom(s, load.outcome.value.document, now)
  {
    if s.lastValid.Holds? && d.curation == s.lastValid.document.curation && d.overview.spans == s.lastValid.document.overview.spans {
      ReconciledKeeps(s.lastValid.document, d, now);
    }
  }

  /** The two files, the log and the journal, as a write of the document leaves them. */
  ghost predicate DocumentWrite(s: DiskState, w: DiskState, j: Journal, now: int) {
    w.segments == s.segments && w.journal == s.journal && KeepsDocument(s, w, j, now)
  }

  lemma {:induction false} LoadWrites(cfg: Settings, s: DiskState, j: Journal, now: int)
    ensures forall w | w in LoadTrace(cfg, s, now).writes :: DocumentWrite(s, w, j, now)
  {
    LoadCases(cfg, s, now);
    LoadKeepsEdits(s, now, LoadTrace(cfg, s, now));
  }

  lemma {:induction false} TargetWrites(cfg: Settings, s: DiskState, s1: DiskState, j: Journal, l: Loaded, now: int)
    requires j.target.Some? && j.checkpoint.longTermIdentity == Some(l.document) && (!l.readOnly ==> TakenFrom(s, l.document, now))
    requires s1.segments == s.segments && s1.journal == s.journal
    ensures forall w | w in CommitTrace(cfg, s1, j.target.value, l.readOnly, l.loadedHash).writes :: DocumentWrite(s, w, j, now)
  {
    CommitCases(cfg, s1, j.target.value, l.readOnly, l.loadedHash);
    if l.readOnly {
      assert CommitTrace(cfg, s1, j.target.value, l.readOnly, l.loadedHash).writes == [];
    }
  }

  lemma {:induction false} InThen<T, U>(t: Trace<T>, u: Trace<U>, w: DiskState)
    requires w in Then(t, u).writes
    ensures w in t.writes || (t.outcome.Ok? && w in u.writes)
  {
  }

  lemma {:induction false} PublishWrites(cfg: Settings, s: DiskState, j: Journal, now: int)
    requires j.target.Some?
    ensures forall w | w in PublishTrace(cfg, s, j.checkpoint, j.target.value, j.targetIdentity, now).writes :: DocumentWrite(s, w, j, now)
  {
    var t := PublishTrace(cfg, s, j.checkpoint, j.target.value, j.targetIdentity, now);
    var load := LoadTrace(cfg, s, now);
    LoadWrites(cfg, s, j, now);
    PublishedOverBaseline(cfg, s, j.checkpoint, j.target.value, j.targetIdentity, now);
    if t.writes != [] && t.writes != load.writes {
      var s1, l := End(s, load), load.outcome.value;
      assert s1 == s || s1 in load.writes;
      LoadedIsTaken(cfg, s, now);
      TargetWrites(cfg, s, s1, j, l, now);
      forall w | w in t.writes ensures DocumentWrite(s, w, j, now) {
        InThen(load, CommitTrace(cfg, s1, j.target.value, l.readOnly, l.loadedHash), w);
      }
    }
  }

  /** One write of a decided journal `j`: what it may change. */
  ghost predicate KeepsAll(s: DiskState, w: DiskState, j: Journal, now: int) {
    KeepsLog(s, w, j) && KeepsDocument(s, w, j, now)
  }

  lemma {:induction false} DocumentPart(cfg: Settings, s: DiskState, j: Journal, now: int)
    requires ValidJournal(j) && j.state != Prepared
    ensures forall w | w in PublishDocumentTrace(cfg, s, j, now).writes :: DocumentWrite(s, w, j, now)
  {
    if j.target.Some? {
      PublishWrites(cfg, s, j, now);
    }
  }

  lemma {:induction false} PublishedKeepsAll(cfg: Settings, s: DiskState, j: Journal, now: int)
    requires ValidJournal(j) && j.state != Prepared
    ensures forall w | w in PublishedTrace(cfg, s, j, now).writes :: KeepsAll(s, w, j, now) && w.journal == s.journal
    ensures KeepsAll(s, End(s, PublishedTrace(cfg, s, j, now)), j, now)
  {
    var raw := PublishRawTrace(cfg, s, j);
    var s1 := End(s, raw);
    var document := PublishDocumentTrace(cfg, s1, j, now);
    RawKeepsLog(cfg, s, j);
    DocumentPart(cfg, s1, j, now);
    assert s1 == s || s1 in raw.writes;
    forall w | w in Then(raw, document).writes ensures KeepsAll(s, w, j, now) && w.journal == s.journal {
      InThen(raw, document, w);
    }
    var t := PublishedTrace(cfg, s, j, now);
    assert End(s, t) == s || End(s, t) in t.writes;
  }

  /** `commit` from any disk at all: every write keeps the readable log, adds only journalled
      records, and replaces no document but the recorded baseline; and the journal is there
      until the last write of a commit that succeeds. */
  lemma {:induction false} CommitKeepsEdits(cfg: Settings, s: DiskState, j: Journal, now: int)
    requires LoadJournal(cfg, s.journal) == Ok(Some(j)) && j.state != Prepared
    ensures var t := CommitJournalTrace(cfg, s, now);
            && (forall w | w in t.writes :: KeepsAll(s, w, j, now))
            && (t.outcome.Ok? <==> End(s, t).journal.NoJournal?)
            && (forall i | 0 <= i < |t.writes| :: t.writes[i].journal == s.journal || (t.outcome.Ok? && i == |t.writes| - 1))
  {
    var t := CommitJournalTrace(cfg, s, now);
    PublishedKeepsAll(cfg, s, j, now);
    JournalKeptUntilDone(cfg, s, now);
    CommitEnds(cfg, s, j, now);
    var published := PublishedTrace(cfg, s, j, now);
    var drop := Trace([End(s, published).(journal := NoJournal)], Ok(()));
    forall w | w in t.writes ensures KeepsAll(s, w, j, now) {
      InThen(published, drop, w);
    }
  }

  lemma {:induction false} CommitEnds(cfg: Settings, s: DiskState, j: Journal, now: int)
    requires LoadJournal(cfg, s.journal) == Ok(Some(j)) && ValidJournal(j)
    ensures var published := PublishedTrace(cfg, s, j, now);
            var t := CommitJournalTrace(cfg, s, now);
            && t == Then(published, Trace([End(s, published).(journal := NoJournal)], Ok(())))
            && (t.outcome.Ok? <==> End(s, t).journal.NoJournal?)
  {
    var published := PublishedTrace(cfg, s, j, now);
    PublishedKeepsJournal(cfg, s, j, now);
    CommitIsThen(cfg, s, j, now);
    DropEnds(s, published);
  }

  lemma {:induction false} CommitIsThen(cfg: Settings, s: DiskState, j: Journal, now: int)
    requires LoadJournal(cfg, s.journal) == Ok(Some(j)) && ValidJournal(j)
    ensures var published := PublishedTrace(cfg, s, j, now);
            CommitJournalTrace(cfg, s, now) == Then(published, Trace([End(s, published).(journal := NoJournal)], Ok(())))
  {
  }

  lemma {:induction false} DropEnds(s: DiskState, published: Trace<()>)
    requires s.journal.JournalOf? && forall w | w in published.writes :: w.journal == s.journal
    ensures var t := Then(published, Trace([End(s, published).(journal := NoJournal)], Ok(())));
            t.outcome.Ok? <==> End(s, t).journal.NoJournal?
  {
    assert End(s, published) == s || End(s, published) in published.writes;
    if published.outcome.Ok? {
      ThenEnd(s, published, Trace([End(s, published).(journal := NoJournal)], Ok(())));
    }
  }

  /** `recover` from any disk at all: a PREPARED journal goes and nothing else changes; a decided
      one is committed; without a journal, or with one that cannot be read, nothing is written. */
  lemma {:induction false} RecoverKeepsEdits(cfg: Settings, s: DiskState, now: int)
    ensures var t := RecoverTrace(cfg, s, now);
            var loaded := LoadJournal(cfg, s.journal);
            if !loaded.Ok? || loaded.value.None? then t.writes == []
            else if loaded.value.value.state == Prepared then t == Trace([s.(journal := NoJournal)], Ok(()))
            else
              var j := loaded.value.value;
              && (forall w | w in t.writes :: KeepsAll(s, w, j, now))
              && (t.outcome.Ok? <==> End(s, t).journal.NoJournal?)
              && (forall i | 0 <= i < |t.writes| :: t.writes[i].journal == s.journal || (t.outcome.Ok? && i == |t.writes| - 1))
  {
    var loaded := LoadJournal(cfg, s.journal);
    if loaded.Ok? && loaded.value.Some? && loaded.value.value.state != Prepared {
      CommitKeepsEdits(cfg, s, loaded.value.value, now);
      RecoverIsCommit(cfg, s, loaded.value.value, now);
    }
  }

  lemma {:induction false} RecoverIsCommit(cfg: Settings, s: DiskState, j: Journal, now: int)
    requires LoadJournal(cfg, s.journal) == Ok(Some(j)) && j.state != Prepared
    ensures RecoverTrace(cfg, s, now) == CommitJournalTrace(cfg, s, now)
  {
  }
}
