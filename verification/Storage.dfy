/** The files the program keeps, as one value and as one mutable disk. Every
    `atomic_write` and every `unlink` is one step; the process may die before any step. */
module Storage {
  import opened Outcomes
  import opened Models

  /** The configured limits, with the parts that are opaque here as total functions:
      the size of a serialized line or document, the credential guard's verdict and the text
      a journal is serialized to, in which a content is escaped. */
  datatype Settings = Settings(
    segmentMaxRecords: nat, segmentMaxBytes: nat, maxRecordBytes: nat,
    maxDocumentBytes: nat, maxItems: nat, maxOverviewChars: nat,
    maxRecords: nat, reservedRecords: nat, minBatchRecords: nat, maxBatchRecords: nat,
    lineBytes: RawRecord -> nat, documentBytes: Document -> nat, safe: string -> bool,
    journalText: Journal -> string, textKey: string -> string)

  /** The cross checks of `validate_agent`, and the positivity its schema demands. */
  predicate ValidSettings(cfg: Settings) {
    && cfg.segmentMaxRecords >= 1 && cfg.maxRecordBytes <= cfg.segmentMaxBytes
    && cfg.reservedRecords < cfg.maxRecords
    && 1 <= cfg.minBatchRecords <= cfg.maxBatchRecords
  }

  datatype Line = Stored(record: RawRecord) | Garbage

  /** `terminated` is false when the payload is non-empty and lacks its final newline. */
  datatype Segment = Segment(number: nat, lines: seq<Line>, terminated: bool)

  datatype DocumentFile = Missing | Unparsable | Holds(document: Document)

  datatype TransactionState = Prepared | ReadyPending | ReadyToCommit

  datatype PreTurnCheckpoint = PreTurnCheckpoint(
    rawCount: nat, rawTail: Option<string>, rawIdentity: seq<(string, Digest)>,
    longTermRevision: Option<int>, longTermIdentity: Option<Document>, agentState: string)

  datatype Journal = Journal(
    state: TransactionState, transactionId: string, turn: string,
    checkpoint: PreTurnCheckpoint, user: RawRecord, failureCode: Option<string>,
    assistant: Option<RawRecord>, target: Option<Document>, targetIdentity: Option<Document>)

  datatype JournalFile = NoJournal | BadJournal | JournalOf(journal: Journal)

  /** `TurnTransactionJournal.validate_state_fields`. */
  predicate ValidJournal(j: Journal) {
    && ValidRecord(j.user) && j.user.role == User && j.user.turn == j.turn
    && (j.target.None? <==> j.targetIdentity.None?)
    && (j.assistant.Some? ==> ValidRecord(j.assistant.value))
    && match j.state
       case Prepared => j.failureCode.None? && j.assistant.None? && j.target.None?
       case ReadyPending => j.failureCode.Some? && j.failureCode.value != "" && j.assistant.None? && j.target.None?
       case ReadyToCommit =>
         && j.assistant.Some? && j.assistant.value.role == Assistant
         && j.assistant.value.turn == j.turn
         && j.assistant.value.sequence == j.user.sequence + 1
  }

  datatype DiskState = DiskState(
    segments: seq<Segment>, primary: DocumentFile, lastValid: DocumentFile, journal: JournalFile)

  const FRESH_DISK := DiskState([], Missing, Missing, NoJournal)

  /** At most one segment file is rewritten, added after the last or removed from the end. */
  predicate OneSegment(a: seq<Segment>, b: seq<Segment>) {
    || (|b| == |a| + 1 && b[..|a|] == a)
    || (|b| + 1 == |a| && a[..|b|] == b)
    || (|b| == |a| > 0 && b[..|b| - 1] == a[..|a| - 1])
    || a == b
  }

  /** One atomic step touches one file. */
  predicate OneFile(a: DiskState, b: DiskState) {
    || (OneSegment(a.segments, b.segments) && b == a.(segments := b.segments))
    || b == a.(primary := b.primary)
    || b == a.(lastValid := b.lastValid)
    || b == a.(journal := b.journal)
  }

  /** What an operation does when nothing interrupts it: the successive contents of
      the disk, one per atomic step, and its result. */
  datatype Trace<+T> = Trace(writes: seq<DiskState>, outcome: Outcome<T>)

  /** The disk after the first `k` steps: where a crash at that point leaves it. */
  function After<T>(s: DiskState, t: Trace<T>, k: nat): DiskState {
    if k == 0 || t.writes == [] then s
    else if k <= |t.writes| then t.writes[k - 1]
    else t.writes[|t.writes| - 1]
  }

  function End<T>(s: DiskState, t: Trace<T>): DiskState {
    After(s, t, |t.writes|)
  }

  /** One operation after another; the second is meant for the end of a successful first. */
  function Then<T, U>(t: Trace<T>, u: Trace<U>): Trace<U> {
    if t.outcome.Ok? then Trace(t.writes + u.writes, u.outcome)
    else Trace(t.writes, t.outcome.PropagateFailure())
  }

  /** The relation every storage method meets: it performs its trace, or the prefix of
      it that the process survived. */
  ghost predicate Follows<T>(s: DiskState, fuse: nat, t: Trace<T>, s': DiskState, fuse': nat, r: Outcome<T>) {
    if fuse < |t.writes| then r.Crashed? && s' == After(s, t, fuse) && fuse' == 0
    else r == t.outcome && !r.Crashed? && s' == End(s, t) && fuse' == fuse - |t.writes|
  }

  lemma {:induction false} ThenEnd<T, U>(s: DiskState, t: Trace<T>, u: Trace<U>)
    requires t.outcome.Ok?
    ensures End(s, Then(t, u)) == End(End(s, t), u)
    ensures forall k: nat | k <= |t.writes| :: After(s, Then(t, u), k) == After(s, t, k)
    ensures forall k: nat :: After(s, Then(t, u), |t.writes| + k) == After(End(s, t), u, k)
  {
  }

  lemma {:induction false} FollowsThen<T, U>(s: DiskState, fuse: nat, t: Trace<T>, s1: DiskState, fuse1: nat, r1: Outcome<T>,
                          u: Trace<U>, s2: DiskState, fuse2: nat, r2: Outcome<U>)
    requires Follows(s, fuse, t, s1, fuse1, r1)
    requires r1.Ok? ==> Follows(s1, fuse1, u, s2, fuse2, r2)
    requires !r1.Ok? ==> s2 == s1 && fuse2 == fuse1 && r2 == r1.PropagateFailure()
    ensures Follows(s, fuse, Then(t, u), s2, fuse2, r2)
  {
    if r1.Ok? {
      ThenEnd(s, t, u);
    }
  }

  /** The disk with a fuse: how many more atomic steps the process lives. */
  class Disk {
    var segments: seq<Segment>
    var primary: DocumentFile
    var lastValid: DocumentFile
    var journal: JournalFile
    var fuse: nat

    function State(): DiskState
      reads this
    {
      DiskState(segments, primary, lastValid, journal)
    }

    constructor (s: DiskState, fuse: nat)
      ensures State() == s && this.fuse == fuse
    {
      segments, primary, lastValid, journal := s.segments, s.primary, s.lastValid, s.journal;
      this.fuse := fuse;
    }

    /** `atomic_write` or `unlink`: the replacement happens as a whole or not at all. */
    method Step(next: DiskState) returns (r: Outcome<()>)
      requires OneFile(State(), next)
      modifies this
      ensures Follows(old(State()), old(fuse), Trace([next], Ok(())), State(), fuse, r)
    {
      if fuse == 0 {
        return Crashed;
      }
      fuse := fuse - 1;
      segments, primary, lastValid, journal := next.segments, next.primary, next.lastValid, next.journal;
      return Ok(());
    }
  }
}
