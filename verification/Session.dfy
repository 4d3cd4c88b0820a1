/** Whole runs of the command line: start-up, turns, resets, and a crash at any atomic step. */
module Session {
  import opened Outcomes
  import opened Models
  import opened Storage
  import opened RawArchive
  import opened LongTerm
  import opened Transaction
  import opened Coherence
  import opened Controller
  import opened Reset
  import opened Safety
  import opened Turns

  /** What the process is doing: not running, waiting for input, or about to resume a turn. */
  datatype Phase = Down | Idle | Resuming(turn: string)

  /** `shown` are the answers handed to the user since the last full reset. */
  datatype System = System(disk: DiskState, phase: Phase, shown: seq<string>)

  datatype Action =
    | StartUp(resume: bool, now: int)
    | Turn(input: TurnInput)
    | Quit
    | ResetAll(now: int)
    | ResetLongTerm(now: int)

  /** `crash` is the number of atomic steps after which the process dies, if it does. */
  datatype Event = Event(action: Action, crash: Option<nat>)

  // ---------------------------------------------------------------- start-up

  ghost function BootTrace(cfg: Settings, s: DiskState, now: int): Trace<()> {
    var init := InitializeTrace(cfg, s, now);
    Then(init, RecoverTrace(cfg, End(s, init), now))
  }

  lemma {:induction false} BootIs(cfg: Settings, s: DiskState, now: int, init: Trace<Loaded>, rest: Trace<()>)
    requires init == InitializeTrace(cfg, s, now) && rest == RecoverTrace(cfg, End(s, init), now)
    ensures BootTrace(cfg, s, now) == Then(init, rest)
  {
  }

  /** `chat` after the application is built: resume or discard the unanswered USER. */
  ghost function ResolveTrace(cfg: Settings, s: DiskState, resume: bool): Trace<Phase> {
    var read := ReadSegments(s.segments);
    if !read.Ok? then Trace([], Err(read.code))
    else if PendingOf(read.value).None? then Trace([], Ok(Idle))
    else if resume then Trace([], Ok(Resuming(PendingOf(read.value).value.turn)))
    else Then(DiscardPendingTrace(cfg, s, Some(PendingOf(read.value).value.turn)), Trace([], Ok(Idle)))
  }

  ghost function StartTrace(cfg: Settings, s: DiskState, resume: bool, now: int): Trace<Phase> {
    var boot := BootTrace(cfg, s, now);
    Then(boot, ResolveTrace(cfg, End(s, boot), resume))
  }

  /** The start-up of `chat`: build the application, then settle the unanswered USER. */
  class ChatSession {
    const cfg: Settings
    const disk: Disk
    const controller: SingleTurnController

    ghost predicate Valid() {
      controller.disk == disk && controller.cfg == cfg && controller.Valid()
    }

    constructor (cfg: Settings, disk: Disk)
      ensures Valid() && this.cfg == cfg && this.disk == disk && fresh(controller) && fresh(controller.store)
    {
      this.cfg, this.disk := cfg, disk;
      controller := new SingleTurnController(cfg, disk);
    }

    method Boot(now: int) returns (r: Outcome<()>)
      requires Valid()
      modifies disk, controller.store
      ensures Follows(old(disk.State()), old(disk.fuse), BootTrace(cfg, old(disk.State()), now), disk.State(), disk.fuse, r)
    {
      ghost var s, fuse := disk.State(), disk.fuse;
      ghost var init := InitializeTrace(cfg, s, now);
      var document := controller.store.Initialize(now);
      ghost var s1, fuse1 := disk.State(), disk.fuse;
      if document.Ok? {
        r := controller.uow.Recover(now);
      } else {
        r := document.PropagateFailure();
      }
      FollowsThen(s, fuse, Trace(init.writes, MapOk(init.outcome, DocumentOf)), s1, fuse1, document,
                  RecoverTrace(cfg, s1, now), disk.State(), disk.fuse, r);
    }

    method Resolve(resume: bool) returns (r: Outcome<Phase>)
      requires Valid()
      modifies disk
      ensures Follows(old(disk.State()), old(disk.fuse), ResolveTrace(cfg, old(disk.State()), resume), disk.State(), disk.fuse, r)
    {
      var records :- controller.archive.ReadAll();
      var pending := PendingOf(records);
      if pending.None? {
        return Ok(Idle);
      }
      if resume {
        return Ok(Resuming(pending.value.turn));
      }
      var _ :- controller.DiscardPending(Some(pending.value.turn));
      return Ok(Idle);
    }

    method Start(resume: bool, now: int) returns (r: Outcome<Phase>)
      requires Valid()
      modifies disk, controller.store
      ensures Follows(old(disk.State()), old(disk.fuse), StartTrace(cfg, old(disk.State()), resume, now), disk.State(), disk.fuse, r)
    {
      ghost var s, fuse := disk.State(), disk.fuse;
      var boot := Boot(now);
      ghost var s1, fuse1 := disk.State(), disk.fuse;
      if boot.Ok? {
        r := Resolve(resume);
      } else {
        r := boot.PropagateFailure();
      }
      FollowsThen(s, fuse, BootTrace(cfg, s, now), s1, fuse1, boot, ResolveTrace(cfg, s1, resume), disk.State(), disk.fuse, r);
    }
  }

  // ---------------------------------------------------------------- one event

  /** What the program's protocol allows next: new ids are new, the writer lock keeps a reset
      away from a running session, and a resumed turn comes first. */
  predicate Enabled(sys: System, e: Action) {
    match e
    case StartUp(_, _) => sys.phase.Down?
    case Turn(input) =>
      (match sys.phase
       case Down => false
       case Idle => FreshTurnInput(Log(sys.disk), input)
       case Resuming(turn) => input.resume && input.turn == turn && forall r | r in Log(sys.disk) :: r.id != input.assistantId)
    case Quit => true
    case ResetAll(_) => sys.phase.Down?
    case ResetLongTerm(_) => sys.phase.Down?
  }

  /** A completed turn keeps the session only when it ended without an exception. */
  ghost function AfterTurn(cfg: Settings, sys: System, input: TurnInput, crash: Option<nat>): System {
    var t := RunTurnTrace(cfg, sys.disk, input);
    if crash.Some? then System(After(sys.disk, t, crash.value), Down, sys.shown)
    else if !t.outcome.Ok? then System(End(sys.disk, t), Down, sys.shown)
    else System(End(sys.disk, t), Idle, if t.outcome.value.Shown? then sys.shown + [t.outcome.value.text] else sys.shown)
  }

  ghost function AfterStart(cfg: Settings, sys: System, resume: bool, now: int, crash: Option<nat>): System {
    var t := StartTrace(cfg, sys.disk, resume, now);
    if crash.Some? then System(After(sys.disk, t, crash.value), Down, sys.shown)
    else System(End(sys.disk, t), if t.outcome.Ok? then t.outcome.value else Down, sys.shown)
  }

  function AfterReset(sys: System, t: Trace<()>, crash: Option<nat>, shown: seq<string>): System {
    System(if crash.Some? then After(sys.disk, t, crash.value) else End(sys.disk, t), Down, shown)
  }

  ghost function Next(cfg: Settings, sys: System, e: Event): System {
    match e.action
    case StartUp(resume, now) => AfterStart(cfg, sys, resume, now, e.crash)
    case Turn(input) => AfterTurn(cfg, sys, input, e.crash)
    case Quit => System(sys.disk, Down, sys.shown)
    case ResetAll(now) => AfterReset(sys, ResetAllTrace(cfg, sys.disk, now), e.crash, [])
    case ResetLongTerm(now) => AfterReset(sys, ResetLongTermTrace(cfg, sys.disk, now), e.crash, sys.shown)
  }

  ghost predicate PossibleRun(cfg: Settings, sys: System, es: seq<Event>)
    decreases |es|
  {
    es == [] || (Enabled(sys, es[0].action) && PossibleRun(cfg, Next(cfg, sys, es[0]), es[1..]))
  }

  ghost function Run(cfg: Settings, sys: System, es: seq<Event>): System
    decreases |es|
  {
    if es == [] then sys else Run(cfg, Next(cfg, sys, es[0]), es[1..])
  }

  // ---------------------------------------------------------------- the invariant

  ghost predicate Invariant(cfg: Settings, sys: System) {
    && SafeDisk(cfg, sys.disk)
    && (sys.phase.Idle? ==> Settled(cfg, sys.disk))
    && (sys.phase.Resuming? ==> exists user :: Pending(cfg, sys.disk, user) && user.turn == sys.phase.turn)
    && (forall text | text in sys.shown :: Answers(Log(sys.disk), text))
  }

  lemma {:induction false} AnsweredGrows(base: seq<RawRecord>, rs: seq<RawRecord>)
    requires base <= rs && CompletePairs(base)
    ensures base <= AnsweredPart(rs)
  {
  }

  lemma {:induction false} AnsweredIsPairs(rs: seq<RawRecord>)
    requires LogShape(rs)
    ensures CompletePairs(AnsweredPart(rs)) && AnsweredPart(rs) <= rs
  {
    if PendingOf(rs).Some? && |rs| >= 2 {
      assert rs[|rs| - 2].role != rs[|rs| - 1].role;
    }
  }

  lemma {:induction false} AnswersStay(base: seq<RawRecord>, rs: seq<RawRecord>, text: string)
    requires LogShape(rs) && Answers(rs, text) && LogShape(base) && base == AnsweredPart(rs)
    ensures Answers(base, text)
  {
    var r :| r in rs && r.role == Assistant && r.content == text;
    var i :| 0 <= i < |rs| && rs[i] == r;
    assert base[i] == r;
  }

  lemma {:induction false} AnswersGrow(base: seq<RawRecord>, rs: seq<RawRecord>, text: string)
    requires base <= rs && Answers(base, text)
    ensures Answers(rs, text)
  {
    var r :| r in base && r.role == Assistant && r.content == text;
    assert r in rs;
  }

  /** Shown answers stay in the log while its answered part only grows. */
  lemma {:induction false} ShownStays(before: seq<RawRecord>, after: seq<RawRecord>, shown: seq<string>)
    requires LogShape(before) && AnsweredPart(before) <= after
    requires forall text | text in shown :: Answers(before, text)
    ensures forall text | text in shown :: Answers(after, text)
  {
    AnsweredIsPairs(before);
    forall text | text in shown ensures Answers(after, text) {
      AnswersStay(AnsweredPart(before), before, text);
      AnswersGrow(AnsweredPart(before), after, text);
    }
  }

  // ---------------------------------------------------------------- start-up keeps it

  lemma {:induction false} BootSafe(cfg: Settings, s: DiskState, now: int)
    requires ValidSettings(cfg) && SafeDisk(cfg, s)
    ensures var t := BootTrace(cfg, s, now);
            && !t.outcome.Crashed? && Safe(cfg, Log(s), t)
            && (t.outcome.Ok? ==> SafeDisk(cfg, End(s, t)) && End(s, t).journal.NoJournal? && Log(s) <= Log(End(s, t)))
  {
    var init := InitializeTrace(cfg, s, now);
    InitializeSafe(cfg, Log(s), s, now);
    var s1 := End(s, init);
    assert Log(s1) == Log(s);
    RecoverSafe(cfg, s1, now);
    EndThen(s, init, RecoverTrace(cfg, s1, now));
    SafeThen(cfg, Log(s), init, RecoverTrace(cfg, s1, now));
  }

  lemma {:induction false} EndThen<T, U>(s: DiskState, t: Trace<T>, u: Trace<U>)
    ensures t.outcome.Ok? ==> End(s, Then(t, u)) == End(End(s, t), u)
  {
    if t.outcome.Ok? {
      ThenEnd(s, t, u);
    }
  }

  ghost predicate Entered(cfg: Settings, s: DiskState, phase: Phase) {
    && (phase.Idle? ==> Settled(cfg, s))
    && (phase.Resuming? ==> exists user :: Pending(cfg, s, user) && user.turn == phase.turn)
  }

  lemma {:induction false} ResolveSafe(cfg: Settings, s: DiskState, resume: bool)
    requires SafeDisk(cfg, s) && s.journal.NoJournal?
    ensures var t := ResolveTrace(cfg, s, resume);
            && !t.outcome.Crashed? && Safe(cfg, AnsweredPart(Log(s)), t)
            && (t.outcome.Ok? ==> Entered(cfg, End(s, t), t.outcome.value))
  {
    if PendingOf(Log(s)).Some? {
      var user := PendingOf(Log(s)).value;
      if resume {
        assert Pending(cfg, s, user);
      } else {
        var discard := DiscardPendingTrace(cfg, s, Some(user.turn));
        DiscardSafe(cfg, s, Some(user.turn));
        EndThen(s, discard, Trace([], Ok(Idle)));
        SafeThen(cfg, AnsweredPart(Log(s)), discard, Trace([], Ok(Idle)));
      }
    }
  }

  lemma {:induction false} StartSafe(cfg: Settings, s: DiskState, resume: bool, now: int)
    requires ValidSettings(cfg) && SafeDisk(cfg, s)
    ensures var t := StartTrace(cfg, s, resume, now);
            && !t.outcome.Crashed? && Safe(cfg, AnsweredPart(Log(s)), t)
            && (t.outcome.Ok? ==> Entered(cfg, End(s, t), t.outcome.value))
  {
    var base := AnsweredPart(Log(s));
    var boot := BootTrace(cfg, s, now);
    BootSafe(cfg, s, now);
    AnsweredIsPairs(Log(s));
    SafeLonger(cfg, base, Log(s), boot);
    if boot.outcome.Ok? {
      var s1 := End(s, boot);
      var resolve := ResolveTrace(cfg, s1, resume);
      ResolveSafe(cfg, s1, resume);
      AnsweredGrows(base, Log(s1));
      SafeLonger(cfg, base, AnsweredPart(Log(s1)), resolve);
      EndThen(s, boot, resolve);
      SafeThen(cfg, base, boot, resolve);
    }
  }

  // ---------------------------------------------------------------- resets keep it

  lemma {:induction false} PrefixKeepsLog(cfg: Settings, segs: seq<Segment>, k: nat)
    requires SafeLog(cfg, segs) && k < |segs|
    ensures SafeLog(cfg, segs[..k]) && ReadSegments(segs[..k]).value <= ReadSegments(segs).value
  {
    PrefixReads(segs, ReadSegments(segs).value, k);
  }

  /** Deleting the segment files newest first, once no document refers to them. */
  lemma {:induction false} ClearSafe(cfg: Settings, s: DiskState)
    requires SafeDisk(cfg, s) && s.primary == s.lastValid == Holds(EMPTY_DOCUMENT)
    ensures var t := ClearTrace(s);
            Safe(cfg, [], t) && SafeDisk(cfg, End(s, t)) && End(s, t) == s.(segments := [])
  {
    var t := ClearTrace(s);
    forall i | 0 <= i < |t.writes| ensures SafeDisk(cfg, t.writes[i]) {
      var k := |s.segments| - 1 - i;
      PrefixKeepsLog(cfg, s.segments, k);
      var rs := ReadSegments(s.segments[..k]).value;
      SafeJournalPrefix(s.journal, Log(s), rs);
      EmptyIsCoherent(rs);
    }
  }

  lemma {:induction false} SafeAnywhere<T>(cfg: Settings, base: seq<RawRecord>, s: DiskState, t: Trace<T>)
    requires SafeDisk(cfg, s) && Safe(cfg, base, t)
    ensures SafeDisk(cfg, End(s, t)) && Safe(cfg, [], t)
  {
  }

  /** No reference dangles at any step of a full reset, and its end is the empty store;
      the journal is not touched. */
  lemma {:induction false} ResetAllSafe(cfg: Settings, s: DiskState, now: int)
    requires SafeDisk(cfg, s)
    ensures var t := ResetAllTrace(cfg, s, now);
            && !t.outcome.Crashed? && Safe(cfg, [], t)
            && (t.outcome.Ok? ==> End(s, t) == DiskState([], Holds(EMPTY_DOCUMENT), Holds(EMPTY_DOCUMENT), s.journal))
  {
    var init := Ignoring(InitializeTrace(cfg, s, now));
    InitializeSafe(cfg, [], s, now);
    var s1 := End(s, init);
    EmptySafe(cfg, s1);
    EndThen(s, init, EmptyTrace(cfg, s1));
    SafeThen(cfg, [], init, EmptyTrace(cfg, s1));
  }

  lemma {:induction false} EmptySafe(cfg: Settings, s: DiskState)
    requires SafeDisk(cfg, s)
    ensures var t := EmptyTrace(cfg, s);
            && !t.outcome.Crashed? && Safe(cfg, [], t)
            && (t.outcome.Ok? ==> End(s, t) == DiskState([], Holds(EMPTY_DOCUMENT), Holds(EMPTY_DOCUMENT), s.journal))
  {
    FactorySafe(cfg, s);
    var factory := FactoryTrace(cfg, s);
    var s1 := End(s, factory);
    var clear := ClearTrace(s1);
    if factory.outcome.Ok? {
      ClearSafe(cfg, s1);
      EndThen(s, factory, clear);
    }
    SafeThen(cfg, [], factory, clear);
  }

  lemma {:induction false} FactorySafe(cfg: Settings, s: DiskState)
    requires SafeDisk(cfg, s)
    ensures var t := FactoryTrace(cfg, s);
            && !t.outcome.Crashed? && Safe(cfg, [], t) && SafeDisk(cfg, End(s, t)) && End(s, t).journal == s.journal
            && (t.outcome.Ok? ==> End(s, t).primary == End(s, t).lastValid == Holds(EMPTY_DOCUMENT))
  {
    var hash := if s.primary.Missing? then None else Some(s.primary);
    EmptyIsCoherent(Log(s));
    CommitSafe(cfg, [], s, EMPTY_DOCUMENT, false, hash);
    SafeAnywhere(cfg, [], s, CommitTrace(cfg, s, EMPTY_DOCUMENT, false, hash));
  }

  lemma {:induction false} ClearedCoherent(d: Document, rs: seq<RawRecord>)
    requires Coherent(d, rs) && ValidDocument(Cleared(d))
    ensures Coherent(Cleared(d), rs)
  {
    ClearedResolves(d, rs[..d.curation.frontier]);
  }

  lemma {:induction false} ClearedResolves(d: Document, covered: seq<RawRecord>)
    requires SourcesResolve(d, covered)
    ensures SourcesResolve(Cleared(d), covered)
  {
  }

  lemma {:induction false} ClearMemoriesSafe(cfg: Settings, base: seq<RawRecord>, s: DiskState, now: int)
    requires SafeDisk(cfg, s) && base <= Log(s)
    ensures var t := ClearMemoriesTrace(cfg, s, now);
            !t.outcome.Crashed? && Safe(cfg, base, t)
  {
    var init := InitializeTrace(cfg, s, now);
    InitializeSafe(cfg, base, s, now);
    if init.outcome.Ok? {
      var s1, l := End(s, init), init.outcome.value;
      if ValidDocument(Cleared(l.document)) {
        ClearedCoherent(l.document, Log(s));
      }
      CommitSafe(cfg, base, s1, Cleared(l.document), l.readOnly, l.loadedHash);
      SafeThen(cfg, base, init, CommitTrace(cfg, s1, Cleared(l.document), l.readOnly, l.loadedHash));
    }
  }

  lemma {:induction false} ResetLongTermSafe(cfg: Settings, s: DiskState, now: int)
    requires SafeDisk(cfg, s)
    ensures var t := ResetLongTermTrace(cfg, s, now);
            !t.outcome.Crashed? && Safe(cfg, Log(s), t)
  {
    var init := InitializeTrace(cfg, s, now);
    InitializeSafe(cfg, Log(s), s, now);
    var s1 := End(s, init);
    ClearMemoriesSafe(cfg, Log(s), s1, now);
    SafeThen(cfg, Log(s), init, DocumentDone(ClearMemoriesTrace(cfg, s1, now)));
  }

  // ---------------------------------------------------------------- runs

  /** What one event keeps, and that only a full reset may take answered turns away. */
  ghost predicate Keeps(cfg: Settings, sys: System, next: System, reset: bool) {
    Invariant(cfg, next) && (!reset ==> AnsweredPart(Log(sys.disk)) <= AnsweredPart(Log(next.disk)))
  }

  lemma {:induction false} SafeEvent<T>(cfg: Settings, sys: System, t: Trace<T>, k: nat)
    requires Invariant(cfg, sys) && Safe(cfg, AnsweredPart(Log(sys.disk)), t)
    ensures Keeps(cfg, sys, System(After(sys.disk, t, k), Down, sys.shown), false)
  {
    var base := AnsweredPart(Log(sys.disk));
    AnsweredIsPairs(Log(sys.disk));
    SafeAfter(cfg, base, sys.disk, t, k);
    var s1 := After(sys.disk, t, k);
    AnsweredGrows(base, Log(s1));
    ShownStays(Log(sys.disk), Log(s1), sys.shown);
  }

  lemma {:induction false} StartKeeps(cfg: Settings, sys: System, resume: bool, now: int, crash: Option<nat>)
    requires ValidSettings(cfg) && Invariant(cfg, sys)
    ensures Keeps(cfg, sys, AfterStart(cfg, sys, resume, now, crash), false)
  {
    var t := StartTrace(cfg, sys.disk, resume, now);
    StartSafe(cfg, sys.disk, resume, now);
    SafeEvent(cfg, sys, t, if crash.Some? then crash.value else |t.writes|);
  }

  lemma {:induction false} ResetKeeps(cfg: Settings, sys: System, t: Trace<()>, crash: Option<nat>)
    requires Invariant(cfg, sys) && Safe(cfg, [], t)
    ensures Keeps(cfg, sys, AfterReset(sys, t, crash, []), true)
  {
    SafeAfter(cfg, [], sys.disk, t, if crash.Some? then crash.value else |t.writes|);
  }

  lemma {:induction false} TurnIsKept(cfg: Settings, sys: System, input: TurnInput)
    requires ValidSettings(cfg) && Invariant(cfg, sys) && Enabled(sys, Turn(input))
    ensures TurnKeeps(cfg, AnsweredPart(Log(sys.disk)), sys.disk, RunTurnTrace(cfg, sys.disk, input))
  {
    if sys.phase.Idle? {
      NewTurnKeeps(cfg, sys.disk, input);
      SettledIsAnswered(cfg, sys.disk);
    } else {
      var user :| Pending(cfg, sys.disk, user) && user.turn == sys.phase.turn;
      PendingTurnKeeps(cfg, sys.disk, input, user);
    }
  }

  lemma {:induction false} SettledIsAnswered(cfg: Settings, s: DiskState)
    requires Settled(cfg, s)
    ensures AnsweredPart(Log(s)) == Log(s)
  {
  }

  lemma {:induction false} TurnEventKeeps(cfg: Settings, sys: System, input: TurnInput, crash: Option<nat>)
    requires ValidSettings(cfg) && Invariant(cfg, sys) && Enabled(sys, Turn(input))
    ensures Keeps(cfg, sys, AfterTurn(cfg, sys, input, crash), false)
  {
    var t := RunTurnTrace(cfg, sys.disk, input);
    TurnIsKept(cfg, sys, input);
    SafeEvent(cfg, sys, t, if crash.Some? then crash.value else |t.writes|);
  }

  /** One event of the program, crash or not, keeps the invariant. */
  lemma {:induction false} EventKeeps(cfg: Settings, sys: System, e: Event)
    requires ValidSettings(cfg) && Invariant(cfg, sys) && Enabled(sys, e.action)
    ensures Keeps(cfg, sys, Next(cfg, sys, e), e.action.ResetAll?)
  {
    match e.action
    case StartUp(resume, now) => StartKeeps(cfg, sys, resume, now, e.crash);
    case Turn(input) => TurnEventKeeps(cfg, sys, input, e.crash);
    case Quit =>
    case ResetAll(now) =>
      ResetAllSafe(cfg, sys.disk, now);
      ResetKeeps(cfg, sys, ResetAllTrace(cfg, sys.disk, now), e.crash);
    case ResetLongTerm(now) =>
      var t := ResetLongTermTrace(cfg, sys.disk, now);
      ResetLongTermSafe(cfg, sys.disk, now);
      AnsweredIsPairs(Log(sys.disk));
      SafeLonger(cfg, AnsweredPart(Log(sys.disk)), Log(sys.disk), t);
      SafeEvent(cfg, sys, t, if e.crash.Some? then e.crash.value else |t.writes|);
  }

  /** Every run, with crashes at any atomic step of any event, ends in a disk that is
      readable and turn-shaped, without a dangling reference, with every shown answer in
      the log; and unless a full reset ran, no answered turn was lost or changed. */
  lemma {:induction false} EveryRunKeeps(cfg: Settings, sys: System, es: seq<Event>)
    requires ValidSettings(cfg) && Invariant(cfg, sys) && PossibleRun(cfg, sys, es)
    ensures Keeps(cfg, sys, Run(cfg, sys, es), exists i :: 0 <= i < |es| && es[i].action.ResetAll?)
    decreases |es|
  {
    if es != [] {
      var next := Next(cfg, sys, es[0]);
      EventKeeps(cfg, sys, es[0]);
      EveryRunKeeps(cfg, next, es[1..]);
      forall i | 0 <= i < |es[1..]| && es[1..][i].action.ResetAll? ensures es[i + 1].action.ResetAll? {}
    }
  }

  lemma {:induction false} FreshStart(cfg: Settings)
    ensures Invariant(cfg, System(FRESH_DISK, Down, []))
  {
  }
}
