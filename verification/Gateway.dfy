/** `model_calls/gateway.py`: what is approved is what is sent, once per attempt, over any run
    of calls through any gateways that share one allocator. */
module Gateway {
  import opened Outcomes

  // ---------------------------------------------------------------- call sequence numbers

  datatype Draft = Draft(turn: string, call: string)

  /** `CallIdentityAllocator`, shared by the gateways of one application. */
  class CallIdentityAllocator {
    var nextByTurn: map<string, nat>
    var seenCallIds: set<string>
    /** Every draft that got a number, in order. */
    ghost var numbered: seq<Draft>

    ghost predicate Valid()
      reads this
    {
      && seenCallIds == (set d | d in numbered :: d.call)
      && (forall t :: (if t in nextByTurn then nextByTurn[t] else 1) == 1 + CountTurn(numbered, t))
      && (forall i, j | 0 <= i < j < |numbered| :: numbered[i].call != numbered[j].call)
    }

    constructor ()
      ensures Valid() && numbered == []
    {
      nextByTurn, seenCallIds, numbered := map[], {}, [];
    }

    /** The number is one more than the calls of this turn before; a call id is used once. */
    method Assign(d: Draft) returns (r: Outcome<nat>)
      requires Valid()
      modifies this
      ensures Valid()
      ensures r.Ok? <==> forall e | e in old(numbered) :: e.call != d.call
      ensures r.Ok? ==> numbered == old(numbered) + [d] && r.value == CountTurn(numbered, d.turn)
      ensures !r.Ok? ==> r == Err("MODEL_CALL_IDENTITY_INVALID") && numbered == old(numbered)
    {
      if d.call in seenCallIds {
        return Err("MODEL_CALL_IDENTITY_INVALID");
      }
      forall e | e in numbered ensures e.call != d.call {
        assert e.call in seenCallIds;
      }
      var sequence := if d.turn in nextByTurn then nextByTurn[d.turn] else 1;
      nextByTurn := nextByTurn[d.turn := sequence + 1];
      seenCallIds := seenCallIds + {d.call};
      ghost var before := numbered;
      numbered := numbered + [d];
      assert numbered[..|numbered| - 1] == before;
      return Ok(sequence);
    }
  }

  function CountTurn(ds: seq<Draft>, turn: string): nat {
    if ds == [] then 0 else CountTurn(ds[..|ds| - 1], turn) + (if ds[|ds| - 1].turn == turn then 1 else 0)
  }

  /** The numbers that a run of calls gets. */
  function Numbers(ds: seq<Draft>): seq<nat> {
    seq(|ds|, i requires 0 <= i < |ds| => CountTurn(ds[..i + 1], ds[i].turn))
  }

  /** Within one turn the numbers are 1, 2, 3 and so on, whatever the turns interleave. */
  lemma {:induction false} NumbersCountUp(ds: seq<Draft>, turn: string, n: nat)
    requires 1 <= n <= CountTurn(ds, turn)
    ensures exists i :: 0 <= i < |ds| && ds[i].turn == turn && Numbers(ds)[i] == n
    ensures forall i, j | 0 <= i < j < |ds| && ds[i].turn == turn == ds[j].turn :: Numbers(ds)[i] < Numbers(ds)[j]
  {
    NumberExists(ds, turn, n);
    forall i, j | 0 <= i < j < |ds| && ds[i].turn == turn == ds[j].turn ensures Numbers(ds)[i] < Numbers(ds)[j] {
      NumbersIncrease(ds, i, j);
    }
  }

  lemma {:induction false} NumbersIncrease(ds: seq<Draft>, i: nat, j: nat)
    requires i < j < |ds| && ds[i].turn == ds[j].turn
    ensures Numbers(ds)[i] < Numbers(ds)[j]
  {
    assert ds[..j + 1][..j] == ds[..j];
    CountGrows(ds, ds[j].turn, i + 1, j);
  }

  lemma {:induction false} CountGrows(ds: seq<Draft>, turn: string, i: nat, j: nat)
    requires i <= j <= |ds|
    ensures CountTurn(ds[..i], turn) <= CountTurn(ds[..j], turn)
  {
    if i < j {
      assert ds[..j][..j - 1] == ds[..j - 1];
      CountGrows(ds, turn, i, j - 1);
    }
  }

  lemma {:induction false} NumberExists(ds: seq<Draft>, turn: string, n: nat)
    requires 1 <= n <= CountTurn(ds, turn)
    ensures exists i :: 0 <= i < |ds| && ds[i].turn == turn && Numbers(ds)[i] == n
  {
    var k := |ds| - 1;
    if ds[k].turn == turn && CountTurn(ds, turn) == n {
      assert ds[..k + 1] == ds;
      assert Numbers(ds)[k] == n;
    } else {
      NumberExists(ds[..k], turn, n);
      var i :| 0 <= i < k && ds[..k][i].turn == turn && Numbers(ds[..k])[i] == n;
      assert ds[..k][..i + 1] == ds[..i + 1];
      assert Numbers(ds)[i] == n;
    }
  }

  // ---------------------------------------------------------------- one call

  /** What the user's approval screen gives back; the token names what it approved. The task
      may be cancelled while it waits for the user. */
  datatype Decision = Approve(call: string, attempt: nat, digest: string) | Decline | DeclinedByTurn | ScreenFails | CancelledDecide

  /** What the provider gives back, unless the task is cancelled while it waits for it. */
  datatype Reply = Answered | Fails(code: string, retryable: bool) | Breaks | CancelledReply

  /** One attempt's surroundings: the payload the adapter makes, whether its parts are
      traceable and its text safe, the decision, the reply, and whether the task is cancelled
      in the pause before the next attempt, if there is one. */
  datatype Attempt = Attempt(digest: string, traceable: bool, safe: bool, decision: Decision, reply: Reply, cancelledPause: bool)

  datatype Status = Prepared | Materialized | DisplayReady | Rejected | Approved | SenderOwned | Completed | ProviderFailed

  /** A draft with the number that the allocator gave it. */
  datatype Assigned = Assigned(draft: Draft, sequence: nat)

  datatype CallState = CallState(call: Assigned, attempt: nat, status: Status)

  /** What the outside can see: approvals, and sends with what the screen still held then. */
  datatype Event = Approval(call: string, attempt: nat, digest: string)
                 | Send(to: Assigned, attempt: nat, digest: string, screenHeld: bool)
                 | Failure(attempt: nat, retryable: bool)

  /** How a call ends: before anything was shown, at the approval screen, or at the provider. */
  datatype CallEnd =
    | NotShown(code: string)
    | Declined
    | ScreenBroke
    | WrongToken
    | Replied
    | Failed(code: string)
    | Broke
    | CancelledAtScreen
    | CancelledLater

  function OutcomeOf(end: CallEnd): (r: Outcome<()>)
    ensures !r.Crashed?
  {
    match end
    case NotShown(code) => Err(code)
    case Declined => Err("TURN_REJECTED")
    case ScreenBroke => Err("DEBUG_PRESENTATION")
    case WrongToken => Err("VALUE_ERROR")
    case Replied => Ok(())
    case Failed(code) => Err(code)
    case Broke => Err("EXCEPTION")
    case CancelledAtScreen => Err("CANCELLED")
    case CancelledLater => Err("CANCELLED")
  }

  /** Why an attempt does not reach its send, if it does not. */
  function Refused(debug: bool, call: string, attempt: nat, env: Attempt): Option<CallEnd> {
    if !env.traceable then Some(NotShown("TRACE_INTEGRITY"))
    else if !env.safe then Some(NotShown("CREDENTIAL_EXPOSURE"))
    else if !debug then None
    else match env.decision
      case DeclinedByTurn => Some(Declined)
      case ScreenFails => Some(ScreenBroke)
      case CancelledDecide => Some(CancelledAtScreen)
      case Decline => Some(Declined)
      case Approve(c, n, digest) => if c != call || n != attempt || digest != env.digest then Some(WrongToken) else None
  }

  /** Whether the screen holds a text after an attempt that found `held`: each way past it
      clears it but two that are thrown over it, the wrong token and a cancellation. */
  function HeldAfter(debug: bool, held: bool, refused: Option<CallEnd>): bool {
    if !debug || (refused.Some? && refused.value.NotShown?) then held
    else refused == Some(WrongToken) || refused == Some(CancelledAtScreen)
  }

  /** What one admitted attempt shows outside. */
  function Sent(debug: bool, to: Assigned, attempt: nat, env: Attempt): seq<Event> {
    ApprovalOf(debug, to, attempt, env) + [Send(to, attempt, env.digest, false)] + FailureOf(attempt, env)
  }

  function ApprovalOf(debug: bool, to: Assigned, attempt: nat, env: Attempt): seq<Event> {
    if debug then [Approval(to.draft.call, attempt, env.digest)] else []
  }

  function FailureOf(attempt: nat, env: Attempt): seq<Event> {
    if env.reply.Fails? then [Failure(attempt, env.reply.retryable)] else []
  }

  /** One round of the loop; `retry` says that the failure it met may be tried again. */
  datatype Round = Round(events: seq<Event>, end: CallEnd, retry: bool, held: bool)

  function RoundOf(debug: bool, to: Assigned, attempt: nat, env: Attempt, held: bool): Round {
    var refused := Refused(debug, to.draft.call, attempt, env);
    var after := HeldAfter(debug, held, refused);
    if refused.Some? then Round([], refused.value, false, after)
    else
      match env.reply
      case Answered => Round(Sent(debug, to, attempt, env), Replied, false, after)
      case Breaks => Round(Sent(debug, to, attempt, env), Broke, false, after)
      case CancelledReply => Round(Sent(debug, to, attempt, env), CancelledLater, false, after)
      case Fails(code, retryable) => Round(Sent(debug, to, attempt, env), Failed(code), retryable, after)
  }

  datatype CallRun = CallRun(events: seq<Event>, end: CallEnd, held: bool)

  /** `_complete_assigned` from attempt `attempt` on. */
  function RunFrom(debug: bool, to: Assigned, envs: seq<Attempt>, attempt: nat, held: bool): CallRun
    requires 1 <= attempt <= |envs|
    decreases |envs| - attempt
  {
    var round := RoundOf(debug, to, attempt, envs[attempt - 1], held);
    if !round.retry || attempt >= |envs| then CallRun(round.events, round.end, round.held)
    else if envs[attempt - 1].cancelledPause then CallRun(round.events, CancelledLater, round.held)
    else
      var rest := RunFrom(debug, to, envs, attempt + 1, round.held);
      CallRun(round.events + rest.events, rest.end, rest.held)
  }

  class ModelCallGateway {
    const debug: bool
    const maxAttempts: nat
    var callStates: seq<CallState>
    var senderPayload: Option<string>
    var screenHeld: bool
    var events: seq<Event>

    /** Between calls no payload is held; without approvals there is no screen to hold a text. */
    ghost predicate Valid()
      reads this
    {
      maxAttempts >= 1 && senderPayload.None? && (!debug ==> !screenHeld)
    }

    constructor (debug: bool, attempts: int)
      ensures this.debug == debug && maxAttempts == (if attempts < 1 then 1 else attempts)
      ensures Valid() && callStates == [] && !screenHeld && events == []
    {
      this.debug := debug;
      maxAttempts := if attempts < 1 then 1 else attempts;
      callStates, senderPayload, screenHeld, events := [], None, false, [];
    }

    method Record(to: Assigned, attempt: nat, status: Status)
      modifies this`callStates
      ensures callStates == old(callStates) + [CallState(to, attempt, status)]
    {
      callStates := callStates + [CallState(to, attempt, status)];
    }

    /** Everything before the send. The guard and the digest are asked once more afterwards,
        about the same payload, so with the same answer. */
    method Admit(to: Assigned, attempt: nat, env: Attempt) returns (refused: Option<CallEnd>)
      requires !debug ==> !screenHeld
      modifies this`callStates, this`screenHeld, this`events
      ensures refused == Refused(debug, to.draft.call, attempt, env)
      ensures screenHeld == HeldAfter(debug, old(screenHeld), refused)
      ensures events == if refused.None? && debug then old(events) + [Approval(to.draft.call, attempt, env.digest)] else old(events)
    {
      Record(to, attempt, Prepared);
      Record(to, attempt, Materialized);
      if !env.traceable {
        return Some(NotShown("TRACE_INTEGRITY"));
      }
      if !env.safe {
        return Some(NotShown("CREDENTIAL_EXPOSURE"));
      }
      Record(to, attempt, DisplayReady);
      if !debug {
        return None;
      }
      screenHeld := true;
      match env.decision {
        case DeclinedByTurn =>
          screenHeld := false;
          return Some(Declined);
        case ScreenFails =>
          screenHeld := false;
          return Some(ScreenBroke);
        case CancelledDecide =>
          return Some(CancelledAtScreen);
        case Decline =>
          screenHeld := false;
          Record(to, attempt, Rejected);
          return Some(Declined);
        case Approve(c, n, digest) =>
          if c != to.draft.call || n != attempt || digest != env.digest {
            return Some(WrongToken);
          }
          events := events + [Approval(c, n, digest)];
          Record(to, attempt, Approved);
          screenHeld := false;
      }
      return None;
    }

    /** One send; the payload is held exactly while it is in flight. */
    method SendOnce(to: Assigned, attempt: nat, env: Attempt) returns (end: CallEnd, retry: bool)
      requires !screenHeld
      modifies this`callStates, this`senderPayload, this`events
      ensures senderPayload.None?
      ensures events == old(events) + [Send(to, attempt, env.digest, false)]
                        + (if env.reply.Fails? then [Failure(attempt, env.reply.retryable)] else [])
      ensures end == match env.reply case Answered => Replied case Fails(code, _) => Failed(code) case Breaks => Broke
                                   case CancelledReply => CancelledLater
      ensures retry <==> env.reply.Fails? && env.reply.retryable
    {
      senderPayload := Some(env.digest);
      Record(to, attempt, SenderOwned);
      events := events + [Send(to, attempt, env.digest, screenHeld)];
      match env.reply {
        case Answered =>
          Record(to, attempt, Completed);
          end, retry := Replied, false;
        case Fails(code, retryable) =>
          events := events + [Failure(attempt, retryable)];
          Record(to, attempt, ProviderFailed);
          end, retry := Failed(code), retryable;
        case Breaks =>
          end, retry := Broke, false;
        case CancelledReply =>
          end, retry := CancelledLater, false;
      }
      senderPayload := None;
    }

    /** One round of the loop. */
    method AttemptOnce(to: Assigned, attempt: nat, env: Attempt) returns (end: CallEnd, retry: bool)
      requires Valid()
      modifies this
      ensures Valid()
      ensures var round := RoundOf(debug, to, attempt, env, old(screenHeld));
              events == old(events) + round.events && end == round.end && retry == round.retry && screenHeld == round.held
    {
      var refused := Admit(to, attempt, env);
      if refused.Some? {
        return refused.value, false;
      }
      end, retry := SendOnce(to, attempt, env);
    }

    /** `_complete_assigned`: the retry loop, whatever the screen held before. */
    method CompleteAssigned(to: Assigned, envs: seq<Attempt>) returns (end: CallEnd)
      requires Valid() && |envs| == maxAttempts
      modifies this
      ensures Valid()
      ensures var run := RunFrom(debug, to, envs, 1, old(screenHeld));
              events == old(events) + run.events && end == run.end && screenHeld == run.held
    {
      ghost var run, before, done := RunFrom(debug, to, envs, 1, screenHeld), events, [];
      ghost var rest := run;
      var attempt := 1;
      while true
        invariant 1 <= attempt <= maxAttempts && Valid() && events == before + done
        invariant rest == RunFrom(debug, to, envs, attempt, screenHeld)
        invariant run == CallRun(done + rest.events, rest.end, rest.held)
        decreases maxAttempts - attempt
      {
        ghost var round := RoundOf(debug, to, attempt, envs[attempt - 1], screenHeld);
        RunIsRound(debug, to, envs, attempt, screenHeld);
        var retry: bool;
        end, retry := AttemptOnce(to, attempt, envs[attempt - 1]);
        Joined(before, done, round.events);
        if !retry || attempt >= maxAttempts {
          return;
        }
        if envs[attempt - 1].cancelledPause {
          return CancelledLater;
        }
        attempt := attempt + 1;
        rest := RunFrom(debug, to, envs, attempt, screenHeld);
        Joined(done, round.events, rest.events);
        done := done + round.events;
      }
    }

    /** `complete`: the allocator gives the number, whatever number the caller wrote, and a
        call id that was used before is refused without a trace. */
    method Complete(allocator: CallIdentityAllocator, draft: Draft, envs: seq<Attempt>) returns (r: Outcome<()>)
      requires Valid() && allocator.Valid() && |envs| == maxAttempts
      modifies this, allocator
      ensures Valid() && allocator.Valid()
      ensures var served := ServeAlone(debug, old(screenHeld), old(allocator.numbered), draft, envs);
              && allocator.numbered == served.numbered && events == old(events) + served.events
              && screenHeld == served.held && r == served.outcome
    {
      var sequence := allocator.Assign(draft);
      if !sequence.Ok? {
        return Err(sequence.code);
      }
      var end := CompleteAssigned(Assigned(draft, sequence.value), envs);
      return OutcomeOf(end);
    }
  }

  /** One call through one gateway: the calls numbered, the events, the screen and the result. */
  datatype AloneServed = AloneServed(numbered: seq<Draft>, events: seq<Event>, held: bool, outcome: Outcome<()>)

  function ServeAlone(debug: bool, held: bool, numbered: seq<Draft>, draft: Draft, envs: seq<Attempt>): AloneServed
    requires envs != []
  {
    if exists e | e in numbered :: e.call == draft.call then AloneServed(numbered, [], held, Err("MODEL_CALL_IDENTITY_INVALID"))
    else
      var run := RunFrom(debug, Assigned(draft, CountTurn(numbered + [draft], draft.turn)), envs, 1, held);
      AloneServed(numbered + [draft], run.events, run.held, OutcomeOf(run.end))
  }

  lemma {:induction false} Joined(a: seq<Event>, b: seq<Event>, c: seq<Event>)
    ensures (a + b) + c == a + (b + c)
  {
  }

  lemma {:induction false} RunIsRound(debug: bool, to: Assigned, envs: seq<Attempt>, attempt: nat, held: bool)
    requires 1 <= attempt <= |envs|
    ensures var round := RoundOf(debug, to, attempt, envs[attempt - 1], held);
            var run := RunFrom(debug, to, envs, attempt, held);
            if !round.retry || attempt >= |envs| then run == CallRun(round.events, round.end, round.held)
            else if envs[attempt - 1].cancelledPause then run == CallRun(round.events, CancelledLater, round.held)
            else
              var rest := RunFrom(debug, to, envs, attempt + 1, round.held);
              run == CallRun(round.events + rest.events, rest.end, rest.held)
  {
  }

  // ---------------------------------------------------------------- what a call shows

  function Approvals(es: seq<Event>): seq<(string, nat, string)> {
    if es == [] then []
    else
      var e := es[|es| - 1];
      Approvals(es[..|es| - 1]) + (if e.Approval? then [(e.call, e.attempt, e.digest)] else [])
  }

  function Sends(es: seq<Event>): seq<(string, nat, string)> {
    if es == [] then []
    else
      var e := es[|es| - 1];
      Sends(es[..|es| - 1]) + (if e.Send? then [(e.to.draft.call, e.attempt, e.digest)] else [])
  }

  function Failures(es: seq<Event>): seq<bool> {
    if es == [] then []
    else Failures(es[..|es| - 1]) + (if es[|es| - 1].Failure? then [es[|es| - 1].retryable] else [])
  }

  predicate ScreensClear(es: seq<Event>) {
    forall i | 0 <= i < |es| && es[i].Send? :: !es[i].screenHeld
  }

  predicate SentTo(es: seq<Event>, to: Assigned) {
    forall i | 0 <= i < |es| && es[i].Send? :: es[i].to == to
  }

  /** The attempts `first` to `first + n - 1` of one call, with the payloads of their attempts,
      each approved just so; every failure before the last send was retryable; and no screen
      held the text of a send. */
  ghost predicate Attempted(es: seq<Event>, debug: bool, to: Assigned, envs: seq<Attempt>, first: nat, n: nat) {
    && 1 <= first && first + n <= |envs| + 1 && |Sends(es)| == n
    && (forall i | 0 <= i < n :: Sends(es)[i] == (to.draft.call, first + i, envs[first + i - 1].digest))
    && (debug ==> Approvals(es) == Sends(es))
    && n - 1 <= |Failures(es)| <= n && (forall i | 0 <= i < n - 1 :: Failures(es)[i])
    && ScreensClear(es) && SentTo(es, to)
  }

  lemma {:induction false} TraceConcat(a: seq<Event>, b: seq<Event>)
    ensures Approvals(a + b) == Approvals(a) + Approvals(b)
    ensures Sends(a + b) == Sends(a) + Sends(b)
    ensures Failures(a + b) == Failures(a) + Failures(b)
  {
    if b == [] {
      assert a + b == a;
    } else {
      assert (a + b)[..|a + b| - 1] == a + b[..|b| - 1];
      TraceConcat(a, b[..|b| - 1]);
    }
  }

  lemma {:induction false} OneEvent(e: Event)
    ensures Approvals([e]) == (if e.Approval? then [(e.call, e.attempt, e.digest)] else [])
    ensures Sends([e]) == (if e.Send? then [(e.to.draft.call, e.attempt, e.digest)] else [])
    ensures Failures([e]) == (if e.Failure? then [e.retryable] else [])
  {
    assert [e][..0] == [];
  }

  lemma {:induction false} ApprovalIs(debug: bool, to: Assigned, attempt: nat, env: Attempt)
    ensures var t := ApprovalOf(debug, to, attempt, env);
            Approvals(t) == (if debug then [(to.draft.call, attempt, env.digest)] else []) && Sends(t) == [] && Failures(t) == []
  {
    OneEvent(Approval(to.draft.call, attempt, env.digest));
  }

  lemma {:induction false} FailureIs(attempt: nat, env: Attempt)
    ensures var t := FailureOf(attempt, env);
            Approvals(t) == [] && Sends(t) == [] && Failures(t) == (if env.reply.Fails? then [env.reply.retryable] else [])
  {
    if env.reply.Fails? {
      OneEvent(Failure(attempt, env.reply.retryable));
    }
  }

  lemma {:induction false} ThreeParts(a: seq<Event>, b: seq<Event>, c: seq<Event>)
    ensures Approvals(a + b + c) == Approvals(a) + Approvals(b) + Approvals(c)
    ensures Sends(a + b + c) == Sends(a) + Sends(b) + Sends(c)
    ensures Failures(a + b + c) == Failures(a) + Failures(b) + Failures(c)
  {
    TraceConcat(a, b);
    TraceConcat(a + b, c);
  }

  lemma {:induction false} SentIs(debug: bool, to: Assigned, attempt: nat, env: Attempt)
    ensures var t := Sent(debug, to, attempt, env);
            && Approvals(t) == (if debug then [(to.draft.call, attempt, env.digest)] else [])
            && Sends(t) == [(to.draft.call, attempt, env.digest)]
            && Failures(t) == (if env.reply.Fails? then [env.reply.retryable] else [])
  {
    ApprovalIs(debug, to, attempt, env);
    OneEvent(Send(to, attempt, env.digest, false));
    FailureIs(attempt, env);
    ThreeParts(ApprovalOf(debug, to, attempt, env), [Send(to, attempt, env.digest, false)], FailureOf(attempt, env));
  }

  lemma {:induction false} SentIsClear(debug: bool, to: Assigned, attempt: nat, env: Attempt)
    ensures ScreensClear(Sent(debug, to, attempt, env)) && SentTo(Sent(debug, to, attempt, env), to)
  {
  }

  lemma {:induction false} OneMore(rest: seq<Event>, all: seq<Event>, debug: bool, to: Assigned, envs: seq<Attempt>, attempt: nat, n: nat)
    requires 1 <= attempt < |envs| && Attempted(rest, debug, to, envs, attempt + 1, n) && ScreensClear(all) && SentTo(all, to)
    requires Sends(all) == [(to.draft.call, attempt, envs[attempt - 1].digest)] + Sends(rest)
    requires debug ==> Approvals(all) == [(to.draft.call, attempt, envs[attempt - 1].digest)] + Approvals(rest)
    requires Failures(all) == [true] + Failures(rest)
    ensures Attempted(all, debug, to, envs, attempt, n + 1)
  {
  }

  lemma {:induction false} ClearTogether(a: seq<Event>, b: seq<Event>, to: Assigned)
    requires ScreensClear(a) && ScreensClear(b) && SentTo(a, to) && SentTo(b, to)
    ensures ScreensClear(a + b) && SentTo(a + b, to)
  {
  }

  /** One attempt alone. */
  lemma {:induction false} SentIsAttempt(debug: bool, to: Assigned, envs: seq<Attempt>, attempt: nat)
    requires 1 <= attempt <= |envs|
    ensures Attempted(Sent(debug, to, attempt, envs[attempt - 1]), debug, to, envs, attempt, 1)
  {
    SentIs(debug, to, attempt, envs[attempt - 1]);
    SentIsClear(debug, to, attempt, envs[attempt - 1]);
  }

  lemma {:induction false} RoundCases(debug: bool, to: Assigned, attempt: nat, env: Attempt, held: bool)
    ensures var round := RoundOf(debug, to, attempt, env, held);
            && round.events == (if Refused(debug, to.draft.call, attempt, env).None? then Sent(debug, to, attempt, env) else [])
            && (round.retry <==> Refused(debug, to.draft.call, attempt, env).None? && env.reply.Fails? && env.reply.retryable)
  {
  }

  /** One round: nothing, or the one attempt. */
  lemma {:induction false} RoundIsAttempt(debug: bool, to: Assigned, envs: seq<Attempt>, attempt: nat, held: bool) returns (n: nat)
    requires 1 <= attempt <= |envs|
    ensures var round := RoundOf(debug, to, attempt, envs[attempt - 1], held);
            && Attempted(round.events, debug, to, envs, attempt, n)
            && (round.retry ==> round.events == Sent(debug, to, attempt, envs[attempt - 1]) && envs[attempt - 1].reply.Fails? && envs[attempt - 1].reply.retryable)
  {
    RoundCases(debug, to, attempt, envs[attempt - 1], held);
    SentIsAttempt(debug, to, envs, attempt);
    n := if Refused(debug, to.draft.call, attempt, envs[attempt - 1]).None? then 1 else 0;
  }

  /** One call: its sends are its attempts from the first on, at most as many as configured. */
  lemma {:induction false} CallIsAttempts(debug: bool, to: Assigned, envs: seq<Attempt>, attempt: nat, held: bool) returns (n: nat)
    requires 1 <= attempt <= |envs|
    ensures Attempted(RunFrom(debug, to, envs, attempt, held).events, debug, to, envs, attempt, n)
    decreases |envs| - attempt
  {
    RoundCases(debug, to, attempt, envs[attempt - 1], held);
    if RoundOf(debug, to, attempt, envs[attempt - 1], held).retry && attempt < |envs| && !envs[attempt - 1].cancelledPause {
      var m := CallIsAttempts(debug, to, envs, attempt + 1, RoundOf(debug, to, attempt, envs[attempt - 1], held).held);
      CallGoesOn(debug, to, envs, attempt, held);
      RetriedCall(debug, to, envs, attempt, RunFrom(debug, to, envs, attempt + 1, RoundOf(debug, to, attempt, envs[attempt - 1], held).held).events, m);
      n := m + 1;
    } else {
      n := RoundIsAttempt(debug, to, envs, attempt, held);
      CallStops(debug, to, envs, attempt, held);
    }
  }

  lemma {:induction false} CallGoesOn(debug: bool, to: Assigned, envs: seq<Attempt>, attempt: nat, held: bool)
    requires 1 <= attempt < |envs| && RoundOf(debug, to, attempt, envs[attempt - 1], held).retry && !envs[attempt - 1].cancelledPause
    ensures RunFrom(debug, to, envs, attempt, held).events
            == Sent(debug, to, attempt, envs[attempt - 1])
               + RunFrom(debug, to, envs, attempt + 1, RoundOf(debug, to, attempt, envs[attempt - 1], held).held).events
  {
    RoundCases(debug, to, attempt, envs[attempt - 1], held);
    RunIsRound(debug, to, envs, attempt, held);
  }

  lemma {:induction false} CallStops(debug: bool, to: Assigned, envs: seq<Attempt>, attempt: nat, held: bool)
    requires 1 <= attempt <= |envs|
    requires !RoundOf(debug, to, attempt, envs[attempt - 1], held).retry || attempt == |envs| || envs[attempt - 1].cancelledPause
    ensures RunFrom(debug, to, envs, attempt, held).events == RoundOf(debug, to, attempt, envs[attempt - 1], held).events
  {
    RunIsRound(debug, to, envs, attempt, held);
  }

  lemma {:induction false} RetriedCall(debug: bool, to: Assigned, envs: seq<Attempt>, attempt: nat, rest: seq<Event>, m: nat)
    requires 1 <= attempt < |envs| && Attempted(rest, debug, to, envs, attempt + 1, m)
    requires envs[attempt - 1].reply.Fails? && envs[attempt - 1].reply.retryable
    ensures Attempted(Sent(debug, to, attempt, envs[attempt - 1]) + rest, debug, to, envs, attempt, m + 1)
  {
    var sent := Sent(debug, to, attempt, envs[attempt - 1]);
    SentIs(debug, to, attempt, envs[attempt - 1]);
    SentIsClear(debug, to, attempt, envs[attempt - 1]);
    TraceConcat(sent, rest);
    ClearTogether(sent, rest, to);
    OneMore(rest, sent + rest, debug, to, envs, attempt, m);
  }

  /** Attempt `k` fails so that another may follow. */
  predicate GoesOn(to: Assigned, envs: seq<Attempt>, k: nat)
    requires 1 <= k <= |envs|
  {
    var env := envs[k - 1];
    Refused(true, to.draft.call, k, env).None? && env.reply.Fails? && env.reply.retryable && !env.cancelledPause
  }

  predicate Shows(env: Attempt) {
    env.traceable && env.safe
  }

  /** The user's decision never comes back, or names another payload. */
  predicate Overthrown(to: Assigned, k: nat, env: Attempt) {
    || env.decision.CancelledDecide?
    || (env.decision.Approve? && (env.decision.call != to.draft.call || env.decision.attempt != k || env.decision.digest != env.digest))
  }

  /** A call from attempt `first` on gets to attempt `k`, which shows its text and does not take
      it away. */
  ghost predicate LeftAt(to: Assigned, envs: seq<Attempt>, first: nat, k: nat) {
    && 1 <= first <= k <= |envs| && (forall i: nat | first <= i < k :: GoesOn(to, envs, i))
    && Shows(envs[k - 1]) && Overthrown(to, k, envs[k - 1])
  }

  ghost predicate LeftFrom(to: Assigned, envs: seq<Attempt>, first: nat) {
    exists k: nat :: LeftAt(to, envs, first, k)
  }

  /** When a call leaves a text on the screen: the approval of an attempt that is made names
      another payload or is cancelled, or nothing is shown at all and the screen was like that. */
  lemma {:induction false} HeldIff(to: Assigned, envs: seq<Attempt>, attempt: nat, held: bool)
    requires 1 <= attempt <= |envs|
    ensures RunFrom(true, to, envs, attempt, held).held <==> LeftFrom(to, envs, attempt) || (!Shows(envs[attempt - 1]) && held)
    decreases |envs| - attempt
  {
    RunIsRound(true, to, envs, attempt, held);
    if attempt < |envs| && GoesOn(to, envs, attempt) {
      HeldIff(to, envs, attempt + 1, false);
      LaterLeft(to, envs, attempt, attempt + 1);
    } else {
      OnlyHere(to, envs, attempt);
    }
  }

  lemma {:induction false} LaterLeft(to: Assigned, envs: seq<Attempt>, attempt: nat, next: nat)
    requires 1 <= attempt < next == attempt + 1 <= |envs| && GoesOn(to, envs, attempt)
    ensures LeftFrom(to, envs, attempt) <==> LeftFrom(to, envs, next)
  {
    if LeftFrom(to, envs, attempt) {
      var k: nat :| LeftAt(to, envs, attempt, k);
      assert LeftAt(to, envs, next, k);
    }
    if LeftFrom(to, envs, next) {
      var k: nat :| LeftAt(to, envs, next, k);
      assert LeftAt(to, envs, attempt, k);
    }
  }

  lemma {:induction false} OnlyHere(to: Assigned, envs: seq<Attempt>, attempt: nat)
    requires 1 <= attempt <= |envs| && (attempt == |envs| || !GoesOn(to, envs, attempt))
    ensures LeftFrom(to, envs, attempt) <==> Shows(envs[attempt - 1]) && Overthrown(to, attempt, envs[attempt - 1])
  {
    if Shows(envs[attempt - 1]) && Overthrown(to, attempt, envs[attempt - 1]) {
      assert LeftAt(to, envs, attempt, attempt);
    }
    if LeftFrom(to, envs, attempt) {
      var k: nat :| LeftAt(to, envs, attempt, k);
      assert k == attempt;
    }
  }

  // ---------------------------------------------------------------- how a call ends

  /** The attempt is sent: its parts are traceable, its text is safe, and with approvals on the
      user has approved this call, this attempt and this payload. */
  predicate Admitted(debug: bool, to: Assigned, k: nat, env: Attempt) {
    env.traceable && env.safe && (debug ==> env.decision == Approve(to.draft.call, k, env.digest))
  }

  /** Another attempt follows. */
  predicate Repeats(debug: bool, to: Assigned, envs: seq<Attempt>, k: nat)
    requires 1 <= k <= |envs|
  {
    var env := envs[k - 1];
    k < |envs| && Admitted(debug, to, k, env) && env.reply.Fails? && env.reply.retryable && !env.cancelledPause
  }

  /** What the caller gets from the attempt that is the last one made. */
  predicate EndsAs(debug: bool, env: Attempt, admitted: bool, last: bool, r: Outcome<()>) {
    if !env.traceable then r == Err("TRACE_INTEGRITY")
    else if !env.safe then r == Err("CREDENTIAL_EXPOSURE")
    else if !admitted then
      match env.decision
      case Approve(_, _, _) => r == Err("VALUE_ERROR")
      case Decline => r == Err("TURN_REJECTED")
      case DeclinedByTurn => r == Err("TURN_REJECTED")
      case ScreenFails => r == Err("DEBUG_PRESENTATION")
      case CancelledDecide => r == Err("CANCELLED")
    else
      match env.reply
      case Answered => r == Ok(())
      case Fails(code, retryable) => r == if retryable && !last then Err("CANCELLED") else Err(code)
      case Breaks => r == Err("EXCEPTION")
      case CancelledReply => r == Err("CANCELLED")
  }

  /** Attempt `k` is the last one made of a call that starts at attempt `first`. */
  ghost predicate LastMade(debug: bool, to: Assigned, envs: seq<Attempt>, first: nat, k: nat) {
    1 <= first <= k <= |envs| && (forall i: nat | first <= i < k :: Repeats(debug, to, envs, i)) && !Repeats(debug, to, envs, k)
  }

  lemma {:induction false} RefusedIff(debug: bool, to: Assigned, k: nat, env: Attempt)
    ensures Refused(debug, to.draft.call, k, env).None? <==> Admitted(debug, to, k, env)
  {
  }

  lemma {:induction false} LastRound(debug: bool, to: Assigned, envs: seq<Attempt>, k: nat, held: bool)
    requires 1 <= k <= |envs| && !Repeats(debug, to, envs, k)
    ensures EndsAs(debug, envs[k - 1], Admitted(debug, to, k, envs[k - 1]), k == |envs|, OutcomeOf(RunFrom(debug, to, envs, k, held).end))
  {
    RefusedIff(debug, to, k, envs[k - 1]);
    RunIsRound(debug, to, envs, k, held);
  }

  /** A call gives what its last attempt gives; so it succeeds if and only if that attempt is
      approved, sent and answered. */
  lemma {:induction false} CallEndsAs(debug: bool, to: Assigned, envs: seq<Attempt>, attempt: nat, held: bool) returns (k: nat)
    requires 1 <= attempt <= |envs|
    ensures LastMade(debug, to, envs, attempt, k)
    ensures EndsAs(debug, envs[k - 1], Admitted(debug, to, k, envs[k - 1]), k == |envs|, OutcomeOf(RunFrom(debug, to, envs, attempt, held).end))
    decreases |envs| - attempt
  {
    RefusedIff(debug, to, attempt, envs[attempt - 1]);
    RunIsRound(debug, to, envs, attempt, held);
    RoundCases(debug, to, attempt, envs[attempt - 1], held);
    if Repeats(debug, to, envs, attempt) {
      k := CallEndsAs(debug, to, envs, attempt + 1, RoundOf(debug, to, attempt, envs[attempt - 1], held).held);
    } else {
      k := attempt;
      LastRound(debug, to, envs, attempt, held);
    }
  }

  // ---------------------------------------------------------------- any run of calls

  /** One gateway between calls. */
  datatype Gate = Gate(debug: bool, held: bool)

  /** A call that got a number, and what it then did. */
  datatype Served = Served(gate: nat, to: Assigned, envs: seq<Attempt>, run: CallRun)

  /** Gateways that share an allocator, with the calls it has numbered. */
  datatype Service = Service(gates: seq<Gate>, numbered: seq<Draft>, calls: seq<Served>)

  datatype Request = Request(gate: nat, draft: Draft, envs: seq<Attempt>)

  predicate Fits(s: Service, q: Request) {
    q.gate < |s.gates| && q.envs != []
  }

  function Serve(s: Service, q: Request): (Service, Outcome<()>)
    requires Fits(s, q)
  {
    if exists e | e in s.numbered :: e.call == q.draft.call then (s, Err("MODEL_CALL_IDENTITY_INVALID"))
    else
      var numbered := s.numbered + [q.draft];
      var to := Assigned(q.draft, CountTurn(numbered, q.draft.turn));
      var gate := s.gates[q.gate];
      var run := RunFrom(gate.debug, to, q.envs, 1, gate.held);
      (Service(s.gates[q.gate := gate.(held := run.held)], numbered, s.calls + [Served(q.gate, to, q.envs, run)]), OutcomeOf(run.end))
  }

  function Events(calls: seq<Served>): seq<Event> {
    if calls == [] then [] else Events(calls[..|calls| - 1]) + calls[|calls| - 1].run.events
  }

  function ServeAll(s: Service, qs: seq<Request>): (t: Service)
    requires forall i | 0 <= i < |qs| :: Fits(s, qs[i])
    ensures |t.gates| == |s.gates|
  {
    if qs == [] then s
    else
      assert Fits(s, qs[|qs| - 1]);
      Serve(ServeAll(s, qs[..|qs| - 1]), qs[|qs| - 1]).0
  }

  /** One request is one call of `Complete` at its gateway. */
  lemma {:induction false} ServeIsComplete(s: Service, q: Request)
    requires Fits(s, q)
    ensures var gate := s.gates[q.gate];
            var served, alone := Serve(s, q), ServeAlone(gate.debug, gate.held, s.numbered, q.draft, q.envs);
            && served.0.numbered == alone.numbered && served.1 == alone.outcome
            && served.0.gates[q.gate] == gate.(held := alone.held) && Events(served.0.calls) == Events(s.calls) + alone.events
            && forall i | 0 <= i < |s.gates| && i != q.gate :: served.0.gates[i] == s.gates[i]
  {
    if !exists e | e in s.numbered :: e.call == q.draft.call {
      EventsPush(s.calls, Serve(s, q).0.calls[|s.calls|]);
    } else {
      assert s.gates[q.gate := s.gates[q.gate]] == s.gates && Events(s.calls) == Events(s.calls) + [];
    }
  }

  lemma {:induction false} EventsPush(calls: seq<Served>, call: Served)
    ensures Events(calls + [call]) == Events(calls) + call.run.events
  {
    assert (calls + [call])[..|calls|] == calls;
  }

  function Opened(debug: bool, gates: nat): Service {
    Service(seq(gates, _ => Gate(debug, false)), [], [])
  }

  ghost predicate InPlace(c: Served, d: Draft, number: nat, debug: bool) {
    c.to == Assigned(d, number) && exists n: nat :: Attempted(c.run.events, debug, c.to, c.envs, 1, n)
  }

  /** Every call that was made has the number of its turn, its attempts and its gateway's mode. */
  ghost predicate Orderly(s: Service, debug: bool) {
    && (forall i | 0 <= i < |s.gates| :: s.gates[i].debug == debug)
    && |s.calls| == |s.numbered|
    && (forall i | 0 <= i < |s.calls| :: InPlace(s.calls[i], s.numbered[i], Numbers(s.numbered)[i], debug))
    && (forall i, j | 0 <= i < j < |s.numbered| :: s.numbered[i].call != s.numbered[j].call)
  }

  lemma {:induction false} NumbersStay(ds: seq<Draft>, d: Draft)
    ensures forall i | 0 <= i < |ds| :: Numbers(ds + [d])[i] == Numbers(ds)[i]
    ensures Numbers(ds + [d])[|ds|] == CountTurn(ds + [d], d.turn)
  {
    forall i | 0 <= i < |ds| ensures Numbers(ds + [d])[i] == Numbers(ds)[i] {
      assert (ds + [d])[..i + 1] == ds[..i + 1];
    }
    assert (ds + [d])[..|ds| + 1] == ds + [d];
  }

  lemma {:induction false} PushOrderly(s: Service, gates: seq<Gate>, d: Draft, c: Served, debug: bool)
    requires Orderly(s, debug) && forall i | 0 <= i < |gates| :: gates[i].debug == debug
    requires InPlace(c, d, CountTurn(s.numbered + [d], d.turn), debug) && forall e | e in s.numbered :: e.call != d.call
    ensures Orderly(Service(gates, s.numbered + [d], s.calls + [c]), debug)
  {
    NumbersStay(s.numbered, d);
  }

  lemma {:induction false} ServeIsOrderly(s: Service, q: Request, debug: bool)
    requires Orderly(s, debug) && Fits(s, q)
    ensures Orderly(Serve(s, q).0, debug)
  {
    if !exists e | e in s.numbered :: e.call == q.draft.call {
      var t := Serve(s, q).0;
      var c := t.calls[|s.calls|];
      var n := CallIsAttempts(debug, c.to, q.envs, 1, s.gates[q.gate].held);
      PushOrderly(s, t.gates, q.draft, c, debug);
    }
  }

  lemma {:induction false} EventsApproved(calls: seq<Served>)
    requires forall i | 0 <= i < |calls| ::
               Approvals(calls[i].run.events) == Sends(calls[i].run.events) && ScreensClear(calls[i].run.events)
    ensures Approvals(Events(calls)) == Sends(Events(calls)) && ScreensClear(Events(calls))
  {
    if calls != [] {
      EventsApproved(calls[..|calls| - 1]);
      TraceConcat(Events(calls[..|calls| - 1]), calls[|calls| - 1].run.events);
    }
  }

  lemma {:induction false} ServedInOrder(debug: bool, gates: nat, qs: seq<Request>)
    requires forall i | 0 <= i < |qs| :: Fits(Opened(debug, gates), qs[i])
    ensures Orderly(ServeAll(Opened(debug, gates), qs), debug)
  {
    if qs != [] {
      ServedInOrder(debug, gates, qs[..|qs| - 1]);
      ServeIsOrderly(ServeAll(Opened(debug, gates), qs[..|qs| - 1]), qs[|qs| - 1], debug);
    }
  }

  /** Over any run of calls through any gateways of one application: each call has its own
      number, its sends are its attempts in order; and with approvals on, all that was approved
      is all that was sent, in order, and no screen held a text during a send. */
  lemma {:induction false} EveryRunIsApproved(debug: bool, gates: nat, qs: seq<Request>)
    requires forall i | 0 <= i < |qs| :: Fits(Opened(debug, gates), qs[i])
    ensures var s := ServeAll(Opened(debug, gates), qs);
            Orderly(s, debug) && (debug ==> Approvals(Events(s.calls)) == Sends(Events(s.calls)) && ScreensClear(Events(s.calls)))
  {
    var s := ServeAll(Opened(debug, gates), qs);
    ServedInOrder(debug, gates, qs);
    if debug {
      CallsApproved(s);
      EventsApproved(s.calls);
    }
  }

  lemma {:induction false} CallsApproved(s: Service)
    requires Orderly(s, true)
    ensures forall i | 0 <= i < |s.calls| ::
              Approvals(s.calls[i].run.events) == Sends(s.calls[i].run.events) && ScreensClear(s.calls[i].run.events)
  {
  }

  /** Within a turn the numbers of the calls are 1, 2, 3 and so on, whatever gateway they used. */
  lemma {:induction false} TurnIsNumbered(s: Service, debug: bool, turn: string, n: nat)
    requires Orderly(s, debug) && 1 <= n <= CountTurn(s.numbered, turn)
    ensures exists i :: 0 <= i < |s.calls| && s.calls[i].to == Assigned(s.numbered[i], n) && s.numbered[i].turn == turn
    ensures forall i, j | 0 <= i < j < |s.calls| && s.numbered[i].turn == turn == s.numbered[j].turn ::
              s.calls[i].to.sequence < s.calls[j].to.sequence
  {
    NumbersCountUp(s.numbered, turn, n);
    var i :| 0 <= i < |s.numbered| && s.numbered[i].turn == turn && Numbers(s.numbered)[i] == n;
    assert s.calls[i].to == Assigned(s.numbered[i], n);
  }
}
