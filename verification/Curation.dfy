/** `memory/curation.py`: carving whole turns off the log and merging them into the document. */
module Curation {
  import opened Outcomes
  import opened Models
  import opened Storage
  import opened RawArchive
  import opened Text

  // ---------------------------------------------------------------- the next batch

  datatype CurationBatch = CurationBatch(id: BatchId, oldFrontier: int, newFrontier: int, recordIds: seq<string>)

  function IdsOf(rs: seq<RawRecord>): seq<string> {
    seq(|rs|, i requires 0 <= i < |rs| => rs[i].id)
  }

  function HashesOf(rs: seq<RawRecord>): seq<Digest> {
    seq(|rs|, i requires 0 <= i < |rs| => rs[i].sha)
  }

  function BatchFor(selected: seq<RawRecord>, frontier: int): CurationBatch
    requires selected != []
  {
    CurationBatch(BatchId(Identity(selected)), frontier, selected[|selected| - 1].sequence, IdsOf(selected))
  }

  /** The records after the frontier. */
  function Uncurated(rs: seq<RawRecord>, frontier: int): seq<RawRecord> {
    if rs == [] then []
    else
      var front := Uncurated(rs[..|rs| - 1], frontier);
      if rs[|rs| - 1].sequence > frontier then front + [rs[|rs| - 1]] else front
  }

  /** Turn ids in order of first appearance: the keys of the OrderedDict. */
  function TurnOrder(u: seq<RawRecord>): seq<string> {
    if u == [] then []
    else
      var front := TurnOrder(u[..|u| - 1]);
      if u[|u| - 1].turn in front then front else front + [u[|u| - 1].turn]
  }

  function GroupOf(u: seq<RawRecord>, turn: string): seq<RawRecord> {
    if u == [] then []
    else
      var front := GroupOf(u[..|u| - 1], turn);
      if u[|u| - 1].turn == turn then front + [u[|u| - 1]] else front
  }

  predicate Answered(group: seq<RawRecord>) {
    (set r | r in group :: r.role) == {User, Assistant}
  }

  function Max(a: int, b: int): int {
    if a >= b then a else b
  }

  /** The selection loop from group `i` on, with its three exits. */
  function SelectFrom(cfg: Settings, u: seq<RawRecord>, i: nat, selected: seq<RawRecord>): seq<RawRecord>
    requires i <= |TurnOrder(u)|
    decreases |TurnOrder(u)| - i
  {
    if i == |TurnOrder(u)| then selected
    else
      var group := GroupOf(u, TurnOrder(u)[i]);
      if !Answered(group) || |selected| + |group| > cfg.maxBatchRecords then selected
      else
        var next := selected + group;
        if |next| >= cfg.minBatchRecords && |next| >= Max(1, |u| - (cfg.maxRecords - cfg.reservedRecords)) then next
        else SelectFrom(cfg, u, i + 1, next)
  }

  function NextBatch(cfg: Settings, rs: seq<RawRecord>, frontier: int, force: bool): Option<CurationBatch> {
    var u := Uncurated(rs, frontier);
    if !force && |u| <= cfg.maxRecords - cfg.reservedRecords then None
    else
      var selected := SelectFrom(cfg, u, 0, []);
      if |selected| < cfg.minBatchRecords || selected == [] then None else Some(BatchFor(selected, frontier))
  }

  method ComputeNextBatch(cfg: Settings, rs: seq<RawRecord>, frontier: int, force: bool) returns (b: Option<CurationBatch>)
    requires cfg.minBatchRecords >= 1
    ensures b == NextBatch(cfg, rs, frontier, force)
  {
    var u := [];
    for i := 0 to |rs|
      invariant u == Uncurated(rs[..i], frontier)
    {
      assert rs[..i + 1][..i] == rs[..i];
      if rs[i].sequence > frontier {
        u := u + [rs[i]];
      }
    }
    assert rs[..|rs|] == rs;
    var directLimit := cfg.maxRecords - cfg.reservedRecords;
    if !force && |u| <= directLimit {
      return None;
    }
    var order, grouped := GroupByTurn(u);
    var selected := SelectTurns(cfg, u, order, grouped, directLimit);
    if |selected| < cfg.minBatchRecords {
      return None;
    }
    return Some(BatchFor(selected, frontier));
  }

  method GroupByTurn(u: seq<RawRecord>) returns (order: seq<string>, grouped: map<string, seq<RawRecord>>)
    ensures order == TurnOrder(u)
    ensures forall t | t in order :: t in grouped && grouped[t] == GroupOf(u, t)
  {
    order, grouped := [], map[];
    for i := 0 to |u|
      invariant order == TurnOrder(u[..i])
      invariant grouped.Keys == (set t | t in order)
      invariant forall t | t in grouped :: grouped[t] == GroupOf(u[..i], t)
    {
      assert u[..i + 1][..i] == u[..i];
      var turn := u[i].turn;
      if turn !in grouped {
        NotGrouped(u[..i], turn);
        order := order + [turn];
        grouped := grouped[turn := []];
      }
      grouped := grouped[turn := grouped[turn] + [u[i]]];
    }
    assert u[..|u|] == u;
  }

  lemma {:induction false} NotGrouped(u: seq<RawRecord>, turn: string)
    requires turn !in TurnOrder(u)
    ensures GroupOf(u, turn) == []
  {
    if u != [] {
      NotGrouped(u[..|u| - 1], turn);
    }
  }

  method SelectTurns(cfg: Settings, u: seq<RawRecord>, order: seq<string>, grouped: map<string, seq<RawRecord>>, directLimit: int)
    returns (selected: seq<RawRecord>)
    requires order == TurnOrder(u) && directLimit == cfg.maxRecords - cfg.reservedRecords
    requires forall t | t in order :: t in grouped && grouped[t] == GroupOf(u, t)
    ensures selected == SelectFrom(cfg, u, 0, [])
  {
    selected := [];
    for i := 0 to |order|
      invariant SelectFrom(cfg, u, 0, []) == SelectFrom(cfg, u, i, selected)
    {
      var group := grouped[order[i]];
      if !Answered(group) || |selected| + |group| > cfg.maxBatchRecords {
        return;
      }
      selected := selected + group;
      if |selected| >= cfg.minBatchRecords && |selected| >= Max(1, |u| - directLimit) {
        return;
      }
    }
  }

  // ---------------------------------------------------------------- what a batch is on a turn-shaped log

  lemma {:induction false} OneMoreUncurated(front: seq<RawRecord>, r: RawRecord, frontier: int)
    ensures Uncurated(front + [r], frontier) == if r.sequence > frontier then Uncurated(front, frontier) + [r] else Uncurated(front, frontier)
  {
    assert (front + [r])[..|front|] == front;
  }

  predicate Numbered(rs: seq<RawRecord>) {
    forall i | 0 <= i < |rs| :: rs[i].sequence == i + 1
  }

  lemma {:induction false} UncuratedIsSuffix(rs: seq<RawRecord>, frontier: nat)
    requires Numbered(rs) && frontier <= |rs|
    ensures Uncurated(rs, frontier) == rs[frontier..]
  {
    if |rs| == frontier {
      NothingUncurated(rs, frontier);
    } else {
      var front, r := rs[..|rs| - 1], rs[|rs| - 1];
      assert rs == front + [r];
      UncuratedIsSuffix(front, frontier);
      OneMoreUncurated(front, r, frontier);
      assert rs[frontier..] == front[frontier..] + [r];
    }
  }

  lemma {:induction false} NothingUncurated(rs: seq<RawRecord>, frontier: nat)
    requires Numbered(rs) && |rs| <= frontier
    ensures Uncurated(rs, frontier) == []
  {
    if rs != [] {
      var front := rs[..|rs| - 1];
      NothingUncurated(front, frontier);
      OneMoreUncurated(front, rs[|rs| - 1], frontier);
      assert rs == front + [rs[|rs| - 1]];
    }
  }

  /** Turn-shaped, and two records share a turn only as the two halves of one. */
  ghost predicate WholeTurns(u: seq<RawRecord>) {
    && LogShape(u)
    && forall i, j | 0 <= i < j < |u| :: u[i].turn == u[j].turn ==> u[i].role == User && j == i + 1
  }

  lemma {:induction false} SuffixTurns(rs: seq<RawRecord>, f: nat)
    requires WellFormedLog(rs) && LogShape(rs) && AtTurnBoundary(rs, f)
    ensures WholeTurns(rs[f..])
  {
    var u := rs[f..];
    forall i, j | 0 <= i < j < |u| && u[i].turn == u[j].turn ensures u[i].role == User && j == i + 1 {
      OneTurn(rs, f + i, f + j);
    }
  }

  lemma {:induction false} OneTurn(rs: seq<RawRecord>, i: nat, j: nat)
    requires WellFormedLog(rs) && LogShape(rs) && i < j < |rs| && rs[i].turn == rs[j].turn
    ensures rs[i].role == User && j == i + 1
  {
    Distinct(rs, i, j);
    if rs[i].role == User {
      Distinct(rs, i + 1, if j == i + 1 then i else j);
    } else {
      Distinct(rs, i - 1, j);
    }
  }

  lemma {:induction false} Distinct(rs: seq<RawRecord>, i: nat, j: nat)
    requires WellFormedLog(rs) && i < |rs| && j < |rs| && i != j
    ensures rs[i].turn != rs[j].turn || rs[i].role != rs[j].role
  {
  }

  lemma {:induction false} LastUserIsNew(u: seq<RawRecord>)
    requires WholeTurns(u) && u != [] && u[|u| - 1].role == User
    ensures u[|u| - 1].turn !in TurnOrder(u[..|u| - 1])
    ensures GroupOf(u[..|u| - 1], u[|u| - 1].turn) == []
  {
    var n := |u| - 1;
    if u[n].turn in TurnOrder(u[..n]) {
      TurnOrderSource(u[..n], u[n].turn);
    }
    NotGrouped(u[..n], u[n].turn);
  }

  lemma {:induction false} OneMoreGrouped(front: seq<RawRecord>, r: RawRecord, turn: string)
    ensures TurnOrder(front + [r]) == if r.turn in TurnOrder(front) then TurnOrder(front) else TurnOrder(front) + [r.turn]
    ensures GroupOf(front + [r], turn) == if r.turn == turn then GroupOf(front, turn) + [r] else GroupOf(front, turn)
  {
    assert (front + [r])[..|front|] == front;
  }

  /** Group `k` of `u`, as the pair it is or as the one last USER. */
  predicate PairAt(u: seq<RawRecord>, k: nat)
    requires 2 * k < |u|
  {
    && |TurnOrder(u)| == (|u| + 1) / 2
    && TurnOrder(u)[k] == u[2 * k].turn
    && GroupOf(u, u[2 * k].turn) == if 2 * k + 1 < |u| then [u[2 * k], u[2 * k + 1]] else [u[2 * k]]
  }

  lemma {:induction false} UserStarts(front: seq<RawRecord>, r: RawRecord, k: nat)
    requires WholeTurns(front + [r]) && |front| % 2 == 0 && r.role == User && 2 * k <= |front|
    requires if 2 * k < |front| then PairAt(front, k) else |TurnOrder(front)| == |front| / 2
    ensures PairAt(front + [r], k)
  {
    var u := front + [r];
    assert u[..|u| - 1] == front;
    LastUserIsNew(u);
    OneMoreGrouped(front, r, u[2 * k].turn);
  }

  lemma {:induction false} AnswerJoins(front: seq<RawRecord>, r: RawRecord, k: nat, h: nat)
    requires |front| == 2 * h + 1 && 2 * k < |front| && (k < h ==> front[2 * k].turn != r.turn)
    requires r.turn == front[2 * h].turn && PairAt(front, k) && PairAt(front, h)
    ensures PairAt(front + [r], k)
  {
    assert TurnOrder(front)[h] == r.turn;
    OneMoreGrouped(front, r, front[2 * k].turn);
    if k == h {
      assert GroupOf(front, r.turn) == [front[2 * h]];
    }
  }

  lemma {:induction false} EarlierTurns(front: seq<RawRecord>, r: RawRecord)
    requires WholeTurns(front + [r])
    ensures WholeTurns(front)
    ensures |front| % 2 == 0 ==> r.role == User
    ensures |front| % 2 == 1 ==> r.turn == front[|front| - 1].turn
  {
    var u := front + [r];
    assert forall i | 0 <= i < |front| :: u[i] == front[i];
    TurnAt(u, |front| / 2);
  }

  /** On such a log the groups are the consecutive pairs and perhaps one last USER. */
  lemma {:induction false} GroupsArePairs(u: seq<RawRecord>, k: nat)
    requires WholeTurns(u) && 2 * k < |u|
    ensures PairAt(u, k)
  {
    var n := |u| - 1;
    var front := u[..n];
    assert u == front + [u[n]];
    EarlierTurns(front, u[n]);
    if n % 2 == 0 {
      if n > 0 {
        GroupsArePairs(front, if 2 * k < n then k else 0);
      }
      UserStarts(front, u[n], k);
    } else {
      GroupsArePairs(front, k);
      GroupsArePairs(front, n / 2);
      AnswerJoins(front, u[n], k, n / 2);
    }
  }

  lemma {:induction false} TurnOrderSource(u: seq<RawRecord>, turn: string)
    requires turn in TurnOrder(u)
    ensures exists i :: 0 <= i < |u| && u[i].turn == turn
  {
    if u != [] && turn in TurnOrder(u[..|u| - 1]) {
      TurnOrderSource(u[..|u| - 1], turn);
      var i :| 0 <= i < |u| - 1 && u[..|u| - 1][i].turn == turn;
      assert u[i].turn == turn;
    }
  }

  function Even(n: int): int {
    n - n % 2
  }

  /** The size of the next batch in closed form: the fewest whole turns that reach the
      minimum and bring the window back under its limit, capped by the batch maximum and
      by the answered turns there are. */
  function Size(need: int, most: nat, uncurated: nat): int {
    var cap := if most < uncurated then Even(most) else Even(uncurated);
    if Even(need + 1) <= cap then Even(need + 1) else cap
  }

  function BatchSize(cfg: Settings, uncurated: nat): int {
    Size(Need(cfg, uncurated), cfg.maxBatchRecords, uncurated)
  }

  lemma {:induction false} SizeAt(need: int, most: nat, uncurated: nat, k: nat)
    requires need >= 1 && 2 * k <= uncurated && (k == 0 || (2 * k <= most && 2 * k < need))
    ensures 0 <= Size(need, most, uncurated) <= uncurated
    ensures 2 * k + 2 > uncurated || 2 * k + 2 > most ==> Size(need, most, uncurated) == 2 * k
    ensures need <= 2 * k + 2 <= uncurated && 2 * k + 2 <= most ==> Size(need, most, uncurated) == 2 * k + 2
  {
  }

  function Need(cfg: Settings, uncurated: nat): int {
    Max(cfg.minBatchRecords, Max(1, uncurated - (cfg.maxRecords - cfg.reservedRecords)))
  }

  lemma {:induction false} OnlyPairsAnswer(u: seq<RawRecord>, k: nat)
    requires WholeTurns(u) && 2 * k < |u|
    ensures Answered(if 2 * k + 1 < |u| then [u[2 * k], u[2 * k + 1]] else [u[2 * k]]) <==> 2 * k + 1 < |u|
  {
    TurnAt(u, k);
    if 2 * k + 1 < |u| {
      var group := [u[2 * k], u[2 * k + 1]];
      assert group[0] in group && group[1] in group;
    }
  }

  /** The group of round `k`, for a round there is. */
  lemma {:induction false} RoundGroup(u: seq<RawRecord>, k: nat)
    requires WholeTurns(u) && 2 * k < |u|
    ensures |TurnOrder(u)| == (|u| + 1) / 2 && k < |TurnOrder(u)|
    ensures var group := GroupOf(u, TurnOrder(u)[k]);
            && (Answered(group) <==> 2 * k + 1 < |u|)
            && (2 * k + 1 < |u| ==> |group| == 2 && u[..2 * k] + group == u[..2 * k + 2])
  {
    GroupsArePairs(u, k);
    OnlyPairsAnswer(u, k);
  }

  lemma {:induction false} OneRound(cfg: Settings, u: seq<RawRecord>, i: nat, selected: seq<RawRecord>, next: seq<RawRecord>)
    requires i < |TurnOrder(u)| && next == selected + GroupOf(u, TurnOrder(u)[i])
    ensures SelectFrom(cfg, u, i, selected) ==
            if !Answered(GroupOf(u, TurnOrder(u)[i])) || |next| > cfg.maxBatchRecords then selected
            else if |next| >= Need(cfg, |u|) then next
            else SelectFrom(cfg, u, i + 1, next)
  {
  }

  lemma {:induction false} NoRound(cfg: Settings, u: seq<RawRecord>, selected: seq<RawRecord>)
    ensures SelectFrom(cfg, u, |TurnOrder(u)|, selected) == selected
  {
  }

  /** One round of the selection loop on a turn-shaped window. */
  lemma {:induction false} SelectRound(cfg: Settings, u: seq<RawRecord>, k: nat)
    requires WholeTurns(u) && 2 * k <= |u|
    ensures |TurnOrder(u)| == (|u| + 1) / 2
    ensures SelectFrom(cfg, u, k, u[..2 * k]) ==
            if 2 * k + 2 > |u| || 2 * k + 2 > cfg.maxBatchRecords then u[..2 * k]
            else if 2 * k + 2 >= Need(cfg, |u|) then u[..2 * k + 2]
            else SelectFrom(cfg, u, k + 1, u[..2 * k + 2])
  {
    if 2 * k < |u| {
      RoundGroup(u, k);
      OneRound(cfg, u, k, u[..2 * k], u[..2 * k] + GroupOf(u, TurnOrder(u)[k]));
    } else {
      if u != [] {
        RoundGroup(u, 0);
      }
      NoRound(cfg, u, u[..2 * k]);
    }
  }

  /** A round that stops, stops at the closed-form size. */
  lemma {:induction false} RoundSize(u: seq<RawRecord>, k: nat, need: int, most: nat, here: seq<RawRecord>, next: seq<RawRecord>)
    requires need >= 1 && 2 * k <= |u| && (k == 0 || (2 * k <= most && 2 * k < need))
    requires here == if 2 * k + 2 > |u| || 2 * k + 2 > most then u[..2 * k] else if 2 * k + 2 >= need then u[..2 * k + 2] else next
    requires 2 * k + 2 <= |u| && 2 * k + 2 <= most && 2 * k + 2 < need ==>
               0 <= Size(need, most, |u|) <= |u| && next == u[..Size(need, most, |u|)]
    ensures 0 <= Size(need, most, |u|) <= |u| && here == u[..Size(need, most, |u|)]
  {
    SizeAt(need, most, |u|, k);
  }

  predicate GoesOn(cfg: Settings, uncurated: nat, k: nat) {
    2 * k + 2 <= uncurated && 2 * k + 2 <= cfg.maxBatchRecords && 2 * k + 2 < Need(cfg, uncurated)
  }

  lemma {:induction false} SelectionStep(cfg: Settings, u: seq<RawRecord>, k: nat, all: seq<RawRecord>)
    requires WholeTurns(u) && 2 * k <= |u| && (k == 0 || (2 * k <= cfg.maxBatchRecords && 2 * k < Need(cfg, |u|)))
    requires GoesOn(cfg, |u|, k) ==>
               && k + 1 <= |TurnOrder(u)| && 0 <= BatchSize(cfg, |u|) <= |u|
               && all == u[..BatchSize(cfg, |u|)] == SelectFrom(cfg, u, k + 1, u[..2 * k + 2])
    ensures 0 <= BatchSize(cfg, |u|) <= |u| && k <= |TurnOrder(u)|
    ensures SelectFrom(cfg, u, k, u[..2 * k]) == u[..BatchSize(cfg, |u|)]
  {
    SelectRound(cfg, u, k);
    RoundSize(u, k, Need(cfg, |u|), cfg.maxBatchRecords, SelectFrom(cfg, u, k, u[..2 * k]), all);
  }

  lemma {:induction false} SelectionSize(cfg: Settings, u: seq<RawRecord>, k: nat)
    requires WholeTurns(u) && 2 * k <= |u| && (k == 0 || (2 * k <= cfg.maxBatchRecords && 2 * k < Need(cfg, |u|)))
    ensures 0 <= BatchSize(cfg, |u|) <= |u| && k <= |TurnOrder(u)|
    ensures SelectFrom(cfg, u, k, u[..2 * k]) == u[..BatchSize(cfg, |u|)]
    decreases |u| - 2 * k
  {
    var all := u;
    if GoesOn(cfg, |u|, k) {
      SelectionSize(cfg, u, k + 1);
      assert 2 * (k + 1) == 2 * k + 2;
      all := u[..BatchSize(cfg, |u|)];
    }
    SelectionStep(cfg, u, k, all);
  }

  lemma {:induction false} WholeSelection(cfg: Settings, u: seq<RawRecord>)
    requires WholeTurns(u)
    ensures 0 <= BatchSize(cfg, |u|) <= |u|
    ensures SelectFrom(cfg, u, 0, []) == u[..BatchSize(cfg, |u|)]
  {
    var k := 0;
    SelectionSize(cfg, u, k);
    assert u[..2 * k] == [];
  }

  lemma {:induction false} NextBatchSelected(cfg: Settings, rs: seq<RawRecord>, f: nat, force: bool)
    requires ValidSettings(cfg) && WellFormedLog(rs) && LogShape(rs) && AtTurnBoundary(rs, f)
    ensures var size := BatchSize(cfg, |rs| - f);
            && 0 <= size <= |rs| - f
            && NextBatch(cfg, rs, f, force) ==
                 if (!force && |rs| - f <= cfg.maxRecords - cfg.reservedRecords) || size < cfg.minBatchRecords then None
                 else Some(BatchFor(rs[f..f + size], f))
  {
    Selected(cfg, rs, f, rs[f..]);
    SelectedBatch(cfg, rs, f, BatchSize(cfg, |rs| - f), force);
  }

  lemma {:induction false} Selected(cfg: Settings, rs: seq<RawRecord>, f: nat, u: seq<RawRecord>)
    requires WellFormedLog(rs) && LogShape(rs) && AtTurnBoundary(rs, f) && u == rs[f..]
    ensures Uncurated(rs, f) == u && 0 <= BatchSize(cfg, |u|) <= |u|
    ensures SelectFrom(cfg, u, 0, []) == u[..BatchSize(cfg, |u|)]
  {
    UncuratedIsSuffix(rs, f);
    SuffixTurns(rs, f);
    WholeSelection(cfg, u);
  }

  lemma {:induction false} SelectedBatch(cfg: Settings, rs: seq<RawRecord>, f: nat, size: int, force: bool)
    requires f <= |rs| && 0 <= size <= |rs| - f && 1 <= cfg.minBatchRecords
    requires Uncurated(rs, f) == rs[f..]
    requires SelectFrom(cfg, rs[f..], 0, []) == rs[f..][..size]
    ensures NextBatch(cfg, rs, f, force) ==
              if (!force && |rs| - f <= cfg.maxRecords - cfg.reservedRecords) || size < cfg.minBatchRecords then None
              else Some(BatchFor(rs[f..f + size], f))
  {
    assert rs[f..][..size] == rs[f..f + size];
  }

  /** On every turn-shaped log the next batch is exactly the records after the old frontier,
      in whole turns, of the closed-form size; and when it exists the window falls back to
      its direct limit exactly if the excess fits the batch maximum in whole turns. */
  lemma {:induction false} NextBatchExact(cfg: Settings, rs: seq<RawRecord>, f: nat, force: bool)
    requires ValidSettings(cfg) && WellFormedLog(rs) && LogShape(rs) && AtTurnBoundary(rs, f)
    ensures var direct := cfg.maxRecords - cfg.reservedRecords;
            var size := BatchSize(cfg, |rs| - f);
            var b := NextBatch(cfg, rs, f, force);
            && (b.None? <==> (!force && |rs| - f <= direct) || size < cfg.minBatchRecords)
            && (b.Some? ==>
                  && size % 2 == 0 && cfg.minBatchRecords <= size <= cfg.maxBatchRecords
                  && size <= |rs| - f
                  && b.value == CurationBatch(BatchId(Identity(rs[f..f + size])), f, f + size, IdsOf(rs[f..f + size]))
                  && (|rs| - b.value.newFrontier <= direct <==> |rs| - f - direct <= Even(cfg.maxBatchRecords)))
  {
    NextBatchSelected(cfg, rs, f, force);
    BatchExact(cfg, rs, f, force, NextBatch(cfg, rs, f, force));
  }

  lemma {:induction false} BatchExact(cfg: Settings, rs: seq<RawRecord>, f: nat, force: bool, b: Option<CurationBatch>)
    requires ValidSettings(cfg) && WellFormedLog(rs) && f <= |rs|
    requires var size := BatchSize(cfg, |rs| - f);
             && 0 <= size <= |rs| - f
             && b == if (!force && |rs| - f <= cfg.maxRecords - cfg.reservedRecords) || size < cfg.minBatchRecords then None
                     else Some(BatchFor(rs[f..f + size], f))
    ensures var direct := cfg.maxRecords - cfg.reservedRecords;
            var size := BatchSize(cfg, |rs| - f);
            && (b.None? <==> (!force && |rs| - f <= direct) || size < cfg.minBatchRecords)
            && (b.Some? ==>
                  && size % 2 == 0 && cfg.minBatchRecords <= size <= cfg.maxBatchRecords
                  && size <= |rs| - f
                  && b.value == CurationBatch(BatchId(Identity(rs[f..f + size])), f, f + size, IdsOf(rs[f..f + size]))
                  && (|rs| - b.value.newFrontier <= direct <==> |rs| - f - direct <= Even(cfg.maxBatchRecords)))
  {
    if b.Some? {
      SizeFacts(cfg.minBatchRecords, cfg.maxBatchRecords, |rs| - f, cfg.maxRecords - cfg.reservedRecords);
      BatchForIs(rs, f, BatchSize(cfg, |rs| - f));
    }
  }

  lemma {:induction false} BatchForIs(rs: seq<RawRecord>, f: nat, size: int)
    requires WellFormedLog(rs) && 0 < size && f + size <= |rs|
    ensures BatchFor(rs[f..f + size], f) == CurationBatch(BatchId(Identity(rs[f..f + size])), f, f + size, IdsOf(rs[f..f + size]))
  {
    assert rs[f..f + size][size - 1] == rs[f + size - 1];
  }

  lemma {:induction false} SizeFacts(least: nat, most: nat, uncurated: nat, direct: int)
    requires 1 <= least && 1 <= direct
    requires Size(Max(least, Max(1, uncurated - direct)), most, uncurated) >= least
    ensures var size := Size(Max(least, Max(1, uncurated - direct)), most, uncurated);
            size % 2 == 0 && size <= most && size <= uncurated
            && (uncurated - size <= direct <==> uncurated - direct <= Even(most))
  {
  }

  // ---------------------------------------------------------------- what a batch is on any log

  /** The groups `i` to `k` of the window, one after the other. */
  function Groups(u: seq<RawRecord>, i: nat, k: nat): seq<RawRecord>
    requires i <= k <= |TurnOrder(u)|
    decreases k - i
  {
    if i == k then [] else GroupOf(u, TurnOrder(u)[i]) + Groups(u, i + 1, k)
  }

  predicate AllAnswered(u: seq<RawRecord>, i: nat, k: nat)
    requires k <= |TurnOrder(u)|
  {
    forall g | i <= g < k :: Answered(GroupOf(u, TurnOrder(u)[g]))
  }

  lemma {:induction false} FirstGroup(u: seq<RawRecord>, i: nat, k: nat, selected: seq<RawRecord>)
    requires i < k <= |TurnOrder(u)|
    ensures selected + Groups(u, i, k) == selected + GroupOf(u, TurnOrder(u)[i]) + Groups(u, i + 1, k)
  {
  }

  /** Whatever the log, the loop takes whole answered turns from the front, as many as fit. */
  lemma {:induction false} SelectsGroups(cfg: Settings, u: seq<RawRecord>, i: nat, selected: seq<RawRecord>) returns (k: nat)
    requires i <= |TurnOrder(u)| && (i == 0 || |selected| <= cfg.maxBatchRecords) && (i == 0 ==> selected == [])
    ensures i <= k <= |TurnOrder(u)| && AllAnswered(u, i, k)
    ensures SelectFrom(cfg, u, i, selected) == selected + Groups(u, i, k) && |selected + Groups(u, i, k)| <= cfg.maxBatchRecords
    decreases |TurnOrder(u)| - i
  {
    k := i;
    if i < |TurnOrder(u)| {
      var group := GroupOf(u, TurnOrder(u)[i]);
      var next := selected + group;
      OneRound(cfg, u, i, selected, next);
      if Answered(group) && |next| <= cfg.maxBatchRecords {
        k := i + 1;
        if |next| < Need(cfg, |u|) {
          k := SelectsGroups(cfg, u, i + 1, next);
        }
        FirstGroup(u, i, k, selected);
      }
    } else {
      NoRound(cfg, u, selected);
    }
  }

  /** On any log at all, forced or not: a batch is the first answered turns after the frontier,
      each whole, between the configured bounds; and unforced only over a full window. */
  lemma {:induction false} NextBatchOnAnyLog(cfg: Settings, rs: seq<RawRecord>, frontier: int, force: bool) returns (k: nat)
    requires cfg.minBatchRecords >= 1
    ensures var u := Uncurated(rs, frontier);
            var b := NextBatch(cfg, rs, frontier, force);
            && k <= |TurnOrder(u)| && AllAnswered(u, 0, k) && |Groups(u, 0, k)| <= cfg.maxBatchRecords
            && (b.Some? ==>
                  && Groups(u, 0, k) != [] && b.value == BatchFor(Groups(u, 0, k), frontier)
                  && |Groups(u, 0, k)| >= cfg.minBatchRecords
                  && (!force ==> |u| > cfg.maxRecords - cfg.reservedRecords))
  {
    var u := Uncurated(rs, frontier);
    k := SelectsGroups(cfg, u, 0, []);
    assert [] + Groups(u, 0, k) == Groups(u, 0, k);
  }

  // ---------------------------------------------------------------- the model's response

  datatype ModelCandidate = ModelCandidate(kind: MemoryKind, text: string, sources: seq<string>)
  datatype ModelProposal = ModelProposal(candidates: seq<ModelCandidate>, overview: string)

  datatype Candidate = Candidate(kind: MemoryKind, text: string, sourceIds: seq<string>)
  datatype Proposal = Proposal(candidates: seq<Candidate>, overview: string)

  predicate Blank(s: string) {
    forall c | c in s :: c in [' ', '\t', '\n', '\r']
  }

  /** The strict schema of a response; absent means the text was not JSON at all. */
  predicate ValidProposal(p: ModelProposal) {
    && 1 <= |p.overview| <= 8192 && !Blank(p.overview)
    && forall i | 0 <= i < |p.candidates| ::
         && 1 <= |p.candidates[i].text| <= 8192 && !Blank(p.candidates[i].text)
         && p.candidates[i].sources != [] && Unique(p.candidates[i].sources)
  }

  predicate EarlierRecord(a: RawRecord, b: RawRecord) {
    a.createdAt < b.createdAt || (a.createdAt == b.createdAt && a.sequence <= b.sequence)
  }

  function InsertByTime(r: RawRecord, sorted: seq<RawRecord>): seq<RawRecord> {
    if sorted == [] then [r]
    else if EarlierRecord(r, sorted[0]) then [r] + sorted
    else [sorted[0]] + InsertByTime(r, sorted[1..])
  }

  function SortByTime(rs: seq<RawRecord>): seq<RawRecord> {
    if rs == [] then [] else InsertByTime(rs[0], SortByTime(rs[1..]))
  }

  /** `r1`, `r2`, ... over the batch in event-time order. */
  function SourceAliases(ordered: seq<RawRecord>): map<string, string> {
    if ordered == [] then map[]
    else SourceAliases(ordered[..|ordered| - 1])["r" + Decimal(|ordered|) := ordered[|ordered| - 1].id]
  }

  function ResolveCandidates(cfg: Settings, cs: seq<ModelCandidate>, aliases: map<string, string>): (r: Outcome<seq<Candidate>>)
    ensures !r.Crashed?
  {
    if cs == [] then Ok([])
    else
      var front := ResolveCandidates(cfg, cs[..|cs| - 1], aliases);
      var c := cs[|cs| - 1];
      if !front.Ok? then front
      else if exists a | a in c.sources :: a !in aliases then Err("CURATION_SOURCE_INVALID")
      else if !cfg.safe(c.text) then Err("CREDENTIAL_REJECTED")
      else Ok(front.value + [Candidate(c.kind, c.text, seq(|c.sources|, i requires 0 <= i < |c.sources| && c.sources[i] in aliases => aliases[c.sources[i]]))])
  }

  function ValidateResponse(cfg: Settings, response: Option<ModelProposal>, aliases: map<string, string>): (r: Outcome<Proposal>)
    ensures !r.Crashed?
  {
    if response.None? || !ValidProposal(response.value) then Err("CURATION_SCHEMA_INVALID")
    else
      var resolved := ResolveCandidates(cfg, response.value.candidates, aliases);
      if !resolved.Ok? then Err(resolved.code)
      else if !cfg.safe(response.value.overview) then Err("CREDENTIAL_REJECTED")
      else Ok(Proposal(resolved.value, response.value.overview))
  }

  lemma {:induction false} InsertKeeps(r: RawRecord, sorted: seq<RawRecord>)
    ensures multiset(InsertByTime(r, sorted)) == multiset(sorted) + multiset{r}
  {
    if sorted != [] && !EarlierRecord(r, sorted[0]) {
      InsertKeeps(r, sorted[1..]);
      assert sorted == [sorted[0]] + sorted[1..];
    }
  }

  lemma {:induction false} SortKeeps(rs: seq<RawRecord>)
    ensures multiset(SortByTime(rs)) == multiset(rs)
  {
    if rs != [] {
      SortKeeps(rs[1..]);
      InsertKeeps(rs[0], SortByTime(rs[1..]));
      assert rs == [rs[0]] + rs[1..];
    }
  }

  lemma {:induction false} AliasesNameRecords(ordered: seq<RawRecord>, alias: string)
    requires alias in SourceAliases(ordered)
    ensures SourceAliases(ordered)[alias] in IdsOf(ordered)
  {
    var n := |ordered| - 1;
    var front := ordered[..n];
    if alias == "r" + Decimal(|ordered|) {
      assert IdsOf(ordered)[n] == ordered[n].id;
    } else {
      AliasesNameRecords(front, alias);
      var i :| 0 <= i < n && IdsOf(front)[i] == SourceAliases(front)[alias];
      assert IdsOf(ordered)[i] == IdsOf(front)[i];
    }
  }

  // ---------------------------------------------------------------- the merge

  function MaxCreated(rs: seq<RawRecord>): int
    requires rs != []
  {
    if |rs| == 1 then rs[0].createdAt
    else Max(MaxCreated(rs[..|rs| - 1]), rs[|rs| - 1].createdAt)
  }

  function ActiveKeys(cfg: Settings, ms: seq<MemoryItem>): set<string> {
    set m | m in ms && m.status == Active :: cfg.textKey(m.text)
  }

  function SupportingRefs(byId: map<string, RawRecord>, ids: seq<string>): seq<SourceReference>
    requires forall i | 0 <= i < |ids| :: ids[i] in byId
  {
    seq(|ids|, i requires 0 <= i < |ids| => SourceReference(ids[i], Supports, byId[ids[i]].sha))
  }

  function NewMemory(batch: CurationBatch, byId: map<string, RawRecord>, now: int, index: nat, c: Candidate): MemoryItem
    requires forall i | 0 <= i < |c.sourceIds| :: c.sourceIds[i] in byId
  {
    MemoryItem(Derived(batch.id, index, c.text), c.kind, c.text, Active, SupportingRefs(byId, c.sourceIds),
               MemoryCurator, now, now, [], [])
  }

  predicate SourcesKnown(cs: seq<Candidate>, byId: map<string, RawRecord>) {
    forall i | 0 <= i < |cs| :: forall j | 0 <= j < |cs[i].sourceIds| :: cs[i].sourceIds[j] in byId
  }

  /** The new memories among the first `n` candidates, and the text keys taken so far. */
  function Additions(cfg: Settings, existing: set<string>, batch: CurationBatch, byId: map<string, RawRecord>,
                     now: int, cs: seq<Candidate>, n: nat): (seq<MemoryItem>, set<string>)
    requires n <= |cs| && SourcesKnown(cs, byId)
  {
    if n == 0 then ([], existing)
    else
      var (front, keys) := Additions(cfg, existing, batch, byId, now, cs, n - 1);
      var key := cfg.textKey(cs[n - 1].text);
      if key in keys then (front, keys)
      else (front + [NewMemory(batch, byId, now, n - 1, cs[n - 1])], keys + {key})
  }

  /** `tuple(by_id[item].content_sha256 for item in batch.record_ids)`. */
  function HashesById(byId: map<string, RawRecord>, ids: seq<string>): seq<Digest>
    requires forall i | 0 <= i < |ids| :: ids[i] in byId
  {
    seq(|ids|, i requires 0 <= i < |ids| => byId[ids[i]].sha)
  }

  lemma {:induction false} IdsAreKeys(records: seq<RawRecord>)
    ensures forall i | 0 <= i < |IdsOf(records)| :: IdsOf(records)[i] in ById(records)
    ensures UniqueIds(records) ==> HashesById(ById(records), IdsOf(records)) == HashesOf(records)
  {
    forall i | 0 <= i < |IdsOf(records)| ensures IdsOf(records)[i] in ById(records) {
      ByIdLookup(records, records[i].id);
    }
    if UniqueIds(records) {
      forall i | 0 <= i < |records| ensures ById(records)[IdsOf(records)[i]] == records[i] {
        ByIdAt(records, i);
      }
    }
  }

  function MergedDocument(cfg: Settings, d: Document, batch: CurationBatch, records: seq<RawRecord>, p: Proposal): Document
    requires records != [] && IdsOf(records) == batch.recordIds && SourcesKnown(p.candidates, ById(records))
  {
    var byId := ById(records);
    var now := MaxCreated(records);
    var revision := d.revision + 1;
    IdsAreKeys(records);
    Document(
      revision,
      Checkpoint(batch.newFrontier, Some(batch.id), Some(now), batch.recordIds),
      Overview(revision, p.overview,
               d.overview.spans + [CoverageSpan(batch.oldFrontier + 1, batch.newFrontier, batch.id, batch.recordIds, HashesById(byId, batch.recordIds))]),
      d.memories + Additions(cfg, ActiveKeys(cfg, d.memories), batch, byId, now, p.candidates, |p.candidates|).0)
  }

  method Merge(cfg: Settings, d: Document, batch: CurationBatch, records: seq<RawRecord>, p: Proposal) returns (merged: Document)
    requires records != [] && IdsOf(records) == batch.recordIds && SourcesKnown(p.candidates, ById(records))
    ensures merged == MergedDocument(cfg, d, batch, records, p)
  {
    var byId := ById(records);
    var memories := d.memories;
    var existingTexts := ActiveKeys(cfg, d.memories);
    var now := records[0].createdAt;
    for i := 1 to |records|
      invariant now == MaxCreated(records[..i])
    {
      assert records[..i + 1][..i] == records[..i];
      now := Max(now, records[i].createdAt);
    }
    assert records[..|records|] == records;
    for index := 0 to |p.candidates|
      invariant existingTexts == Additions(cfg, ActiveKeys(cfg, d.memories), batch, byId, now, p.candidates, index).1
      invariant memories == d.memories + Additions(cfg, ActiveKeys(cfg, d.memories), batch, byId, now, p.candidates, index).0
    {
      var c := p.candidates[index];
      var key := cfg.textKey(c.text);
      if key !in existingTexts {
        existingTexts := existingTexts + {key};
        memories := memories + [NewMemory(batch, byId, now, index, c)];
      }
    }
    var revision := d.revision + 1;
    IdsAreKeys(records);
    var hashes := HashesById(byId, batch.recordIds);
    merged := Document(revision, Checkpoint(batch.newFrontier, Some(batch.id), Some(now), batch.recordIds),
                       Overview(revision, p.overview,
                                d.overview.spans + [CoverageSpan(batch.oldFrontier + 1, batch.newFrontier, batch.id, batch.recordIds, hashes)]),
                       memories);
  }
}
