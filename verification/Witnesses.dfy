/** The conditions under which a run stops for good are met by real runs: for each of them
    what every such run does, and one small run that meets it. */
module Witnesses {
  import opened Outcomes
  import opened Models
  import opened Storage
  import opened RawArchive
  import opened LongTerm
  import opened Transaction
  import opened Text
  import opened Curation
  import opened Coherence
  import opened Controller
  import opened Safety
  import opened Turns
  import opened Reset
  import opened Session
  import opened Recovery
  import opened Limits
  import opened Atomicity
  import opened AfterReset

  // ---------------------------------------------------------------- every such turn

  /** A turn whose decision cannot be published ends over a journal that no start-up gets past. */
  lemma {:induction false} UnpublishableTurn(cfg: Settings, s: DiskState, d: Document, input: TurnInput, now: int)
    requires ValidSettings(cfg) && Clean(cfg, s, d) && FreshTurnInput(Log(s), input)
    requires var decision := DecisionOf(cfg, Log(s), d, input);
             decision.Some? && !Publishable(cfg, decision.value)
    ensures var end := End(s, RunTurnTrace(cfg, s, input));
            end.journal == JournalOf(DecisionOf(cfg, Log(s), d, input).value) && BootTrace(cfg, end, now).outcome.Err?
  {
    var t, j := RunTurnTrace(cfg, s, input), DecisionOf(cfg, Log(s), d, input).value;
    var k := |t.writes| + 2;
    CrashedTurn(cfg, s, d, input, k);
    DecisionHolds(cfg, s, d, input);
    StallsOn(cfg, s.segments, d, j, Reached(StallsAfter(cfg, j), k), now);
    assert End(s, t) == After(s, t, k);
  }

  /** A decision of this turn that can be published and has a target. */
  ghost predicate Curates(cfg: Settings, s: DiskState, d: Document, input: TurnInput) {
    var decision := DecisionOf(cfg, Log(s), d, input);
    decision.Some? && Publishable(cfg, decision.value) && decision.value.target.Some?
  }

  /** A turn that dies between the two document writes of a target with other memories leaves a
      pair of files that no start-up accepts. */
  lemma {:induction false} TornTurn(cfg: Settings, s: DiskState, d: Document, input: TurnInput, now: int)
    requires ValidSettings(cfg) && Clean(cfg, s, d) && FreshTurnInput(Log(s), input) && Curates(cfg, s, d, input)
    requires DecisionOf(cfg, Log(s), d, input).value.target.value.memories != d.memories
    ensures BootTrace(cfg, After(s, RunTurnTrace(cfg, s, input), 5), now)
            == Trace([], Err(if Overfull(cfg, DecisionOf(cfg, Log(s), d, input).value.target.value)
                             then "MEMORY_READ_ONLY_FALLBACK" else "MEMORY_DOCUMENT_INVALID"))
  {
    LateCrash(cfg, s, d, input, DecisionOf(cfg, Log(s), d, input).value, 5, now);
  }

  /** A turn that writes more items than `load` accepts stops every start-up from its last but
      one step on, whether it dies there or ends. */
  lemma {:induction false} OverfullTurn(cfg: Settings, s: DiskState, d: Document, input: TurnInput, k: nat, now: int)
    requires ValidSettings(cfg) && Clean(cfg, s, d) && FreshTurnInput(Log(s), input) && Curates(cfg, s, d, input)
    requires Overfull(cfg, DecisionOf(cfg, Log(s), d, input).value.target.value) && k >= 6
    ensures var end := After(s, RunTurnTrace(cfg, s, input), k);
            && BootTrace(cfg, end, now) == Trace([], Err("MEMORY_DOCUMENT_TOO_LARGE"))
            && (end.journal.NoJournal? <==> k > 6)
  {
    var j := DecisionOf(cfg, Log(s), d, input).value;
    LateCrash(cfg, s, d, input, j, k, now);
    OverfullRefused(cfg, d, j, if k > 7 then 5 else k - 2);
  }

  lemma {:induction false} OverfullRefused(cfg: Settings, d: Document, j: Journal, i: nat)
    requires j.target.Some? && Overfull(cfg, j.target.value) && Halves(j) == 2 && i >= 4
    ensures RefusedAt(cfg, d, j, i) == Some("MEMORY_DOCUMENT_TOO_LARGE")
  {
  }

  /** A crash after at least five steps of a turn that curates: the stages 3, 4 and 5. */
  lemma {:induction false} LateCrash(cfg: Settings, s: DiskState, d: Document, input: TurnInput, j: Journal, k: nat, now: int)
    requires ValidSettings(cfg) && Clean(cfg, s, d) && FreshTurnInput(Log(s), input) && Curates(cfg, s, d, input)
    requires j == DecisionOf(cfg, Log(s), d, input).value && k >= 5
    ensures Halves(j) == 2
    ensures var i, end := if k > 7 then 5 else k - 2, After(s, RunTurnTrace(cfg, s, input), k);
            && (end.journal.NoJournal? <==> i == 5)
            && (RefusedAt(cfg, d, j, i).Some? ==> BootTrace(cfg, end, now) == Trace([], Err(RefusedAt(cfg, d, j, i).value)))
  {
    var i := if k > 7 then 5 else k - 2;
    CrashedTurn(cfg, s, d, input, k);
    DecisionHolds(cfg, s, d, input);
    LastOfStages(cfg, s.segments, d, j);
    Answering(cfg, s.segments, d, j);
    Restart(cfg, s.segments, d, j, i, now);
    LastStagesOf(cfg, s.segments, d, j, i);
  }

  lemma {:induction false} LastStagesOf(cfg: Settings, segs: seq<Segment>, d: Document, j: Journal, i: nat)
    requires j.target.Some? && Halves(j) == 2 && 3 <= i <= 5
    ensures |Stages(cfg, segs, d, j)| == 6 && (Stages(cfg, segs, d, j)[i].journal.NoJournal? <==> i == 5)
  {
  }

  lemma {:induction false} Answering(cfg: Settings, segs: seq<Segment>, d: Document, j: Journal)
    requires Undelivered(cfg, segs, d, j) && j.target.Some?
    ensures Halves(j) == 2
  {
  }

  // ---------------------------------------------------------------- small runs

  const SECRET := "Bearer\nx"

  /** One record of the direct window, batches of one turn; "long" is too long for a line, a
      document takes a byte an item, and the guard knows SECRET but not the escaped text in
      which a journal writes it. */
  function Tiny(maxItems: nat, maxDocumentBytes: nat): Settings {
    Settings(2, 2, 1, maxDocumentBytes, maxItems, 8192, 1, 0, 1, 2,
             (r: RawRecord) => if r.content == "long" then 2 else 1, (d: Document) => |d.memories|, (text: string) => text != SECRET,
             (j: Journal) => "", (text: string) => text)
  }

  ghost predicate Small(cfg: Settings) {
    cfg == Tiny(cfg.maxItems, cfg.maxDocumentBytes)
  }

  function Input(content: string, curator: CuratorAnswer, reply: string): TurnInput {
    TurnInput(content, "t9", false, "s", "c", "u9", "a9", "x", 0, curator, Replies(reply))
  }

  lemma {:induction false} TinyIsValid(cfg: Settings)
    requires Small(cfg)
    ensures ValidSettings(cfg) && WithinReadLimits(cfg, EMPTY_DOCUMENT)
  {
  }

  const BLANK_DISK := DiskState([], Holds(EMPTY_DOCUMENT), Holds(EMPTY_DOCUMENT), NoJournal)

  lemma {:induction false} BlankIsClean(cfg: Settings)
    requires Small(cfg)
    ensures Clean(cfg, BLANK_DISK, EMPTY_DOCUMENT) && Log(BLANK_DISK) == []
  {
    TinyIsValid(cfg);
    EmptyIsCoherent([]);
  }

  /** Without a batch to curate the reply decides. */
  lemma {:induction false} BlankDecision(cfg: Settings, content: string, reply: string)
    requires Small(cfg) && content != "" && reply != ""
    ensures var input := Input(content, CuratorRejected, reply);
            var j := OpenJournal(input, [], EMPTY_DOCUMENT);
            && FreshTurnInput([], input)
            && DecisionOf(cfg, [], EMPTY_DOCUMENT, input) == Some(ReadyJournal(j, AnswerRecord(input, reply, 2), None))
  {
    assert NextBatch(cfg, [], 0, false) == None;
  }

  /** An answer that is too long for the archive is journalled, and no start-up gets past it. */
  lemma {:induction false} OversizedAnswerRun(now: int)
    ensures var cfg, input := Tiny(8, 8), Input("q", CuratorRejected, "long");
            var end := End(BLANK_DISK, RunTurnTrace(cfg, BLANK_DISK, input));
            end.journal.JournalOf? && BootTrace(cfg, end, now).outcome.Err?
  {
    var cfg := Tiny(8, 8);
    TinyIsValid(cfg);
    BlankIsClean(cfg);
    BlankDecision(cfg, "q", "long");
    UnpublishableTurn(cfg, BLANK_DISK, EMPTY_DOCUMENT, Input("q", CuratorRejected, "long"), now);
  }

  /** A text that the guard knows only unescaped is journalled, and no start-up gets past it. */
  lemma {:induction false} EscapedSecretRun(now: int)
    ensures var cfg, input := Tiny(8, 8), Input(SECRET, CuratorRejected, "a");
            var end := End(BLANK_DISK, RunTurnTrace(cfg, BLANK_DISK, input));
            end.journal.JournalOf? && BootTrace(cfg, end, now).outcome.Err?
  {
    var cfg := Tiny(8, 8);
    TinyIsValid(cfg);
    BlankIsClean(cfg);
    BlankDecision(cfg, SECRET, "a");
    UnpublishableTurn(cfg, BLANK_DISK, EMPTY_DOCUMENT, Input(SECRET, CuratorRejected, "a"), now);
  }

  // ---------------------------------------------------------------- a small run that curates

  const ASKED := CreateRecord("u", 1, "t", User, "q", 0, "s", "c")
  const TOLD := CreateRecord("a", 2, "t", Assistant, "r", 0, "s", "c")
  const PAIR := [ASKED, TOLD]

  function PairSegments(cfg: Settings): seq<Segment> {
    AppendSegments(cfg, AppendSegments(cfg, [], ASKED), TOLD)
  }

  function PairDisk(cfg: Settings): DiskState {
    DiskState(PairSegments(cfg), Holds(EMPTY_DOCUMENT), Holds(EMPTY_DOCUMENT), NoJournal)
  }

  lemma {:induction false} PairReads(cfg: Settings)
    requires Small(cfg)
    ensures ReadSegments(PairSegments(cfg)) == Ok(PAIR) && WellFormedLog(PAIR) && CompletePairs(PAIR)
  {
    AppendReads(cfg, [], [], ASKED);
    assert [] + [ASKED] == [ASKED];
    AppendReads(cfg, AppendSegments(cfg, [], ASKED), [ASKED], TOLD);
    assert [ASKED] + [TOLD] == PAIR;
  }

  lemma {:induction false} PairIsLogged(cfg: Settings)
    requires Small(cfg)
    ensures SafeLog(cfg, PairSegments(cfg))
  {
    var segs := AppendSegments(cfg, [], ASKED);
    assert [ASKED] + [TOLD] == PAIR;
    PairReads(cfg);
    AppendKeepsLimits(cfg, [], ASKED);
    assert ReadSegments(AppendSegments(cfg, segs, TOLD)) == Ok([ASKED] + [TOLD]);
    AppendKeepsLog(cfg, segs, [ASKED], TOLD);
  }

  lemma {:induction false} QuietlySafe(cfg: Settings, s: DiskState, d: Document, rs: seq<RawRecord>)
    requires SafeLog(cfg, s.segments) && ReadSegments(s.segments) == Ok(rs) && CompletePairs(rs)
    requires s.primary == s.lastValid == Holds(d) && s.journal.NoJournal? && Coherent(d, rs) && WithinReadLimits(cfg, d)
    ensures Clean(cfg, s, d) && Log(s) == rs
  {
    BothSafe(s.primary, s.lastValid, d, rs);
    assert Log(s) == rs && SafeJournal(s.journal, rs);
    assert SafeDisk(cfg, s);
  }

  lemma {:induction false} BothSafe(primary: DocumentFile, lastValid: DocumentFile, d: Document, rs: seq<RawRecord>)
    requires primary == lastValid == Holds(d) && Coherent(d, rs)
    ensures SafeDocuments(primary, lastValid, rs)
  {
  }

  lemma {:induction false} PairIsClean(cfg: Settings)
    requires Small(cfg)
    ensures Clean(cfg, PairDisk(cfg), EMPTY_DOCUMENT) && Log(PairDisk(cfg)) == PAIR
  {
    PairReads(cfg);
    PairIsLogged(cfg);
    TinyIsValid(cfg);
    EmptyIsCoherent(PAIR);
    QuietlySafe(cfg, PairDisk(cfg), EMPTY_DOCUMENT, PAIR);
  }

  const PAIR_BATCH := CurationBatch(BatchId(Identity(PAIR)), 0, 2, ["u", "a"])

  lemma {:induction false} PairSize(cfg: Settings)
    requires Small(cfg)
    ensures BatchSize(cfg, 2) == 2
  {
  }

  lemma {:induction false} PairIds()
    ensures IdsOf(PAIR) == ["u", "a"] && PAIR[0..2] == PAIR
  {
  }

  /** A window of one turn over its direct limit is the next batch. */
  lemma {:induction false} OneTurnBatch(cfg: Settings, rs: seq<RawRecord>)
    requires ValidSettings(cfg) && WellFormedLog(rs) && CompletePairs(rs) && |rs| == 2
    requires cfg.maxRecords - cfg.reservedRecords == 1 && cfg.minBatchRecords <= 2 && BatchSize(cfg, 2) == 2
    ensures NextBatch(cfg, rs, 0, false) == Some(CurationBatch(BatchId(Identity(rs)), 0, 2, IdsOf(rs)))
    ensures BatchRecords(rs, CurationBatch(BatchId(Identity(rs)), 0, 2, IdsOf(rs))) == rs
  {
    NextBatchExact(cfg, rs, 0, false);
    assert rs[0..2] == rs;
    BatchRecordsAre(rs, 0, 2, CurationBatch(BatchId(Identity(rs)), 0, 2, IdsOf(rs)));
  }

  lemma {:induction false} PairBatch(cfg: Settings, rs: seq<RawRecord>, batch: CurationBatch)
    requires Small(cfg) && rs == PAIR && batch == PAIR_BATCH
    ensures NextBatch(cfg, rs, 0, false) == Some(batch) && IdsOf(rs) == batch.recordIds && BatchRecords(rs, batch) == rs
  {
    PairReads(cfg);
    PairSize(cfg);
    PairIds();
    TinyIsValid(cfg);
    OneTurnBatch(cfg, rs);
  }

  lemma {:induction false} FirstAlias(ordered: seq<RawRecord>)
    requires ordered != []
    ensures "r" + Decimal(1) in SourceAliases(ordered)
  {
    if |ordered| > 1 {
      FirstAlias(ordered[..|ordered| - 1]);
    } else {
      assert SourceAliases(ordered[..0]) == map[];
    }
  }

  function OneMemory(): ModelProposal {
    ModelProposal([ModelCandidate(UserKind, "m", ["r" + Decimal(1)])], "o")
  }

  function Aliases(): map<string, string> {
    SourceAliases(SortByTime(PAIR))
  }

  lemma {:induction false} Validated(cfg: Settings) returns (p: Proposal)
    requires Small(cfg)
    ensures ValidateResponse(cfg, Some(OneMemory()), Aliases()) == Ok(p)
    ensures |p.candidates| == 1 && p.candidates[0].text == "m" && p.overview == "o" && ProposalFor(p, PAIR_BATCH)
  {
    var cs := OneMemory().candidates;
    SortKeeps(PAIR);
    assert SortByTime(PAIR) != [] by {
      assert ASKED in multiset(PAIR);
    }
    FirstAlias(SortByTime(PAIR));
    OneResolves(cfg);
    SortedIds(PAIR);
    assert IdsOf(PAIR) == ["u", "a"];
    ResolvedAreFromBatch(cfg, cs, SortByTime(PAIR), PAIR_BATCH.recordIds);
    p := ValidateResponse(cfg, Some(OneMemory()), Aliases()).value;
  }

  lemma {:induction false} OneResolves(cfg: Settings)
    requires Small(cfg) && "r" + Decimal(1) in Aliases()
    ensures var r := ResolveCandidates(cfg, OneMemory().candidates, Aliases());
            r.Ok? && |r.value| == 1 && r.value[0].text == "m"
    ensures ValidProposal(OneMemory()) && ValidateResponse(cfg, Some(OneMemory()), Aliases()).Ok?
  {
    var cs := OneMemory().candidates;
    assert cs[..0] == [];
    assert ResolveCandidates(cfg, cs[..0], Aliases()) == Ok([]);
    assert "m"[0] in "m" && "o"[0] in "o";
    assert forall k | 0 <= k < |cs[0].sources| :: cs[0].sources[k] in Aliases();
    assert ResolveCandidates(cfg, cs, Aliases()).Ok?;
  }

  /** A validated proposal over one turn becomes the merged document. */
  lemma {:induction false} ProposalMerges(cfg: Settings, rs: seq<RawRecord>, d: Document, batch: CurationBatch, response: ModelProposal, p: Proposal)
    requires ValidSettings(cfg) && WellFormedLog(rs) && LogShape(rs) && Coherent(d, rs) && d.curation.frontier == 0
    requires NextBatch(cfg, rs, 0, false) == Some(batch) && IdsOf(rs) == batch.recordIds && BatchRecords(rs, batch) == rs
    requires batch.newFrontier == |rs| && rs != []
    requires ValidateResponse(cfg, Some(response), SourceAliases(SortByTime(rs))) == Ok(p) && ProposalFor(p, batch)
    ensures SourcesKnown(p.candidates, ById(rs))
    ensures var t := MergedDocument(cfg, d, batch, rs, p);
            ProposalFrom(cfg, rs, d, Responds(Some(response))) == Target(t) && Coherent(t, rs)
  {
    assert rs[0..|rs|] == rs;
    MergeKeepsCoherence(cfg, d, rs, batch, p);
  }

  /** The curator's proposal becomes a target with one memory. */
  lemma {:induction false} PairTarget(cfg: Settings) returns (t: Document)
    requires Small(cfg)
    ensures ProposalFrom(cfg, PAIR, EMPTY_DOCUMENT, Responds(Some(OneMemory()))) == Target(t)
    ensures |t.memories| == 1 && t.overview.text == "o" && t.memories[0].text == "m" && Coherent(t, PAIR)
  {
    t := PairTargetOf(cfg, PAIR, EMPTY_DOCUMENT, PAIR_BATCH);
  }

  lemma {:induction false} PairTargetOf(cfg: Settings, rs: seq<RawRecord>, d: Document, batch: CurationBatch) returns (t: Document)
    requires Small(cfg) && rs == PAIR && d == EMPTY_DOCUMENT && batch == PAIR_BATCH
    ensures ProposalFrom(cfg, rs, d, Responds(Some(OneMemory()))) == Target(t)
    ensures |t.memories| == 1 && t.overview.text == "o" && t.memories[0].text == "m" && Coherent(t, rs)
  {
    PairReads(cfg);
    TinyIsValid(cfg);
    EmptyIsCoherent(rs);
    PairBatch(cfg, rs, batch);
    var p := Validated(cfg);
    ProposalMerges(cfg, rs, d, batch, OneMemory(), p);
    t := MergedDocument(cfg, d, batch, rs, p);
    OneAdded(cfg, p);
  }

  lemma {:induction false} OneAdded(cfg: Settings, p: Proposal)
    requires |p.candidates| == 1 && SourcesKnown(p.candidates, ById(PAIR))
    ensures var added := Additions(cfg, ActiveKeys(cfg, []), PAIR_BATCH, ById(PAIR), MaxCreated(PAIR), p.candidates, 1).0;
            |added| == 1 && added[0].text == p.candidates[0].text
  {
    assert ActiveKeys(cfg, []) == {};
  }

  function CuratingInput(): TurnInput {
    Input("q", Responds(Some(OneMemory())), "a")
  }

  lemma {:induction false} TargetDecides(cfg: Settings, rs: seq<RawRecord>, d: Document, input: TurnInput, t: Document, reply: string)
    requires ProposalFrom(cfg, rs, d, input.curator) == Target(t) && input.chat == Replies(reply)
    requires var j := OpenJournal(input, rs, d);
             var assistant := AnswerRecord(input, reply, j.user.sequence + 1);
             && ValidRecord(j.user) && JournalSafe(cfg, j)
             && ValidRecord(assistant) && JournalSafe(cfg, ReadyJournal(j, assistant, Some(t)))
    ensures var j := OpenJournal(input, rs, d);
            DecisionOf(cfg, rs, d, input) == Some(ReadyJournal(j, AnswerRecord(input, reply, j.user.sequence + 1), Some(t)))
  {
  }

  lemma {:induction false} PairPublishable(cfg: Settings, t: Document)
    requires Small(cfg) && |t.memories| == 1 && t.overview.text == "o" && t.memories[0].text == "m"
    ensures var j := ReadyJournal(OpenJournal(CuratingInput(), PAIR, EMPTY_DOCUMENT), AnswerRecord(CuratingInput(), "a", 4), Some(t));
            Publishable(cfg, j) <==> cfg.maxDocumentBytes >= 1
  {
  }

  lemma {:induction false} PairIsFresh()
    ensures FreshTurnInput(PAIR, CuratingInput())
  {
  }

  lemma {:induction false} PairDecision(cfg: Settings) returns (j: Journal)
    requires Small(cfg)
    ensures FreshTurnInput(PAIR, CuratingInput()) && DecisionOf(cfg, PAIR, EMPTY_DOCUMENT, CuratingInput()) == Some(j)
    ensures j.target.Some? && |j.target.value.memories| == 1 && (Publishable(cfg, j) <==> cfg.maxDocumentBytes >= 1)
  {
    var input := CuratingInput();
    var t := PairTarget(cfg);
    PairIsFresh();
    PairPublishable(cfg, t);
    TargetDecides(cfg, PAIR, EMPTY_DOCUMENT, input, t, "a");
    j := ReadyJournal(OpenJournal(input, PAIR, EMPTY_DOCUMENT), AnswerRecord(input, "a", 4), Some(t));
  }

  /** A real turn, killed between its two document writes: no start-up accepts the files. */
  lemma {:induction false} TornRun(now: int)
    ensures var cfg := Tiny(8, 8);
            BootTrace(cfg, After(PairDisk(cfg), RunTurnTrace(cfg, PairDisk(cfg), CuratingInput()), 5), now)
            == Trace([], Err("MEMORY_DOCUMENT_INVALID"))
  {
    PairTorn(Tiny(8, 8), now);
  }

  lemma {:induction false} PairTorn(cfg: Settings, now: int)
    requires cfg == Tiny(8, 8)
    ensures BootTrace(cfg, After(PairDisk(cfg), RunTurnTrace(cfg, PairDisk(cfg), CuratingInput()), 5), now)
            == Trace([], Err("MEMORY_DOCUMENT_INVALID"))
  {
    TinyIsValid(cfg);
    PairIsClean(cfg);
    var j := PairDecision(cfg);
    TornTurn(cfg, PairDisk(cfg), EMPTY_DOCUMENT, CuratingInput(), now);
  }

  /** With no room for items the same turn ends without an error, and no start-up gets past it:
      neither after its last step, nor when it dies before that one with the journal kept. */
  lemma {:induction false} OverfullRun(k: nat, now: int)
    requires k >= 6
    ensures var cfg := Tiny(0, 8);
            var end := After(PairDisk(cfg), RunTurnTrace(cfg, PairDisk(cfg), CuratingInput()), k);
            BootTrace(cfg, end, now) == Trace([], Err("MEMORY_DOCUMENT_TOO_LARGE")) && (end.journal.NoJournal? <==> k > 6)
  {
    PairOverfull(Tiny(0, 8), k, now);
  }

  lemma {:induction false} PairOverfull(cfg: Settings, k: nat, now: int)
    requires cfg == Tiny(0, 8) && k >= 6
    ensures var end := After(PairDisk(cfg), RunTurnTrace(cfg, PairDisk(cfg), CuratingInput()), k);
            BootTrace(cfg, end, now) == Trace([], Err("MEMORY_DOCUMENT_TOO_LARGE")) && (end.journal.NoJournal? <==> k > 6)
  {
    TinyIsValid(cfg);
    PairIsClean(cfg);
    var j := PairDecision(cfg);
    OverfullTurn(cfg, PairDisk(cfg), EMPTY_DOCUMENT, CuratingInput(), k, now);
  }

  /** With no room for bytes the same turn is journalled, its records are published, and no
      start-up gets past its document. */
  lemma {:induction false} OversizedTargetRun(now: int)
    ensures var cfg := Tiny(8, 0);
            var end := End(PairDisk(cfg), RunTurnTrace(cfg, PairDisk(cfg), CuratingInput()));
            end.journal.JournalOf? && BootTrace(cfg, end, now).outcome.Err?
  {
    PairOversized(Tiny(8, 0), now);
  }

  lemma {:induction false} PairOversized(cfg: Settings, now: int)
    requires cfg == Tiny(8, 0)
    ensures var end := End(PairDisk(cfg), RunTurnTrace(cfg, PairDisk(cfg), CuratingInput()));
            end.journal.JournalOf? && BootTrace(cfg, end, now).outcome.Err?
  {
    TinyIsValid(cfg);
    PairIsClean(cfg);
    var j := PairDecision(cfg);
    UnpublishableTurn(cfg, PairDisk(cfg), EMPTY_DOCUMENT, CuratingInput(), now);
  }

  /** The same turn, killed once it has decided, then a full reset: no start-up completes. */
  lemma {:induction false} ResetRun(now: int)
    ensures var cfg := Tiny(8, 8);
            var crashed := After(PairDisk(cfg), RunTurnTrace(cfg, PairDisk(cfg), CuratingInput()), 2);
            var reset := ResetAllTrace(cfg, crashed, now);
            reset.outcome.Ok? && !BootTrace(cfg, End(crashed, reset), now).outcome.Ok?
  {
    PairReset(Tiny(8, 8), now);
  }

  lemma {:induction false} PairReset(cfg: Settings, now: int)
    requires cfg == Tiny(8, 8)
    ensures var crashed := After(PairDisk(cfg), RunTurnTrace(cfg, PairDisk(cfg), CuratingInput()), 2);
            var reset := ResetAllTrace(cfg, crashed, now);
            reset.outcome.Ok? && !BootTrace(cfg, End(crashed, reset), now).outcome.Ok?
  {
    TinyIsValid(cfg);
    PairIsClean(cfg);
    var j := PairDecision(cfg);
    CrashedTurn(cfg, PairDisk(cfg), EMPTY_DOCUMENT, CuratingInput(), 2);
    DecisionHolds(cfg, PairDisk(cfg), EMPTY_DOCUMENT, CuratingInput());
    FirstIsStage(cfg, PairSegments(cfg), EMPTY_DOCUMENT, j);
    PairReads(cfg);
    ResetThenStart(cfg, After(PairDisk(cfg), RunTurnTrace(cfg, PairDisk(cfg), CuratingInput()), 2), PairSegments(cfg), EMPTY_DOCUMENT, j, now, now);
  }
}
