/** What interactions end with: over every interleaving, the texts of an interaction are
    those of its flow at the moments its calls read it, or the fallbacks. */
module GameplayOutcome {
  import opened GameplayModel
  import opened GameplayOnce
  import A = AiModel
  import F = AiFlows

  // ---------- what calls read ----------

  /** `Begun` is what a call to start an interaction has read of its flow, `Heard` what a
      call to answer it reads back once its answer was taken. */
  datatype Reading =
    | Begun(id: nat, flowId: nat, flow: A.Flow, playerId: string, fallback: string)
    | Heard(id: nat, flowId: nat, flow: A.Flow, answer: string, fallback: string)

  ghost function ReadingOf(c: A.Config, s: Sys, e: Event): seq<Reading>
    requires Enabled(c, s, e)
  {
    match e
    case AllocateId(call, playerId, fallback) =>
      [Begun(s.game.nextId, s.calls[call].flowId, s.calls[call].flow, playerId, fallback)]
    case ReadBack(call, fallback) =>
      var k := s.calls[call];
      [Heard(k.id, k.copy.flowId, s.ai.state.flows[k.copy.flowId], k.answer, fallback)]
    case _ => []
  }

  ghost function Readings(c: A.Config, s: Sys, es: seq<Event>): seq<Reading>
    requires Legal(c, s, es)
    decreases |es|
  {
    if |es| == 0 then [] else ReadingOf(c, s, es[0]) + Readings(c, Next(c, s, es[0]), es[1..])
  }

  function Text(text: string, fallback: string): string { if text != "" then text else fallback }

  /** The interaction is as this call began it. */
  predicate BeganAs(x: Interaction, id: nat, r: Reading) {
    && r.Begun? && r.id == id && x.flowId == r.flowId && x.playerId == r.playerId
    && x.question == Text(r.flow.question, r.fallback) && x.questionTask == r.flow.questionTask
  }

  /** It was answered and explained as this call heard it. */
  predicate EndedAs(x: Interaction, id: nat, r: Reading) {
    && r.Heard? && r.id == id && x.flowId == r.flowId && x.answer == r.answer
    && x.explanation == Text(r.flow.explanation, r.fallback) && x.explanationTask == r.flow.explanationTask
  }

  ghost predicate Began(rs: seq<Reading>, id: nat, x: Interaction) { exists r :: r in rs && BeganAs(x, id, r) }

  ghost predicate Ended(rs: seq<Reading>, id: nat, x: Interaction) { exists r :: r in rs && EndedAs(x, id, r) }

  ghost predicate IsTold(rs: seq<Reading>, id: nat, x: Interaction) {
    Began(rs, id, x)
    && if x.completed then Ended(rs, id, x) else x.answer == "" && x.explanation == "" && x.explanationTask == 0
  }

  ghost predicate CallTold(rs: seq<Reading>, k: Call) {
    && (k.Allocated? ==> IsTold(rs, k.id, k.x) && !k.x.completed)
    && (k.Explained? ==> Ended(rs, k.id, k.x)
                         && k.x == k.copy.(answer := k.x.answer, explanation := k.x.explanation,
                                           explanationTask := k.x.explanationTask, completed := true))
  }

  ghost predicate GameTold(rs: seq<Reading>, g: Game) {
    forall id :: id in g.interactions ==> IsTold(rs, id, g.interactions[id])
  }

  ghost predicate CallsTold(rs: seq<Reading>, calls: map<nat, Call>) {
    forall k :: k in calls ==> CallTold(rs, calls[k])
  }

  /** The flow was so once, and has only advanced since. */
  ghost predicate WasSo(ai: A.State, flowId: nat, flow: A.Flow) {
    flowId in ai.flows && F.Advances(flow, ai.flows[flowId])
  }

  ghost predicate ReadingsHold(rs: seq<Reading>, ai: A.State) {
    forall r :: r in rs ==> WasSo(ai, r.flowId, r.flow)
  }

  ghost predicate ReadsHold(calls: map<nat, Call>, ai: A.State) {
    forall k :: k in calls && calls[k].Read? ==> WasSo(ai, calls[k].flowId, calls[k].flow)
  }

  ghost predicate Told(rs: seq<Reading>, s: Sys) {
    GameTold(rs, s.game) && CallsTold(rs, s.calls) && ReadingsHold(rs, s.ai.state) && ReadsHold(s.calls, s.ai.state)
  }

  // ---------- frames ----------

  lemma ToldMore(rs: seq<Reading>, more: seq<Reading>, id: nat, x: Interaction)
    ensures Began(rs, id, x) ==> Began(rs + more, id, x)
    ensures Ended(rs, id, x) ==> Ended(rs + more, id, x)
  {
    if Began(rs, id, x) {
      var r :| r in rs && BeganAs(x, id, r);
      assert r in rs + more;
    }
    if Ended(rs, id, x) {
      var r :| r in rs && EndedAs(x, id, r);
      assert r in rs + more;
    }
  }

  /** The game and the calls that remain are told by more readings too. */
  lemma TablesToldMore(rs: seq<Reading>, more: seq<Reading>, s: Sys)
    requires GameTold(rs, s.game) && CallsTold(rs, s.calls)
    ensures GameTold(rs + more, s.game) && CallsTold(rs + more, s.calls)
  {
    hide Began, Ended;
    forall id | id in s.game.interactions ensures IsTold(rs + more, id, s.game.interactions[id]) {
      ToldMore(rs, more, id, s.game.interactions[id]);
    }
    forall k | k in s.calls ensures CallTold(rs + more, s.calls[k]) {
      assert CallTold(rs, s.calls[k]);
      if s.calls[k].Allocated? || s.calls[k].Explained? { ToldMore(rs, more, s.calls[k].id, s.calls[k].x); }
    }
  }

  lemma SoLater(a: A.State, b: A.State, flowId: nat, flow: A.Flow)
    requires WasSo(a, flowId, flow) && F.FlowsAdvance(a, b)
    ensures WasSo(b, flowId, flow)
  {
    assert F.Advances(a.flows[flowId], b.flows[flowId]);
  }

  lemma IsSo(ai: A.State, flowId: nat)
    requires flowId in ai.flows
    ensures WasSo(ai, flowId, ai.flows[flowId])
  {
  }

  lemma ReadingsLater(rs: seq<Reading>, calls: map<nat, Call>, a: A.State, b: A.State)
    requires ReadingsHold(rs, a) && ReadsHold(calls, a) && F.FlowsAdvance(a, b)
    ensures ReadingsHold(rs, b) && ReadsHold(calls, b)
  {
    hide WasSo, F.FlowsAdvance;
    forall r | r in rs ensures WasSo(b, r.flowId, r.flow) { SoLater(a, b, r.flowId, r.flow); }
    forall k | k in calls && calls[k].Read? ensures WasSo(b, calls[k].flowId, calls[k].flow) {
      SoLater(a, b, calls[k].flowId, calls[k].flow);
    }
  }

  // ---------- steps ----------

  ghost predicate IsAi(e: Event) { e.AiStep? || e.StartCall? || e.AskAi? }

  /** The orchestrator's part of such a step. */
  function AiPart(e: Event): A.Event
    requires IsAi(e)
  {
    if e.AiStep? then e.ai else if e.StartCall? then e.start else e.submit
  }

  /** A call that carries text is one that carried it before. */
  ghost predicate NoNewText(calls: map<nat, Call>, calls': map<nat, Call>) {
    forall k :: k in calls' && (calls'[k].Read? || calls'[k].Allocated? || calls'[k].Explained?) ==>
      k in calls && calls'[k] == calls[k]
  }

  lemma AiParts(c: A.Config, s: Sys, e: Event)
    requires Enabled(c, s, e) && IsAi(e)
    ensures A.Enabled(c, s.ai, AiPart(e))
    ensures var s' := Next(c, s, e);
      s'.game == s.game && s'.ai == A.Next(c, s.ai, AiPart(e)) && NoNewText(s.calls, s'.calls)
  {
    hide A.Next, A.Enabled, A.SubmitAnswer, A.HasRoom;
    if e.StartCall? { StartCallEffect(c, s, e); }
    if e.AskAi? { AskEffect(c, s, e); }
  }

  /** Steps of the orchestrator add no text to an interaction. */
  lemma AiEffect(c: A.Config, s: Sys, e: Event)
    requires Inv(s) && Enabled(c, s, e) && IsAi(e)
    ensures var s' := Next(c, s, e);
      s'.game == s.game && F.FlowsAdvance(s.ai.state, s'.ai.state) && NoNewText(s.calls, s'.calls)
  {
    assert F.Inv(s.ai);
    hide Inv, Next, Enabled, A.Next, A.Enabled, F.Inv, F.FlowsAdvance, NoNewText, AiPart;
    AiParts(c, s, e);
    F.StepAdvances(c, s.ai, AiPart(e));
  }

  lemma CallsToldStill(rs: seq<Reading>, calls: map<nat, Call>, calls': map<nat, Call>, ai: A.State)
    requires CallsTold(rs, calls) && ReadsHold(calls, ai) && NoNewText(calls, calls')
    ensures CallsTold(rs, calls') && ReadsHold(calls', ai)
  {
    hide IsTold, Ended, WasSo;
  }

  lemma AiTold(c: A.Config, s: Sys, rs: seq<Reading>, e: Event)
    requires Inv(s) && Enabled(c, s, e) && IsAi(e) && Told(rs, s)
    ensures Told(rs, Next(c, s, e))
  {
    var s' := Next(c, s, e);
    hide Inv, Enabled, Next, GameTold, CallsTold, ReadingsHold, ReadsHold, NoNewText, F.FlowsAdvance, IsAi;
    AiEffect(c, s, e);
    ReadingsLater(rs, s.calls, s.ai.state, s'.ai.state);
    CallsToldStill(rs, s.calls, s'.calls, s'.ai.state);
  }

  lemma ReadTold(c: A.Config, s: Sys, rs: seq<Reading>, e: Event)
    requires Enabled(c, s, e) && (e.ReadFlow? || e.AnswerCall?) && Told(rs, s)
    ensures Told(rs, Next(c, s, e))
  {
    if e.ReadFlow? { IsSo(s.ai.state, s.calls[e.call].flowId); }
    hide A.Next, A.Enabled, A.SubmitAnswer, IsTold, WasSo, Ended, Lookup;
  }

  lemma AllocateTold(c: A.Config, s: Sys, rs: seq<Reading>, e: Event)
    requires Enabled(c, s, e) && e.AllocateId? && Told(rs, s)
    ensures Told(rs + ReadingOf(c, s, e), Next(c, s, e))
  {
    var r := ReadingOf(c, s, e)[0];
    var s' := Next(c, s, e);
    TablesToldMore(rs, [r], s);
    assert ReadingOf(c, s, e) == [r] && r in rs + [r];
    assert WasSo(s.ai.state, r.flowId, r.flow);
    var k' := s'.calls[e.call];
    assert BeganAs(k'.x, k'.id, r);
    hide A.Next, A.Enabled, A.SubmitAnswer, WasSo, Ended;
    assert CallTold(rs + [r], k');
    assert CallsTold(rs + [r], s'.calls);
    assert ReadingsHold(rs + [r], s.ai.state);
  }

  lemma ReadBackTold(c: A.Config, s: Sys, rs: seq<Reading>, e: Event)
    requires Enabled(c, s, e) && e.ReadBack? && Told(rs, s)
    ensures Told(rs + ReadingOf(c, s, e), Next(c, s, e))
  {
    var r := ReadingOf(c, s, e)[0];
    var s' := Next(c, s, e);
    TablesToldMore(rs, [r], s);
    IsSo(s.ai.state, r.flowId);
    assert ReadingOf(c, s, e) == [r] && r in rs + [r];
    var k' := s'.calls[e.call];
    assert EndedAs(k'.x, k'.id, r);
    hide A.Next, A.Enabled, A.SubmitAnswer, WasSo, IsTold;
    assert CallTold(rs + [r], k');
    assert CallsTold(rs + [r], s'.calls);
    assert ReadingsHold(rs + [r], s.ai.state);
  }

  /** One interaction is written, and the call that does it ends. */
  lemma PutTold(rs: seq<Reading>, s: Sys, s': Sys, call: nat, id: nat, x: Interaction)
    requires Told(rs, s) && IsTold(rs, id, x) && s'.ai == s.ai && s'.calls == s.calls - {call}
    requires s'.game.interactions == s.game.interactions[id := x]
    ensures Told(rs, s')
  {
    hide IsTold, WasSo, Ended;
  }

  /** What the call writes is told. */
  lemma WritesTold(s: Sys, rs: seq<Reading>, call: nat)
    requires Inv(s) && Told(rs, s) && call in s.calls && (s.calls[call].Allocated? || s.calls[call].Explained?)
    ensures IsTold(rs, s.calls[call].id, s.calls[call].x)
  {
    var k := s.calls[call];
    assert CallInv(s, k) && CallTold(rs, k);
    hide Inv, WasSo;
    if k.Explained? {
      assert IsTold(rs, k.id, k.copy);
      CopyTold(rs, k);
    }
  }

  lemma WriteTold(c: A.Config, s: Sys, rs: seq<Reading>, e: Event)
    requires Inv(s) && Enabled(c, s, e) && (e.StoreNew? || e.WriteBack?) && Told(rs, s)
    ensures Told(rs, Next(c, s, e))
  {
    WriteEffect(c, s, e);
    hide Inv, Next, Enabled, Told, IsTold;
    WritesTold(s, rs, e.call);
    PutTold(rs, s, Next(c, s, e), e.call, s.calls[e.call].id, s.calls[e.call].x);
  }

  /** A completed copy of a told interaction. */
  lemma CopyTold(rs: seq<Reading>, k: Call)
    requires k.Explained? && CallTold(rs, k) && Began(rs, k.id, k.copy)
    ensures IsTold(rs, k.id, k.x)
  {
    var r :| r in rs && BeganAs(k.copy, k.id, r);
    assert BeganAs(k.x, k.id, r);
  }

  lemma StepTold(c: A.Config, s: Sys, rs: seq<Reading>, e: Event)
    requires Inv(s) && Enabled(c, s, e) && Told(rs, s)
    ensures Told(rs + ReadingOf(c, s, e), Next(c, s, e))
  {
    assert e.AllocateId? || e.ReadBack? || ReadingOf(c, s, e) == [];
    assert rs + [] == rs;
    hide Inv, Enabled, Next, Told, ReadingOf;
    match e
    case AllocateId(_, _, _) => AllocateTold(c, s, rs, e);
    case ReadBack(_, _) => ReadBackTold(c, s, rs, e);
    case StoreNew(_) => WriteTold(c, s, rs, e);
    case WriteBack(_) => WriteTold(c, s, rs, e);
    case ReadFlow(_) => ReadTold(c, s, rs, e);
    case AnswerCall(_, _, _, _, _) => ReadTold(c, s, rs, e);
    case _ => AiTold(c, s, rs, e);
  }

  lemma {:induction false} RunTold(c: A.Config, s: Sys, rs: seq<Reading>, es: seq<Event>)
    requires Inv(s) && Legal(c, s, es) && Told(rs, s)
    ensures Told(rs + Readings(c, s, es), After(c, s, es))
    decreases |es|
  {
    hide Inv, Enabled, Next, Told, ReadingOf;
    if |es| == 0 {
      assert rs + [] == rs;
    } else {
      var r := ReadingOf(c, s, es[0]);
      StepTold(c, s, rs, es[0]);
      StepKeepsInv(c, s, es[0]);
      RunTold(c, Next(c, s, es[0]), rs + r, es[1..]);
      assert (rs + r) + Readings(c, Next(c, s, es[0]), es[1..]) == rs + Readings(c, s, es);
    }
  }

  // ---------- what interactions end with ----------

  lemma RunFromStart(c: A.Config, clock: int, es: seq<Event>)
    requires Legal(c, Initial(clock), es)
    ensures Inv(After(c, Initial(clock), es))
    ensures Told(Readings(c, Initial(clock), es), After(c, Initial(clock), es))
  {
    InitialIsFine(clock);
    EveryRun(c, Initial(clock), es);
    hide Inv, After, Legal, Readings;
    RunTold(c, Initial(clock), [], es);
    assert [] + Readings(c, Initial(clock), es) == Readings(c, Initial(clock), es);
  }

  /** From the start: an interaction is the player's who began it, and its question is the
      flow's as that call read it, or the call's fallback; the flow still has that
      question if it was posed then. */
  lemma QuestionIsTheFlows(c: A.Config, clock: int, es: seq<Event>, id: nat)
    requires Legal(c, Initial(clock), es) && id in After(c, Initial(clock), es).game.interactions
    ensures var s := After(c, Initial(clock), es); var x := s.game.interactions[id];
      exists r :: r in Readings(c, Initial(clock), es) && BeganAs(x, id, r)
        && x.flowId in s.ai.state.flows
        && (r.flow.stage != A.GeneratingQuestion ==> s.ai.state.flows[x.flowId].question == r.flow.question)
  {
    RunFromStart(c, clock, es);
    var s, rs := After(c, Initial(clock), es), Readings(c, Initial(clock), es);
    hide Inv, After, Legal, Readings;
    assert IsTold(rs, id, s.game.interactions[id]);
    var r :| r in rs && BeganAs(s.game.interactions[id], id, r);
    assert WasSo(s.ai.state, r.flowId, r.flow);
  }

  /** The texts that a succeeded explanation task stands for. */
  ghost predicate IsFromTask(s: Sys, x: Interaction) {
    x.explanationTask in s.ai.state.tasks && F.Produced(s.ai.state.tasks[x.explanationTask], x.explanation)
  }

  lemma CompletedFlowStays(s: Sys, flowId: nat, flow: A.Flow)
    requires Inv(s) && WasSo(s.ai.state, flowId, flow) && flow.stage == A.Completed
    ensures s.ai.state.flows[flowId] == flow && flow.explanationTask in s.ai.state.tasks
    ensures F.Produced(s.ai.state.tasks[flow.explanationTask], flow.explanation)
  {
    assert F.FlowInv(s.ai, flowId);
  }

  /** From the start: a completed interaction has the answer of the call that completed
      it, and its flow's explanation as that call read it back, or the call's fallback
      if there was none; if the flow was completed by then, that is the text of its
      succeeded explanation task. */
  lemma ExplanationIsTheFlows(c: A.Config, clock: int, es: seq<Event>, id: nat)
    requires Legal(c, Initial(clock), es) && id in After(c, Initial(clock), es).game.interactions
    requires After(c, Initial(clock), es).game.interactions[id].completed
    ensures var s := After(c, Initial(clock), es); var x := s.game.interactions[id];
      exists r :: r in Readings(c, Initial(clock), es) && EndedAs(x, id, r)
        && (r.flow.stage == A.Completed && r.flow.explanation != "" ==> IsFromTask(s, x))
  {
    RunFromStart(c, clock, es);
    var s, rs := After(c, Initial(clock), es), Readings(c, Initial(clock), es);
    hide Inv, After, Legal, Readings;
    assert IsTold(rs, id, s.game.interactions[id]);
    var r :| r in rs && EndedAs(s.game.interactions[id], id, r);
    assert WasSo(s.ai.state, r.flowId, r.flow);
    if r.flow.stage == A.Completed { CompletedFlowStays(s, r.flowId, r.flow); }
  }

  // ---------- lookup ----------

  /** A call may answer exactly an open interaction of its player, named by its own id or,
      without one, by its flow. */
  lemma LookupIff(g: Game, interactionId: nat, flowId: nat, playerId: string)
    ensures var r := Lookup(g, interactionId, flowId, playerId);
      var id := if interactionId == 0 && flowId != 0 && flowId in g.flowToInteraction
                then g.flowToInteraction[flowId] else interactionId;
      && (r == NotFound <==> id !in g.interactions)
      && (r == NotOwner <==> id in g.interactions && g.interactions[id].playerId != playerId)
      && (r == AlreadyCompleted <==>
            id in g.interactions && g.interactions[id].playerId == playerId && g.interactions[id].completed)
      && (r.Found? ==> r.id == id && r.copy == g.interactions[id])
  {
  }
}
