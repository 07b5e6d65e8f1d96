/** Exactly what moves a question flow on, told by what the client answers and by how
    full the queue is, and what that adds up to over whole runs. */
module AiOutcomes {
  import opened Common
  import opened Prompt
  import opened AiModel
  import opened AiFlows
  import Q = TaskQueue

  // ---------- the events of a flow ----------

  /** How many tasks are queued or running. */
  ghost function Load(s: State): nat {
    |set id | id in s.tasks && (s.tasks[id].core.status == Q.Queued || s.tasks[id].core.status == Q.Running)|
  }

  lemma LoadDecides(c: Config, s: State)
    ensures HasRoom(c, s) <==> Load(s) < c.queue.capacity
  {
    assert Q.ActiveIds(Cores(s.tasks)) ==
      set id | id in s.tasks && (s.tasks[id].core.status == Q.Queued || s.tasks[id].core.status == Q.Running);
  }

  /** An attempt of this flow ends, on a task of this kind. */
  ghost predicate Ends(s: Sys, e: Event, fid: nat, kind: Kind) {
    e.Finish? && e.id in s.state.tasks && s.state.tasks[e.id].flowId == Some(fid) && s.state.tasks[e.id].kind == kind
  }

  /** The client answered, and in time. */
  ghost predicate Answered(c: Config, e: Event)
    requires e.Finish?
  {
    e.response.ok && e.elapsed <= c.queue.timeout
  }

  /** The task has had all its attempts: R + 1 of them, computed in 32 bits. */
  ghost predicate IsLast(c: Config, s: Sys, id: nat)
    requires id in s.state.tasks
  {
    s.state.tasks[id].core.attempts >= (c.queue.maxRetries + 1) % 0x1_0000_0000
  }

  ghost predicate MeetsAnswer(s: Sys, e: Event, fid: nat) {
    e.Submit? && e.flowId == fid && fid in s.state.flows && s.state.flows[fid].stage == WaitingAnswer
  }

  datatype Sign = Nothing | Posed(question: string) | Taken(answer: string) | Told(text: string) | Fatal

  /** What an event means for a flow. */
  ghost function SignOf(c: Config, s: Sys, e: Event, fid: nat): Sign {
    if Ends(s, e, fid, Question) && Answered(c, e) then Posed(e.response.text)
    else if Ends(s, e, fid, Explanation) && Answered(c, e) then Told(e.response.text)
    else if (Ends(s, e, fid, Question) || Ends(s, e, fid, Explanation)) && IsLast(c, s, e.id) then Fatal
    else if MeetsAnswer(s, e, fid) then if Load(s.state) < c.queue.capacity then Taken(e.answer) else Fatal
    else Nothing
  }

  /** The flow after such an event. */
  ghost predicate Moves(f: Flow, sign: Sign, f': Flow) {
    match sign
    case Nothing => f' == f
    case Posed(q) => f.stage == GeneratingQuestion && f' == f.(stage := WaitingAnswer, question := q)
    case Taken(a) => f.stage == WaitingAnswer && f'.stage == GeneratingExplanation && f'.answer == a
                     && f'.question == f.question && f'.explanationTemplate == f.explanationTemplate
    case Told(x) => f.stage == GeneratingExplanation && f' == f.(stage := Completed, explanation := x)
    case Fatal => f.stage != Completed && f.stage != Failed && f'.stage == Failed && f'.question == f.question
  }

  // ---------- one step ----------

  lemma NoSign(f: Flow)
    ensures Moves(f, Nothing, f)
  {
  }

  lemma QuietSign(c: Config, s: Sys, e: Event, fid: nat)
    requires !e.Submit? && (!e.Finish? || (e.id in s.state.tasks && s.state.tasks[e.id].flowId != Some(fid)))
    ensures SignOf(c, s, e, fid) == Nothing
  {
  }

  /** An attempt of another flow's task. */
  lemma OtherFinish(c: Config, s: Sys, e: Event, fid: nat)
    requires Enabled(c, s, e) && e.Finish? && fid in s.state.flows && e.id in s.state.tasks
    requires s.state.tasks[e.id].flowId != Some(fid)
    ensures fid in Next(c, s, e).state.flows && Next(c, s, e).state.flows[fid] == s.state.flows[fid]
  {
    FinishEffect(c, s, e);
    hide Next, Enabled, FlowAfterTask;
  }

  lemma FinishMoves(c: Config, s: Sys, e: Event, fid: nat)
    requires Inv(s) && Enabled(c, s, e) && e.Finish? && fid in s.state.flows && fid in Next(c, s, e).state.flows
    ensures Moves(s.state.flows[fid], SignOf(c, s, e, fid), Next(c, s, e).state.flows[fid])
  {
    FinishIsInFlight(c, s, e);
    if s.state.tasks[e.id].flowId == Some(fid) {
      AwaitedTask(s, e.id, fid);
      AwaitedKind(s, fid);
      hide Inv, Moves, SignOf, Next, Enabled;
      OwnFinishMoves(c, s, e, fid);
    } else {
      hide Inv, Moves, SignOf, Next, Enabled;
      OtherFinish(c, s, e, fid);
      QuietSign(c, s, e, fid);
      NoSign(s.state.flows[fid]);
    }
  }

  lemma AwaitedKind(s: Sys, fid: nat)
    requires Inv(s) && fid in s.state.flows
    ensures var f := s.state.flows[fid];
      && f.questionTask in s.state.tasks && s.state.tasks[f.questionTask].kind == Question
      && (f.stage == GeneratingExplanation ==>
            f.explanationTask in s.state.tasks && s.state.tasks[f.explanationTask].kind == Explanation)
  {
    assert FlowInv(s, fid);
  }

  lemma OwnFinishMoves(c: Config, s: Sys, e: Event, fid: nat)
    requires Enabled(c, s, e) && e.Finish? && fid in s.state.flows && fid in Next(c, s, e).state.flows
    requires var t, f := s.state.tasks[e.id], s.state.flows[fid];
      && t.flowId == Some(fid)
      && ((t.kind == Question && f.stage == GeneratingQuestion)
          || (t.kind == Explanation && f.stage == GeneratingExplanation))
    ensures Moves(s.state.flows[fid], SignOf(c, s, e, fid), Next(c, s, e).state.flows[fid])
  {
  }

  lemma SubmitMoves(c: Config, s: Sys, e: Event, fid: nat)
    requires Enabled(c, s, e) && e.Submit? && fid in s.state.flows && fid in Next(c, s, e).state.flows
    ensures Moves(s.state.flows[fid], SignOf(c, s, e, fid), Next(c, s, e).state.flows[fid])
  {
    LoadDecides(c, s.state);
    hide HasRoom, Rendered, Load;
  }

  /** A flow moves exactly as its events say, and otherwise stays as it is. */
  lemma StepMoves(c: Config, s: Sys, e: Event, fid: nat)
    requires Inv(s) && Enabled(c, s, e) && fid in s.state.flows
    ensures fid in Next(c, s, e).state.flows
    ensures Moves(s.state.flows[fid], SignOf(c, s, e, fid), Next(c, s, e).state.flows[fid])
  {
    StepAdvances(c, s, e);
    hide Inv, Enabled, Next, SignOf, Moves, Advances;
    match e
    case Submit(_, _, _, _) => SubmitMoves(c, s, e, fid);
    case Finish(_, _, _, _) => FinishMoves(c, s, e, fid);
    case _ =>
      QuietSign(c, s, e, fid);
      NoSign(s.state.flows[fid]);
      if e.StartFlow? { StartAdvances(c, s, e, fid); } else { ReworkAdvances(c, s, e); }
  }

  /** A flow that loses a task for good has the task's last error as its own. */
  lemma FailureIsTold(c: Config, s: Sys, e: Event, fid: nat)
    requires Enabled(c, s, e) && e.Finish? && fid in s.state.flows && SignOf(c, s, e, fid) == Fatal
    ensures var s' := Next(c, s, e).state;
      && fid in s'.flows && e.id in s'.tasks
      && s'.flows[fid] == s.state.flows[fid].(stage := Failed, error := s'.tasks[e.id].lastError)
  {
    hide Load;
  }

  // ---------- runs ----------

  /** Some event of the run poses the flow's question. */
  ghost predicate WasPosed(c: Config, s: Sys, es: seq<Event>, threads: nat, fid: nat)
    requires Legal(c, s, es, threads)
    decreases |es|
  {
    |es| > 0 && (SignOf(c, s, es[0], fid).Posed? || WasPosed(c, Next(c, s, es[0]), es[1..], threads, fid))
  }

  /** Some event takes an answer to it. */
  ghost predicate WasTaken(c: Config, s: Sys, es: seq<Event>, threads: nat, fid: nat)
    requires Legal(c, s, es, threads)
    decreases |es|
  {
    |es| > 0 && (SignOf(c, s, es[0], fid).Taken? || WasTaken(c, Next(c, s, es[0]), es[1..], threads, fid))
  }

  /** Some event brings its explanation. */
  ghost predicate WasTold(c: Config, s: Sys, es: seq<Event>, threads: nat, fid: nat)
    requires Legal(c, s, es, threads)
    decreases |es|
  {
    |es| > 0 && (SignOf(c, s, es[0], fid).Told? || WasTold(c, Next(c, s, es[0]), es[1..], threads, fid))
  }

  /** The last attempt of one of its tasks fails, or its answer meets a full queue. */
  ghost predicate WasLost(c: Config, s: Sys, es: seq<Event>, threads: nat, fid: nat)
    requires Legal(c, s, es, threads)
    decreases |es|
  {
    |es| > 0 && (SignOf(c, s, es[0], fid).Fatal? || WasLost(c, Next(c, s, es[0]), es[1..], threads, fid))
  }

  predicate IsPosed(st: Stage) { st == WaitingAnswer || st == GeneratingExplanation || st == Completed }
  predicate IsTaken(st: Stage) { st == GeneratingExplanation || st == Completed }

  /** From one stage to another, with these events in between. */
  predicate Explains(st: Stage, posed: bool, taken: bool, told: bool, lost: bool, st': Stage) {
    && (st' == Failed <==> st == Failed || lost)
    && (st' == Completed <==> st == Completed || told)
    && (st' != Failed ==> (IsPosed(st') <==> IsPosed(st) || posed) && (IsTaken(st') <==> IsTaken(st) || taken))
    && (posed ==> st == GeneratingQuestion && st' != GeneratingQuestion)
  }

  lemma MoveExplains(f: Flow, sign: Sign, f': Flow, posed: bool, taken: bool, told: bool, lost: bool, last: Stage)
    requires Moves(f, sign, f') && Explains(f'.stage, posed, taken, told, lost, last)
    ensures Explains(f.stage, sign.Posed? || posed, sign.Taken? || taken, sign.Told? || told, sign.Fatal? || lost, last)
  {
  }

  lemma {:induction false} RunExplains(c: Config, s: Sys, es: seq<Event>, threads: nat, fid: nat)
    requires Inv(s) && Legal(c, s, es, threads) && fid in s.state.flows
    ensures fid in After(c, s, es, threads).state.flows
    ensures Explains(s.state.flows[fid].stage,
                     WasPosed(c, s, es, threads, fid), WasTaken(c, s, es, threads, fid),
                     WasTold(c, s, es, threads, fid), WasLost(c, s, es, threads, fid),
                     After(c, s, es, threads).state.flows[fid].stage)
    decreases |es|
  {
    hide Inv, Enabled, Next, SignOf, Moves;
    if |es| != 0 {
      hide Explains;
      StepKeepsInv(c, s, es[0]);
      StepMoves(c, s, es[0], fid);
      var s1 := Next(c, s, es[0]);
      RunExplains(c, s1, es[1..], threads, fid);
      MoveExplains(s.state.flows[fid], SignOf(c, s, es[0], fid), s1.state.flows[fid],
                   WasPosed(c, s1, es[1..], threads, fid), WasTaken(c, s1, es[1..], threads, fid),
                   WasTold(c, s1, es[1..], threads, fid), WasLost(c, s1, es[1..], threads, fid),
                   After(c, s1, es[1..], threads).state.flows[fid].stage);
    }
  }

  lemma NoFlowNoSign(c: Config, s: Sys, e: Event, fid: nat)
    requires Inv(s) && fid !in s.state.flows
    ensures SignOf(c, s, e, fid) == Nothing
  {
    NoTaskOf(s, fid);
    hide Inv, Load;
  }

  lemma StartBegins(c: Config, s: Sys, e: Event, fid: nat)
    requires Enabled(c, s, e) && e.StartFlow? && fid !in s.state.flows && fid in Next(c, s, e).state.flows
    ensures Next(c, s, e).state.flows[fid].stage == GeneratingQuestion
  {
    StartEffect(c, s, e);
    hide Next, Enabled, HasRoom, NewTask, TemplateOr;
  }

  lemma SameFlows(c: Config, s: Sys, e: Event)
    requires Enabled(c, s, e) && !e.StartFlow?
    ensures Next(c, s, e).state.flows.Keys == s.state.flows.Keys
  {
    hide Next, Enabled, HasRoom, FlowAfterTask;
    match e
    case Submit(_, _, _, _) =>
      if e.flowId in s.state.flows && s.state.flows[e.flowId].stage == WaitingAnswer {
        var f' := SubmitFields(c, s, e);
      } else {
        SubmitIgnored(c, s, e);
      }
    case Finish(_, _, _, _) => FinishEffect(c, s, e);
    case _ => ReworkAdvances(c, s, e);
  }

  /** A flow begins with its question still to be generated. */
  lemma FlowBegins(c: Config, s: Sys, e: Event, fid: nat)
    requires Inv(s) && Enabled(c, s, e) && fid !in s.state.flows
    ensures SignOf(c, s, e, fid) == Nothing
    ensures fid in Next(c, s, e).state.flows ==> Next(c, s, e).state.flows[fid].stage == GeneratingQuestion
  {
    hide Inv, Next, Enabled, SignOf;
    NoFlowNoSign(c, s, e, fid);
    if !e.StartFlow? {
      SameFlows(c, s, e);
    } else if fid in Next(c, s, e).state.flows {
      StartBegins(c, s, e, fid);
    }
  }

  lemma {:induction false} NewFlowExplains(c: Config, s: Sys, es: seq<Event>, threads: nat, fid: nat)
    requires Inv(s) && Legal(c, s, es, threads) && fid !in s.state.flows
    requires fid in After(c, s, es, threads).state.flows
    ensures Explains(GeneratingQuestion,
                     WasPosed(c, s, es, threads, fid), WasTaken(c, s, es, threads, fid),
                     WasTold(c, s, es, threads, fid), WasLost(c, s, es, threads, fid),
                     After(c, s, es, threads).state.flows[fid].stage)
    decreases |es|
  {
    hide Inv, Enabled, Next, SignOf, Explains;
    if |es| != 0 {
      StepKeepsInv(c, s, es[0]);
      FlowBegins(c, s, es[0], fid);
      var s1 := Next(c, s, es[0]);
      if fid in s1.state.flows {
        RunExplains(c, s1, es[1..], threads, fid);
      } else {
        NewFlowExplains(c, s1, es[1..], threads, fid);
      }
    }
  }

  /** From the start: a flow has failed if and only if the last attempt of one of its
      tasks failed or its answer met a full queue, and is completed if and only if its
      explanation was answered in time; otherwise its question is posed, and an answer
      to it taken, if and only if the client answered in time, and an answer was
      submitted while the queue had room. */
  lemma StageIff(c: Config, clock: int, es: seq<Event>, threads: nat, fid: nat)
    requires Legal(c, Initial(clock), es, threads)
    requires fid in After(c, Initial(clock), es, threads).state.flows
    ensures var s := Initial(clock); var stage := After(c, s, es, threads).state.flows[fid].stage;
      && (stage == Failed <==> WasLost(c, s, es, threads, fid))
      && (stage == Completed <==> WasTold(c, s, es, threads, fid))
      && (stage != Failed ==>
            && (stage != GeneratingQuestion <==> WasPosed(c, s, es, threads, fid))
            && (stage == GeneratingExplanation || stage == Completed <==> WasTaken(c, s, es, threads, fid)))
  {
    NewFlowExplains(c, Initial(clock), es, threads, fid);
  }

  /** Once the question task has succeeded the flow has moved on. */
  lemma SucceededMovesOn(c: Config, clock: int, es: seq<Event>, threads: nat, fid: nat)
    requires Legal(c, Initial(clock), es, threads)
    requires fid in After(c, Initial(clock), es, threads).state.flows
    ensures var s := After(c, Initial(clock), es, threads).state; var f := s.flows[fid];
      && f.questionTask in s.tasks
      && (s.tasks[f.questionTask].core.status == Q.Succeeded ==> f.stage != GeneratingQuestion)
      && (f.explanationTask != 0 ==> f.explanationTask in s.tasks)
      && (f.explanationTask != 0 && s.tasks[f.explanationTask].core.status == Q.Succeeded ==>
             f.stage != GeneratingExplanation)
  {
    EveryRun(c, Initial(clock), es, threads);
    assert FlowInv(After(c, Initial(clock), es, threads), fid);
  }
}
