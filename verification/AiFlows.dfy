/** What every interleaving keeps about question flows: their stage only advances,
    and it agrees with the tasks behind it. */
module AiFlows {
  import opened Common
  import opened Prompt
  import opened AiModel
  import Q = TaskQueue

  /** The task may still produce a result: it is queued, or an attempt is in flight
      (also when it has been cancelled meanwhile). */
  ghost predicate IsLive(s: Sys, id: nat)
    requires id in s.state.tasks
  {
    s.state.tasks[id].core.status == Q.Queued || id in s.inflight
  }

  ghost predicate IsPending(t: Task) {
    t.core.status == Q.Queued || t.core.status == Q.Running || t.core.status == Q.Canceled
  }

  ghost predicate Produced(t: Task, text: string) {
    t.core.status == Q.Succeeded && t.response.Some? && t.response.value.text == text
  }

  ghost predicate BelongsTo(t: Task, flowId: nat, kind: Kind) { t.flowId == Some(flowId) && t.kind == kind }

  /** A flow has its question task and at most one explanation task, and no other. */
  ghost predicate FlowTasks(tasks: map<nat, Task>, fid: nat, f: Flow) {
    && f.questionTask in tasks && BelongsTo(tasks[f.questionTask], fid, Question)
    && (f.explanationTask != 0 ==>
          f.explanationTask in tasks && BelongsTo(tasks[f.explanationTask], fid, Explanation)
          && f.explanationTask != f.questionTask)
    && (forall id :: id in tasks && tasks[id].flowId == Some(fid) ==> id == f.questionTask || id == f.explanationTask)
  }

  /** The explanation is asked for with exactly the question posed and the answer given. */
  ghost predicate AsksAbout(t: Task, f: Flow) {
    && t.context == f.context
    && t.context.userInput == f.answer
    && "question" in t.context.metadata && t.context.metadata["question"] == f.question
  }

  /** The stage agrees with the tasks. */
  ghost predicate StageAgrees(s: Sys, f: Flow)
    requires f.questionTask in s.state.tasks
    requires f.explanationTask != 0 ==> f.explanationTask in s.state.tasks
  {
    var q := s.state.tasks[f.questionTask];
    match f.stage
    case GeneratingQuestion => f.explanationTask == 0 && IsPending(q)
    case WaitingAnswer => f.explanationTask == 0 && Produced(q, f.question)
    case GeneratingExplanation =>
      Produced(q, f.question) && f.explanationTask != 0
      && IsPending(s.state.tasks[f.explanationTask]) && AsksAbout(s.state.tasks[f.explanationTask], f)
    case Completed =>
      Produced(q, f.question) && f.explanationTask != 0
      && Produced(s.state.tasks[f.explanationTask], f.explanation) && AsksAbout(s.state.tasks[f.explanationTask], f)
    case Failed =>
      !IsLive(s, f.questionTask) && (f.explanationTask != 0 ==> !IsLive(s, f.explanationTask))
  }

  ghost predicate FlowInv(s: Sys, fid: nat)
    requires fid in s.state.flows
  {
    var f := s.state.flows[fid];
    FlowTasks(s.state.tasks, fid, f) && StageAgrees(s, f)
  }

  ghost predicate IdsInv(s: Sys) {
    && s.state.nextTaskId >= 1
    && (forall id :: id in s.state.tasks ==> 1 <= id < s.state.nextTaskId)
    && (forall fid :: fid in s.state.flows ==> fid < s.state.nextFlowId)
    && (forall id :: id in s.state.tasks && s.state.tasks[id].flowId.Some? ==>
           s.state.tasks[id].flowId.value in s.state.flows)
    && (forall id :: id in s.inflight ==> id in s.state.tasks)
    && (forall id :: id in s.state.tasks ==> s.inflight[id] <= 1)
    && (forall id :: id in s.inflight ==>
          s.state.tasks[id].core.status == Q.Running || s.state.tasks[id].core.status == Q.Canceled)
  }

  ghost predicate Inv(s: Sys) {
    IdsInv(s) && forall fid :: fid in s.state.flows ==> FlowInv(s, fid)
  }

  function Rank(st: Stage): nat {
    match st
    case GeneratingQuestion => 0
    case WaitingAnswer => 1
    case GeneratingExplanation => 2
    case Completed => 3
    case Failed => 4
  }

  /** A flow's history from one state to a later one: the stage only advances, a failed
      or completed flow never changes again, the question is fixed once posed, and the
      answer once the flow has left the waiting stage. */
  ghost predicate Advances(f: Flow, f': Flow) {
    && Rank(f.stage) <= Rank(f'.stage)
    && (f.stage == Failed || f.stage == Completed ==> f' == f)
    && (f.stage != GeneratingQuestion ==> f'.question == f.question)
    && (f.stage != GeneratingQuestion && f.stage != WaitingAnswer ==>
           f'.answer == f.answer && f'.explanationTask == f.explanationTask)
    && f'.questionTask == f.questionTask
  }

  ghost predicate FlowsAdvance(s: State, s': State) {
    forall fid :: fid in s.flows ==> fid in s'.flows && Advances(s.flows[fid], s'.flows[fid])
  }

  // ---------- frames ----------

  /** A change that leaves this flow's tasks, and what is in flight of them, alone. */
  lemma SameFlow(s: Sys, s': Sys, fid: nat)
    requires fid in s.state.flows && FlowInv(s, fid)
    requires fid in s'.state.flows && s'.state.flows[fid] == s.state.flows[fid]
    requires forall id :: id in s.state.tasks ==> id in s'.state.tasks
    requires forall id :: id in s.state.tasks && s.state.tasks[id].flowId == Some(fid) ==>
      s'.state.tasks[id] == s.state.tasks[id] && (id in s'.inflight <==> id in s.inflight)
    requires forall id :: id in s'.state.tasks && s'.state.tasks[id].flowId == Some(fid) ==>
      id in s.state.tasks && s.state.tasks[id].flowId == Some(fid)
    ensures FlowInv(s', fid)
  {
  }

  /** One task of the flow changed only in its scheduling part or its response. */
  ghost predicate Reworked(s: Sys, s': Sys, id: nat) {
    && id in s.state.tasks && id in s'.state.tasks
    && s'.state.tasks == s.state.tasks[id := s'.state.tasks[id]]
    && s'.state.tasks[id].flowId == s.state.tasks[id].flowId
    && s'.state.tasks[id].kind == s.state.tasks[id].kind
    && s'.state.tasks[id].context == s.state.tasks[id].context
    && forall other :: other in s.state.tasks && other != id ==> (other in s'.inflight <==> other in s.inflight)
  }

  lemma ReworkedTasks(s: Sys, s': Sys, id: nat, fid: nat, f: Flow)
    requires Reworked(s, s', id) && FlowTasks(s.state.tasks, fid, f)
    ensures FlowTasks(s'.state.tasks, fid, f)
  {
  }

  lemma OtherFlow(s: Sys, s': Sys, id: nat, fid: nat)
    requires fid in s.state.flows && FlowInv(s, fid) && Reworked(s, s', id)
    requires s.state.tasks[id].flowId != Some(fid)
    requires fid in s'.state.flows && s'.state.flows[fid] == s.state.flows[fid]
    ensures FlowInv(s', fid)
  {
    SameFlow(s, s', fid);
  }

  // ---------- what each step does ----------

  lemma StartEffect(c: Config, s: Sys, e: Event)
    requires Enabled(c, s, e) && e.StartFlow?
    ensures var s' := Next(c, s, e); var st := s.state; var fid := st.nextFlowId;
      && s'.inflight == s.inflight
      && if HasRoom(c, st) then
           var t := NewTask(c, Question, e.ctx, TemplateOr(e.questionTemplate, c.questionPrompt),
             Some(fid), e.order, e.now);
           s'.state == State(st.nextTaskId + 1, fid + 1, st.tasks[st.nextTaskId := t],
             st.flows[fid := Flow(GeneratingQuestion, e.ctx, st.nextTaskId, 0,
                                  TemplateOr(e.explanationTemplate, c.explanationPrompt), "", "", "", "")])
         else s'.state == st.(nextFlowId := fid + 1)
  {
    hide NewTask, Rendered, TemplateOr;
  }

  lemma SubmitIgnored(c: Config, s: Sys, e: Event)
    requires Enabled(c, s, e) && e.Submit?
    requires !(e.flowId in s.state.flows && s.state.flows[e.flowId].stage == WaitingAnswer)
    ensures Next(c, s, e) == s.(clock := e.now)
  {
  }

  lemma EnqueueEffect(c: Config, s: Sys, e: Event)
    requires Enabled(c, s, e) && e.Enqueue?
    ensures var s' := Next(c, s, e); var st := s.state;
      && s'.inflight == s.inflight
      && (s'.state == st
          || s'.state == st.(nextTaskId := st.nextTaskId + 1,
               tasks := st.tasks[st.nextTaskId := NewTask(c, e.kind, e.ctx, e.template, None, e.order, e.now)]))
  {
    hide NewTask, Rendered, TemplateOr;
  }

  lemma CancelEffect(c: Config, s: Sys, e: Event)
    requires Enabled(c, s, e) && e.Cancel?
    ensures var s' := Next(c, s, e); var st := s.state;
      && s'.inflight == s.inflight
      && if e.id !in st.tasks || st.tasks[e.id].core.status == Q.Succeeded || st.tasks[e.id].core.status == Q.Failed
         then s'.state == st
         else
           var t := st.tasks[e.id];
           s'.state == st.(tasks := st.tasks[e.id := t.(core := Q.Cancelled(t.core, e.now))])
  {
  }

  lemma TakeEffect(c: Config, s: Sys, e: Event)
    requires Enabled(c, s, e) && e.Take?
    ensures var s' := Next(c, s, e); var st := s.state;
      && e.id in st.tasks && st.tasks[e.id].core.status == Q.Queued
      && s'.inflight == s.inflight + multiset{e.id}
      && s'.state == st.(tasks := st.tasks[e.id := st.tasks[e.id].(core := Q.Started(st.tasks[e.id].core, e.now))])
  {
    assert s.state.tasks[e.id].core == Cores(s.state.tasks)[e.id];
  }

  lemma FinishEffect(c: Config, s: Sys, e: Event)
    requires Enabled(c, s, e) && e.Finish?
    ensures var s' := Next(c, s, e); var st := s.state;
      && e.id in st.tasks && e.id in s'.state.tasks
      && s'.inflight == s.inflight - multiset{e.id}
      && var t, t' := st.tasks[e.id], s'.state.tasks[e.id];
      && t'.flowId == t.flowId && t'.kind == t.kind && t'.context == t.context && t'.response.Some?
      && t'.core.status in {Q.Succeeded, Q.Queued, Q.Failed, Q.TimedOut}
      && s'.state == st.(tasks := st.tasks[e.id := t'],
           flows := if t'.core.status == Q.Queued || t.flowId.None? || t.flowId.value !in st.flows then st.flows
                    else st.flows[t.flowId.value := FlowAfterTask(st.flows[t.flowId.value], t')])
  {
    hide FlowAfterTask, Q.MaxAttempts;
  }

  // ---------- cancel and take ----------

  /** Cancelling leaves every stage as it was; a failed flow stays without live tasks. */
  lemma CancelKeepsFlow(c: Config, s: Sys, e: Event, fid: nat)
    requires Inv(s) && Enabled(c, s, e) && e.Cancel? && fid in s.state.flows
    ensures FlowInv(Next(c, s, e), fid)
  {
    hide Next, Enabled;
    CancelEffect(c, s, e);
    var s' := Next(c, s, e);
    assert FlowInv(s, fid);
    hide Inv, FlowInv;
    if s'.state == s.state {
      SameFlow(s, s', fid);
    } else if s.state.tasks[e.id].flowId != Some(fid) {
      OtherFlow(s, s', e.id, fid);
    } else {
      OwnCancel(s, s', e.id, fid, e.now);
    }
  }

  lemma OwnCancel(s: Sys, s': Sys, id: nat, fid: nat, now: int)
    requires id in s.state.tasks && fid in s.state.flows && FlowInv(s, fid)
    requires s.state.tasks[id].core.status != Q.Succeeded
    requires s'.state ==
        s.state.(tasks := s.state.tasks[id := s.state.tasks[id].(core := Q.Cancelled(s.state.tasks[id].core, now))])
    requires s'.inflight == s.inflight
    ensures FlowInv(s', fid)
  {
    ReworkedTasks(s, s', id, fid, s.state.flows[fid]);
  }

  lemma TakeKeepsFlow(c: Config, s: Sys, e: Event, fid: nat)
    requires Inv(s) && Enabled(c, s, e) && e.Take? && fid in s.state.flows
    ensures FlowInv(Next(c, s, e), fid)
  {
    TakeEffect(c, s, e);
    hide Next, Enabled, IdsInv;
    var s' := Next(c, s, e);
    ReworkedTasks(s, s', e.id, fid, s.state.flows[fid]);
    if s.state.tasks[e.id].flowId != Some(fid) { OtherFlow(s, s', e.id, fid); }
  }

  // ---------- new tasks ----------

  /** A task that is not of this flow is added. */
  lemma AddedElsewhere(s: Sys, s': Sys, t: Task, fid: nat)
    requires fid in s.state.flows && FlowInv(s, fid) && s.state.nextTaskId !in s.state.tasks
    requires s'.state.tasks == s.state.tasks[s.state.nextTaskId := t] && t.flowId != Some(fid)
    requires s'.inflight == s.inflight && fid in s'.state.flows && s'.state.flows[fid] == s.state.flows[fid]
    ensures FlowInv(s', fid)
  {
    hide FlowInv;
    SameFlow(s, s', fid);
  }

  /** A flow is added together with its question task. */
  lemma AddedFlow(s: Sys, s': Sys, t: Task, fid: nat)
    requires forall id :: id in s.state.tasks ==> s.state.tasks[id].flowId != Some(fid)
    requires s'.state.tasks == s.state.tasks[s.state.nextTaskId := t]
    requires BelongsTo(t, fid, Question) && t.core.status == Q.Queued && fid in s'.state.flows
    requires var f := s'.state.flows[fid];
      f.stage == GeneratingQuestion && f.questionTask == s.state.nextTaskId && f.explanationTask == 0
    ensures FlowInv(s', fid)
  {
    hide AsksAbout, Produced;
  }

  lemma EnqueueKeepsFlow(c: Config, s: Sys, e: Event, fid: nat)
    requires Inv(s) && Enabled(c, s, e) && e.Enqueue? && fid in s.state.flows
    ensures FlowInv(Next(c, s, e), fid)
  {
    EnqueueEffect(c, s, e);
    assert FlowInv(s, fid) && s.state.nextTaskId !in s.state.tasks;
    hide Next, Enabled, Rendered, Inv, FlowInv;
    var s' := Next(c, s, e);
    if s'.state == s.state {
      ClockOnly(s, s', fid);
    } else {
      AddedElsewhere(s, s', s'.state.tasks[s.state.nextTaskId], fid);
    }
  }

  lemma StartKeepsFlow(c: Config, s: Sys, e: Event, fid: nat)
    requires Inv(s) && Enabled(c, s, e) && e.StartFlow?
    requires fid in Next(c, s, e).state.flows
    ensures FlowInv(Next(c, s, e), fid)
  {
    StartEffect(c, s, e);
    assert s.state.nextTaskId !in s.state.tasks && s.state.nextFlowId !in s.state.flows;
    assert fid in s.state.flows ==> FlowInv(s, fid);
    NoTaskOf(s, s.state.nextFlowId);
    hide Next, Enabled, Rendered, TemplateOr, HasRoom, Inv, FlowInv;
    var s' := Next(c, s, e);
    if HasRoom(c, s.state) {
      var t := s'.state.tasks[s.state.nextTaskId];
      if fid == s.state.nextFlowId { AddedFlow(s, s', t, fid); } else { AddedElsewhere(s, s', t, fid); }
    } else {
      SameFlow(s, s', fid);
    }
  }

  lemma NoTaskOf(s: Sys, fid: nat)
    requires IdsInv(s) && fid !in s.state.flows
    ensures forall id :: id in s.state.tasks ==> s.state.tasks[id].flowId != Some(fid)
  {
  }

  /** A submitted answer's effect on its flow, field by field. */
  lemma SubmitFields(c: Config, s: Sys, e: Event) returns (f': Flow)
    requires Enabled(c, s, e) && e.Submit? && e.flowId in s.state.flows &&
      s.state.flows[e.flowId].stage == WaitingAnswer
    ensures var s' := Next(c, s, e); var f := s.state.flows[e.flowId];
      && s'.inflight == s.inflight
      && s'.state.flows == s.state.flows[e.flowId := f']
      && f'.question == f.question && f'.questionTask == f.questionTask && f'.answer == e.answer
      && f'.explanationTask == (if HasRoom(c, s.state) then s.state.nextTaskId else f.explanationTask)
      && f'.stage == (if HasRoom(c, s.state) then GeneratingExplanation else Failed)
      && (!HasRoom(c, s.state) ==> s'.state.tasks == s.state.tasks && s'.state.nextTaskId == s.state.nextTaskId)
      && (HasRoom(c, s.state) ==>
            && s'.state.nextTaskId == s.state.nextTaskId + 1
            && s.state.nextTaskId in s'.state.tasks
            && var t := s'.state.tasks[s.state.nextTaskId];
            && s'.state.tasks == s.state.tasks[s.state.nextTaskId := t]
            && t.core.status == Q.Queued && BelongsTo(t, e.flowId, Explanation) && AsksAbout(t, f'))
      && s'.state.nextFlowId == s.state.nextFlowId
  {
    hide Rendered, HasRoom;
    f' := Next(c, s, e).state.flows[e.flowId];
  }

  /** An answered flow whose explanation task was queued. */
  lemma AnswerQueued(s: Sys, s': Sys, fid: nat, f: Flow, f': Flow, id: nat)
    requires FlowTasks(s.state.tasks, fid, f) && StageAgrees(s, f) && f.stage == WaitingAnswer
    requires id !in s.state.tasks && id != 0 && id in s'.state.tasks && 0 !in s.state.tasks
    requires s'.state.tasks == s.state.tasks[id := s'.state.tasks[id]] && s'.inflight == s.inflight
    requires s'.state.tasks[id].core.status == Q.Queued && BelongsTo(s'.state.tasks[id], fid, Explanation)
    requires AsksAbout(s'.state.tasks[id], f')
    requires f'.stage == GeneratingExplanation && f'.explanationTask == id
    requires f'.question == f.question && f'.questionTask == f.questionTask
    ensures FlowTasks(s'.state.tasks, fid, f') && StageAgrees(s', f')
  {
    hide AsksAbout;
  }

  /** An answered flow whose explanation found the queue full. */
  lemma AnswerNotQueued(s: Sys, s': Sys, fid: nat, f: Flow, f': Flow)
    requires FlowTasks(s.state.tasks, fid, f) && StageAgrees(s, f) && f.stage == WaitingAnswer
    requires f.questionTask !in s.inflight
    requires s'.state.tasks == s.state.tasks && s'.inflight == s.inflight
    requires f'.stage == Failed && f'.explanationTask == f.explanationTask && f'.questionTask == f.questionTask
    ensures FlowTasks(s'.state.tasks, fid, f') && StageAgrees(s', f')
  {
    hide AsksAbout;
    assert f.explanationTask == 0 && Produced(s.state.tasks[f.questionTask], f.question);
    assert !IsLive(s', f.questionTask);
  }

  lemma ClockOnly(s: Sys, s': Sys, fid: nat)
    requires fid in s.state.flows && FlowInv(s, fid) && s'.state == s.state && s'.inflight == s.inflight
    ensures FlowInv(s', fid)
  {
    hide AsksAbout, Produced;
  }

  /** Another flow's answer: at most one task of that other flow is added. */
  lemma SubmitElsewhere(c: Config, s: Sys, e: Event, fid: nat)
    requires Inv(s) && Enabled(c, s, e) && e.Submit? && fid in s.state.flows && fid in Next(c, s, e).state.flows
    requires e.flowId in s.state.flows && s.state.flows[e.flowId].stage == WaitingAnswer && fid != e.flowId
    ensures FlowInv(Next(c, s, e), fid)
  {
    hide Next, Enabled, HasRoom, AsksAbout;
    var s' := Next(c, s, e);
    assert FlowInv(s, fid) && s.state.nextTaskId !in s.state.tasks;
    hide Inv, IdsInv, FlowInv;
    var f' := SubmitFields(c, s, e);
    if HasRoom(c, s.state) {
      AddedElsewhere(s, s', s'.state.tasks[s.state.nextTaskId], fid);
    } else {
      SameFlow(s, s', fid);
    }
  }

  lemma SubmitKeepsOthers(c: Config, s: Sys, e: Event, fid: nat)
    requires Inv(s) && Enabled(c, s, e) && e.Submit? && fid in s.state.flows && fid in Next(c, s, e).state.flows
    requires fid != e.flowId || s.state.flows[fid].stage != WaitingAnswer
    ensures FlowInv(Next(c, s, e), fid)
  {
    hide Next, Enabled;
    assert FlowInv(s, fid);
    hide Inv, FlowInv;
    if e.flowId in s.state.flows && s.state.flows[e.flowId].stage == WaitingAnswer {
      SubmitElsewhere(c, s, e, fid);
    } else {
      SubmitIgnored(c, s, e);
      ClockOnly(s, Next(c, s, e), fid);
    }
  }

  lemma SubmitKeepsFlow(c: Config, s: Sys, e: Event, fid: nat)
    requires Inv(s) && Enabled(c, s, e) && e.Submit? && fid in s.state.flows && fid in Next(c, s, e).state.flows
    ensures FlowInv(Next(c, s, e), fid)
  {
    hide Next, Enabled, HasRoom, AsksAbout, StageAgrees, FlowTasks;
    var s' := Next(c, s, e);
    var f := s.state.flows[fid];
    assert FlowInv(s, fid);
    if fid == e.flowId && f.stage == WaitingAnswer {
      assert s.state.nextTaskId !in s.state.tasks && s.state.nextTaskId != 0 && 0 !in s.state.tasks;
      WaitingAtRest(s, fid);
      var f' := SubmitFields(c, s, e);
      if HasRoom(c, s.state) {
        AnswerQueued(s, s', fid, f, f', s.state.nextTaskId);
      } else {
        AnswerNotQueued(s, s', fid, f, f');
      }
    } else {
      SubmitKeepsOthers(c, s, e, fid);
    }
  }

  lemma WaitingAtRest(s: Sys, fid: nat)
    requires Inv(s) && fid in s.state.flows && s.state.flows[fid].stage == WaitingAnswer
    ensures s.state.flows[fid].questionTask !in s.inflight
  {
    assert FlowInv(s, fid);
  }

  // ---------- finish ----------

  lemma FinishKeepsFlow(c: Config, s: Sys, e: Event, fid: nat)
    requires Inv(s) && Enabled(c, s, e) && e.Finish? && fid in s.state.flows
    requires fid in Next(c, s, e).state.flows
    ensures FlowInv(Next(c, s, e), fid)
  {
    hide Next, Enabled;
    FinishEffect(c, s, e);
    if s.state.tasks[e.id].flowId != Some(fid) {
      hide FlowAfterTask;
      OtherFlow(s, Next(c, s, e), e.id, fid);
    } else {
      OwnFinish(c, s, e, fid);
    }
  }

  /** Only the task the stage is waiting for can be in flight. */
  lemma AwaitedTask(s: Sys, id: nat, fid: nat)
    requires Inv(s) && id in s.inflight && id in s.state.tasks && s.state.tasks[id].flowId == Some(fid)
    ensures fid in s.state.flows && var f := s.state.flows[fid];
      || (f.stage == GeneratingQuestion && id == f.questionTask)
      || (f.stage == GeneratingExplanation && id == f.explanationTask)
  {
    assert fid in s.state.flows && FlowInv(s, fid);
  }

  lemma AsksTheSame(t: Task, t': Task, f: Flow, f': Flow)
    requires AsksAbout(t, f) && t'.context == t.context
    requires f'.context == f.context && f'.question == f.question && f'.answer == f.answer
    ensures AsksAbout(t', f')
  {
  }

  /** The flow's question task ends an attempt while the question is awaited. */
  lemma QuestionFinished(s: Sys, s': Sys, fid: nat, f: Flow, t': Task)
    requires Reworked(s, s', f.questionTask) && s'.state.tasks[f.questionTask] == t' && f.questionTask !in s'.inflight
    requires FlowTasks(s.state.tasks, fid, f) && StageAgrees(s, f) && f.stage == GeneratingQuestion
    requires t'.response.Some? && t'.core.status in {Q.Succeeded, Q.Queued, Q.Failed, Q.TimedOut}
    ensures var f' := if t'.core.status == Q.Queued then f else FlowAfterTask(f, t');
      FlowTasks(s'.state.tasks, fid, f') && StageAgrees(s', f') && Advances(f, f')
  {
    hide AsksAbout;
    ReworkedTasks(s, s', f.questionTask, fid, f);
  }

  /** The flow's explanation task ends an attempt while the explanation is awaited. */
  lemma ExplanationFinished(s: Sys, s': Sys, fid: nat, f: Flow, t': Task)
    requires f.explanationTask != 0
    requires Reworked(s, s', f.explanationTask) &&
      s'.state.tasks[f.explanationTask] == t' && f.explanationTask !in s'.inflight
    requires FlowTasks(s.state.tasks, fid, f) && StageAgrees(s, f) && f.stage == GeneratingExplanation
    requires f.questionTask !in s.inflight
    requires t'.response.Some? && t'.core.status in {Q.Succeeded, Q.Queued, Q.Failed, Q.TimedOut}
    ensures var f' := if t'.core.status == Q.Queued then f else FlowAfterTask(f, t');
      FlowTasks(s'.state.tasks, fid, f') && StageAgrees(s', f') && Advances(f, f')
  {
    hide AsksAbout;
    ReworkedTasks(s, s', f.explanationTask, fid, f);
    var f' := if t'.core.status == Q.Queued then f else FlowAfterTask(f, t');
    if f'.stage != Failed { AsksTheSame(s.state.tasks[f.explanationTask], t', f, f'); }
  }

  /** An attempt of the flow's own task ends, and its outcome moves the stage on
      consistently. */
  lemma OwnFinish(c: Config, s: Sys, e: Event, fid: nat)
    requires Inv(s) && Enabled(c, s, e) && e.Finish? && fid in s.state.flows
    requires e.id in s.state.tasks && s.state.tasks[e.id].flowId == Some(fid)
    requires fid in Next(c, s, e).state.flows
    ensures FlowInv(Next(c, s, e), fid)
    ensures Advances(s.state.flows[fid], Next(c, s, e).state.flows[fid])
  {
    FinishEffect(c, s, e);
    FinishIsInFlight(c, s, e);
    hide Next, Enabled, FlowAfterTask, Advances, StageAgrees;
    AwaitedTask(s, e.id, fid);
    var s' := Next(c, s, e);
    var f := s.state.flows[fid];
    assert FlowInv(s, fid) && s.inflight[e.id] <= 1;
    if f.stage == GeneratingQuestion {
      QuestionFinished(s, s', fid, f, s'.state.tasks[e.id]);
    } else {
      SucceededAtRest(s, fid);
      ExplanationFinished(s, s', fid, f, s'.state.tasks[e.id]);
    }
  }

  lemma SucceededAtRest(s: Sys, fid: nat)
    requires Inv(s) && fid in s.state.flows && s.state.flows[fid].stage == GeneratingExplanation
    ensures s.state.flows[fid].questionTask !in s.inflight
  {
    assert FlowInv(s, fid);
  }

  // ---------- every step ----------

  lemma StepKeepsFlow(c: Config, s: Sys, e: Event, fid: nat)
    requires Inv(s) && Enabled(c, s, e) && fid in Next(c, s, e).state.flows
    ensures FlowInv(Next(c, s, e), fid)
  {
    StepFlowIds(c, s, e, fid);
    hide FlowInv, Inv, Enabled, Next;
    match e
    case StartFlow(_, _, _, _, _) => StartKeepsFlow(c, s, e, fid);
    case Submit(_, _, _, _) => SubmitKeepsFlow(c, s, e, fid);
    case Enqueue(_, _, _, _, _) => EnqueueKeepsFlow(c, s, e, fid);
    case Cancel(_, _) => CancelKeepsFlow(c, s, e, fid);
    case Take(_, _) => TakeKeepsFlow(c, s, e, fid);
    case Finish(_, _, _, _) => FinishKeepsFlow(c, s, e, fid);
  }

  /** Only starting a flow adds one. */
  lemma StepFlowIds(c: Config, s: Sys, e: Event, fid: nat)
    requires Enabled(c, s, e)
    ensures fid in s.state.flows ==> fid in Next(c, s, e).state.flows
    ensures fid in Next(c, s, e).state.flows && !e.StartFlow? ==> fid in s.state.flows
  {
    hide Rendered, Q.Finished;
  }

  lemma IdsAfterAdd(s: Sys, s': Sys, t: Task)
    requires IdsInv(s) && s'.inflight == s.inflight
    requires s'.state.nextTaskId == s.state.nextTaskId + 1 && s'.state.nextFlowId >= s.state.nextFlowId
    requires s'.state.tasks == s.state.tasks[s.state.nextTaskId := t]
    requires forall fid :: fid in s.state.flows ==> fid in s'.state.flows
    requires forall fid :: fid in s'.state.flows ==> fid < s'.state.nextFlowId
    requires t.flowId.Some? ==> t.flowId.value in s'.state.flows
    ensures IdsInv(s')
  {
  }

  lemma IdsAfterRework(s: Sys, s': Sys, id: nat, t: Task)
    requires IdsInv(s) && id in s.state.tasks
    requires s'.state.nextTaskId == s.state.nextTaskId && s'.state.nextFlowId == s.state.nextFlowId
    requires s'.state.tasks == s.state.tasks[id := t] && t.flowId == s.state.tasks[id].flowId
    requires forall fid :: fid in s'.state.flows <==> fid in s.state.flows
    requires forall other :: other != id ==> s'.inflight[other] == s.inflight[other]
    requires s'.inflight[id] <= 1
    requires id in s'.inflight ==> t.core.status == Q.Running || t.core.status == Q.Canceled
    ensures IdsInv(s')
  {
  }

  lemma StartKeepsIds(c: Config, s: Sys, e: Event)
    requires IdsInv(s) && Enabled(c, s, e) && e.StartFlow?
    ensures IdsInv(Next(c, s, e))
  {
    StartEffect(c, s, e);
    hide Next, Enabled, Rendered, TemplateOr, HasRoom;
    var s' := Next(c, s, e);
    if HasRoom(c, s.state) { IdsAfterAdd(s, s', s'.state.tasks[s.state.nextTaskId]); }
  }

  lemma SubmitKeepsIds(c: Config, s: Sys, e: Event)
    requires IdsInv(s) && Enabled(c, s, e) && e.Submit?
    ensures IdsInv(Next(c, s, e))
  {
    if e.flowId in s.state.flows && s.state.flows[e.flowId].stage == WaitingAnswer {
      hide Next, Enabled, HasRoom, AsksAbout;
      var f' := SubmitFields(c, s, e);
      var s' := Next(c, s, e);
      if HasRoom(c, s.state) { IdsAfterAdd(s, s', s'.state.tasks[s.state.nextTaskId]); }
    } else {
      SubmitIgnored(c, s, e);
      hide Next, Enabled;
    }
  }

  lemma EnqueueKeepsIds(c: Config, s: Sys, e: Event)
    requires IdsInv(s) && Enabled(c, s, e) && e.Enqueue?
    ensures IdsInv(Next(c, s, e))
  {
    EnqueueEffect(c, s, e);
    hide Next, Enabled, Rendered, TemplateOr;
    var s' := Next(c, s, e);
    if s'.state != s.state { IdsAfterAdd(s, s', s'.state.tasks[s.state.nextTaskId]); }
  }

  lemma SameIds(s: Sys, s': Sys)
    requires IdsInv(s) && s'.state == s.state && s'.inflight == s.inflight
    ensures IdsInv(s')
  {
  }

  lemma AtMostOnce(s: Sys, id: nat)
    requires IdsInv(s)
    ensures s.inflight[id] <= 1
    ensures id in s.inflight ==> id in s.state.tasks && s.state.tasks[id].core.status in {Q.Running, Q.Canceled}
  {
    if id in s.inflight { assert id in s.state.tasks; }
  }

  lemma ReworkKeepsIds(c: Config, s: Sys, e: Event)
    requires IdsInv(s) && Enabled(c, s, e) && (e.Cancel? || e.Take? || e.Finish?)
    ensures IdsInv(Next(c, s, e))
  {
    hide Next, Enabled, FlowAfterTask, IdsInv;
    var s' := Next(c, s, e);
    AtMostOnce(s, e.id);
    match e
    case Cancel(id, _) =>
      CancelEffect(c, s, e);
      if s'.state != s.state { IdsAfterRework(s, s', id, s'.state.tasks[id]); } else { SameIds(s, s'); }
    case Take(id, _) =>
      TakeEffect(c, s, e);
      IdsAfterRework(s, s', id, s'.state.tasks[id]);
    case Finish(id, _, _, _) =>
      FinishEffect(c, s, e);
      FinishIsInFlight(c, s, e);
      IdsAfterRework(s, s', id, s'.state.tasks[id]);
    case _ => assert false;
  }

  lemma StepKeepsIds(c: Config, s: Sys, e: Event)
    requires IdsInv(s) && Enabled(c, s, e)
    ensures IdsInv(Next(c, s, e))
  {
    hide IdsInv, Enabled, Next;
    match e
    case StartFlow(_, _, _, _, _) => StartKeepsIds(c, s, e);
    case Submit(_, _, _, _) => SubmitKeepsIds(c, s, e);
    case Enqueue(_, _, _, _, _) => EnqueueKeepsIds(c, s, e);
    case _ => ReworkKeepsIds(c, s, e);
  }

  lemma FinishIsInFlight(c: Config, s: Sys, e: Event)
    requires Enabled(c, s, e) && e.Finish?
    ensures e.id in s.inflight
  {
  }

  /** Every step keeps the flow invariant. */
  lemma StepKeepsInv(c: Config, s: Sys, e: Event)
    requires Inv(s) && Enabled(c, s, e)
    ensures Inv(Next(c, s, e))
  {
    StepKeepsIds(c, s, e);
    forall fid | fid in Next(c, s, e).state.flows ensures FlowInv(Next(c, s, e), fid) {
      StepKeepsFlow(c, s, e, fid);
    }
  }

  /** Every step only advances flows. */
  lemma StepAdvances(c: Config, s: Sys, e: Event)
    requires Inv(s) && Enabled(c, s, e)
    ensures FlowsAdvance(s.state, Next(c, s, e).state)
  {
    var s' := Next(c, s, e);
    forall fid | fid in s.state.flows
      ensures fid in s'.state.flows && Advances(s.state.flows[fid], s'.state.flows[fid]) {
      StepFlowIds(c, s, e, fid);
      FlowAdvances(c, s, e, fid);
    }
  }

  lemma SubmitAdvances(c: Config, s: Sys, e: Event, fid: nat)
    requires Enabled(c, s, e) && e.Submit? && fid in s.state.flows && fid in Next(c, s, e).state.flows
    ensures Advances(s.state.flows[fid], Next(c, s, e).state.flows[fid])
  {
    hide Next, Enabled, HasRoom, AsksAbout;
    if e.flowId in s.state.flows && s.state.flows[e.flowId].stage == WaitingAnswer {
      var f' := SubmitFields(c, s, e);
    } else {
      SubmitIgnored(c, s, e);
    }
  }

  /** Starting a flow leaves the others as they were. */
  lemma StartAdvances(c: Config, s: Sys, e: Event, fid: nat)
    requires Inv(s) && Enabled(c, s, e) && e.StartFlow? && fid in s.state.flows
    ensures fid in Next(c, s, e).state.flows && Next(c, s, e).state.flows[fid] == s.state.flows[fid]
  {
    assert s.state.nextFlowId !in s.state.flows;
    StartEffect(c, s, e);
    hide Next, Enabled, Inv, NewTask, HasRoom, TemplateOr;
  }

  lemma ReworkAdvances(c: Config, s: Sys, e: Event)
    requires Enabled(c, s, e) && (e.Enqueue? || e.Cancel? || e.Take?)
    ensures Next(c, s, e).state.flows == s.state.flows
  {
    hide Next, Enabled, NewTask;
    match e
    case Enqueue(_, _, _, _, _) => EnqueueEffect(c, s, e);
    case Cancel(_, _) => CancelEffect(c, s, e);
    case Take(_, _) => TakeEffect(c, s, e);
  }

  lemma FinishAdvances(c: Config, s: Sys, e: Event, fid: nat)
    requires Inv(s) && Enabled(c, s, e) && e.Finish? && fid in s.state.flows && fid in Next(c, s, e).state.flows
    ensures Advances(s.state.flows[fid], Next(c, s, e).state.flows[fid])
  {
    FinishEffect(c, s, e);
    StandsStill(s.state.flows[fid]);
    hide Next, Enabled, Inv, FlowAfterTask, Advances;
    if s.state.tasks[e.id].flowId == Some(fid) { OwnFinish(c, s, e, fid); }
  }

  lemma FlowAdvances(c: Config, s: Sys, e: Event, fid: nat)
    requires Inv(s) && Enabled(c, s, e) && fid in s.state.flows && fid in Next(c, s, e).state.flows
    ensures Advances(s.state.flows[fid], Next(c, s, e).state.flows[fid])
  {
    StandsStill(s.state.flows[fid]);
    hide Next, Enabled, Inv, Advances;
    match e
    case StartFlow(_, _, _, _, _) => StartAdvances(c, s, e, fid);
    case Submit(_, _, _, _) => SubmitAdvances(c, s, e, fid);
    case Finish(_, _, _, _) => FinishAdvances(c, s, e, fid);
    case _ => ReworkAdvances(c, s, e);
  }

  lemma StandsStill(f: Flow)
    ensures Advances(f, f)
  {
  }

  lemma AdvancesTransitive(a: State, b: State, d: State)
    requires FlowsAdvance(a, b) && FlowsAdvance(b, d)
    ensures FlowsAdvance(a, d)
  {
  }

  /** Every run, however calls interleave, keeps the flow invariant and only advances
      flows: stages never go back, failed and completed flows are final, and questions
      and answers are never changed once set. */
  lemma {:induction false} EveryRun(c: Config, s: Sys, es: seq<Event>, threads: nat)
    requires Inv(s) && Legal(c, s, es, threads)
    ensures Inv(After(c, s, es, threads))
    ensures FlowsAdvance(s.state, After(c, s, es, threads).state)
    decreases |es|
  {
    hide Inv, Enabled, Next, Advances;
    if |es| != 0 {
      StepKeepsInv(c, s, es[0]);
      StepAdvances(c, s, es[0]);
      EveryRun(c, Next(c, s, es[0]), es[1..], threads);
      AdvancesTransitive(s.state, Next(c, s, es[0]).state, After(c, s, es, threads).state);
    } else {
      StandingStill(s.state);
    }
  }

  lemma StandingStill(s: State)
    ensures FlowsAdvance(s, s)
  {
  }

  ghost predicate Explained(t: Task, fid: nat, f: Flow) {
    BelongsTo(t, fid, Explanation) && Produced(t, f.explanation) && AsksAbout(t, f)
  }

  /** From the start: a flow that is waiting or further on has its question from its
      question task, and a completed one its explanation from its explanation task. */
  lemma StageTellsTasks(c: Config, clock: int, es: seq<Event>, threads: nat, fid: nat)
    requires Legal(c, Initial(clock), es, threads)
    requires fid in After(c, Initial(clock), es, threads).state.flows
    ensures var s := After(c, Initial(clock), es, threads).state; var f := s.flows[fid];
      && f.questionTask in s.tasks && BelongsTo(s.tasks[f.questionTask], fid, Question)
      && (forall a, b, kind | a in s.tasks && b in s.tasks ::
            BelongsTo(s.tasks[a], fid, kind) && BelongsTo(s.tasks[b], fid, kind) ==> a == b)
      && (f.stage in {WaitingAnswer, GeneratingExplanation, Completed} ==>
             Produced(s.tasks[f.questionTask], f.question))
      && (f.stage == Completed ==> f.explanationTask in s.tasks && Explained(s.tasks[f.explanationTask], fid, f))
  {
    EveryRun(c, Initial(clock), es, threads);
    assert FlowInv(After(c, Initial(clock), es, threads), fid);
  }
}
