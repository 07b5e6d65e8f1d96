/** The AI orchestrator's tasks and question flows as values, its locked blocks as
    functions, and its behaviour under interleaved calls as a state machine. */
module AiModel {
  import opened Common
  import opened Prompt
  import Q = TaskQueue

  datatype Kind = Question | Explanation | Hint
  datatype Stage = GeneratingQuestion | WaitingAnswer | GeneratingExplanation | Completed | Failed
  datatype Response = Response(ok: bool, text: string, error: string)

  datatype Task = Task(core: Q.Core, flowId: Option<nat>, kind: Kind, context: Context, template: string,
                       prompt: string, lastError: string, response: Option<Response>)

  /** A question flow; task id 0 stands for a task not created yet. */
  datatype Flow = Flow(stage: Stage, context: Context, questionTask: nat, explanationTask: nat,
                       explanationTemplate: string, question: string, answer: string, explanation: string,
                       error: string)

  datatype Config = Config(queue: Q.Config, questionPrompt: string, explanationPrompt: string)

  datatype State = State(nextTaskId: nat, nextFlowId: nat, tasks: map<nat, Task>, flows: map<nat, Flow>)

  const INITIAL := State(1, 1, map[], map[])
  const QUEUE_FULL := "AI task queue is full"
  const REQUEST_TIMED_OUT := "AI request timed out"
  const REQUEST_FAILED := "AI request failed"

  /** What scheduling sees of the tasks. */
  function Cores(tasks: map<nat, Task>): map<nat, Q.Core> { map id | id in tasks :: tasks[id].core }

  predicate OrderOf(order: seq<string>, metadata: map<string, string>) {
    forall k :: k in order ==> k in metadata
  }

  // ---------- locked blocks ----------

  function TemplateOr(template: string, default: string): string { if |template| == 0 then default else template }

  function DefaultPrompt(c: Config, kind: Kind): string {
    if kind == Explanation then c.explanationPrompt else c.questionPrompt
  }

  function NewTask(c: Config, kind: Kind, ctx: Context, template: string, flowId: Option<nat>, order: seq<string>,
                   now: int): Task
    requires OrderOf(order, ctx.metadata)
  {
    var used := TemplateOr(template, DefaultPrompt(c, kind));
    Task(Q.NewTask(now), flowId, kind, ctx, used, Rendered(used, ctx, order), "", None)
  }

  predicate HasRoom(c: Config, s: State) { |Q.ActiveIds(Cores(s.tasks))| < c.queue.capacity }

  function EnqueueTask(c: Config, s: State, kind: Kind, ctx: Context, template: string, flowId: Option<nat>,
                       order: seq<string>, now: int): (State, Option<nat>)
    requires OrderOf(order, ctx.metadata)
  {
    if !HasRoom(c, s) then (s, None)
    else
      (s.(nextTaskId := s.nextTaskId + 1,
          tasks := s.tasks[s.nextTaskId := NewTask(c, kind, ctx, template, flowId, order, now)]),
       Some(s.nextTaskId))
  }

  function StartQuestionFlow(c: Config, s: State, ctx: Context, questionTemplate: string, explanationTemplate: string,
                             order: seq<string>, now: int): (State, Option<nat>)
    requires OrderOf(order, ctx.metadata)
  {
    var id := s.nextFlowId;
    var (s1, task) := EnqueueTask(c, s.(nextFlowId := id + 1), Question, ctx,
                                  TemplateOr(questionTemplate, c.questionPrompt), Some(id), order, now);
    if task.None? then (s1, None)
    else
      var flow := Flow(GeneratingQuestion, ctx, task.value, 0, TemplateOr(explanationTemplate, c.explanationPrompt),
                       "", "", "", "");
      (s1.(flows := s1.flows[id := flow]), Some(id))
  }

  /** The flow's context once it is asked to explain an answer. */
  function AnsweredContext(flow: Flow, answer: string): Context {
    flow.context.(userInput := answer, metadata := flow.context.metadata["question" := flow.question])
  }

  datatype SubmitResult = FlowNotFound | NotWaiting | NotQueued | Submitted(task: nat)

  function SubmitAnswer(c: Config, s: State, flowId: nat, answer: string, order: seq<string>, now: int)
    : (State, SubmitResult)
    requires flowId in s.flows ==> OrderOf(order, AnsweredContext(s.flows[flowId], answer).metadata)
  {
    if flowId !in s.flows then (s, FlowNotFound)
    else if s.flows[flowId].stage != WaitingAnswer then (s, NotWaiting)
    else
      var flow := s.flows[flowId].(answer := answer, context := AnsweredContext(s.flows[flowId], answer),
                                   stage := GeneratingExplanation);
      var (s1, task) := EnqueueTask(c, s, Explanation, flow.context, flow.explanationTemplate,
        Some(flowId), order, now);
      if task.None?
      then (s1.(flows := s1.flows[flowId := flow.(stage := Failed, error := QUEUE_FULL)]), NotQueued)
      else (s1.(flows := s1.flows[flowId := flow.(explanationTask := task.value)]), Submitted(task.value))
  }

  function CancelTask(c: Config, s: State, id: nat, now: int): (State, bool) {
    if id !in s.tasks || s.tasks[id].core.status == Q.Succeeded || s.tasks[id].core.status == Q.Failed then (s, false)
    else (s.(tasks := s.tasks[id := s.tasks[id].(core := Q.Cancelled(s.tasks[id].core, now))]), true)
  }

  function TakeTask(s: State, id: nat, now: int): State
    requires id in s.tasks
  {
    s.(tasks := s.tasks[id := s.tasks[id].(core := Q.Started(s.tasks[id].core, now))])
  }

  /** The task after an attempt: what the client answered, unless it took too long. */
  function FinishedTask(c: Config, t: Task, response: Response, elapsed: int, now: int): Task {
    var late := elapsed > c.queue.timeout;
    var heard := if late then response.(ok := false, error := REQUEST_TIMED_OUT) else response;
    t.(core := Q.Finished(c.queue, t.core, response.ok, late, now),
       lastError := if heard.ok then "" else if |heard.error| == 0 then REQUEST_FAILED else heard.error,
       response := Some(heard))
  }

  function FlowAfterTask(flow: Flow, t: Task): Flow {
    if t.core.status == Q.Succeeded && t.response.Some? then
      match t.kind
      case Question => flow.(question := t.response.value.text, stage := WaitingAnswer)
      case Explanation => flow.(explanation := t.response.value.text, stage := Completed)
      case Hint => flow
    else if t.core.status == Q.Failed || t.core.status == Q.TimedOut then
      flow.(stage := Failed, error := t.lastError)
    else flow
  }

  function UpdateFlow(s: State, t: Task): State {
    if t.flowId.Some? && t.flowId.value in s.flows
    then s.(flows := s.flows[t.flowId.value := FlowAfterTask(s.flows[t.flowId.value], t)])
    else s
  }

  function FinishTask(c: Config, s: State, id: nat, response: Response, elapsed: int, now: int): State
    requires id in s.tasks
  {
    var t := FinishedTask(c, s.tasks[id], response, elapsed, now);
    var s1 := s.(tasks := s.tasks[id := t]);
    if t.core.status == Q.Queued then s1 else UpdateFlow(s1, t)
  }

  // ---------- interleaved behaviour ----------

  /** The service together with the attempts that are between their two halves. */
  datatype Sys = Sys(state: State, inflight: multiset<nat>, calls: nat, clock: int)

  datatype Event =
    | StartFlow(ctx: Context, questionTemplate: string, explanationTemplate: string, order: seq<string>, now: int)
    | Submit(flowId: nat, answer: string, order: seq<string>, now: int)
    | Enqueue(kind: Kind, ctx: Context, template: string, order: seq<string>, now: int)
    | Cancel(id: nat, now: int)
    | Take(id: nat, now: int)
    | Finish(id: nat, response: Response, elapsed: int, now: int)

  ghost predicate Enabled(c: Config, s: Sys, e: Event) {
    && s.clock <= e.now
    && match e
       case StartFlow(ctx, _, _, order, _) => Lists(order, ctx.metadata)
       case Submit(id, answer, order, _) =>
         id in s.state.flows ==> Lists(order, AnsweredContext(s.state.flows[id], answer).metadata)
       case Enqueue(_, ctx, _, order, _) => Lists(order, ctx.metadata)
       case Cancel(_, _) => true
       case Take(id, now) => id in s.state.tasks && Q.IsNext(Cores(s.state.tasks), id, now)
       case Finish(id, _, _, _) => id in s.inflight && id in s.state.tasks
  }

  ghost function Next(c: Config, s: Sys, e: Event): Sys
    requires Enabled(c, s, e)
  {
    match e
    case StartFlow(ctx, qt, et, order, now) =>
      s.(state := StartQuestionFlow(c, s.state, ctx, qt, et, order, now).0, clock := now)
    case Submit(id, answer, order, now) =>
      s.(state := SubmitAnswer(c, s.state, id, answer, order, now).0, clock := now)
    case Enqueue(kind, ctx, template, order, now) =>
      s.(state := EnqueueTask(c, s.state, kind, ctx, template, None, order, now).0, clock := now)
    case Cancel(id, now) => s.(state := CancelTask(c, s.state, id, now).0, clock := now)
    case Take(id, now) =>
      s.(state := TakeTask(s.state, id, now), inflight := s.inflight + multiset{id}, calls := s.calls + 1, clock := now)
    case Finish(id, response, elapsed, now) =>
      s.(state := FinishTask(c, s.state, id, response, elapsed, now),
          inflight := s.inflight - multiset{id}, clock := now)
  }

  ghost predicate Legal(c: Config, s: Sys, es: seq<Event>, threads: nat)
    decreases |es|
  {
    |s.inflight| <= threads
    && (|es| == 0 || (Enabled(c, s, es[0]) && Legal(c, Next(c, s, es[0]), es[1..], threads)))
  }

  ghost function After(c: Config, s: Sys, es: seq<Event>, threads: nat): Sys
    requires Legal(c, s, es, threads)
    decreases |es|
  {
    if |es| == 0 then s else After(c, Next(c, s, es[0]), es[1..], threads)
  }

  function Initial(clock: int): Sys { Sys(INITIAL, multiset{}, 0, clock) }

  // ---------- the orchestrator is a retrying task queue ----------

  ghost function QueueOf(s: Sys): Q.Sys {
    Q.Sys(s.state.nextTaskId, Cores(s.state.tasks), s.inflight, s.calls, s.clock)
  }

  /** The queue event behind an orchestrator event. */
  ghost function QueueEvent(c: Config, s: Sys, e: Event): Q.Event
    requires Enabled(c, s, e)
  {
    match e
    case StartFlow(_, _, _, _, now) => if HasRoom(c, s.state) then Q.Add(false, now) else Q.Skip(now)
    case Submit(id, _, _, now) =>
      if id in s.state.flows && s.state.flows[id].stage == WaitingAnswer && HasRoom(c, s.state)
      then Q.Add(false, now) else Q.Skip(now)
    case Enqueue(_, _, _, _, now) => if HasRoom(c, s.state) then Q.Add(false, now) else Q.Skip(now)
    case Cancel(id, now) => Q.Cancel(id, now)
    case Take(id, now) => Q.Take(id, now)
    case Finish(id, response, elapsed, now) => Q.Finish(id, response.ok, elapsed > c.queue.timeout, now)
  }

  lemma CoresAfterPut(tasks: map<nat, Task>, id: nat, t: Task)
    ensures Cores(tasks[id := t]) == Cores(tasks)[id := t.core]
  {
  }

  ghost predicate IsQueueStep(c: Config, s: Sys, e: Event)
    requires Enabled(c, s, e)
  {
    && Q.Enabled(c.queue, QueueOf(s), QueueEvent(c, s, e))
    && QueueOf(Next(c, s, e)) == Q.Apply(c.queue, QueueOf(s), QueueEvent(c, s, e))
  }

  lemma AddIsQueueStep(c: Config, s: Sys, e: Event)
    requires Enabled(c, s, e) && (e.StartFlow? || e.Submit? || e.Enqueue?)
    ensures IsQueueStep(c, s, e)
  {
    var tasks := s.state.tasks;
    hide Q.IsNext, Rendered, Q.ActiveIds, TemplateOr;
    match e
    case StartFlow(ctx, qt, et, order, now) =>
      CoresAfterPut(tasks, s.state.nextTaskId,
                    NewTask(c, Question, ctx, TemplateOr(qt, c.questionPrompt), Some(s.state.nextFlowId), order, now));
    case Submit(id, answer, order, now) =>
      if id in s.state.flows {
        var f := s.state.flows[id];
        CoresAfterPut(tasks, s.state.nextTaskId,
                      NewTask(c, Explanation, AnsweredContext(f, answer), f.explanationTemplate, Some(id), order, now));
      }
    case Enqueue(kind, ctx, template, order, now) =>
      CoresAfterPut(tasks, s.state.nextTaskId, NewTask(c, kind, ctx, template, None, order, now));
    case _ => assert false;
  }

  lemma ReworkIsQueueStep(c: Config, s: Sys, e: Event)
    requires Enabled(c, s, e) && c.queue.laxCancel && (e.Cancel? || e.Take? || e.Finish?)
    ensures IsQueueStep(c, s, e)
  {
    var tasks := s.state.tasks;
    hide Q.IsNext, Q.ActiveIds;
    match e
    case Cancel(id, now) =>
      if id in tasks { CoresAfterPut(tasks, id, tasks[id].(core := Q.Cancelled(tasks[id].core, now))); }
    case Take(id, now) => CoresAfterPut(tasks, id, tasks[id].(core := Q.Started(tasks[id].core, now)));
    case Finish(id, response, elapsed, now) =>
      CoresAfterPut(tasks, id, FinishedTask(c, tasks[id], response, elapsed, now));
    case _ => assert false;
  }

  /** Every orchestrator step is a step of the task queue. */
  lemma StepIsQueueStep(c: Config, s: Sys, e: Event)
    requires Enabled(c, s, e) && c.queue.laxCancel
    ensures IsQueueStep(c, s, e)
  {
    hide IsQueueStep;
    if e.StartFlow? || e.Submit? || e.Enqueue? {
      AddIsQueueStep(c, s, e);
    } else {
      ReworkIsQueueStep(c, s, e);
    }
  }

  ghost function QueueEvents(c: Config, s: Sys, es: seq<Event>, threads: nat): (qs: seq<Q.Event>)
    requires Legal(c, s, es, threads)
    decreases |es|
  {
    if |es| == 0 then [] else [QueueEvent(c, s, es[0])] + QueueEvents(c, Next(c, s, es[0]), es[1..], threads)
  }

  /** Every run of the orchestrator is a run of the task queue. */
  lemma {:induction false} RunIsQueueRun(c: Config, s: Sys, es: seq<Event>, threads: nat)
    requires Legal(c, s, es, threads) && c.queue.laxCancel
    ensures var qs := QueueEvents(c, s, es, threads);
      && Q.Legal(c.queue, QueueOf(s), qs, threads)
      && Q.After(c.queue, QueueOf(s), qs, threads) == QueueOf(After(c, s, es, threads))
    decreases |es|
  {
    if |es| != 0 {
      StepIsQueueStep(c, s, es[0]);
      RunIsQueueRun(c, Next(c, s, es[0]), es[1..], threads);
      Q.Prepend(c.queue, QueueOf(s), QueueEvent(c, s, es[0]),
        QueueEvents(c, Next(c, s, es[0]), es[1..], threads), threads);
    }
  }

  lemma InitialQueue(clock: int)
    ensures QueueOf(Initial(clock)) == Q.Initial(clock)
  {
  }

  /** The orchestrator's load, client calls and retry times, over every interleaving of
      flows, answers, cancels and at most `threads` concurrent ticks. */
  lemma OrchestratorBounds(c: Config, clock: int, es: seq<Event>, threads: nat)
    requires Legal(c, Initial(clock), es, threads) && c.queue.laxCancel
    ensures var s := After(c, Initial(clock), es, threads);
      && |Q.QueuedIds(Cores(s.state.tasks))| + |s.inflight| <= c.queue.capacity + threads
      && s.state.nextTaskId >= 1
      && s.calls <= Q.Limit(c.queue) * (s.state.nextTaskId - 1)
      && Q.AttemptInv(c.queue, QueueOf(s))
  {
    InitialQueue(clock);
    RunIsQueueRun(c, Initial(clock), es, threads);
    var qs := QueueEvents(c, Initial(clock), es, threads);
    Q.LoadBounded(c.queue, clock, qs, threads);
    Q.ClientCallsBounded(c.queue, clock, qs, threads);
    Q.InitialIsQuiet(c.queue, clock);
    Q.RunKeepsAttempts(c.queue, Q.Initial(clock), qs, threads);
  }

  /** With the retries not wrapping: no task is given up before all its backoffs have
      passed. */
  lemma OrchestratorRetryTimes(c: Config, clock: int, es: seq<Event>, threads: nat, id: nat)
    requires Legal(c, Initial(clock), es, threads) && c.queue.laxCancel
    requires c.queue.maxRetries + 1 < TWO_TO_THE_32 && id in After(c, Initial(clock), es, threads).state.tasks
    ensures Q.RetryBounds(c.queue, After(c, Initial(clock), es, threads).state.tasks[id].core)
  {
    InitialQueue(clock);
    RunIsQueueRun(c, Initial(clock), es, threads);
    var qs := QueueEvents(c, Initial(clock), es, threads);
    assert id in Q.After(c.queue, Q.Initial(clock), qs, threads).tasks;
    Q.RetryTimes(c.queue, clock, qs, threads, id);
  }

  lemma InitialIsQuiet(c: Config, clock: int)
    ensures Q.AttemptInv(c.queue, QueueOf(Initial(clock))) && Q.QuietInv(c.queue, QueueOf(Initial(clock)))
  {
    InitialQueue(clock);
    Q.InitialIsQuiet(c.queue, clock);
  }

  /** No cancel of the run falls between the two halves of an attempt. */
  ghost predicate Undisturbed(c: Config, s: Sys, es: seq<Event>, threads: nat)
    requires Legal(c, s, es, threads)
    decreases |es|
  {
    |es| == 0 || (!(es[0].Cancel? && es[0].id in s.inflight) && Undisturbed(c, Next(c, s, es[0]), es[1..], threads))
  }

  /** If no cancel falls between the halves of an attempt, queued plus running tasks
      stay within the queue. */
  lemma {:induction false} UndisturbedOrchestrator(c: Config, s: Sys, es: seq<Event>, threads: nat)
    requires c.queue.laxCancel && Q.AttemptInv(c.queue, QueueOf(s)) && Q.QuietInv(c.queue, QueueOf(s))
    requires Legal(c, s, es, threads) && Undisturbed(c, s, es, threads)
    ensures |ActiveTasks(After(c, s, es, threads))| <= c.queue.capacity
    decreases |es|
  {
    hide Next, Enabled, Q.AttemptInv, Q.QuietInv, Q.Apply, Q.Enabled, QueueEvent;
    if |es| != 0 {
      StepIsQueueStep(c, s, es[0]);
      CancelEvent(c, s, es[0]);
      Q.StepKeepsAttempts(c.queue, QueueOf(s), QueueEvent(c, s, es[0]));
      Q.StepKeepsQuiet(c.queue, QueueOf(s), QueueEvent(c, s, es[0]));
      UndisturbedOrchestrator(c, Next(c, s, es[0]), es[1..], threads);
    } else {
      Q.QuietFits(c.queue, QueueOf(s));
    }
  }

  lemma CancelEvent(c: Config, s: Sys, e: Event)
    requires Enabled(c, s, e)
    ensures QueueEvent(c, s, e).Cancel? <==> e.Cancel?
    ensures e.Cancel? ==> QueueEvent(c, s, e).id == e.id
  {
  }

  // ---------- exactly when the capacity is exceeded ----------

  ghost function ActiveTasks(s: Sys): set<nat> { Q.ActiveIds(Cores(s.state.tasks)) }

  /** An attempt whose task was cancelled meanwhile fails into a retry although the queue
      is full. */
  ghost predicate Overfills(c: Config, s: Sys, e: Event)
    requires Enabled(c, s, e)
  {
    && e.Finish? && !Q.IsActive(s.state.tasks[e.id].core)
    && FinishedTask(c, s.state.tasks[e.id], e.response, e.elapsed, e.now).core.status == Q.Queued
    && |ActiveTasks(s)| == c.queue.capacity
  }

  /** At every moment of the run queued and running tasks fit the capacity. */
  ghost predicate FitsThroughout(c: Config, s: Sys, es: seq<Event>, threads: nat)
    requires Legal(c, s, es, threads)
    decreases |es|
  {
    && |ActiveTasks(s)| <= c.queue.capacity
    && (|es| == 0 || FitsThroughout(c, Next(c, s, es[0]), es[1..], threads))
  }

  ghost predicate NeverOverfills(c: Config, s: Sys, es: seq<Event>, threads: nat)
    requires Legal(c, s, es, threads)
    decreases |es|
  {
    |es| == 0 || (!Overfills(c, s, es[0]) && NeverOverfills(c, Next(c, s, es[0]), es[1..], threads))
  }

  lemma SameOverfills(c: Config, s: Sys, e: Event)
    requires Enabled(c, s, e) && Q.Enabled(c.queue, QueueOf(s), QueueEvent(c, s, e))
    ensures Overfills(c, s, e) <==> Q.Overfills(c.queue, QueueOf(s), QueueEvent(c, s, e))
  {
  }

  /** Queued plus running tasks stay within max_queued_tasks throughout a run if and only
      if no step of it requeues a cancelled task into a full queue. */
  lemma {:induction false} CapacityKeptIff(c: Config, s: Sys, es: seq<Event>, threads: nat)
    requires c.queue.laxCancel && Q.AttemptInv(c.queue, QueueOf(s)) && |ActiveTasks(s)| <= c.queue.capacity
    requires Legal(c, s, es, threads)
    ensures FitsThroughout(c, s, es, threads) <==> NeverOverfills(c, s, es, threads)
    decreases |es|
  {
    hide Next, Enabled, Overfills, Q.AttemptInv, Q.Apply, Q.Enabled, Q.Overfills, QueueEvent;
    if |es| != 0 {
      StepIsQueueStep(c, s, es[0]);
      SameOverfills(c, s, es[0]);
      Q.StepKeepsAttempts(c.queue, QueueOf(s), QueueEvent(c, s, es[0]));
      Q.OverfillsIff(c.queue, QueueOf(s), QueueEvent(c, s, es[0]));
      if !Overfills(c, s, es[0]) { CapacityKeptIff(c, Next(c, s, es[0]), es[1..], threads); }
    }
  }

  // ---------- exactly when a cancel lasts ----------

  ghost predicate IsCanceled(s: Sys, id: nat) {
    id in s.state.tasks && s.state.tasks[id].core.status == Q.Canceled
  }

  /** Whatever happens next, the task remains cancelled. */
  ghost predicate StaysCanceled(c: Config, s: Sys, id: nat, threads: nat) {
    forall es :: Legal(c, s, es, threads) ==> IsCanceled(After(c, s, es, threads), id)
  }

  /** A cancelled task remains cancelled, whatever happens next, if and only if none of
      its attempts is in flight. */
  lemma CancelLastsIff(c: Config, s: Sys, id: nat, threads: nat)
    requires c.queue.laxCancel && Q.AttemptInv(c.queue, QueueOf(s)) && |s.inflight| <= threads && IsCanceled(s, id)
    ensures StaysCanceled(c, s, id, threads) <==> id !in s.inflight
  {
    if id in s.inflight {
      var e := Finish(id, Response(false, "", ""), c.queue.timeout, s.clock);
      FinishingEndsCancel(c, s, e, threads);
    } else {
      forall es | Legal(c, s, es, threads) ensures IsCanceled(After(c, s, es, threads), id) {
        RunIsQueueRun(c, s, es, threads);
        Q.RunKeepsCanceled(c.queue, QueueOf(s), QueueEvents(c, s, es, threads), threads, id);
      }
    }
  }

  lemma FinishingEndsCancel(c: Config, s: Sys, e: Event, threads: nat)
    requires c.queue.laxCancel && Enabled(c, s, e) && e.Finish? && |s.inflight| <= threads
    ensures Legal(c, s, [e], threads) && !IsCanceled(After(c, s, [e], threads), e.id)
  {
    StepIsQueueStep(c, s, e);
    Q.FinishingEndsCancel(c.queue, QueueOf(s), QueueEvent(c, s, e), threads);
    var qs := [QueueEvent(c, s, e)];
    assert qs[1..] == [] && [e][1..] == [];
    var s' := Next(c, s, e);
    assert Q.After(c.queue, QueueOf(s), qs, threads) == QueueOf(s');
    hide Q.Apply, Q.Enabled, Q.Finished;
    assert |s'.inflight| <= threads;
    assert Legal(c, s', [], threads) && After(c, s', [], threads) == s';
    assert After(c, s, [e], threads) == After(c, s', [], threads);
    assert Cores(s'.state.tasks)[e.id] == s'.state.tasks[e.id].core;
  }
}
