/** The orchestrator itself: task and flow tables updated in place, one method for
    each locked block, proved against the functions of AiModel. */
module AiService {
  import opened Common
  import opened Prompt
  import opened AiModel
  import M = AiModel
  import Q = TaskQueue

  /** The task belongs to the flow and is of this kind. */
  predicate IsTaskOf(s: State, id: nat, flowId: nat, kind: Kind) {
    id in s.tasks && s.tasks[id].flowId == Some(flowId) && s.tasks[id].kind == kind
  }

  /** Ids are handed out from 1 on, every task's flow exists, and every flow's tasks
      exist and name it as theirs. */
  predicate TablesAgree(s: State) {
    && s.nextTaskId >= 1 && s.nextFlowId >= 1
    && (forall id :: id in s.tasks ==> 1 <= id < s.nextTaskId)
    && (forall id :: id in s.flows ==> 1 <= id < s.nextFlowId)
    && (forall id :: id in s.tasks && s.tasks[id].flowId.Some? ==> s.tasks[id].flowId.value in s.flows)
    && (forall id :: id in s.flows ==>
          && IsTaskOf(s, s.flows[id].questionTask, id, Question)
          && (s.flows[id].explanationTask != 0 ==> IsTaskOf(s, s.flows[id].explanationTask, id, Explanation)))
  }

  /** A task is changed, but not its flow or its kind. */
  lemma ReworkAgrees(s: State, id: nat, t: Task)
    requires TablesAgree(s) && id in s.tasks && t.flowId == s.tasks[id].flowId && t.kind == s.tasks[id].kind
    ensures TablesAgree(s.(tasks := s.tasks[id := t]))
  {
  }

  lemma UsedIdAgrees(s: State)
    requires TablesAgree(s)
    ensures TablesAgree(s.(nextFlowId := s.nextFlowId + 1))
  {
  }

  /** A flow is changed, but not its tasks. */
  lemma FlowReworkAgrees(s: State, id: nat, f: Flow)
    requires TablesAgree(s) && id in s.flows
    requires f.questionTask == s.flows[id].questionTask && f.explanationTask == s.flows[id].explanationTask
    ensures TablesAgree(s.(flows := s.flows[id := f]))
  {
  }

  lemma NewTaskAgrees(s: State, t: Task)
    requires TablesAgree(s) && (t.flowId.Some? ==> t.flowId.value in s.flows)
    ensures TablesAgree(s.(nextTaskId := s.nextTaskId + 1, tasks := s.tasks[s.nextTaskId := t]))
  {
  }

  lemma NewFlowAgrees(s: State, t: Task, f: Flow)
    requires TablesAgree(s) && t.flowId == Some(s.nextFlowId) && t.kind == Question
    requires f.questionTask == s.nextTaskId && f.explanationTask == 0
    ensures TablesAgree(State(s.nextTaskId + 1, s.nextFlowId + 1, s.tasks[s.nextTaskId := t],
                              s.flows[s.nextFlowId := f]))
  {
  }

  /** The task that was just added is made the flow's explanation task. */
  lemma ExplanationAgrees(s: State, id: nat, f: Flow)
    requires TablesAgree(s) && id in s.flows && f.questionTask == s.flows[id].questionTask
    requires IsTaskOf(s, f.explanationTask, id, Explanation)
    ensures TablesAgree(s.(flows := s.flows[id := f]))
  {
  }

  class AiOrchestratorService {
    const config: Config
    var nextTaskId: nat
    var nextFlowId: nat
    var tasks: map<nat, Task>
    var flows: map<nat, Flow>

    ghost function View(): State
      reads this
    {
      State(nextTaskId, nextFlowId, tasks, flows)
    }

    ghost predicate Valid()
      reads this
    {
      TablesAgree(View())
    }

    constructor (config: Config)
      ensures this.config == config && View() == INITIAL && Valid()
    {
      this.config := config;
      nextTaskId, nextFlowId := 1, 1;
      tasks, flows := map[], map[];
    }

    /** Adds a task unless the queued and running ones fill the queue. `order` is the
        order in which the metadata table is walked. */
    method EnqueueTask(kind: Kind, ctx: Context, template: string, flowId: Option<nat>, order: seq<string>, now: int)
      returns (id: Option<nat>)
      requires Valid() && Lists(order, ctx.metadata)
      modifies this`nextTaskId, this`tasks
      ensures flowId.None? || flowId.value in flows ==> Valid()
      ensures (View(), id) == M.EnqueueTask(config, old(View()), kind, ctx, template, flowId, order, now)
    {
      hide TablesAgree;
      var active := set id | id in tasks && (tasks[id].core.status == Q.Queued || tasks[id].core.status == Q.Running);
      assert active == Q.ActiveIds(Cores(tasks));
      if |active| >= config.queue.capacity { return None; }
      var used := template;
      if |used| == 0 {
        used := if kind == Explanation then config.explanationPrompt else config.questionPrompt;
      }
      var prompt := RenderPrompt(used, ctx, order);
      id := Some(nextTaskId);
      ghost var before := View();
      tasks := tasks[nextTaskId := Task(Q.Core(Q.Queued, 0, now, now, now), flowId, kind, ctx, used, prompt, "", None)];
      nextTaskId := nextTaskId + 1;
      if flowId.None? || flowId.value in flows { NewTaskAgrees(before, tasks[before.nextTaskId]); }
    }

    method StartQuestionFlow(ctx: Context, questionTemplate: string, explanationTemplate: string,
      order: seq<string>, now: int)
      returns (id: Option<nat>)
      requires Valid() && Lists(order, ctx.metadata)
      modifies this
      ensures Valid()
      ensures (View(), id) ==
          M.StartQuestionFlow(config, old(View()), ctx, questionTemplate, explanationTemplate, order, now)
    {
      hide TablesAgree;
      UsedIdAgrees(View());
      var flowId := nextFlowId;
      nextFlowId := nextFlowId + 1;
      var asked := if |questionTemplate| == 0 then config.questionPrompt else questionTemplate;
      var explained := if |explanationTemplate| == 0 then config.explanationPrompt else explanationTemplate;
      var task := EnqueueTask(Question, ctx, asked, Some(flowId), order, now);
      if task.None? { return None; }
      flows := flows[flowId := Flow(GeneratingQuestion, ctx, task.value, 0, explained, "", "", "", "")];
      id := Some(flowId);
      NewFlowAgrees(old(View()), tasks[task.value], flows[flowId]);
    }

    /** Accepts an answer only while the flow waits for one. The flow is already
        changed when the queue turns out to be full, and then marked failed. */
    method SubmitAnswer(flowId: nat, answer: string, order: seq<string>, now: int) returns (r: SubmitResult)
      requires Valid() && (flowId in flows ==> Lists(order, AnsweredContext(flows[flowId], answer).metadata))
      modifies this
      ensures Valid()
      ensures (View(), r) == M.SubmitAnswer(config, old(View()), flowId, answer, order, now)
    {
      hide TablesAgree;
      if flowId !in flows { return FlowNotFound; }
      var flow := flows[flowId];
      if flow.stage != WaitingAnswer { return NotWaiting; }
      flow := flow.(answer := answer);
      flow := flow.(context := flow.context.(userInput := answer));
      flow := flow.(context := flow.context.(metadata := flow.context.metadata["question" := flow.question]));
      flow := flow.(stage := GeneratingExplanation);
      var task := EnqueueTask(Explanation, flow.context, flow.explanationTemplate, Some(flowId), order, now);
      if task.None? {
        flow := flow.(stage := Failed, error := QUEUE_FULL);
        FlowReworkAgrees(View(), flowId, flow);
        flows := flows[flowId := flow];
        return NotQueued;
      }
      flow := flow.(explanationTask := task.value);
      ExplanationAgrees(View(), flowId, flow);
      flows := flows[flowId := flow];
      r := Submitted(task.value);
    }

    method CancelTask(id: nat, now: int) returns (ok: bool)
      requires Valid()
      modifies this`tasks
      ensures Valid()
      ensures (View(), ok) == M.CancelTask(config, old(View()), id, now)
    {
      hide TablesAgree;
      if id !in tasks { return false; }
      var task := tasks[id];
      if task.core.status == Q.Succeeded || task.core.status == Q.Failed { return false; }
      ReworkAgrees(View(), id, task.(core := task.core.(status := Q.Canceled, updatedAt := now)));
      tasks := tasks[id := task.(core := task.core.(status := Q.Canceled, updatedAt := now))];
      ok := true;
    }

    /** The first half of an attempt: walks the task table in an arbitrary order, and
        starts a due task that was created first. */
    method TakeNextTask(now: int) returns (id: Option<nat>)
      requires Valid()
      modifies this`tasks
      ensures Valid()
      ensures id.None? ==> View() == old(View()) && forall k :: k in tasks ==> !Q.IsDue(tasks[k].core, now)
      ensures id.Some? ==> id.value in old(tasks) && Q.IsNext(Cores(old(tasks)), id.value, now)
      ensures id.Some? ==> View() == TakeTask(old(View()), id.value, now)
    {
      hide TablesAgree;
      id := None;
      var pending := tasks.Keys;
      while pending != {}
        invariant pending <= tasks.Keys
        invariant id.None? ==> forall k :: k in tasks && k !in pending ==> !Q.IsDue(tasks[k].core, now)
        invariant id.Some? ==> id.value in tasks && Q.IsDue(tasks[id.value].core, now)
        invariant id.Some? ==> forall k :: k in tasks && k !in pending && Q.IsDue(tasks[k].core, now) ==>
          tasks[id.value].core.createdAt <= tasks[k].core.createdAt
        decreases |pending|
      {
        var k :| k in pending;
        pending := pending - {k};
        var task := tasks[k];
        if task.core.status != Q.Queued || task.core.nextAt > now { continue; }
        if id.None? || task.core.createdAt < tasks[id.value].core.createdAt { id := Some(k); }
      }
      if id.None? { return; }
      var task := tasks[id.value];
      assert Q.IsNext(Cores(tasks), id.value, now);
      task := task.(core := task.core.(status := Q.Running, updatedAt := now,
        attempts := (task.core.attempts + 1) % TWO_TO_THE_32));
      ReworkAgrees(View(), id.value, task);
      tasks := tasks[id.value := task];
    }

    /** The second half of an attempt, once the client has answered. */
    method FinishTask(id: nat, answered: Response, elapsed: int, now: int)
      requires Valid() && id in tasks
      modifies this`tasks, this`flows
      ensures Valid()
      ensures View() == M.FinishTask(config, old(View()), id, answered, elapsed, now)
    {
      hide TablesAgree;
      var task := tasks[id];
      var response := answered;
      var timedOut := elapsed > config.queue.timeout;
      if timedOut {
        response := response.(ok := false, error := REQUEST_TIMED_OUT);
      }
      if response.ok {
        task := task.(core := task.core.(status := Q.Succeeded, updatedAt := now),
          response := Some(response), lastError := "");
        ReworkAgrees(View(), id, task);
        tasks := tasks[id := task];
        UpdateFlowAfterTask(task);
        return;
      }
      task := task.(lastError := if |response.error| == 0 then REQUEST_FAILED else response.error);
      task := task.(response := Some(response));
      if task.core.attempts < Q.MaxAttempts(config.queue) {
        task := task.(core := task.core.(status := Q.Queued,
          nextAt := now + config.queue.backoff * task.core.attempts, updatedAt := now));
        ReworkAgrees(View(), id, task);
        tasks := tasks[id := task];
        return;
      }
      task := task.(core := task.core.(status := if timedOut then Q.TimedOut else Q.Failed, updatedAt := now));
      ReworkAgrees(View(), id, task);
      tasks := tasks[id := task];
      UpdateFlowAfterTask(task);
    }

    method UpdateFlowAfterTask(task: Task)
      requires Valid()
      modifies this`flows
      ensures Valid()
      ensures View() == UpdateFlow(old(View()), task)
    {
      hide TablesAgree;
      if task.flowId.None? || task.flowId.value !in flows { return; }
      var flow := flows[task.flowId.value];
      if task.core.status == Q.Succeeded && task.response.Some? {
        if task.kind == Question {
          flow := flow.(question := task.response.value.text);
          flow := flow.(stage := WaitingAnswer);
        } else if task.kind == Explanation {
          flow := flow.(explanation := task.response.value.text);
          flow := flow.(stage := Completed);
        }
      } else if task.core.status == Q.Failed || task.core.status == Q.TimedOut {
        flow := flow.(stage := Failed, error := task.lastError);
      }
      FlowReworkAgrees(View(), task.flowId.value, flow);
      flows := flows[task.flowId.value := flow];
    }
  }
}
