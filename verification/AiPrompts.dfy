/** What clients are asked: over every run, the prompt of every task is the rendering of
    the template it was given in the context it was given, and an explanation is asked
    for with the question posed and the answer taken. */
module AiPrompts {
  import opened Common
  import opened Prompt
  import opened AiModel
  import opened AiFlows
  import opened AiOutcomes
  import Q = TaskQueue

  /** The template given, or the configured one if none was given. */
  function Given(template: string, configured: string): string { if template == "" then configured else template }

  // ---------- what a step does to the tasks ----------

  /** The prompt is the template rendered in the task's context, for some order of the
      metadata table. */
  ghost predicate IsRendered(t: Task) {
    exists order :: Lists(order, t.context.metadata) && t.prompt == Rendered(t.template, t.context, order)
  }

  predicate SameAsked(t: Task, t': Task) {
    && t'.flowId == t.flowId && t'.kind == t.kind && t'.context == t.context
    && t'.template == t.template && t'.prompt == t.prompt
  }

  /** The context in which an answer is explained. */
  function WithAnswer(ctx: Context, question: string, answer: string): Context {
    ctx.(userInput := answer, metadata := ctx.metadata["question" := question])
  }

  /** A task that the event adds is as the event asks for. */
  ghost predicate IsAsked(c: Config, s: State, e: Event, t: Task) {
    match e
    case StartFlow(ctx, template, _, _, _) =>
      && t.kind == Question && t.flowId == Some(s.nextFlowId)
      && t.context == ctx && t.template == Given(template, c.questionPrompt)
    case Submit(fid, answer, _, _) =>
      && fid in s.flows && t.kind == Explanation && t.flowId == Some(fid)
      && t.context == WithAnswer(s.flows[fid].context, s.flows[fid].question, answer)
      && t.template == Given(s.flows[fid].explanationTemplate, c.explanationPrompt)
    case Enqueue(kind, ctx, template, _, _) =>
      && t.kind == kind && t.flowId == None && t.context == ctx
      && t.template == Given(template, if kind == Explanation then c.explanationPrompt else c.questionPrompt)
    case _ => false
  }

  lemma NewTaskIsRendered(c: Config, kind: Kind, ctx: Context, template: string, flowId: Option<nat>,
                          order: seq<string>, now: int)
    requires Lists(order, ctx.metadata)
    ensures IsRendered(NewTask(c, kind, ctx, template, flowId, order, now))
  {
    hide Rendered;
  }

  lemma StartAsks(c: Config, s: Sys, e: Event, id: nat)
    requires Enabled(c, s, e) && e.StartFlow? && id in Next(c, s, e).state.tasks
    ensures var t' := Next(c, s, e).state.tasks[id];
      || (id in s.state.tasks && t' == s.state.tasks[id])
      || (id == s.state.nextTaskId && IsAsked(c, s.state, e, t') && IsRendered(t'))
  {
    NewTaskIsRendered(c, Question, e.ctx, TemplateOr(e.questionTemplate, c.questionPrompt), Some(s.state.nextFlowId),
                      e.order, e.now);
    hide Rendered, IsRendered, HasRoom;
  }

  lemma SubmitAsks(c: Config, s: Sys, e: Event, id: nat)
    requires Enabled(c, s, e) && e.Submit? && id in Next(c, s, e).state.tasks
    ensures var t' := Next(c, s, e).state.tasks[id];
      || (id in s.state.tasks && t' == s.state.tasks[id])
      || (id == s.state.nextTaskId && IsAsked(c, s.state, e, t') && IsRendered(t'))
  {
    if e.flowId in s.state.flows {
      var f := s.state.flows[e.flowId];
      NewTaskIsRendered(c, Explanation, AnsweredContext(f, e.answer), f.explanationTemplate, Some(e.flowId),
                        e.order, e.now);
    }
    hide Rendered, IsRendered, HasRoom;
  }

  lemma EnqueueAsks(c: Config, s: Sys, e: Event, id: nat)
    requires Enabled(c, s, e) && e.Enqueue? && id in Next(c, s, e).state.tasks
    ensures var t' := Next(c, s, e).state.tasks[id];
      || (id in s.state.tasks && t' == s.state.tasks[id])
      || (id == s.state.nextTaskId && IsAsked(c, s.state, e, t') && IsRendered(t'))
  {
    NewTaskIsRendered(c, e.kind, e.ctx, e.template, None, e.order, e.now);
    hide Rendered, IsRendered, HasRoom;
  }

  lemma OthersKeepAsked(c: Config, s: Sys, e: Event, id: nat)
    requires Enabled(c, s, e) && (e.Cancel? || e.Take? || e.Finish?) && id in Next(c, s, e).state.tasks
    ensures id in s.state.tasks && SameAsked(s.state.tasks[id], Next(c, s, e).state.tasks[id])
  {
    hide FlowAfterTask, Q.IsNext, Q.Finished;
  }

  /** A step keeps what every task was asked with, and adds only what it asks for. */
  lemma StepAsks(c: Config, s: Sys, e: Event, id: nat)
    requires Enabled(c, s, e) && id in Next(c, s, e).state.tasks
    ensures var t' := Next(c, s, e).state.tasks[id];
      || (id in s.state.tasks && SameAsked(s.state.tasks[id], t'))
      || (id == s.state.nextTaskId && IsAsked(c, s.state, e, t') && IsRendered(t'))
  {
    hide Next, Enabled, IsAsked, IsRendered;
    match e
    case StartFlow(_, _, _, _, _) => StartAsks(c, s, e, id);
    case Submit(_, _, _, _) => SubmitAsks(c, s, e, id);
    case Enqueue(_, _, _, _, _) => EnqueueAsks(c, s, e, id);
    case _ => OthersKeepAsked(c, s, e, id);
  }

  // ---------- prompts over every run ----------

  ghost predicate AllRendered(s: State) { forall id :: id in s.tasks ==> IsRendered(s.tasks[id]) }

  lemma SameRendered(t: Task, t': Task)
    requires IsRendered(t) && SameAsked(t, t')
    ensures IsRendered(t')
  {
    var order :| Lists(order, t.context.metadata) && t.prompt == Rendered(t.template, t.context, order);
  }

  lemma {:induction false} EveryPromptIsRendered(c: Config, s: Sys, es: seq<Event>, threads: nat)
    requires AllRendered(s.state) && Legal(c, s, es, threads)
    ensures AllRendered(After(c, s, es, threads).state)
    decreases |es|
  {
    hide Next, Enabled, IsAsked, IsRendered, SameAsked;
    if |es| != 0 {
      var s' := Next(c, s, es[0]).state;
      forall id | id in s'.tasks ensures IsRendered(s'.tasks[id]) {
        StepAsks(c, s, es[0], id);
        if id in s.state.tasks && SameAsked(s.state.tasks[id], s'.tasks[id]) {
          SameRendered(s.state.tasks[id], s'.tasks[id]);
        }
      }
      EveryPromptIsRendered(c, Next(c, s, es[0]), es[1..], threads);
    }
  }

  /** From the start: the prompt sent for a task whose template is brace-free text and
      tokens, in a brace-free context, is that template with every token replaced by
      its value in that context. */
  lemma PromptIsSubstitution(c: Config, clock: int, es: seq<Event>, threads: nat, id: nat, ps: seq<Piece>)
    requires Legal(c, Initial(clock), es, threads) && id in After(c, Initial(clock), es, threads).state.tasks
    requires After(c, Initial(clock), es, threads).state.tasks[id].template == Flat(ps) && PlainPieces(ps)
    requires PlainContext(After(c, Initial(clock), es, threads).state.tasks[id].context)
    ensures var t := After(c, Initial(clock), es, threads).state.tasks[id]; t.prompt == Flat(Substituted(ps, t.context))
  {
    EveryPromptIsRendered(c, Initial(clock), es, threads);
    var t := After(c, Initial(clock), es, threads).state.tasks[id];
    hide After, Legal, Rendered, PlainPieces, PlainContext, Flat;
    assert IsRendered(t);
    var order :| Lists(order, t.context.metadata) && t.prompt == Rendered(t.template, t.context, order);
    RenderingIsSubstitution(ps, t.context, order);
  }

  // ---------- where a task's template and context come from ----------

  /** The flow goes back to this call: its question task was asked with the call's
      context and template, and its explanation task with the call's other template, in
      that context with the question posed and the answer taken. */
  ghost predicate GoesBackTo(c: Config, s: State, fid: nat, e: Event)
    requires fid in s.flows
  {
    var f := s.flows[fid];
    && e.StartFlow? && f.questionTask in s.tasks
    && s.tasks[f.questionTask].context == e.ctx
    && s.tasks[f.questionTask].template == Given(e.questionTemplate, c.questionPrompt)
    && f.explanationTemplate == Given(e.explanationTemplate, c.explanationPrompt)
    && (f.stage == GeneratingQuestion || f.stage == WaitingAnswer ==> f.context == e.ctx)
    && (f.explanationTask != 0 ==>
          && f.explanationTask in s.tasks
          && s.tasks[f.explanationTask].template == Given(e.explanationTemplate, c.explanationPrompt)
          && s.tasks[f.explanationTask].context == WithAnswer(e.ctx, f.question, f.answer))
  }

  lemma MovesKeepQuestion(f: Flow, sign: Sign, f': Flow)
    requires Moves(f, sign, f') && !sign.Taken?
    ensures f'.question == f.question || f.stage == GeneratingQuestion
    ensures f'.stage == GeneratingQuestion || f'.stage == WaitingAnswer ==>
      f.stage == GeneratingQuestion || f.stage == WaitingAnswer
  {
  }

  lemma TasksStay(c: Config, s: Sys, e: Event, id: nat)
    requires Enabled(c, s, e) && id in s.state.tasks
    ensures id in Next(c, s, e).state.tasks
  {
    hide Next, Enabled, HasRoom, NewTask, TemplateOr, FlowAfterTask;
    match e
    case StartFlow(_, _, _, _, _) => StartEffect(c, s, e);
    case Submit(_, _, _, _) =>
      if e.flowId in s.state.flows && s.state.flows[e.flowId].stage == WaitingAnswer {
        var f' := SubmitFields(c, s, e);
      } else {
        SubmitIgnored(c, s, e);
      }
    case Enqueue(_, _, _, _, _) => EnqueueEffect(c, s, e);
    case Cancel(_, _) => CancelEffect(c, s, e);
    case Take(_, _) => TakeEffect(c, s, e);
    case Finish(_, _, _, _) => FinishEffect(c, s, e);
  }

  lemma StepFixesTasks(c: Config, s: Sys, e: Event, id: nat)
    requires Inv(s) && Enabled(c, s, e) && id in s.state.tasks
    ensures id in Next(c, s, e).state.tasks && SameAsked(s.state.tasks[id], Next(c, s, e).state.tasks[id])
  {
    assert id < s.state.nextTaskId;
    hide Inv, Next, Enabled, IsAsked, IsRendered, SameAsked;
    TasksStay(c, s, e, id);
    StepAsks(c, s, e, id);
  }

  /** A submitted answer, its flow and the task it adds. */
  lemma SubmitStory(c: Config, s: Sys, e: Event)
    requires Enabled(c, s, e) && e.Submit? && e.flowId in s.state.flows
    requires s.state.flows[e.flowId].stage == WaitingAnswer
    ensures var s' := Next(c, s, e).state; var f := s.state.flows[e.flowId];
      && e.flowId in s'.flows
      && var f' := s'.flows[e.flowId];
      && f'.questionTask == f.questionTask && f'.explanationTemplate == f.explanationTemplate
      && f'.question == f.question && f'.answer == e.answer && f'.stage != WaitingAnswer
      && f'.stage != GeneratingQuestion
      && (f'.explanationTask == f.explanationTask
          || (f'.explanationTask == s.state.nextTaskId && s.state.nextTaskId in s'.tasks
              && IsAsked(c, s.state, e, s'.tasks[s.state.nextTaskId])))
  {
    hide Rendered, HasRoom;
  }

  lemma FailKeepsStart(c: Config, s: Sys, e: Event, fid: nat)
    requires Enabled(c, s, e) && e.Finish? && fid in s.state.flows && fid in Next(c, s, e).state.flows
    ensures var f, f' := s.state.flows[fid], Next(c, s, e).state.flows[fid];
      && f'.context == f.context && f'.explanationTemplate == f.explanationTemplate
      && f'.questionTask == f.questionTask && f'.explanationTask == f.explanationTask && f'.answer == f.answer
  {
  }

  /** What the story depends on. */
  lemma SameStory(c: Config, s: State, s': State, fid: nat, start: Event)
    requires fid in s.flows && fid in s'.flows && GoesBackTo(c, s, fid, start)
    requires var f, f' := s.flows[fid], s'.flows[fid];
      && f'.context == f.context && f'.explanationTemplate == f.explanationTemplate && f'.answer == f.answer
      && f'.questionTask == f.questionTask && f'.explanationTask == f.explanationTask
      && (f'.question == f.question || f.explanationTask == 0)
      && (f'.stage == GeneratingQuestion || f'.stage == WaitingAnswer ==>
            f.stage == GeneratingQuestion || f.stage == WaitingAnswer)
      && f.questionTask in s'.tasks && SameAsked(s.tasks[f.questionTask], s'.tasks[f.questionTask])
      && (f.explanationTask != 0 ==>
            f.explanationTask in s'.tasks && SameAsked(s.tasks[f.explanationTask], s'.tasks[f.explanationTask]))
    ensures GoesBackTo(c, s', fid, start)
  {
  }

  lemma NotTaken(c: Config, s: Sys, e: Event, fid: nat)
    requires !MeetsAnswer(s, e, fid)
    ensures !SignOf(c, s, e, fid).Taken? && (!e.Finish? ==> SignOf(c, s, e, fid) == Nothing)
  {
    hide Load, Answered, IsLast;
  }

  lemma NotExplainedYet(s: Sys, fid: nat)
    requires Inv(s) && fid in s.state.flows
    ensures var f := s.state.flows[fid];
      && (f.stage == GeneratingQuestion ==> f.explanationTask == 0)
      && f.questionTask in s.state.tasks && (f.explanationTask != 0 ==> f.explanationTask in s.state.tasks)
  {
    assert FlowInv(s, fid);
  }

  /** An event that brings no answer to the flow leaves what it was started with. */
  lemma OtherKeepsStart(c: Config, s: Sys, e: Event, fid: nat)
    requires Inv(s) && Enabled(c, s, e) && fid in s.state.flows && !MeetsAnswer(s, e, fid)
    ensures fid in Next(c, s, e).state.flows
    ensures var f, f' := s.state.flows[fid], Next(c, s, e).state.flows[fid];
      && f'.context == f.context && f'.explanationTemplate == f.explanationTemplate && f'.answer == f.answer
      && f'.questionTask == f.questionTask && f'.explanationTask == f.explanationTask
      && (f'.question == f.question || f.explanationTask == 0)
      && (f'.stage == GeneratingQuestion || f'.stage == WaitingAnswer ==>
            f.stage == GeneratingQuestion || f.stage == WaitingAnswer)
  {
    hide Inv, Next, Enabled, SignOf, MeetsAnswer;
    StepMoves(c, s, e, fid);
    NotTaken(c, s, e, fid);
    NotExplainedYet(s, fid);
    MovesKeepQuestion(s.state.flows[fid], SignOf(c, s, e, fid), Next(c, s, e).state.flows[fid]);
    if e.Finish? { FailKeepsStart(c, s, e, fid); }
  }

  lemma OtherKeepsStory(c: Config, s: Sys, e: Event, fid: nat, start: Event)
    requires Inv(s) && Enabled(c, s, e) && fid in s.state.flows && GoesBackTo(c, s.state, fid, start)
    requires !MeetsAnswer(s, e, fid)
    ensures fid in Next(c, s, e).state.flows && GoesBackTo(c, Next(c, s, e).state, fid, start)
  {
    hide Inv, Next, Enabled, MeetsAnswer, GoesBackTo, SameAsked;
    var f := s.state.flows[fid];
    OtherKeepsStart(c, s, e, fid);
    NotExplainedYet(s, fid);
    StepFixesTasks(c, s, e, f.questionTask);
    if f.explanationTask != 0 { StepFixesTasks(c, s, e, f.explanationTask); }
    SameStory(c, s.state, Next(c, s, e).state, fid, start);
  }

  lemma AnswerKeepsStory(c: Config, s: Sys, e: Event, start: Event)
    requires Inv(s) && Enabled(c, s, e) && e.Submit? && e.flowId in s.state.flows
    requires s.state.flows[e.flowId].stage == WaitingAnswer && GoesBackTo(c, s.state, e.flowId, start)
    ensures e.flowId in Next(c, s, e).state.flows && GoesBackTo(c, Next(c, s, e).state, e.flowId, start)
  {
    var f := s.state.flows[e.flowId];
    assert f.explanationTask == 0 by { assert FlowInv(s, e.flowId); }
    SubmitStory(c, s, e);
    StepFixesTasks(c, s, e, f.questionTask);
    hide Inv, Next, Enabled;
  }

  lemma StepKeepsStory(c: Config, s: Sys, e: Event, fid: nat, start: Event)
    requires Inv(s) && Enabled(c, s, e) && fid in s.state.flows && GoesBackTo(c, s.state, fid, start)
    ensures fid in Next(c, s, e).state.flows && GoesBackTo(c, Next(c, s, e).state, fid, start)
  {
    if MeetsAnswer(s, e, fid) {
      hide Inv, Next, Enabled, GoesBackTo;
      AnswerKeepsStory(c, s, e, start);
    } else {
      hide Inv, Next, Enabled, GoesBackTo;
      OtherKeepsStory(c, s, e, fid, start);
    }
  }

  lemma StartsStory(c: Config, s: Sys, e: Event, fid: nat)
    requires Enabled(c, s, e) && fid !in s.state.flows && fid in Next(c, s, e).state.flows
    ensures e.StartFlow? && GoesBackTo(c, Next(c, s, e).state, fid, e)
  {
    if e.StartFlow? {
      hide Rendered, HasRoom;
    } else {
      SameFlows(c, s, e);
      hide Next, Enabled;
    }
  }

  lemma {:induction false} RunKeepsStory(c: Config, s: Sys, es: seq<Event>, threads: nat, fid: nat, start: Event)
    requires Inv(s) && Legal(c, s, es, threads) && fid in s.state.flows && GoesBackTo(c, s.state, fid, start)
    ensures var s' := After(c, s, es, threads).state; fid in s'.flows && GoesBackTo(c, s', fid, start)
    decreases |es|
  {
    hide Inv, Enabled, Next, GoesBackTo;
    if |es| != 0 {
      StepKeepsInv(c, s, es[0]);
      StepKeepsStory(c, s, es[0], fid, start);
      RunKeepsStory(c, Next(c, s, es[0]), es[1..], threads, fid, start);
    }
  }

  lemma {:induction false} RunTellsStory(c: Config, s: Sys, es: seq<Event>, threads: nat, fid: nat)
    requires Inv(s) && Legal(c, s, es, threads) && fid !in s.state.flows
    requires fid in After(c, s, es, threads).state.flows
    ensures exists start :: start in es && GoesBackTo(c, After(c, s, es, threads).state, fid, start)
    decreases |es|
  {
    hide Inv, Enabled, Next, GoesBackTo;
    if |es| != 0 {
      StepKeepsInv(c, s, es[0]);
      var s1 := Next(c, s, es[0]);
      if fid in s1.state.flows {
        StartsStory(c, s, es[0], fid);
        RunKeepsStory(c, s1, es[1..], threads, fid, es[0]);
        assert es[0] in es;
      } else {
        RunTellsStory(c, s1, es[1..], threads, fid);
        var start :| start in es[1..] && GoesBackTo(c, After(c, s1, es[1..], threads).state, fid, start);
        assert start in es;
      }
    }
  }

  /** From the start: every flow goes back to the call that started it. */
  lemma FlowsGoBack(c: Config, clock: int, es: seq<Event>, threads: nat, fid: nat)
    requires Legal(c, Initial(clock), es, threads)
    requires fid in After(c, Initial(clock), es, threads).state.flows
    ensures exists start :: start in es && GoesBackTo(c, After(c, Initial(clock), es, threads).state, fid, start)
  {
    RunTellsStory(c, Initial(clock), es, threads, fid);
  }

  /** A single task, outside any flow, goes back to the call that enqueued it. */
  lemma {:induction false} TasksGoBack(c: Config, s: Sys, es: seq<Event>, threads: nat, id: nat)
    requires Inv(s) && Legal(c, s, es, threads) && id !in s.state.tasks
    requires id in After(c, s, es, threads).state.tasks && After(c, s, es, threads).state.tasks[id].flowId == None
    ensures var t := After(c, s, es, threads).state.tasks[id];
      exists e :: e in es && e.Enqueue? && t.kind == e.kind && t.context == e.ctx
        && t.template == Given(e.template, if e.kind == Explanation then c.explanationPrompt else c.questionPrompt)
    decreases |es|
  {
    hide Inv, Enabled, Next, IsRendered;
    if |es| != 0 {
      var s1 := Next(c, s, es[0]);
      StepKeepsInv(c, s, es[0]);
      if id in s1.state.tasks {
        StepAsks(c, s, es[0], id);
        RunFixesTasks(c, s1, es[1..], threads, id);
        assert es[0] in es;
      } else {
        TasksGoBack(c, s1, es[1..], threads, id);
        var t := After(c, s, es, threads).state.tasks[id];
        var e :| e in es[1..] && e.Enqueue? && t.kind == e.kind && t.context == e.ctx
          && t.template == Given(e.template, if e.kind == Explanation then c.explanationPrompt else c.questionPrompt);
        assert e in es;
      }
    }
  }

  lemma {:induction false} RunFixesTasks(c: Config, s: Sys, es: seq<Event>, threads: nat, id: nat)
    requires Inv(s) && Legal(c, s, es, threads) && id in s.state.tasks
    ensures id in After(c, s, es, threads).state.tasks
    ensures SameAsked(s.state.tasks[id], After(c, s, es, threads).state.tasks[id])
    decreases |es|
  {
    hide Inv, Enabled, Next;
    if |es| != 0 {
      StepKeepsInv(c, s, es[0]);
      StepFixesTasks(c, s, es[0], id);
      RunFixesTasks(c, Next(c, s, es[0]), es[1..], threads, id);
    }
  }

  /** In the context of an explanation, the tokens for the user's input and for the
      question are filled with the answer taken and the question posed. */
  lemma TellsQuestionAndAnswer(ps: seq<Piece>, ctx: Context, question: string, answer: string, i: nat)
    requires i < |ps|
    ensures var qs := Substituted(ps, WithAnswer(ctx, question, answer));
      && (ps[i] == Token("user_input") ==> qs[i] == Literal(answer))
      && (ps[i] == Token("metadata.question") ==> qs[i] == Literal(question))
      && (ps[i] == Token("topic") ==> qs[i] == Literal(ctx.topic))
      && (ps[i].Literal? ==> qs[i] == ps[i])
  {
    assert "metadata.question"[..9] == "metadata." && "metadata.question"[9..] == "question";
  }
}
