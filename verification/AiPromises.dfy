/** What callers of the orchestrator are promised, call by call, and a whole flow from
    its start to its explanation. */
module AiPromises {
  import opened Common
  import opened Prompt
  import opened AiModel
  import opened AiOutcomes
  import opened AiPrompts
  import Q = TaskQueue

  // ---------- calls ----------

  function Waiting(c: Config, kind: Kind, ctx: Context, template: string, flowId: Option<nat>, order: seq<string>,
                   now: int): Task
    requires forall k :: k in order ==> k in ctx.metadata
  {
    Task(Q.Core(Q.Queued, 0, now, now, now), flowId, kind, ctx, template, Rendered(template, ctx, order), "", None)
  }

  /** A task is taken exactly while fewer than the capacity are queued or running; it
      waits under a fresh id with its rendered prompt. */
  lemma EnqueueIff(c: Config, s: State, kind: Kind, ctx: Context, template: string, flowId: Option<nat>,
                   order: seq<string>, now: int)
    requires Lists(order, ctx.metadata)
    ensures var (s', id) := EnqueueTask(c, s, kind, ctx, template, flowId, order, now);
      var used := Given(template, if kind == Explanation then c.explanationPrompt else c.questionPrompt);
      && (id.Some? <==> Load(s) < c.queue.capacity)
      && (id.None? ==> s' == s)
      && (id.Some? ==>
            && id.value == s.nextTaskId
            && s' == s.(nextTaskId := s.nextTaskId + 1,
                        tasks := s.tasks[s.nextTaskId := Waiting(c, kind, ctx, used, flowId, order, now)]))
  {
    LoadDecides(c, s);
    hide Rendered, HasRoom, Load;
  }

  /** A flow is started exactly if its question task is taken; it then waits for its
      question. A flow id is used up in any case. */
  lemma StartIff(c: Config, s: State, ctx: Context, questionTemplate: string, explanationTemplate: string,
                 order: seq<string>, now: int)
    requires Lists(order, ctx.metadata)
    ensures var (s', id) := StartQuestionFlow(c, s, ctx, questionTemplate, explanationTemplate, order, now);
      var used := Given(questionTemplate, c.questionPrompt); var fid := s.nextFlowId;
      && (id.Some? <==> Load(s) < c.queue.capacity)
      && (id.None? ==> s' == s.(nextFlowId := fid + 1))
      && (id.Some? ==>
            && id.value == fid
            && s' == State(s.nextTaskId + 1, fid + 1,
                           s.tasks[s.nextTaskId := Waiting(c, Question, ctx, used, Some(fid), order, now)],
                           s.flows[fid := Flow(GeneratingQuestion, ctx, s.nextTaskId, 0,
                                               Given(explanationTemplate, c.explanationPrompt), "", "", "", "")]))
  {
    LoadDecides(c, s);
    hide Rendered, Load;
  }

  /** An answer is taken exactly while its flow waits for one and the queue has room;
      its explanation is then asked for. In a full queue it makes the flow fail. */
  lemma SubmitIff(c: Config, s: State, fid: nat, answer: string, order: seq<string>, now: int)
    requires fid in s.flows ==> Lists(order, AnsweredContext(s.flows[fid], answer).metadata)
    ensures var (s', r) := SubmitAnswer(c, s, fid, answer, order, now);
      && (r == FlowNotFound <==> fid !in s.flows)
      && (r == NotWaiting <==> fid in s.flows && s.flows[fid].stage != WaitingAnswer)
      && (r.Submitted? <==> fid in s.flows && s.flows[fid].stage == WaitingAnswer && Load(s) < c.queue.capacity)
      && (r == FlowNotFound || r == NotWaiting ==> s' == s)
      && (fid in s.flows && s.flows[fid].stage == WaitingAnswer ==>
            && var f := s.flows[fid];
            var told := WithAnswer(f.context, f.question, answer);
            var f' := f.(answer := answer, context := told);
            if r.Submitted? then
              && r.task == s.nextTaskId
              && s' == s.(nextTaskId := s.nextTaskId + 1,
                          tasks := s.tasks[s.nextTaskId := Waiting(c, Explanation, told,
                            Given(f.explanationTemplate, c.explanationPrompt), Some(fid), order, now)],
                          flows := s.flows[fid := f'.(stage := GeneratingExplanation,
                                                      explanationTask := s.nextTaskId)])
            else s' == s.(flows := s.flows[fid := f'.(stage := Failed, error := "AI task queue is full")]))
  {
    LoadDecides(c, s);
    hide Rendered, Load, HasRoom;
  }

  /** Only tasks that have succeeded or failed cannot be cancelled. */
  lemma CancelIff(c: Config, s: State, id: nat, now: int)
    ensures var (s', ok) := CancelTask(c, s, id, now);
      && (ok <==> id in s.tasks && s.tasks[id].core.status != Q.Succeeded && s.tasks[id].core.status != Q.Failed)
      && (!ok ==> s' == s)
      && (ok ==> var t := s.tasks[id];
            s' == s.(tasks := s.tasks[id := t.(core := t.core.(status := Q.Canceled, updatedAt := now))]))
  {
  }

  /** How an attempt ends, in the client's terms. */
  lemma FinishOutcome(c: Config, s: State, id: nat, r: Response, elapsed: int, now: int)
    requires id in s.tasks
    ensures var s' := FinishTask(c, s, id, r, elapsed, now); var t := s.tasks[id];
      var late := elapsed > c.queue.timeout;
      var again := t.core.attempts < (c.queue.maxRetries + 1) % 0x1_0000_0000;
      && id in s'.tasks && s'.tasks == s.tasks[id := s'.tasks[id]]
      && s'.nextTaskId == s.nextTaskId && s'.nextFlowId == s.nextFlowId
      && var t' := s'.tasks[id];
      && t' == t.(core := t'.core, lastError := t'.lastError, response := t'.response)
      && t'.core == t.core.(status := t'.core.status, nextAt := t'.core.nextAt, updatedAt := now)
      && (t'.core.status == Q.Succeeded <==> r.ok && !late)
      && (t'.core.status == Q.Queued <==> !(r.ok && !late) && again)
      && (t'.core.status == Q.TimedOut <==> late && !again)
      && (t'.core.status == Q.Failed <==> !r.ok && !late && !again)
      && t'.core.nextAt == (if t'.core.status == Q.Queued then now + c.queue.backoff * t.core.attempts
                            else t.core.nextAt)
      && t'.response == Some(if late then Response(false, r.text, "AI request timed out") else r)
      && t'.lastError == (if r.ok && !late then "" else if late then "AI request timed out"
                          else if r.error == "" then "AI request failed" else r.error)
  {
  }

  // ---------- a whole flow ----------

  /** Everything a flow is given from outside. */
  datatype Play = Play(ctx: Context, questionTemplate: string, explanationTemplate: string, order: seq<string>,
                       later: seq<string>, question: string, answer: string, explanation: string, now: int)

  ghost predicate IsPlay(c: Config, p: Play) {
    && Lists(p.order, p.ctx.metadata) && Lists(p.later, WithAnswer(p.ctx, p.question, p.answer).metadata)
    && c.queue.capacity > 0 && c.queue.timeout >= 0
  }

  function Said(text: string): Response { Response(true, text, "") }

  function Acts(p: Play): seq<Event> {
    [StartFlow(p.ctx, p.questionTemplate, p.explanationTemplate, p.order, p.now), Take(1, p.now),
     Finish(1, Said(p.question), 0, p.now), Submit(1, p.answer, p.later, p.now), Take(2, p.now),
     Finish(2, Said(p.explanation), 0, p.now)]
  }

  function Asked(c: Config, p: Play, core: Q.Core, response: Option<Response>): Task
    requires forall k :: k in p.order ==> k in p.ctx.metadata
  {
    var used := Given(p.questionTemplate, c.questionPrompt);
    Task(core, Some(1), Question, p.ctx, used, Rendered(used, p.ctx, p.order), "", response)
  }

  function Explaining(c: Config, p: Play, core: Q.Core, response: Option<Response>): Task
    requires forall k :: k in p.later ==> k in WithAnswer(p.ctx, p.question, p.answer).metadata
  {
    var used := Given(p.explanationTemplate, c.explanationPrompt);
    var told := WithAnswer(p.ctx, p.question, p.answer);
    Task(core, Some(1), Explanation, told, used, Rendered(used, told, p.later), "", response)
  }

  function FlowAt(c: Config, p: Play, stage: Stage): Flow {
    Flow(stage, if IsTaken(stage) then WithAnswer(p.ctx, p.question, p.answer) else p.ctx,
         1, if IsTaken(stage) then 2 else 0, Given(p.explanationTemplate, c.explanationPrompt),
         if IsPosed(stage) then p.question else "", if IsTaken(stage) then p.answer else "",
         if stage == Completed then p.explanation else "", "")
  }

  function New(now: int): Q.Core { Q.Core(Q.Queued, 0, now, now, now) }
  function Runs(now: int): Q.Core { Q.Core(Q.Running, 1, now, now, now) }
  function Done(now: int): Q.Core { Q.Core(Q.Succeeded, 1, now, now, now) }

  /** The states between the acts: while the question is asked, and while it is
      explained. */
  ghost function Scene1(c: Config, p: Play, core: Q.Core, inflight: multiset<nat>, calls: nat): Sys
    requires IsPlay(c, p)
  {
    Sys(State(2, 2, map[1 := Asked(c, p, core, None)], map[1 := FlowAt(c, p, GeneratingQuestion)]),
        inflight, calls, p.now)
  }

  ghost function Posed1(c: Config, p: Play): Sys
    requires IsPlay(c, p)
  {
    Sys(State(2, 2, map[1 := Asked(c, p, Done(p.now), Some(Said(p.question)))],
              map[1 := FlowAt(c, p, WaitingAnswer)]), multiset{}, 1, p.now)
  }

  ghost function Scene2(c: Config, p: Play, core: Q.Core, inflight: multiset<nat>, calls: nat): Sys
    requires IsPlay(c, p)
  {
    Sys(State(3, 2, map[1 := Asked(c, p, Done(p.now), Some(Said(p.question))), 2 := Explaining(c, p, core, None)],
              map[1 := FlowAt(c, p, GeneratingExplanation)]), inflight, calls, p.now)
  }

  ghost function Curtain(c: Config, p: Play): Sys
    requires IsPlay(c, p)
  {
    Sys(State(3, 2, map[1 := Asked(c, p, Done(p.now), Some(Said(p.question))),
                        2 := Explaining(c, p, Done(p.now), Some(Said(p.explanation)))],
              map[1 := FlowAt(c, p, Completed)]), multiset{}, 2, p.now)
  }

  lemma NoLoad(s: State)
    requires forall id :: id in s.tasks ==>
      s.tasks[id].core.status != Q.Queued && s.tasks[id].core.status != Q.Running
    ensures Load(s) == 0
  {
    assert (set id | id in s.tasks && (s.tasks[id].core.status == Q.Queued
                                       || s.tasks[id].core.status == Q.Running)) == {};
  }

  lemma AiLoad(c: Config, s: State)
    ensures HasRoom(c, s) <==> Load(s) < c.queue.capacity
  {
    LoadDecides(c, s);
  }

  /** The only waiting task is started. */
  lemma TakeOnly(c: Config, s: Sys, id: nat)
    requires id in s.state.tasks && s.state.tasks[id].core == New(s.clock)
    requires forall k :: k in s.state.tasks && k != id ==> s.state.tasks[k].core.status != Q.Queued
    ensures Enabled(c, s, Take(id, s.clock))
    ensures var t := s.state.tasks[id].(core := Runs(s.clock));
      Next(c, s, Take(id, s.clock)) == s.(state := s.state.(tasks := s.state.tasks[id := t]),
                                          inflight := s.inflight + multiset{id}, calls := s.calls + 1)
  {
    var cores := Cores(s.state.tasks);
    assert forall k :: k in cores ==> cores[k] == s.state.tasks[k].core;
  }

  lemma Act1(c: Config, p: Play)
    requires IsPlay(c, p)
    ensures var s := Initial(p.now); var e := Acts(p)[0];
      Enabled(c, s, e) && Next(c, s, e) == Scene1(c, p, New(p.now), multiset{}, 0)
  {
    StartIff(c, INITIAL, p.ctx, p.questionTemplate, p.explanationTemplate, p.order, p.now);
    NoLoad(INITIAL);
    hide Rendered, Load, HasRoom, StartQuestionFlow;
  }

  lemma Act2(c: Config, p: Play)
    requires IsPlay(c, p)
    ensures var s := Scene1(c, p, New(p.now), multiset{}, 0); var e := Acts(p)[1];
      Enabled(c, s, e) && Next(c, s, e) == Scene1(c, p, Runs(p.now), multiset{1}, 1)
  {
    var s := Scene1(c, p, New(p.now), multiset{}, 0);
    hide Rendered, Enabled, Next;
    TakeOnly(c, s, 1);
  }

  lemma Act3(c: Config, p: Play)
    requires IsPlay(c, p)
    ensures var s := Scene1(c, p, Runs(p.now), multiset{1}, 1); var e := Acts(p)[2];
      Enabled(c, s, e) && Next(c, s, e) == Posed1(c, p)
  {
    hide Rendered;
  }

  lemma Act4(c: Config, p: Play)
    requires IsPlay(c, p)
    ensures var s := Posed1(c, p); var e := Acts(p)[3];
      Enabled(c, s, e) && Next(c, s, e) == Scene2(c, p, New(p.now), multiset{}, 1)
  {
    var s := Posed1(c, p).state;
    SubmitIff(c, s, 1, p.answer, p.later, p.now);
    NoLoad(s);
    hide Rendered, Load, SubmitAnswer;
  }

  lemma Act5(c: Config, p: Play)
    requires IsPlay(c, p)
    ensures var s := Scene2(c, p, New(p.now), multiset{}, 1); var e := Acts(p)[4];
      Enabled(c, s, e) && Next(c, s, e) == Scene2(c, p, Runs(p.now), multiset{2}, 2)
  {
    var s := Scene2(c, p, New(p.now), multiset{}, 1);
    hide Rendered, Enabled, Next;
    TakeOnly(c, s, 2);
  }

  lemma Act6(c: Config, p: Play)
    requires IsPlay(c, p)
    ensures var s := Scene2(c, p, Runs(p.now), multiset{2}, 2); var e := Acts(p)[5];
      Enabled(c, s, e) && Next(c, s, e) == Curtain(c, p)
  {
    hide Rendered;
  }

  lemma OneAct(c: Config, s: Sys, es: seq<Event>, i: nat, s': Sys)
    requires i < |es| && |s.inflight| <= 1 && Enabled(c, s, es[i]) && Next(c, s, es[i]) == s'
    requires Legal(c, s', es[i + 1..], 1)
    ensures Legal(c, s, es[i..], 1) && After(c, s, es[i..], 1) == After(c, s', es[i + 1..], 1)
  {
    assert es[i..][0] == es[i] && es[i..][1..] == es[i + 1..];
    hide Enabled, Next;
  }

  lemma SecondHalf(c: Config, p: Play)
    requires IsPlay(c, p)
    ensures Legal(c, Posed1(c, p), Acts(p)[3..], 1) && After(c, Posed1(c, p), Acts(p)[3..], 1) == Curtain(c, p)
  {
    Act4(c, p);
    Act5(c, p);
    Act6(c, p);
    var es, s3, s6 := Acts(p), Posed1(c, p), Curtain(c, p);
    var s4, s5 := Scene2(c, p, New(p.now), multiset{}, 1), Scene2(c, p, Runs(p.now), multiset{2}, 2);
    assert |s3.inflight| == |s4.inflight| == |s6.inflight| == 0 && |s5.inflight| == 1;
    assert |es| == 6 && es[6..] == [];
    assert Legal(c, s6, es[6..], 1) && After(c, s6, es[6..], 1) == s6;
    hide Enabled, Next, Scene2, Posed1, Curtain, Acts, Legal, After;
    OneAct(c, s5, es, 5, s6);
    OneAct(c, s4, es, 4, s5);
    OneAct(c, s3, es, 3, s4);
  }

  lemma PlayEnds(c: Config, p: Play)
    requires IsPlay(c, p)
    ensures Legal(c, Initial(p.now), Acts(p), 1) && After(c, Initial(p.now), Acts(p), 1) == Curtain(c, p)
  {
    Act1(c, p);
    Act2(c, p);
    Act3(c, p);
    SecondHalf(c, p);
    var es, s0, s3 := Acts(p), Initial(p.now), Posed1(c, p);
    var s1, s2 := Scene1(c, p, New(p.now), multiset{}, 0), Scene1(c, p, Runs(p.now), multiset{1}, 1);
    assert |s0.inflight| == |s1.inflight| == 0 && |s2.inflight| == 1;
    assert |es| == 6 && es[0..] == es;
    hide Enabled, Next, Scene1, Posed1, Curtain, Acts, Legal, After;
    OneAct(c, s2, es, 2, s3);
    OneAct(c, s1, es, 1, s2);
    OneAct(c, s0, es, 0, s1);
  }

  /** From the start, wherever the queue takes any task at all: there is a run in which a
      flow goes through all its stages, with exactly the texts that the client returned
      and the user gave. */
  lemma FlowCompletes(c: Config, p: Play)
    requires IsPlay(c, p)
    ensures Legal(c, Initial(p.now), Acts(p), 1)
    ensures var s := After(c, Initial(p.now), Acts(p), 1).state;
      && 1 in s.flows && s.flows[1].stage == Completed && s.flows[1].question == p.question
      && s.flows[1].answer == p.answer && s.flows[1].explanation == p.explanation
      && 1 in s.tasks && s.tasks[1].prompt == Rendered(Given(p.questionTemplate, c.questionPrompt), p.ctx, p.order)
      && 2 in s.tasks && s.tasks[2].prompt == Rendered(Given(p.explanationTemplate, c.explanationPrompt),
                                                       WithAnswer(p.ctx, p.question, p.answer), p.later)
  {
    PlayEnds(c, p);
    hide After, Rendered, Legal;
  }
}
