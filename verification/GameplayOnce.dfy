/** Each interaction is answered successfully at most once, however calls, ticks and
    cancels interleave. */
module GameplayOnce {
  import opened GameplayModel
  import A = AiModel
  import F = AiFlows

  /** The flow has taken an answer, or can no longer take one. */
  ghost predicate Past(f: A.Flow) { f.stage != A.GeneratingQuestion && f.stage != A.WaitingAnswer }

  /** The flow has taken exactly this answer. */
  ghost predicate Holds(s: Sys, flowId: nat, answer: string) {
    flowId in s.ai.state.flows && Past(s.ai.state.flows[flowId]) && s.ai.state.flows[flowId].answer == answer
  }

  /** A call past the AI gate that has not written back yet. */
  predicate IsBeyondGate(k: Call) { k.Accepted? || k.Explained? }

  /** The flow a starting call has created for its interaction. */
  predicate IsStarting(k: Call) { k.Started? || k.Read? || k.Allocated? }

  function FlowOf(k: Call): nat
    requires IsStarting(k)
  {
    if k.Allocated? then k.x.flowId else k.flowId
  }

  ghost predicate StoredInv(s: Sys, id: nat)
    requires id in s.game.interactions
  {
    var x := s.game.interactions[id];
    && id < s.game.nextId
    && x.flowId in s.ai.state.flows
    && x.flowId in s.game.flowToInteraction && s.game.flowToInteraction[x.flowId] == id
    && (x.completed ==> Holds(s, x.flowId, x.answer))
  }

  ghost predicate CallInv(s: Sys, k: Call) {
    match k
    case Started(fid) => fid in s.ai.state.flows && fid !in s.game.flowToInteraction
    case Read(fid, _) => fid in s.ai.state.flows && fid !in s.game.flowToInteraction
    case Allocated(id, x) =>
      && x.flowId in s.ai.state.flows && x.flowId !in s.game.flowToInteraction
      && id < s.game.nextId && id !in s.game.interactions && !x.completed
    case Copied(id, copy, _) =>
      id in s.game.interactions && s.game.interactions[id].flowId == copy.flowId
      && (s.game.interactions[id].completed || s.game.interactions[id] == copy)
    case Accepted(id, copy, answer) =>
      id in s.game.interactions && s.game.interactions[id] == copy && !copy.completed && Holds(s, copy.flowId, answer)
    case Explained(id, copy, answer, x) =>
      id in s.game.interactions && s.game.interactions[id] == copy && !copy.completed && Holds(s, copy.flowId, answer)
      && x.flowId == copy.flowId && x.completed && x.answer == answer
  }

  /** Calls do not share what must be theirs alone. */
  ghost predicate Separate(a: Call, b: Call) {
    && (IsBeyondGate(a) && IsBeyondGate(b) ==> a.id != b.id)
    && (IsStarting(a) && IsStarting(b) ==> FlowOf(a) != FlowOf(b))
    && (a.Allocated? && b.Allocated? ==> a.id != b.id)
  }

  /** The clients told of success: each for a completed interaction, with its answer,
      and no interaction twice. */
  ghost predicate AnsweredInv(s: Sys) {
    && (forall i :: 0 <= i < |s.answered| ==>
          var (id, answer) := s.answered[i];
          id in s.game.interactions && s.game.interactions[id].completed && s.game.interactions[id].answer == answer)
    && (forall i, j :: 0 <= i < j < |s.answered| ==> s.answered[i].0 != s.answered[j].0)
  }

  ghost predicate StoredAll(s: Sys) { forall id :: id in s.game.interactions ==> StoredInv(s, id) }

  /** The second table leads from a flow to the interaction of that flow. */
  ghost predicate FlowsLead(g: Game) {
    forall fid :: fid in g.flowToInteraction ==>
      g.flowToInteraction[fid] in g.interactions && g.interactions[g.flowToInteraction[fid]].flowId == fid
  }

  ghost predicate CallsInv(s: Sys) { forall k :: k in s.calls ==> CallInv(s, s.calls[k]) }

  ghost predicate AllSeparate(calls: map<nat, Call>) {
    forall a, b :: a in calls && b in calls && a != b ==> Separate(calls[a], calls[b])
  }

  ghost predicate Inv(s: Sys) {
    F.Inv(s.ai) && StoredAll(s) && FlowsLead(s.game) && CallsInv(s) && AllSeparate(s.calls) && AnsweredInv(s)
  }

  /** What was once completed is never written again. */
  ghost predicate Final(g: Game, g': Game) {
    forall id :: id in g.interactions && g.interactions[id].completed ==>
      id in g'.interactions && g'.interactions[id] == g.interactions[id]
  }

  // ---------- steps of the orchestrator ----------

  lemma HoldsOn(s: Sys, s': Sys, flowId: nat, answer: string)
    requires Holds(s, flowId, answer) && F.FlowsAdvance(s.ai.state, s'.ai.state)
    ensures Holds(s', flowId, answer)
  {
    assert F.Advances(s.ai.state.flows[flowId], s'.ai.state.flows[flowId]);
  }

  /** A step that only advances the orchestrator keeps every call and interaction. */
  lemma AiKeeps(s: Sys, s': Sys)
    requires Inv(s) && F.Inv(s'.ai) && F.FlowsAdvance(s.ai.state, s'.ai.state)
    requires s'.game == s.game && s'.calls == s.calls && s'.answered == s.answered
    ensures Inv(s')
  {
    hide F.Inv, F.Advances;
    forall id | id in s'.game.interactions ensures StoredInv(s', id) {
      assert StoredInv(s, id);
      var x := s.game.interactions[id];
      if x.completed { HoldsOn(s, s', x.flowId, x.answer); }
    }
    forall k | k in s'.calls ensures CallInv(s', s'.calls[k]) {
      assert CallInv(s, s.calls[k]);
      if IsBeyondGate(s.calls[k]) { HoldsOn(s, s', s.calls[k].copy.flowId, s.calls[k].answer); }
    }
  }

  lemma AiStepKeeps(c: A.Config, s: Sys, s': Sys, e: A.Event)
    requires Inv(s) && A.Enabled(c, s.ai, e) && s' == s.(ai := A.Next(c, s.ai, e))
    ensures Inv(s')
  {
    hide A.Next, A.Enabled, StoredAll, FlowsLead, CallsInv, AllSeparate, AnsweredInv;
    F.StepKeepsInv(c, s.ai, e);
    F.StepAdvances(c, s.ai, e);
    AiKeeps(s, s');
  }

  // ---------- steps of calls ----------

  /** Replacing or adding one call. */
  lemma PutCall(s: Sys, s': Sys, call: nat, k: Call)
    requires Inv(s)
    requires s'.ai == s.ai && s'.game == s.game && s'.answered == s.answered && s'.calls == s.calls[call := k]
    requires CallInv(s, k)
    requires forall a :: a in s.calls && a != call ==> Separate(s.calls[a], k) && Separate(k, s.calls[a])
    ensures Inv(s')
  {
    hide F.Inv;
    forall id | id in s'.game.interactions ensures StoredInv(s', id) { assert StoredInv(s, id); }
    SameCallInv(s, s');
    forall a | a in s'.calls ensures CallInv(s', s'.calls[a]) { assert a != call ==> CallInv(s, s.calls[a]); }
  }

  lemma SameCallInv(s: Sys, s': Sys)
    requires s'.ai == s.ai && s'.game == s.game
    ensures forall k :: CallInv(s, k) ==> CallInv(s', k)
  {
    forall k | CallInv(s, k) ensures CallInv(s', k) { }
  }

  lemma DropCall(s: Sys, s': Sys, call: nat)
    requires Inv(s)
    requires s'.ai == s.ai && s'.game == s.game && s'.answered == s.answered && s'.calls == s.calls - {call}
    ensures Inv(s')
  {
    hide F.Inv;
    forall id | id in s'.game.interactions ensures StoredInv(s', id) { assert StoredInv(s, id); }
    SameCallInv(s, s');
    forall a | a in s'.calls ensures CallInv(s', s'.calls[a]) { assert CallInv(s, s.calls[a]); }
  }

  /** No call and no interaction knows the next flow id yet. */
  lemma FreshFlow(s: Sys)
    requires Inv(s)
    ensures s.ai.state.nextFlowId !in s.game.flowToInteraction
    ensures forall k :: k in s.calls && IsStarting(s.calls[k]) ==> FlowOf(s.calls[k]) != s.ai.state.nextFlowId
  {
    var fid := s.ai.state.nextFlowId;
    assert fid !in s.ai.state.flows;
    hide F.Inv;
    forall f | f in s.game.flowToInteraction ensures f in s.ai.state.flows {
      assert StoredInv(s, s.game.flowToInteraction[f]);
    }
    forall k | k in s.calls && IsStarting(s.calls[k]) ensures FlowOf(s.calls[k]) != fid {
      assert CallInv(s, s.calls[k]);
    }
  }

  lemma StartCallEffect(c: A.Config, s: Sys, e: Event)
    requires Enabled(c, s, e) && e.StartCall?
    ensures A.Enabled(c, s.ai, e.start) && e.call !in s.calls
    ensures var s1 := s.(ai := A.Next(c, s.ai, e.start));
      Next(c, s, e) == if A.HasRoom(c, s.ai.state)
      then s1.(calls := s.calls[e.call := Started(s.ai.state.nextFlowId)]) else s1
  {
    hide A.Next, A.Enabled, A.HasRoom;
  }

  lemma StartedFlow(c: A.Config, ai: A.Sys, e: A.Event)
    requires A.Enabled(c, ai, e) && e.StartFlow? && A.HasRoom(c, ai.state)
    ensures ai.state.nextFlowId in A.Next(c, ai, e).state.flows
  {
    F.StartEffect(c, ai, e);
    hide A.Next, A.Enabled, A.HasRoom, A.NewTask;
  }

  lemma PutStarted(s: Sys, s': Sys, call: nat, fid: nat)
    requires Inv(s) && s' == s.(calls := s.calls[call := Started(fid)])
    requires fid in s.ai.state.flows && fid !in s.game.flowToInteraction
    requires forall k :: k in s.calls && IsStarting(s.calls[k]) ==> FlowOf(s.calls[k]) != fid
    ensures Inv(s')
  {
    hide Inv;
    PutCall(s, s', call, Started(fid));
  }

  lemma StartCallKeeps(c: A.Config, s: Sys, e: Event)
    requires Inv(s) && Enabled(c, s, e) && e.StartCall?
    ensures Inv(Next(c, s, e))
  {
    StartCallEffect(c, s, e);
    hide Next, Enabled, A.Next, A.Enabled, A.HasRoom, Inv, IsStarting, FlowOf;
    var fid := s.ai.state.nextFlowId;
    var s1 := s.(ai := A.Next(c, s.ai, e.start));
    AiStepKeeps(c, s, s1, e.start);
    if A.HasRoom(c, s.ai.state) {
      FreshFlow(s);
      StartedFlow(c, s.ai, e.start);
      PutStarted(s1, Next(c, s, e), e.call, fid);
    }
  }

  lemma ReadKeeps(c: A.Config, s: Sys, e: Event)
    requires Inv(s) && Enabled(c, s, e) && e.ReadFlow?
    ensures Inv(Next(c, s, e))
  {
    var k := s.calls[e.call];
    hide F.Inv, A.Next, A.Enabled, A.SubmitAnswer;
    assert CallInv(s, k);
    var k' := Read(k.flowId, s.ai.state.flows[k.flowId]);
    SeparateLike(s, e.call, k');
    var s' := Next(c, s, e);
    hide Inv, Next, Enabled;
    PutCall(s, s', e.call, k');
  }

  /** A starting call that stays with its flow remains apart from the others. */
  lemma SeparateLike(s: Sys, call: nat, k: Call)
    requires AllSeparate(s.calls) && call in s.calls && IsStarting(s.calls[call])
    requires IsStarting(k) && FlowOf(k) == FlowOf(s.calls[call])
    requires k.Allocated? ==> forall a :: a in s.calls && s.calls[a].Allocated? ==> s.calls[a].id != k.id
    ensures forall a :: a in s.calls && a != call ==> Separate(s.calls[a], k) && Separate(k, s.calls[a])
  {
  }

  lemma AllocateKeeps(c: A.Config, s: Sys, e: Event)
    requires Inv(s) && Enabled(c, s, e) && e.AllocateId?
    ensures Inv(Next(c, s, e))
  {
    hide F.Inv, A.Next, A.Enabled, A.SubmitAnswer;
    var s' := Next(c, s, e);
    var s1 := s.(game := Allocate(s.game));
    var k' := s'.calls[e.call];
    hide Next, Enabled;
    assert CallInv(s, s.calls[e.call]);
    forall id | id in s.game.interactions ensures id < s.game.nextId { assert StoredInv(s, id); }
    forall id | id in s1.game.interactions ensures StoredInv(s1, id) { assert StoredInv(s, id); }
    forall a | a in s1.calls ensures CallInv(s1, s1.calls[a]) { assert CallInv(s, s.calls[a]); }
    assert Inv(s1);
    forall a | a in s.calls && s.calls[a].Allocated?
      ensures s.calls[a].id != s.game.nextId { assert CallInv(s, s.calls[a]); }
    SeparateLike(s, e.call, k');
    PutCall(s1, s', e.call, k');
  }

  lemma LookupFinds(g: Game, interactionId: nat, flowId: nat, playerId: string)
    requires Lookup(g, interactionId, flowId, playerId).Found?
    ensures var r := Lookup(g, interactionId, flowId, playerId);
      r.id in g.interactions && g.interactions[r.id] == r.copy && !r.copy.completed && r.copy.playerId == playerId
  {
  }

  lemma AnswerKeeps(c: A.Config, s: Sys, e: Event)
    requires Inv(s) && Enabled(c, s, e) && e.AnswerCall?
    ensures Inv(Next(c, s, e))
  {
    hide A.Next, A.Enabled, A.SubmitAnswer, Inv;
    var r := Lookup(s.game, e.interactionId, e.flowId, e.playerId);
    if r.Found? {
      LookupFinds(s.game, e.interactionId, e.flowId, e.playerId);
      PutCall(s, Next(c, s, e), e.call, Copied(r.id, r.copy, e.answer));
    }
  }

  /** The gate: the orchestrator takes an answer only while the flow waits for one, so
      nobody else is past the gate for this interaction and it is not completed. */
  lemma GateIsFree(s: Sys, call: nat)
    requires Inv(s) && call in s.calls && s.calls[call].Copied?
    requires var k := s.calls[call]; k.copy.flowId in s.ai.state.flows && !Past(s.ai.state.flows[k.copy.flowId])
    ensures var k := s.calls[call];
        k.id in s.game.interactions && s.game.interactions[k.id] == k.copy && !k.copy.completed
    ensures forall a :: a in s.calls && IsBeyondGate(s.calls[a]) ==> s.calls[a].id != s.calls[call].id
  {
    hide F.Inv;
    var k := s.calls[call];
    assert CallInv(s, k) && StoredInv(s, k.id);
    forall a | a in s.calls && IsBeyondGate(s.calls[a]) ensures s.calls[a].id != k.id { assert CallInv(s, s.calls[a]); }
  }

  /** Success means the flow was waiting and now holds this answer. */
  lemma SubmitOutcome(c: A.Config, ai: A.Sys, e: A.Event)
    requires A.Enabled(c, ai, e) && e.Submit?
    requires A.SubmitAnswer(c, ai.state, e.flowId, e.answer, e.order, e.now).1.Submitted?
    ensures e.flowId in ai.state.flows && !Past(ai.state.flows[e.flowId])
    ensures var flows := A.Next(c, ai, e).state.flows;
      e.flowId in flows && Past(flows[e.flowId]) && flows[e.flowId].answer == e.answer
  {
    hide A.NewTask, A.AnsweredContext, A.HasRoom;
  }

  ghost predicate Taken(c: A.Config, s: Sys, submit: A.Event)
    requires A.Enabled(c, s.ai, submit) && submit.Submit?
  {
    A.SubmitAnswer(c, s.ai.state, submit.flowId, submit.answer, submit.order, submit.now).1.Submitted?
  }

  lemma AskEffect(c: A.Config, s: Sys, e: Event)
    requires Enabled(c, s, e) && e.AskAi?
    ensures A.Enabled(c, s.ai, e.submit) && e.call in s.calls && s.calls[e.call].Copied? && e.submit.Submit?
    ensures e.submit.flowId == s.calls[e.call].copy.flowId && e.submit.answer == s.calls[e.call].answer
    ensures var k := s.calls[e.call];
      Next(c, s, e) == s.(ai := A.Next(c, s.ai, e.submit),
                          calls := if Taken(c, s, e.submit) then s.calls[e.call := Accepted(k.id, k.copy, k.answer)]
                                   else s.calls - {e.call})
  {
    hide A.Next;
  }

  lemma PutAccepted(s: Sys, s': Sys, call: nat, k: Call)
    requires Inv(s) && k.Copied? && s' == s.(calls := s.calls[call := Accepted(k.id, k.copy, k.answer)])
    requires k.id in s.game.interactions && s.game.interactions[k.id] == k.copy && !k.copy.completed
    requires Holds(s, k.copy.flowId, k.answer)
    requires forall a :: a in s.calls && IsBeyondGate(s.calls[a]) ==> s.calls[a].id != k.id
    ensures Inv(s')
  {
    hide Inv;
    PutCall(s, s', call, Accepted(k.id, k.copy, k.answer));
  }

  lemma AskKeeps(c: A.Config, s: Sys, e: Event)
    requires Inv(s) && Enabled(c, s, e) && e.AskAi?
    ensures Inv(Next(c, s, e))
  {
    AskEffect(c, s, e);
    hide Next, Enabled, A.Next, A.Enabled, A.SubmitAnswer, Inv, IsBeyondGate;
    var s' := Next(c, s, e);
    var k := s.calls[e.call];
    var s1 := s.(ai := A.Next(c, s.ai, e.submit));
    AiStepKeeps(c, s, s1, e.submit);
    if Taken(c, s, e.submit) {
      SubmitOutcome(c, s.ai, e.submit);
      GateIsFree(s, e.call);
      PutAccepted(s1, s', e.call, k);
    } else {
      DropCall(s1, s', e.call);
    }
  }

  lemma ReadBackKeeps(c: A.Config, s: Sys, e: Event)
    requires Inv(s) && Enabled(c, s, e) && e.ReadBack?
    ensures Inv(Next(c, s, e))
  {
    hide F.Inv, A.Next, A.Enabled, A.SubmitAnswer;
    var s' := Next(c, s, e);
    var k' := s'.calls[e.call];
    assert CallInv(s, s.calls[e.call]);
    assert forall a :: a in s.calls && a != e.call ==> Separate(s.calls[a], k') && Separate(k', s.calls[a]) by {
      hide StoredAll, FlowsLead, CallsInv, AnsweredInv;
    }
    hide Inv;
    PutCall(s, s', e.call, k');
  }

  // ---------- writing the tables ----------

  ghost predicate IsStore(s: Sys, s': Sys, call: nat) {
    && call in s.calls && s.calls[call].Allocated?
    && s'.ai == s.ai && s'.game == Store(s.game, s.calls[call].id, s.calls[call].x)
    && s'.calls == s.calls - {call} && s'.answered == s.answered
  }

  lemma StoreKeepsTables(s: Sys, s': Sys, call: nat)
    requires Inv(s) && IsStore(s, s', call)
    ensures StoredAll(s') && FlowsLead(s'.game) && Final(s.game, s'.game)
  {
    hide F.Inv, AllSeparate, AnsweredInv, Separate;
    var k := s.calls[call];
    assert CallInv(s, k);
    hide CallsInv;
    forall id | id in s'.game.interactions ensures StoredInv(s', id) {
      if id != k.id { assert StoredInv(s, id); }
    }
  }

  lemma StoreKeepsCalls(s: Sys, s': Sys, call: nat)
    requires Inv(s) && IsStore(s, s', call)
    ensures CallsInv(s') && AllSeparate(s'.calls)
  {
    hide F.Inv, StoredAll, FlowsLead, AnsweredInv;
    var k := s.calls[call];
    assert CallInv(s, k);
    forall a | a in s'.calls ensures CallInv(s', s'.calls[a]) {
      assert CallInv(s, s.calls[a]) && Separate(s.calls[a], k);
    }
    hide CallInv, CallsInv, Separate;
  }

  /** Adds the allocated interaction of a call that ends. */
  lemma StoreKeeps(s: Sys, s': Sys, call: nat)
    requires Inv(s) && IsStore(s, s', call)
    ensures Inv(s') && Final(s.game, s'.game)
  {
    StoreKeepsTables(s, s', call);
    StoreKeepsCalls(s, s', call);
    assert CallInv(s, s.calls[call]);
    hide F.Inv, StoredAll, FlowsLead, CallsInv, AllSeparate, Final, Separate;
  }

  /** Writes the completed copy of a call past the gate. */
  lemma WriteKeeps(s: Sys, s': Sys, call: nat)
    requires Inv(s) && call in s.calls && s.calls[call].Explained?
    requires var k := s.calls[call];
        s'.game == Commit(s.game, k.id, k.x) && s'.answered == s.answered + [(k.id, k.answer)]
    requires s'.ai == s.ai && s'.calls == s.calls - {call}
    ensures Inv(s') && Final(s.game, s'.game)
  {
    hide F.Inv;
    var k := s.calls[call];
    assert CallInv(s, k) && StoredInv(s, k.id);
    assert StoredAll(s') by {
      hide CallsInv, FlowsLead, AllSeparate, AnsweredInv;
      forall id | id in s'.game.interactions ensures StoredInv(s', id) { assert StoredInv(s, id); }
    }
    assert CallsInv(s') by {
      hide StoredAll, FlowsLead, AnsweredInv;
      forall a | a in s'.calls ensures CallInv(s', s'.calls[a]) {
        assert CallInv(s, s.calls[a]) && Separate(s.calls[a], k);
      }
    }
    assert AnsweredInv(s') by { hide StoredAll, CallsInv, FlowsLead, AllSeparate; }
    hide StoredAll, CallsInv, AnsweredInv, Separate;
  }

  lemma WriteEffect(c: A.Config, s: Sys, e: Event)
    requires Enabled(c, s, e) && (e.StoreNew? || e.WriteBack?)
    ensures var k := s.calls[e.call]; var s' := Next(c, s, e);
      && s'.ai == s.ai && s'.calls == s.calls - {e.call}
      && (if e.StoreNew? then k.Allocated? && s'.game == Store(s.game, k.id, k.x) && s'.answered == s.answered
          else k.Explained? && s'.game == Commit(s.game, k.id, k.x) && s'.answered == s.answered + [(k.id, k.answer)])
  {
    hide A.Next, A.Enabled, A.SubmitAnswer;
  }

  // ---------- runs ----------

  lemma StepKeepsInv(c: A.Config, s: Sys, e: Event)
    requires Inv(s) && Enabled(c, s, e)
    ensures Inv(Next(c, s, e))
  {
    hide Inv, A.Next, A.Enabled, A.SubmitAnswer;
    match e
    case AiStep(ai) => AiStepKeeps(c, s, Next(c, s, e), ai);
    case StartCall(_, _) => StartCallKeeps(c, s, e);
    case ReadFlow(_) => ReadKeeps(c, s, e);
    case AllocateId(_, _, _) => AllocateKeeps(c, s, e);
    case StoreNew(_) => WriteEffect(c, s, e); StoreKeeps(s, Next(c, s, e), e.call);
    case AnswerCall(_, _, _, _, _) => AnswerKeeps(c, s, e);
    case AskAi(_, _) => AskKeeps(c, s, e);
    case ReadBack(_, _) => ReadBackKeeps(c, s, e);
    case WriteBack(_) => WriteEffect(c, s, e); WriteKeeps(s, Next(c, s, e), e.call);
  }

  lemma StepIsFinal(c: A.Config, s: Sys, e: Event)
    requires Inv(s) && Enabled(c, s, e)
    ensures Final(s.game, Next(c, s, e).game)
  {
    hide A.Next, A.Enabled, A.SubmitAnswer, Inv;
    if e.StoreNew? {
      WriteEffect(c, s, e);
      StoreKeeps(s, Next(c, s, e), e.call);
    } else if e.WriteBack? {
      WriteEffect(c, s, e);
      WriteKeeps(s, Next(c, s, e), e.call);
    }
  }

  lemma {:induction false} EveryRun(c: A.Config, s: Sys, es: seq<Event>)
    requires Inv(s) && Legal(c, s, es)
    ensures Inv(After(c, s, es)) && Final(s.game, After(c, s, es).game)
    decreases |es|
  {
    hide Inv, Enabled, Next;
    if |es| != 0 {
      StepKeepsInv(c, s, es[0]);
      StepIsFinal(c, s, es[0]);
      EveryRun(c, Next(c, s, es[0]), es[1..]);
    }
  }

  lemma InitialIsFine(clock: int)
    ensures Inv(Initial(clock))
  {
  }

  /** Over every interleaving: no interaction is answered successfully twice, and the
      stored answer of an answered one is the answer its flow took. */
  lemma AnsweredAtMostOnce(c: A.Config, clock: int, es: seq<Event>, i: nat, j: nat)
    requires Legal(c, Initial(clock), es)
    requires i < |After(c, Initial(clock), es).answered| && j < |After(c, Initial(clock), es).answered|
    ensures var s := After(c, Initial(clock), es); var (id, answer) := s.answered[i];
      && (s.answered[j].0 == id ==> i == j)
      && id in s.game.interactions && s.game.interactions[id].answer == answer
      && Holds(s, s.game.interactions[id].flowId, answer)
  {
    InitialIsFine(clock);
    EveryRun(c, Initial(clock), es);
    var s := After(c, Initial(clock), es);
    assert StoredInv(s, s.answered[i].0);
  }
}
