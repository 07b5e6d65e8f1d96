/** Cultural interactions on top of the AI orchestrator. A call to start or to answer
    an interaction is several locked blocks in a row; between them any other call, any
    tick and any cancel may run. */
module GameplayModel {
  import A = AiModel

  datatype Interaction = Interaction(flowId: nat, playerId: string, question: string, answer: string,
                                     explanation: string, completed: bool, questionTask: nat, explanationTask: nat)

  /** The service's own tables. */
  datatype Game = Game(nextId: nat, interactions: map<nat, Interaction>, flowToInteraction: map<nat, nat>)

  const NEW_GAME := Game(1, map[], map[])

  // ---------- locked blocks ----------

  datatype LookupResult = NotFound | NotOwner | AlreadyCompleted | Found(id: nat, copy: Interaction)

  /** Resolves the interaction, by its own id or through its flow, and copies it. */
  function Lookup(g: Game, interactionId: nat, flowId: nat, playerId: string): LookupResult {
    var id := if interactionId == 0 && flowId != 0 && flowId in g.flowToInteraction then g.flowToInteraction[flowId]
              else interactionId;
    if id !in g.interactions then NotFound
    else if g.interactions[id].playerId != playerId then NotOwner
    else if g.interactions[id].completed then AlreadyCompleted
    else Found(id, g.interactions[id])
  }

  function Allocate(g: Game): Game { g.(nextId := g.nextId + 1) }

  function Store(g: Game, id: nat, x: Interaction): Game {
    g.(interactions := g.interactions[id := x], flowToInteraction := g.flowToInteraction[x.flowId := id])
  }

  function Commit(g: Game, id: nat, x: Interaction): Game { g.(interactions := g.interactions[id := x]) }

  function OrElse(text: string, fallback: string): string { if |text| == 0 then fallback else text }

  /** The copy as it is written back: answered, explained and completed. */
  function Completed(copy: Interaction, answer: string, flow: A.Flow, fallback: string): Interaction {
    copy.(answer := answer, explanation := OrElse(flow.explanation, fallback),
          explanationTask := flow.explanationTask, completed := true)
  }

  // ---------- interleaved calls ----------

  /** Where a call is between its locked blocks. */
  datatype Call =
    | Started(flowId: nat)
    | Read(flowId: nat, flow: A.Flow)
    | Allocated(id: nat, x: Interaction)
    | Copied(id: nat, copy: Interaction, answer: string)
    | Accepted(id: nat, copy: Interaction, answer: string)
    | Explained(id: nat, copy: Interaction, answer: string, x: Interaction)

  /** `answered` records, for every call that returned success to its client, the
      interaction and the answer. */
  datatype Sys = Sys(ai: A.Sys, game: Game, calls: map<nat, Call>, answered: seq<(nat, string)>)

  datatype Event =
    | AiStep(ai: A.Event)
    | StartCall(call: nat, start: A.Event)
    | ReadFlow(call: nat)
    | AllocateId(call: nat, playerId: string, fallback: string)
    | StoreNew(call: nat)
    | AnswerCall(call: nat, interactionId: nat, flowId: nat, playerId: string, answer: string)
    | AskAi(call: nat, submit: A.Event)
    | ReadBack(call: nat, fallback: string)
    | WriteBack(call: nat)

  ghost predicate Enabled(c: A.Config, s: Sys, e: Event) {
    match e
    case AiStep(ai) => A.Enabled(c, s.ai, ai)
    case StartCall(call, start) => call !in s.calls && start.StartFlow? && A.Enabled(c, s.ai, start)
    case ReadFlow(call) => call in s.calls && s.calls[call].Started? && s.calls[call].flowId in s.ai.state.flows
    case AllocateId(call, _, _) => call in s.calls && s.calls[call].Read?
    case StoreNew(call) => call in s.calls && s.calls[call].Allocated?
    case AnswerCall(call, _, _, _, answer) => call !in s.calls && |answer| > 0
    case AskAi(call, submit) =>
      && call in s.calls && s.calls[call].Copied? && submit.Submit? && A.Enabled(c, s.ai, submit)
      && submit.flowId == s.calls[call].copy.flowId && submit.answer == s.calls[call].answer
    case ReadBack(call, _) =>
      call in s.calls && s.calls[call].Accepted? && s.calls[call].copy.flowId in s.ai.state.flows
    case WriteBack(call) => call in s.calls && s.calls[call].Explained?
  }

  ghost function Next(c: A.Config, s: Sys, e: Event): Sys
    requires Enabled(c, s, e)
  {
    match e
    case AiStep(ai) => s.(ai := A.Next(c, s.ai, ai))
    case StartCall(call, start) =>
      var ai' := A.Next(c, s.ai, start);
      if A.HasRoom(c, s.ai.state)
      then s.(ai := ai', calls := s.calls[call := Started(s.ai.state.nextFlowId)])
      else s.(ai := ai')
    case ReadFlow(call) =>
      var fid := s.calls[call].flowId;
      s.(calls := s.calls[call := Read(fid, s.ai.state.flows[fid])])
    case AllocateId(call, playerId, fallback) =>
      var r := s.calls[call];
      var x := Interaction(r.flowId, playerId, OrElse(r.flow.question, fallback), "", "", false,
        r.flow.questionTask, 0);
      s.(game := Allocate(s.game), calls := s.calls[call := Allocated(s.game.nextId, x)])
    case StoreNew(call) =>
      s.(game := Store(s.game, s.calls[call].id, s.calls[call].x), calls := s.calls - {call})
    case AnswerCall(call, interactionId, flowId, playerId, answer) =>
      var r := Lookup(s.game, interactionId, flowId, playerId);
      if r.Found? then s.(calls := s.calls[call := Copied(r.id, r.copy, answer)]) else s
    case AskAi(call, submit) =>
      var k := s.calls[call];
      var ok := A.SubmitAnswer(c, s.ai.state, submit.flowId, submit.answer, submit.order, submit.now).1.Submitted?;
      s.(ai := A.Next(c, s.ai, submit),
         calls := if ok then s.calls[call := Accepted(k.id, k.copy, k.answer)] else s.calls - {call})
    case ReadBack(call, fallback) =>
      var k := s.calls[call];
      var x := Completed(k.copy, k.answer, s.ai.state.flows[k.copy.flowId], fallback);
      s.(calls := s.calls[call := Explained(k.id, k.copy, k.answer, x)])
    case WriteBack(call) =>
      var k := s.calls[call];
      s.(game := Commit(s.game, k.id, k.x), calls := s.calls - {call}, answered := s.answered + [(k.id, k.answer)])
  }

  ghost predicate Legal(c: A.Config, s: Sys, es: seq<Event>)
    decreases |es|
  {
    |es| == 0 || (Enabled(c, s, es[0]) && Legal(c, Next(c, s, es[0]), es[1..]))
  }

  ghost function After(c: A.Config, s: Sys, es: seq<Event>): Sys
    requires Legal(c, s, es)
    decreases |es|
  {
    if |es| == 0 then s else After(c, Next(c, s, es[0]), es[1..])
  }

  function Initial(clock: int): Sys { Sys(A.Initial(clock), NEW_GAME, map[], []) }
}
