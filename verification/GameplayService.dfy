/** The interaction service's own tables, updated in place: one method for each locked
    block of starting and answering an interaction. */
module GameplayService {
  import opened GameplayModel
  import opened GameplayOnce
  import A = AiModel

  class CulturalInteractionService {
    var nextInteractionId: nat
    var interactions: map<nat, Interaction>
    var flowToInteraction: map<nat, nat>

    ghost function View(): Game
      reads this
    {
      Game(nextInteractionId, interactions, flowToInteraction)
    }

    /** The two tables are inverse to each other, and ids are handed out from 1 on. */
    ghost predicate Valid()
      reads this
    {
      && nextInteractionId >= 1
      && FlowsLead(View())
      && (forall id :: id in interactions ==>
            && 1 <= id < nextInteractionId
            && interactions[id].flowId in flowToInteraction && flowToInteraction[interactions[id].flowId] == id)
    }

    constructor ()
      ensures View() == NEW_GAME && Valid()
    {
      nextInteractionId := 1;
      interactions, flowToInteraction := map[], map[];
    }

    /** The id block of starting an interaction, and the state filled in from the flow
        read afterwards. The id is not in use. */
    method AllocateInteraction(flowId: nat, flow: A.Flow, playerId: string, fallback: string)
      returns (id: nat, state: Interaction)
      requires Valid()
      modifies this`nextInteractionId
      ensures Valid() && id !in interactions && id < nextInteractionId
      ensures id == old(nextInteractionId) && View() == Allocate(old(View()))
      ensures state.flowId == flowId && state.playerId == playerId && !state.completed
      ensures state.question == OrElse(flow.question, fallback) && state.answer == "" && state.explanation == ""
      ensures state.questionTask == flow.questionTask && state.explanationTask == 0
    {
      id := nextInteractionId;
      nextInteractionId := nextInteractionId + 1;
      state := Interaction(flowId, playerId, flow.question, "", "", false, flow.questionTask, 0);
      if |flow.question| == 0 { state := state.(question := fallback); }
    }

    /** Storing under an allocated id keeps the tables inverse, as each starting call has
        its own id and its own flow. */
    method StoreInteraction(id: nat, state: Interaction)
      requires Valid()
      modifies this`interactions, this`flowToInteraction
      ensures View() == Store(old(View()), id, state)
      ensures 1 <= id < nextInteractionId && id !in old(interactions) && state.flowId !in old(flowToInteraction)
          ==> Valid()
    {
      interactions := interactions[id := state];
      flowToInteraction := flowToInteraction[state.flowId := id];
    }

    /** The first block of an answer: finds the interaction, checks its owner and that
        it is open, and copies it. By flow, it is the interaction of that flow. */
    method CopyForAnswer(interactionId: nat, flowId: nat, playerId: string) returns (r: LookupResult)
      requires Valid()
      ensures r == Lookup(View(), interactionId, flowId, playerId)
      ensures r.Found? && interactionId != 0 ==> r.id == interactionId
      ensures r.Found? && interactionId == 0 ==> r.copy.flowId == flowId
    {
      var id := interactionId;
      if id == 0 && flowId != 0 {
        if flowId in flowToInteraction { id := flowToInteraction[flowId]; }
      }
      if id !in interactions { return NotFound; }
      var state := interactions[id];
      if state.playerId != playerId { return NotOwner; }
      if state.completed { return AlreadyCompleted; }
      r := Found(id, state);
    }

    /** The last block of an answer: fills the copy in from the flow and writes it back,
        whatever the table holds by then. */
    method CompleteInteraction(id: nat, copy: Interaction, answer: string, flow: A.Flow, fallback: string)
      requires Valid()
      modifies this`interactions
      ensures View() == Commit(old(View()), id, Completed(copy, answer, flow, fallback))
      ensures id in old(interactions) && old(interactions)[id].flowId == copy.flowId ==> Valid()
    {
      var state := copy.(answer := answer);
      state := state.(explanation := if |flow.explanation| == 0 then fallback else flow.explanation);
      state := state.(explanationTask := flow.explanationTask);
      state := state.(completed := true);
      interactions := interactions[id := state];
    }
  }
}
