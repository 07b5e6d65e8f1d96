/** A whole interaction, from its start to its explanation. */
module GameplayRun {
  import opened GameplayModel
  import opened AiPromises
  import opened AiOutcomes
  import A = AiModel
  import O = GameplayOutcome

  /** Everything an interaction is given from outside. */
  datatype Script = Script(play: Play, playerId: string, noQuestion: string, noExplanation: string)

  /** One call starts the interaction, another one answers it, and in between the
      orchestrator poses the question and explains the answer. */
  function Scenes(h: Script): seq<Event> {
    var acts := Acts(h.play);
    [StartCall(0, acts[0]), AiStep(acts[1]), AiStep(acts[2]), ReadFlow(0),
     AllocateId(0, h.playerId, h.noQuestion), StoreNew(0),
     AnswerCall(1, 1, 0, h.playerId, h.play.answer), AskAi(1, acts[3]), AiStep(acts[4]), AiStep(acts[5]),
     ReadBack(1, h.noExplanation), WriteBack(1)]
  }

  function Opened(h: Script): Interaction {
    Interaction(1, h.playerId, O.Text(h.play.question, h.noQuestion), "", "", false, 1, 0)
  }

  function Closed(h: Script): Interaction {
    Interaction(1, h.playerId, O.Text(h.play.question, h.noQuestion), h.play.answer,
                O.Text(h.play.explanation, h.noExplanation), true, 1, 2)
  }

  ghost predicate IsScript(c: A.Config, h: Script) { IsPlay(c, h.play) && h.play.answer != "" }

  /** The orchestrator at each of the moments. */
  ghost function AiAt(c: A.Config, h: Script, i: nat): A.Sys
    requires IsScript(c, h)
  {
    var p := h.play;
    if i == 0 then A.Initial(p.now)
    else if i == 1 then Scene1(c, p, New(p.now), multiset{}, 0)
    else if i == 2 then Scene1(c, p, Runs(p.now), multiset{1}, 1)
    else if i <= 7 then Posed1(c, p)
    else if i == 8 then Scene2(c, p, New(p.now), multiset{}, 1)
    else if i == 9 then Scene2(c, p, Runs(p.now), multiset{2}, 2)
    else Curtain(c, p)
  }

  function GameAt(h: Script, i: nat): Game {
    if i <= 4 then NEW_GAME
    else if i == 5 then Game(2, map[], map[])
    else Game(2, map[1 := if i < 12 then Opened(h) else Closed(h)], map[1 := 1])
  }

  ghost function CallsAt(c: A.Config, h: Script, i: nat): map<nat, Call>
    requires IsScript(c, h)
  {
    if i == 0 then map[]
    else if i <= 3 then map[0 := Started(1)]
    else if i == 4 then map[0 := Read(1, FlowAt(c, h.play, A.WaitingAnswer))]
    else if i == 5 then map[0 := Allocated(1, Opened(h))]
    else if i == 6 then map[]
    else if i == 7 then map[1 := Copied(1, Opened(h), h.play.answer)]
    else if i <= 10 then map[1 := Accepted(1, Opened(h), h.play.answer)]
    else if i == 11 then map[1 := Explained(1, Opened(h), h.play.answer, Closed(h))]
    else map[]
  }

  ghost function At(c: A.Config, h: Script, i: nat): Sys
    requires IsScript(c, h)
  {
    Sys(AiAt(c, h, i), GameAt(h, i), CallsAt(c, h, i), if i < 12 then [] else [(1, h.play.answer)])
  }

  // ---------- the steps ----------

  ghost predicate StepsAt(c: A.Config, h: Script, i: nat)
    requires IsScript(c, h) && i < 12
  {
    Enabled(c, At(c, h, i), Scenes(h)[i]) && Next(c, At(c, h, i), Scenes(h)[i]) == At(c, h, i + 1)
  }

  lemma Starts(c: A.Config, h: Script)
    requires IsScript(c, h)
    ensures StepsAt(c, h, 0)
  {
    Act1(c, h.play);
    StartIff(c, A.INITIAL, h.play.ctx, h.play.questionTemplate, h.play.explanationTemplate, h.play.order, h.play.now);
    NoLoad(A.INITIAL);
    RoomAtStart(c, h.play.now);
    hide A.Next, A.Enabled, Scene1, A.HasRoom, A.StartQuestionFlow;
    assert A.Initial(h.play.now).state.nextFlowId == 1;
  }

  lemma RoomAtStart(c: A.Config, now: int)
    requires c.queue.capacity > 0
    ensures A.HasRoom(c, A.Initial(now).state)
  {
    NoLoad(A.INITIAL);
    AiLoad(c, A.INITIAL);
  }

  /** A step of the orchestrator alone. */
  lemma AiStepsAt(c: A.Config, h: Script, i: nat, e: A.Event)
    requires IsScript(c, h) && i < 12 && Scenes(h)[i] == AiStep(e) && i in {1, 2, 8, 9}
    requires A.Enabled(c, AiAt(c, h, i), e) && A.Next(c, AiAt(c, h, i), e) == AiAt(c, h, i + 1)
    ensures StepsAt(c, h, i)
  {
    hide A.Next, A.Enabled, AiAt;
  }

  lemma Asks(c: A.Config, h: Script)
    requires IsScript(c, h)
    ensures StepsAt(c, h, 1) && StepsAt(c, h, 2)
  {
    Act2(c, h.play);
    Act3(c, h.play);
    hide A.Next, A.Enabled, Scene1, Posed1, StepsAt;
    AiStepsAt(c, h, 1, Acts(h.play)[1]);
    AiStepsAt(c, h, 2, Acts(h.play)[2]);
  }

  lemma AiOfScene2(c: A.Config, h: Script)
    requires IsScript(c, h)
    ensures var p := h.play;
      && AiAt(c, h, 8) == Scene2(c, p, New(p.now), multiset{}, 1)
      && AiAt(c, h, 9) == Scene2(c, p, Runs(p.now), multiset{2}, 2)
  {
    hide Curtain, Scene1, Scene2, Posed1;
  }

  lemma TakesUp(c: A.Config, h: Script)
    requires IsScript(c, h)
    ensures StepsAt(c, h, 8)
  {
    Act5(c, h.play);
    hide A.Next, A.Enabled, Scene2, StepsAt, AiAt, New, Runs;
    AiOfScene2(c, h);
    AiStepsAt(c, h, 8, Acts(h.play)[4]);
  }

  lemma Explains(c: A.Config, h: Script)
    requires IsScript(c, h)
    ensures StepsAt(c, h, 9)
  {
    Act6(c, h.play);
    hide A.Next, A.Enabled, Scene2, Curtain, StepsAt, AiAt, New, Runs;
    AiOfScene2(c, h);
    AtTheEnd(c, h);
    AiStepsAt(c, h, 9, Acts(h.play)[5]);
  }

  lemma Reads(c: A.Config, h: Script)
    requires IsScript(c, h)
    ensures StepsAt(c, h, 3)
  {
    var flows := Posed1(c, h.play).state.flows;
    assert 1 in flows && flows[1] == FlowAt(c, h.play, A.WaitingAnswer);
    hide A.Next, A.Enabled, Posed1, FlowAt;
  }

  lemma Allocates(c: A.Config, h: Script)
    requires IsScript(c, h)
    ensures StepsAt(c, h, 4)
  {
    assert AiAt(c, h, 4) == AiAt(c, h, 5);
    hide A.Next, A.Enabled, AiAt;
  }

  lemma Stores(c: A.Config, h: Script)
    requires IsScript(c, h)
    ensures StepsAt(c, h, 5)
  {
    assert AiAt(c, h, 5) == AiAt(c, h, 6);
    hide A.Next, A.Enabled, AiAt, FlowAt;
  }

  lemma Looks(c: A.Config, h: Script)
    requires IsScript(c, h)
    ensures StepsAt(c, h, 6)
  {
    assert AiAt(c, h, 6) == AiAt(c, h, 7);
    hide A.Next, A.Enabled, AiAt, FlowAt;
  }

  /** The orchestrator takes the answer. */
  lemma Submits(c: A.Config, h: Script)
    requires IsScript(c, h)
    ensures var ai, p := AiAt(c, h, 7), h.play; var e := A.Submit(1, p.answer, p.later, p.now);
      && A.Enabled(c, ai, e) && A.Next(c, ai, e) == AiAt(c, h, 8)
      && A.SubmitAnswer(c, ai.state, 1, p.answer, p.later, p.now).1.Submitted?
  {
    Act4(c, h.play);
    var s := Posed1(c, h.play).state;
    SubmitIff(c, s, 1, h.play.answer, h.play.later, h.play.now);
    NoLoad(s);
    assert 1 in s.flows && s.flows[1].stage == A.WaitingAnswer;
    assert AiAt(c, h, 7) == Posed1(c, h.play);
    assert AiAt(c, h, 8) == Scene2(c, h.play, New(h.play.now), multiset{}, 1);
    hide A.Next, A.Enabled, Scene2, Posed1, A.SubmitAnswer, Load, AiAt;
  }

  lemma Answers(c: A.Config, h: Script)
    requires IsScript(c, h)
    ensures StepsAt(c, h, 7)
  {
    hide A.Next, A.Enabled, A.SubmitAnswer, AiAt, FlowAt;
    Submits(c, h);
  }

  lemma AtTheEnd(c: A.Config, h: Script)
    requires IsScript(c, h)
    ensures AiAt(c, h, 10) == AiAt(c, h, 11) == AiAt(c, h, 12) == Curtain(c, h.play)
  {
    hide Curtain, Scene1, Scene2, Posed1;
  }

  lemma CurtainFlow(c: A.Config, h: Script)
    requires IsScript(c, h)
    ensures Curtain(c, h.play).state.flows == map[1 := FlowAt(c, h.play, A.Completed)]
  {
    hide FlowAt, Asked, Explaining;
  }

  lemma ReadsBack(c: A.Config, h: Script)
    requires IsScript(c, h)
    ensures StepsAt(c, h, 10)
  {
    hide A.Next, A.Enabled, AiAt, Curtain;
    AtTheEnd(c, h);
    CurtainFlow(c, h);
  }

  lemma Writes(c: A.Config, h: Script)
    requires IsScript(c, h)
    ensures StepsAt(c, h, 11)
  {
    hide A.Next, A.Enabled, AiAt, FlowAt, Curtain;
    AtTheEnd(c, h);
  }

  lemma AllSteps(c: A.Config, h: Script, i: nat)
    requires IsScript(c, h) && i < 12
    ensures StepsAt(c, h, i)
  {
    hide StepsAt;
    Starts(c, h);
    Asks(c, h);
    Reads(c, h);
    Allocates(c, h);
    Stores(c, h);
    Looks(c, h);
    Answers(c, h);
    TakesUp(c, h);
    Explains(c, h);
    ReadsBack(c, h);
    Writes(c, h);
    assert i in {0, 1, 2, 3, 4, 5, 6, 7, 8, 9, 10, 11};
  }

  lemma {:induction false} FromStep(c: A.Config, h: Script, i: nat)
    requires IsScript(c, h) && i <= 12
    ensures Legal(c, At(c, h, i), Scenes(h)[i..]) && After(c, At(c, h, i), Scenes(h)[i..]) == At(c, h, 12)
    decreases 12 - i
  {
    var es := Scenes(h);
    if i < 12 {
      AllSteps(c, h, i);
      FromStep(c, h, i + 1);
      assert es[i..][0] == es[i] && es[i..][1..] == es[i + 1..];
    } else {
      assert es[12..] == [];
    }
    hide Enabled, Next, At;
  }

  /** From the start, wherever the orchestrator takes any task at all: there is a run in
      which an interaction is begun, answered once and completed, with exactly the texts
      that the client returned and the player gave, or the fallbacks for empty ones. */
  lemma InteractionCompletes(c: A.Config, h: Script)
    requires IsScript(c, h)
    ensures Legal(c, Initial(h.play.now), Scenes(h))
    ensures var s := After(c, Initial(h.play.now), Scenes(h));
      s.game.interactions == map[1 := Closed(h)] && s.answered == [(1, h.play.answer)]
  {
    FromStep(c, h, 0);
    assert Scenes(h)[0..] == Scenes(h);
    assert At(c, h, 0) == Initial(h.play.now);
    hide After, Legal, Scenes, AiAt, CallsAt;
  }
}
