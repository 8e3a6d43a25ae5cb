/** The App component as an event-driven state machine: one event per button
    handler or server callback, each allowed only where App.tsx renders the
    button, and each applying the updates of its handler. */
module App {
  import opened Types
  import Game
  import ChatLog
  import Constants

  /** The component's state. `pending` is `Some(topic)` while
      `handleStartGame` awaits the questions (the `isGeneratingQuestions`
      flag), holding the topic its closure captured. */
  datatype AppState = AppState(
    game: GameState,
    chat: seq<ChatMessage>,
    topic: string,
    pending: Option<string>)

  /** The text parts of a live `serverContent` message. */
  datatype ServerContent = ServerContent(outputTranscription: Option<string>, turnComplete: bool)

  /** `now` stands for the value `Date.now()` returns when a chat message is logged. */
  datatype Event =
    | ChooseHost(p: HostPersonality)
    | OpenSettings
    | SelectTopic(t: string)
    | StartClicked
    | QuestionsArrived(qs: Option<seq<TriviaQuestion>>, now: int)
    | AnswerClicked(option: string, now: int)
    | NextClicked
    | PlayAgainClicked
    | SwitchHostClicked
    | ServerMessage(content: ServerContent, now: int)

  const Init: AppState := AppState(Game.Initial, [], Constants.DefaultTopics[0], None)

  function WelcomeText(topic: string): string
  {
    "Welcome to the " + topic + " trivia challenge! Let's get started."
  }

  function AnswerText(option: string): string
  {
    "My answer is " + option
  }

  /** Which events can happen: the screen that renders each button, and the
      button's `disabled` condition. Server messages may arrive at any time. */
  predicate Enabled(a: AppState, e: Event)
  {
    match e
    case ChooseHost(_) => a.game.status == Idle
    case OpenSettings => true
    case SelectTopic(t) => a.game.status == Setup && t in Constants.DefaultTopics
    case StartClicked => a.game.status == Setup && a.pending.None?
    case QuestionsArrived(_, _) => a.pending.Some?
    case AnswerClicked(option, _) =>
      Game.CanAnswer(a.game) && option in a.game.questions[a.game.currentQuestionIndex].options
    case NextClicked => Game.CanAdvance(a.game)
    case PlayAgainClicked => a.game.status == Finished
    case SwitchHostClicked => a.game.status == Finished
    case ServerMessage(_, _) => true
  }

  /** `turnComplete`: the accumulated transcription, if any, becomes a host
      message, and the transcription is emptied. */
  function TurnComplete(a: AppState, now: int): (r: AppState)
    ensures r.game == Game.ClearTranscription(a.game)
    ensures a.game.transcription != "" ==>
              r.chat == ChatLog.AddChatMessage(a.chat, Host, a.game.transcription, now)
    ensures a.game.transcription == "" ==> r.chat == a.chat
    ensures r.topic == a.topic && r.pending == a.pending
  {
    var chat := if a.game.transcription != "" then ChatLog.AddChatMessage(a.chat, Host, a.game.transcription, now) else a.chat;
    a.(game := Game.ClearTranscription(a.game), chat := chat)
  }

  /** The transcription branches of `onmessage`, in the order the handler
      runs them: a fragment in the same message as `turnComplete` is part of
      the message that gets logged. */
  function OnServerContent(a: AppState, c: ServerContent, now: int): (r: AppState)
    ensures var t := a.game.transcription + (if c.outputTranscription.Some? then c.outputTranscription.value else "");
            && (!c.turnComplete ==> r.game.transcription == t && r.chat == a.chat)
            && (c.turnComplete ==> r.game.transcription == "")
            && (c.turnComplete && t != "" ==> r.chat == ChatLog.AddChatMessage(a.chat, Host, t, now))
            && (c.turnComplete && t == "" ==> r.chat == a.chat)
    ensures r.game.(transcription := a.game.transcription) == a.game
    ensures r.topic == a.topic && r.pending == a.pending
  {
    assert a.game.transcription + "" == a.game.transcription;
    var a1 := if c.outputTranscription.Some? then a.(game := Game.AppendTranscription(a.game, c.outputTranscription.value)) else a;
    if c.turnComplete then TurnComplete(a1, now) else a1
  }

  /** The effect of one event: the updates its handler makes. */
  function Step(a: AppState, e: Event): (r: AppState)
    requires Enabled(a, e)
    ensures e.QuestionsArrived? && e.qs.Some? ==>
              r.game == Game.StartGame(a.game, e.qs.value) && r.pending.None? &&
              r.chat == ChatLog.AddChatMessage(a.chat, Host, WelcomeText(a.pending.value), e.now)
    ensures e.AnswerClicked? ==>
              r.game == Game.Answer(a.game, e.option) &&
              r.chat == ChatLog.AddChatMessage(a.chat, User, AnswerText(e.option), e.now)
    ensures r.chat != a.chat ==> e.QuestionsArrived? || e.AnswerClicked? || e.ServerMessage?
    ensures r.topic != a.topic ==> e.SelectTopic?
    ensures r.pending != a.pending ==> e.StartClicked? || e.QuestionsArrived?
    ensures r.game.score != a.game.score ==> e.AnswerClicked? || e.QuestionsArrived?
  {
    match e
    case ChooseHost(p) => a.(game := Game.ChooseHost(a.game, p))
    case OpenSettings => a.(game := Game.ResetHost(a.game))
    case SelectTopic(t) => a.(topic := t)
    case StartClicked =>
      // `if (!gameState.personality) return;` comes before the flag is set
      if a.game.personality.None? then a else a.(pending := Some(a.topic))
    case QuestionsArrived(qs, now) =>
      // the update is applied to the state current when the questions arrive;
      // a rejected request only clears the flag (`catch` logs, `finally` resets)
      if qs.Some? then
        a.(game := Game.StartGame(a.game, qs.value),
           chat := ChatLog.AddChatMessage(a.chat, Host, WelcomeText(a.pending.value), now),
           pending := None)
      else
        a.(pending := None)
    case AnswerClicked(option, now) =>
      a.(game := Game.Answer(a.game, option), chat := ChatLog.AddChatMessage(a.chat, User, AnswerText(option), now))
    case NextClicked => a.(game := Game.NextQuestion(a.game))
    case PlayAgainClicked => a.(game := Game.PlayAgain(a.game))
    case SwitchHostClicked => a.(game := Game.ResetHost(a.game))
    case ServerMessage(c, now) => OnServerContent(a, c, now)
  }

  /** The effect of a series of user and server events; an event whose button
      is not on screen (or is disabled) cannot fire and changes nothing. */
  function Run(a: AppState, es: seq<Event>): AppState
    decreases |es|
  {
    if es == [] then a
    else Run(if Enabled(a, es[0]) then Step(a, es[0]) else a, es[1..])
  }

  /** Points earned so far never exceed 100 per question reached: the
      questions before the current one, plus the current one once answered. */
  predicate ScoreBounded(g: GameState)
  {
    g.score <= Game.PointsPerQuestion * (g.currentQuestionIndex + if g.userAnswer.Some? then 1 else 0)
  }

  /** What holds in every state the app can reach. */
  predicate Inv(a: AppState)
  {
    && a.game.score % Game.PointsPerQuestion == 0
    && Game.IndexInRange(a.game)
    && ScoreBounded(a.game)
    && |a.chat| <= ChatLog.Capacity
    && (a.game.status == Idle ==> a.game.personality.None?)
  }

  lemma InitInv()
    ensures Inv(Init)
  {
  }

  /** The start update as written keeps the invariant: the score goes back to
      0, whatever answer is still recorded. */
  lemma StartKeepsInv(a: AppState, qs: seq<TriviaQuestion>, now: int)
    requires Inv(a) && a.pending.Some?
    ensures Inv(Step(a, QuestionsArrived(Some(qs), now)))
  {
    assert ScoreBounded(Game.StartGame(a.game, qs));
  }

  /** A correct answer adds 100 points, which the answered question covers. */
  lemma AnswerKeepsInv(a: AppState, option: string, now: int)
    requires Inv(a) && Enabled(a, AnswerClicked(option, now))
    ensures Inv(Step(a, AnswerClicked(option, now)))
  {
    var g := Game.Answer(a.game, option);
    var i := a.game.currentQuestionIndex;
    assert a.game.score <= Game.PointsPerQuestion * i;
    if g.score != a.game.score {
      assert g.score == a.game.score + 100;
      assert g.score % 100 == 0;
    }
    assert g.score <= Game.PointsPerQuestion * (i + 1);
    assert g.currentQuestionIndex == i && g.userAnswer.Some?;
  }

  /** Moving on clears the answer, and the question left behind covers it. */
  lemma NextKeepsInv(a: AppState)
    requires Inv(a) && Enabled(a, NextClicked)
    ensures Inv(Step(a, NextClicked))
  {
    Game.TransitionsKeepIndexInRange(a.game, [], "");
  }

  /** Transcription messages touch only the transcription and the log. */
  lemma ServerMessageKeepsInv(a: AppState, c: ServerContent, now: int)
    requires Inv(a)
    ensures Inv(Step(a, ServerMessage(c, now)))
  {
  }

  /** Every enabled event keeps the invariant. */
  lemma StepKeepsInv(a: AppState, e: Event)
    requires Inv(a) && Enabled(a, e)
    ensures Inv(Step(a, e))
  {
    match e
    case QuestionsArrived(qs, now) =>
      if qs.Some? { StartKeepsInv(a, qs.value, now); }
    case AnswerClicked(option, now) => AnswerKeepsInv(a, option, now);
    case NextClicked => NextKeepsInv(a);
    case ServerMessage(c, now) => ServerMessageKeepsInv(a, c, now);
    case _ =>
  }

  /** Every reachable state satisfies the invariant. */
  lemma {:induction false} RunKeepsInv(a: AppState, es: seq<Event>)
    requires Inv(a)
    ensures Inv(Run(a, es))
    decreases |es|
  {
    if es != [] {
      var a' := if Enabled(a, es[0]) then Step(a, es[0]) else a;
      if Enabled(a, es[0]) { StepKeepsInv(a, es[0]); }
      RunKeepsInv(a', es[1..]);
    }
  }

  /** In any reachable state the score is at most 100 times the number of
      questions of the current game. */
  lemma {:induction false} ReachableScoreAtMostPerQuestion(es: seq<Event>)
    ensures var g := Run(Init, es).game;
            |g.questions| > 0 ==> g.score <= Game.PointsPerQuestion * |g.questions|
  {
    InitInv();
    RunKeepsInv(Init, es);
  }

  /** The score moves only by +100 (a correct answer) or back to 0 (a new game). */
  lemma ScoreSteps(a: AppState, e: Event)
    requires Enabled(a, e)
    ensures var s := Step(a, e).game.score;
            s == a.game.score
            || (s == a.game.score + Game.PointsPerQuestion && e.AnswerClicked?)
            || (s == 0 && e.QuestionsArrived?)
  {
  }

  /** FINISHED is entered only by "Next Question" on the last question (or
      with no questions at all). */
  lemma FinishedOnlyFromLastQuestion(a: AppState, e: Event)
    requires Inv(a) && Enabled(a, e)
    requires a.game.status != Finished && Step(a, e).game.status == Finished
    ensures e.NextClicked?
    ensures a.game.currentQuestionIndex + 1 == |a.game.questions| || a.game.questions == []
  {
  }

  /** Answering is locked once an answer is recorded, so each question scores
      at most once. */
  lemma AnswerScoresOnce(a: AppState, option: string, now: int, option': string, now': int)
    requires Enabled(a, AnswerClicked(option, now))
    ensures !Enabled(Step(a, AnswerClicked(option, now)), AnswerClicked(option', now'))
  {
  }

  /** A turn's transcription is logged as one host message exactly when it
      is not empty, and the transcription always starts over empty. */
  lemma TurnLogsTranscription(a: AppState, fragments: seq<string>, now: int)
    requires a.game.transcription == "" && |a.chat| <= ChatLog.Capacity
    ensures var r := TurnComplete(AppendAll(a, fragments), now);
            r.game.transcription == ""
            && (Concat(fragments) != "" ==> r.chat == ChatLog.Enqueue(a.chat, ChatMessage(Host, Concat(fragments), now)))
            && (Concat(fragments) == "" ==> r.chat == a.chat)
  {
    var t := AppendAll(a, fragments);
    AppendAllConcat(a, fragments);
    assert t.game.transcription == Concat(fragments) by {
      assert "" + Concat(fragments) == Concat(fragments);
    }
    if Concat(fragments) != "" {
      ChatLog.AddChatMessageIsEnqueue(a.chat, Host, Concat(fragments), now);
    }
  }

  /** Transcription fragments joined in arrival order. */
  function Concat(fragments: seq<string>): string
    decreases |fragments|
  {
    if fragments == [] then "" else Concat(fragments[..|fragments| - 1]) + fragments[|fragments| - 1]
  }

  /** A series of transcription-only messages. */
  function AppendAll(a: AppState, fragments: seq<string>): AppState
    decreases |fragments|
  {
    if fragments == [] then a
    else AppendAll(a, fragments[..|fragments| - 1]).(game := Game.AppendTranscription(AppendAll(a, fragments[..|fragments| - 1]).game, fragments[|fragments| - 1]))
  }

  /** Fragments accumulate in order, and nothing else changes. */
  lemma {:induction false} AppendAllConcat(a: AppState, fragments: seq<string>)
    ensures AppendAll(a, fragments).game.transcription == a.game.transcription + Concat(fragments)
    ensures AppendAll(a, fragments).chat == a.chat
    decreases |fragments|
  {
    if fragments != [] {
      AppendAllConcat(a, fragments[..|fragments| - 1]);
    }
  }

  /** The transcription-only server messages that carry `fragments`. */
  function FragmentEvents(fragments: seq<string>, now: int): (es: seq<Event>)
    ensures |es| == |fragments|
    decreases |fragments|
  {
    if fragments == [] then []
    else FragmentEvents(fragments[..|fragments| - 1], now)
         + [ServerMessage(ServerContent(Some(fragments[|fragments| - 1]), false), now)]
  }

  /** Running one more event after a series. */
  lemma {:induction false} RunSnoc(a: AppState, es: seq<Event>, e: Event)
    ensures Run(a, es + [e]) == var b := Run(a, es); if Enabled(b, e) then Step(b, e) else b
    decreases |es|
  {
    if es != [] {
      var a' := if Enabled(a, es[0]) then Step(a, es[0]) else a;
      assert (es + [e])[1..] == es[1..] + [e];
      RunSnoc(a', es[1..], e);
    }
  }

  /** `AppendAll` is what the app does when those server messages arrive. */
  lemma {:induction false} AppendAllIsRun(a: AppState, fragments: seq<string>, now: int)
    ensures AppendAll(a, fragments) == Run(a, FragmentEvents(fragments, now))
    decreases |fragments|
  {
    if fragments != [] {
      var init := fragments[..|fragments| - 1];
      var f := fragments[|fragments| - 1];
      AppendAllIsRun(a, init, now);
      RunSnoc(a, FragmentEvents(init, now), ServerMessage(ServerContent(Some(f), false), now));
    }
  }

  /** The start handler checks for a host before it awaits, and applies its
      update to whatever state is current when the questions arrive: opening
      the settings in between yields a game in PLAYING with no host. */
  lemma SettingsDuringStartLeavesNoHost()
    ensures var a := Run(Init, [ChooseHost(Game.SampleHost()), StartClicked, OpenSettings,
                                QuestionsArrived(Some([Game.SampleQuestion()]), 0)]);
            a.game.status == Playing && a.game.personality.None?
  {
  }

  /** Without a host, "Start Game" does nothing. */
  lemma StartWithoutHostIsNoOp(a: AppState)
    requires Enabled(a, StartClicked) && a.game.personality.None?
    ensures Step(a, StartClicked) == a
  {
  }
}
