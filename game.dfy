/** The `setGameState` updaters of App.tsx, each a function from the previous
    GameState to the next one. */
module Game {
  import opened Types

  /** Points for a correct answer. */
  const PointsPerQuestion: nat := 100

  /** The state the app starts in. */
  const Initial: GameState := GameState(Idle, None, 0, 0, [], None, "")

  /** The answer buttons of the current question are rendered and enabled:
      the board shows in PLAYING, the options exist only for an existing
      question, and `disabled={showResult}` locks them once `userAnswer` is
      not null. */
  predicate CanAnswer(s: GameState)
  {
    s.status == Playing && s.currentQuestionIndex < |s.questions| && s.userAnswer.None?
  }

  /** The "Next Question" button is rendered: it sits inside the panel guarded
      by `gameState.userAnswer && ...`, a truthiness test, so an empty answer
      string hides it. */
  predicate CanAdvance(s: GameState)
  {
    s.status == Playing && s.userAnswer.Some? && s.userAnswer.value != ""
  }

  /** Choosing a host on the IDLE screen. */
  function ChooseHost(s: GameState, p: HostPersonality): (r: GameState)
    ensures r.status == Setup && r.personality == Some(p)
    ensures r.(status := s.status, personality := s.personality) == s
  {
    s.(status := Setup, personality := Some(p))
  }

  /** The header's settings button and the "Switch Host" button apply the same
      update: back to IDLE, host forgotten. */
  function ResetHost(s: GameState): (r: GameState)
    ensures r.status == Idle && r.personality.None?
    ensures r.(status := s.status, personality := s.personality) == s
  {
    s.(status := Idle, personality := None)
  }

  /** "Play Again": back to topic selection, with everything else (host, old
      questions, score, answer) left as it was. */
  function PlayAgain(s: GameState): (r: GameState)
    ensures r.status == Setup
    ensures r.(status := s.status) == s
  {
    s.(status := Setup)
  }

  /** The update `handleStartGame` applies once the questions arrive, as
      written: status, questions, index and score are set, and `userAnswer`
      is left as it was. */
  function StartGame(s: GameState, qs: seq<TriviaQuestion>): (r: GameState)
    ensures r.status == Playing && r.questions == qs
    ensures r.currentQuestionIndex == 0 && r.score == 0
    ensures r.personality == s.personality && r.userAnswer == s.userAnswer
    ensures r.transcription == s.transcription
  {
    s.(status := Playing, questions := qs, currentQuestionIndex := 0, score := 0)
  }

  /** The same update with the previous game's answer cleared, so that the
      first question of the new game can be answered. */
  function StartGameFresh(s: GameState, qs: seq<TriviaQuestion>): (r: GameState)
    ensures r.status == Playing && r.questions == qs
    ensures r.currentQuestionIndex == 0 && r.score == 0
    ensures r.personality == s.personality && r.userAnswer.None?
    ensures r.transcription == s.transcription
    ensures qs != [] ==> CanAnswer(r)
  {
    StartGame(s, qs).(userAnswer := None)
  }

  /** `handleAnswer`: record the chosen option, and score 100 points exactly
      when it is the current question's correct answer. The question must
      exist: `currentQ.correctAnswer` throws on a missing one. */
  function Answer(s: GameState, option: string): (r: GameState)
    requires s.currentQuestionIndex < |s.questions|
    ensures r.userAnswer == Some(option)
    ensures r.score == s.score + PointsPerQuestion
            <==> option == s.questions[s.currentQuestionIndex].correctAnswer
    ensures option != s.questions[s.currentQuestionIndex].correctAnswer ==> r.score == s.score
    ensures r.(userAnswer := s.userAnswer, score := s.score) == s
  {
    var isCorrect := option == s.questions[s.currentQuestionIndex].correctAnswer;
    s.(userAnswer := Some(option), score := if isCorrect then s.score + PointsPerQuestion else s.score)
  }

  /** `nextQuestion`: move to the next question and clear the answer, or, on
      the last question (or with no questions at all), finish the game. */
  function NextQuestion(s: GameState): (r: GameState)
    ensures s.currentQuestionIndex < |s.questions| - 1 ==>
              r.currentQuestionIndex == s.currentQuestionIndex + 1 && r.userAnswer.None? &&
              r.(currentQuestionIndex := s.currentQuestionIndex, userAnswer := s.userAnswer) == s
    ensures s.currentQuestionIndex >= |s.questions| - 1 ==>
              r.status == Finished && r.(status := s.status) == s
  {
    if s.currentQuestionIndex < |s.questions| - 1 then
      s.(currentQuestionIndex := s.currentQuestionIndex + 1, userAnswer := None)
    else
      s.(status := Finished)
  }

  /** An `outputTranscription` fragment is appended to the running transcription. */
  function AppendTranscription(s: GameState, text: string): (r: GameState)
    ensures r.transcription == s.transcription + text
    ensures r.(transcription := s.transcription) == s
  {
    s.(transcription := s.transcription + text)
  }

  /** The game record part of `turnComplete`: the transcription is emptied. */
  function ClearTranscription(s: GameState): (r: GameState)
    ensures r.transcription == ""
    ensures r.(transcription := s.transcription) == s
  {
    s.(transcription := "")
  }

  /** The question index always points at a question, unless there are none
      (a failed parse yields an empty list that still starts a game). */
  predicate IndexInRange(s: GameState)
  {
    s.currentQuestionIndex == 0 || s.currentQuestionIndex < |s.questions|
  }

  /** Start, answer and next keep the index in range. */
  lemma TransitionsKeepIndexInRange(s: GameState, qs: seq<TriviaQuestion>, option: string)
    requires IndexInRange(s)
    ensures IndexInRange(StartGame(s, qs)) && IndexInRange(StartGameFresh(s, qs))
    ensures s.currentQuestionIndex < |s.questions| ==> IndexInRange(Answer(s, option))
    ensures IndexInRange(NextQuestion(s))
    ensures qs != [] ==> StartGame(s, qs).currentQuestionIndex < |qs|
  {
  }

  /** One host, one topic, one question with options "A" and "B". */
  function SampleHost(): HostPersonality
  {
    HostPersonality("pirate", "Captain Barnaby", "", "", "", "")
  }

  function SampleQuestion(): TriviaQuestion
  {
    TriviaQuestion("Q", ["A", "B"], "A", "", None)
  }

  /** As written, a second game begins with the first game's final answer
      still recorded: after one game played to the end, "Play Again" and a
      new start show question 1 as already answered, its buttons disabled. */
  lemma ReplayLocksFirstQuestion()
    ensures var s1 := StartGame(ChooseHost(Initial, SampleHost()), [SampleQuestion()]);
            var s2 := NextQuestion(Answer(s1, "A"));
            var s3 := StartGame(PlayAgain(s2), [SampleQuestion()]);
            CanAnswer(s1) && s2.status == Finished && s2.score == 100 &&
            s3.status == Playing && s3.currentQuestionIndex == 0 && s3.score == 0 &&
            !CanAnswer(s3)
  {
  }

  /** With the answer cleared on start, the same replay can answer question 1. */
  lemma FreshReplayAnswersFirstQuestion()
    ensures var s1 := StartGameFresh(ChooseHost(Initial, SampleHost()), [SampleQuestion()]);
            var s2 := NextQuestion(Answer(s1, "A"));
            var s3 := StartGameFresh(PlayAgain(s2), [SampleQuestion()]);
            s2.status == Finished && CanAnswer(s3)
  {
  }
}
