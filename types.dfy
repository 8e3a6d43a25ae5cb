/** The records of types.ts, as Dafny values. */
module Types {

  /** `T | null` and optional properties. */
  datatype Option<+T> = None | Some(value: T)

  /** The four screens of the game. */
  datatype Status = Idle | Setup | Playing | Finished

  /** A host persona; only its identity matters to the game logic. */
  datatype HostPersonality = HostPersonality(
    id: string,
    name: string,
    description: string,
    avatar: string,
    color: string,
    systemInstruction: string)

  datatype TriviaQuestion = TriviaQuestion(
    question: string,
    options: seq<string>,
    correctAnswer: string,
    explanation: string,
    source: Option<string>)

  /** The whole game record. `score` and `currentQuestionIndex` are JavaScript
      numbers that only ever hold small non-negative integers here. */
  datatype GameState = GameState(
    status: Status,
    personality: Option<HostPersonality>,
    score: nat,
    currentQuestionIndex: nat,
    questions: seq<TriviaQuestion>,
    userAnswer: Option<string>,
    transcription: string)

  datatype MessageType = User | Host

  /** `timestamp` is whatever `Date.now()` returned; the model treats it as opaque. */
  datatype ChatMessage = ChatMessage(role: MessageType, text: string, timestamp: int)
}
