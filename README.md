# GeminiTrivia game core in Dafny

A model of the client-side logic of GeminiTrivia, a browser trivia game whose
host is a voice persona. The model covers:

- **the game state machine** of `App.tsx`. The `GameState` record (types.ts)
  moves through IDLE → SETUP → PLAYING → FINISHED. Module `Game` holds one
  function per `setGameState` updater: choose host, start, answer, next
  question, play again, reset host, and the transcription updates.
  Module `App` puts these together with the chat log into an event-driven
  machine. Each button or server callback is one `Event`. `Enabled` allows it
  only where the page renders the button and does not disable it. `Step`
  applies the handler's updates, and `Run` applies a series of events.
  `handleStartGame` is asynchronous: it checks for a host and captures the
  topic when clicked, then applies its update to whatever state is current
  when the questions arrive. So it is two events, `StartClicked` and
  `QuestionsArrived`.
- **the dialogue log**. `addChatMessage` keeps the last ten messages
  (`[...prev, msg].slice(-10)`), modelled in module `ChatLog` and proved to be
  a bounded FIFO. The transcription buffer collects `outputTranscription`
  fragments and is flushed into the log on `turnComplete`.
- **playback scheduling** of the live session's audio. Module `Playback` has
  a class `Scheduler` with the playback clock `nextStartTime` and the set of
  active `Source` objects. A chunk starts at the later of the clock and the
  current time, and the clock moves to the chunk's end. `onended` removes a
  source; `interrupted` stops every source, clears the set and resets the
  clock to 0. Times are reals, and chunk durations are abstract non-negative
  numbers.
- **the PCM decoding in `speakText`** (services/geminiService.ts), in module
  `Tts`. The binary string from `atob` is copied into a byte array by a loop.
  The bytes are read as signed 16-bit little-endian samples. A second loop
  divides each sample by 32768 into the single channel of a 24000 Hz buffer.

Invariants proved for every reachable `App` state (`App.RunKeepsInv`):

- the score is a multiple of 100;
- the question index points at a question, or is 0 when there are none;
- the score is at most 100 per question reached;
- the log has at most ten entries;
- IDLE has no host.

Other proved facts:

- FINISHED is entered only from the last question.
- Once an answer is recorded, answering is locked.
- A series of chunks is scheduled back to back with no overlap.
- The 16-bit view of the bytes is a bijection with its encoding.

One race is recorded as reachable behaviour (`App.SettingsDuringStartLeavesNoHost`).
If the settings button is pressed while the questions are loading, the game
enters PLAYING with no host.

Starting a game does not clear the previous answer, which is evidently
unintended (see Findings). `App.Step` applies the update as written,
`Game.StartGame`, so every App lemma is about App.tsx as it stands; the
invariants hold for it all the same. The corrected update, `Game.StartGameFresh`,
sits beside it in `Game` with the property it restores.

## Model

| member | source | states |
|---|---|---|
| ChatLog.SliceLast | App.tsx:46 | `slice(-n)` returns n elements, or the whole list when it is shorter |
| ChatLog.SliceLastIsSuffix | App.tsx:46 | what `slice(-n)` returns is the list's suffix of that length: its last elements, in order |
| ChatLog.AddChatMessage | App.tsx:45-47 | the new log has length min(old+1, 10), ends with the new message, and is the tail of old ++ [msg] in order |
| ChatLog.AddChatMessageIsEnqueue | App.tsx:46 | on any log of at most 10 entries, adding a message is a bounded FIFO push: plain append below 10, drop the oldest at 10 |
| ChatLog.AddAllKeepsLastTen | App.tsx:46 | after any series of messages the log is exactly the last 10 of history ++ messages, in arrival order |
| Game.CanAnswer | App.tsx:349-366 | the answer buttons exist only on the PLAYING board for an existing question, and are disabled once an answer is recorded |
| Game.CanAdvance | App.tsx:377-387 | "Next Question" is shown on the PLAYING board only when the recorded answer is truthy, that is, a non-empty string |
| Game.ChooseHost | App.tsx:230 | choosing a host gives SETUP with that personality; nothing else changes |
| Game.ResetHost | App.tsx:210 | the settings button and "Switch Host" (App.tsx:427, the same update) give IDLE with no personality; nothing else changes |
| Game.PlayAgain | App.tsx:421 | "Play Again" gives SETUP; every other field is unchanged |
| Game.StartGame | App.tsx:54-60 | the start update as written: PLAYING, the new questions, index 0, score 0; host, answer and transcription are kept |
| Game.StartGameFresh | App.tsx:54-60 | the corrected start update: as StartGame, and the answer is cleared, so with a non-empty question list the first question can be answered |
| Game.Answer | App.tsx:69-77 | the answer is recorded; the score rises by exactly 100 iff the option is the current question's correct answer and is unchanged otherwise; status, index and questions are untouched |
| Game.NextQuestion | App.tsx:85-95 | below the last question: index + 1, answer cleared, all else unchanged; otherwise: FINISHED with the index and all else unchanged |
| Game.AppendTranscription | App.tsx:143-145 | a transcription fragment is appended to the transcription; nothing else changes |
| Game.ClearTranscription | App.tsx:146-150 | `turnComplete` empties the transcription; nothing else changes |
| Game.TransitionsKeepIndexInRange | App.tsx:54-91 | start, answer and next keep the index pointing at a question (or 0 with no questions) |
| Game.ReplayLocksFirstQuestion | App.tsx:54-60 | as written, a full one-question game followed by "Play Again" and a new start leaves question 1 already answered and its buttons disabled |
| Game.FreshReplayAnswersFirstQuestion | App.tsx:54-60 | with the corrected start, the same replay can answer question 1 |
| App.Enabled | App.tsx:220-431 | each event fires only where its button is rendered and not disabled: host choice on IDLE, topic and start on SETUP (start not while loading), answers and next as `CanAnswer`/`CanAdvance`, play again and switch host on FINISHED, settings and server messages at any time |
| App.Step | App.tsx:49-95 | each event applies its handler's updates; the questions' arrival applies the start update as written (`Game.StartGame`) and logs the welcome message; an answer applies `Game.Answer` and logs it; only those two and server messages touch the log; only answers and starts change the score; only topic choice changes the topic |
| App.OnServerContent | App.tsx:143-151 | the fragment is appended before `turnComplete` is handled, so a fragment in the same message is part of the logged text; the turn logs the text iff it is non-empty and leaves the transcription empty; nothing else in the game record changes |
| App.Run | App.tsx:45-431 | a series of events, each applied only when enabled |
| App.TurnComplete | App.tsx:146-151 | a non-empty transcription becomes one host chat message and an empty one adds nothing; the transcription is emptied |
| App.AppendAllConcat | App.tsx:143-145 | a series of transcription fragments accumulates in arrival order and leaves the chat untouched |
| App.AppendAllIsRun | App.tsx:143-145 | that series of fragments is exactly what `Run` does with the corresponding transcription-only server messages |
| App.RunSnoc | App.tsx:45-431 | running one more event after a series applies it to the state the series reached |
| App.TurnLogsTranscription | App.tsx:142-151 | a turn's fragments are logged as one host message (a FIFO push) exactly when their concatenation is non-empty, and the transcription starts over empty |
| App.InitInv | App.tsx:23-33 | the initial state satisfies the invariant |
| App.StartKeepsInv | App.tsx:54-60 | the start update as written keeps the invariant, although the old answer stays recorded |
| App.AnswerKeepsInv | App.tsx:69-79 | an answer keeps the invariant: the 100 points it may add are covered by the question now answered |
| App.NextKeepsInv | App.tsx:85-95 | "Next Question" keeps the invariant |
| App.ServerMessageKeepsInv | App.tsx:142-151 | transcription messages keep the invariant |
| App.StepKeepsInv | App.tsx:45-95 | every enabled event keeps the invariant: score a multiple of 100 and at most 100 per question reached, index in range, log of at most 10, IDLE without a host |
| App.RunKeepsInv | App.tsx:45-95 | every state reachable by a series of events satisfies the invariant |
| App.ReachableScoreAtMostPerQuestion | App.tsx:76 | in every reachable state with questions, the score is at most 100 times their number |
| App.ScoreSteps | App.tsx:59 | the score changes only by +100 on an answer or back to 0 on a new game |
| App.FinishedOnlyFromLastQuestion | App.tsx:85-95 | FINISHED is entered only by "Next Question" on the last question (or with no questions) |
| App.AnswerScoresOnce | App.tsx:349-367 | once an answer is recorded the answer buttons are disabled, so a question scores at most once |
| App.StartWithoutHostIsNoOp | App.tsx:50 | without a host, "Start Game" changes nothing |
| App.SettingsDuringStartLeavesNoHost | App.tsx:49-60 | opening the settings while the questions load leads to PLAYING with no host |
| Playback.Source.Stop | App.tsx:154 | `stop()` marks the source stopped |
| Playback.Scheduler.constructor | App.tsx:40-41 | the clock starts at 0 with no active sources and no chunks scheduled |
| Playback.Scheduler.ScheduleChunk | App.tsx:129-139 | a chunk starts at max(clock, now), never before now and never before any active source ends; the clock moves to its end; it joins the active set; its start is the last of `Starts(0, chunks scheduled since the last reset)` |
| Playback.Scheduler.SourceEnded | App.tsx:139 | an ended source leaves the active set; the clock and the schedule are unchanged |
| Playback.Scheduler.Interrupt | App.tsx:153-157 | every active source is stopped, the set is emptied, the clock is reset to 0 and the schedule starts over |
| Playback.Scheduler.OnMessage | App.tsx:126-157 | one message: its chunk, if any, is scheduled, then an interruption stops everything including that chunk |
| Playback.Starts | App.tsx:131-137 | the start times of a series of uninterrupted chunks, one per chunk |
| Playback.StartsFirst | App.tsx:131 | the first chunk starts at the later of the clock and its arrival |
| Playback.StartsSnoc | App.tsx:131-137 | scheduling one more chunk appends max(clock, its arrival) to the start times and moves the clock by its duration, the step `ScheduleChunk` takes |
| Playback.StartsBackToBack | App.tsx:131-137 | each later chunk starts exactly when the previous one ends, or at its own arrival if that is later |
| Tts.ToUint8 | services/geminiService.ts:59 | a store into a `Uint8Array` keeps the value modulo 256, so a character code below 256 is kept as it is |
| Tts.Bytes | services/geminiService.ts:57-60 | one byte per character of the binary string |
| Tts.BinaryToBytes | services/geminiService.ts:56-60 | the byte array has the string's length, byte i is character i's code modulo 256, and equals the code for `atob` output |
| Tts.Int16At | services/geminiService.ts:62 | two bytes read little-endian as a two's-complement value in [-32768, 32767] |
| Tts.Int16View | services/geminiService.ts:62 | half as many samples as bytes, each a 16-bit value |
| Tts.Int16RoundTrip | services/geminiService.ts:62 | reading back the two bytes of a 16-bit sample gives the sample |
| Tts.BytePairRoundTrip | services/geminiService.ts:62 | every byte pair is the encoding of the sample it is read as |
| Tts.ViewOfEncoded | services/geminiService.ts:62 | the 16-bit view decodes any encoded series of samples |
| Tts.EncodedOfView | services/geminiService.ts:62 | re-encoding the view gives back the bytes: the view loses nothing |
| Tts.Normalise | services/geminiService.ts:65-67 | one channel sample per 16-bit sample |
| Tts.NormalisedInRange | services/geminiService.ts:66 | each channel sample lies in [-1, 1) and times 32768 gives back the 16-bit sample |
| Tts.FillChannel | services/geminiService.ts:64-67 | the loop fills channel 0 with sample i / 32768 at every index |
| Tts.SpeakText | services/geminiService.ts:52-72 | no audio: nothing is decoded; an odd byte count: the RangeError of `new Int16Array`; no bytes at all (a payload of whitespace only): the NotSupportedError of `createBuffer` with zero frames; otherwise a 1-channel 24000 Hz buffer with half as many frames as bytes, at least one, holding the normalised samples, all in [-1, 1) |

## Left out

- Rendering (App.tsx:190-452) is left out, except for the conditions under which each button is shown and enabled. Those are `App.Enabled`.
- The live session is left out. That is setup, microphone capture, ScriptProcessor streaming, the close and error callbacks, `stopLiveSession` and `isLiveActive`. These are network I/O and browser media APIs. Server messages are allowed at any time, which over-approximates "while a session is open".
- `generateTriviaQuestions` is left out; it is a call to a hosted service. Its result is the parameter of `QuestionsArrived`, and `None` stands for a rejected request. An unparsable reply is the empty list, which is fine as a parameter.
- `atob`, `AudioContext`, `createBuffer`, `createBufferSource`, `connect` and `start` are browser calls. `Tts.SpeakText` takes `atob`'s output and returns the buffer as a value instead of playing it.
- `decodeAudioData` and `decodeBase64` are not part of this model. The scheduler takes each chunk's duration as a number.
- Playback.Scheduler.OnMessage: it treats one message as atomic. The handler awaits `decodeAudioData` between taking the maximum and calling `start`. The model does not capture the interleaving of two overlapping decodes, nor the clock advancing during a decode.
- `Date.now()` is a parameter, `now`, of the events that log a message.
- Floating point is left out. Times are reals, and the score is an unbounded natural. Channel samples are rationals. k / 32768 for a 16-bit k needs at most 16 significant bits, so it is also exact in Float32.
- Tts.Int16View: little-endian byte order is assumed, as on every common platform. `Int16Array` uses the platform's order.
- React's batching and StrictMode double calls of updaters are left out. `turnComplete` calls `addChatMessage` inside an updater, so a double call would log twice. Updates apply in handler order.
- The personality fixtures of constants.ts are left out. `ChooseHost` takes any personality, and only `DEFAULT_TOPICS` is used.
- The `generateContent` call and the voice name in `speakText` are a hosted-service call.

## Findings

| source | as written | input that shows it | evidently intended | confidence | as-written member | corrected member |
|---|---|---|---|---|---|---|
| App.tsx:54-60 | the start update sets status, questions, index and score but never clears `userAnswer` | play a one-question game: answer "A", "Next Question" (FINISHED), "Play Again", start with one question: `userAnswer` is still "A", so question 1 shows as answered and its buttons are disabled | a new game starts with no answer recorded | high; not executed | Game.ReplayLocksFirstQuestion | Game.StartGameFresh |
