/** The dialogue log behind `addChatMessage` (App.tsx): a bounded FIFO that
    keeps the ten most recent messages. */
module ChatLog {
  import opened Types

  /** The number of messages `slice(-10)` keeps. */
  const Capacity: nat := 10

  /** JavaScript's `xs.slice(-n)` for n > 0: the start index `|xs| - n` is
      clamped at 0, so a shorter list is returned whole. */
  function SliceLast<T>(xs: seq<T>, n: nat): (r: seq<T>)
    requires n > 0
    ensures |r| == if |xs| < n then |xs| else n

  {
    var start := |xs| - n;
    xs[if start < 0 then 0 else start..]
  }

  /** What `slice(-n)` keeps is a suffix of the list: its last elements, in order. */
  lemma SliceLastIsSuffix<T>(xs: seq<T>, n: nat)
    requires n > 0
    ensures SliceLast(xs, n) == xs[|xs| - |SliceLast(xs, n)|..]
    ensures forall i :: 0 <= i < |SliceLast(xs, n)| ==> SliceLast(xs, n)[i] == xs[|xs| - |SliceLast(xs, n)| + i]
  {
  }

  /** `setChatHistory(prev => [...prev, msg].slice(-10))`. */
  function AddChatMessage(history: seq<ChatMessage>, role: MessageType, text: string, now: int): (r: seq<ChatMessage>)
    ensures |r| == if |history| < Capacity then |history| + 1 else Capacity
    ensures r[|r| - 1] == ChatMessage(role, text, now)
    ensures r == (history + [ChatMessage(role, text, now)])[|history| + 1 - |r|..]
  {
    SliceLast(history + [ChatMessage(role, text, now)], Capacity)
  }

  /** The log as a queue of at most `Capacity` entries: append, and drop the
      oldest entry when the queue was already full. */
  function Enqueue(log: seq<ChatMessage>, msg: ChatMessage): seq<ChatMessage>
    requires |log| <= Capacity
  {
    if |log| < Capacity then log + [msg] else log[1..] + [msg]
  }

  /** For every log the app can hold, `addChatMessage` is exactly the bounded
      FIFO: nothing is lost below the bound, and at the bound only the oldest
      message goes. */
  lemma AddChatMessageIsEnqueue(log: seq<ChatMessage>, role: MessageType, text: string, now: int)
    requires |log| <= Capacity
    ensures AddChatMessage(log, role, text, now) == Enqueue(log, ChatMessage(role, text, now))
  {
  }

  /** The log after a series of `addChatMessage` calls, oldest first. */
  function AddAll(history: seq<ChatMessage>, msgs: seq<ChatMessage>): seq<ChatMessage>
    decreases |msgs|
  {
    if msgs == [] then history
    else AddAll(AddChatMessage(history, msgs[0].role, msgs[0].text, msgs[0].timestamp), msgs[1..])
  }

  /** Trimming early changes nothing: the last n of (last n of xs) ++ ys are the
      last n of xs ++ ys. */
  lemma SliceLastAbsorbs<T>(xs: seq<T>, ys: seq<T>, n: nat)
    requires n > 0
    ensures SliceLast(SliceLast(xs, n) + ys, n) == SliceLast(xs + ys, n)
  {
  }

  /** One step of `AddAll`, with `addChatMessage` spelled out as a slice. */
  lemma AddAllStep(history: seq<ChatMessage>, msgs: seq<ChatMessage>)
    requires msgs != []
    ensures AddAll(history, msgs) == AddAll(SliceLast(history + [msgs[0]], Capacity), msgs[1..])
  {
  }

  /** Splitting off the first message and putting it back. */
  lemma SplitFirst(history: seq<ChatMessage>, msgs: seq<ChatMessage>)
    requires msgs != []
    ensures history + [msgs[0]] + msgs[1..] == history + msgs
  {
  }

  /** However many messages arrive, the log holds the ten most recent of them
      (with the older history in front), in arrival order. */
  lemma {:induction false} AddAllKeepsLastTen(history: seq<ChatMessage>, msgs: seq<ChatMessage>)
    requires |history| <= Capacity
    ensures AddAll(history, msgs) == SliceLast(history + msgs, Capacity)
    decreases |msgs|
  {
    if msgs != [] {
      var m, rest := msgs[0], msgs[1..];
      var h' := SliceLast(history + [m], Capacity);
      AddAllStep(history, msgs);
      AddAllKeepsLastTen(h', rest);
      SliceLastAbsorbs(history + [m], rest, Capacity);
      SplitFirst(history, msgs);
    }
  }
}
