/** Back-to-back scheduling of the live session's audio chunks (App.tsx,
    `onmessage`): a playback clock `nextStartTime` and the set of sources
    still playing. Times are seconds on the audio context's clock. */
module Playback {
  import opened Types

  function Max(a: real, b: real): real
  {
    if a < b then b else a
  }

  /** A chunk as the scheduler sees it: the clock when it arrived and the
      length of its decoded buffer. */
  datatype Chunk = Chunk(arrival: real, duration: real)

  /** The start times that successive `ScheduleChunk` calls give a series of
      chunks, starting from the clock value `next`, with no interruption. */
  function Starts(next: real, chunks: seq<Chunk>): (r: seq<real>)
    ensures |r| == |chunks|
    decreases |chunks|
  {
    if chunks == [] then []
    else
      var start := Max(next, chunks[0].arrival);
      [start] + Starts(start + chunks[0].duration, chunks[1..])
  }

  /** The first chunk starts at the later of the clock and its arrival. */
  lemma StartsFirst(next: real, chunks: seq<Chunk>)
    requires chunks != []
    ensures Starts(next, chunks)[0] == Max(next, chunks[0].arrival)
  {
  }

  /** Each later chunk starts exactly when the one before it ends, or at its
      own arrival if that is later: chunks never overlap, never start before
      they arrive, and leave no gap when they arrive early. */
  lemma {:induction false} StartsBackToBack(next: real, chunks: seq<Chunk>, i: nat)
    requires 0 < i < |chunks|
    ensures Starts(next, chunks)[i]
            == Max(Starts(next, chunks)[i - 1] + chunks[i - 1].duration, chunks[i].arrival)
    decreases i
  {
    var start := Max(next, chunks[0].arrival);
    var rest := Starts(start + chunks[0].duration, chunks[1..]);
    assert Starts(next, chunks) == [start] + rest;
    if i == 1 {
      StartsFirst(start + chunks[0].duration, chunks[1..]);
    } else {
      StartsBackToBack(start + chunks[0].duration, chunks[1..], i - 1);
    }
  }

  /** The clock after a series of chunks has been scheduled from `next`. */
  function Clock(next: real, chunks: seq<Chunk>): real
    decreases |chunks|
  {
    if chunks == [] then next
    else Clock(Max(next, chunks[0].arrival) + chunks[0].duration, chunks[1..])
  }

  /** Scheduling one more chunk after a series: it starts at the later of the
      clock and its arrival, and the clock moves to its end. */
  lemma {:induction false} StartsSnoc(next: real, chunks: seq<Chunk>, c: Chunk)
    ensures Starts(next, chunks + [c]) == Starts(next, chunks) + [Max(Clock(next, chunks), c.arrival)]
    ensures Clock(next, chunks + [c]) == Max(Clock(next, chunks), c.arrival) + c.duration
    decreases |chunks|
  {
    if chunks != [] {
      var start := Max(next, chunks[0].arrival);
      assert (chunks + [c])[1..] == chunks[1..] + [c];
      StartsSnoc(start + chunks[0].duration, chunks[1..], c);
    }
  }

  /** One `AudioBufferSourceNode`: when it was told to start, how long its
      buffer lasts, and whether `stop()` has been called on it. */
  class Source {
    const start: real
    const duration: real
    var stopped: bool

    constructor (start: real, duration: real)
      ensures this.start == start && this.duration == duration && !stopped
    {
      this.start := start;
      this.duration := duration;
      stopped := false;
    }

    function End(): real
    {
      start + duration
    }

    method Stop()
      modifies this
      ensures stopped
    {
      stopped := true;
    }
  }

  /** `nextStartTimeRef` and `sourcesRef`. */
  class Scheduler {
    var nextStartTime: real
    var sources: set<Source>
    /** The chunks scheduled since the clock was last at 0. */
    ghost var scheduled: seq<Chunk>

    /** Every source still playing ends by the time the next chunk may start,
        and the clock is where the chunks scheduled since its reset left it. */
    ghost predicate Valid()
      reads this
    {
      && (forall s :: s in sources ==> 0.0 <= s.duration && s.End() <= nextStartTime)
      && nextStartTime == Clock(0.0, scheduled)
    }

    constructor ()
      ensures Valid() && nextStartTime == 0.0 && sources == {} && scheduled == []
    {
      nextStartTime := 0.0;
      sources := {};
      scheduled := [];
    }

    /** A decoded chunk of `duration` seconds arrives when the context's clock
        reads `now`: it starts at the later of the clock and the end of what is
        already queued, the clock moves to its end, and it joins the active set. */
    method ScheduleChunk(now: real, duration: real) returns (source: Source)
      requires Valid() && 0.0 <= duration
      modifies this
      ensures Valid() && fresh(source)
      ensures source.start == Max(old(nextStartTime), now) && source.duration == duration
      ensures nextStartTime == source.End()
      ensures sources == old(sources) + {source}
      ensures now <= source.start
      ensures forall s :: s in old(sources) ==> s.End() <= source.start
      ensures scheduled == old(scheduled) + [Chunk(now, duration)]
      ensures source.start == Starts(0.0, scheduled)[|scheduled| - 1]
    {
      StartsSnoc(0.0, scheduled, Chunk(now, duration));
      nextStartTime := Max(nextStartTime, now);
      source := new Source(nextStartTime, duration);
      nextStartTime := nextStartTime + duration;
      sources := sources + {source};
      scheduled := scheduled + [Chunk(now, duration)];
    }

    /** `onended`: a finished source leaves the set; the clock is untouched. */
    method SourceEnded(source: Source)
      requires Valid()
      modifies this
      ensures Valid()
      ensures sources == old(sources) - {source} && nextStartTime == old(nextStartTime)
      ensures scheduled == old(scheduled)
    {
      sources := sources - {source};
    }

    /** `interrupted`: every active source is stopped, the set is emptied and
        the clock goes back to 0. */
    method Interrupt()
      modifies this, sources
      ensures Valid()
      ensures forall s :: s in old(sources) ==> s.stopped
      ensures sources == {} && nextStartTime == 0.0 && scheduled == []
    {
      var remaining := sources;
      while remaining != {}
        invariant sources == old(sources) && remaining <= sources
        invariant forall s :: s in sources - remaining ==> s.stopped
        decreases remaining
      {
        var s :| s in remaining;
        s.Stop();
        remaining := remaining - {s};
      }
      sources := {};
      nextStartTime := 0.0;
      scheduled := [];
    }

    /** The audio and interruption branches of one `onmessage` call, in the
        handler's order: `chunk` is the decoded chunk's duration when the
        message carries audio, and `now` the clock when it arrives. */
    method OnMessage(now: real, chunk: Option<real>, interrupted: bool) returns (started: Option<Source>)
      requires Valid()
      requires chunk.Some? ==> 0.0 <= chunk.value
      modifies this, sources
      ensures Valid()
      ensures chunk.None? <==> started.None?
      ensures started.Some? ==> fresh(started.value) && started.value.start == Max(old(nextStartTime), now)
      ensures interrupted ==> sources == {} && nextStartTime == 0.0 && forall s :: s in old(sources) ==> s.stopped
      ensures interrupted && started.Some? ==> started.value.stopped
      ensures !interrupted && started.None? ==> sources == old(sources) && nextStartTime == old(nextStartTime)
      ensures !interrupted && started.Some? ==>
                sources == old(sources) + {started.value} && nextStartTime == started.value.End() &&
                this.scheduled == old(this.scheduled) + [Chunk(now, chunk.value)]
    {
      started := None;
      if chunk.Some? {
        var source := ScheduleChunk(now, chunk.value);
        started := Some(source);
      }
      if interrupted {
        Interrupt();
      }
    }
  }
}
