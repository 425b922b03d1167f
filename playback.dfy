/**
 * The playback scheduler of the live tutor (components/LiveTutor.tsx), as
 * values: the time cursor `nextStartTime`, the set of active playback
 * sources, and a record of what the scheduler asked of the audio device
 * (every `source.start(t)` and every `source.stop()`). The class in
 * tutor.dfy holds these as fields and is specified by the functions here.
 *
 * Sources and output contexts are identified by numbers; the output
 * clock's `currentTime` is a parameter `now`; times are reals in seconds.
 */
module Playback {
  import opened Wrappers
  import opened Pcm

  type SourceId = nat
  type ContextId = nat

  /** A `source.start(start)` call on output context `context`, for a
      buffer lasting `duration` seconds. */
  datatype Segment = Segment(source: SourceId, context: ContextId, start: real, duration: real)
  {
    function End(): real
    {
      start + duration
    }
  }

  /** The cursor, the active set, every source stopped so far, and every
      segment started so far in order. */
  datatype Scheduler = Scheduler(cursor: real, active: set<SourceId>, stopped: set<SourceId>, log: seq<Segment>)

  function Max(a: real, b: real): (m: real)
    ensures m >= a && m >= b && (m == a || m == b)
  {
    if a >= b then a else b
  }

  /** The cursor catches up with the output clock (before the decode). */
  function CatchUp(p: Scheduler, now: real): (q: Scheduler)
    ensures q.cursor >= now && q.cursor >= p.cursor && (q.cursor == now || q.cursor == p.cursor)
    ensures q.active == p.active && q.stopped == p.stopped && q.log == p.log
  {
    p.(cursor := Max(p.cursor, now))
  }

  /** Start the source at the cursor, advance the cursor by its duration
      and add it to the active set. */
  function Launch(p: Scheduler, id: SourceId, context: ContextId, duration: real): (q: Scheduler)
    ensures |q.log| == |p.log| + 1 && q.log[..|p.log|] == p.log
    ensures q.log[|p.log|].source == id && q.log[|p.log|].context == context
    ensures q.log[|p.log|].start == p.cursor && q.log[|p.log|].duration == duration
    ensures q.cursor == q.log[|p.log|].End()
    ensures id in q.active && q.active - {id} == p.active - {id} && q.stopped == p.stopped
  {
    Scheduler(p.cursor + duration, p.active + {id}, p.stopped,
              p.log + [Segment(id, context, p.cursor, duration)])
  }

  /** One scheduling step for a decoded segment. */
  function Schedule(p: Scheduler, id: SourceId, context: ContextId, now: real, duration: real): (q: Scheduler)
    ensures |q.log| == |p.log| + 1 && q.log[..|p.log|] == p.log
    ensures q.log[|p.log|] == Segment(id, context, Max(p.cursor, now), duration)
    ensures q.log[|p.log|].start >= now
    ensures q.cursor == q.log[|p.log|].start + duration
    ensures q.active == p.active + {id} && q.stopped == p.stopped
  {
    Launch(CatchUp(p, now), id, context, duration)
  }

  /** The `ended` event of a source: it leaves the active set. */
  function Ended(p: Scheduler, id: SourceId): (q: Scheduler)
    ensures id !in q.active && q.active <= p.active && p.active <= q.active + {id}
    ensures q.cursor == p.cursor && q.stopped == p.stopped && q.log == p.log
  {
    p.(active := p.active - {id})
  }

  /** Barge-in: stop every active source, empty the set, cursor to 0. */
  function Interrupt(p: Scheduler): (q: Scheduler)
    ensures q.active == {} && q.cursor == 0.0
    ensures p.active <= q.stopped && q.stopped - p.active == p.stopped - p.active
    ensures q.log == p.log
  {
    p.(cursor := 0.0, active := {}, stopped := p.stopped + p.active)
  }

  /** The parts of an inbound server message the scheduler reads: the
      inline data of the first part of the model turn, and the
      `interrupted` flag. */
  datatype ServerMessage = ServerMessage(audio: Option<string>, interrupted: bool)

  /** The payload is present and, being a non-empty string, truthy. */
  function HasAudio(m: ServerMessage): (b: bool)
    ensures b <==> m.audio.Some? && |m.audio.value| > 0
  {
    m.audio.Some? && m.audio.value != ""
  }

  /** The scheduler after a message, and the decode error that made the
      asynchronous handler reject, if any. */
  datatype Delivery = Delivery(state: Scheduler, failure: Option<DecodeError>)

  /** The message handler: schedule the payload when there is one and an
      output context to play it on, then flush on `interrupted`. A payload
      that fails to decode aborts the handler after the cursor caught up,
      so its `interrupted` flag is never looked at. */
  function Deliver(p: Scheduler, output: Option<ContextId>, m: ServerMessage, now: real, id: SourceId): (d: Delivery)
    ensures d.failure.Some? ==> HasAudio(m) && output.Some? && d.state == CatchUp(p, now)
    ensures d.failure.None? && m.interrupted ==> d.state.active == {} && d.state.cursor == 0.0
    ensures d.state.log == p.log || (HasAudio(m) && output.Some? && d.failure.None? && |d.state.log| == |p.log| + 1
                                     && d.state.log[..|p.log|] == p.log && d.state.log[|p.log|].source == id)
  {
    if HasAudio(m) && output.Some? then
      match DecodeAudio(m.audio.value)
      case Failure(e) => Delivery(CatchUp(p, now), Some(e))
      case Success(buffer) =>
        var q := Schedule(p, id, output.value, now, buffer.Duration());
        Delivery(if m.interrupted then Interrupt(q) else q, None)
    else
      Delivery(if m.interrupted then Interrupt(p) else p, None)
  }

  // ---------------------------------------------------------------------
  // The scheduler's invariant

  predicate FreshSource(p: Scheduler, id: SourceId)
  {
    forall i :: 0 <= i < |p.log| ==> p.log[i].source != id
  }

  predicate FreshContext(p: Scheduler, context: ContextId)
  {
    forall i :: 0 <= i < |p.log| ==> p.log[i].context != context
  }

  /**
   * Every active source was started once, with a non-negative duration;
   * two active sources on the same output context never overlap; and on
   * the current output context every active source ends by the cursor.
   */
  ghost predicate Consistent(p: Scheduler, current: Option<ContextId>)
  {
    && (forall i :: 0 <= i < |p.log| ==> p.log[i].duration >= 0.0)
    && (forall i, j :: 0 <= i < j < |p.log| ==> p.log[i].source != p.log[j].source)
    && (forall id :: id in p.active ==> exists i :: 0 <= i < |p.log| && p.log[i].source == id)
    && (forall i, j ::
          (0 <= i < j < |p.log| && p.log[i].source in p.active && p.log[j].source in p.active
           && p.log[i].context == p.log[j].context) ==> p.log[i].End() <= p.log[j].start)
    && (current.Some? ==> forall i ::
          (0 <= i < |p.log| && p.log[i].source in p.active && p.log[i].context == current.value)
          ==> p.log[i].End() <= p.cursor)
  }

  lemma InitialConsistent(current: Option<ContextId>)
    ensures Consistent(Scheduler(0.0, {}, {}, []), current)
  {
  }

  lemma CatchUpConsistent(p: Scheduler, current: Option<ContextId>, now: real)
    requires Consistent(p, current)
    ensures Consistent(CatchUp(p, now), current)
  {
  }

  /** Launching at the cursor a fresh source of non-negative duration on
      the current output context keeps the invariant: the new segment
      starts where every active one on that context has ended. */
  lemma LaunchConsistent(p: Scheduler, id: SourceId, context: ContextId, duration: real)
    requires Consistent(p, Some(context)) && FreshSource(p, id) && duration >= 0.0
    ensures Consistent(Launch(p, id, context, duration), Some(context))
  {
    var q := Launch(p, id, context, duration);
    var n := |p.log|;
    assert q.log[n] == Segment(id, context, p.cursor, duration);
    forall x | x in q.active
      ensures exists i :: 0 <= i < |q.log| && q.log[i].source == x
    {
      if x == id {
        assert q.log[n].source == x;
      } else {
        var i :| 0 <= i < n && p.log[i].source == x;
        assert q.log[i].source == x;
      }
    }
    forall i, j | 0 <= i < j < |q.log| && q.log[i].source in q.active && q.log[j].source in q.active
      && q.log[i].context == q.log[j].context
      ensures q.log[i].End() <= q.log[j].start
    {
      if j == n {
        assert q.log[i] == p.log[i];
        assert p.log[i].source != id;
      }
    }
  }

  lemma EndedConsistent(p: Scheduler, current: Option<ContextId>, id: SourceId)
    requires Consistent(p, current)
    ensures Consistent(Ended(p, id), current)
  {
  }

  lemma InterruptConsistent(p: Scheduler, current: Option<ContextId>)
    requires Consistent(p, current)
    ensures Consistent(Interrupt(p), current)
  {
  }

  /** A fresh output context with the cursor back at 0: nothing active on
      it yet, so the invariant carries over. */
  lemma RestartConsistent(p: Scheduler, current: Option<ContextId>, newContext: ContextId)
    requires Consistent(p, current) && FreshContext(p, newContext)
    ensures Consistent(p.(cursor := 0.0), Some(newContext))
  {
  }

  /** With the set emptied and no output context the invariant holds
      whatever the cursor. */
  lemma ClearedConsistent(p: Scheduler, current: Option<ContextId>)
    requires Consistent(p, current)
    ensures Consistent(p.(active := {}), None)
  {
  }

  /** Every inbound message keeps the invariant. */
  lemma DeliverConsistent(p: Scheduler, output: Option<ContextId>, m: ServerMessage, now: real, id: SourceId)
    requires Consistent(p, output) && FreshSource(p, id)
    ensures Consistent(Deliver(p, output, m, now, id).state, output)
  {
    if HasAudio(m) && output.Some? {
      match DecodeAudio(m.audio.value)
      case Failure(_) =>
        CatchUpConsistent(p, output, now);
      case Success(buffer) =>
        CatchUpConsistent(p, output, now);
        LaunchConsistent(CatchUp(p, now), id, output.value, buffer.Duration());
        var q := Schedule(p, id, output.value, now, buffer.Duration());
        if m.interrupted {
          InterruptConsistent(q, output);
        }
    } else if m.interrupted {
      InterruptConsistent(p, output);
    }
  }

  // ---------------------------------------------------------------------
  // What one message does

  /** A decodable payload with an output context starts at max(cursor,
      now); the cursor then sits at that start plus the buffer's duration
      (its frames over 24000) and the source joins the active set; nothing
      is stopped unless the message also says `interrupted`. */
  lemma DeliverSchedules(p: Scheduler, output: Option<ContextId>, m: ServerMessage, now: real, id: SourceId)
    requires HasAudio(m) && output.Some? && DecodeAudio(m.audio.value).Success? && !m.interrupted
    ensures var d := Deliver(p, output, m, now, id);
      var frames := |DecodeAudio(m.audio.value).value.channel|;
      var start := Max(p.cursor, now);
      && d.failure.None?
      && d.state.log == p.log + [Segment(id, output.value, start, frames as real / 24000.0)]
      && d.state.cursor == start + frames as real / 24000.0
      && d.state.active == p.active + {id}
      && d.state.stopped == p.stopped
  {
  }

  /** A message with both audio and `interrupted`: the new segment is
      started first and then stopped by the flush, leaving the set empty
      and the cursor at 0. */
  lemma DeliverAudioThenFlush(p: Scheduler, output: Option<ContextId>, m: ServerMessage, now: real, id: SourceId)
    requires HasAudio(m) && output.Some? && DecodeAudio(m.audio.value).Success? && m.interrupted
    ensures var d := Deliver(p, output, m, now, id);
      && d.failure.None?
      && |d.state.log| == |p.log| + 1 && d.state.log[|p.log|].source == id
      && d.state.log[|p.log|].start == Max(p.cursor, now)
      && d.state.active == {} && d.state.cursor == 0.0
      && d.state.stopped == p.stopped + p.active + {id}
  {
  }

  /** Without a payload, or without an output context, the cursor and the
      active set change only through an interruption. */
  lemma DeliverWithoutAudio(p: Scheduler, output: Option<ContextId>, m: ServerMessage, now: real, id: SourceId)
    requires !HasAudio(m) || output.None?
    ensures var d := Deliver(p, output, m, now, id);
      && d.failure.None? && d.state.log == p.log
      && (!m.interrupted ==> d.state == p)
      && (m.interrupted ==> d.state.active == {} && d.state.cursor == 0.0
                            && d.state.stopped == p.stopped + p.active)
  {
  }

  /** A payload that fails to decode leaves only the caught-up cursor
      behind: nothing is started, nothing stopped, even when the message
      also says `interrupted`. */
  lemma DeliverDecodeFailure(p: Scheduler, output: Option<ContextId>, m: ServerMessage, now: real, id: SourceId)
    requires HasAudio(m) && output.Some? && DecodeAudio(m.audio.value).Failure?
    ensures var d := Deliver(p, output, m, now, id);
      && d.failure == Some(DecodeAudio(m.audio.value).error)
      && d.state == p.(cursor := Max(p.cursor, now))
  {
  }

  /** The `ended` event removes exactly that source. */
  lemma EndedRemovesOnlyThatSource(p: Scheduler, id: SourceId)
    ensures Ended(p, id).active == p.active - {id}
    ensures id !in Ended(p, id).active
    ensures Ended(p, id).cursor == p.cursor && Ended(p, id).log == p.log
  {
  }

  /** The `ended` events that stopped sources fire after a flush change
      nothing. */
  lemma EndedAfterInterrupt(p: Scheduler, id: SourceId)
    ensures Ended(Interrupt(p), id) == Interrupt(p)
  {
  }

  /** After a flush the next segment starts at the live output time, not at
      the stale cursor. */
  lemma ScheduleAfterInterrupt(p: Scheduler, id: SourceId, context: ContextId, now: real, duration: real)
    requires now >= 0.0
    ensures var q := Schedule(Interrupt(p), id, context, now, duration);
      q.log[|q.log| - 1].start == now && q.cursor == now + duration
  {
  }

  // ---------------------------------------------------------------------
  // A run of segments

  /** A decoded segment as the scheduler receives it: its source, the
      output clock when it arrives, and its duration. */
  datatype Arrival = Arrival(source: SourceId, now: real, duration: real)

  /** The start time of each of a run of arrivals, from a cursor. */
  function StartTimes(cursor: real, arrivals: seq<Arrival>): (starts: seq<real>)
    ensures |starts| == |arrivals|
    decreases |arrivals|
  {
    if arrivals == [] then []
    else
      var s := Max(cursor, arrivals[0].now);
      [s] + StartTimes(s + arrivals[0].duration, arrivals[1..])
  }

  /** The scheduler after a run of arrivals on one output context, with no
      interruption. */
  function ScheduleAll(p: Scheduler, context: ContextId, arrivals: seq<Arrival>): Scheduler
    decreases |arrivals|
  {
    if arrivals == [] then p
    else ScheduleAll(Schedule(p, arrivals[0].source, context, arrivals[0].now, arrivals[0].duration),
                     context, arrivals[1..])
  }

  /** A run appends one segment per arrival, at the start times above, and
      leaves the cursor at the end of the last one. */
  lemma {:induction false} ScheduleAllLog(p: Scheduler, context: ContextId, arrivals: seq<Arrival>)
    ensures var q := ScheduleAll(p, context, arrivals);
      var starts := StartTimes(p.cursor, arrivals);
      && |q.log| == |p.log| + |arrivals| && q.log[..|p.log|] == p.log
      && (forall k :: 0 <= k < |arrivals| ==>
            q.log[|p.log| + k] == Segment(arrivals[k].source, context, starts[k], arrivals[k].duration))
      && (arrivals != [] ==> q.cursor == starts[|arrivals| - 1] + arrivals[|arrivals| - 1].duration)
    decreases |arrivals|
  {
    if arrivals != [] {
      var a := arrivals[0];
      var p1 := Schedule(p, a.source, context, a.now, a.duration);
      ScheduleAllLog(p1, context, arrivals[1..]);
      var q := ScheduleAll(p, context, arrivals);
      var starts := StartTimes(p.cursor, arrivals);
      assert starts[1..] == StartTimes(p1.cursor, arrivals[1..]);
      assert q.log[..|p.log|] == p.log by {
        assert q.log[..|p1.log|] == p1.log;
        assert p1.log[..|p.log|] == p.log;
      }
      forall k | 0 <= k < |arrivals|
        ensures q.log[|p.log| + k] == Segment(arrivals[k].source, context, starts[k], arrivals[k].duration)
      {
        if k == 0 {
          assert q.log[|p.log|] == p1.log[|p.log|];
        } else {
          assert arrivals[1..][k - 1] == arrivals[k];
          assert |p1.log| + (k - 1) == |p.log| + k;
        }
      }
    }
  }

  /** Consecutive segments never overlap, and they are back to back,
      start(i+1) = start(i) + d(i), exactly when the output clock has not
      passed the cursor when segment i+1 arrives. */
  lemma {:induction false} BackToBack(cursor: real, arrivals: seq<Arrival>)
    ensures var starts := StartTimes(cursor, arrivals);
      && (arrivals != [] ==> starts[0] == Max(cursor, arrivals[0].now))
      && (forall k :: 1 <= k < |arrivals| ==>
            starts[k] >= starts[k - 1] + arrivals[k - 1].duration)
      && (forall k :: 1 <= k < |arrivals| ==>
            (starts[k] == starts[k - 1] + arrivals[k - 1].duration
             <==> arrivals[k].now <= starts[k - 1] + arrivals[k - 1].duration))
    decreases |arrivals|
  {
    if arrivals != [] {
      var s := Max(cursor, arrivals[0].now);
      var rest := arrivals[1..];
      BackToBack(s + arrivals[0].duration, rest);
      var starts := StartTimes(cursor, arrivals);
      assert starts[1..] == StartTimes(s + arrivals[0].duration, rest);
      assert starts[0] == s;
      if |arrivals| >= 2 {
        assert starts[1] == Max(s + arrivals[0].duration, rest[0].now);
      }
      var tail := starts[1..];
      forall k | 2 <= k < |arrivals|
        ensures starts[k] >= starts[k - 1] + arrivals[k - 1].duration
        ensures starts[k] == starts[k - 1] + arrivals[k - 1].duration
                <==> arrivals[k].now <= starts[k - 1] + arrivals[k - 1].duration
      {
        assert starts[k] == tail[k - 1] && starts[k - 1] == tail[k - 2];
        assert rest[k - 1] == arrivals[k] && rest[k - 2] == arrivals[k - 1];
      }
    }
  }

  /** Two segments of 1.0 s and 0.5 s arriving at output time 0 with the
      cursor at 0 start at 0.0 and 1.0 and leave the cursor at 1.5. */
  lemma TwoSegmentScenario(context: ContextId)
    ensures var arrivals := [Arrival(1, 0.0, 1.0), Arrival(2, 0.0, 0.5)];
      && StartTimes(0.0, arrivals) == [0.0, 1.0]
      && ScheduleAll(Scheduler(0.0, {}, {}, []), context, arrivals).cursor == 1.5
  {
    var arrivals := [Arrival(1, 0.0, 1.0), Arrival(2, 0.0, 0.5)];
    assert arrivals[1..] == [Arrival(2, 0.0, 0.5)];
    assert arrivals[1..][1..] == [];
    var p0 := Scheduler(0.0, {}, {}, []);
    var p1 := Schedule(p0, 1, context, 0.0, 1.0);
    assert p1.cursor == 1.0;
    var p2 := Schedule(p1, 2, context, 0.0, 0.5);
    assert p2.cursor == 1.5;
    assert ScheduleAll(p1, context, arrivals[1..]) == ScheduleAll(p2, context, []);
  }
}
