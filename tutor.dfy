/**
 * The live tutor component (components/LiveTutor.tsx): the refs and state
 * setters it updates from its event handlers, as the fields of one object.
 *
 * Handles (the session promise, the two audio contexts, the playback
 * sources) are numbers supplied by the caller, which stands for the
 * browser: it picks a new number for every object the component creates.
 * What the component asks of those objects (start a source, stop a
 * source, send a frame, close a handle) is recorded in fields, so that
 * the effect of each handler can be stated.
 */
module Tutor {
  import opened Wrappers
  import opened Pcm
  import opened Playback

  type SessionId = nat

  /** The status line shown to the user. */
  datatype Status =
    | ReadyToConnect
    | RequestingMicrophone
    | ConnectingToGemini
    | Connected
    | ConnectionClosed
    | ErrorOccurred
    | MicrophoneUnavailable
  {
    function Text(): string
    {
      match this
      case ReadyToConnect => "Listo para conectar"
      case RequestingMicrophone => "Solicitando micrófono..."
      case ConnectingToGemini => "Conectando con Gemini..."
      case Connected => "¡Conectado! Di \"Hello\" a tu tutor."
      case ConnectionClosed => "Conexión cerrada"
      case ErrorOccurred => "Ocurrió un error"
      case MicrophoneUnavailable => "No se pudo acceder al micrófono"
    }
  }

  /** Every status has its own line of text, so the text shown tells the
      status apart. */
  lemma StatusTextDistinct(a: Status, b: Status)
    ensures a.Text() == b.Text() <==> a == b
  {
  }

  /** An object that `stopSession` closes. */
  datatype Handle = SessionHandle(session: SessionId) | InputContext(input: ContextId) | OutputContext(output: ContextId)

  /** One `sendRealtimeInput({ media })` call on a session. */
  datatype Outbound = Outbound(session: SessionId, media: Blob)

  /** The close() calls `stopSession` makes, in its order: session, input
      context, output context, each only when its ref is set. */
  function Releases(session: Option<SessionId>, input: Option<ContextId>, output: Option<ContextId>): seq<Handle>
  {
    (if session.Some? then [SessionHandle(session.value)] else [])
    + (if input.Some? then [InputContext(input.value)] else [])
    + (if output.Some? then [OutputContext(output.value)] else [])
  }

  /** A handle is closed by `stopSession` exactly when its ref is set,
      and none is closed twice. */
  lemma ReleasesExactly(session: Option<SessionId>, input: Option<ContextId>, output: Option<ContextId>, h: Handle)
    ensures h in Releases(session, input, output) <==>
      || (h.SessionHandle? && session == Some(h.session))
      || (h.InputContext? && input == Some(h.input))
      || (h.OutputContext? && output == Some(h.output))
    ensures var r := Releases(session, input, output);
      |r| <= 3 && forall i, j :: 0 <= i < j < |r| ==> r[i] != r[j]
  {
  }

  class LiveTutor {
    var isActive: bool
    var status: Status
    var volume: real
    var session: Option<SessionId>        // sessionPromiseRef
    var inputContext: Option<ContextId>   // inputContextRef
    var audioContext: Option<ContextId>   // audioContextRef, the output context
    var nextStartTime: real               // nextStartTimeRef, the cursor
    var sources: set<SourceId>            // sourcesRef
    var started: seq<Segment>             // every source.start(t) issued
    var stopped: set<SourceId>            // every source.stop() issued
    var sent: seq<Outbound>               // every frame sent
    var closed: seq<Handle>               // every close() issued

    /** The scheduler part of the state. */
    ghost function Scheduling(): Scheduler
      reads this
    {
      Scheduler(nextStartTime, sources, stopped, started)
    }

    ghost predicate Valid()
      reads this
    {
      Consistent(Scheduling(), audioContext)
    }

    /** The state `stopSession` leaves behind. */
    predicate IsStopped()
      reads this
    {
      && session.None? && inputContext.None? && audioContext.None?
      && sources == {} && !isActive && status == ReadyToConnect && volume == 0.0
    }

    /** The component as first rendered. */
    constructor ()
      ensures Valid() && IsStopped()
      ensures nextStartTime == 0.0 && started == [] && stopped == {} && sent == [] && closed == []
    {
      isActive, status, volume := false, ReadyToConnect, 0.0;
      session, inputContext, audioContext := None, None, None;
      nextStartTime, sources := 0.0, {};
      started, stopped, sent, closed := [], {}, [], [];
    }

    /**
     * `startSession`. Without microphone access it only reports the
     * failure. With it, it opens the two contexts, resets the cursor to 0
     * and opens a session, overwriting the refs: handles left over from an
     * earlier session are not closed, and the active set is kept.
     */
    method StartSession(micGranted: bool, input: ContextId, output: ContextId, newSession: SessionId)
      requires Valid() && FreshContext(Scheduling(), output)
      modifies this`isActive, this`status, this`inputContext, this`audioContext,
               this`nextStartTime, this`session
      ensures Valid()
      ensures !micGranted ==>
        && status == MicrophoneUnavailable && !isActive
        && session == old(session) && inputContext == old(inputContext)
        && audioContext == old(audioContext) && nextStartTime == old(nextStartTime)
      ensures micGranted ==>
        && status == ConnectingToGemini && isActive
        && inputContext == Some(input) && audioContext == Some(output)
        && nextStartTime == 0.0 && session == Some(newSession)
    {
      status := RequestingMicrophone;
      if !micGranted {
        status := MicrophoneUnavailable;
        isActive := false;
        return;
      }
      status := ConnectingToGemini;
      isActive := true;
      inputContext := Some(input);
      audioContext := Some(output);
      RestartConsistent(Scheduling(), old(audioContext), output);
      nextStartTime := 0.0;
      session := Some(newSession);
    }

    /** The session's open callback. */
    method OnOpen()
      modifies this`status
      ensures status == Connected
      ensures status.Text() == "¡Conectado! Di \"Hello\" a tu tutor."
    {
      status := Connected;
    }

    /**
     * One captured frame (`onaudioprocess`): the volume shown becomes the
     * frame's level, the frame is encoded, and the blob is sent when a
     * session is set and dropped otherwise.
     */
    method OnAudioProcess(frame: array<int>, level: real)
      modifies this`volume, this`sent
      ensures volume == level
      ensures session.Some? ==> sent == old(sent) + [Outbound(session.value, PcmBlob(frame[..]))]
      ensures session.None? ==> sent == old(sent)
    {
      volume := level;
      var pcmBlob := CreatePcmBlob(frame);
      if session.Some? {
        sent := sent + [Outbound(session.value, pcmBlob)];
      }
    }

    /**
     * The message callback, run to completion as one step: schedule the
     * payload on the output context, then flush on `interrupted`. The
     * result is the error that made the handler throw, if any.
     */
    method HandleMessage(m: ServerMessage, now: real, id: SourceId) returns (failure: Option<DecodeError>)
      requires Valid() && FreshSource(Scheduling(), id)
      modifies this`nextStartTime, this`sources, this`started, this`stopped
      ensures Valid()
      ensures Scheduling() == Deliver(old(Scheduling()), audioContext, m, now, id).state
      ensures failure == Deliver(old(Scheduling()), audioContext, m, now, id).failure
    {
      ghost var p := Scheduling();
      DeliverConsistent(p, audioContext, m, now, id);
      if HasAudio(m) && audioContext.Some? {
        var ctx := audioContext.value;
        nextStartTime := Max(nextStartTime, now);
        var decoded := DecodeAudioData(m.audio.value);
        if decoded.Failure? {
          assert Scheduling() == CatchUp(p, now);
          return Some(decoded.error);
        }
        var buffer := decoded.value;
        started := started + [Segment(id, ctx, nextStartTime, buffer.Duration())];
        nextStartTime := nextStartTime + buffer.Duration();
        sources := sources + {id};
        assert Scheduling() == Schedule(p, id, ctx, now, buffer.Duration());
      }
      if m.interrupted {
        stopped := stopped + sources;
        sources := {};
        nextStartTime := 0.0;
      }
      failure := None;
    }

    /** A source's `ended` event. */
    method OnSourceEnded(id: SourceId)
      requires Valid()
      modifies this`sources
      ensures Valid()
      ensures sources == old(sources) - {id}
    {
      EndedConsistent(Scheduling(), audioContext, id);
      sources := sources - {id};
    }

    /** The session's close callback: status and flag only. */
    method OnClose()
      modifies this`status, this`isActive
      ensures status == ConnectionClosed && !isActive
      ensures status.Text() == "Conexión cerrada"
    {
      status := ConnectionClosed;
      isActive := false;
    }

    /** The session's error callback: status and flag only. */
    method OnError()
      modifies this`status, this`isActive
      ensures status == ErrorOccurred && !isActive
      ensures status.Text() == "Ocurrió un error"
    {
      status := ErrorOccurred;
      isActive := false;
    }

    /**
     * `stopSession`: close and forget each handle that is set, empty the
     * active set (without stopping its sources) and reset the flags. The
     * cursor is left as it is. From the stopped state it changes nothing,
     * so a second call leaves the state of the first.
     */
    method StopSession()
      requires Valid()
      modifies this`session, this`inputContext, this`audioContext, this`sources,
               this`isActive, this`status, this`volume, this`closed
      ensures Valid() && IsStopped()
      ensures status.Text() == "Listo para conectar"
      ensures closed == old(closed) + Releases(old(session), old(inputContext), old(audioContext))
      ensures old(IsStopped()) ==> unchanged(this)
    {
      ClearedConsistent(Scheduling(), audioContext);
      if session.Some? {
        closed := closed + [SessionHandle(session.value)];
        session := None;
      }
      if inputContext.Some? {
        closed := closed + [InputContext(inputContext.value)];
        inputContext := None;
      }
      if audioContext.Some? {
        closed := closed + [OutputContext(audioContext.value)];
        audioContext := None;
      }
      sources := {};
      isActive := false;
      status := ReadyToConnect;
      volume := 0.0;
    }
  }
}
