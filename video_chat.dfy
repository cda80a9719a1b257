/**
 * The VideoChat component of client/src/ui/components/video-chat/VideoChat.tsx. Its
 * mount effect creates the socket and the peer connection, registers the socket
 * handlers at once and starts acquiring the camera in the background; the `ready` and
 * `offer` handlers wait (by polling) until a local stream is held. Buttons toggle the
 * microphone and the camera and leave the room.
 */
module VideoChat {
  import opened Wrappers
  import opened WebRtc

  /** The message `permissionError` is set to when getUserMedia rejects. */
  const PermissionDenied: string := "Доступ к камере/микрофону запрещён"

  /** The track with its `enabled` flag negated. */
  function Flip(t: Track): Track
  {
    t.(enabled := !t.enabled)
  }

  /** The stream after `track.enabled = !track.enabled` on every track of kind `k`. */
  function ToggleKind(s: seq<Track>, k: Kind): (r: seq<Track>)
    ensures |r| == |s|
  {
    if s == [] then []
    else
      var last := s[|s| - 1];
      ToggleKind(s[..|s| - 1], k) + [if last.kind == k then Flip(last) else last]
  }

  /** The `enabled` flag of the last track of kind `k`, if there is one. */
  function LastEnabled(s: seq<Track>, k: Kind): Option<bool>
  {
    if s == [] then None
    else if s[|s| - 1].kind == k then Some(s[|s| - 1].enabled)
    else LastEnabled(s[..|s| - 1], k)
  }

  /**
   * A toggle flips `enabled` on exactly the tracks of its kind and changes nothing
   * else: the same tracks in the same order, the other kind untouched.
   */
  lemma {:induction false} ToggleKindAt(s: seq<Track>, k: Kind, i: nat)
    requires i < |s|
    ensures |ToggleKind(s, k)| == |s|
    ensures s[i].kind == k ==> ToggleKind(s, k)[i] == Flip(s[i])
    ensures s[i].kind != k ==> ToggleKind(s, k)[i] == s[i]
    decreases |s|
  {
    var init := s[..|s| - 1];
    if i < |s| - 1 {
      ToggleKindAt(init, k, i);
      assert init[i] == s[i];
    } else if init != [] {
      ToggleKindAt(init, k, 0);
    }
  }

  /** Toggling a stream with one more track at the end toggles that track after the rest. */
  lemma ToggleKindSnoc(a: seq<Track>, x: Track, k: Kind)
    ensures ToggleKind(a + [x], k) == ToggleKind(a, k) + [if x.kind == k then Flip(x) else x]
  {
    assert (a + [x])[..|a|] == a;
  }

  /** Toggling the same kind twice restores every track. */
  lemma {:induction false} ToggleKindTwice(s: seq<Track>, k: Kind)
    ensures ToggleKind(ToggleKind(s, k), k) == s
    decreases |s|
  {
    if s != [] {
      var init, last := s[..|s| - 1], s[|s| - 1];
      var y := if last.kind == k then Flip(last) else last;
      calc {
        ToggleKind(ToggleKind(s, k), k);
        ToggleKind(ToggleKind(init, k) + [y], k);
        { ToggleKindSnoc(ToggleKind(init, k), y, k); }
        ToggleKind(ToggleKind(init, k), k) + [if y.kind == k then Flip(y) else y];
        { ToggleKindTwice(init, k); }
        init + [last];
      }
    }
  }

  /** After a toggle the last track of the kind shows the negation of its former flag. */
  lemma {:induction false} LastEnabledToggled(s: seq<Track>, k: Kind)
    ensures LastEnabled(ToggleKind(s, k), k) ==
              if LastEnabled(s, k).Some? then Some(!LastEnabled(s, k).value) else None
    decreases |s|
  {
    if s != [] {
      var init := s[..|s| - 1];
      var once := ToggleKind(s, k);
      if init != [] {
        ToggleKindAt(init, k, 0);
      }
      assert once[..|once| - 1] == ToggleKind(init, k);
      LastEnabledToggled(init, k);
    }
  }

  /** The last track of the kind in a stream with one more track at the end. */
  lemma LastEnabledSnoc(a: seq<Track>, y: Track, k: Kind)
    ensures LastEnabled(a + [y], k) == if y.kind == k then Some(y.enabled) else LastEnabled(a, k)
  {
    assert (a + [y])[..|a|] == a;
  }

  /**
   * The `forEach` of `toggleMicro`/`toggleCamera` over the tracks of kind `k`: each is
   * flipped in turn and the React flag is set to its new value, so the flag ends as the
   * last such track's new value, or as it was when the stream has none.
   */
  method ToggleTracks(stream: seq<Track>, k: Kind, flag: bool) returns (toggled: seq<Track>, newFlag: bool)
    ensures toggled == ToggleKind(stream, k)
    ensures newFlag == if LastEnabled(toggled, k).Some? then LastEnabled(toggled, k).value else flag
  {
    toggled := [];
    newFlag := flag;
    var i := 0;
    while i < |stream|
      invariant 0 <= i <= |stream|
      invariant toggled == ToggleKind(stream[..i], k)
      invariant newFlag == if LastEnabled(toggled, k).Some? then LastEnabled(toggled, k).value else flag
    {
      var x := stream[i];
      var y := if x.kind == k then Flip(x) else x;
      assert stream[..i + 1] == stream[..i] + [x];
      ToggleKindSnoc(stream[..i], x, k);
      LastEnabledSnoc(toggled, y, k);
      toggled := toggled + [y];
      if x.kind == k {
        newFlag := y.enabled;
      }
      i := i + 1;
    }
    assert stream[..i] == stream;
  }

  /** A `ready` or `offer` handler suspended in its polling loop until a stream is held. */
  datatype Waiter = WaitingReady | WaitingOffer(payload: Payload)

  /**
   * No offer is created and no answer path runs (a remote description followed by
   * createAnswer) in `t`.
   */
  ghost predicate Gated(t: seq<Action>)
  {
    forall i :: 0 <= i < |t| ==>
      t[i] != CreateOffer && t[i] != CreateAnswer && !(t[i].SetRemote? && i + 1 < |t| && t[i + 1] == CreateAnswer)
  }

  /** Appending to a gated trace actions that create nothing and do not start with createAnswer keeps it gated. */
  lemma {:induction false} GatedAppend(t: seq<Action>, u: seq<Action>)
    requires Gated(t) && Gated(u) && (u != [] ==> u[0] != CreateAnswer)
    ensures Gated(t + u)
  {
    var tu := t + u;
    forall i | 0 <= i < |tu|
      ensures tu[i] != CreateOffer && tu[i] != CreateAnswer
              && !(tu[i].SetRemote? && i + 1 < |tu| && tu[i + 1] == CreateAnswer)
    {
      if i < |t| {
        assert tu[i] == t[i];
        if i + 1 < |t| { assert tu[i + 1] == t[i + 1]; }
        else if i + 1 < |tu| { assert tu[i + 1] == u[0]; }
      } else {
        assert tu[i] == u[i - |t|];
        if i + 1 < |tu| { assert tu[i + 1] == u[i + 1 - |t|]; }
      }
    }
  }

  /** The rendered component: its refs, its React state and the calls it has made. */
  class Chat {
    const roomId: RoomId
    var localStream: Option<seq<Track>>
    var mediaPending: bool
    var permissionError: Option<string>
    var micro: bool
    var camera: bool
    var waiters: seq<Waiter>
    /** A teardown closed the peer connection and disconnected the socket. */
    var closed: bool
    var trace: seq<Action>
    /** The length of the trace when the stream was obtained. */
    ghost var streamAt: nat

    /**
     * Negotiation waits for the stream: while none is held the trace is gated, and
     * once one is held everything before that point is.
     */
    ghost predicate Valid()
      reads this
    {
      && (mediaPending ==> localStream.None?)
      && (localStream.None? ==> Gated(trace))
      && (localStream.Some? ==> streamAt <= |trace| && Gated(trace[..streamAt]))
    }

    /**
     * The first render and its effect: flags on, no error, then the socket, the peer
     * connection with the STUN server only, and the socket handlers, while getUserMedia
     * is pending.
     */
    constructor (roomId: RoomId)
      ensures Valid()
      ensures this.roomId == roomId && localStream == None && mediaPending && !closed
      ensures permissionError == None && micro && camera && waiters == []
      ensures trace == [CreateSocket, CreatePeerConnection(StunOnly), ListenSocket]
    {
      this.roomId := roomId;
      localStream := None;
      mediaPending := true;
      permissionError := None;
      micro := true;
      camera := true;
      waiters := [];
      closed := false;
      trace := [CreateSocket, CreatePeerConnection(StunOnly), ListenSocket];
      streamAt := 0;
    }

    /** Appends actions while no stream is held, keeping the trace gated. */
    method RecordUngated(u: seq<Action>)
      requires Valid() && Gated(u) && (u != [] ==> u[0] != CreateAnswer)
      modifies this`trace
      ensures Valid() && trace == old(trace) + u
    {
      if localStream.None? {
        GatedAppend(trace, u);
      } else {
        assert (trace + u)[..streamAt] == trace[..streamAt];
      }
      trace := trace + u;
    }

    /** Appends actions once a stream is held; the gated prefix is untouched. */
    method RecordHolding(u: seq<Action>)
      requires Valid() && localStream.Some?
      modifies this`trace
      ensures Valid() && trace == old(trace) + u
    {
      assert (trace + u)[..streamAt] == trace[..streamAt];
      trace := trace + u;
    }

    /**
     * `initMedia` settles: on success the stream is held, its tracks are added and the
     * error is cleared; on failure the error message is set and nothing else changes.
     * After a teardown the stream is still held, but the first addTrack on the closed
     * peer connection throws and the catch sets the error message.
     */
    method MediaSettled(media: Option<seq<Track>>)
      requires Valid()
      modifies this
      ensures Valid() && !mediaPending && closed == old(closed)
      ensures micro == old(micro) && camera == old(camera) && waiters == old(waiters)
      ensures !old(mediaPending) ==>
                localStream == old(localStream) && trace == old(trace) && permissionError == old(permissionError)
      ensures old(mediaPending) && media.Some? && !closed ==>
                localStream == media && trace == old(trace) + AddTrackActions(media.value) && permissionError == None
      ensures old(mediaPending) && media.Some? && closed ==>
                localStream == media
                && (media.value == [] ==> trace == old(trace) && permissionError == None)
                && (media.value != [] ==>
                      trace == old(trace) + [AddTrack(media.value[0])] && permissionError == Some(PermissionDenied))
      ensures old(mediaPending) && media.None? ==>
                localStream == old(localStream) && trace == old(trace) && permissionError == Some(PermissionDenied)
    {
      if !mediaPending {
        return;
      }
      mediaPending := false;
      if media.None? {
        permissionError := Some(PermissionDenied);
        return;
      }
      var stream := media.value;
      var added: seq<Action> := [];
      var failed := false;
      var i := 0;
      while i < |stream| && !failed
        invariant 0 <= i <= |stream|
        invariant !closed ==> !failed && added == AddTrackActions(stream[..i])
        invariant closed ==> (failed <==> i > 0) && (failed ==> i == 1 && added == [AddTrack(stream[0])])
        invariant closed && !failed ==> added == []
      {
        assert AddTrackActions(stream[..i + 1]) == AddTrackActions(stream[..i]) + [AddTrack(stream[i])];
        added := added + [AddTrack(stream[i])];
        failed := closed;
        i := i + 1;
      }
      assert !closed ==> stream[..i] == stream;
      streamAt := |trace|;
      assert (trace + added)[..streamAt] == trace;
      localStream := media;
      trace := trace + added;
      permissionError := if failed then Some(PermissionDenied) else None;
    }

    /** `toggleMicro`: with no stream nothing happens. */
    method ToggleMicro()
      requires Valid()
      modifies this`localStream, this`micro
      ensures Valid() && camera == old(camera)
      ensures old(localStream).None? ==> localStream == None && micro == old(micro)
      ensures old(localStream).Some? ==>
                localStream == Some(ToggleKind(old(localStream).value, Audio))
                && micro == (if LastEnabled(localStream.value, Audio).Some?
                             then LastEnabled(localStream.value, Audio).value else old(micro))
    {
      if localStream.None? {
        return;
      }
      var toggled, flag := ToggleTracks(localStream.value, Audio, micro);
      localStream := Some(toggled);
      micro := flag;
    }

    /** `toggleCamera`: with no stream nothing happens. */
    method ToggleCamera()
      requires Valid()
      modifies this`localStream, this`camera
      ensures Valid() && micro == old(micro)
      ensures old(localStream).None? ==> localStream == None && camera == old(camera)
      ensures old(localStream).Some? ==>
                localStream == Some(ToggleKind(old(localStream).value, Video))
                && camera == (if LastEnabled(localStream.value, Video).Some?
                              then LastEnabled(localStream.value, Video).value else old(camera))
    {
      if localStream.None? {
        return;
      }
      var toggled, flag := ToggleTracks(localStream.value, Video, camera);
      localStream := Some(toggled);
      camera := flag;
    }

    /** `connect`: join the room; this handler does not wait for the stream. A disconnected socket delivers nothing. */
    method OnConnect()
      requires Valid()
      modifies this`trace
      ensures Valid() && trace == old(trace) + (if closed then [] else [EmitSignal(Join, RoomName(roomId))])
    {
      if !closed {
        RecordUngated([EmitSignal(Join, RoomName(roomId))]);
      }
    }

    /** `ready`: create and send the offer if a stream is held, otherwise wait for one. */
    method OnReady(offerText: string)
      requires Valid()
      modifies this`trace, this`waiters
      ensures Valid()
      ensures closed ==> trace == old(trace) && waiters == old(waiters)
      ensures !closed && old(localStream).Some? ==>
                trace == old(trace) + ReadyActions(roomId, Sdp(OfferSdp, offerText)) && waiters == old(waiters)
      ensures !closed && old(localStream).None? ==> trace == old(trace) && waiters == old(waiters) + [WaitingReady]
    {
      if closed {
        return;
      }
      if localStream.Some? {
        RecordHolding(ReadyActions(roomId, Sdp(OfferSdp, offerText)));
      } else {
        waiters := waiters + [WaitingReady];
      }
    }

    /** The responder path once a stream is held; a payload without `sdp` makes the description constructor throw. */
    method Respond(p: Payload, answerText: string)
      requires Valid() && localStream.Some?
      modifies this`trace
      ensures Valid()
      ensures trace == old(trace) +
                (if p.Msg? && p.message.body.SdpBody?
                 then OfferActions(roomId, p.message.body.sdp, Sdp(AnswerSdp, answerText)) else [])
    {
      if p.Msg? && p.message.body.SdpBody? {
        RecordHolding(OfferActions(roomId, p.message.body.sdp, Sdp(AnswerSdp, answerText)));
      }
    }

    /** `offer`: answer it if a stream is held, otherwise wait for one. */
    method OnOffer(p: Payload, answerText: string)
      requires Valid()
      modifies this`trace, this`waiters
      ensures Valid()
      ensures closed ==> trace == old(trace) && waiters == old(waiters)
      ensures !closed && old(localStream).Some? ==>
                waiters == old(waiters)
                && trace == old(trace) +
                     (if p.Msg? && p.message.body.SdpBody?
                      then OfferActions(roomId, p.message.body.sdp, Sdp(AnswerSdp, answerText)) else [])
      ensures !closed && old(localStream).None? ==> trace == old(trace) && waiters == old(waiters) + [WaitingOffer(p)]
    {
      if closed {
        return;
      }
      if localStream.Some? {
        Respond(p, answerText);
      } else {
        waiters := waiters + [WaitingOffer(p)];
      }
    }

    /**
     * A tick of the polling interval of the `k`-th waiting handler. Each handler polls
     * on its own interval, so any of them may be the first to see the stream. Once a
     * stream is held the handler resumes, `sdpText` being what createOffer or
     * createAnswer then resolves to. After a teardown its first call on the closed peer
     * connection (createOffer, or setRemoteDescription) rejects, and nothing follows it.
     */
    method ResumeWaiter(k: nat, sdpText: string)
      requires Valid()
      modifies this`trace, this`waiters
      ensures Valid()
      ensures (old(localStream).None? || k >= |old(waiters)|) ==> trace == old(trace) && waiters == old(waiters)
      ensures old(localStream).Some? && k < |old(waiters)| ==>
                waiters == old(waiters)[..k] + old(waiters)[k + 1..]
                && trace == old(trace) +
                     match old(waiters)[k]
                     case WaitingReady =>
                       if closed then [CreateOffer] else ReadyActions(roomId, Sdp(OfferSdp, sdpText))
                     case WaitingOffer(p) =>
                       if !(p.Msg? && p.message.body.SdpBody?) then []
                       else if closed then [SetRemote(p.message.body.sdp)]
                       else OfferActions(roomId, p.message.body.sdp, Sdp(AnswerSdp, sdpText))
    {
      if localStream.None? || k >= |waiters| {
        return;
      }
      var w := waiters[k];
      waiters := waiters[..k] + waiters[k + 1..];
      match w
      case WaitingReady =>
        if closed {
          RecordHolding([CreateOffer]);
        } else {
          RecordHolding(ReadyActions(roomId, Sdp(OfferSdp, sdpText)));
        }
      case WaitingOffer(p) =>
        if closed {
          if p.Msg? && p.message.body.SdpBody? {
            RecordHolding([SetRemote(p.message.body.sdp)]);
          }
        } else {
          Respond(p, sdpText);
        }
    }

    /** `answer`: set the remote description; this handler does not wait for the stream. */
    method OnAnswer(p: Payload)
      requires Valid()
      modifies this`trace
      ensures Valid()
      ensures trace == old(trace) +
                (if !closed && p.Msg? && p.message.body.SdpBody? then [SetRemote(p.message.body.sdp)] else [])
    {
      if !closed && p.Msg? && p.message.body.SdpBody? {
        RecordUngated([SetRemote(p.message.body.sdp)]);
      }
    }

    /**
     * `ice-candidate` from the peer: handed to addIceCandidate at once, which rejects it
     * while there is no remote description; the catch only logs, as it does for a
     * missing payload.
     */
    method OnRemoteCandidate(p: Payload)
      requires Valid()
      modifies this`trace
      ensures Valid()
      ensures trace == old(trace) + (if !closed && !p.NoPayload? then [AddCandidate(CandidateOf(p))] else [])
    {
      if !closed && !p.NoPayload? {
        RecordUngated([AddCandidate(CandidateOf(p))]);
      }
    }

    /** `onicecandidate`: a null candidate sends nothing; a closed peer connection gathers none. */
    method OnLocalCandidate(c: Option<Candidate>)
      requires Valid()
      modifies this`trace
      ensures Valid()
      ensures trace == old(trace) +
                (if !closed && c.Some? then [EmitSignal(IceCandidate, Msg(Message(roomId, CandidateBody(c.value))))] else [])
    {
      if !closed && c.Some? {
        RecordUngated([EmitSignal(IceCandidate, Msg(Message(roomId, CandidateBody(c.value))))]);
      }
    }

    /** `leaveRoom`: close the peer connection, then disconnect the socket, then go home. */
    method LeaveRoom()
      requires Valid()
      modifies this`trace, this`closed
      ensures Valid() && closed && trace == old(trace) + [ClosePeerConnection, DisconnectSocket, NavigateHome]
    {
      RecordUngated([ClosePeerConnection, DisconnectSocket, NavigateHome]);
      closed := true;
    }

    /** The effect's cleanup: disconnect the socket, then close the peer connection. */
    method Unmount()
      requires Valid()
      modifies this`trace, this`closed
      ensures Valid() && closed && trace == old(trace) + [DisconnectSocket, ClosePeerConnection]
    {
      RecordUngated([DisconnectSocket, ClosePeerConnection]);
      closed := true;
    }
  }

  /**
   * `ready` arrives before the camera: nothing is negotiated until the stream is held,
   * and the offer created afterwards comes after the stream's tracks were added.
   */
  method ReadyBeforeStream(roomId: RoomId, stream: seq<Track>, offerText: string) returns (trace: seq<Action>)
    ensures |trace| == 3 + |stream| + 3
    ensures trace[..3 + |stream|] == [CreateSocket, CreatePeerConnection(StunOnly), ListenSocket] + AddTrackActions(stream)
    ensures trace[3 + |stream|..] == ReadyActions(roomId, Sdp(OfferSdp, offerText))
  {
    var chat := new Chat(roomId);
    chat.OnReady(offerText);
    chat.ResumeWaiter(0, offerText);
    assert chat.trace == [CreateSocket, CreatePeerConnection(StunOnly), ListenSocket];
    chat.MediaSettled(Some(stream));
    chat.ResumeWaiter(0, offerText);
    trace := chat.trace;
  }

  /**
   * `ready` and then `offer` wait for the camera; the offer's interval ticks first, so
   * the component answers before it makes its own offer.
   */
  method LaterWaiterFirst(roomId: RoomId, remote: Sdp, answerText: string, offerText: string)
    returns (trace: seq<Action>)
    ensures var init := [CreateSocket, CreatePeerConnection(StunOnly), ListenSocket];
      trace == init + OfferActions(roomId, remote, Sdp(AnswerSdp, answerText))
               + ReadyActions(roomId, Sdp(OfferSdp, offerText))
  {
    var chat := new Chat(roomId);
    chat.OnReady(offerText);
    chat.OnOffer(Msg(Message(roomId, SdpBody(remote))), answerText);
    assert chat.waiters == [WaitingReady, WaitingOffer(Msg(Message(roomId, SdpBody(remote))))];
    chat.MediaSettled(Some([]));
    assert AddTrackActions([]) == [];
    chat.ResumeWaiter(1, answerText);
    assert chat.waiters == [WaitingReady];
    chat.ResumeWaiter(0, offerText);
    trace := chat.trace;
  }

  /**
   * The component unmounts while `ready` waits for the camera. The stream still
   * arrives, but adding its first track to the closed peer connection throws, and the
   * waiting handler's createOffer rejects: no offer is ever sent.
   */
  method TeardownBeforeStream(roomId: RoomId, stream: seq<Track>, offerText: string) returns (trace: seq<Action>)
    requires stream != []
    ensures var init := [CreateSocket, CreatePeerConnection(StunOnly), ListenSocket];
      trace == init + [DisconnectSocket, ClosePeerConnection, AddTrack(stream[0]), CreateOffer]
  {
    var chat := new Chat(roomId);
    chat.OnReady(offerText);
    chat.Unmount();
    chat.MediaSettled(Some(stream));
    assert chat.permissionError == Some(PermissionDenied);
    chat.ResumeWaiter(0, offerText);
    trace := chat.trace;
  }
}
