/**
 * The `useConnection` hook of client/src/shared/hooks/use-connection.ts: one hook
 * instance owns a socket, a peer connection and a local capture stream, all held in
 * mutable refs. The browser calls it makes are recorded as a trace of actions; what
 * the browser returns (the TURN response, the capture stream, the offer and answer
 * SDP) comes in as method parameters.
 */
module Connection {
  import opened Wrappers
  import opened WebRtc

  /** RTCPeerConnection.connectionState. */
  datatype NativeState = New | Connecting | Connected | Disconnected | Failed | Closed

  /** The four labels of CONNECTION_PLACEHOLDER. */
  datatype ConnectionPlaceholder = CONNECTION | CONNECTED | FAILED | CLOSED

  /** The text each label stands for. */
  function PlaceholderText(p: ConnectionPlaceholder): string
  {
    match p
    case CONNECTION => "Подключение..."
    case CONNECTED => "Соединение установлено"
    case FAILED => "⚠️ Потеря соединения"
    case CLOSED => "❌ Соединение закрыто"
  }

  /** Distinct labels show distinct texts. */
  lemma PlaceholderTextDistinct(p: ConnectionPlaceholder, q: ConnectionPlaceholder)
    ensures PlaceholderText(p) == PlaceholderText(q) ==> p == q
  {
  }

  /** The label shown for a native connection state (`onconnectionstatechange`). */
  function StateLabel(s: NativeState): (l: ConnectionPlaceholder)
    ensures l != CONNECTION <==> s == Connected || s == Disconnected || s == Failed || s == Closed
  {
    match s
    case Connected => CONNECTED
    case Disconnected => FAILED
    case Failed => FAILED
    case Closed => CLOSED
    case _ => CONNECTION
  }

  /** The mapping in both directions: which native states lead to each label. */
  lemma StateLabelPreimages(s: NativeState)
    ensures StateLabel(s) == CONNECTED <==> s == Connected
    ensures StateLabel(s) == FAILED <==> s == Disconnected || s == Failed
    ensures StateLabel(s) == CLOSED <==> s == Closed
    ensures StateLabel(s) == CONNECTION <==> s == New || s == Connecting
  {
  }

  /** The body of the `/turn-credentials` response, as far as `data?.iceServers` reads it. */
  datatype JsonBody = Unparsable | NullBody | Object(iceServers: JsValue)

  /** The outcome of `fetch(...)`: a rejection or a response with a status and a body. */
  datatype FetchOutcome = Rejected | Response(status: int, body: JsonBody)

  /** `Response.ok`: a status in the range 200-299. */
  predicate ResponseOk(status: int)
  {
    200 <= status <= 299
  }

  /** The `iceServers` list `init` hands to the peer connection. */
  function ChooseIceServers(f: FetchOutcome): (v: JsValue)
    ensures v == StunOnly || (f.Response? && f.body.Object? && v == f.body.iceServers && Truthy(v))
  {
    match f
    case Rejected => StunOnly
    case Response(status, body) =>
      if !ResponseOk(status) then StunOnly
      else match body
        case Object(v) => if Truthy(v) then v else StunOnly
        case _ => StunOnly
  }

  /**
   * The server's list replaces the STUN default exactly when the response is ok and
   * its `iceServers` field is truthy; a rejected fetch, a non-ok status, a body that
   * is not JSON or a falsy field keeps the default.
   */
  lemma IceServersChoice(f: FetchOutcome)
    ensures (f.Response? && ResponseOk(f.status) && f.body.Object? && Truthy(f.body.iceServers)) ==>
              ChooseIceServers(f) == f.body.iceServers
    ensures !(f.Response? && ResponseOk(f.status) && f.body.Object? && Truthy(f.body.iceServers)) ==>
              ChooseIceServers(f) == StunOnly
  {
  }

  /** An empty list from the server is truthy, so it replaces the default and leaves no server at all. */
  lemma EmptyServerListWins()
    ensures ChooseIceServers(Response(200, Object(ServerList([])))) == ServerList([])
  {
  }

  /** `s` starts with `p`. */
  predicate HasPrefix(s: string, p: string)
  {
    |p| <= |s| && s[..|p|] == p
  }

  /**
   * An entry the RTCPeerConnection constructor accepts: a STUN URL, or a TURN URL that
   * comes with both a username and a credential.
   */
  predicate ValidIceServer(e: IceServer)
  {
    || HasPrefix(e.urls, "stun:") || HasPrefix(e.urls, "stuns:")
    || ((HasPrefix(e.urls, "turn:") || HasPrefix(e.urls, "turns:")) && e.username.Some? && e.credential.Some?)
  }

  /**
   * An `iceServers` value `new RTCPeerConnection({ iceServers })` accepts: a list of
   * acceptable entries. Any other value makes the constructor throw: a TypeError for a
   * value that is not a list, an InvalidAccessError for a TURN entry without credentials,
   * a SyntaxError for another URL scheme.
   */
  predicate ValidIceConfig(v: JsValue)
  {
    v.ServerList? && forall i :: 0 <= i < |v.servers| ==> ValidIceServer(v.servers[i])
  }

  /**
   * The STUN default is always accepted, so only a list taken from the server can make
   * the peer connection fail to construct.
   */
  lemma ChosenConfigFailure(f: FetchOutcome)
    ensures ValidIceConfig(StunOnly)
    ensures !ValidIceConfig(ChooseIceServers(f)) ==>
              f.Response? && ResponseOk(f.status) && f.body.Object? && Truthy(f.body.iceServers)
              && ChooseIceServers(f) == f.body.iceServers
  {
    assert HasPrefix(StunOnly.servers[0].urls, "stun:");
  }

  /** Server lists that make the constructor throw: a bare string, and a TURN entry without credentials. */
  lemma RejectedConfigs(turnUrl: string)
    requires HasPrefix(turnUrl, "turn:")
    ensures ChooseIceServers(Response(200, Object(Str("x")))) == Str("x") && !ValidIceConfig(Str("x"))
    ensures var v := ServerList([IceServer(turnUrl, None, None)]);
      ChooseIceServers(Response(200, Object(v))) == v && !ValidIceConfig(v)
  {
    var e := IceServer(turnUrl, None, None);
    assert !HasPrefix(turnUrl, "stun:") by { assert turnUrl[..5] == "turn:"; }
    assert !HasPrefix(turnUrl, "stuns:") by { assert turnUrl[..5] == "turn:"; }
    assert !ValidIceServer(e);
    assert ServerList([e]).servers[0] == e;
  }

  /** The camera facing modes requested from getUserMedia. */
  datatype Facing = User | Environment

  function Opposite(f: Facing): (g: Facing)
    ensures g != f
  {
    if f == User then Environment else User
  }

  /** A sender that `switchCamera` replaces: one whose track is a video track. */
  predicate IsVideoSender(s: Sender)
  {
    s.track.Some? && s.track.value.kind == Video
  }

  /** The number of video senders in `ss`. */
  function CountVideoSenders(ss: seq<Sender>): (n: nat)
    ensures n <= |ss|
  {
    if ss == [] then 0
    else CountVideoSenders(ss[..|ss| - 1]) + (if IsVideoSender(ss[|ss| - 1]) then 1 else 0)
  }

  /** `newStream.getVideoTracks()[i]`: undefined, and so a null track, past the end. */
  function TrackAt(ts: seq<Track>, i: nat): Option<Track>
  {
    if i < |ts| then Some(ts[i]) else None
  }

  /**
   * The senders after `switchCamera`: the i-th video sender, counted in sender order,
   * carries the i-th video track of the new stream; every other sender is unchanged.
   */
  function ReplaceVideoSenders(ss: seq<Sender>, ts: seq<Track>): (r: seq<Sender>)
    ensures |r| == |ss|
    ensures forall j :: 0 <= j < |ss| && !IsVideoSender(ss[j]) ==> r[j] == ss[j]
  {
    seq(|ss|, j requires 0 <= j < |ss| =>
      if IsVideoSender(ss[j]) then Sender(TrackAt(ts, CountVideoSenders(ss[..j]))) else ss[j])
  }

  /** Replacing in a longer sender list leaves the earlier senders as they were. */
  lemma ReplacePrefix(ss: seq<Sender>, ts: seq<Track>)
    requires ss != []
    ensures ReplaceVideoSenders(ss, ts)[..|ss| - 1] == ReplaceVideoSenders(ss[..|ss| - 1], ts)
  {
    var init := ss[..|ss| - 1];
    forall j | 0 <= j < |init| ensures ss[..j] == init[..j] {
    }
  }

  /**
   * After a switch to a stream with the video tracks `ts`, as many senders carry a video
   * track as before when the stream has enough of them, and otherwise one per track: the
   * senders past the end of `ts` are left without a track.
   */
  lemma {:induction false} ReplacedVideoCount(ss: seq<Sender>, ts: seq<Track>)
    requires forall t :: t in ts ==> t.kind == Video
    ensures CountVideoSenders(ReplaceVideoSenders(ss, ts)) ==
              if CountVideoSenders(ss) <= |ts| then CountVideoSenders(ss) else |ts|
    decreases |ss|
  {
    if ss != [] {
      var init := ss[..|ss| - 1];
      var r := ReplaceVideoSenders(ss, ts);
      ReplacePrefix(ss, ts);
      ReplacedVideoCount(init, ts);
      var k := CountVideoSenders(init);
      if IsVideoSender(ss[|ss| - 1]) {
        assert r[|r| - 1] == Sender(TrackAt(ts, k));
        if k < |ts| {
          assert ts[k] in ts;
        }
      }
    }
  }

  /** One sender per captured track, in stream order (`addTrack`). */
  function SendersFor(s: seq<Track>): (ss: seq<Sender>)
    ensures |ss| == |s|
    ensures forall i :: 0 <= i < |s| ==> ss[i] == Sender(Some(s[i]))
  {
    seq(|s|, i requires 0 <= i < |s| => Sender(Some(s[i])))
  }

  /** The calls `init` makes before it waits for the stream: the socket, then the peer connection. */
  function InitActions(iceServers: JsValue): seq<Action>
  {
    [CreateSocket, CreatePeerConnection(iceServers)]
  }

  /** The calls `init` makes once it holds a stream: add each track, then register the socket handlers. */
  function MediaActions(stream: seq<Track>): seq<Action>
  {
    AddTrackActions(stream) + [ListenSocket]
  }

  /** A call only a socket event handler makes. */
  predicate IsSocketHandlerAction(a: Action)
  {
    a.CreateOffer? || a.CreateAnswer? || a.SetLocal? || a.SetRemote? || a.AddCandidate?
    || (a.EmitSignal? && a.event != IceCandidate)
  }

  /** Every emitted offer carries the description just set as local, created by the call before. */
  ghost predicate OffersFollowLocal(t: seq<Action>, roomId: RoomId)
  {
    forall i :: 0 <= i < |t| && t[i].EmitSignal? && t[i].event == Offer ==>
      i >= 2 && t[i - 2] == CreateOffer && t[i - 1].SetLocal?
      && t[i].payload == Msg(Message(roomId, SdpBody(t[i - 1].local)))
  }

  /** Every emitted answer follows: set the remote offer, create the answer, set it as local. */
  ghost predicate AnswersFollowRemote(t: seq<Action>, roomId: RoomId)
  {
    forall i :: 0 <= i < |t| && t[i].EmitSignal? && t[i].event == Answer ==>
      i >= 3 && t[i - 3].SetRemote? && t[i - 2] == CreateAnswer && t[i - 1].SetLocal?
      && t[i].payload == Msg(Message(roomId, SdpBody(t[i - 1].local)))
  }

  /** Both negotiation orders hold. */
  ghost predicate Negotiated(t: seq<Action>, roomId: RoomId)
  {
    OffersFollowLocal(t, roomId) && AnswersFollowRemote(t, roomId)
  }

  /** The positions at which `t` creates a socket or a peer connection. */
  function Creates(t: seq<Action>): set<nat>
  {
    set i | 0 <= i < |t| && (t[i] == CreateSocket || t[i].CreatePeerConnection?)
  }

  /** The socket and the peer connection are created once each, as the first two calls. */
  ghost predicate CreatedOnce(t: seq<Action>)
  {
    Creates(t) <= {0, 1}
  }

  /** No socket handler has run. */
  ghost predicate Quiet(t: seq<Action>)
  {
    forall i :: 0 <= i < |t| ==> !IsSocketHandlerAction(t[i])
  }

  /**
   * Appending actions that create nothing and emit offers and answers in order keeps
   * the whole trace in order; appending handler-free actions to a quiet trace keeps it quiet.
   */
  lemma {:induction false} AppendKeepsTrace(t: seq<Action>, u: seq<Action>, roomId: RoomId)
    requires |t| >= 2 && CreatedOnce(t) && Negotiated(t, roomId)
    requires Creates(u) == {} && Negotiated(u, roomId)
    ensures CreatedOnce(t + u) && Negotiated(t + u, roomId)
    ensures Quiet(t) && Quiet(u) ==> Quiet(t + u)
  {
    var tu := t + u;
    forall i | |t| <= i < |tu| ensures tu[i] != CreateSocket && !tu[i].CreatePeerConnection? {
      assert tu[i] == u[i - |t|];
      assert i - |t| !in Creates(u);
    }
    forall i | i in Creates(tu) ensures i in {0, 1} {
      if i < |t| {
        assert t[i] == tu[i];
        assert i in Creates(t);
      }
    }
    forall i | 0 <= i < |tu| && tu[i].EmitSignal? && tu[i].event == Offer
      ensures i >= 2 && tu[i - 2] == CreateOffer && tu[i - 1].SetLocal?
              && tu[i].payload == Msg(Message(roomId, SdpBody(tu[i - 1].local)))
    {
      if i >= |t| {
        var k := i - |t|;
        assert u[k] == tu[i];
        assert tu[i - 1] == u[k - 1] && tu[i - 2] == u[k - 2];
      } else {
        assert t[i] == tu[i] && t[i - 1] == tu[i - 1] && t[i - 2] == tu[i - 2];
      }
    }
    forall i | 0 <= i < |tu| && tu[i].EmitSignal? && tu[i].event == Answer
      ensures i >= 3 && tu[i - 3].SetRemote? && tu[i - 2] == CreateAnswer && tu[i - 1].SetLocal?
              && tu[i].payload == Msg(Message(roomId, SdpBody(tu[i - 1].local)))
    {
      if i >= |t| {
        var k := i - |t|;
        assert u[k] == tu[i];
        assert tu[i - 1] == u[k - 1] && tu[i - 2] == u[k - 2] && tu[i - 3] == u[k - 3];
      } else {
        assert t[i] == tu[i] && t[i - 1] == tu[i - 1] && t[i - 2] == tu[i - 2] && t[i - 3] == tu[i - 3];
      }
    }
    if Quiet(t) && Quiet(u) {
      forall i | 0 <= i < |tu| ensures !IsSocketHandlerAction(tu[i]) {
        if i >= |t| { assert u[i - |t|] == tu[i]; } else { assert t[i] == tu[i]; }
      }
    }
  }

  /**
   * Adding the tracks and registering the handlers creates nothing and negotiates
   * nothing; the handlers are registered last, after every track is added.
   */
  lemma MediaActionsInert(stream: seq<Track>, roomId: RoomId)
    ensures var u := MediaActions(stream);
      Creates(u) == {} && Negotiated(u, roomId) && Quiet(u)
      && u[|stream|] == ListenSocket && forall i :: 0 <= i < |stream| ==> u[i] == AddTrack(stream[i])
  {
    var u := MediaActions(stream);
    forall i | 0 <= i < |u| ensures u[i] == (if i < |stream| then AddTrack(stream[i]) else ListenSocket) {
    }
  }

  /**
   * The invariant of a hook instance: `init` ran at most once, so the socket and the
   * peer connection are created once, at the head of the trace; when the peer connection
   * failed to construct, the socket is all there is and nothing follows it. No socket
   * handler has run before the handlers were registered, and these only exist once a
   * stream is held. Offers and answers go out in negotiation order.
   */
  ghost predicate HookInvariant(initialized: bool, awaitingMedia: bool, hasPeerConnection: bool, listening: bool,
                                localStream: Option<seq<Track>>, senders: seq<Sender>, trace: seq<Action>, roomId: RoomId)
  {
    && (!initialized ==> trace == [] && !hasPeerConnection && !awaitingMedia && !listening && localStream == None && senders == [])
    && (awaitingMedia ==> hasPeerConnection && !listening && localStream == None)
    && (listening ==> hasPeerConnection)
    && (hasPeerConnection ==> initialized && |trace| >= 2 && trace[0] == CreateSocket && trace[1].CreatePeerConnection?)
    && (initialized && !hasPeerConnection ==> trace == [CreateSocket] && senders == [])
    && CreatedOnce(trace)
    && (listening <==> localStream.Some?)
    && (!listening ==> Quiet(trace))
    && Negotiated(trace, roomId)
  }

  /** Holding the stream, adding its tracks and registering the handlers keeps the invariant. */
  lemma HoldingKeepsInvariant(initialized: bool, awaitingMedia: bool, hasPeerConnection: bool, listening: bool,
                              localStream: Option<seq<Track>>, senders: seq<Sender>, trace: seq<Action>, roomId: RoomId,
                              stream: seq<Track>)
    requires HookInvariant(initialized, awaitingMedia, hasPeerConnection, listening, localStream, senders, trace, roomId)
    requires awaitingMedia
    ensures HookInvariant(initialized, false, hasPeerConnection, true, Some(stream), SendersFor(stream),
                          trace + MediaActions(stream), roomId)
  {
    MediaActionsInert(stream, roomId);
    AppendKeepsTrace(trace, MediaActions(stream), roomId);
  }

  /** The first firing of the effect, when the peer connection accepts the servers, establishes the invariant. */
  lemma InitAcceptedInvariant(initialized: bool, awaitingMedia: bool, hasPeerConnection: bool, listening: bool,
                              localStream: Option<seq<Track>>, senders: seq<Sender>, trace: seq<Action>, roomId: RoomId,
                              iceServers: JsValue)
    requires HookInvariant(initialized, awaitingMedia, hasPeerConnection, listening, localStream, senders, trace, roomId)
    requires !initialized
    ensures HookInvariant(true, true, true, listening, localStream, senders, InitActions(iceServers), roomId)
  {
    assert Creates(InitActions(iceServers)) <= {0, 1};
  }

  /** The first firing of the effect, when the peer connection throws, establishes the invariant. */
  lemma InitRejectedInvariant(initialized: bool, awaitingMedia: bool, hasPeerConnection: bool, listening: bool,
                              localStream: Option<seq<Track>>, senders: seq<Sender>, trace: seq<Action>, roomId: RoomId)
    requires HookInvariant(initialized, awaitingMedia, hasPeerConnection, listening, localStream, senders, trace, roomId)
    requires !initialized
    ensures HookInvariant(true, awaitingMedia, hasPeerConnection, listening, localStream, senders, [CreateSocket], roomId)
  {
    assert Creates([CreateSocket]) <= {0, 1};
  }

  /**
   * Appending calls that create nothing and keep the negotiation order keeps the
   * invariant, once the peer connection exists and, unless the handlers are
   * registered, when the calls are no handler's.
   */
  lemma AppendKeepsInvariant(initialized: bool, awaitingMedia: bool, hasPeerConnection: bool, listening: bool,
                             localStream: Option<seq<Track>>, senders: seq<Sender>, trace: seq<Action>, roomId: RoomId,
                             u: seq<Action>)
    requires HookInvariant(initialized, awaitingMedia, hasPeerConnection, listening, localStream, senders, trace, roomId)
    requires hasPeerConnection && Creates(u) == {} && Negotiated(u, roomId)
    requires listening || Quiet(u)
    ensures HookInvariant(initialized, awaitingMedia, hasPeerConnection, listening, localStream, senders, trace + u, roomId)
  {
    AppendKeepsTrace(trace, u, roomId);
    assert (trace + u)[0] == trace[0] && (trace + u)[1] == trace[1];
  }

  /** getUserMedia rejecting ends `init` with nothing added, which keeps the invariant. */
  lemma GivingUpKeepsInvariant(initialized: bool, awaitingMedia: bool, hasPeerConnection: bool, listening: bool,
                               localStream: Option<seq<Track>>, senders: seq<Sender>, trace: seq<Action>, roomId: RoomId)
    requires HookInvariant(initialized, awaitingMedia, hasPeerConnection, listening, localStream, senders, trace, roomId)
    ensures HookInvariant(initialized, false, hasPeerConnection, listening, localStream, senders, trace, roomId)
  {
  }

  /** Stopping tracks creates nothing, negotiates nothing and runs no handler. */
  lemma StopActionsInert(ts: seq<Track>, roomId: RoomId)
    ensures var u := StopActions(ts); Creates(u) == {} && Negotiated(u, roomId) && Quiet(u)
  {
  }

  /** Stopping the held stream's video tracks and holding another stream keeps the hook's invariant. */
  lemma SwitchKeepsInvariant(initialized: bool, awaitingMedia: bool, hasPeerConnection: bool, listening: bool,
                             localStream: Option<seq<Track>>, senders: seq<Sender>, trace: seq<Action>, roomId: RoomId,
                             stops: seq<Action>, newStream: Option<seq<Track>>, newSenders: seq<Sender>)
    requires HookInvariant(initialized, awaitingMedia, hasPeerConnection, listening, localStream, senders, trace, roomId)
    requires localStream.Some? && newStream.Some?
    requires stops == StopActions(VideoTracks(localStream.value))
    ensures HookInvariant(initialized, awaitingMedia, hasPeerConnection, listening, newStream, newSenders, trace + stops, roomId)
  {
    StopActionsInert(VideoTracks(localStream.value), roomId);
    AppendKeepsTrace(trace, stops, roomId);
  }

  /** One `useConnection` instance: its refs, its React state and the calls it has made. */
  class Hook {
    const roomId: RoomId
    var initialized: bool
    var awaitingMedia: bool
    var hasPeerConnection: bool
    var listening: bool
    var localStream: Option<seq<Track>>
    var senders: seq<Sender>
    var connectionState: ConnectionPlaceholder
    var permissionError: Option<string>
    var cameraFacing: Facing
    var trace: seq<Action>

    /**
     * `init` ran at most once: the socket and the peer connection are created once, at
     * the head of the trace. No socket handler has run before the handlers were
     * registered, and these only exist once a stream was obtained. Offers and answers
     * go out in negotiation order.
     */
    ghost predicate Valid()
      reads this
    {
      HookInvariant(initialized, awaitingMedia, hasPeerConnection, listening, localStream, senders, trace, roomId)
    }

    /** The first render: nothing created yet, the label reads CONNECTION, facing is user. */
    constructor (roomId: RoomId)
      ensures Valid()
      ensures this.roomId == roomId && !initialized && trace == []
      ensures connectionState == CONNECTION && permissionError == None && cameraFacing == User
    {
      this.roomId := roomId;
      initialized := false;
      awaitingMedia := false;
      hasPeerConnection := false;
      listening := false;
      localStream := None;
      senders := [];
      connectionState := CONNECTION;
      permissionError := None;
      cameraFacing := User;
      trace := [];
    }

    /** Appends a handler's actions, keeping the negotiation order. */
    method Record(u: seq<Action>)
      requires Valid() && listening
      requires Creates(u) == {} && Negotiated(u, roomId)
      modifies this`trace
      ensures Valid() && trace == old(trace) + u
    {
      AppendKeepsInvariant(initialized, awaitingMedia, hasPeerConnection, listening, localStream, senders, trace, roomId, u);
      trace := trace + u;
    }

    /**
     * The effect: a guard makes `init` run once per instance, however often the effect
     * fires. `init` chooses the ICE servers from the TURN response and creates the
     * socket. If the peer connection accepts the servers it is created and `init` waits
     * for getUserMedia; otherwise its constructor throws, `init` rejects, and no
     * callback, camera request or socket handler follows.
     */
    method Effect(fetch: FetchOutcome)
      requires Valid()
      modifies this`initialized, this`hasPeerConnection, this`awaitingMedia, this`trace
      ensures Valid() && initialized
      ensures connectionState == old(connectionState) && cameraFacing == old(cameraFacing)
      ensures localStream == old(localStream) && senders == old(senders) && listening == old(listening)
      ensures permissionError == old(permissionError)
      ensures old(initialized) ==>
                trace == old(trace) && awaitingMedia == old(awaitingMedia) && hasPeerConnection == old(hasPeerConnection)
      ensures !old(initialized) && ValidIceConfig(ChooseIceServers(fetch)) ==>
                trace == InitActions(ChooseIceServers(fetch)) && awaitingMedia && hasPeerConnection
      ensures !old(initialized) && !ValidIceConfig(ChooseIceServers(fetch)) ==>
                trace == [CreateSocket] && !awaitingMedia && !hasPeerConnection
    {
      if initialized {
        return;
      }
      var iceServers := ChooseIceServers(fetch);
      if !ValidIceConfig(iceServers) {
        InitRejectedInvariant(initialized, awaitingMedia, hasPeerConnection, listening, localStream, senders, trace, roomId);
        initialized, trace := true, [CreateSocket];
        return;
      }
      InitAcceptedInvariant(initialized, awaitingMedia, hasPeerConnection, listening, localStream, senders, trace, roomId,
                            iceServers);
      initialized, hasPeerConnection, awaitingMedia, trace := true, true, true, InitActions(iceServers);
    }

    /**
     * The rest of `init`, once getUserMedia settles: `media` is the stream, None when it
     * rejects, which ends `init` with no handler registered. Otherwise the stream is
     * held, its tracks are added, the permission error is cleared, and only then are the
     * socket handlers registered.
     */
    method ResumeInit(media: Option<seq<Track>>)
      requires Valid()
      modifies this`awaitingMedia, this`listening, this`localStream, this`senders, this`trace, this`permissionError
      ensures Valid() && !awaitingMedia
      ensures initialized == old(initialized) && hasPeerConnection == old(hasPeerConnection)
      ensures connectionState == old(connectionState) && cameraFacing == old(cameraFacing)
      ensures !(old(awaitingMedia) && media.Some?) ==>
                trace == old(trace) && listening == old(listening) && localStream == old(localStream)
                && senders == old(senders) && permissionError == old(permissionError)
      ensures old(awaitingMedia) && media.Some? ==>
                trace == old(trace) + MediaActions(media.value)
                && localStream == media && listening
                && senders == SendersFor(media.value) && permissionError == None
    {
      if !awaitingMedia {
        return;
      }
      if media.None? {
        GivingUpKeepsInvariant(initialized, awaitingMedia, hasPeerConnection, listening, localStream, senders, trace, roomId);
        awaitingMedia := false;
        return;
      }
      var stream := media.value;
      var added, created := AddStreamTracks(stream);
      var newTrace := trace + (added + [ListenSocket]);
      assert newTrace == trace + MediaActions(stream);
      HoldingKeepsInvariant(initialized, awaitingMedia, hasPeerConnection, listening, localStream, senders, trace, roomId,
                            stream);
      awaitingMedia, listening, localStream, senders := false, true, Some(stream), created;
      trace, permissionError := newTrace, None;
    }

    /** `connect`: ask the server to join the room, if the handler is registered by then. */
    method OnConnect()
      requires Valid()
      modifies this`trace
      ensures Valid()
      ensures trace == old(trace) + (if listening then [EmitSignal(Join, RoomName(roomId))] else [])
    {
      if listening {
        Record([EmitSignal(Join, RoomName(roomId))]);
      }
    }

    /** `ready` (initiator): `offerText` is what createOffer resolves to. */
    method OnReady(offerText: string)
      requires Valid()
      modifies this`trace
      ensures Valid()
      ensures trace == old(trace) + (if listening then ReadyActions(roomId, Sdp(OfferSdp, offerText)) else [])
    {
      if listening {
        Record(ReadyActions(roomId, Sdp(OfferSdp, offerText)));
      }
    }

    /**
     * `offer` (responder): `answerText` is what createAnswer resolves to. A payload
     * without an `sdp` makes the RTCSessionDescription constructor throw, and nothing happens.
     */
    method OnOffer(p: Payload, answerText: string)
      requires Valid()
      modifies this`trace
      ensures Valid()
      ensures trace == old(trace) +
                (if listening && p.Msg? && p.message.body.SdpBody?
                 then OfferActions(roomId, p.message.body.sdp, Sdp(AnswerSdp, answerText)) else [])
    {
      if listening && p.Msg? && p.message.body.SdpBody? {
        Record(OfferActions(roomId, p.message.body.sdp, Sdp(AnswerSdp, answerText)));
      }
    }

    /** `answer` (initiator): the only step is setting the remote description. */
    method OnAnswer(p: Payload)
      requires Valid()
      modifies this`trace
      ensures Valid()
      ensures trace == old(trace) +
                (if listening && p.Msg? && p.message.body.SdpBody? then [SetRemote(p.message.body.sdp)] else [])
    {
      if listening && p.Msg? && p.message.body.SdpBody? {
        Record([SetRemote(p.message.body.sdp)]);
      }
    }

    /**
     * `ice-candidate` from the peer: handed to addIceCandidate at once, with no queue,
     * whether or not a remote description exists; without one the call rejects and the
     * catch only logs, so the candidate is dropped. A payload without `candidate` passes
     * undefined; a missing payload throws inside the try and is only logged.
     */
    method OnRemoteCandidate(p: Payload)
      requires Valid()
      modifies this`trace
      ensures Valid()
      ensures trace == old(trace) + (if listening && !p.NoPayload? then [AddCandidate(CandidateOf(p))] else [])
    {
      if listening && !p.NoPayload? {
        Record([AddCandidate(CandidateOf(p))]);
      }
    }

    /**
     * `onicecandidate`: a null candidate (end of gathering) sends nothing. A browser
     * gathers only after setLocalDescription; the model lets a candidate come at any
     * time once the peer connection exists, which admits more traces than occur.
     */
    method OnLocalCandidate(c: Option<Candidate>)
      requires Valid()
      modifies this`trace
      ensures Valid()
      ensures trace == old(trace) +
                (if hasPeerConnection && c.Some?
                 then [EmitSignal(IceCandidate, Msg(Message(roomId, CandidateBody(c.value))))] else [])
    {
      if hasPeerConnection && c.Some? {
        var u := [EmitSignal(IceCandidate, Msg(Message(roomId, CandidateBody(c.value))))];
        assert Creates(u) == {} && Quiet(u);
        AppendKeepsInvariant(initialized, awaitingMedia, hasPeerConnection, listening, localStream, senders, trace, roomId, u);
        trace := trace + u;
      }
    }

    /** `onconnectionstatechange`. */
    method OnConnectionStateChange(s: NativeState)
      requires Valid()
      modifies this`connectionState
      ensures Valid()
      ensures connectionState == if hasPeerConnection then StateLabel(s) else old(connectionState)
    {
      if hasPeerConnection {
        connectionState := StateLabel(s);
      }
    }

    /**
     * `switchCamera`: `result` is the stream getUserMedia gives for the opposite facing
     * (None when it rejects). Without a local stream nothing happens. Otherwise the
     * current video tracks are stopped first; on success the new stream is held, the
     * video senders get its video tracks in order and the facing flips; on failure the
     * facing and the held stream stay, with their video tracks already stopped.
     */
    method SwitchCamera(result: Option<seq<Track>>)
      requires Valid()
      modifies this`trace, this`localStream, this`senders, this`cameraFacing
      ensures Valid()
      ensures old(localStream).None? ==>
                trace == old(trace) && localStream == old(localStream)
                && senders == old(senders) && cameraFacing == old(cameraFacing)
      ensures old(localStream).Some? ==>
                trace == old(trace) + StopActions(VideoTracks(old(localStream).value))
                && localStream == (if result.Some? then result else old(localStream))
                && cameraFacing == (if result.Some? then Opposite(old(cameraFacing)) else old(cameraFacing))
                && senders == (if result.Some? && hasPeerConnection
                               then ReplaceVideoSenders(old(senders), VideoTracks(result.value))
                               else old(senders))
    {
      if localStream.None? {
        return;
      }
      var stops := StopVideoTracks(localStream.value);
      var newStream := if result.Some? then result else localStream;
      var newSenders := senders;
      if result.Some? && hasPeerConnection {
        newSenders := ReplaceSenders(senders, VideoTracks(result.value));
      }
      SwitchKeepsInvariant(initialized, awaitingMedia, hasPeerConnection, listening, localStream, senders, trace, roomId,
                           stops, newStream, newSenders);
      trace, localStream, senders := trace + stops, newStream, newSenders;
      if result.Some? {
        cameraFacing := Opposite(cameraFacing);
      }
    }
  }

  /** `stream.getTracks().forEach((t) => pc.addTrack(t, stream))`: the calls, and the senders they create. */
  method AddStreamTracks(stream: seq<Track>) returns (added: seq<Action>, created: seq<Sender>)
    ensures added == AddTrackActions(stream) && created == SendersFor(stream)
  {
    added, created := [], [];
    var i := 0;
    while i < |stream|
      invariant 0 <= i <= |stream|
      invariant added == AddTrackActions(stream[..i])
      invariant created == SendersFor(stream[..i])
    {
      assert AddTrackActions(stream[..i + 1]) == AddTrackActions(stream[..i]) + [AddTrack(stream[i])];
      assert SendersFor(stream[..i + 1]) == SendersFor(stream[..i]) + [Sender(Some(stream[i]))];
      added := added + [AddTrack(stream[i])];
      created := created + [Sender(Some(stream[i]))];
      i := i + 1;
    }
    assert stream[..i] == stream;
  }

  /** `getVideoTracks().forEach((track) => track.stop())`, as the stop calls it makes. */
  method StopVideoTracks(stream: seq<Track>) returns (stops: seq<Action>)
    ensures stops == StopActions(VideoTracks(stream))
  {
    var videos := VideoTracks(stream);
    stops := [];
    var i := 0;
    while i < |videos|
      invariant 0 <= i <= |videos|
      invariant stops == StopActions(videos[..i])
    {
      assert StopActions(videos[..i + 1]) == StopActions(videos[..i]) + [StopTrack(videos[i])];
      stops := stops + [StopTrack(videos[i])];
      i := i + 1;
    }
    assert videos[..i] == videos;
  }

  /**
   * `senders.forEach((sender, i) => sender.replaceTrack(videos[i]))` over the video
   * senders, as the new sender list it leaves.
   */
  method ReplaceSenders(ss: seq<Sender>, videos: seq<Track>) returns (r: seq<Sender>)
    ensures r == ReplaceVideoSenders(ss, videos)
  {
    r := [];
    var k := 0;
    var j := 0;
    while j < |ss|
      invariant 0 <= j <= |ss|
      invariant |r| == j
      invariant k == CountVideoSenders(ss[..j])
      invariant forall m :: 0 <= m < j ==>
                  r[m] == if IsVideoSender(ss[m]) then Sender(TrackAt(videos, CountVideoSenders(ss[..m]))) else ss[m]
    {
      assert ss[..j + 1][..j] == ss[..j];
      if IsVideoSender(ss[j]) {
        r := r + [Sender(TrackAt(videos, k))];
        k := k + 1;
      } else {
        r := r + [ss[j]];
      }
      j := j + 1;
    }
  }

  /**
   * Under React's double-fired effect, the second firing finds the guard set: one
   * socket, and one peer connection when the servers are accepted.
   */
  method EffectFiresTwice(roomId: RoomId, first: FetchOutcome, second: FetchOutcome) returns (trace: seq<Action>)
    ensures trace == if ValidIceConfig(ChooseIceServers(first))
                     then [CreateSocket, CreatePeerConnection(ChooseIceServers(first))]
                     else [CreateSocket]
  {
    var hook := new Hook(roomId);
    hook.Effect(first);
    hook.Effect(second);
    trace := hook.trace;
  }

  /**
   * The socket can connect while `init` still waits for the camera: the `connect`
   * handler is not registered yet, so `join` is never sent for that connection.
   */
  method ConnectWhileAwaitingMedia(roomId: RoomId, fetch: FetchOutcome, stream: seq<Track>) returns (trace: seq<Action>)
    ensures ValidIceConfig(ChooseIceServers(fetch)) ==> ListenSocket in trace
    ensures EmitSignal(Join, RoomName(roomId)) !in trace
  {
    var hook := new Hook(roomId);
    hook.Effect(fetch);
    if !hook.hasPeerConnection {
      hook.OnConnect();
      hook.ResumeInit(Some(stream));
      trace := hook.trace;
      return;
    }
    var init := InitActions(ChooseIceServers(fetch));
    assert hook.trace == init && !hook.listening && hook.awaitingMedia;
    hook.OnConnect();
    assert hook.trace == init && hook.awaitingMedia;
    hook.ResumeInit(Some(stream));
    trace := hook.trace;
    InitThenMediaSendsNothing(ChooseIceServers(fetch), stream, roomId);
  }

  /** The calls of `init` up to registering the handlers: the handlers are registered, and nothing is sent. */
  lemma InitThenMediaSendsNothing(iceServers: JsValue, stream: seq<Track>, roomId: RoomId)
    ensures ListenSocket in InitActions(iceServers) + MediaActions(stream)
    ensures EmitSignal(Join, RoomName(roomId)) !in InitActions(iceServers) + MediaActions(stream)
  {
    var init, media := InitActions(iceServers), MediaActions(stream);
    var t := init + media;
    MediaActionsInert(stream, roomId);
    assert t[2 + |stream|] == ListenSocket;
    forall i | 0 <= i < |t| ensures !t[i].EmitSignal? {
      if i >= 2 {
        assert t[i] == media[i - 2];
      }
    }
  }

  /** When the socket connects after the handlers are registered, `join` is sent with the room id. */
  method ConnectAfterHandlers(roomId: RoomId, fetch: FetchOutcome, stream: seq<Track>) returns (trace: seq<Action>)
    ensures ValidIceConfig(ChooseIceServers(fetch)) ==>
              |trace| >= 1 && trace[|trace| - 1] == EmitSignal(Join, RoomName(roomId))
  {
    var hook := new Hook(roomId);
    hook.Effect(fetch);
    hook.ResumeInit(Some(stream));
    hook.OnConnect();
    trace := hook.trace;
  }

  /**
   * There is no candidate queue: a candidate that arrives before any remote
   * description is handed to addIceCandidate at once (which rejects it, and the
   * handler only logs).
   */
  method CandidateBeforeDescription(roomId: RoomId, fetch: FetchOutcome, stream: seq<Track>, c: Candidate)
    returns (trace: seq<Action>)
    ensures ValidIceConfig(ChooseIceServers(fetch)) ==> |trace| >= 1 && trace[|trace| - 1] == AddCandidate(Some(c))
    ensures forall i :: 0 <= i < |trace| ==> !trace[i].SetRemote?
  {
    var hook := new Hook(roomId);
    hook.Effect(fetch);
    ghost var accepted := hook.hasPeerConnection;
    hook.ResumeInit(Some(stream));
    hook.OnRemoteCandidate(Msg(Message(roomId, CandidateBody(c))));
    trace := hook.trace;
    if accepted {
      assert trace == InitActions(ChooseIceServers(fetch)) + MediaActions(stream) + [AddCandidate(Some(c))];
      EarlyCandidateSetsNoRemote(ChooseIceServers(fetch), stream, c, roomId);
    }
  }

  /** `init`, then the handlers, then a remote candidate: no remote description is ever set. */
  lemma EarlyCandidateSetsNoRemote(iceServers: JsValue, stream: seq<Track>, c: Candidate, roomId: RoomId)
    ensures var t := InitActions(iceServers) + MediaActions(stream) + [AddCandidate(Some(c))];
      forall i :: 0 <= i < |t| ==> !t[i].SetRemote?
  {
    var init, media := InitActions(iceServers), MediaActions(stream);
    var t := init + media + [AddCandidate(Some(c))];
    MediaActionsInert(stream, roomId);
    forall i | 0 <= i < |t| ensures !t[i].SetRemote? {
      if 2 <= i < 2 + |media| {
        assert t[i] == media[i - 2];
      }
    }
  }

  /**
   * A server list the peer connection rejects stops `init` after the socket: whatever
   * the camera and the socket then do, no handler runs, nothing is negotiated and no
   * candidate is sent.
   */
  method RejectedServersStopInit(roomId: RoomId, fetch: FetchOutcome, stream: seq<Track>, offerText: string,
                                 offer: Payload, answerText: string, c: Candidate) returns (trace: seq<Action>)
    ensures !ValidIceConfig(ChooseIceServers(fetch)) ==> trace == [CreateSocket]
  {
    var hook := new Hook(roomId);
    hook.Effect(fetch);
    hook.ResumeInit(Some(stream));
    hook.OnConnect();
    hook.OnReady(offerText);
    hook.OnOffer(offer, answerText);
    hook.OnRemoteCandidate(Msg(Message(roomId, CandidateBody(c))));
    hook.OnLocalCandidate(Some(c));
    trace := hook.trace;
  }
}
