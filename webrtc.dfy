/**
 * Abstract vocabulary shared by the signaling server and the two browser clients:
 * the signaling events and their payloads as they travel over the socket, the
 * media tracks of a capture stream, the senders of a peer connection, and the
 * actions a client performs on its socket and peer connection. Browser objects
 * (RTCPeerConnection, MediaStream, the socket.io client) are not modelled; a client
 * is described by the ordered trace of the calls it makes on them.
 */
module WebRtc {
  import opened Wrappers

  type RoomId = string
  type SocketId = string

  /** The event names used on the signaling socket. */
  datatype Event = Join | Ready | Offer | Answer | IceCandidate

  datatype SdpType = OfferSdp | AnswerSdp

  /** A session description, as returned by createOffer/createAnswer. */
  datatype Sdp = Sdp(sdpType: SdpType, text: string)

  /** An ICE candidate, opaque to the model. */
  datatype Candidate = Candidate(text: string)

  /** The second field of a relayed message: `sdp` or `candidate`. */
  datatype Body = SdpBody(sdp: Sdp) | CandidateBody(candidate: Candidate)

  /** `{ roomId, sdp }` or `{ roomId, candidate }`. */
  datatype Message = Message(roomId: RoomId, body: Body)

  /** What travels with an event: nothing (`ready`), a bare room id (`join`), or a message. */
  datatype Payload = NoPayload | RoomName(name: RoomId) | Msg(message: Message)

  datatype Kind = Audio | Video

  /** A media track of a capture stream; `id` stands for the track object's identity. */
  datatype Track = Track(id: nat, kind: Kind, enabled: bool)

  /** An RTCRtpSender; its track is null after `replaceTrack(undefined)`. */
  datatype Sender = Sender(track: Option<Track>)

  /** An entry of the `iceServers` list handed to RTCPeerConnection. */
  datatype IceServer = IceServer(urls: string, username: Option<string>, credential: Option<string>)

  /**
   * A JavaScript value as far as the client inspects it: the `iceServers` field of a
   * JSON response may be missing, null, a scalar, a list of servers or another object.
   * Numbers are integers here (NaN is not modelled).
   */
  datatype JsValue =
    | Undefined
    | Null
    | Bool(b: bool)
    | Number(n: int)
    | Str(s: string)
    | ServerList(servers: seq<IceServer>)
    | OtherObject

  /** JavaScript truthiness: every array and object is truthy, even an empty one. */
  predicate Truthy(v: JsValue)
  {
    match v
    case Undefined => false
    case Null => false
    case Bool(b) => b
    case Number(n) => n != 0
    case Str(s) => s != ""
    case ServerList(_) => true
    case OtherObject => true
  }

  /** The public STUN entry both clients start from. */
  const StunOnly: JsValue := ServerList([IceServer("stun:stun.l.google.com:19302", None, None)])

  /** The calls a client makes on its socket, its peer connection and the router. */
  datatype Action =
    | CreateSocket
    | CreatePeerConnection(iceServers: JsValue)
    | AddTrack(track: Track)
    | ListenSocket
    | EmitSignal(event: Event, payload: Payload)
    | CreateOffer
    | CreateAnswer
    | SetLocal(local: Sdp)
    | SetRemote(remote: Sdp)
    | AddCandidate(candidate: Option<Candidate>)
    | StopTrack(stopped: Track)
    | ClosePeerConnection
    | DisconnectSocket
    | NavigateHome

  /** The video tracks of a stream, in stream order (`getVideoTracks()`). */
  function VideoTracks(s: seq<Track>): (v: seq<Track>)
    ensures |v| <= |s|
    ensures forall t :: t in v <==> t in s && t.kind == Video
  {
    if s == [] then []
    else
      assert s == [s[0]] + s[1..];
      if s[0].kind == Video then [s[0]] + VideoTracks(s[1..])
      else VideoTracks(s[1..])
  }

  /** The filter keeps stream order: the video tracks of two parts follow each other. */
  lemma {:induction false} VideoTracksAppend(a: seq<Track>, b: seq<Track>)
    ensures VideoTracks(a + b) == VideoTracks(a) + VideoTracks(b)
    decreases |a|
  {
    if a == [] {
      assert a + b == b;
    } else {
      assert (a + b)[0] == a[0] && (a + b)[1..] == a[1..] + b;
      VideoTracksAppend(a[1..], b);
    }
  }

  /** `[AddTrack(t) for t in s]`. */
  function AddTrackActions(s: seq<Track>): (a: seq<Action>)
    ensures |a| == |s|
    ensures forall i :: 0 <= i < |s| ==> a[i] == AddTrack(s[i])
  {
    seq(|s|, i requires 0 <= i < |s| => AddTrack(s[i]))
  }

  /** `[StopTrack(t) for t in s]`. */
  function StopActions(s: seq<Track>): (a: seq<Action>)
    ensures |a| == |s|
    ensures forall i :: 0 <= i < |s| ==> a[i] == StopTrack(s[i])
  {
    seq(|s|, i requires 0 <= i < |s| => StopTrack(s[i]))
  }

  /** The actions of the `ready` handler: create an offer, set it as local, send it. */
  function ReadyActions(roomId: RoomId, offer: Sdp): seq<Action>
  {
    [CreateOffer, SetLocal(offer), EmitSignal(Offer, Msg(Message(roomId, SdpBody(offer))))]
  }

  /** The actions of the `offer` handler: set the remote offer, create an answer, set it as local, send it. */
  function OfferActions(roomId: RoomId, remote: Sdp, answer: Sdp): seq<Action>
  {
    [SetRemote(remote), CreateAnswer, SetLocal(answer), EmitSignal(Answer, Msg(Message(roomId, SdpBody(answer))))]
  }

  /** `payload.candidate`: present only on a candidate message. */
  function CandidateOf(p: Payload): Option<Candidate>
  {
    if p.Msg? && p.message.body.CandidateBody? then Some(p.message.body.candidate) else None
  }
}
