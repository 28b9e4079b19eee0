/** The JSON-RPC 2.0 peer of one agent process: pending requests, the routing of inbound frames,
    the dispatch loop with its final drain, and the interleavings of callers, loop and agent. */
module Rpc {
  import opened Prelude
  import opened Json
  import opened Framing

  // ---------------------------------------------------------------- reading a frame

  datatype Outcome =
    | Value(result: Json)
    | RpcError(code: int, message: string)
    | InvalidResponse
    | AgentExited

  datatype Route = InboundRequest | Notification | Response | Unroutable

  function AsInt(v: Json): Option<int> {
    if v.Int? && -0x8000_0000_0000_0000 <= v.n < 0x8000_0000_0000_0000 then Some(v.n) else None
  }

  function AsStr(v: Json): Option<string> {
    if v.Str? then Some(v.s) else None
  }

  predicate HasId(frame: Json) {
    var id := Get(frame, "id");
    id.Some? && !id.value.Null?
  }

  predicate HasMethod(frame: Json) {
    var m := Get(frame, "method");
    m.Some? && m.value.Str?
  }

  function RouteOf(frame: Json): Route {
    if HasMethod(frame) && HasId(frame) then InboundRequest
    else if HasMethod(frame) then Notification
    else if HasId(frame) then Response
    else Unroutable
  }

  /** The request a frame answers: its integer id, when the frame is routed as a response. */
  function ResponseId(frame: Json): Option<int> {
    if RouteOf(frame) != Response then None else AsInt(Get(frame, "id").value)
  }

  /** A response with an `error` member is an error, whatever else it carries. */
  function OutcomeOf(frame: Json): (o: Outcome)
    ensures o != AgentExited
  {
    var err, result := Get(frame, "error"), Get(frame, "result");
    if err.Some? then
      var code, message := Get(err.value, "code"), Get(err.value, "message");
      RpcError(
        if code.Some? && AsInt(code.value).Some? then AsInt(code.value).value else 0,
        if message.Some? && AsStr(message.value).Some? then AsStr(message.value).value else "<no message>")
    else if result.Some? then Value(result.value)
    else InvalidResponse
  }

  /** The session and the parameters of a `session/update` notification. */
  function UpdateOf(frame: Json): Option<(string, Json)> {
    if RouteOf(frame) != Notification || Get(frame, "method").value.s != "session/update" then None
    else
      var params := if Get(frame, "params").Some? then Get(frame, "params").value else Null;
      var sid := Get(params, "sessionId");
      Some((if sid.Some? && sid.value.Str? then sid.value.s else "", params))
  }

  // ---------------------------------------------------------------- the peer's state

  /** `oneshots` holds, for every id ever registered, what was sent to its waiter. */
  datatype PeerState = PeerState(
    nextId: int,
    pending: set<int>,
    oneshots: map<int, seq<Outcome>>,
    listeners: map<string, nat>,
    channels: seq<seq<Json>>,
    inbound: seq<Json>)

  ghost predicate Wired(s: PeerState) {
    && s.pending <= s.oneshots.Keys
    && forall sid :: sid in s.listeners ==> s.listeners[sid] < |s.channels|
  }

  function Register(s: PeerState, id: int): PeerState {
    s.(pending := s.pending + {id}, oneshots := s.oneshots[id := []])
  }

  function Abandon(s: PeerState, id: int): PeerState {
    s.(pending := s.pending - {id})
  }

  function Listen(s: PeerState, sid: string): PeerState {
    s.(listeners := s.listeners[sid := |s.channels|], channels := s.channels + [[]])
  }

  function StopListening(s: PeerState, sid: string): PeerState {
    s.(listeners := s.listeners - {sid})
  }

  function Resolve(s: PeerState, id: int, o: Outcome): PeerState
    requires Wired(s) && id in s.pending
  {
    s.(pending := s.pending - {id}, oneshots := s.oneshots[id := s.oneshots[id] + [o]])
  }

  function Notify(s: PeerState, sid: string, params: Json): PeerState
    requires Wired(s)
  {
    if sid !in s.listeners then s
    else
      var c := s.listeners[sid];
      s.(channels := s.channels[c := s.channels[c] + [params]])
  }

  function Dispatch(s: PeerState, frame: Json): (r: PeerState)
    requires Wired(s)
    ensures Wired(r)
  {
    match RouteOf(frame)
    case InboundRequest => s.(inbound := s.inbound + [frame])
    case Notification =>
      var u := UpdateOf(frame);
      if u.None? then s else Notify(s, u.value.0, u.value.1)
    case Response =>
      var id := ResponseId(frame);
      if id.None? || id.value !in s.pending then s else Resolve(s, id.value, OutcomeOf(frame))
    case Unroutable => s
  }

  function Drain(s: PeerState): (r: PeerState)
    requires Wired(s)
    ensures Wired(r)
  {
    s.(pending := {},
       oneshots := map id | id in s.oneshots ::
         if id in s.pending then s.oneshots[id] + [AgentExited] else s.oneshots[id])
  }

  function DispatchAll(s: PeerState, frames: seq<Json>): (r: PeerState)
    requires Wired(s)
    ensures Wired(r)
    decreases |frames|
  {
    if frames == [] then s else DispatchAll(Dispatch(s, frames[0]), frames[1..])
  }

  /** The dispatch loop stops at the first report of a bad line. */
  function FramesBeforeError(items: seq<Item>): seq<Json> {
    if items == [] || items[0].Err? then [] else [items[0].value] + FramesBeforeError(items[1..])
  }

  // ---------------------------------------------------------------- what the agent says and what the caller hears

  function Member(key: string, v: Option<Json>): seq<Field> {
    if v.Some? then [Field(key, v.value)] else []
  }

  /** An object's fields: up to four members, those that are there. */
  function Members(a: string, va: Option<Json>, b: string, vb: Option<Json>,
                   c: string, vc: Option<Json>, d: string, vd: Option<Json>): seq<Field> {
    Member(a, va) + (Member(b, vb) + (Member(c, vc) + (Member(d, vd) + [])))
  }

  /** A response object (section 5 of JSON-RPC 2.0), with either, both or none of the two members. */
  function ResponseFrame(id: int, result: Option<Json>, error: Option<Json>): Json {
    Obj(Members("jsonrpc", Some(Str("2.0")), "id", Some(Int(id)), "result", result, "error", error))
  }

  /** An error object (section 5.1), with either, both or none of the two members. */
  function ErrorObject(code: Option<Json>, message: Option<Json>): Json {
    Obj(Members("code", code, "message", message, "data", None, "", None))
  }

  /** How an agent writes an answer. */
  function Reply(id: int, o: Outcome): Json
    requires o != AgentExited
  {
    match o
    case Value(v) => ResponseFrame(id, Some(v), None)
    case RpcError(code, message) => ResponseFrame(id, None, Some(ErrorObject(Some(Int(code)), Some(Str(message)))))
    case InvalidResponse => ResponseFrame(id, None, None)
  }

  predicate Fits64(n: int) {
    -0x8000_0000_0000_0000 <= n < 0x8000_0000_0000_0000
  }

  lemma LookupPastMember(key: string, v: Option<Json>, rest: seq<Field>, k: string)
    ensures Lookup(Member(key, v) + rest, k) == if key == k && v.Some? then v else Lookup(rest, k)
  {
    if v.Some? {
      assert (Member(key, v) + rest)[1..] == rest;
    } else {
      assert Member(key, v) + rest == rest;
    }
  }

  lemma LookupMembers(a: string, va: Option<Json>, b: string, vb: Option<Json>,
                      c: string, vc: Option<Json>, d: string, vd: Option<Json>, k: string)
    ensures Lookup(Members(a, va, b, vb, c, vc, d, vd), k)
      == if a == k && va.Some? then va else if b == k && vb.Some? then vb
         else if c == k && vc.Some? then vc else if d == k && vd.Some? then vd else None
  {
    var ds := Member(d, vd) + [];
    LookupPastMember(d, vd, [], k);
    LookupPastMember(c, vc, ds, k);
    LookupPastMember(b, vb, Member(c, vc) + ds, k);
    LookupPastMember(a, va, Member(b, vb) + (Member(c, vc) + ds), k);
  }

  lemma ResponseMembers(id: int, result: Option<Json>, error: Option<Json>)
    ensures var f := ResponseFrame(id, result, error);
      Get(f, "id") == Some(Int(id)) && Get(f, "method") == None && Get(f, "result") == result && Get(f, "error") == error
  {
    assert "method"[0] == 'm' && "result"[0] == 'r' && "error"[0] == 'e' && "id"[0] == 'i' && "jsonrpc"[0] == 'j';
    forall k ensures Get(ResponseFrame(id, result, error), k)
      == if k == "jsonrpc" then Some(Str("2.0")) else if k == "id" then Some(Int(id))
         else if k == "result" then result else if k == "error" then error else None
    {
      LookupMembers("jsonrpc", Some(Str("2.0")), "id", Some(Int(id)), "result", result, "error", error, k);
    }
  }

  lemma ErrorMembers(code: Option<Json>, message: Option<Json>)
    ensures Get(ErrorObject(code, message), "code") == code && Get(ErrorObject(code, message), "message") == message
  {
    LookupMembers("code", code, "message", message, "data", None, "", None, "code");
    LookupMembers("code", code, "message", message, "data", None, "", None, "message");
  }

  /** The peer after the waiter of `id` heard `o`, and nothing else happened. */
  ghost predicate Heard(s: PeerState, z: PeerState, id: int, o: Outcome)
    requires id in s.oneshots
  {
    z == s.(pending := s.pending - {id}, oneshots := s.oneshots[id := s.oneshots[id] + [o]])
  }

  /** A response without an error member resolves its waiter with the result it carries, and is invalid without
      one. */
  lemma ResultReachesWaiter(s: PeerState, id: int, result: Option<Json>)
    requires Wired(s) && id in s.pending && Fits64(id)
    ensures Heard(s, Dispatch(s, ResponseFrame(id, result, None)), id,
                  if result.Some? then Value(result.value) else InvalidResponse)
  {
    ResponseMembers(id, result, None);
  }

  /** A response with an error member resolves its waiter with the code and the message, whatever else it carries;
      a code that is no 64-bit integer reads as 0, and there is a text for a message that is no string. */
  lemma ErrorReachesWaiter(s: PeerState, id: int, result: Option<Json>, code: Option<Json>, message: Option<Json>)
    requires Wired(s) && id in s.pending && Fits64(id)
    ensures Heard(s, Dispatch(s, ResponseFrame(id, result, Some(ErrorObject(code, message)))), id,
                  RpcError(if code.Some? && code.value.Int? && Fits64(code.value.n) then code.value.n else 0,
                           if message.Some? && message.value.Str? then message.value.s else "<no message>"))
  {
    var error := Some(ErrorObject(code, message));
    ResponseMembers(id, result, error);
    ErrorMembers(code, message);
  }

  /** An error member that is no object, such as null, is an error with the defaults. */
  lemma BareErrorReachesWaiter(s: PeerState, id: int, result: Option<Json>, error: Json)
    requires Wired(s) && id in s.pending && Fits64(id) && !error.Obj?
    ensures Heard(s, Dispatch(s, ResponseFrame(id, result, Some(error))), id, RpcError(0, "<no message>"))
  {
    ResponseMembers(id, result, Some(error));
  }

  /** Dispatching the reply an agent writes gives the waiter exactly the answer the agent meant. */
  lemma ReplyReachesWaiter(s: PeerState, id: int, o: Outcome)
    requires Wired(s) && id in s.pending && Fits64(id) && o != AgentExited && (o.RpcError? ==> Fits64(o.code))
    ensures Heard(s, Dispatch(s, Reply(id, o)), id, o)
  {
    match o {
      case Value(v) => ResultReachesWaiter(s, id, Some(v));
      case RpcError(code, message) => ErrorReachesWaiter(s, id, None, Some(Int(code)), Some(Str(message)));
      case InvalidResponse => ResultReachesWaiter(s, id, None);
    }
  }

  /** A response whose id nobody waits for, or is no 64-bit integer, changes nothing. */
  lemma StrayResponseIsIgnored(s: PeerState, id: int, result: Option<Json>, error: Option<Json>)
    requires Wired(s) && (id !in s.pending || !Fits64(id))
    ensures Dispatch(s, ResponseFrame(id, result, error)) == s
  {
    ResponseMembers(id, result, error);
  }

  /** A request or notification the agent sends: its method, and an id if it wants an answer. */
  function CallFrame(id: Option<Json>, call: string, params: Option<Json>): Json {
    Obj(Members("jsonrpc", Some(Str("2.0")), "method", Some(Str(call)), "params", params, "id", id))
  }

  lemma CallMembers(id: Option<Json>, call: string, params: Option<Json>)
    ensures var f := CallFrame(id, call, params);
      Get(f, "method") == Some(Str(call)) && Get(f, "params") == params && Get(f, "id") == id
  {
    assert "method"[0] == 'm' && "params"[0] == 'p' && "id"[0] == 'i' && "jsonrpc"[0] == 'j';
    forall k ensures Get(CallFrame(id, call, params), k)
      == if k == "jsonrpc" then Some(Str("2.0")) else if k == "method" then Some(Str(call))
         else if k == "params" then params else if k == "id" then id else None
    {
      LookupMembers("jsonrpc", Some(Str("2.0")), "method", Some(Str(call)), "params", params, "id", id, k);
    }
  }

  /** A call with an id that is not null goes to the handlers, whatever its method. */
  lemma AgentRequestReachesHandlers(s: PeerState, id: Json, call: string, params: Option<Json>)
    requires Wired(s) && id != Null
    ensures Dispatch(s, CallFrame(Some(id), call, params)) == s.(inbound := s.inbound + [CallFrame(Some(id), call, params)])
  {
    CallMembers(Some(id), call, params);
  }

  /** The parameters of an update: the session it is for, and what changed. */
  function UpdateParams(sid: string, update: Json): Json {
    Obj(Members("sessionId", Some(Str(sid)), "update", Some(update), "", None, "", None))
  }

  lemma UpdateMembers(sid: string, update: Json)
    ensures Get(UpdateParams(sid, update), "sessionId") == Some(Str(sid)) && Get(UpdateParams(sid, update), "update") == Some(update)
  {
    LookupMembers("sessionId", Some(Str(sid)), "update", Some(update), "", None, "", None, "sessionId");
    LookupMembers("sessionId", Some(Str(sid)), "update", Some(update), "", None, "", None, "update");
  }

  /** An update goes, with its whole parameters, to the end of the channel of the session it names, and nowhere
      when that session is not registered. */
  lemma UpdateReachesChannel(s: PeerState, sid: string, update: Json, id: Option<Json>)
    requires Wired(s) && (id.Some? ==> id.value == Null)
    ensures Dispatch(s, CallFrame(id, "session/update", Some(UpdateParams(sid, update))))
      == if sid in s.listeners
         then s.(channels := s.channels[s.listeners[sid] := s.channels[s.listeners[sid]] + [UpdateParams(sid, update)]])
         else s
  {
    CallMembers(id, "session/update", Some(UpdateParams(sid, update)));
    UpdateMembers(sid, update);
  }

  /** An update that names no session counts as one for the empty name, and without parameters carries null. */
  lemma NamelessUpdateGoesToEmptyName(s: PeerState, params: Option<Json>)
    requires Wired(s) && (params.Some? ==> !params.value.Obj?)
    ensures Dispatch(s, CallFrame(None, "session/update", params))
      == if "" in s.listeners
         then s.(channels := s.channels[s.listeners[""] :=
                   s.channels[s.listeners[""]] + [if params.Some? then params.value else Null]])
         else s
  {
    CallMembers(None, "session/update", params);
  }

  /** Any other notification changes nothing. */
  lemma OtherNotificationIsIgnored(s: PeerState, call: string, params: Option<Json>, id: Option<Json>)
    requires Wired(s) && call != "session/update" && (id.Some? ==> id.value == Null)
    ensures Dispatch(s, CallFrame(id, call, params)) == s
  {
    CallMembers(id, call, params);
  }

  // ---------------------------------------------------------------- the object

  class RpcPeer {
    var nextId: int
    var pending: set<int>
    var oneshots: map<int, seq<Outcome>>
    var listeners: map<string, nat>
    var channels: seq<seq<Json>>
    var inbound: seq<Json>

    function State(): PeerState
      reads this
    {
      PeerState(nextId, pending, oneshots, listeners, channels, inbound)
    }

    constructor ()
      ensures State() == PeerState(1, {}, map[], map[], [], [])
    {
      nextId, pending, oneshots, listeners, channels, inbound := 1, {}, map[], map[], [], [];
    }

    method AllocateId() returns (id: int)
      modifies this`nextId
      ensures id == old(nextId) && State() == old(State()).(nextId := id + 1)
    {
      id := nextId;
      nextId := nextId + 1;
    }

    method InsertPending(id: int)
      modifies this
      ensures State() == Register(old(State()), id)
    {
      pending, oneshots := pending + {id}, oneshots[id := []];
    }

    /** Removes the waiter of a request whose frame could not be written. */
    method RemovePending(id: int)
      modifies this
      ensures State() == Abandon(old(State()), id)
    {
      pending := pending - {id};
    }

    method RegisterListener(sid: string) returns (channel: nat)
      modifies this
      ensures State() == Listen(old(State()), sid) && channel == |old(channels)|
    {
      channel := |channels|;
      listeners, channels := listeners[sid := channel], channels + [[]];
    }

    method DropListener(sid: string)
      modifies this
      ensures State() == StopListening(old(State()), sid)
    {
      listeners := listeners - {sid};
    }

    method DispatchResponse(frame: Json)
      requires Wired(State()) && RouteOf(frame) == Response
      modifies this
      ensures State() == Dispatch(old(State()), frame)
    {
      var id := AsInt(Get(frame, "id").value);
      if id.None? {
        return;
      }
      if id.value !in pending {
        return;
      }
      pending := pending - {id.value};
      var outcome := OutcomeOf(frame);
      oneshots := oneshots[id.value := oneshots[id.value] + [outcome]];
    }

    method DispatchNotification(frame: Json)
      requires Wired(State()) && RouteOf(frame) == Notification
      modifies this
      ensures State() == Dispatch(old(State()), frame)
    {
      var u := UpdateOf(frame);
      if u.None? {
        return;
      }
      var (sid, params) := u.value;
      if sid in listeners {
        var c := listeners[sid];
        channels := channels[c := channels[c] + [params]];
      }
    }

    method RouteFrame(frame: Json)
      requires Wired(State())
      modifies this
      ensures State() == Dispatch(old(State()), frame) && Wired(State())
    {
      if HasMethod(frame) && HasId(frame) {
        inbound := inbound + [frame];
      } else if HasMethod(frame) {
        DispatchNotification(frame);
      } else if HasId(frame) {
        DispatchResponse(frame);
      }
    }

    /** The dispatch task when nobody else touches the peer: frames up to the first bad line are routed,
        then every request still pending is failed. */
    method RunDispatch(items: seq<Item>)
      requires Wired(State())
      modifies this
      ensures State() == Drain(DispatchAll(old(State()), FramesBeforeError(items)))
      ensures pending == {}
    {
      var i := 0;
      while i < |items| && items[i].Ok?
        invariant i <= |items| && Wired(State())
        invariant DispatchAll(State(), FramesBeforeError(items[i..]))
               == DispatchAll(old(State()), FramesBeforeError(items))
      {
        assert items[i..][1..] == items[i + 1..];
        RouteFrame(items[i].value);
        i := i + 1;
      }
      var drained := map id | id in oneshots :: if id in pending then oneshots[id] + [AgentExited] else oneshots[id];
      pending, oneshots := {}, drained;
    }
  }

  // ---------------------------------------------------------------- interleavings

  datatype Phase = Allocated | Registered | SendFailed | Waiting | Returned(outcome: Outcome) | Cancelled

  datatype LoopPhase = Running | Stopped | Ended

  /** `sent`: requests handed to the writer. `answers`: what the agent answered, per id.
      `queue`: what the reader task has forwarded and the loop has not yet taken. */
  datatype System = System(
    peer: PeerState,
    calls: map<int, Phase>,
    sent: set<int>,
    answers: map<int, Json>,
    queue: seq<Item>,
    writerOpen: bool,
    readerOpen: bool,
    loop: LoopPhase)

  datatype Step =
    | Allocate
    | InsertCall(id: int)
    | SendOk(id: int)
    | SendFails(id: int)
    | CleanUp(id: int)
    | Wake(id: int)
    | Cancel(id: int)
    | WriterCloses
    | Answer(id: int, frame: Json)
    | Emit(frame: Json)
    | ReportBadLine(text: string)
    | ReaderCloses
    | AddListener(sid: string)
    | RemoveListener(sid: string)
    | DispatchNext
    | StopLoop
    | DrainPending

  function Initial(): System {
    System(PeerState(1, {}, map[], map[], [], []), map[], {}, map[], [], true, true, Running)
  }

  predicate InPhase(s: System, id: int, p: Phase) {
    id in s.calls && s.calls[id] == p
  }

  /** When a step can happen. A caller may give up at any point of its request: while it waits for a lock, before
      or after it registered, or for its answer. The agent answers an id only after its request was written, and only once;
      everything else it emits is not a response to an integer id. */
  predicate Enabled(s: System, e: Step) {
    match e
    case Allocate => true
    case InsertCall(id) => InPhase(s, id, Allocated)
    case SendOk(id) => InPhase(s, id, Registered) && s.writerOpen
    case SendFails(id) => InPhase(s, id, Registered) && !s.writerOpen
    case CleanUp(id) => InPhase(s, id, SendFailed)
    case Wake(id) => InPhase(s, id, Waiting) && id in s.peer.oneshots && s.peer.oneshots[id] != []
    case Cancel(id) => id in s.calls && !s.calls[id].Returned? && !s.calls[id].Cancelled?
    case WriterCloses => true
    case Answer(id, frame) => s.readerOpen && id in s.sent && id !in s.answers && ResponseId(frame) == Some(id)
    case Emit(frame) => s.readerOpen && ResponseId(frame) == None
    case ReportBadLine(_) => s.readerOpen
    case ReaderCloses => true
    case AddListener(_) => true
    case RemoveListener(_) => true
    case DispatchNext => s.loop == Running && s.queue != [] && s.queue[0].Ok?
    case StopLoop => s.loop == Running && if s.queue == [] then !s.readerOpen else s.queue[0].Err?
    case DrainPending => s.loop == Stopped
  }

  ghost function Apply(s: System, e: Step): System
    requires Wired(s.peer) && Enabled(s, e)
  {
    match e
    case Allocate =>
      s.(peer := s.peer.(nextId := s.peer.nextId + 1), calls := s.calls[s.peer.nextId := Allocated])
    case InsertCall(id) => s.(peer := Register(s.peer, id), calls := s.calls[id := Registered])
    case SendOk(id) => s.(sent := s.sent + {id}, calls := s.calls[id := Waiting])
    case SendFails(id) => s.(calls := s.calls[id := SendFailed])
    case CleanUp(id) => s.(peer := Abandon(s.peer, id), calls := s.calls[id := Returned(AgentExited)])
    case Wake(id) => s.(calls := s.calls[id := Returned(s.peer.oneshots[id][0])])
    case Cancel(id) => s.(calls := s.calls[id := Cancelled])
    case WriterCloses => s.(writerOpen := false)
    case Answer(id, frame) => s.(queue := s.queue + [Ok(frame)], answers := s.answers[id := frame])
    case Emit(frame) => s.(queue := s.queue + [Ok(frame)])
    case ReportBadLine(text) => s.(queue := s.queue + [Err(text)])
    case ReaderCloses => s.(readerOpen := false)
    case AddListener(sid) => s.(peer := Listen(s.peer, sid))
    case RemoveListener(sid) => s.(peer := StopListening(s.peer, sid))
    case DispatchNext => s.(peer := Dispatch(s.peer, s.queue[0].value), queue := s.queue[1..])
    case StopLoop => s.(loop := Stopped, queue := if s.queue == [] then [] else s.queue[1..])
    case DrainPending => s.(peer := Drain(s.peer), loop := Ended)
  }

  // ---------------------------------------------------------------- the invariant

  ghost predicate CallConsistent(s: System, id: int)
    requires id in s.calls
  {
    match s.calls[id]
    case Allocated => id !in s.peer.oneshots && id !in s.sent
    case Registered => id in s.peer.oneshots && id !in s.sent
    case SendFailed => id in s.peer.oneshots && id !in s.sent
    case Waiting => id in s.peer.oneshots && id in s.sent
    case Cancelled => id in s.sent ==> id in s.peer.oneshots
    case Returned(o) =>
      && id in s.peer.oneshots
      && (if id in s.sent then s.peer.oneshots[id] == [o] else o == AgentExited && id !in s.peer.pending)
  }

  /** A waiter hears at most one outcome: of its own frame, or AgentExited from the final drain. */
  ghost predicate OneshotConsistent(s: System, id: int)
    requires id in s.peer.oneshots
  {
    var heard := s.peer.oneshots[id];
    && id in s.calls
    && |heard| <= 1
    && (id in s.peer.pending ==> heard == [])
    && (heard == [] && id !in s.peer.pending ==> id !in s.sent && s.calls[id] == Returned(AgentExited))
    && (heard != [] ==>
          || (id in s.answers && heard[0] == OutcomeOf(s.answers[id]))
          || (heard[0] == AgentExited && s.loop == Ended))
  }

  /** A queued answer is the agent's answer to a request that is still waiting, unless the loop has ended. */
  ghost predicate QueuedConsistent(s: System, item: Item) {
    item.Ok? && ResponseId(item.value).Some? ==>
      var id := ResponseId(item.value).value;
      && id in s.answers
      && s.answers[id] == item.value
      && (s.loop != Ended ==> id in s.peer.pending)
  }

  ghost predicate QueueDistinct(q: seq<Item>) {
    forall i, j :: 0 <= i < j < |q| && q[i].Ok? && q[j].Ok? && ResponseId(q[i].value).Some? ==>
      ResponseId(q[i].value) != ResponseId(q[j].value)
  }

  ghost predicate Inv(s: System) {
    && Wired(s.peer)
    && 1 <= s.peer.nextId
    && (forall id :: id in s.calls <==> 1 <= id < s.peer.nextId)
    && (forall id :: id in s.calls ==> CallConsistent(s, id))
    && (forall id :: id in s.peer.oneshots ==> OneshotConsistent(s, id))
    && (forall id :: id in s.answers ==> id in s.sent)
    && (forall id :: id in s.sent ==> id in s.calls)
    && (forall i :: 0 <= i < |s.queue| ==> QueuedConsistent(s, s.queue[i]))
    && QueueDistinct(s.queue)
  }

  lemma InitialInv()
    ensures Inv(Initial())
  {
  }

  lemma CallerStepKeepsInv(s: System, e: Step)
    requires Inv(s) && Enabled(s, e)
    requires e.Allocate? || e.InsertCall? || e.SendOk? || e.SendFails? || e.CleanUp? || e.Wake? || e.Cancel?
    ensures Inv(Apply(s, e))
  {
    var t := Apply(s, e);
    forall id | id in t.calls ensures CallConsistent(t, id) {
      if id in s.calls {
        assert CallConsistent(s, id);
      }
    }
    forall id | id in t.peer.oneshots ensures OneshotConsistent(t, id) {
      if id in s.peer.oneshots {
        assert OneshotConsistent(s, id);
      }
    }
    forall i | 0 <= i < |t.queue| ensures QueuedConsistent(t, t.queue[i]) {
      assert QueuedConsistent(s, s.queue[i]);
    }
  }

  lemma AgentStepKeepsInv(s: System, e: Step)
    requires Inv(s) && Enabled(s, e)
    requires e.Answer? || e.Emit? || e.ReportBadLine? || e.WriterCloses? || e.ReaderCloses?
          || e.AddListener? || e.RemoveListener?
    ensures Inv(Apply(s, e))
  {
    var t := Apply(s, e);
    forall id | id in t.calls ensures CallConsistent(t, id) {
      assert CallConsistent(s, id);
    }
    forall id | id in t.peer.oneshots ensures OneshotConsistent(t, id) {
      assert OneshotConsistent(s, id);
    }
    forall i | 0 <= i < |t.queue| ensures QueuedConsistent(t, t.queue[i]) {
      if i < |s.queue| {
        assert QueuedConsistent(s, s.queue[i]);
      } else if e.Answer? && s.loop != Ended {
        AnswerIsAwaited(s, e.id);
      }
    }
  }

  /** While the loop has not ended, a request the agent has seen and not answered is still pending. */
  lemma AnswerIsAwaited(s: System, id: int)
    requires Inv(s) && id in s.sent && id !in s.answers && s.loop != Ended
    ensures id in s.peer.pending
  {
    assert CallConsistent(s, id);
    assert OneshotConsistent(s, id);
  }

  lemma DispatchKeepsCalls(s: System, id: int)
    requires Inv(s) && Enabled(s, DispatchNext)
    ensures id in s.calls ==> CallConsistent(Apply(s, DispatchNext), id)
    ensures id in s.peer.oneshots ==> OneshotConsistent(Apply(s, DispatchNext), id)
  {
    assert QueuedConsistent(s, s.queue[0]);
    if id in s.calls {
      assert CallConsistent(s, id);
    }
    if id in s.peer.oneshots {
      assert OneshotConsistent(s, id);
    }
  }

  lemma DispatchKeepsInv(s: System)
    requires Inv(s) && Enabled(s, DispatchNext)
    ensures Inv(Apply(s, DispatchNext))
  {
    var t := Apply(s, DispatchNext);
    forall id | id in t.calls ensures CallConsistent(t, id) {
      DispatchKeepsCalls(s, id);
    }
    forall id | id in t.peer.oneshots ensures OneshotConsistent(t, id) {
      DispatchKeepsCalls(s, id);
    }
    assert QueuedConsistent(s, s.queue[0]);
    forall i | 0 <= i < |t.queue| ensures QueuedConsistent(t, t.queue[i]) {
      assert t.queue[i] == s.queue[i + 1];
      assert QueuedConsistent(s, s.queue[i + 1]);
    }
  }

  lemma StopKeepsInv(s: System)
    requires Inv(s) && Enabled(s, StopLoop)
    ensures Inv(Apply(s, StopLoop))
  {
    var t := Apply(s, StopLoop);
    forall id | id in t.calls ensures CallConsistent(t, id) {
      assert CallConsistent(s, id);
    }
    forall id | id in t.peer.oneshots ensures OneshotConsistent(t, id) {
      assert OneshotConsistent(s, id);
    }
    forall i | 0 <= i < |t.queue| ensures QueuedConsistent(t, t.queue[i]) {
      assert t.queue[i] == s.queue[i + 1];
      assert QueuedConsistent(s, s.queue[i + 1]);
    }
  }

  lemma DrainKeepsInv(s: System)
    requires Inv(s) && Enabled(s, DrainPending)
    ensures Inv(Apply(s, DrainPending))
  {
    var t := Apply(s, DrainPending);
    forall id | id in t.calls ensures CallConsistent(t, id) {
      assert CallConsistent(s, id);
      if id in s.peer.oneshots {
        assert OneshotConsistent(s, id);
      }
    }
    forall id | id in t.peer.oneshots ensures OneshotConsistent(t, id) {
      assert OneshotConsistent(s, id);
    }
    forall i | 0 <= i < |t.queue| ensures QueuedConsistent(t, t.queue[i]) {
      assert QueuedConsistent(s, s.queue[i]);
    }
  }

  lemma StepKeepsInv(s: System, e: Step)
    requires Inv(s) && Enabled(s, e)
    ensures Inv(Apply(s, e))
  {
    match e {
      case DispatchNext => DispatchKeepsInv(s);
      case StopLoop => StopKeepsInv(s);
      case DrainPending => DrainKeepsInv(s);
      case Answer(_, _) => AgentStepKeepsInv(s, e);
      case Emit(_) => AgentStepKeepsInv(s, e);
      case ReportBadLine(_) => AgentStepKeepsInv(s, e);
      case WriterCloses => AgentStepKeepsInv(s, e);
      case ReaderCloses => AgentStepKeepsInv(s, e);
      case AddListener(_) => AgentStepKeepsInv(s, e);
      case RemoveListener(_) => AgentStepKeepsInv(s, e);
      case _ => CallerStepKeepsInv(s, e);
    }
  }

  // ---------------------------------------------------------------- runs

  /** `t` is reached from `s` by taking the steps in order. */
  ghost predicate Reaches(s: System, steps: seq<Step>, t: System)
    decreases |steps|
  {
    if steps == [] then s == t
    else Wired(s.peer) && Enabled(s, steps[0]) && Reaches(Apply(s, steps[0]), steps[1..], t)
  }

  lemma {:induction false} RunKeepsInv(s: System, steps: seq<Step>, t: System)
    requires Inv(s) && Reaches(s, steps, t)
    ensures Inv(t)
    decreases |steps|
  {
    if steps != [] {
      StepKeepsInv(s, steps[0]);
      RunKeepsInv(Apply(s, steps[0]), steps[1..], t);
    }
  }

  /** In every interleaving: an answer the loop takes finds its waiter, and the waiter hears the outcome of
      exactly that frame. */
  lemma EveryAnswerFindsItsWaiter(steps: seq<Step>, s: System, id: int)
    requires Reaches(Initial(), steps, s) && s.loop == Running
    requires s.queue != [] && s.queue[0].Ok? && ResponseId(s.queue[0].value) == Some(id)
    ensures Wired(s.peer) && id in s.peer.pending
    ensures Apply(s, DispatchNext).peer.oneshots[id] == [OutcomeOf(s.queue[0].value)]
    ensures Apply(s, DispatchNext).peer.pending == s.peer.pending - {id}
  {
    InitialInv();
    RunKeepsInv(Initial(), steps, s);
    assert QueuedConsistent(s, s.queue[0]);
    assert OneshotConsistent(s, id);
  }

  /** In every interleaving a request hears at most one outcome: the one its own answer carries, or AgentExited,
      and the latter only once the loop has ended. */
  lemma ResolvedAtMostOnce(steps: seq<Step>, s: System, id: int)
    requires Reaches(Initial(), steps, s) && id in s.peer.oneshots
    ensures |s.peer.oneshots[id]| <= 1
    ensures s.peer.oneshots[id] != [] ==>
      || (id in s.answers && s.peer.oneshots[id] == [OutcomeOf(s.answers[id])])
      || (s.loop == Ended && s.peer.oneshots[id] == [AgentExited])
  {
    InitialInv();
    RunKeepsInv(Initial(), steps, s);
    assert OneshotConsistent(s, id);
  }

  /** What a caller is told: its own answer, or that the agent is gone. */
  lemma CallerHearsItsOwnAnswer(steps: seq<Step>, s: System, id: int, o: Outcome)
    requires Reaches(Initial(), steps, s) && InPhase(s, id, Returned(o)) && o != AgentExited
    ensures id in s.answers && o == OutcomeOf(s.answers[id]) && ResponseId(s.answers[id]) == Some(id)
  {
    InitialInv();
    RunKeepsInv(Initial(), steps, s);
    assert CallConsistent(s, id);
    assert OneshotConsistent(s, id);
    AnswersCarryTheirId(Initial(), steps, s);
  }

  lemma {:induction false} AnswersCarryTheirId(s: System, steps: seq<Step>, t: System)
    requires Reaches(s, steps, t) && forall id :: id in s.answers ==> ResponseId(s.answers[id]) == Some(id)
    ensures forall id :: id in t.answers ==> ResponseId(t.answers[id]) == Some(id)
    decreases |steps|
  {
    if steps != [] {
      AnswersCarryTheirId(Apply(s, steps[0]), steps[1..], t);
    }
  }

  lemma {:induction false} AnswerIsKept(s: System, steps: seq<Step>, t: System, id: int, frame: Json)
    requires Reaches(s, steps, t)
    requires Answer(id, frame) in steps || (id in s.answers && s.answers[id] == frame)
    ensures id in t.answers && t.answers[id] == frame
    decreases |steps|
  {
    if steps != [] {
      assert Answer(id, frame) in steps ==> steps[0] == Answer(id, frame) || Answer(id, frame) in steps[1..];
      AnswerIsKept(Apply(s, steps[0]), steps[1..], t, id, frame);
    }
  }

  /** In every run: when the agent answers `id` by the reply for `o`, a caller that returns with anything but agent
      exit returns exactly `o`. */
  lemma CallerHearsTheReply(steps: seq<Step>, s: System, id: int, o: Outcome, p: Outcome)
    requires Reaches(Initial(), steps, s) && o != AgentExited && (o.RpcError? ==> Fits64(o.code))
    requires Answer(id, Reply(id, o)) in steps && InPhase(s, id, Returned(p)) && p != AgentExited
    ensures p == o
  {
    AnswerIsKept(Initial(), steps, s, id, Reply(id, o));
    CallerHearsItsOwnAnswer(steps, s, id, p);
    ReplyMeans(id, o);
  }

  /** The reply read back, by what dispatching it does to a waiter. */
  lemma ReplyMeans(id: int, o: Outcome)
    requires o != AgentExited && (o.RpcError? ==> Fits64(o.code)) && ResponseId(Reply(id, o)) == Some(id)
    ensures OutcomeOf(Reply(id, o)) == o
  {
    var s := PeerState(1, {id}, map[id := []], map[], [], []);
    assert Fits64(id) by {
      match o {
        case Value(v) => ResponseMembers(id, Some(v), None);
        case RpcError(code, message) => ResponseMembers(id, None, Some(ErrorObject(Some(Int(code)), Some(Str(message)))));
        case InvalidResponse => ResponseMembers(id, None, None);
      }
    }
    ReplyReachesWaiter(s, id, o);
    assert Dispatch(s, Reply(id, o)).oneshots[id] == [OutcomeOf(Reply(id, o))];
    assert s.oneshots[id] + [o] == [o];
  }

  /** The final drain leaves nothing pending: every request waiting at that moment hears AgentExited and its
      caller can return at once. */
  lemma DrainFailsEveryPending(steps: seq<Step>, s: System, id: int)
    requires Reaches(Initial(), steps, s) && s.loop == Stopped
    ensures Wired(s.peer) && Apply(s, DrainPending).peer.pending == {}
    ensures id in s.peer.pending ==> Apply(s, DrainPending).peer.oneshots[id] == [AgentExited]
    ensures InPhase(s, id, Waiting) ==> Enabled(Apply(s, DrainPending), Wake(id))
  {
    InitialInv();
    RunKeepsInv(Initial(), steps, s);
    if id in s.calls {
      assert CallConsistent(s, id);
    }
    if id in s.peer.oneshots {
      assert OneshotConsistent(s, id);
    }
  }

  /** Once the loop has ended no waiter hears anything new. */
  lemma {:induction false} NothingHeardAfterTheEnd(s: System, steps: seq<Step>, t: System, id: int)
    requires Inv(s) && Reaches(s, steps, t) && s.loop == Ended && id in s.peer.oneshots
    ensures t.loop == Ended && id in t.peer.oneshots && t.peer.oneshots[id] == s.peer.oneshots[id]
    decreases |steps|
  {
    if steps != [] {
      var e := steps[0];
      StepKeepsInv(s, e);
      if e.InsertCall? {
        assert CallConsistent(s, e.id);
      }
      NothingHeardAfterTheEnd(Apply(s, e), steps[1..], t, id);
    }
  }

  /** After the end, a request that was written returns exactly when it is no longer pending: it can be woken
      now if the drain reached it, and it never returns, in any continuation, if it was registered later. */
  lemma LateRequestNeverReturns(before: seq<Step>, s: System, after: seq<Step>, t: System, id: int, o: Outcome)
    requires Reaches(Initial(), before, s) && Reaches(s, after, t)
    requires s.loop == Ended && InPhase(s, id, Waiting)
    ensures Enabled(s, Wake(id)) <==> id !in s.peer.pending
    ensures id in s.peer.pending ==> !InPhase(t, id, Returned(o))
  {
    InitialInv();
    RunKeepsInv(Initial(), before, s);
    RunKeepsInv(s, after, t);
    assert CallConsistent(s, id);
    assert OneshotConsistent(s, id);
    NothingHeardAfterTheEnd(s, after, t, id);
    SentStaysSent(s, after, t, id);
    assert id in t.calls && CallConsistent(t, id);
  }

  lemma {:induction false} SentStaysSent(s: System, steps: seq<Step>, t: System, id: int)
    requires Reaches(s, steps, t) && id in s.sent
    ensures id in t.sent
    decreases |steps|
  {
    if steps != [] {
      SentStaysSent(Apply(s, steps[0]), steps[1..], t, id);
    }
  }

  lemma {:induction false} ReachesThenStep(s: System, steps: seq<Step>, t: System, e: Step)
    requires Reaches(s, steps, t) && Wired(t.peer) && Enabled(t, e)
    ensures Reaches(s, steps + [e], Apply(t, e))
    decreases |steps|
  {
    if steps == [] {
      assert [e][1..] == [];
      assert Reaches(Apply(t, e), [], Apply(t, e));
    } else {
      assert (steps + [e])[1..] == steps[1..] + [e];
      ReachesThenStep(Apply(s, steps[0]), steps[1..], t, e);
    }
  }

  /** Every answer can be heard: there is a run in which the agent replies `o` to the first request and its
      caller returns `o`. */
  lemma ReplyRun(o: Outcome) returns (steps: seq<Step>, s: System)
    requires o != AgentExited && (o.RpcError? ==> Fits64(o.code))
    ensures Reaches(Initial(), steps, s) && Answer(1, Reply(1, o)) in steps && InPhase(s, 1, Returned(o))
  {
    steps, s := AwaitedAnswer();
    ReplyIsAnswer(o);
    var reply := Answer(1, Reply(1, o));
    ReachesThenStep(Initial(), steps, s, reply);
    s, steps := Apply(s, reply), steps + [reply];
    var r := Reply(1, o);
    ReplyMeans(1, o);
    ReachesThenStep(Initial(), steps, s, DispatchNext);
    s, steps := Apply(s, DispatchNext), steps + [DispatchNext];
    assert s.peer.oneshots[1] == [o];
    ReachesThenStep(Initial(), steps, s, Wake(1));
    s, steps := Apply(s, Wake(1)), steps + [Wake(1)];
  }

  lemma ReplyIsAnswer(o: Outcome)
    requires o != AgentExited && (o.RpcError? ==> Fits64(o.code))
    ensures ResponseId(Reply(1, o)) == Some(1)
  {
    match o {
      case Value(v) => ResponseMembers(1, Some(v), None);
      case RpcError(code, message) => ResponseMembers(1, None, Some(ErrorObject(Some(Int(code)), Some(Str(message)))));
      case InvalidResponse => ResponseMembers(1, None, None);
    }
  }

  /** The first request is written and waits. */
  lemma AwaitedAnswer() returns (steps: seq<Step>, s: System)
    ensures Reaches(Initial(), steps, s) && Wired(s.peer)
    ensures InPhase(s, 1, Waiting) && 1 in s.peer.pending && s.peer.oneshots == map[1 := []]
    ensures s.sent == {1} && s.answers == map[] && s.queue == [] && s.readerOpen && s.writerOpen && s.loop == Running
  {
    s, steps := Initial(), [];
    ReachesThenStep(Initial(), steps, s, Allocate);
    s, steps := Apply(s, Allocate), steps + [Allocate];
    ReachesThenStep(Initial(), steps, s, InsertCall(1));
    s, steps := Apply(s, InsertCall(1)), steps + [InsertCall(1)];
    ReachesThenStep(Initial(), steps, s, SendOk(1));
    s, steps := Apply(s, SendOk(1)), steps + [SendOk(1)];
  }

  /** Nothing holds up the environment: listeners come and go, either end can close, an open agent can say anything
      that is no answer, and a caller that has not returned can give up. */
  lemma EnvironmentIsFree(s: System, sid: string, frame: Json, text: string, id: int)
    ensures Enabled(s, AddListener(sid)) && Enabled(s, RemoveListener(sid)) && Enabled(s, WriterCloses) && Enabled(s, ReaderCloses)
    ensures s.readerOpen && ResponseId(frame) == None ==> Enabled(s, Emit(frame)) && Enabled(s, ReportBadLine(text))
    ensures InPhase(s, id, Allocated) || InPhase(s, id, Registered) || InPhase(s, id, SendFailed) || InPhase(s, id, Waiting)
      ==> Enabled(s, Cancel(id))
  {
  }

  /** And a request can fail at once: there is a run in which the writer has closed and the first caller returns
      agent exit, with nothing pending. */
  lemma ClosedWriterRun() returns (steps: seq<Step>, s: System)
    ensures Reaches(Initial(), steps, s) && InPhase(s, 1, Returned(AgentExited)) && s.peer.pending == {} && s.sent == {}
  {
    s, steps := Initial(), [];
    ReachesThenStep(Initial(), steps, s, WriterCloses);
    s, steps := Apply(s, WriterCloses), steps + [WriterCloses];
    ReachesThenStep(Initial(), steps, s, Allocate);
    s, steps := Apply(s, Allocate), steps + [Allocate];
    ReachesThenStep(Initial(), steps, s, InsertCall(1));
    s, steps := Apply(s, InsertCall(1)), steps + [InsertCall(1)];
    ReachesThenStep(Initial(), steps, s, SendFails(1));
    s, steps := Apply(s, SendFails(1)), steps + [SendFails(1)];
    ReachesThenStep(Initial(), steps, s, CleanUp(1));
    s, steps := Apply(s, CleanUp(1)), steps + [CleanUp(1)];
  }

  /** Such a request exists: the loop ends on a closed stream, then a request is registered and written. */
  lemma LateRequestExample() returns (steps: seq<Step>, s: System)
    ensures Reaches(Initial(), steps, s)
    ensures s.loop == Ended && InPhase(s, 1, Waiting) && 1 in s.peer.pending
  {
    s, steps := Initial(), [];
    ReachesThenStep(Initial(), steps, s, ReaderCloses);
    s, steps := Apply(s, ReaderCloses), steps + [ReaderCloses];
    ReachesThenStep(Initial(), steps, s, StopLoop);
    s, steps := Apply(s, StopLoop), steps + [StopLoop];
    ReachesThenStep(Initial(), steps, s, DrainPending);
    s, steps := Apply(s, DrainPending), steps + [DrainPending];
    ReachesThenStep(Initial(), steps, s, Allocate);
    s, steps := Apply(s, Allocate), steps + [Allocate];
    ReachesThenStep(Initial(), steps, s, InsertCall(1));
    s, steps := Apply(s, InsertCall(1)), steps + [InsertCall(1)];
    ReachesThenStep(Initial(), steps, s, SendOk(1));
    s, steps := Apply(s, SendOk(1)), steps + [SendOk(1)];
  }

  // ---------------------------------------------------------------- one bad line

  /** The reader task goes on after a line it cannot parse; the dispatch loop does not. Whatever follows the
      bad line has no effect on the peer. */
  lemma {:induction false} BadLineEndsDispatch(good: seq<Item>, text: string, rest: seq<Item>)
    requires forall i :: 0 <= i < |good| ==> good[i].Ok?
    ensures FramesBeforeError(good + [Err(text)] + rest) == FramesBeforeError(good)
    ensures |FramesBeforeError(good)| == |good|
  {
    var all := good + [Err(text)] + rest;
    if good == [] {
      assert all[0] == Err(text);
    } else {
      assert all[1..] == good[1..] + [Err(text)] + rest;
      BadLineEndsDispatch(good[1..], text, rest);
    }
  }
}
