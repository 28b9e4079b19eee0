/** One prompt turn: the session's update channel is drained while the prompt request is awaited.
    The scheduler decides, at every point, whether the dispatch loop routes another frame, the response arm
    of the select fires, or the update arm does. */
module Session {
  import opened Prelude
  import opened Json
  import opened Framing
  import opened Rpc

  /** One move of the scheduler: the dispatch loop takes the next frame of the agent, the loop ends and its
      drain fails the request, or the turn is polled and the select picks an arm. */
  datatype Move = Route(frame: Json) | AgentGone | PickResponse | PickUpdate

  datatype Turn<U> =
    | Finished(stopReason: string, updates: seq<U>, live: seq<Json>)
    | Failed(outcome: Outcome)
    | Unparseable(result: Json)
    | StillRunning

  // ---------------------------------------------------------------- updates

  /** The update object is nested under `update`; a flat body is tolerated. */
  function BodyOf(raw: Json): Json {
    var u := Get(raw, "update");
    if u.Some? then u.value else raw
  }

  /** The decoded updates of the parameters that decode, in order. */
  function Decoded<U>(raws: seq<Json>, decode: Json -> Option<U>): seq<U> {
    if raws == [] then []
    else
      var last := raws[|raws| - 1];
      var d := decode(BodyOf(last));
      Decoded(raws[..|raws| - 1], decode) + if d.Some? then [d.value] else []
  }

  /** The bodies of the parameters that decode, as forwarded live. */
  function Bodies<U>(raws: seq<Json>, decode: Json -> Option<U>): seq<Json> {
    if raws == [] then []
    else
      var last := raws[|raws| - 1];
      Bodies(raws[..|raws| - 1], decode) + if decode(BodyOf(last)).Some? then [BodyOf(last)] else []
  }

  /** The live consumer sees one body per collected update, and each body decodes to that update. */
  lemma {:induction false} LiveMatchesCollected<U>(raws: seq<Json>, decode: Json -> Option<U>)
    ensures |Bodies(raws, decode)| == |Decoded(raws, decode)|
    ensures forall i :: 0 <= i < |Bodies(raws, decode)| ==>
              decode(Bodies(raws, decode)[i]) == Some(Decoded(raws, decode)[i])
  {
    if raws != [] {
      LiveMatchesCollected(raws[..|raws| - 1], decode);
    }
  }

  const STOP_REASONS := ["end_turn", "max_tokens", "max_turn_requests", "refusal", "cancelled"]

  /** The prompt response carries a known stop reason. */
  function StopReasonOf(result: Json): Option<string> {
    var r := Get(result, "stopReason");
    if r.Some? && r.value.Str? && r.value.s in STOP_REASONS then Some(r.value.s) else None
  }

  // ---------------------------------------------------------------- what the frames route

  /** Parameters routed to the listener of `sid` by a frame. */
  function RoutedBy(frame: Json, sid: string): seq<Json> {
    var u := UpdateOf(frame);
    if u.Some? && u.value.0 == sid then [u.value.1] else []
  }

  /** The session's update stream: what the dispatch loop routes to `sid`, in order. */
  function Routed(frames: seq<Json>, sid: string): seq<Json> {
    if frames == [] then [] else Routed(frames[..|frames| - 1], sid) + RoutedBy(frames[|frames| - 1], sid)
  }

  function FramesOf(moves: seq<Move>): seq<Json> {
    if moves == [] then []
    else
      var last := moves[|moves| - 1];
      FramesOf(moves[..|moves| - 1]) + if last.Route? then [last.frame] else []
  }

  /** The frames the dispatch loop took before the first answer to request `id`. */
  function BeforeAnswer(frames: seq<Json>, id: int): seq<Json> {
    if frames == [] || ResponseId(frames[0]) == Some(id) then []
    else [frames[0]] + BeforeAnswer(frames[1..], id)
  }

  lemma {:induction false} RoutedAppend(a: seq<Json>, b: seq<Json>, sid: string)
    ensures Routed(a + b, sid) == Routed(a, sid) + Routed(b, sid)
  {
    if b == [] {
      assert a + b == a;
    } else {
      var m := |b| - 1;
      assert (a + b)[..|a + b| - 1] == a + b[..m];
      RoutedAppend(a, b[..m], sid);
    }
  }

  lemma {:induction false} FramesAppend(a: seq<Move>, b: seq<Move>)
    ensures FramesOf(a + b) == FramesOf(a) + FramesOf(b)
  {
    if b == [] {
      assert a + b == a;
    } else {
      var m := |b| - 1;
      assert (a + b)[..|a + b| - 1] == a + b[..m];
      FramesAppend(a, b[..m]);
    }
  }

  lemma FramesStep(moves: seq<Move>, k: nat)
    requires k < |moves|
    ensures FramesOf(moves[..k + 1])
         == if moves[k].Route? then FramesOf(moves[..k]) + [moves[k].frame] else FramesOf(moves[..k])
  {
    assert moves[..k + 1][..k] == moves[..k];
  }

  lemma RoutedStep(frames: seq<Json>, frame: Json, sid: string)
    ensures Routed(frames + [frame], sid) == Routed(frames, sid) + RoutedBy(frame, sid)
  {
    assert (frames + [frame])[..|frames|] == frames;
  }

  lemma DecodedStep<U>(raws: seq<Json>, n: nat, decode: Json -> Option<U>)
    requires n < |raws|
    ensures Decoded(raws[..n + 1], decode)
         == Decoded(raws[..n], decode) + (if decode(BodyOf(raws[n])).Some? then [decode(BodyOf(raws[n])).value] else [])
    ensures Bodies(raws[..n + 1], decode)
         == Bodies(raws[..n], decode) + (if decode(BodyOf(raws[n])).Some? then [BodyOf(raws[n])] else [])
  {
    assert raws[..n + 1][..n] == raws[..n];
  }

  // ---------------------------------------------------------------- the turn

  /** The turn's view of the peer: its channel, and what its oneshot has received. */
  datatype Wire = Wire(channel: seq<Json>, response: Option<Outcome>)

  function RouteOnto(w: Wire, frame: Json, sid: string, id: int): Wire {
    Wire(w.channel + RoutedBy(frame, sid),
         if w.response.None? && ResponseId(frame) == Some(id) then Some(OutcomeOf(frame)) else w.response)
  }

  /** What the channel and the oneshot hold after the frames, when `taken` updates were consumed. */
  ghost predicate WireAfter(w: Wire, backlog: seq<Json>, frames: seq<Json>, taken: nat, sid: string, id: int) {
    var stream := backlog + Routed(frames, sid);
    && taken <= |stream|
    && w.channel == stream[taken..]
    && (w.response.None? ==> BeforeAnswer(frames, id) == frames)
    && (w.response.Some? && w.response.value != AgentExited ==> AnsweredWith(frames, id, w.response.value))
  }

  /** The first answer to `id` among the frames has this outcome. */
  ghost predicate AnsweredWith(frames: seq<Json>, id: int, o: Outcome) {
    var n := |BeforeAnswer(frames, id)|;
    n < |frames| && ResponseId(frames[n]) == Some(id) && OutcomeOf(frames[n]) == o
  }

  lemma {:induction false} BeforeAnswerStep(frames: seq<Json>, frame: Json, id: int)
    ensures BeforeAnswer(frames, id) != frames ==> BeforeAnswer(frames + [frame], id) == BeforeAnswer(frames, id)
    ensures BeforeAnswer(frames, id) == frames ==>
      BeforeAnswer(frames + [frame], id) == if ResponseId(frame) == Some(id) then frames else frames + [frame]
  {
    if frames == [] {
      assert [] + [frame] == [frame];
      assert [frame][1..] == [];
    } else if ResponseId(frames[0]) != Some(id) {
      assert (frames + [frame])[1..] == frames[1..] + [frame];
      BeforeAnswerStep(frames[1..], frame, id);
      assert frames == [frames[0]] + frames[1..];
      assert frames + [frame] == [frames[0]] + (frames[1..] + [frame]);
    } else {
      assert (frames + [frame])[0] == frames[0];
    }
  }

  lemma {:induction false} BeforeAnswerIsPrefix(frames: seq<Json>, id: int)
    ensures BeforeAnswer(frames, id) <= frames
  {
    if frames != [] && ResponseId(frames[0]) != Some(id) {
      BeforeAnswerIsPrefix(frames[1..], id);
    }
  }

  lemma {:induction false} AnsweredStep(frames: seq<Json>, frame: Json, id: int, o: Outcome)
    ensures AnsweredWith(frames, id, o) ==> AnsweredWith(frames + [frame], id, o)
    ensures BeforeAnswer(frames, id) == frames && ResponseId(frame) == Some(id) ==>
              AnsweredWith(frames + [frame], id, OutcomeOf(frame))
  {
    BeforeAnswerStep(frames, frame, id);
  }

  /** The turn's collected updates and live bodies are those of the first `taken` updates of the stream so far. */
  ghost predicate InStep<U>(w: Wire, collected: seq<U>, live: seq<Json>, taken: nat, backlog: seq<Json>,
                            frames: seq<Json>, sid: string, id: int, decode: Json -> Option<U>) {
    var stream := backlog + Routed(frames, sid);
    && WireAfter(w, backlog, frames, taken, sid, id)
    && collected == Decoded(stream[..taken], decode)
    && live == Bodies(stream[..taken], decode)
  }

  /** Growing a stream moves nothing already on it. */
  lemma Extend(backlog: seq<Json>, routed: seq<Json>, more: seq<Json>, taken: nat)
    requires taken <= |backlog + routed|
    ensures backlog + (routed + more) == (backlog + routed) + more
    ensures (backlog + (routed + more))[taken..] == (backlog + routed)[taken..] + more
    ensures (backlog + (routed + more))[..taken] == (backlog + routed)[..taken]
  {
  }

  lemma {:induction false} RouteKeepsStep<U>(w: Wire, collected: seq<U>, live: seq<Json>, taken: nat, backlog: seq<Json>,
                          frames: seq<Json>, frame: Json, sid: string, id: int, decode: Json -> Option<U>)
    requires InStep(w, collected, live, taken, backlog, frames, sid, id, decode)
    ensures InStep(RouteOnto(w, frame, sid, id), collected, live, taken, backlog, frames + [frame], sid, id, decode)
  {
    BeforeAnswerStep(frames, frame, id);
    if w.response.Some? {
      AnsweredStep(frames, frame, id, w.response.value);
    } else {
      AnsweredStep(frames, frame, id, OutcomeOf(frame));
    }
    RoutedStep(frames, frame, sid);
    Extend(backlog, Routed(frames, sid), RoutedBy(frame, sid), taken);
  }

  lemma {:induction false} TakeKeepsStep<U>(w: Wire, collected: seq<U>, live: seq<Json>, taken: nat, backlog: seq<Json>,
                         frames: seq<Json>, sid: string, id: int, decode: Json -> Option<U>)
    requires InStep(w, collected, live, taken, backlog, frames, sid, id, decode) && w.channel != []
    ensures var d := decode(BodyOf(w.channel[0]));
      InStep(w.(channel := w.channel[1..]),
             collected + (if d.Some? then [d.value] else []),
             live + (if d.Some? then [BodyOf(w.channel[0])] else []),
             taken + 1, backlog, frames, sid, id, decode)
  {
    var s := backlog + Routed(frames, sid);
    assert w.channel[0] == s[taken];
    assert w.channel[1..] == s[taken + 1..];
    DecodedStep(s, taken, decode);
  }

  lemma {:induction false} BeforeAnswerKept(a: seq<Json>, b: seq<Json>, id: int)
    requires |BeforeAnswer(a, id)| < |a|
    ensures BeforeAnswer(a + b, id) == BeforeAnswer(a, id)
  {
    if ResponseId(a[0]) != Some(id) {
      assert (a + b)[1..] == a[1..] + b;
      BeforeAnswerKept(a[1..], b, id);
    }
  }

  /** A turn is over: the answer was heard and the channel is empty. */
  lemma {:induction false} FinishedTurn<U>(w: Wire, collected: seq<U>, live: seq<Json>, taken: nat, backlog: seq<Json>,
                        moves: seq<Move>, k: nat, sid: string, id: int, decode: Json -> Option<U>)
    requires k <= |moves| && w.channel == [] && w.response.Some? && w.response.value != AgentExited
    requires InStep(w, collected, live, taken, backlog, FramesOf(moves[..k]), sid, id, decode)
    ensures Complete(collected, live, taken, backlog, FramesOf(moves), sid, id, decode)
    ensures AnsweredWith(FramesOf(moves), id, w.response.value)
  {
    var now, later := FramesOf(moves[..k]), FramesOf(moves[k..]);
    assert moves == moves[..k] + moves[k..];
    FramesAppend(moves[..k], moves[k..]);
    RoutedAppend(now, later, sid);
    Extend(backlog, Routed(now, sid), Routed(later, sid), taken);
    EarlyUpdates(backlog, now, sid, id);
    BeforeAnswerKept(now, later, id);
    assert (now + later)[|BeforeAnswer(now, id)|] == now[|BeforeAnswer(now, id)|];
  }

  /** What was routed before the answer is part of what has been routed. */
  lemma EarlyUpdates(backlog: seq<Json>, frames: seq<Json>, sid: string, id: int)
    ensures |backlog + Routed(BeforeAnswer(frames, id), sid)| <= |backlog + Routed(frames, sid)|
  {
    BeforeAnswerIsPrefix(frames, id);
    var early := BeforeAnswer(frames, id);
    assert frames == early + frames[|early|..];
    RoutedAppend(early, frames[|early|..], sid);
  }

  /** What a finished turn promises: it took the first `taken` updates of the session's stream, with everything
      routed before the answer among them, collected their decodable part in order, once each, and forwarded
      the same updates live. */
  ghost predicate Complete<U>(collected: seq<U>, live: seq<Json>, taken: nat, backlog: seq<Json>,
                              frames: seq<Json>, sid: string, id: int, decode: Json -> Option<U>) {
    var stream := backlog + Routed(frames, sid);
    && |backlog + Routed(BeforeAnswer(frames, id), sid)| <= taken <= |stream|
    && collected == Decoded(stream[..taken], decode)
    && live == Bodies(stream[..taken], decode)
  }

  /** The update arm of the select, and the drain that follows the answer: a decodable update is forwarded and
      collected, any other is dropped. */
  method TakeUpdate<U>(w: Wire, collected: seq<U>, live: seq<Json>, ghost taken: nat, ghost backlog: seq<Json>,
                       ghost frames: seq<Json>, ghost sid: string, ghost id: int, decode: Json -> Option<U>)
    returns (rest: Wire, updates: seq<U>, forwarded: seq<Json>)
    requires InStep(w, collected, live, taken, backlog, frames, sid, id, decode) && w.channel != []
    ensures InStep(rest, updates, forwarded, taken + 1, backlog, frames, sid, id, decode)
    ensures rest == w.(channel := w.channel[1..])
  {
    TakeKeepsStep(w, collected, live, taken, backlog, frames, sid, id, decode);
    var body := BodyOf(w.channel[0]);
    var u := decode(body);
    updates, forwarded := collected, live;
    if u.Some? {
      forwarded, updates := live + [body], collected + [u.value];
    } else {
      assert collected + [] == collected && live + [] == live;
    }
    rest := w.(channel := w.channel[1..]);
  }

  /** The moves that poll the turn. */
  function Polls(moves: seq<Move>): nat {
    if moves == [] then 0
    else Polls(moves[..|moves| - 1]) + (if moves[|moves| - 1].PickResponse? || moves[|moves| - 1].PickUpdate? then 1 else 0)
  }

  /** Move `j` polls the response arm when the answer has been routed. */
  predicate PicksAnswer(moves: seq<Move>, j: nat, id: int)
    requires j < |moves|
  {
    moves[j].PickResponse? && |BeforeAnswer(FramesOf(moves[..j]), id)| < |FramesOf(moves[..j])|
  }

  lemma PollsStep(moves: seq<Move>, j: nat, k: nat)
    requires j <= k < |moves|
    ensures Polls(moves[j..k + 1]) == Polls(moves[j..k]) + (if moves[k].PickResponse? || moves[k].PickUpdate? then 1 else 0)
  {
    assert moves[j..k + 1][..k - j] == moves[j..k];
  }

  /** Since an answered pick at `j`, if it was one, the turn has its stop reason and each poll has taken an update. */
  predicate PollsUsed(moves: seq<Move>, j: nat, k: nat, id: int, stopped: bool, taken: nat)
    requires j < k <= |moves|
  {
    PicksAnswer(moves, j, id) ==> stopped && Polls(moves[j + 1..k]) <= taken
  }

  ghost predicate Progressed(moves: seq<Move>, k: nat, id: int, stopped: bool, taken: nat)
    requires k <= |moves|
  {
    forall j :: 0 <= j < k ==> PollsUsed(moves, j, k, id, stopped, taken)
  }

  /** A move keeps the progress when it is no poll, when it takes an update, or before there was an answer to pick;
      and picking the answer starts it. */
  lemma ProgressStep(moves: seq<Move>, k: nat, id: int, stopped: bool, taken: nat, now: bool, more: nat)
    requires k < |moves| && Progressed(moves, k, id, stopped, taken) && taken <= more && (stopped ==> now)
    requires PicksAnswer(moves, k, id) ==> now
    requires stopped && (moves[k].PickUpdate? || moves[k].PickResponse?) ==> taken < more
    ensures Progressed(moves, k + 1, id, now, more)
  {
    var next := k + 1;
    forall j | 0 <= j < next ensures PollsUsed(moves, j, next, id, now, more) {
      if j < k {
        assert PollsUsed(moves, j, k, id, stopped, taken);
        PollsStep(moves, j + 1, k);
      } else {
        assert moves[k + 1..k + 1] == [];
      }
    }
  }

  /** What a turn reports. Finished: the updates are as promised, and the first answer is a result with the stop
      reason. Failed: the agent is gone, or the first answer is no result. Unparseable: it is a result without a
      stop reason. Still running: since any pick of an answer there were no more polls than updates. */
  ghost predicate Reports<U>(turn: Turn<U>, taken: nat, backlog: seq<Json>, moves: seq<Move>, sid: string, id: int,
                                   decode: Json -> Option<U>) {
    var frames := FramesOf(moves);
    match turn
    case Finished(stopReason, updates, live) =>
      && Complete(updates, live, taken, backlog, frames, sid, id, decode)
      && exists result :: AnsweredWith(frames, id, Value(result)) && StopReasonOf(result) == Some(stopReason)
    case Failed(outcome) =>
      if outcome == AgentExited then AgentGone in moves else !outcome.Value? && AnsweredWith(frames, id, outcome)
    case Unparseable(result) => AnsweredWith(frames, id, Value(result)) && StopReasonOf(result) == None
    case StillRunning =>
      Progressed(moves, |moves|, id, true, |backlog + Routed(frames, sid)|)
  }

  /** What was answered stays the first answer. */
  lemma AnsweredLater(moves: seq<Move>, k: nat, id: int, o: Outcome)
    requires k <= |moves| && AnsweredWith(FramesOf(moves[..k]), id, o)
    ensures AnsweredWith(FramesOf(moves), id, o)
  {
    var now, later := FramesOf(moves[..k]), FramesOf(moves[k..]);
    assert moves == moves[..k] + moves[k..];
    FramesAppend(moves[..k], moves[k..]);
    BeforeAnswerKept(now, later, id);
    assert (now + later)[|BeforeAnswer(now, id)|] == now[|BeforeAnswer(now, id)|];
  }

  lemma FinishedReports<U>(w: Wire, collected: seq<U>, live: seq<Json>, taken: nat, backlog: seq<Json>, moves: seq<Move>,
                           k: nat, sid: string, id: int, decode: Json -> Option<U>, stop: string)
    requires k <= |moves| && w.channel == [] && w.response.Some? && w.response.value.Value?
    requires StopReasonOf(w.response.value.result) == Some(stop)
    requires InStep(w, collected, live, taken, backlog, FramesOf(moves[..k]), sid, id, decode)
    ensures Reports(Finished(stop, collected, live), taken, backlog, moves, sid, id, decode)
  {
    FinishedTurn(w, collected, live, taken, backlog, moves, k, sid, id, decode);
  }

  /** The response arm of the select: the turn fails, or the result gives its stop reason or none. */
  method TakeAnswer<U>(heard: Outcome, ghost taken: nat, ghost backlog: seq<Json>, ghost moves: seq<Move>, ghost k: nat,
                       ghost sid: string, ghost id: int, ghost decode: Json -> Option<U>)
    returns (over: Option<Turn<U>>, stop: Option<string>)
    requires k <= |moves| && heard != AgentExited && AnsweredWith(FramesOf(moves[..k]), id, heard)
    ensures over.Some? ==> Reports(over.value, taken, backlog, moves, sid, id, decode)
    ensures over.None? ==> stop.Some? && heard.Value? && StopReasonOf(heard.result) == stop
  {
    AnsweredLater(moves, k, id, heard);
    if !heard.Value? {
      return Some(Failed(heard)), None;
    }
    stop := StopReasonOf(heard.result);
    over := if stop.None? then Some(Unparseable(heard.result)) else None;
  }

  lemma StillRunningReports<U>(taken: nat, backlog: seq<Json>, moves: seq<Move>, sid: string, id: int,
                               decode: Json -> Option<U>, stopped: bool)
    requires Progressed(moves, |moves|, id, stopped, taken) && taken <= |backlog + Routed(FramesOf(moves), sid)|
    ensures Reports(StillRunning, taken, backlog, moves, sid, id, decode)
  {
    forall j | 0 <= j < |moves|
      ensures PollsUsed(moves, j, |moves|, id, true, |backlog + Routed(FramesOf(moves), sid)|)
    {
      assert PollsUsed(moves, j, |moves|, id, stopped, taken);
    }
  }

  /** A turn after `k` moves. */
  ghost predicate TurnState<U>(w: Wire, collected: seq<U>, live: seq<Json>, stop: Option<string>, taken: nat, backlog: seq<Json>,
                               moves: seq<Move>, k: nat, sid: string, id: int, decode: Json -> Option<U>) {
    && k <= |moves|
    && InStep(w, collected, live, taken, backlog, FramesOf(moves[..k]), sid, id, decode)
    && (w.response.Some? ==> w.response.value != AgentExited)
    && (stop.Some? ==> w.response.Some? && w.response.value.Value? && StopReasonOf(w.response.value.result) == stop)
    && Progressed(moves, k, id, stop.Some?, taken)
  }

  /** One poll of the turn: the response arm, the update arm, or, once there is a stop reason, the final drain. */
  method Poll<U>(w: Wire, collected: seq<U>, live: seq<Json>, stop: Option<string>, taken: nat, ghost backlog: seq<Json>,
                 moves: seq<Move>, k: nat, ghost sid: string, ghost id: int, decode: Json -> Option<U>)
    returns (over: Option<Turn<U>>, rest: Wire, updates: seq<U>, forwarded: seq<Json>, stopped: Option<string>, used: nat)
    requires TurnState(w, collected, live, stop, taken, backlog, moves, k, sid, id, decode)
    requires k < |moves| && (moves[k].PickResponse? || moves[k].PickUpdate?)
    ensures over.Some? ==> used == taken && Reports(over.value, taken, backlog, moves, sid, id, decode)
    ensures over.None? ==> TurnState(rest, updates, forwarded, stopped, used, backlog, moves, k + 1, sid, id, decode)
  {
    FramesStep(moves, k);
    over, rest, updates, forwarded, stopped, used := None, w, collected, live, stop, taken;
    if stop.None? && moves[k].PickResponse? {
      if w.response.Some? {
        over, stopped := TakeAnswer(w.response.value, taken, backlog, moves, k, sid, id, decode);
      }
    } else if w.channel != [] {
      rest, updates, forwarded := TakeUpdate(w, collected, live, taken, backlog, FramesOf(moves[..k]), sid, id, decode);
      used := taken + 1;
    } else if stop.Some? {
      FinishedReports(w, collected, live, taken, backlog, moves, k, sid, id, decode, stop.value);
      return Some(Finished(stop.value, collected, live)), w, collected, live, stop, taken;
    }
    if over.None? {
      ProgressStep(moves, k, id, stop.Some?, taken, stopped.Some?, used);
    }
  }

  lemma RouteKeepsTurn<U>(w: Wire, collected: seq<U>, live: seq<Json>, stop: Option<string>, taken: nat, backlog: seq<Json>,
                          moves: seq<Move>, k: nat, sid: string, id: int, decode: Json -> Option<U>)
    requires TurnState(w, collected, live, stop, taken, backlog, moves, k, sid, id, decode)
    requires k < |moves| && (moves[k].Route? || moves[k].AgentGone?)
    ensures TurnState(if moves[k].Route? then RouteOnto(w, moves[k].frame, sid, id) else w, collected, live, stop, taken,
                      backlog, moves, k + 1, sid, id, decode)
  {
    FramesStep(moves, k);
    if moves[k].Route? {
      RouteKeepsStep(w, collected, live, taken, backlog, FramesOf(moves[..k]), moves[k].frame, sid, id, decode);
    }
    ProgressStep(moves, k, id, stop.Some?, taken, stop.Some?, taken);
  }

  /** Runs one turn of session `sid`, whose prompt request has number `id`. `backlog` is what earlier turns left
      in the channel, `moves` the scheduler's choices; the promises hold whatever they are. */
  method PromptStreaming<U>(sid: string, id: int, backlog: seq<Json>, moves: seq<Move>, decode: Json -> Option<U>)
    returns (turn: Turn<U>, taken: nat)
    ensures Reports(turn, taken, backlog, moves, sid, id, decode)
  {
    var wire := Wire(backlog, None);
    var collected: seq<U>, live: seq<Json> := [], [];
    var stop: Option<string> := None;
    taken := 0;
    for k := 0 to |moves|
      invariant TurnState(wire, collected, live, stop, taken, backlog, moves, k, sid, id, decode)
    {
      if moves[k].Route? {
        RouteKeepsTurn(wire, collected, live, stop, taken, backlog, moves, k, sid, id, decode);
        wire := RouteOnto(wire, moves[k].frame, sid, id);
      } else if moves[k].AgentGone? {
        if wire.response.None? {
          return Failed(AgentExited), taken;
        }
        RouteKeepsTurn(wire, collected, live, stop, taken, backlog, moves, k, sid, id, decode);
      } else {
        var over: Option<Turn<U>>;
        over, wire, collected, live, stop, taken := Poll(wire, collected, live, stop, taken, backlog, moves, k, sid, id, decode);
        if over.Some? {
          return over.value, taken;
        }
      }
    }
    assert moves[..|moves|] == moves;
    StillRunningReports(taken, backlog, moves, sid, id, decode, stop.Some?);
    turn := StillRunning;
  }

  // ---------------------------------------------------------------- what the agent says and what the turn reports

  /** An update the agent emits: the session it is for, and what changed. */
  datatype Update = Update(sid: string, body: Json)

  function UpdateFrame(u: Update): Json {
    CallFrame(None, "session/update", Some(UpdateParams(u.sid, u.body)))
  }

  function UpdateFrames(us: seq<Update>): seq<Json> {
    if us == [] then [] else UpdateFrames(us[..|us| - 1]) + [UpdateFrame(us[|us| - 1])]
  }

  /** The bodies of the session's updates that decode, in order. */
  function MeantFor<U>(us: seq<Update>, sid: string, decode: Json -> Option<U>): seq<Json> {
    if us == [] then []
    else
      var last := us[|us| - 1];
      MeantFor(us[..|us| - 1], sid, decode) + if last.sid == sid && decode(last.body).Some? then [last.body] else []
  }

  lemma UpdateFrameRoutes(u: Update, sid: string, id: int)
    ensures RoutedBy(UpdateFrame(u), sid) == if u.sid == sid then [UpdateParams(u.sid, u.body)] else []
    ensures BodyOf(UpdateParams(u.sid, u.body)) == u.body && ResponseId(UpdateFrame(u)) != Some(id)
  {
    CallMembers(None, "session/update", Some(UpdateParams(u.sid, u.body)));
    UpdateMembers(u.sid, u.body);
  }

  /** One more frame adds to the decoded stream the body of the update it routes, if that decodes. */
  lemma StreamStep<U>(frames: seq<Json>, frame: Json, raw: Json, mine: bool, sid: string, decode: Json -> Option<U>)
    requires RoutedBy(frame, sid) == if mine then [raw] else []
    ensures Bodies(Routed(frames + [frame], sid), decode)
      == Bodies(Routed(frames, sid), decode) + (if mine && decode(BodyOf(raw)).Some? then [BodyOf(raw)] else [])
  {
    RoutedStep(frames, frame, sid);
    var raws := Routed(frames, sid);
    if mine {
      assert (raws + [raw])[..|raws|] == raws;
    } else {
      assert raws + [] == raws;
    }
  }

  /** Parameters without an update member are themselves the body. */
  lemma FlatUpdateIsBody<U>(raws: seq<Json>, raw: Json, decode: Json -> Option<U>)
    requires Get(raw, "update") == None
    ensures Bodies(raws + [raw], decode) == Bodies(raws, decode) + if decode(raw).Some? then [raw] else []
    ensures Decoded(raws + [raw], decode) == Decoded(raws, decode) + if decode(raw).Some? then [decode(raw).value] else []
  {
    assert (raws + [raw])[..|raws|] == raws;
  }

  /** The session's stream, decoded, is what the agent meant for it. */
  lemma {:induction false} StreamIsMeant<U>(us: seq<Update>, sid: string, decode: Json -> Option<U>)
    ensures Bodies(Routed(UpdateFrames(us), sid), decode) == MeantFor(us, sid, decode)
  {
    if us != [] {
      var n := |us| - 1;
      var u, before := us[n], UpdateFrames(us[..n]);
      StreamIsMeant(us[..n], sid, decode);
      UpdateFrameRoutes(u, sid, 0);
      StreamStep(before, UpdateFrame(u), UpdateParams(u.sid, u.body), u.sid == sid, sid, decode);
    }
  }

  lemma {:induction false} UpdatesAnswerNothing(us: seq<Update>, reply: Json, id: int)
    requires ResponseId(reply) == Some(id)
    ensures BeforeAnswer(UpdateFrames(us), id) == UpdateFrames(us)
    ensures BeforeAnswer(UpdateFrames(us) + [reply], id) == UpdateFrames(us)
  {
    BeforeAnswerStep(UpdateFrames(us), reply, id);
    if us != [] {
      var n := |us| - 1;
      UpdatesAnswerNothing(us[..n], reply, id);
      UpdateFrameRoutes(us[n], "", id);
      BeforeAnswerStep(UpdateFrames(us[..n]), UpdateFrame(us[n]), id);
      BeforeAnswerStep(UpdateFrames(us), reply, id);
    }
  }

  /** The result of a prompt, with any stop reason and another member behind it. */
  function PromptResult(stopReason: Option<Json>, key: string, more: Option<Json>): Json {
    Obj(Members("stopReason", stopReason, key, more, "", None, "", None))
  }

  /** A prompt's result is understood exactly when its stop reason is one of the five texts, and is then that text. */
  lemma StopReasonsAre(stopReason: Option<Json>, key: string, more: Option<Json>)
    requires key != "stopReason"
    ensures StopReasonOf(PromptResult(stopReason, key, more)) ==
      if stopReason == Some(Str("end_turn")) then Some("end_turn")
      else if stopReason == Some(Str("max_tokens")) then Some("max_tokens")
      else if stopReason == Some(Str("max_turn_requests")) then Some("max_turn_requests")
      else if stopReason == Some(Str("refusal")) then Some("refusal")
      else if stopReason == Some(Str("cancelled")) then Some("cancelled")
      else None
  {
    LookupMembers("stopReason", stopReason, key, more, "", None, "", None, "stopReason");
  }

  lemma ReplyIsResponse(id: int, o: Outcome)
    requires Fits64(id) && o != AgentExited
    ensures ResponseId(Reply(id, o)) == Some(id) && RoutedBy(Reply(id, o), "") == []
    ensures forall sid :: RoutedBy(Reply(id, o), sid) == []
  {
    match o {
      case Value(v) => ResponseMembers(id, Some(v), None);
      case RpcError(code, message) => ResponseMembers(id, None, Some(ErrorObject(Some(Int(code)), Some(Str(message)))));
      case InvalidResponse => ResponseMembers(id, None, None);
    }
  }

  /** The exchange of a turn: the agent emits updates, for any sessions, and then its reply. */
  function Exchange(us: seq<Update>, id: int, o: Outcome): seq<Json>
    requires o != AgentExited
  {
    UpdateFrames(us) + [Reply(id, o)]
  }

  lemma ExchangeMeans<U>(us: seq<Update>, id: int, o: Outcome, p: Outcome, sid: string, decode: Json -> Option<U>)
    requires Fits64(id) && o != AgentExited && (o.RpcError? ==> Fits64(o.code))
    ensures var frames := Exchange(us, id, o);
      && Routed(frames, sid) == Routed(BeforeAnswer(frames, id), sid)
      && Bodies(Routed(frames, sid), decode) == MeantFor(us, sid, decode)
      && (AnsweredWith(frames, id, p) ==> p == o)
  {
    ReplyIsResponse(id, o);
    ReplyMeans(id, o);
    UpdatesAnswerNothing(us, Reply(id, o), id);
    RoutedStep(UpdateFrames(us), Reply(id, o), sid);
    StreamIsMeant(us, sid, decode);
  }

  /** A whole turn, however the scheduler interleaves it: when the agent emits updates and then replies `o`, a
      finished turn has forwarded exactly the updates meant for its session, in order, and collected what they
      decode to; its stop reason is that of the result. A turn that fails has heard the error, or the agent is gone;
      one that is unparseable has heard a result without a stop reason. */
  lemma WholeTurn<U>(turn: Turn<U>, taken: nat, us: seq<Update>, moves: seq<Move>, sid: string, id: int,
                     decode: Json -> Option<U>, o: Outcome)
    requires Fits64(id) && o != AgentExited && (o.RpcError? ==> Fits64(o.code))
    requires FramesOf(moves) == Exchange(us, id, o) && Reports(turn, taken, [], moves, sid, id, decode)
    ensures turn.Finished? ==>
      && turn.live == MeantFor(us, sid, decode) && |turn.updates| == |turn.live|
      && (forall i :: 0 <= i < |turn.live| ==> decode(turn.live[i]) == Some(turn.updates[i]))
      && o.Value? && StopReasonOf(o.result) == Some(turn.stopReason)
    ensures turn.Failed? ==> (turn.outcome == AgentExited && AgentGone in moves) || (turn.outcome == o && !o.Value?)
    ensures turn.Unparseable? ==> o == Value(turn.result) && StopReasonOf(turn.result) == None
  {
    var frames := FramesOf(moves);
    ExchangeMeans(us, id, o, o, sid, decode);
    match turn {
      case Finished(stop, updates, live) =>
        var result :| AnsweredWith(frames, id, Value(result)) && StopReasonOf(result) == Some(stop);
        ExchangeMeans(us, id, o, Value(result), sid, decode);
        WholeStream(updates, live, taken, frames, sid, id, decode);
      case Failed(p) =>
        ExchangeMeans(us, id, o, p, sid, decode);
      case Unparseable(result) =>
        ExchangeMeans(us, id, o, Value(result), sid, decode);
      case StillRunning =>
    }
  }

  /** When nothing follows the answer, a finished turn has taken the whole stream. */
  lemma WholeStream<U>(collected: seq<U>, live: seq<Json>, taken: nat, frames: seq<Json>, sid: string, id: int,
                       decode: Json -> Option<U>)
    requires Complete(collected, live, taken, [], frames, sid, id, decode)
    requires Routed(frames, sid) == Routed(BeforeAnswer(frames, id), sid)
    ensures live == Bodies(Routed(frames, sid), decode) && collected == Decoded(Routed(frames, sid), decode)
    ensures |collected| == |live| && forall i :: 0 <= i < |live| ==> decode(live[i]) == Some(collected[i])
  {
    var stream := [] + Routed(frames, sid);
    assert stream == Routed(frames, sid) && stream[..taken] == stream;
    LiveMatchesCollected(stream, decode);
  }

  // ---------------------------------------------------------------- the channel is the peer's channel

  /** One frame appends to a registered session's channel exactly what it routes there. */
  lemma DispatchOneFillsChannel(s: PeerState, frame: Json, sid: string)
    requires Wired(s) && sid in s.listeners
    requires forall other :: other in s.listeners && s.listeners[other] == s.listeners[sid] ==> other == sid
    ensures Dispatch(s, frame).listeners == s.listeners
    ensures |Dispatch(s, frame).channels| == |s.channels|
    ensures Dispatch(s, frame).channels[s.listeners[sid]] == s.channels[s.listeners[sid]] + RoutedBy(frame, sid)
  {
  }

  /** What the peer's dispatch puts on a registered session's channel is exactly the stream above, so the turn's
      view of its channel is the peer's. */
  lemma {:induction false} DispatchFillsChannel(s: PeerState, frames: seq<Json>, sid: string)
    requires Wired(s) && sid in s.listeners
    requires forall other :: other in s.listeners && s.listeners[other] == s.listeners[sid] ==> other == sid
    ensures DispatchAll(s, frames).listeners == s.listeners
    ensures |DispatchAll(s, frames).channels| == |s.channels|
    ensures DispatchAll(s, frames).channels[s.listeners[sid]] == s.channels[s.listeners[sid]] + Routed(frames, sid)
    decreases |frames|
  {
    if frames != [] {
      DispatchOneFillsChannel(s, frames[0], sid);
      DispatchFillsChannel(Dispatch(s, frames[0]), frames[1..], sid);
      RoutedCons(frames, sid);
    }
  }

  lemma RoutedCons(frames: seq<Json>, sid: string)
    requires frames != []
    ensures Routed(frames, sid) == RoutedBy(frames[0], sid) + Routed(frames[1..], sid)
  {
    assert frames == [frames[0]] + frames[1..];
    RoutedAppend([frames[0]], frames[1..], sid);
    RoutedStep([], frames[0], sid);
    assert [] + [frames[0]] == [frames[0]];
  }

  /** And what it sends on the oneshot of a pending request is the outcome of the first answer, or nothing. */
  lemma {:induction false} DispatchAnswersFirst(s: PeerState, frames: seq<Json>, id: int)
    requires Wired(s) && id in s.pending && s.oneshots[id] == []
    ensures id in DispatchAll(s, frames).oneshots
    ensures BeforeAnswer(frames, id) == frames ==> DispatchAll(s, frames).oneshots[id] == []
    ensures forall o :: AnsweredWith(frames, id, o) ==> DispatchAll(s, frames).oneshots[id] == [o]
    decreases |frames|
  {
    if frames != [] {
      var t := Dispatch(s, frames[0]);
      if ResponseId(frames[0]) == Some(id) {
        OneshotKept(t, frames[1..], id);
      } else {
        assert id in t.pending && t.oneshots[id] == [];
        DispatchAnswersFirst(t, frames[1..], id);
        assert frames == [frames[0]] + frames[1..];
        forall o | AnsweredWith(frames, id, o) ensures AnsweredWith(frames[1..], id, o) {
        }
      }
    }
  }

  lemma {:induction false} OneshotKept(s: PeerState, frames: seq<Json>, id: int)
    requires Wired(s) && id !in s.pending && id in s.oneshots
    ensures id in DispatchAll(s, frames).oneshots && DispatchAll(s, frames).oneshots[id] == s.oneshots[id]
    decreases |frames|
  {
    if frames != [] {
      OneshotKept(Dispatch(s, frames[0]), frames[1..], id);
    }
  }
}
