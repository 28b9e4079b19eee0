/** What the daemon does with a batch of inbound envelopes: acknowledgements and identity updates are consumed,
    messages are stored, and a stored message goes to the recipient's agent session, its terminal, or the
    undelivered list; then the sender gets an acknowledgement. Everything outside the daemon is a choice of the
    environment. */
module Delivery {
  import opened Prelude
  import Framing
  import Outbound

  datatype Envelope = Envelope(
    kind: Option<string>,
    body: string,
    nonce: Option<string>,
    conv: Option<string>,
    senderUrl: Option<string>,
    recipient: Option<string>,
    ackFor: Option<string>,
    ackStatus: Option<string>)

  /** The answer of the daemon's own call to the recipient's agent session. */
  datatype AcpOutcome = Delivered | NoEndpoint | Unavailable

  /** What the environment does while one envelope is processed: whether the database works, who the recipient is
      when the envelope does not say, what is known about the recipient, the settings, and how calls end. */
  datatype World = World(
    now: int,
    lookupWorks: bool,
    sessionWorks: bool,
    insertWorks: bool,
    identityAuthorised: bool,
    aliasByKey: Option<string>,
    ownAlias: Option<string>,
    peerAddress: Option<string>,
    drivable: bool,
    remoteHomed: bool,
    spawnable: bool,
    tmuxLive: bool,
    injectDisabled: bool,
    preferAcp: bool,
    gated: bool,
    acp: AcpOutcome,
    tmuxWorks: bool)

  /** Effects of envelope number `i`, in the order they happen. */
  datatype Effect =
    | RecordAck(i: nat, ulid: string, status: string)
    | AnswerConversation(i: nat, conv: string)
    | ChangeIdentity(i: nat)
    | Store(i: nat)
    | HandleAgentAdd(i: nat)
    | SpawnRecipient(i: nat, alias: string)
    | Accrue(i: nat, alias: string)
    | CallAcp(i: nat, alias: string)
    | AcpOwns(i: nat)
    | InjectTmux(i: nat, alias: string)
    | MarkUndelivered(i: nat, alias: string)
    | SendAck(i: nat, ulid: string, status: string)

  // ---------------------------------------------------------------- pure decisions

  const REQUEST_PREFIX: string := "[AGENT_ADD_REQUEST] "
  const ACCEPT_PREFIX: string := "[AGENT_ADD_ACCEPT] "

  predicate IsAgentAdd(body: string) {
    REQUEST_PREFIX <= body || ACCEPT_PREFIX <= body
  }

  /** Text worth showing a terminal: not blank and, trimmed, not an agent-add message. */
  predicate Conversational(body: string) {
    var t := Framing.Trim(body);
    t != "" && !IsAgentAdd(t)
  }

  predicate ShouldInject(body: string, tmuxLive: bool, disabled: bool) {
    !disabled && Conversational(body) && tmuxLive
  }

  predicate ShouldSpawn(body: string, tmuxLive: bool, spawnable: bool, disabled: bool, limited: bool) {
    !disabled && Conversational(body) && !tmuxLive && spawnable && !limited
  }

  /** A dead recipient is never both injected and woken. */
  lemma InjectAndSpawnExclude(body: string, live: bool, spawnable: bool, disabled: bool, limited: bool)
    ensures !(ShouldInject(body, live, disabled) && ShouldSpawn(body, live, spawnable, disabled, limited))
    ensures ShouldInject(body, live, disabled) || ShouldSpawn(body, live, spawnable, disabled, limited)
      <==> !disabled && Conversational(body) && (live || (spawnable && !limited))
  {
  }

  function Recipient(e: Envelope, w: World): Option<string> {
    if e.recipient.Some? then e.recipient else if w.aliasByKey.Some? then w.aliasByKey else w.ownAlias
  }

  /** The recipient's agent session may be driven from this machine. */
  predicate Drivable(w: World) {
    w.drivable && !w.remoteHomed
  }

  /** The liveness probe is skipped when injection is switched off. */
  predicate Live(w: World) {
    w.tmuxLive && !w.injectDisabled
  }

  predicate GoesToTerminalFirst(e: Envelope, w: World) {
    ShouldInject(e.body, Live(w), w.injectDisabled) && !(w.preferAcp && Drivable(w))
  }

  datatype Route = ViaAcp | ViaTmux | Undelivered

  /** Where a message with a recipient ends. The agent session owns it when it is drivable here and gated, when
      the call delivers, or when the call is inconclusive and the session is drivable; the terminal gets it when
      the session does not own it and either comes second or is not drivable. */
  function RouteOf(e: Envelope, w: World): Route {
    if !GoesToTerminalFirst(e, w)
       && ((Drivable(w) && w.gated) || w.acp == Delivered || (Drivable(w) && w.acp == Unavailable)) then ViaAcp
    else if (GoesToTerminalFirst(e, w) || !Drivable(w)) && w.tmuxWorks then ViaTmux
    else Undelivered
  }

  function StatusOf(route: Option<Route>): string {
    match route
    case Some(ViaAcp) => "acp_delivered"
    case Some(ViaTmux) => "tmux_injected"
    case _ => "inbox_stored"
  }

  predicate IsMessage(e: Envelope) {
    e.kind != Some("ack") && e.kind != Some("identity_update")
  }

  predicate IsStored(e: Envelope, w: World) {
    IsMessage(e) && w.lookupWorks && w.sessionWorks && w.insertWorks
  }

  /** A stored message that is not an agent-add. */
  predicate IsConversation(e: Envelope, w: World) {
    IsStored(e, w) && !IsAgentAdd(e.body)
  }

  function OwnRoute(e: Envelope, w: World): Option<Route> {
    if Recipient(e, w).Some? then Some(RouteOf(e, w)) else None
  }

  function NonBlank(t: Option<string>): bool {
    t.Some? && t.value != ""
  }

  // ---------------------------------------------------------------- effects of one envelope

  function AckEffects(i: nat, e: Envelope): seq<Effect> {
    var status := if e.ackStatus.Some? then e.ackStatus.value else "unknown";
    if !NonBlank(e.ackFor) then []
    else
      [RecordAck(i, e.ackFor.value, status)]
      + (if Outbound.DeliveredStatus(status) && NonBlank(e.conv) then [AnswerConversation(i, e.conv.value)] else [])
  }

  predicate Wakes(e: Envelope, w: World, limited: bool) {
    !GoesToTerminalFirst(e, w) && ShouldSpawn(e.body, Live(w), w.spawnable, w.injectDisabled, limited)
  }

  predicate AccruesOnly(e: Envelope, w: World) {
    !GoesToTerminalFirst(e, w) && Drivable(w) && w.gated
  }

  function DeliveryEffects(i: nat, e: Envelope, w: World, alias: string, limited: bool): seq<Effect> {
    (if Wakes(e, w, limited) then [SpawnRecipient(i, alias)] else [])
    + (if AccruesOnly(e, w) then (if Framing.Trim(e.body) != "" then [Accrue(i, alias)] else [])
       else if GoesToTerminalFirst(e, w) then [] else [CallAcp(i, alias)])
    + (match RouteOf(e, w)
       case ViaAcp => [AcpOwns(i)]
       case ViaTmux => [InjectTmux(i, alias)]
       case Undelivered => [MarkUndelivered(i, alias)])
  }

  function AckBack(i: nat, e: Envelope, w: World): seq<Effect> {
    if e.nonce.Some? && (e.senderUrl.Some? || w.peerAddress.Some?) then [SendAck(i, e.nonce.value, StatusOf(OwnRoute(e, w)))] else []
  }

  function StoreEffects(i: nat, e: Envelope): seq<Effect> {
    [Store(i)] + (if NonBlank(e.conv) then [AnswerConversation(i, e.conv.value)] else [])
  }

  function AfterStore(i: nat, e: Envelope, w: World, limited: bool): seq<Effect> {
    (if Recipient(e, w).Some? then DeliveryEffects(i, e, w, Recipient(e, w).value, limited) else []) + AckBack(i, e, w)
  }

  function MessageEffects(i: nat, e: Envelope, w: World, limited: bool): seq<Effect> {
    StoreEffects(i, e) + (if IsAgentAdd(e.body) then [HandleAgentAdd(i)] else AfterStore(i, e, w, limited))
  }

  function EffectsOf(i: nat, e: Envelope, w: World, limited: bool): seq<Effect> {
    if e.kind == Some("ack") then AckEffects(i, e)
    else if e.kind == Some("identity_update") then (if w.identityAuthorised then [ChangeIdentity(i)] else [])
    else if IsStored(e, w) then MessageEffects(i, e, w, limited)
    else []
  }

  // ---------------------------------------------------------------- the spawn limiter

  /** An attempt to wake a recipient. */
  datatype Attempt = Attempt(alias: string, at: int)

  /** A recipient may not be woken again while an attempt for it is younger than the window. */
  predicate Limited(attempts: seq<Attempt>, alias: string, now: int, window: nat) {
    exists k :: 0 <= k < |attempts| && attempts[k].alias == alias && now - attempts[k].at < window
  }

  predicate Orderly(attempts: seq<Attempt>, now: int) {
    && (forall k :: 0 <= k < |attempts| ==> attempts[k].at <= now)
    && (forall j, k :: 0 <= j < k < |attempts| ==> attempts[j].at <= attempts[k].at)
  }

  /** Attempts for one recipient are at least a window apart. */
  ghost predicate Spaced(attempts: seq<Attempt>, window: nat) {
    forall j, k :: 0 <= j < k < |attempts| && attempts[j].alias == attempts[k].alias ==> attempts[k].at - attempts[j].at >= window
  }

  /** The map names only attempts, and every attempt that is still young enough to matter. */
  ghost predicate Tracks(last: map<string, int>, attempts: seq<Attempt>, window: nat, now: int) {
    && (forall a :: a in last ==> Attempt(a, last[a]) in attempts)
    && (forall x :: x in attempts && now - x.at < window ==> x.alias in last && x.at <= last[x.alias])
  }

  lemma TracksLimited(last: map<string, int>, attempts: seq<Attempt>, window: nat, now: int, alias: string)
    requires Tracks(last, attempts, window, now)
    ensures Limited(attempts, alias, now, window) <==> alias in last && now - last[alias] < window
  {
    if alias in last && now - last[alias] < window {
      var k :| 0 <= k < |attempts| && attempts[k] == Attempt(alias, last[alias]);
    }
    if Limited(attempts, alias, now, window) {
      var k :| 0 <= k < |attempts| && attempts[k].alias == alias && now - attempts[k].at < window;
      assert attempts[k] in attempts;
    }
  }

  lemma PruneKeepsTracks(last: map<string, int>, attempts: seq<Attempt>, window: nat, before: int, now: int)
    requires Tracks(last, attempts, window, before) && before <= now
    ensures Tracks(map a | a in last && now - last[a] < window :: last[a], attempts, window, now)
  {
  }

  lemma RecordKeepsTracks(last: map<string, int>, attempts: seq<Attempt>, window: nat, now: int, alias: string)
    requires Tracks(last, attempts, window, now) && Orderly(attempts, now)
    ensures Tracks(last[alias := now], attempts + [Attempt(alias, now)], window, now)
  {
    assert forall x :: x in attempts ==> x.at <= now;
  }

  lemma RecordKeepsSpaced(attempts: seq<Attempt>, window: nat, alias: string, now: int)
    requires Orderly(attempts, now) && Spaced(attempts, window) && !Limited(attempts, alias, now, window)
    ensures Orderly(attempts + [Attempt(alias, now)], now) && Spaced(attempts + [Attempt(alias, now)], window)
  {
  }

  class SpawnLimiter {
    var last: map<string, int>
    ghost var attempts: seq<Attempt>
    const window: nat

    constructor (window: nat)
      ensures this.window == window && attempts == [] && last == map[]
    {
      this.window := window;
      last, attempts := map[], [];
    }

    ghost predicate Valid(now: int)
      reads this
    {
      Orderly(attempts, now) && Spaced(attempts, window) && Tracks(last, attempts, window, now)
    }

    /** Check and set: old entries are dropped, and the attempt is recorded unless it is too early. */
    method RecentlyAttempted(alias: string, now: int, ghost before: int) returns (limited: bool)
      requires Valid(before) && before <= now
      modifies this
      ensures Valid(now)
      ensures limited == Limited(old(attempts), alias, now, window)
      ensures attempts == if limited then old(attempts) else old(attempts) + [Attempt(alias, now)]
    {
      PruneKeepsTracks(last, attempts, window, before, now);
      last := map a | a in last && now - last[a] < window :: last[a];
      TracksLimited(last, attempts, window, now, alias);
      if alias in last && now - last[alias] < window {
        return true;
      }
      RecordKeepsSpaced(attempts, window, alias, now);
      RecordKeepsTracks(last, attempts, window, now, alias);
      last := last[alias := now];
      attempts := attempts + [Attempt(alias, now)];
      limited := false;
    }
  }

  // ---------------------------------------------------------------- the batch

  /** The effects so far and the attempts to wake recipients. */
  datatype Progress = Progress(log: seq<Effect>, attempts: seq<Attempt>)

  /** Whether the limiter is asked about an envelope. */
  predicate AsksLimiter(e: Envelope, w: World) {
    IsConversation(e, w) && Recipient(e, w).Some? && Wakes(e, w, false)
  }

  /** The limiter is asked and says no. */
  predicate Refused(attempts: seq<Attempt>, e: Envelope, w: World, window: nat) {
    AsksLimiter(e, w) && Limited(attempts, Recipient(e, w).value, w.now, window)
  }

  function NextAttempts(attempts: seq<Attempt>, e: Envelope, w: World, window: nat): seq<Attempt> {
    if AsksLimiter(e, w) && !Refused(attempts, e, w, window) then attempts + [Attempt(Recipient(e, w).value, w.now)] else attempts
  }

  function Handle(p: Progress, i: nat, e: Envelope, w: World, window: nat): Progress {
    Progress(p.log + EffectsOf(i, e, w, Refused(p.attempts, e, w, window)), NextAttempts(p.attempts, e, w, window))
  }

  function HandleAll(p: Progress, es: seq<Envelope>, ws: seq<World>, window: nat): Progress
    requires |es| == |ws|
  {
    if es == [] then p
    else
      var n := |es| - 1;
      Handle(HandleAll(p, es[..n], ws[..n], window), n, es[n], ws[n], window)
  }

  class Daemon {
    var log: seq<Effect>

    constructor ()
      ensures log == []
    {
      log := [];
    }

    /** The delivery of one stored message: flags as the code keeps them. */
    method Deliver(i: nat, e: Envelope, w: World, alias: string, limiter: SpawnLimiter, ghost before: int)
      returns (acpDelivered: bool, tmuxInjected: bool)
      requires limiter.Valid(before) && before <= w.now
      requires IsConversation(e, w) && Recipient(e, w) == Some(alias)
      modifies this, limiter
      ensures limiter.Valid(w.now)
      ensures log == old(log) + DeliveryEffects(i, e, w, alias, Refused(old(limiter.attempts), e, w, limiter.window))
      ensures limiter.attempts == NextAttempts(old(limiter.attempts), e, w, limiter.window)
      ensures acpDelivered <==> RouteOf(e, w) == ViaAcp
      ensures tmuxInjected <==> RouteOf(e, w) == ViaTmux
    {
      acpDelivered, tmuxInjected := false, false;
      var drivableRaw := w.drivable && !w.remoteHomed;
      var tmuxLive := if w.injectDisabled then false else w.tmuxLive;
      var injectToTmux := ShouldInject(e.body, tmuxLive, w.injectDisabled) && !(w.preferAcp && drivableRaw);
      assert injectToTmux == GoesToTerminalFirst(e, w);
      var fx: seq<Effect> := [];
      if !injectToTmux && ShouldSpawn(e.body, tmuxLive, w.spawnable, w.injectDisabled, false) {
        var limited := limiter.RecentlyAttempted(alias, w.now, before);
        if !limited {
          fx := fx + [SpawnRecipient(i, alias)];
        }
      } else {
        StillValid(limiter, before, w.now);
      }
      var drivable := if injectToTmux then false else drivableRaw;
      if drivable && w.gated {
        if Framing.Trim(e.body) != "" {
          fx := fx + [Accrue(i, alias)];
        }
        acpDelivered := true;
      }
      var outcome := Delivered;
      if !acpDelivered {
        if injectToTmux {
          outcome := NoEndpoint;
        } else {
          fx := fx + [CallAcp(i, alias)];
          outcome := w.acp;
        }
      }
      if outcome == Delivered || (outcome == Unavailable && drivable) {
        acpDelivered := true;
      }
      if acpDelivered {
        fx := fx + [AcpOwns(i)];
      }
      tmuxInjected := !acpDelivered && !drivable && w.tmuxWorks;
      if tmuxInjected {
        fx := fx + [InjectTmux(i, alias)];
      }
      if !acpDelivered && !tmuxInjected {
        fx := fx + [MarkUndelivered(i, alias)];
      }
      log := log + fx;
    }

    method ProcessAck(i: nat, e: Envelope)
      modifies this
      ensures log == old(log) + AckEffects(i, e)
    {
      var ulid := if e.ackFor.Some? then e.ackFor.value else "";
      var status := if e.ackStatus.Some? then e.ackStatus.value else "unknown";
      if ulid == "" {
        return;
      }
      log := log + [RecordAck(i, ulid, status)];
      if status == "inbox_stored" || status == "tmux_injected" || status == "acp_delivered" {
        if e.conv.Some? && e.conv.value != "" {
          log := log + [AnswerConversation(i, e.conv.value)];
        }
      }
    }

    /** A message after it was stored. */
    method ProcessStored(i: nat, e: Envelope, w: World, limiter: SpawnLimiter, ghost before: int)
      requires limiter.Valid(before) && before <= w.now && IsConversation(e, w)
      modifies this, limiter
      ensures limiter.Valid(w.now)
      ensures log == old(log) + AfterStore(i, e, w, Refused(old(limiter.attempts), e, w, limiter.window))
      ensures limiter.attempts == NextAttempts(old(limiter.attempts), e, w, limiter.window)
    {
      var acpDelivered, tmuxInjected := false, false;
      var alias := Recipient(e, w);
      if alias.Some? {
        acpDelivered, tmuxInjected := Deliver(i, e, w, alias.value, limiter, before);
      } else {
        StillValid(limiter, before, w.now);
      }
      var status := if acpDelivered then "acp_delivered" else if tmuxInjected then "tmux_injected" else "inbox_stored";
      if e.nonce.Some? && (e.senderUrl.Some? || w.peerAddress.Some?) {
        log := log + [SendAck(i, e.nonce.value, status)];
      }
      assert status == StatusOf(OwnRoute(e, w));
    }

    /** An envelope that is neither an acknowledgement nor an identity update. */
    method ProcessMessage(i: nat, e: Envelope, w: World, limiter: SpawnLimiter, ghost before: int)
      requires limiter.Valid(before) && before <= w.now && IsMessage(e)
      modifies this, limiter
      ensures limiter.Valid(w.now)
      ensures log == old(log) + EffectsOf(i, e, w, Refused(old(limiter.attempts), e, w, limiter.window))
      ensures limiter.attempts == NextAttempts(old(limiter.attempts), e, w, limiter.window)
    {
      StillValid(limiter, before, w.now);
      if !w.lookupWorks || !w.sessionWorks || !w.insertWorks {
        return;
      }
      LogStore(i, e);
      if IsAgentAdd(e.body) {
        log := log + [HandleAgentAdd(i)];
        Associate(old(log), StoreEffects(i, e), [HandleAgentAdd(i)]);
        return;
      }
      ProcessStored(i, e, w, limiter, before);
      Associate(old(log), StoreEffects(i, e), AfterStore(i, e, w, Refused(old(limiter.attempts), e, w, limiter.window)));
    }

    method LogStore(i: nat, e: Envelope)
      modifies this
      ensures log == old(log) + StoreEffects(i, e)
    {
      log := log + [Store(i)];
      if NonBlank(e.conv) {
        log := log + [AnswerConversation(i, e.conv.value)];
      }
    }

    method ProcessOne(i: nat, e: Envelope, w: World, limiter: SpawnLimiter, ghost before: int)
      requires limiter.Valid(before) && before <= w.now
      modifies this, limiter
      ensures limiter.Valid(w.now)
      ensures Progress(log, limiter.attempts) == Handle(Progress(old(log), old(limiter.attempts)), i, e, w, limiter.window)
    {
      if e.kind == Some("ack") {
        StillValid(limiter, before, w.now);
        ProcessAck(i, e);
      } else if e.kind == Some("identity_update") {
        StillValid(limiter, before, w.now);
        if w.identityAuthorised {
          log := log + [ChangeIdentity(i)];
        }
      } else {
        ProcessMessage(i, e, w, limiter, before);
      }
    }

    method ProcessInbound(es: seq<Envelope>, ws: seq<World>, limiter: SpawnLimiter, ghost start: int)
      requires |es| == |ws| && limiter.Valid(start)
      requires forall i :: 0 <= i < |ws| ==> start <= ws[i].now
      requires forall i, j :: 0 <= i < j < |ws| ==> ws[i].now <= ws[j].now
      modifies this, limiter
      ensures Progress(log, limiter.attempts) == HandleAll(Progress(old(log), old(limiter.attempts)), es, ws, limiter.window)
    {
      for i := 0 to |es|
        invariant limiter.Valid(if i == 0 then start else ws[i - 1].now)
        invariant Progress(log, limiter.attempts) == HandleAll(Progress(old(log), old(limiter.attempts)), es[..i], ws[..i], limiter.window)
      {
        assert es[..i + 1][..i] == es[..i] && ws[..i + 1][..i] == ws[..i];
        ProcessOne(i, es[i], ws[i], limiter, if i == 0 then start else ws[i - 1].now);
      }
      assert es[..|es|] == es && ws[..|ws|] == ws;
    }
  }

  lemma StillValid(limiter: SpawnLimiter, before: int, now: int)
    requires limiter.Valid(before) && before <= now
    ensures limiter.Valid(now)
  {
  }

  // ---------------------------------------------------------------- what one envelope gets

  /** The way an effect ends a message, if it does. */
  function EndOf(f: Effect): Option<Route> {
    match f
    case AcpOwns(_) => Some(ViaAcp)
    case InjectTmux(_, _) => Some(ViaTmux)
    case MarkUndelivered(_, _) => Some(Undelivered)
    case _ => None
  }

  /** Message `i` ends in a way. */
  predicate EndsInLog(log: seq<Effect>, i: nat, route: Route) {
    exists k :: 0 <= k < |log| && log[k].i == i && EndOf(log[k]) == Some(route)
  }

  predicate NoEnds(fx: seq<Effect>) {
    forall k :: 0 <= k < |fx| ==> EndOf(fx[k]).None?
  }

  lemma EndsInPair(a: seq<Effect>, b: seq<Effect>, i: nat, route: Route)
    ensures EndsInLog(a + b, i, route) <==> EndsInLog(a, i, route) || EndsInLog(b, i, route)
  {
    if EndsInLog(a, i, route) {
      var k :| 0 <= k < |a| && a[k].i == i && EndOf(a[k]) == Some(route);
      assert (a + b)[k] == a[k];
    }
    if EndsInLog(b, i, route) {
      var k :| 0 <= k < |b| && b[k].i == i && EndOf(b[k]) == Some(route);
      assert (a + b)[|a| + k] == b[k];
    }
  }

  lemma DeliveryEnds(i: nat, e: Envelope, w: World, alias: string, limited: bool, j: nat, route: Route)
    ensures EndsInLog(DeliveryEffects(i, e, w, alias, limited), j, route) <==> i == j && RouteOf(e, w) == route
  {
    var last := match RouteOf(e, w)
      case ViaAcp => AcpOwns(i)
      case ViaTmux => InjectTmux(i, alias)
      case Undelivered => MarkUndelivered(i, alias);
    var fx := DeliveryEffects(i, e, w, alias, limited);
    var first := fx[..|fx| - 1];
    assert fx == first + [last];
    assert NoEnds(first);
    EndsInPair(first, [last], j, route);
    assert [last][0] == last;
  }

  lemma MessageEnds(i: nat, e: Envelope, w: World, limited: bool, j: nat, route: Route)
    requires !IsAgentAdd(e.body)
    ensures EndsInLog(MessageEffects(i, e, w, limited), j, route) <==> i == j && OwnRoute(e, w) == Some(route)
  {
    EndsInPair(StoreEffects(i, e), AfterStore(i, e, w, limited), j, route);
    if Recipient(e, w).Some? {
      DeliveryEnds(i, e, w, Recipient(e, w).value, limited, j, route);
      EndsInPair(DeliveryEffects(i, e, w, Recipient(e, w).value, limited), AckBack(i, e, w), j, route);
    }
  }

  /** A stored conversation with a recipient ends in exactly one of the three ways, and nothing else ends in any. */
  lemma DeliveredExactlyOneWay(i: nat, e: Envelope, w: World, limited: bool, j: nat, route: Route)
    ensures EndsInLog(EffectsOf(i, e, w, limited), j, route)
      <==> i == j && IsConversation(e, w) && OwnRoute(e, w) == Some(route)
  {
    if IsConversation(e, w) {
      MessageEnds(i, e, w, limited, j, route);
    } else if IsStored(e, w) {
      EndsInPair(StoreEffects(i, e), [HandleAgentAdd(i)], j, route);
    } else if e.kind == Some("ack") {
      assert NoEnds(AckEffects(i, e));
    }
  }

  lemma {:induction false} TrimEndKeepsFront(a: string, b: string)
    requires Framing.TrimEnd(b) != ""
    ensures Framing.TrimEnd(a + b) == a + Framing.TrimEnd(b)
  {
    var n := |b| - 1;
    assert (a + b)[|a + b| - 1] == b[n];
    if Framing.IsSpace(b[n]) {
      assert (a + b)[..|a + b| - 1] == a + b[..n];
      TrimEndKeepsFront(a, b[..n]);
    } else {
      assert Framing.TrimEnd(b) == b;
    }
  }

  lemma SpacedPrefix(space: string, prefix: string, rest: string)
    requires space != "" && Framing.AllSpace(space) && Framing.TrimEnd(rest) != ""
    requires prefix == REQUEST_PREFIX || prefix == ACCEPT_PREFIX
    ensures IsAgentAdd(Framing.Trim(space + prefix + rest)) && !IsAgentAdd(space + prefix + rest)
  {
    assert space + prefix + rest == space + (prefix + rest);
    Framing.TrimStartDropsPadding(space, prefix + rest);
    assert (prefix + rest)[0] == '[';
    TrimEndKeepsFront(prefix, rest);
    assert (space + prefix + rest)[0] == space[0] && Framing.IsSpace(space[0]);
  }

  /** An agent-add message behind white space is not consumed as one: once stored it ends like a conversation, and
      only its recipient is not woken for it. */
  lemma SpacedAgentAddIsDelivered(space: string, prefix: string, rest: string, i: nat, e: Envelope, w: World, limited: bool)
    requires space != "" && Framing.AllSpace(space) && Framing.TrimEnd(rest) != ""
    requires prefix == REQUEST_PREFIX || prefix == ACCEPT_PREFIX
    requires e.body == space + prefix + rest && IsStored(e, w) && Recipient(e, w).Some?
    ensures IsConversation(e, w) && !Conversational(e.body)
    ensures EndsInLog(EffectsOf(i, e, w, limited), i, RouteOf(e, w))
    ensures HandleAgentAdd(i) !in EffectsOf(i, e, w, limited)
    ensures forall alias :: SpawnRecipient(i, alias) !in EffectsOf(i, e, w, limited)
  {
    SpacedPrefix(space, prefix, rest);
    DeliveredExactlyOneWay(i, e, w, limited, i, RouteOf(e, w));
    assert HandleAgentAdd(i) !in StoreEffects(i, e) && HandleAgentAdd(i) !in AfterStore(i, e, w, limited);
    assert forall alias :: SpawnRecipient(i, alias) !in StoreEffects(i, e);
    assert forall alias :: SpawnRecipient(i, alias) !in AfterStore(i, e, w, limited);
  }

  predicate IsDeliveryEffect(f: Effect) {
    f.SpawnRecipient? || f.Accrue? || f.CallAcp? || f.AcpOwns? || f.InjectTmux? || f.MarkUndelivered?
  }

  /** Acknowledgements, identity updates and agent-add messages reach no delivery path and are not acknowledged. */
  lemma ControlIsNotDelivered(i: nat, e: Envelope, w: World, limited: bool)
    requires !IsMessage(e) || IsAgentAdd(e.body)
    ensures forall f :: f in EffectsOf(i, e, w, limited) ==> !IsDeliveryEffect(f) && !f.SendAck?
    ensures !IsMessage(e) ==> Store(i) !in EffectsOf(i, e, w, limited)
  {
  }

  /** An acknowledgement is sent only for a stored conversation, after the store, and its status is the class the
      message fell in; every such status counts as delivered at the sender. */
  lemma AckFollowsStore(i: nat, e: Envelope, w: World, limited: bool, f: Effect)
    requires f in EffectsOf(i, e, w, limited) && f.SendAck?
    ensures IsConversation(e, w) && e.nonce == Some(f.ulid) && f.status == StatusOf(OwnRoute(e, w))
    ensures EffectsOf(i, e, w, limited)[0] == Store(i) && Outbound.DeliveredStatus(f.status)
  {
    if IsConversation(e, w) {
      assert f !in StoreEffects(i, e);
      assert f in AfterStore(i, e, w, limited);
      assert f in AckBack(i, e, w);
    } else {
      ControlIsNotDelivered(i, e, w, limited);
    }
  }

  function Answers(fx: seq<Effect>): nat {
    if fx == [] then 0 else Answers(fx[..|fx| - 1]) + (if fx[|fx| - 1].AnswerConversation? then 1 else 0)
  }

  lemma {:induction false} NoAnswers(fx: seq<Effect>)
    requires forall f :: f in fx ==> !f.AnswerConversation?
    ensures Answers(fx) == 0
  {
    if fx != [] {
      assert fx[|fx| - 1] in fx;
      NoAnswers(fx[..|fx| - 1]);
    }
  }

  lemma {:induction false} AnswersOfPair(a: seq<Effect>, b: seq<Effect>)
    ensures Answers(a + b) == Answers(a) + Answers(b)
  {
    if b == [] {
      assert a + b == a;
    } else {
      assert (a + b)[..|a + b| - 1] == a + b[..|b| - 1];
      AnswersOfPair(a, b[..|b| - 1]);
    }
  }

  lemma StoreAnswers(i: nat, e: Envelope)
    ensures Answers(StoreEffects(i, e)) == if NonBlank(e.conv) then 1 else 0
  {
    assert [Store(i)][..0] == [];
    if NonBlank(e.conv) {
      var answer := AnswerConversation(i, e.conv.value);
      assert [answer][..0] == [];
      AnswersOfPair([Store(i)], [answer]);
    }
  }

  lemma AckAnswers(i: nat, e: Envelope)
    requires NonBlank(e.ackFor)
    ensures Answers(AckEffects(i, e)) ==
      if NonBlank(e.conv) && e.ackStatus.Some? && Outbound.DeliveredStatus(e.ackStatus.value) then 1 else 0
  {
    var record := RecordAck(i, e.ackFor.value, if e.ackStatus.Some? then e.ackStatus.value else "unknown");
    assert [record][..0] == [];
    if NonBlank(e.conv) {
      var answer := AnswerConversation(i, e.conv.value);
      assert [answer][..0] == [];
      AnswersOfPair([record], [answer]);
    }
  }

  lemma RestAnswersNothing(i: nat, e: Envelope, w: World, limited: bool)
    ensures Answers(AfterStore(i, e, w, limited)) == 0 && Answers([HandleAgentAdd(i)]) == 0
  {
    NoAnswers([HandleAgentAdd(i)]);
    NoAnswers(AckBack(i, e, w));
    if Recipient(e, w).Some? {
      var fx := DeliveryEffects(i, e, w, Recipient(e, w).value, limited);
      NoAnswers(fx);
      AnswersOfPair(fx, AckBack(i, e, w));
    } else {
      assert [] + AckBack(i, e, w) == AckBack(i, e, w);
    }
  }

  /** One envelope answers its conversation at most once: exactly when it names one and is a stored message or an
      acknowledgement of a delivery. */
  lemma AnswersAtMostOnce(i: nat, e: Envelope, w: World, limited: bool)
    ensures Answers(EffectsOf(i, e, w, limited)) ==
      if NonBlank(e.conv) && (IsStored(e, w) || (e.kind == Some("ack") && NonBlank(e.ackFor) && e.ackStatus.Some?
                                                 && Outbound.DeliveredStatus(e.ackStatus.value))) then 1 else 0
  {
    if IsStored(e, w) {
      StoreAnswers(i, e);
      RestAnswersNothing(i, e, w, limited);
      AnswersOfPair(StoreEffects(i, e), if IsAgentAdd(e.body) then [HandleAgentAdd(i)] else AfterStore(i, e, w, limited));
    } else if e.kind == Some("ack") && NonBlank(e.ackFor) {
      AckAnswers(i, e);
    } else {
      NoAnswers(EffectsOf(i, e, w, limited));
    }
  }

  /** With agent sessions preferred, which is the default, a recipient whose session this machine may drive never
      gets terminal input: its message is with the session unless the session does not exist. */
  lemma PreferredSessionsAvoidTerminals(e: Envelope, w: World)
    requires w.preferAcp && Drivable(w)
    ensures RouteOf(e, w) != ViaTmux
    ensures RouteOf(e, w) == Undelivered <==> !w.gated && w.acp == NoEndpoint
  {
  }

  /** Without that preference a live terminal comes first and the session is not called. */
  lemma LiveTerminalComesFirst(i: nat, e: Envelope, w: World, limited: bool, alias: string)
    requires !w.preferAcp && Live(w) && Conversational(e.body)
    ensures RouteOf(e, w) == if w.tmuxWorks then ViaTmux else Undelivered
    ensures CallAcp(i, alias) !in DeliveryEffects(i, e, w, alias, limited)
  {
  }

  // ---------------------------------------------------------------- what a batch gets

  predicate AllOwn(fx: seq<Effect>, i: nat) {
    forall f :: f in fx ==> f.i == i
  }

  lemma AfterStoreIsOwn(i: nat, e: Envelope, w: World, limited: bool)
    ensures AllOwn(AfterStore(i, e, w, limited), i)
  {
    assert AllOwn(AckBack(i, e, w), i);
    if Recipient(e, w).Some? {
      assert AllOwn(DeliveryEffects(i, e, w, Recipient(e, w).value, limited), i);
    }
  }

  lemma EffectsAreOwn(i: nat, e: Envelope, w: World, limited: bool)
    ensures AllOwn(EffectsOf(i, e, w, limited), i)
  {
    AfterStoreIsOwn(i, e, w, limited);
    assert AllOwn(StoreEffects(i, e), i) && AllOwn(AckEffects(i, e), i);
  }

  /** The envelopes an effect can come from. */
  predicate Belongs(f: Effect, e: Envelope, w: World) {
    match f
    case RecordAck(_, _, _) => e.kind == Some("ack")
    case AnswerConversation(_, _) => e.kind == Some("ack") || IsStored(e, w)
    case ChangeIdentity(_) => e.kind == Some("identity_update") && w.identityAuthorised
    case Store(_) => IsStored(e, w)
    case HandleAgentAdd(_) => IsStored(e, w) && IsAgentAdd(e.body)
    case SendAck(_, _, _) => IsConversation(e, w)
    case _ => IsConversation(e, w) && Recipient(e, w).Some?
  }

  predicate AllBelong(fx: seq<Effect>, e: Envelope, w: World) {
    forall f :: f in fx ==> Belongs(f, e, w)
  }

  lemma MessageEffectsBelong(i: nat, e: Envelope, w: World, limited: bool)
    requires IsStored(e, w)
    ensures AllBelong(MessageEffects(i, e, w, limited), e, w)
  {
    assert AllBelong(StoreEffects(i, e), e, w);
    if !IsAgentAdd(e.body) {
      assert AllBelong(AckBack(i, e, w), e, w);
      if Recipient(e, w).Some? {
        assert AllBelong(DeliveryEffects(i, e, w, Recipient(e, w).value, limited), e, w);
      }
    }
  }

  /** In the log of a batch every effect comes from an envelope of its kind: delivery only from stored conversations
      with a recipient, acknowledgements only from stored conversations, and an acknowledgement or identity update
      is never stored. */
  lemma {:induction false} BatchEffectsBelong(es: seq<Envelope>, ws: seq<World>, attempts: seq<Attempt>, window: nat, k: nat)
    requires |es| == |ws| && k < |HandleAll(Progress([], attempts), es, ws, window).log|
    ensures var f := HandleAll(Progress([], attempts), es, ws, window).log[k];
      f.i < |es| && Belongs(f, es[f.i], ws[f.i])
  {
    var n := |es| - 1;
    var before := HandleAll(Progress([], attempts), es[..n], ws[..n], window);
    var limited := Refused(before.attempts, es[n], ws[n], window);
    var fx := EffectsOf(n, es[n], ws[n], limited);
    if k < |before.log| {
      BatchEffectsBelong(es[..n], ws[..n], attempts, window, k);
    } else {
      EffectsAreOwn(n, es[n], ws[n], limited);
      if IsStored(es[n], ws[n]) {
        MessageEffectsBelong(n, es[n], ws[n], limited);
      }
      assert AllBelong(fx, es[n], ws[n]);
      assert fx[k - |before.log|] in fx;
    }
  }

  /** In the log of a batch an acknowledgement of envelope `i` is preceded by its store, is sent only for a
      conversation, and bears the class that envelope fell in. */
  lemma {:induction false} BatchAcksFollowStores(es: seq<Envelope>, ws: seq<World>, attempts: seq<Attempt>, window: nat, k: nat)
    requires |es| == |ws| && k < |HandleAll(Progress([], attempts), es, ws, window).log|
    requires HandleAll(Progress([], attempts), es, ws, window).log[k].SendAck?
    ensures var log := HandleAll(Progress([], attempts), es, ws, window).log;
      && log[k].i < |es|
      && (exists j :: 0 <= j < k && log[j] == Store(log[k].i))
      && IsConversation(es[log[k].i], ws[log[k].i])
      && log[k].status == StatusOf(OwnRoute(es[log[k].i], ws[log[k].i]))
  {
    var n := |es| - 1;
    var before := HandleAll(Progress([], attempts), es[..n], ws[..n], window);
    var log := HandleAll(Progress([], attempts), es, ws, window).log;
    var limited := Refused(before.attempts, es[n], ws[n], window);
    var fx := EffectsOf(n, es[n], ws[n], limited);
    assert log == before.log + fx;
    if k < |before.log| {
      assert log[k] == before.log[k];
      BatchAcksFollowStores(es[..n], ws[..n], attempts, window, k);
      var j :| 0 <= j < k && before.log[j] == Store(before.log[k].i);
      assert log[j] == before.log[j];
    } else {
      assert log[k] == fx[k - |before.log|];
      AckFollowsStore(n, es[n], ws[n], limited, log[k]);
      EffectsAreOwn(n, es[n], ws[n], limited);
      assert log[|before.log|] == fx[0];
    }
  }

  /** In the log of a batch each stored conversation with a recipient ends in exactly one way, its route; no other
      envelope ends in any. */
  lemma {:induction false} BatchSplitsExactly(es: seq<Envelope>, ws: seq<World>, attempts: seq<Attempt>, window: nat, i: nat, route: Route)
    requires |es| == |ws|
    ensures EndsInLog(HandleAll(Progress([], attempts), es, ws, window).log, i, route)
      <==> i < |es| && IsConversation(es[i], ws[i]) && OwnRoute(es[i], ws[i]) == Some(route)
  {
    if es != [] {
      var n := |es| - 1;
      var before := HandleAll(Progress([], attempts), es[..n], ws[..n], window);
      BatchSplitsExactly(es[..n], ws[..n], attempts, window, i, route);
      var limited := Refused(before.attempts, es[n], ws[n], window);
      var fx := EffectsOf(n, es[n], ws[n], limited);
      EndsInPair(before.log, fx, i, route);
      DeliveredExactlyOneWay(n, es[n], ws[n], limited, i, route);
    }
  }
}
