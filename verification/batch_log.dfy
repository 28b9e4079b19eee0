/** What the log of a batch of inbound envelopes tells, effect by effect: what was stored, where each conversation
    went, whom the batch woke, and what its acknowledgements say. */
module BatchLog {
  import opened Prelude
  import opened Delivery
  import Framing
  import Outbound

  // ---------------------------------------------------------------- the log, effect by effect

  function LogOf(es: seq<Envelope>, ws: seq<World>, attempts: seq<Attempt>, window: nat): seq<Effect>
    requires |es| == |ws|
  {
    HandleAll(Progress([], attempts), es, ws, window).log
  }

  /** The attempts to wake recipients before envelope `i`. */
  function AttemptsBefore(es: seq<Envelope>, ws: seq<World>, attempts: seq<Attempt>, window: nat, i: nat): seq<Attempt>
    requires i <= |es| == |ws|
  {
    if i == 0 then attempts
    else NextAttempts(AttemptsBefore(es, ws, attempts, window, i - 1), es[i - 1], ws[i - 1], window)
  }

  /** Whether the limiter refuses envelope `i`, after what the batch did before it. */
  function RefusedAt(es: seq<Envelope>, ws: seq<World>, attempts: seq<Attempt>, window: nat, i: nat): bool
    requires i < |es| == |ws|
  {
    Refused(AttemptsBefore(es, ws, attempts, window, i), es[i], ws[i], window)
  }

  /** What envelope `i` of a batch does. */
  function EffectsAt(es: seq<Envelope>, ws: seq<World>, attempts: seq<Attempt>, window: nat, i: nat): seq<Effect>
    requires i < |es| == |ws|
  {
    EffectsOf(i, es[i], ws[i], RefusedAt(es, ws, attempts, window, i))
  }

  /** What each of the first `n` envelopes does. */
  function Parts(es: seq<Envelope>, ws: seq<World>, attempts: seq<Attempt>, window: nat, n: nat): (parts: seq<seq<Effect>>)
    requires n <= |es| == |ws|
    ensures |parts| == n && forall i :: 0 <= i < n ==> parts[i] == EffectsAt(es, ws, attempts, window, i)
  {
    seq(n, i requires 0 <= i < n => EffectsAt(es, ws, attempts, window, i))
  }

  function Concat<T>(parts: seq<seq<T>>): seq<T> {
    if parts == [] then [] else Concat(parts[..|parts| - 1]) + parts[|parts| - 1]
  }

  lemma {:induction false} ConcatHolds<T>(parts: seq<seq<T>>, x: T)
    ensures x in Concat(parts) <==> exists i :: 0 <= i < |parts| && x in parts[i]
  {
    if parts != [] {
      ConcatHolds(parts[..|parts| - 1], x);
      assert forall i :: 0 <= i < |parts| - 1 ==> parts[..|parts| - 1][i] == parts[i];
    }
  }

  lemma HandleStep(p: Progress, es: seq<Envelope>, ws: seq<World>, window: nat, n: nat)
    requires n < |es| == |ws|
    ensures HandleAll(p, es[..n + 1], ws[..n + 1], window) == Handle(HandleAll(p, es[..n], ws[..n], window), n, es[n], ws[n], window)
  {
    assert es[..n + 1][..n] == es[..n] && ws[..n + 1][..n] == ws[..n];
  }

  lemma {:induction false} ProgressIs(es: seq<Envelope>, ws: seq<World>, attempts: seq<Attempt>, window: nat, i: nat)
    requires i <= |es| == |ws|
    ensures HandleAll(Progress([], attempts), es[..i], ws[..i], window)
      == Progress(Concat(Parts(es, ws, attempts, window, i)), AttemptsBefore(es, ws, attempts, window, i))
  {
    if i > 0 {
      HandleStep(Progress([], attempts), es, ws, window, i - 1);
      ProgressIs(es, ws, attempts, window, i - 1);
      assert Parts(es, ws, attempts, window, i)[..i - 1] == Parts(es, ws, attempts, window, i - 1);
    }
  }

  lemma LogIsConcat(es: seq<Envelope>, ws: seq<World>, attempts: seq<Attempt>, window: nat)
    requires |es| == |ws|
    ensures LogOf(es, ws, attempts, window) == Concat(Parts(es, ws, attempts, window, |es|))
  {
    assert es[..|es|] == es && ws[..|ws|] == ws;
    ProgressIs(es, ws, attempts, window, |es|);
  }

  lemma PartsAreOwn(es: seq<Envelope>, ws: seq<World>, attempts: seq<Attempt>, window: nat)
    requires |es| == |ws|
    ensures forall i :: 0 <= i < |es| ==> AllOwn(Parts(es, ws, attempts, window, |es|)[i], i)
  {
    forall i | 0 <= i < |es| ensures AllOwn(Parts(es, ws, attempts, window, |es|)[i], i) {
      EffectsAreOwn(i, es[i], ws[i], RefusedAt(es, ws, attempts, window, i));
    }
  }

  lemma OwnConcatHolds(parts: seq<seq<Effect>>, f: Effect)
    requires forall i :: 0 <= i < |parts| ==> AllOwn(parts[i], i)
    ensures f in Concat(parts) <==> f.i < |parts| && f in parts[f.i]
  {
    ConcatHolds(parts, f);
  }

  /** The log of a batch holds exactly the effects of its envelopes. */
  lemma LogHolds(es: seq<Envelope>, ws: seq<World>, attempts: seq<Attempt>, window: nat, f: Effect)
    requires |es| == |ws|
    ensures f in LogOf(es, ws, attempts, window)
      <==> f.i < |es| && f in EffectsOf(f.i, es[f.i], ws[f.i], RefusedAt(es, ws, attempts, window, f.i))
  {
    LogIsConcat(es, ws, attempts, window);
    PartsAreOwn(es, ws, attempts, window);
    OwnConcatHolds(Parts(es, ws, attempts, window, |es|), f);
  }

  lemma AckIsLast(i: nat, e: Envelope, w: World, limited: bool, u: string, s: string)
    ensures SendAck(i, u, s) in EffectsOf(i, e, w, limited) <==>
      IsConversation(e, w) && e.nonce == Some(u) && (e.senderUrl.Some? || w.peerAddress.Some?) && s == StatusOf(OwnRoute(e, w))
  {
    if SendAck(i, u, s) in EffectsOf(i, e, w, limited) {
      AckFollowsStore(i, e, w, limited, SendAck(i, u, s));
      assert SendAck(i, u, s) !in StoreEffects(i, e);
      assert SendAck(i, u, s) in AckBack(i, e, w);
    }
  }

  /** In the log of a batch an acknowledgement says `acp_delivered` exactly when the recipient's agent session owns
      the message, `tmux_injected` exactly when it went to a terminal, and `inbox_stored` exactly when it did
      neither. */
  lemma AcksTellWhatHappened(es: seq<Envelope>, ws: seq<World>, attempts: seq<Attempt>, window: nat, i: nat, u: string, s: string)
    requires |es| == |ws| && SendAck(i, u, s) in LogOf(es, ws, attempts, window)
    ensures var log := LogOf(es, ws, attempts, window);
      && (s == "acp_delivered" <==> AcpOwns(i) in log)
      && (s == "tmux_injected" <==> exists alias :: InjectTmux(i, alias) in log)
      && (s == "inbox_stored" <==> AcpOwns(i) !in log && forall alias :: InjectTmux(i, alias) !in log)
  {
    LogHolds(es, ws, attempts, window, SendAck(i, u, s));
    var limited := RefusedAt(es, ws, attempts, window, i);
    AckIsLast(i, es[i], ws[i], limited, u, s);
    LogHolds(es, ws, attempts, window, AcpOwns(i));
    EndEffects(i, es[i], ws[i], limited, AcpOwns(i));
    forall alias ensures InjectTmux(i, alias) in LogOf(es, ws, attempts, window) <==>
      OwnRoute(es[i], ws[i]) == Some(ViaTmux) && Recipient(es[i], ws[i]) == Some(alias)
    {
      LogHolds(es, ws, attempts, window, InjectTmux(i, alias));
      EndEffects(i, es[i], ws[i], limited, InjectTmux(i, alias));
    }
    assert "acp_delivered"[0] == 'a' && "tmux_injected"[0] == 't' && "inbox_stored"[0] == 'i';
  }

  /** Delivery effects come from the delivery of a conversation. */
  lemma FromDelivery(i: nat, e: Envelope, w: World, limited: bool, f: Effect)
    requires IsDeliveryEffect(f)
    ensures f in EffectsOf(i, e, w, limited) <==>
      IsConversation(e, w) && Recipient(e, w).Some? && f in DeliveryEffects(i, e, w, Recipient(e, w).value, limited)
  {
    assert f !in StoreEffects(i, e) && f !in AckBack(i, e, w) && f !in AckEffects(i, e);
  }

  lemma DeliveryEndsIn(i: nat, e: Envelope, w: World, limited: bool, to: string, f: Effect)
    requires EndOf(f).Some?
    ensures f in DeliveryEffects(i, e, w, to, limited) <==>
      f == (match RouteOf(e, w) case ViaAcp => AcpOwns(i) case ViaTmux => InjectTmux(i, to) case Undelivered => MarkUndelivered(i, to))
  {
    var fx := DeliveryEffects(i, e, w, to, limited);
    assert fx[|fx| - 1] in fx;
  }

  /** The three ends of one conversation, by its route. */
  lemma EndEffects(i: nat, e: Envelope, w: World, limited: bool, f: Effect)
    requires EndOf(f).Some?
    ensures f in EffectsOf(i, e, w, limited) <==>
      IsConversation(e, w) && f.i == i && EndOf(f) == OwnRoute(e, w) && (f.AcpOwns? || Recipient(e, w) == Some(f.alias))
  {
    FromDelivery(i, e, w, limited, f);
    if Recipient(e, w).Some? {
      DeliveryEndsIn(i, e, w, limited, Recipient(e, w).value, f);
    }
  }

  /** Text to show: it is not blank, and trimmed it does not start with a marker of an agent-add message. */
  predicate Shown(body: string) {
    && Framing.Trim(body) != ""
    && !("[AGENT_ADD_REQUEST] " <= Framing.Trim(body)) && !("[AGENT_ADD_ACCEPT] " <= Framing.Trim(body))
  }

  /** An envelope that is stored as conversation: it is no control message, and the database works. */
  predicate Talk(e: Envelope, w: World) {
    && (e.kind == None || (e.kind.value != "ack" && e.kind.value != "identity_update"))
    && !("[AGENT_ADD_REQUEST] " <= e.body) && !("[AGENT_ADD_ACCEPT] " <= e.body)
    && w.lookupWorks && w.sessionWorks && w.insertWorks
  }

  /** A live terminal is tried before the agent session. */
  predicate TerminalFirst(e: Envelope, w: World) {
    Shown(e.body) && w.tmuxLive && !w.injectDisabled && (!w.preferAcp || !w.drivable || w.remoteHomed)
  }

  /** This machine may drive the recipient's agent session. */
  predicate Here(w: World) {
    w.drivable && !w.remoteHomed
  }

  lemma RoutesAre(e: Envelope, w: World)
    ensures RouteOf(e, w) == ViaAcp <==>
      !TerminalFirst(e, w) && (w.acp == Delivered || (Here(w) && (w.gated || w.acp == Unavailable)))
    ensures RouteOf(e, w) == ViaTmux <==> w.tmuxWorks && (TerminalFirst(e, w) || (!Here(w) && w.acp != Delivered))
  {
  }

  lemma CallsAre(i: nat, e: Envelope, w: World, limited: bool, alias: string)
    requires IsConversation(e, w) && Recipient(e, w) == Some(alias)
    ensures CallAcp(i, alias) in EffectsOf(i, e, w, limited) <==> !TerminalFirst(e, w) && !(Here(w) && w.gated)
    ensures Accrue(i, alias) in EffectsOf(i, e, w, limited) <==>
      !TerminalFirst(e, w) && Here(w) && w.gated && Framing.Trim(e.body) != ""
  {
    FromDelivery(i, e, w, limited, CallAcp(i, alias));
    FromDelivery(i, e, w, limited, Accrue(i, alias));
  }

  /** The recipient the envelope names, or the one its key is known under here, or this machine's own agent. */
  predicate IsFor(e: Envelope, w: World, alias: string) {
    || e.recipient == Some(alias)
    || (e.recipient.None? && w.aliasByKey == Some(alias))
    || (e.recipient.None? && w.aliasByKey.None? && w.ownAlias == Some(alias))
  }

  /** Where a batch takes each of its stored conversations, read off its log. A live terminal that comes first gets
      it or leaves it undelivered, and no session is called. Otherwise a session that may be driven here owns it
      unless it does not exist, and is called unless it is gated; and any other session is called, and what it does
      not take goes to the terminal, if that works. */
  lemma BatchTakes(es: seq<Envelope>, ws: seq<World>, attempts: seq<Attempt>, window: nat, i: nat, alias: string)
    requires |es| == |ws| && i < |es| && Talk(es[i], ws[i]) && IsFor(es[i], ws[i], alias)
    ensures var log := LogOf(es, ws, attempts, window); var w := ws[i]; var first := TerminalFirst(es[i], w);
      && (AcpOwns(i) in log <==> !first && (w.acp == Delivered || (Here(w) && (w.gated || w.acp == Unavailable))))
      && (InjectTmux(i, alias) in log <==> w.tmuxWorks && (first || (!Here(w) && w.acp != Delivered)))
      && (MarkUndelivered(i, alias) in log <==> AcpOwns(i) !in log && InjectTmux(i, alias) !in log)
      && (CallAcp(i, alias) in log <==> !first && !(Here(w) && w.gated))
      && (Accrue(i, alias) in log <==> !first && Here(w) && w.gated && Framing.Trim(es[i].body) != "")
  {
    var e, w, limited := es[i], ws[i], RefusedAt(es, ws, attempts, window, i);
    LogHolds(es, ws, attempts, window, AcpOwns(i));
    LogHolds(es, ws, attempts, window, InjectTmux(i, alias));
    LogHolds(es, ws, attempts, window, MarkUndelivered(i, alias));
    LogHolds(es, ws, attempts, window, CallAcp(i, alias));
    LogHolds(es, ws, attempts, window, Accrue(i, alias));
    EndEffects(i, e, w, limited, AcpOwns(i));
    EndEffects(i, e, w, limited, InjectTmux(i, alias));
    EndEffects(i, e, w, limited, MarkUndelivered(i, alias));
    RoutesAre(e, w);
    CallsAre(i, e, w, limited, alias);
  }

  /** When an envelope is stored, consumed, acknowledged or recorded, read off the log of its batch. */
  lemma BatchRecords(es: seq<Envelope>, ws: seq<World>, attempts: seq<Attempt>, window: nat, i: nat)
    requires |es| == |ws| && i < |es|
    ensures var log := LogOf(es, ws, attempts, window); var e, w := es[i], ws[i];
      var stored := (e.kind == None || (e.kind.value != "ack" && e.kind.value != "identity_update"))
                    && w.lookupWorks && w.sessionWorks && w.insertWorks;
      && (Store(i) in log <==> stored)
      && (HandleAgentAdd(i) in log <==> stored && !Talk(e, w))
      && (ChangeIdentity(i) in log <==> e.kind == Some("identity_update") && w.identityAuthorised)
      && (forall u, s :: RecordAck(i, u, s) in log <==>
           e.kind == Some("ack") && e.ackFor == Some(u) && u != "" && (e.ackStatus == Some(s) || (e.ackStatus.None? && s == "unknown")))
      && (forall u :: (exists s :: SendAck(i, u, s) in log) <==>
           Talk(e, w) && e.nonce == Some(u) && (e.senderUrl.Some? || w.peerAddress.Some?))
  {
    var e, w, limited := es[i], ws[i], RefusedAt(es, ws, attempts, window, i);
    var log := LogOf(es, ws, attempts, window);
    LogHolds(es, ws, attempts, window, Store(i));
    LogHolds(es, ws, attempts, window, HandleAgentAdd(i));
    LogHolds(es, ws, attempts, window, ChangeIdentity(i));
    RecordsAre(i, e, w, limited);
    forall u, s ensures RecordAck(i, u, s) in log <==> e.kind == Some("ack") && RecordAck(i, u, s) in AckEffects(i, e) {
      LogHolds(es, ws, attempts, window, RecordAck(i, u, s));
    }
    forall u, s
      ensures RecordAck(i, u, s) in AckEffects(i, e) <==>
        e.ackFor == Some(u) && u != "" && (e.ackStatus == Some(s) || (e.ackStatus.None? && s == "unknown"))
    {
      AckRecords(i, e, u, s);
    }
    forall u, s
      ensures SendAck(i, u, s) in log <==>
        Talk(e, w) && e.nonce == Some(u) && (e.senderUrl.Some? || w.peerAddress.Some?) && s == StatusOf(OwnRoute(e, w))
    {
      LogHolds(es, ws, attempts, window, SendAck(i, u, s));
      AckIsLast(i, e, w, limited, u, s);
    }
  }

  lemma AckRecords(i: nat, e: Envelope, u: string, s: string)
    ensures RecordAck(i, u, s) in AckEffects(i, e) <==>
      e.ackFor == Some(u) && u != "" && (e.ackStatus == Some(s) || (e.ackStatus.None? && s == "unknown"))
  {
  }

  lemma RecordsAre(i: nat, e: Envelope, w: World, limited: bool)
    ensures var fx := EffectsOf(i, e, w, limited);
      && (Store(i) in fx <==> IsStored(e, w)) && (HandleAgentAdd(i) in fx <==> IsStored(e, w) && IsAgentAdd(e.body))
      && (ChangeIdentity(i) in fx <==> e.kind == Some("identity_update") && w.identityAuthorised)
      && (forall u, s :: RecordAck(i, u, s) in fx <==> e.kind == Some("ack") && RecordAck(i, u, s) in AckEffects(i, e))
  {
    var fx := EffectsOf(i, e, w, limited);
    if IsStored(e, w) {
      MessageEffectsBelong(i, e, w, limited);
      assert forall f :: f in fx ==> Belongs(f, e, w);
      assert fx[0] == Store(i);
      if IsAgentAdd(e.body) {
        assert fx[|fx| - 1] == HandleAgentAdd(i);
      }
    } else if e.kind == Some("ack") {
      assert forall f :: f in fx ==> f.RecordAck? || f.AnswerConversation?;
    }
  }

  lemma AnswersAre(i: nat, e: Envelope, w: World, limited: bool, c: string)
    ensures AnswerConversation(i, c) in EffectsOf(i, e, w, limited) <==>
      && e.conv == Some(c) && c != ""
      && (IsStored(e, w) || (e.kind == Some("ack") && NonBlank(e.ackFor) && e.ackStatus.Some? && Outbound.DeliveredStatus(e.ackStatus.value)))
  {
    var f := AnswerConversation(i, c);
    assert f !in AckBack(i, e, w);
    if Recipient(e, w).Some? {
      assert f !in DeliveryEffects(i, e, w, Recipient(e, w).value, limited);
    }
    assert f in AckEffects(i, e) <==>
      e.conv == Some(c) && c != "" && NonBlank(e.ackFor) && e.ackStatus.Some? && Outbound.DeliveredStatus(e.ackStatus.value);
  }

  /** When an envelope counts as an answer of its conversation: any stored message does, and an acknowledgement that
      names a message and reports it stored, shown to a terminal, or with an agent session. */
  lemma BatchAnswers(es: seq<Envelope>, ws: seq<World>, attempts: seq<Attempt>, window: nat, i: nat, c: string)
    requires |es| == |ws| && i < |es|
    ensures var e, w := es[i], ws[i];
      AnswerConversation(i, c) in LogOf(es, ws, attempts, window) <==>
        && e.conv == Some(c) && c != ""
        && (Store(i) in LogOf(es, ws, attempts, window)
            || (e.kind == Some("ack") && e.ackFor.Some? && e.ackFor.value != ""
                && (e.ackStatus == Some("inbox_stored") || e.ackStatus == Some("tmux_injected") || e.ackStatus == Some("acp_delivered"))))
  {
    LogHolds(es, ws, attempts, window, AnswerConversation(i, c));
    LogHolds(es, ws, attempts, window, Store(i));
    AnswersAre(i, es[i], ws[i], RefusedAt(es, ws, attempts, window, i), c);
    RecordsAre(i, es[i], ws[i], RefusedAt(es, ws, attempts, window, i));
  }

  // ---------------------------------------------------------------- whom a batch wakes

  lemma WakingAsks(i: nat, e: Envelope, w: World, attempts: seq<Attempt>, window: nat, alias: string)
    ensures SpawnRecipient(i, alias) in EffectsOf(i, e, w, Refused(attempts, e, w, window))
      <==> AsksLimiter(e, w) && Recipient(e, w) == Some(alias) && !Limited(attempts, alias, w.now, window)
  {
    FromDelivery(i, e, w, Refused(attempts, e, w, window), SpawnRecipient(i, alias));
  }

  /** Envelope `j` woke the recipient at that time. */
  predicate WokeAt(log: seq<Effect>, ws: seq<World>, j: nat, x: Attempt)
    requires j < |ws|
  {
    ws[j].now == x.at && SpawnRecipient(j, x.alias) in log
  }

  lemma WakingInLog(es: seq<Envelope>, ws: seq<World>, attempts: seq<Attempt>, window: nat, n: nat, alias: string)
    requires n < |es| == |ws|
    ensures var before := AttemptsBefore(es, ws, attempts, window, n);
      SpawnRecipient(n, alias) in LogOf(es, ws, attempts, window) <==>
        AsksLimiter(es[n], ws[n]) && Recipient(es[n], ws[n]) == Some(alias) && !Limited(before, alias, ws[n].now, window)
  {
    LogHolds(es, ws, attempts, window, SpawnRecipient(n, alias));
    WakingAsks(n, es[n], ws[n], AttemptsBefore(es, ws, attempts, window, n), window, alias);
  }

  lemma OneMoreAttempt(attempts: seq<Attempt>, e: Envelope, w: World, window: nat, x: Attempt)
    ensures x in NextAttempts(attempts, e, w, window) <==>
      || x in attempts
      || (AsksLimiter(e, w) && Recipient(e, w) == Some(x.alias) && !Limited(attempts, x.alias, w.now, window) && x.at == w.now)
  {
  }

  lemma OneMoreWaking(es: seq<Envelope>, ws: seq<World>, attempts: seq<Attempt>, window: nat, n: nat, log: seq<Effect>, x: Attempt)
    requires n < |es| == |ws| && log == LogOf(es, ws, attempts, window)
    ensures x in AttemptsBefore(es, ws, attempts, window, n + 1) <==>
      x in AttemptsBefore(es, ws, attempts, window, n) || WokeAt(log, ws, n, x)
  {
    WakingInLog(es, ws, attempts, window, n, x.alias);
    OneMoreAttempt(AttemptsBefore(es, ws, attempts, window, n), es[n], ws[n], window, x);
  }

  /** `x` joins the attempts at envelope `n` exactly if that woke its recipient then. */
  predicate Joins<T(==)>(chain: seq<seq<T>>, n: nat, adds: (nat, T) -> bool, x: T)
    requires n + 1 < |chain|
  {
    x in chain[n + 1] <==> x in chain[n] || adds(n, x)
  }

  lemma {:induction false} ChainHolds<T>(chain: seq<seq<T>>, adds: (nat, T) -> bool, i: nat, x: T)
    requires i < |chain| && forall n :: 0 <= n < i ==> Joins(chain, n, adds, x)
    ensures x in chain[i] <==> x in chain[0] || exists j: nat :: j < i && adds(j, x)
  {
    if i > 0 {
      ChainHolds(chain, adds, i - 1, x);
      assert Joins(chain, i - 1, adds, x);
    }
  }

  /** The attempts before envelope `i` are those there were and those the log shows. */
  lemma AttemptsAreWakings(es: seq<Envelope>, ws: seq<World>, attempts: seq<Attempt>, window: nat, i: nat,
                           log: seq<Effect>, x: Attempt)
    requires i <= |es| == |ws| && log == LogOf(es, ws, attempts, window)
    ensures x in AttemptsBefore(es, ws, attempts, window, i) <==> x in attempts || exists j :: 0 <= j < i && WokeAt(log, ws, j, x)
  {
    var chain := seq(i + 1, k requires 0 <= k <= i => AttemptsBefore(es, ws, attempts, window, k));
    var woke := (j: nat, y: Attempt) => j < |ws| && WokeAt(log, ws, j, y);
    forall n | 0 <= n < i ensures Joins(chain, n, woke, x) {
      OneMoreWaking(es, ws, attempts, window, n, log, x);
    }
    ChainHolds(chain, woke, i, x);
    if j: nat :| j < i && woke(j, x) {
      assert WokeAt(log, ws, j, x);
    }
    if j: nat :| j < i && WokeAt(log, ws, j, x) {
      assert woke(j, x);
    }
  }

  lemma NotLimitedWhen(attempts: seq<Attempt>, alias: string, now: int, window: nat)
    ensures !Limited(attempts, alias, now, window) <==> forall at :: Attempt(alias, at) in attempts ==> now - at >= window
  {
    if Limited(attempts, alias, now, window) {
      var k :| 0 <= k < |attempts| && attempts[k].alias == alias && now - attempts[k].at < window;
      assert Attempt(alias, attempts[k].at) in attempts;
    }
  }

  /** The limiter lets a recipient through exactly when every attempt for it is at least a window old. */
  lemma NotLimitedAt(es: seq<Envelope>, ws: seq<World>, attempts: seq<Attempt>, window: nat, i: nat, alias: string, log: seq<Effect>)
    requires i < |es| == |ws| && log == LogOf(es, ws, attempts, window)
    ensures !Limited(AttemptsBefore(es, ws, attempts, window, i), alias, ws[i].now, window) <==>
      && (forall at :: Attempt(alias, at) in attempts ==> ws[i].now - at >= window)
      && (forall j :: 0 <= j < i && SpawnRecipient(j, alias) in log ==> ws[i].now - ws[j].now >= window)
  {
    var before := AttemptsBefore(es, ws, attempts, window, i);
    NotLimitedWhen(before, alias, ws[i].now, window);
    forall x: Attempt ensures x in before <==> x in attempts || exists j :: 0 <= j < i && WokeAt(log, ws, j, x) {
      AttemptsAreWakings(es, ws, attempts, window, i, log, x);
    }
    forall j | 0 <= j < i && SpawnRecipient(j, alias) in log ensures Attempt(alias, ws[j].now) in before {
      assert WokeAt(log, ws, j, Attempt(alias, ws[j].now));
    }
  }

  /** A batch wakes the recipient of a stored conversation exactly when its text is worth showing, its terminal is
      dead, it can be woken, injection is on, and no earlier attempt for it is younger than the window. */
  lemma BatchWakes(es: seq<Envelope>, ws: seq<World>, attempts: seq<Attempt>, window: nat, i: nat, alias: string)
    requires |es| == |ws| && i < |es| && Talk(es[i], ws[i]) && IsFor(es[i], ws[i], alias)
    ensures var log := LogOf(es, ws, attempts, window);
      SpawnRecipient(i, alias) in log <==>
        && Shown(es[i].body) && !ws[i].tmuxLive && !ws[i].injectDisabled && ws[i].spawnable
        && (forall at :: Attempt(alias, at) in attempts ==> ws[i].now - at >= window)
        && (forall j :: 0 <= j < i && SpawnRecipient(j, alias) in log ==> ws[i].now - ws[j].now >= window)
  {
    WakingInLog(es, ws, attempts, window, i, alias);
    NotLimitedAt(es, ws, attempts, window, i, alias, LogOf(es, ws, attempts, window));
  }
}
