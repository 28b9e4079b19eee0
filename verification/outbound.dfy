/** The outbound queue: first posts with back-off, retransmission until the transport ACK, archiving, and the
    application ACK of the conversation. One worker drains the table; inbound envelopes and the ACK timeout
    sweep change it between the worker's posts. Times are nanoseconds of one clock. */
module Outbound {
  import opened Prelude

  function Seconds(n: int): int {
    n * 1_000_000_000
  }

  function Minutes(n: int): int {
    n * 60_000_000_000
  }

  const ARCHIVE_AFTER: int := Minutes(30 * 24 * 60)
  const BATCH: nat := 20

  datatype AppStatus = Unanswered | Blocked | Processed

  datatype Note = NoNote | SendFailed | MaxRetriesExceeded | AckRetry(n: int) | AckTimeoutMax

  datatype Row = Row(
    conv: Option<string>,
    attempts: nat,
    nextRetry: Option<int>,
    note: Note,
    enqueued: int,
    sent: Option<int>,
    acked: Option<int>,
    ackStatus: string,
    appAck: Option<int>,
    appStatus: AppStatus,
    checkAfter: Option<int>)

  type Ulid = string
  type Table = map<Ulid, Row>

  // ---------------------------------------------------------------- the worker's statements

  predicate Archivable(r: Row, now: int) {
    r.sent.Some? && r.acked.Some? && r.sent.value < now - ARCHIVE_AFTER
  }

  function Archive(t: Table, now: int): Table {
    map u | u in t && !Archivable(t[u], now) :: t[u]
  }

  /** `last_error != '...'` is not true of a row without a note. */
  function MarkExhausted(t: Table): Table {
    map u | u in t ::
      if t[u].attempts > 10 && t[u].sent.None? && t[u].note != NoNote then t[u].(note := MaxRetriesExceeded) else t[u]
  }

  function MarkAckTimeout(t: Table, now: int): Table {
    map u | u in t ::
      if t[u].sent.Some? && t[u].acked.None? && t[u].attempts >= 3 && t[u].sent.value < now - Minutes(30)
      then t[u].(note := AckTimeoutMax) else t[u]
  }

  function Housekeep(t: Table, now: int): Table {
    MarkAckTimeout(MarkExhausted(Archive(t, now)), now)
  }

  /** Path (A): not sent yet and due. */
  predicate DueFirst(r: Row, now: int) {
    r.sent.None? && r.attempts <= 10 && (r.nextRetry.None? || r.nextRetry.value <= now)
  }

  /** Path (B): sent, not acknowledged, and silent for the time its stage allows. */
  predicate DueRetry(r: Row, now: int) {
    && r.sent.Some? && r.acked.None? && r.attempts < 3 && r.note != AckTimeoutMax
    && r.sent.value <= now - (if r.attempts == 0 then Seconds(30) else if r.attempts == 1 then Minutes(5) else Minutes(30))
  }

  function Pow2(n: nat): nat {
    if n == 0 then 1 else 2 * Pow2(n - 1)
  }

  /** Back-off in seconds after a failed first post, with the cap the code applies. */
  function BackoffSeconds(attempts: nat): int {
    Min(300, Pow2(Min(attempts, 8)))
  }

  function AfterPost(r: Row, retry: bool, attempts: nat, ok: bool, done: int): Row {
    if ok && retry then r.(attempts := r.attempts + 1, sent := Some(done), note := AckRetry(attempts + 1))
    else if ok then r.(sent := Some(done), note := NoNote)
    else if !retry then
      r.(attempts := r.attempts + 1, nextRetry := Some(done + Seconds(BackoffSeconds(attempts))), note := SendFailed)
    else r
  }

  // ---------------------------------------------------------------- inbound envelopes and the sweep

  /** `ORDER BY enqueued_at DESC LIMIT 1` over the unanswered rows of a conversation: any row of the latest
      enqueue time may come first. */
  ghost predicate LatestUnanswered(t: Table, conv: string, u: Ulid) {
    && u in t && t[u].conv == Some(conv) && t[u].appAck.None?
    && forall v :: v in t && t[v].conv == Some(conv) && t[v].appAck.None? ==> t[v].enqueued <= t[u].enqueued
  }

  ghost predicate NoneUnanswered(t: Table, conv: string) {
    forall v :: v in t && t[v].conv == Some(conv) ==> t[v].appAck.Some?
  }

  function Flip(t: Table, pick: Option<Ulid>, now: int): Table {
    if pick.None? || pick.value !in t then t
    else t[pick.value := t[pick.value].(appAck := Some(now), appStatus := Processed)]
  }

  predicate DeliveredStatus(status: string) {
    status == "inbox_stored" || status == "tmux_injected" || status == "acp_delivered"
  }

  function Acknowledge(t: Table, u: Ulid, status: string, now: int): Table {
    if u in t then t[u := t[u].(acked := Some(now), ackStatus := status)] else t
  }

  /** Whether an ACK envelope also answers its conversation. */
  predicate AckAnswers(status: string, conv: Option<string>) {
    DeliveredStatus(status) && conv.Some? && conv.value != ""
  }

  predicate Overdue(r: Row, now: int) {
    r.appAck.None? && r.appStatus == Unanswered && r.checkAfter.Some? && r.checkAfter.value < now
  }

  function Sweep(t: Table, now: int): Table {
    map u | u in t :: if Overdue(t[u], now) then t[u].(appStatus := Blocked) else t[u]
  }

  // ---------------------------------------------------------------- the queue as a state machine

  datatype Pick = Pick(ulid: Ulid, retry: bool, attempts: nat)

  /** One post of a row: whether it was a retransmission, when it started and ended, and whether it succeeded. */
  datatype Post = Post(retry: bool, started: int, done: int, ok: bool)

  /** The posts of one row: failed first posts, successful first posts, successful retransmissions, when
      the first posts started, and each post in order. */
  datatype History = History(failed: nat, ok: nat, retried: nat, starts: seq<int>, posts: seq<Post>)

  const NO_POSTS: History := History(0, 0, 0, [], [])

  function Extend(h: History, p: Post): History {
    var posts := h.posts + [p];
    if p.retry then History(h.failed, h.ok, if p.ok then h.retried + 1 else h.retried, h.starts, posts)
    else if p.ok then History(h.failed, h.ok + 1, h.retried, h.starts + [p.started], posts)
    else History(h.failed + 1, h.ok, h.retried, h.starts + [p.started], posts)
  }

  /** One more post of a row. */
  function Record(history: map<Ulid, History>, u: Ulid, p: Post): map<Ulid, History> {
    history[u := Extend(if u in history then history[u] else NO_POSTS, p)]
  }

  /** `used`: every ulid ever enqueued. `todo`: rows selected and not yet posted. `history`: the posts made of each
      row; a message sent directly is enqueued with its successful post behind it. `received`: the conversation of
      every envelope that may answer one, in order. */
  datatype Queue = Queue(
    table: Table,
    used: set<Ulid>,
    todo: seq<Pick>,
    history: map<Ulid, History>,
    received: seq<string>,
    clock: int)

  datatype Event =
    | Enqueue(ulid: Ulid, conv: Option<string>, now: int, alreadySent: bool, checkAfter: Option<int>)
    | BeginTick(now: int, first: seq<Ulid>, retries: seq<Ulid>)
    | FinishPost(started: int, done: int, ok: bool)
    | AckArrives(ulid: Ulid, status: string, conv: Option<string>, now: int, pick: Option<Ulid>)
    | ReplyArrives(answered: string, now: int, pick: Option<Ulid>)
    | SweepTimeouts(now: int)

  function NewQueue(clock: int): Queue {
    Queue(map[], {}, [], map[], [], clock)
  }

  ghost predicate Distinct<T>(s: seq<T>) {
    forall i, j :: 0 <= i < j < |s| ==> s[i] != s[j]
  }

  ghost predicate ValidPick(t: Table, conv: string, pick: Option<Ulid>) {
    if pick.Some? then LatestUnanswered(t, conv, pick.value) else NoneUnanswered(t, conv)
  }

  ghost predicate Enabled(q: Queue, e: Event) {
    match e
    case Enqueue(u, _, now, _, _) => u !in q.used && q.clock <= now
    case BeginTick(now, first, retries) =>
      var t := Housekeep(q.table, now);
      && q.todo == [] && q.clock <= now
      && |first| <= BATCH && |retries| <= BATCH && Distinct(first) && Distinct(retries)
      && (forall u :: u in first ==> u in t && DueFirst(t[u], now))
      && (forall u :: u in retries ==> u in t && DueRetry(t[u], now))
    case FinishPost(started, done, _) => q.todo != [] && q.clock <= started <= done
    case AckArrives(u, status, conv, now, pick) =>
      && q.clock <= now && u != ""
      && (if AckAnswers(status, conv) then ValidPick(q.table, conv.value, pick) else pick.None?)
    case ReplyArrives(conv, now, pick) => q.clock <= now && conv != "" && ValidPick(q.table, conv, pick)
    case SweepTimeouts(now) => q.clock <= now
  }

  function Picks(t: Table, us: seq<Ulid>, retry: bool): seq<Pick>
    requires forall u :: u in us ==> u in t
  {
    seq(|us|, i requires 0 <= i < |us| => assert us[i] in us; Pick(us[i], retry, t[us[i]].attempts))
  }

  /** An unanswered row is overdue after `checkAfter`: five minutes on for a message sent from the interface, never
      for one that a trigger enqueues. */
  function NewRow(conv: Option<string>, now: int, alreadySent: bool, checkAfter: Option<int>): Row {
    Row(conv, 0, None, NoNote, now, if alreadySent then Some(now) else None, None, "", None, Unanswered,
        checkAfter)
  }

  function Apply(q: Queue, e: Event): Queue
    requires Enabled(q, e)
  {
    match e
    case Enqueue(u, conv, now, alreadySent, checkAfter) =>
      q.(table := q.table[u := NewRow(conv, now, alreadySent, checkAfter)],
         used := q.used + {u},
         history := if alreadySent then Record(q.history, u, Post(false, now, now, true)) else q.history,
         clock := now)
    case BeginTick(now, first, retries) =>
      var t := Housekeep(q.table, now);
      q.(table := t, todo := Picks(t, first, false) + Picks(t, retries, true), clock := now)
    case FinishPost(started, done, ok) =>
      var p := q.todo[0];
      q.(table := if p.ulid in q.table
                  then q.table[p.ulid := AfterPost(q.table[p.ulid], p.retry, p.attempts, ok, done)] else q.table,
         todo := q.todo[1..],
         history := Record(q.history, p.ulid, Post(p.retry, started, done, ok)),
         clock := done)
    case AckArrives(u, status, conv, now, pick) =>
      q.(table := Flip(Acknowledge(q.table, u, status, now), pick, now),
         received := if AckAnswers(status, conv) then q.received + [conv.value] else q.received,
         clock := now)
    case ReplyArrives(conv, now, pick) =>
      q.(table := Flip(q.table, pick, now), received := q.received + [conv], clock := now)
    case SweepTimeouts(now) => q.(table := Sweep(q.table, now), clock := now)
  }

  ghost predicate Reaches(q: Queue, es: seq<Event>, z: Queue)
    decreases |es|
  {
    if es == [] then q == z else Enabled(q, es[0]) && Reaches(Apply(q, es[0]), es[1..], z)
  }

  lemma {:induction false} ReachesThenEvent(q: Queue, es: seq<Event>, z: Queue, e: Event)
    requires Reaches(q, es, z) && Enabled(z, e)
    ensures Reaches(q, es + [e], Apply(z, e))
    decreases |es|
  {
    if es == [] {
      assert [] + [e] == [e] && [e][1..] == [];
      assert Reaches(Apply(z, e), [], Apply(z, e));
    } else {
      assert (es + [e])[1..] == es[1..] + [e];
      ReachesThenEvent(Apply(q, es[0]), es[1..], z, e);
    }
  }

  lemma {:induction false} ReachesTrans(q: Queue, es: seq<Event>, y: Queue, fs: seq<Event>, z: Queue)
    requires Reaches(q, es, y) && Reaches(y, fs, z)
    ensures Reaches(q, es + fs, z)
    decreases |es|
  {
    if es == [] {
      assert es + fs == fs;
    } else {
      assert (es + fs)[1..] == es[1..] + fs;
      ReachesTrans(Apply(q, es[0]), es[1..], y, fs, z);
    }
  }

  // ---------------------------------------------------------------- back-off arithmetic

  /** The least time, in seconds, that lies between the first post of a row and its post number `k`, from 0. */
  function Delay(k: nat): int {
    if k == 0 then 0 else Delay(k - 1) + BackoffSeconds(k - 1)
  }

  lemma Pow2UpTo8(k: nat)
    requires k <= 8
    ensures 1 <= Pow2(k) <= 256
  {
    Pow2Grows(0, k);
    Pow2Grows(k, 8);
    assert Pow2(4) == 16;
  }

  lemma {:induction false} Pow2Grows(a: nat, b: nat)
    requires a <= b
    ensures Pow2(a) <= Pow2(b)
  {
    if a < b {
      Pow2Grows(a, b - 1);
    }
  }

  /** The 300-second cap never binds: the exponent is capped first, and 2^8 is below it. */
  lemma CapNeverBinds(attempts: nat)
    ensures BackoffSeconds(attempts) == Pow2(Min(attempts, 8)) < 300
  {
    Pow2UpTo8(Min(attempts, 8));
  }

  /** Ten failures are 1 + 2 + ... + 256 + 256 seconds apart. */
  lemma ElevenPostsTake767Seconds()
    ensures Delay(10) == 767
  {
    assert Pow2(4) == 16;
    assert Pow2(8) == 256;
    assert Delay(4) == 15;
    assert Delay(7) == 127;
    assert Delay(9) == 511;
  }

  // ---------------------------------------------------------------- the invariant

  /** Post number `k`, from 0, starts at least `Delay(k)` seconds after the first. */
  ghost predicate LateEnough(starts: seq<int>, k: int) {
    0 <= k < |starts| ==> starts[k] - starts[0] >= Seconds(Delay(k))
  }

  ghost predicate Spaced(starts: seq<int>) {
    forall k :: LateEnough(starts, k)
  }

  lemma SpacedExtend(starts: seq<int>, start: int)
    requires Spaced(starts)
    requires starts != [] ==> start - starts[0] >= Seconds(Delay(|starts|))
    ensures Spaced(starts + [start])
  {
    forall k ensures LateEnough(starts + [start], k) {
      assert LateEnough(starts, k);
    }
  }

  /** What the history of one ulid allows, whatever became of its row. */
  ghost predicate Budget(h: History) {
    && h.failed <= 11 && h.ok <= 1
    && (h.retried > 0 ==> h.failed + h.retried <= 3)
    && |h.starts| == h.failed + h.ok
    && Spaced(h.starts)
  }

  /** A row counts its history, and one not yet sent waits out its back-off. */
  ghost predicate Counts(r: Row, h: History) {
    && r.attempts == h.failed + h.retried
    && (r.sent.None? ==>
          && h.ok == 0 && h.retried == 0
          && (r.attempts > 0 ==>
                r.nextRetry.Some? && h.starts != [] && r.nextRetry.value >= h.starts[0] + Seconds(Delay(r.attempts))))
  }

  ghost predicate HistoryOk(q: Queue, u: Ulid) {
    u in q.history ==> u in q.used && Budget(q.history[u])
  }

  ghost predicate RowOk(q: Queue, u: Ulid) {
    u in q.table ==> u in q.used && (if u in q.history then Counts(q.table[u], q.history[u]) else Untried(q.table[u]))
  }

  /** A row that was never posted. */
  predicate Untried(r: Row) {
    r.attempts == 0 && r.sent.None? && r.nextRetry.None?
  }

  /** A selected row still is what it was when selected. */
  ghost predicate PickFits(t: Table, clock: int, p: Pick) {
    && p.ulid in t && p.attempts == t[p.ulid].attempts
    && (if p.retry then t[p.ulid].sent.Some? && p.attempts < 3 else DueFirst(t[p.ulid], clock))
  }

  ghost predicate PickOk(q: Queue, i: int) {
    0 <= i < |q.todo| ==> PickFits(q.table, q.clock, q.todo[i])
  }

  ghost predicate PicksDiffer(q: Queue, i: int, j: int) {
    0 <= i < j < |q.todo| ==> q.todo[i].ulid != q.todo[j].ulid
  }

  ghost predicate Inv(q: Queue) {
    && (forall u :: HistoryOk(q, u))
    && (forall u :: RowOk(q, u))
    && (forall i :: PickOk(q, i))
    && (forall i, j :: PicksDiffer(q, i, j))
  }

  lemma NewQueueInv(clock: int)
    ensures Inv(NewQueue(clock))
  {
  }

  /** Events that leave every post-related column of the surviving rows alone. */
  ghost predicate SameTransport(t: Table, z: Table) {
    forall u :: u in z ==>
      && u in t && z[u].attempts == t[u].attempts && z[u].sent == t[u].sent && z[u].nextRetry == t[u].nextRetry
  }

  lemma SameTransportKeepsRows(q: Queue, z: Queue)
    requires Inv(q) && SameTransport(q.table, z.table)
    requires z.history == q.history && z.used == q.used
    ensures forall u :: HistoryOk(z, u) && RowOk(z, u)
  {
    forall u ensures HistoryOk(z, u) && RowOk(z, u) {
      assert HistoryOk(q, u) && RowOk(q, u);
    }
  }

  lemma SameTransportKeepsPicks(q: Queue, z: Queue)
    requires Inv(q) && SameTransport(q.table, z.table) && q.table.Keys == z.table.Keys
    requires z.todo == q.todo && q.clock <= z.clock
    ensures forall i :: PickOk(z, i)
    ensures forall i, j :: PicksDiffer(z, i, j)
  {
    forall i ensures PickOk(z, i) {
      assert PickOk(q, i);
    }
    forall i, j ensures PicksDiffer(z, i, j) {
      assert PicksDiffer(q, i, j);
    }
  }

  lemma QuietEventKeepsInv(q: Queue, e: Event)
    requires Inv(q) && Enabled(q, e) && (e.AckArrives? || e.ReplyArrives? || e.SweepTimeouts?)
    ensures Inv(Apply(q, e))
  {
    SameTransportKeepsRows(q, Apply(q, e));
    SameTransportKeepsPicks(q, Apply(q, e));
  }

  lemma BeginTickKeepsInv(q: Queue, now: int, first: seq<Ulid>, retries: seq<Ulid>)
    requires Inv(q) && Enabled(q, BeginTick(now, first, retries))
    ensures Inv(Apply(q, BeginTick(now, first, retries)))
  {
    SameTransportKeepsRows(q, Apply(q, BeginTick(now, first, retries)));
    PicksFit(Apply(q, BeginTick(now, first, retries)), first, retries);
  }

  /** The rows selected by the two paths are distinct: one path takes unsent rows, the other sent ones. */
  lemma PicksFit(z: Queue, first: seq<Ulid>, retries: seq<Ulid>)
    requires Distinct(first) && Distinct(retries)
    requires forall u :: u in first ==> u in z.table && DueFirst(z.table[u], z.clock)
    requires forall u :: u in retries ==> u in z.table && DueRetry(z.table[u], z.clock)
    requires z.todo == Picks(z.table, first, false) + Picks(z.table, retries, true)
    ensures forall i :: PickOk(z, i)
    ensures forall i, j :: PicksDiffer(z, i, j)
  {
    forall i ensures PickOk(z, i) {
      if 0 <= i < |first| {
        assert first[i] in first;
      } else if |first| <= i < |z.todo| {
        assert retries[i - |first|] in retries;
      }
    }
    forall i, j ensures PicksDiffer(z, i, j) {
      if 0 <= i < |first| <= j < |z.todo| {
        assert first[i] in first && retries[j - |first|] in retries;
      }
    }
  }

  lemma EnqueueKeepsRow(q: Queue, u: Ulid, conv: Option<string>, now: int, alreadySent: bool, checkAfter: Option<int>, v: Ulid)
    requires HistoryOk(q, v) && RowOk(q, v) && Enabled(q, Enqueue(u, conv, now, alreadySent, checkAfter))
    ensures var z := Apply(q, Enqueue(u, conv, now, alreadySent, checkAfter)); HistoryOk(z, v) && RowOk(z, v)
  {
    if v == u {
      FirstPostCounts(NewRow(conv, now, false, checkAfter), now, now, true);
    }
  }

  lemma EnqueueKeepsPick(q: Queue, u: Ulid, conv: Option<string>, now: int, alreadySent: bool, checkAfter: Option<int>, i: int)
    requires Inv(q) && Enabled(q, Enqueue(u, conv, now, alreadySent, checkAfter))
    ensures PickOk(Apply(q, Enqueue(u, conv, now, alreadySent, checkAfter)), i)
  {
    assert PickOk(q, i);
    if 0 <= i < |q.todo| {
      assert RowOk(q, q.todo[i].ulid);
    }
  }

  lemma EnqueueKeepsInv(q: Queue, u: Ulid, conv: Option<string>, now: int, alreadySent: bool, checkAfter: Option<int>)
    requires Inv(q) && Enabled(q, Enqueue(u, conv, now, alreadySent, checkAfter))
    ensures Inv(Apply(q, Enqueue(u, conv, now, alreadySent, checkAfter)))
  {
    var z := Apply(q, Enqueue(u, conv, now, alreadySent, checkAfter));
    forall v ensures HistoryOk(z, v) && RowOk(z, v) {
      assert HistoryOk(q, v) && RowOk(q, v);
      EnqueueKeepsRow(q, u, conv, now, alreadySent, checkAfter, v);
    }
    forall i ensures PickOk(z, i) {
      EnqueueKeepsPick(q, u, conv, now, alreadySent, checkAfter, i);
    }
    forall i, j ensures PicksDiffer(z, i, j) {
      assert PicksDiffer(q, i, j);
    }
  }

  /** The first post of a row. */
  lemma FirstPostCounts(r: Row, started: int, done: int, ok: bool)
    requires Untried(r) && started <= done
    ensures var h := Extend(NO_POSTS, Post(false, started, done, ok)); Budget(h) && Counts(AfterPost(r, false, r.attempts, ok, done), h)
  {
    assert Spaced([]);
    SpacedExtend([], started);
    assert [] + [started] == [started];
    assert Delay(1) == Delay(0) + BackoffSeconds(0);
  }

  /** One post, on a row and its history: a first post of a row that was due, or a retransmission of a row that
      was sent and tried less than three times. */
  lemma PostKeepsCounts(r: Row, h: History, retry: bool, started: int, done: int, ok: bool)
    requires Counts(r, h) && Budget(h) && started <= done
    requires if retry then r.sent.Some? && r.attempts < 3 else DueFirst(r, started)
    ensures var next := Extend(h, Post(retry, started, done, ok)); Budget(next) && Counts(AfterPost(r, retry, r.attempts, ok, done), next)
  {
    if !retry {
      SpacedExtend(h.starts, started);
      if !ok {
        assert Delay(r.attempts + 1) == Delay(r.attempts) + BackoffSeconds(r.attempts);
      }
    }
  }

  lemma FinishPostKeepsRow(q: Queue, started: int, done: int, ok: bool, v: Ulid)
    requires Inv(q) && Enabled(q, FinishPost(started, done, ok))
    ensures var z := Apply(q, FinishPost(started, done, ok)); HistoryOk(z, v) && RowOk(z, v)
  {
    var p := q.todo[0];
    assert PickOk(q, 0) && HistoryOk(q, v) && RowOk(q, v);
    if v == p.ulid {
      if v in q.history {
        PostKeepsCounts(q.table[v], q.history[v], p.retry, started, done, ok);
      } else {
        FirstPostCounts(q.table[v], started, done, ok);
      }
    }
  }

  lemma FinishPostKeepsInv(q: Queue, started: int, done: int, ok: bool)
    requires Inv(q) && Enabled(q, FinishPost(started, done, ok))
    ensures Inv(Apply(q, FinishPost(started, done, ok)))
  {
    var z := Apply(q, FinishPost(started, done, ok));
    forall v ensures HistoryOk(z, v) && RowOk(z, v) {
      FinishPostKeepsRow(q, started, done, ok, v);
    }
    forall i ensures PickOk(z, i) {
      assert PickOk(q, i + 1) && PicksDiffer(q, 0, i + 1);
    }
    forall i, j ensures PicksDiffer(z, i, j) {
      assert PicksDiffer(q, i + 1, j + 1);
    }
  }

  lemma EventKeepsInv(q: Queue, e: Event)
    requires Inv(q) && Enabled(q, e)
    ensures Inv(Apply(q, e))
  {
    match e {
      case Enqueue(u, conv, now, alreadySent, checkAfter) => EnqueueKeepsInv(q, u, conv, now, alreadySent, checkAfter);
      case BeginTick(now, first, retries) => BeginTickKeepsInv(q, now, first, retries);
      case FinishPost(started, done, ok) => FinishPostKeepsInv(q, started, done, ok);
      case _ => QuietEventKeepsInv(q, e);
    }
  }

  lemma {:induction false} RunKeepsInv(q: Queue, es: seq<Event>, z: Queue)
    requires Inv(q) && Reaches(q, es, z)
    ensures Inv(z)
    decreases |es|
  {
    if es != [] {
      EventKeepsInv(q, es[0]);
      RunKeepsInv(Apply(q, es[0]), es[1..], z);
    }
  }

  // ---------------------------------------------------------------- bounds over whole runs

  /** In every run a row has at most eleven failed first posts and at most four successful posts; failures of the
      first post use up the retransmissions, three in all. */
  lemma PostsAreBounded(clock: int, es: seq<Event>, q: Queue, u: Ulid)
    requires Reaches(NewQueue(clock), es, q) && u in q.history
    ensures var h := q.history[u];
      h.failed <= 11 && h.ok + h.retried <= 1 + Max(0, 3 - h.failed) <= 4
  {
    NewQueueInv(clock);
    RunKeepsInv(NewQueue(clock), es, q);
    assert HistoryOk(q, u);
  }

  /** In every run, post number `k` of a row starts at least `Delay(k)` seconds after its first; the eleventh at
      least 767 seconds after it. */
  lemma FirstPostsAreSpaced(clock: int, es: seq<Event>, q: Queue, u: Ulid, k: nat)
    requires Reaches(NewQueue(clock), es, q) && u in q.history && k < |q.history[u].starts|
    ensures var starts := q.history[u].starts;
      && starts[k] - starts[0] >= Seconds(Delay(k))
      && (k == 10 ==> starts[k] - starts[0] >= Seconds(767))
  {
    NewQueueInv(clock);
    RunKeepsInv(NewQueue(clock), es, q);
    assert HistoryOk(q, u);
    assert LateEnough(q.history[u].starts, k);
    ElevenPostsTake767Seconds();
  }

  /** A row leaves the table in one way only: at the start of a tick, when it is both sent and acknowledged and
      its last send is more than thirty days old; and then it always leaves. */
  lemma OnlyOldAcknowledgedRowsLeave(q: Queue, e: Event, u: Ulid)
    requires Enabled(q, e) && u in q.table
    ensures u !in Apply(q, e).table <==>
      e.BeginTick? && q.table[u].sent.Some? && q.table[u].acked.Some? && e.now - q.table[u].sent.value > 2_592_000_000_000_000
  {
  }

  /** A row that was sent and acknowledged, or archived, and is not selected at the moment. */
  ghost predicate Settled(q: Queue, u: Ulid) {
    && u in q.used
    && (u in q.table ==> q.table[u].sent.Some? && q.table[u].acked.Some?)
    && forall i :: 0 <= i < |q.todo| ==> q.todo[i].ulid != u
  }

  /** No post of the row was made in between. */
  predicate SamePosts(q: Queue, z: Queue, u: Ulid) {
    if u in q.history then u in z.history && z.history[u] == q.history[u] else u !in z.history
  }

  lemma TickKeepsSettled(q: Queue, now: int, first: seq<Ulid>, retries: seq<Ulid>, u: Ulid)
    requires Settled(q, u) && Enabled(q, BeginTick(now, first, retries))
    ensures Settled(Apply(q, BeginTick(now, first, retries)), u)
  {
    var todo := Apply(q, BeginTick(now, first, retries)).todo;
    forall i | 0 <= i < |todo| ensures todo[i].ulid != u {
      if i < |first| {
        assert first[i] in first;
      } else {
        assert retries[i - |first|] in retries;
      }
    }
  }

  lemma PostKeepsSettled(q: Queue, started: int, done: int, ok: bool, u: Ulid)
    requires Settled(q, u) && Enabled(q, FinishPost(started, done, ok))
    ensures var z := Apply(q, FinishPost(started, done, ok)); Settled(z, u) && SamePosts(q, z, u)
  {
    assert q.todo[0].ulid != u;
  }

  lemma EventKeepsSettled(q: Queue, e: Event, u: Ulid)
    requires Settled(q, u) && Enabled(q, e)
    ensures Settled(Apply(q, e), u) && SamePosts(q, Apply(q, e), u)
  {
    match e {
      case BeginTick(now, first, retries) => TickKeepsSettled(q, now, first, retries, u);
      case FinishPost(started, done, ok) => PostKeepsSettled(q, started, done, ok, u);
      case _ =>
    }
  }

  /** Once a sent message is acknowledged and no post of it is under way, it is never posted again. */
  lemma {:induction false} SettledStaysSilent(q: Queue, es: seq<Event>, z: Queue, u: Ulid)
    requires Settled(q, u) && Reaches(q, es, z)
    ensures Settled(z, u) && SamePosts(q, z, u)
    decreases |es|
  {
    if es != [] {
      EventKeepsSettled(q, es[0], u);
      SettledStaysSilent(Apply(q, es[0]), es[1..], z, u);
    }
  }

  /** An ACK alone does not settle a row: one that overtakes the record of a successful first post, because that
      post looked failed to the sender, leaves the row to be posted again when its back-off ends. */
  lemma AckDoesNotStopFirstPosts(q: Queue, u: Ulid, status: string, now: int, pick: Option<Ulid>)
    requires Enabled(q, AckArrives(u, status, None, now, pick)) && u in q.table
    ensures Apply(q, AckArrives(u, status, None, now, pick)).table[u].acked == Some(now)
    ensures forall later :: DueFirst(Apply(q, AckArrives(u, status, None, now, pick)).table[u], later)
                       <==> DueFirst(q.table[u], later)
  {
  }

  // ---------------------------------------------------------------- the worker

  /** The outcome of one post, and what the inbound side did to the table before it finished. */
  datatype PostResult = PostResult(meanwhile: seq<Event>, started: int, done: int, ok: bool)

  /** One tick up to its post number `n` as a sequence of events. */
  function TickEvents(now: int, first: seq<Ulid>, retries: seq<Ulid>, results: seq<PostResult>, n: nat): seq<Event>
    requires n <= |results|
  {
    if n == 0 then [BeginTick(now, first, retries)]
    else
      var r := results[n - 1];
      TickEvents(now, first, retries, results, n - 1) + r.meanwhile + [FinishPost(r.started, r.done, r.ok)]
  }

  ghost predicate OnlyInbound(es: seq<Event>) {
    forall i :: 0 <= i < |es| ==> es[i].Enqueue? || es[i].AckArrives? || es[i].ReplyArrives? || es[i].SweepTimeouts?
  }

  class Worker {
    var table: Table
    ghost var used: set<Ulid>
    ghost var todo: seq<Pick>
    ghost var history: map<Ulid, History>
    ghost var received: seq<string>
    ghost var clock: int

    ghost function State(): Queue
      reads this
    {
      Queue(table, used, todo, history, received, clock)
    }

    constructor (ghost clock: int)
      ensures State() == NewQueue(clock)
    {
      table := map[];
      used, todo, history, received, this.clock := {}, [], map[], [], clock;
    }

    /** Archiving and the two final marks. */
    method CleanUp(now: int)
      modifies this`table
      ensures table == Housekeep(old(table), now)
    {
      table := map u | u in table && !Archivable(table[u], now) :: table[u];
      table := MarkExhausted(table);
      table := MarkAckTimeout(table, now);
    }

    /** The statements a tick runs under one lock, then its two selections. */
    method BeginTickUnderLock(now: int, first: seq<Ulid>, retries: seq<Ulid>) returns (picks: seq<Pick>)
      requires Enabled(State(), BeginTick(now, first, retries))
      modifies this
      ensures State() == Apply(old(State()), BeginTick(now, first, retries)) && picks == todo
    {
      CleanUp(now);
      picks := Picks(table, first, false) + Picks(table, retries, true);
      todo, clock := picks, now;
    }

    /** The update that follows a post. */
    method RecordPost(p: Pick, started: int, done: int, ok: bool)
      requires todo != [] && p == todo[0] && clock <= started <= done
      modifies this
      ensures State() == Apply(old(State()), FinishPost(started, done, ok))
    {
      if p.ulid in table {
        var r := table[p.ulid];
        if ok {
          if p.retry {
            table := table[p.ulid := r.(attempts := r.attempts + 1, sent := Some(done), note := AckRetry(p.attempts + 1))];
          } else {
            table := table[p.ulid := r.(sent := Some(done), note := NoNote)];
          }
        } else if !p.retry {
          var backoff := Min(300, Pow2(Min(p.attempts, 8)));
          table := table[p.ulid := r.(attempts := r.attempts + 1, nextRetry := Some(done + Seconds(backoff)), note := SendFailed)];
        }
      }
      todo, history, clock := todo[1..], Record(history, p.ulid, Post(p.retry, started, done, ok)), done;
    }

    /** Everything the rest of the daemon does to the table between two of the worker's statements. */
    method LetOthersRun(ghost es: seq<Event>, z: Queue)
      requires Reaches(State(), es, z)
      modifies this
      ensures State() == z
    {
      table := z.table;
      used, todo, history, received, clock := z.used, z.todo, z.history, z.received, z.clock;
    }

    /** One drain tick, for every interference of the inbound side while its posts are in flight: `states[i]` is
        what it leaves before the outcome of post `i` is recorded. The tick is a run of the state machine. */
    method Drain(now: int, first: seq<Ulid>, retries: seq<Ulid>, results: seq<PostResult>, states: seq<Queue>)
      requires Enabled(State(), BeginTick(now, first, retries))
      requires |results| == |states| == |first| + |retries|
      requires Schedule(Apply(State(), BeginTick(now, first, retries)), results, states, 0)
      modifies this
      ensures Reaches(old(State()), TickEvents(now, first, retries, results, |results|), State())
      ensures todo == []
    {
      ghost var start := State();
      var rest := Begin(now, first, retries, results, states);
      for i := 0 to |results|
        invariant Schedule(State(), results, states, i)
        invariant todo == rest && |rest| == |results| - i
        invariant Reaches(start, TickEvents(now, first, retries, results, i), State())
      {
        FinishOne(start, now, first, retries, results, states, i, rest[0]);
        rest := rest[1..];
      }
    }

    method Begin(now: int, first: seq<Ulid>, retries: seq<Ulid>, ghost results: seq<PostResult>, ghost states: seq<Queue>)
      returns (picks: seq<Pick>)
      requires Enabled(State(), BeginTick(now, first, retries)) && |results| == |states|
      requires Schedule(Apply(State(), BeginTick(now, first, retries)), results, states, 0)
      modifies this
      ensures picks == todo && |picks| == |first| + |retries|
      ensures Schedule(State(), results, states, 0)
      ensures Reaches(old(State()), TickEvents(now, first, retries, results, 0), State())
    {
      TickBegins(State(), now, first, retries, results);
      picks := BeginTickUnderLock(now, first, retries);
    }

    /** One post in flight: the interference, then the record of the outcome. */
    method FinishOne(ghost start: Queue, ghost now: int, ghost first: seq<Ulid>, ghost retries: seq<Ulid>, results: seq<PostResult>,
                     states: seq<Queue>, i: nat, p: Pick)
      requires i < |results| == |states| && todo != [] && p == todo[0]
      requires Reaches(start, TickEvents(now, first, retries, results, i), State()) && Schedule(State(), results, states, i)
      modifies this
      ensures todo == old(todo)[1..]
      ensures Schedule(State(), results, states, i + 1)
      ensures Reaches(start, TickEvents(now, first, retries, results, i + 1), State())
    {
      OnePostMore(start, now, first, retries, State(), results, states, i);
      LetOthersRun(results[i].meanwhile, states[i]);
      RecordPost(p, results[i].started, results[i].done, results[i].ok);
    }
  }

  /** The environment's side of a tick from post `i` on: `states[i]` is where the inbound side brings the queue
      while post `i` is in flight. */
  ghost predicate Schedule(q: Queue, results: seq<PostResult>, states: seq<Queue>, i: nat)
    requires i <= |results| == |states|
    decreases |results| - i
  {
    i < |results| ==>
      && OnlyInbound(results[i].meanwhile) && Reaches(q, results[i].meanwhile, states[i])
      && Enabled(states[i], Finish(results[i]))
      && Schedule(Apply(states[i], Finish(results[i])), results, states, i + 1)
  }

  function Finish(r: PostResult): Event {
    FinishPost(r.started, r.done, r.ok)
  }

  lemma TickBegins(q: Queue, now: int, first: seq<Ulid>, retries: seq<Ulid>, results: seq<PostResult>)
    requires Enabled(q, BeginTick(now, first, retries))
    ensures Reaches(q, TickEvents(now, first, retries, results, 0), Apply(q, BeginTick(now, first, retries)))
  {
    assert [BeginTick(now, first, retries)][1..] == [];
    assert Reaches(Apply(q, BeginTick(now, first, retries)), [], Apply(q, BeginTick(now, first, retries)));
  }

  lemma {:induction false} TodoUntouched(q: Queue, es: seq<Event>, z: Queue)
    requires Reaches(q, es, z) && OnlyInbound(es)
    ensures z.todo == q.todo
    decreases |es|
  {
    if es != [] {
      TodoUntouched(Apply(q, es[0]), es[1..], z);
    }
  }

  /** Interference and one more post extend the run of a tick. */
  lemma OnePostMore(start: Queue, now: int, first: seq<Ulid>, retries: seq<Ulid>, q: Queue,
                    results: seq<PostResult>, states: seq<Queue>, i: nat)
    requires i < |results| == |states|
    requires Reaches(start, TickEvents(now, first, retries, results, i), q) && Schedule(q, results, states, i)
    ensures Reaches(q, results[i].meanwhile, states[i]) && Enabled(states[i], Finish(results[i]))
    ensures states[i].todo == q.todo
    ensures Schedule(Apply(states[i], Finish(results[i])), results, states, i + 1)
    ensures Reaches(start, TickEvents(now, first, retries, results, i + 1), Apply(states[i], Finish(results[i])))
  {
    var r := results[i];
    TodoUntouched(q, r.meanwhile, states[i]);
    ReachesTrans(start, TickEvents(now, first, retries, results, i), q, r.meanwhile, states[i]);
    ReachesThenEvent(start, TickEvents(now, first, retries, results, i) + r.meanwhile, states[i], Finish(r));
  }
}
