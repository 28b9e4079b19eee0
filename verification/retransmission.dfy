/** When the outbound queue posts a row: the exact times at which a first post is repeated and at which a sent
    message is retransmitted, over every run, read off the posts made of the row. */
module Retransmission {
  import opened Prelude
  import opened Outbound

  /** When the last successful post ended, if there was one. */
  function LastSent(posts: seq<Post>): Option<int> {
    if posts == [] then None
    else
      var p := posts[|posts| - 1];
      if p.ok then Some(p.done) else LastSent(posts[..|posts| - 1])
  }

  /** The failed first posts and the successful retransmissions. */
  function Tries(posts: seq<Post>): nat {
    if posts == [] then 0
    else
      var p := posts[|posts| - 1];
      Tries(posts[..|posts| - 1]) + if p.retry == p.ok then 1 else 0
  }

  /** How long a message stays without an acknowledgement before it is sent again, in nanoseconds. */
  predicate LongEnough(tries: nat, silence: int) {
    || (tries == 0 && silence >= 30_000_000_000)
    || (tries == 1 && silence >= 300_000_000_000)
    || (tries == 2 && silence >= 1_800_000_000_000)
  }

  /** How long a row waits after its failed first post number `failed`, in nanoseconds: 1, 2, 4 and so on seconds, and
      256 from the ninth on. */
  function Wait(failed: nat): int {
    if failed <= 1 then 1_000_000_000 else if failed >= 9 then 256_000_000_000 else 2 * Wait(failed - 1)
  }

  lemma {:induction false} WaitIsBackoff(failed: nat)
    requires failed > 0
    ensures Wait(failed) == Seconds(BackoffSeconds(failed - 1))
  {
    CapNeverBinds(failed - 1);
    if 1 < failed < 9 {
      WaitIsBackoff(failed - 1);
      CapNeverBinds(failed - 2);
    } else if failed >= 9 {
      assert Pow2(4) == 16;
      assert Pow2(8) == 256;
    }
  }

  // ---------------------------------------------------------------- the invariant

  /** Post `j`, if it is a retransmission, came long enough after the last successful post before it. */
  predicate Waited(posts: seq<Post>, j: nat)
    requires j < |posts|
  {
    posts[j].retry ==>
      LastSent(posts[..j]).Some? && LongEnough(Tries(posts[..j]), posts[j].started - LastSent(posts[..j]).value)
  }

  ghost predicate AllWaited(posts: seq<Post>) {
    forall j :: 0 <= j < |posts| ==> Waited(posts, j)
  }

  /** The row shows what its posts did to it. */
  ghost predicate Shows(r: Row, posts: seq<Post>) {
    && r.sent == LastSent(posts) && r.attempts == Tries(posts)
    && (r.note == AckTimeoutMax ==> r.attempts >= 3)
    && (r.sent.None? && r.attempts == 0 ==> r.nextRetry.None?)
    && (r.sent.None? && r.attempts > 0 ==>
          posts != [] && r.nextRetry == Some(posts[|posts| - 1].done + Seconds(BackoffSeconds(r.attempts - 1))))
  }

  function PostsOf(q: Queue, u: Ulid): seq<Post> {
    if u in q.history then q.history[u].posts else []
  }

  ghost predicate Tracked(q: Queue, u: Ulid) {
    && (u !in q.used ==> u !in q.table && u !in q.history)
    && AllWaited(PostsOf(q, u))
    && (u in q.table ==> Shows(q.table[u], PostsOf(q, u)))
  }

  /** A row selected for retransmission was due, and still is as it was. */
  ghost predicate RetryDue(t: Table, clock: int, p: Pick) {
    p.retry && p.ulid in t ==>
      t[p.ulid].sent.Some? && LongEnough(t[p.ulid].attempts, clock - t[p.ulid].sent.value)
  }

  ghost predicate PickDue(q: Queue, i: int) {
    0 <= i < |q.todo| ==> RetryDue(q.table, q.clock, q.todo[i])
  }

  ghost predicate TimesOk(q: Queue) {
    && Inv(q)
    && (forall u :: Tracked(q, u))
    && (forall i :: PickDue(q, i))
  }

  lemma StillLongEnough(tries: nat, silence: int, more: int)
    requires LongEnough(tries, silence) && silence <= more
    ensures LongEnough(tries, more)
  {
  }

  lemma DueIsLongEnough(r: Row, now: int)
    ensures DueRetry(r, now) <==>
      r.sent.Some? && r.acked.None? && r.note != AckTimeoutMax && LongEnough(r.attempts, now - r.sent.value)
  {
  }

  lemma PostsExtend(posts: seq<Post>, p: Post)
    requires AllWaited(posts)
    requires p.retry ==> LastSent(posts).Some? && LongEnough(Tries(posts), p.started - LastSent(posts).value)
    ensures AllWaited(posts + [p])
    ensures LastSent(posts + [p]) == if p.ok then Some(p.done) else LastSent(posts)
    ensures Tries(posts + [p]) == Tries(posts) + if p.retry == p.ok then 1 else 0
  {
    var more := posts + [p];
    assert more[..|posts|] == posts;
    forall j | 0 <= j < |more| ensures Waited(more, j) {
      if j < |posts| {
        assert more[..j] == posts[..j];
        assert Waited(posts, j);
      }
    }
  }

  // ---------------------------------------------------------------- every event keeps it

  lemma TickKeepsTracked(q: Queue, e: Event, u: Ulid)
    requires TimesOk(q) && Enabled(q, e) && e.BeginTick?
    ensures Tracked(Apply(q, e), u)
  {
    assert Tracked(q, u);
  }

  /** The columns that inbound envelopes and the sweep leave alone. */
  predicate SameSending(r: Row, z: Row) {
    z.sent == r.sent && z.attempts == r.attempts && z.note == r.note && z.nextRetry == r.nextRetry
  }

  lemma InboundKeepsSending(q: Queue, e: Event, u: Ulid)
    requires Enabled(q, e) && (e.AckArrives? || e.ReplyArrives? || e.SweepTimeouts?)
    ensures u in Apply(q, e).table <==> u in q.table
    ensures u in q.table ==> SameSending(q.table[u], Apply(q, e).table[u])
    ensures Apply(q, e).history == q.history && Apply(q, e).used == q.used && Apply(q, e).todo == q.todo
  {
  }

  lemma InboundKeepsTracked(q: Queue, e: Event, u: Ulid)
    requires TimesOk(q) && Enabled(q, e) && (e.AckArrives? || e.ReplyArrives? || e.SweepTimeouts?)
    ensures Tracked(Apply(q, e), u)
  {
    assert Tracked(q, u);
    InboundKeepsSending(q, e, u);
  }

  lemma InboundKeepsPicks(q: Queue, e: Event, i: int)
    requires TimesOk(q) && Enabled(q, e) && (e.AckArrives? || e.ReplyArrives? || e.SweepTimeouts?)
    ensures PickDue(Apply(q, e), i)
  {
    assert PickDue(q, i);
    if 0 <= i < |q.todo| && q.todo[i].retry && q.todo[i].ulid in q.table {
      InboundKeepsSending(q, e, q.todo[i].ulid);
      var r := q.table[q.todo[i].ulid];
      StillLongEnough(r.attempts, q.clock - r.sent.value, e.now - r.sent.value);
    }
  }

  lemma TickSelectsDue(q: Queue, now: int, first: seq<Ulid>, retries: seq<Ulid>, i: int)
    requires Enabled(q, BeginTick(now, first, retries))
    ensures PickDue(Apply(q, BeginTick(now, first, retries)), i)
  {
    var z := Apply(q, BeginTick(now, first, retries));
    if 0 <= i < |z.todo| && z.todo[i].retry {
      assert retries[i - |first|] in retries;
      DueIsLongEnough(z.table[z.todo[i].ulid], now);
    }
  }

  lemma EnqueueKeepsTracked(q: Queue, e: Event, u: Ulid)
    requires TimesOk(q) && Enabled(q, e) && e.Enqueue?
    ensures Tracked(Apply(q, e), u)
  {
    assert Tracked(q, u);
    if u == e.ulid {
      PostsExtend([], Post(false, e.now, e.now, true));
      assert [] + [Post(false, e.now, e.now, true)] == [Post(false, e.now, e.now, true)];
    }
  }

  lemma EnqueueKeepsPicks(q: Queue, e: Event, i: int)
    requires TimesOk(q) && Enabled(q, e) && e.Enqueue?
    ensures PickDue(Apply(q, e), i)
  {
    assert PickDue(q, i) && PickOk(q, i);
    if 0 <= i < |q.todo| {
      assert Tracked(q, q.todo[i].ulid);
      if q.todo[i].retry {
        var r := q.table[q.todo[i].ulid];
        StillLongEnough(r.attempts, q.clock - r.sent.value, e.now - r.sent.value);
      }
    }
  }

  lemma PostKeepsShows(r: Row, posts: seq<Post>, p: Post)
    requires Shows(r, posts) && AllWaited(posts)
    requires p.retry ==> r.sent.Some? && LongEnough(r.attempts, p.started - r.sent.value)
    requires !p.retry ==> r.sent.None?
    ensures Shows(AfterPost(r, p.retry, r.attempts, p.ok, p.done), posts + [p]) && AllWaited(posts + [p])
  {
    PostsExtend(posts, p);
  }

  lemma FinishKeepsTracked(q: Queue, e: Event, u: Ulid)
    requires TimesOk(q) && Enabled(q, e) && e.FinishPost?
    ensures Tracked(Apply(q, e), u)
  {
    var p := q.todo[0];
    assert Tracked(q, u) && PickOk(q, 0) && PickDue(q, 0);
    if u == p.ulid {
      var r := q.table[u];
      if p.retry {
        StillLongEnough(r.attempts, q.clock - r.sent.value, e.started - r.sent.value);
      }
      PostKeepsShows(r, PostsOf(q, u), Post(p.retry, e.started, e.done, e.ok));
      assert RowOk(q, u);
    }
  }

  lemma FinishKeepsPicks(q: Queue, e: Event, i: int)
    requires TimesOk(q) && Enabled(q, e) && e.FinishPost?
    ensures PickDue(Apply(q, e), i)
  {
    assert PickDue(q, i + 1) && PicksDiffer(q, 0, i + 1);
    if 0 <= i < |q.todo| - 1 && q.todo[i + 1].retry && q.todo[i + 1].ulid in q.table {
      var r := q.table[q.todo[i + 1].ulid];
      StillLongEnough(r.attempts, q.clock - r.sent.value, e.done - r.sent.value);
    }
  }

  lemma EventKeepsTimes(q: Queue, e: Event)
    requires TimesOk(q) && Enabled(q, e)
    ensures TimesOk(Apply(q, e))
  {
    EventKeepsInv(q, e);
    forall u ensures Tracked(Apply(q, e), u) {
      match e {
        case Enqueue(_, _, _, _, _) => EnqueueKeepsTracked(q, e, u);
        case FinishPost(_, _, _) => FinishKeepsTracked(q, e, u);
        case BeginTick(_, _, _) => TickKeepsTracked(q, e, u);
        case _ => InboundKeepsTracked(q, e, u);
      }
    }
    forall i ensures PickDue(Apply(q, e), i) {
      match e {
        case Enqueue(_, _, _, _, _) => EnqueueKeepsPicks(q, e, i);
        case FinishPost(_, _, _) => FinishKeepsPicks(q, e, i);
        case BeginTick(now, first, retries) => TickSelectsDue(q, now, first, retries, i);
        case _ => InboundKeepsPicks(q, e, i);
      }
    }
  }

  lemma {:induction false} RunKeepsTimes(q: Queue, es: seq<Event>, z: Queue)
    requires TimesOk(q) && Reaches(q, es, z)
    ensures TimesOk(z)
    decreases |es|
  {
    if es != [] {
      EventKeepsTimes(q, es[0]);
      RunKeepsTimes(Apply(q, es[0]), es[1..], z);
    }
  }

  lemma ReachableTimes(clock: int, es: seq<Event>, q: Queue)
    requires Reaches(NewQueue(clock), es, q)
    ensures TimesOk(q)
  {
    NewQueueInv(clock);
    RunKeepsTimes(NewQueue(clock), es, q);
  }

  // ---------------------------------------------------------------- when a row is posted

  /** In every run a retransmission starts at least 30 seconds, 5 minutes or 30 minutes after the end of the last
      successful post of its row, when the failed first posts and successful retransmissions before it are none, one
      or two; and there is none after more. */
  lemma RetransmissionsWait(clock: int, es: seq<Event>, q: Queue, u: Ulid, j: nat)
    requires Reaches(NewQueue(clock), es, q) && u in q.history && j < |q.history[u].posts| && q.history[u].posts[j].retry
    ensures var posts := q.history[u].posts; var sent := LastSent(posts[..j]);
      && sent.Some? && Tries(posts[..j]) <= 2
      && (Tries(posts[..j]) == 0 ==> posts[j].started >= sent.value + 30_000_000_000)
      && (Tries(posts[..j]) == 1 ==> posts[j].started >= sent.value + 300_000_000_000)
      && (Tries(posts[..j]) == 2 ==> posts[j].started >= sent.value + 1_800_000_000_000)
  {
    ReachableTimes(clock, es, q);
    assert Tracked(q, u);
    assert Waited(q.history[u].posts, j);
  }

  /** Selecting one row needs only that the row, after the clean-up, is due. */
  lemma OneSelected(q: Queue, now: int, u: Ulid)
    requires q.todo == [] && q.clock <= now
    ensures Enabled(q, BeginTick(now, [u], [])) <==> u in Housekeep(q.table, now) && DueFirst(Housekeep(q.table, now)[u], now)
    ensures Enabled(q, BeginTick(now, [], [u])) <==> u in Housekeep(q.table, now) && DueRetry(Housekeep(q.table, now)[u], now)
  {
    assert u in [u];
  }

  /** The clean-up of a tick decides nothing about a row that is not archived, below the final mark. */
  lemma CleanUpKeepsDue(t: Table, now: int, u: Ulid)
    ensures u in Housekeep(t, now) <==> u in t && !Archivable(t[u], now)
    ensures u in Housekeep(t, now) ==>
      (DueFirst(Housekeep(t, now)[u], now) <==> DueFirst(t[u], now)) && (DueRetry(Housekeep(t, now)[u], now) <==> DueRetry(t[u], now))
  {
  }

  /** In every run, between two ticks: a row can be retransmitted exactly when it was sent, is not acknowledged, and
      has been silent for 30 seconds, 5 minutes or 30 minutes since, for no, one or two tries. */
  lemma RetransmittedWhen(clock: int, es: seq<Event>, q: Queue, u: Ulid, now: int)
    requires Reaches(NewQueue(clock), es, q) && q.todo == [] && q.clock <= now
    ensures Enabled(q, BeginTick(now, [], [u])) <==>
      && u in q.table && LastSent(PostsOf(q, u)).Some? && q.table[u].acked.None?
      && LongEnough(Tries(PostsOf(q, u)), now - LastSent(PostsOf(q, u)).value)
  {
    ReachableTimes(clock, es, q);
    assert Tracked(q, u);
    OneSelected(q, now, u);
    CleanUpKeepsDue(q.table, now, u);
    if u in q.table {
      DueIsLongEnough(q.table[u], now);
    }
  }

  /** In every run, between two ticks: a row can have a first post exactly when it was never sent, has failed at most
      ten times, and has waited since its last failure 1, 2, 4 and so on seconds, at most 256. An acknowledgement
      does not matter. */
  lemma FirstPostWhen(clock: int, es: seq<Event>, q: Queue, u: Ulid, now: int)
    requires Reaches(NewQueue(clock), es, q) && q.todo == [] && q.clock <= now
    ensures var posts := PostsOf(q, u);
      Enabled(q, BeginTick(now, [u], [])) <==>
        && u in q.table && LastSent(posts) == None && Tries(posts) <= 10
        && (posts != [] ==> now >= posts[|posts| - 1].done + Wait(Tries(posts)))
  {
    ReachableTimes(clock, es, q);
    assert Tracked(q, u);
    var posts := PostsOf(q, u);
    OneSelected(q, now, u);
    CleanUpKeepsDue(q.table, now, u);
    if u in q.table && LastSent(posts) == None {
      UnsentPosts(posts);
      if q.table[u].attempts > 0 {
        WaitIsBackoff(q.table[u].attempts);
      }
    }
  }

  lemma {:induction false} UnsentPosts(posts: seq<Post>)
    requires AllWaited(posts) && LastSent(posts) == None
    ensures Tries(posts) == |posts|
  {
    if posts != [] {
      var n := |posts| - 1;
      assert Waited(posts, n);
      forall j | 0 <= j < n ensures Waited(posts[..n], j) {
        assert posts[..n][..j] == posts[..j];
        assert Waited(posts, j);
      }
      UnsentPosts(posts[..n]);
    }
  }

  /** What the clean-up of a tick writes: an unsent row with more than ten failures and a note is marked as given up,
      and a sent one that after three tries stayed unacknowledged for more than thirty minutes as timed out. The
      other notes stay, and so does everything else of a row that stays. */
  lemma TickMarks(q: Queue, now: int, first: seq<Ulid>, retries: seq<Ulid>, u: Ulid)
    requires Enabled(q, BeginTick(now, first, retries)) && u in Apply(q, BeginTick(now, first, retries)).table
    ensures var z := Apply(q, BeginTick(now, first, retries)).table[u];
      && u in q.table && z.(note := q.table[u].note) == q.table[u]
      && z.note ==
           (if z.sent == None && z.attempts >= 11 && q.table[u].note != NoNote then MaxRetriesExceeded
            else if z.sent.Some? && z.acked == None && z.attempts > 2 && now - z.sent.value > 1_800_000_000_000 then AckTimeoutMax
            else q.table[u].note)
  {
  }

  /** A tick takes at most twenty first posts and twenty retransmissions, and any that are due. */
  lemma TickTakes(q: Queue, now: int, first: seq<Ulid>, retries: seq<Ulid>)
    requires q.todo == [] && q.clock <= now && Distinct(first) && Distinct(retries)
    requires forall u :: u in first ==> Enabled(q, BeginTick(now, [u], []))
    requires forall u :: u in retries ==> Enabled(q, BeginTick(now, [], [u]))
    ensures Enabled(q, BeginTick(now, first, retries)) <==> |first| <= 20 && |retries| <= 20
  {
    forall u | u in first ensures u in Housekeep(q.table, now) && DueFirst(Housekeep(q.table, now)[u], now) {
      OneSelected(q, now, u);
    }
    forall u | u in retries ensures u in Housekeep(q.table, now) && DueRetry(Housekeep(q.table, now)[u], now) {
      OneSelected(q, now, u);
    }
  }

  /** What the end of a post writes into its row: a success the time it ended, and as a retransmission one try more;
      a failed first post one try more and the end of its back-off; a failed retransmission nothing. */
  lemma PostWrites(q: Queue, started: int, done: int, ok: bool)
    requires Enabled(q, FinishPost(started, done, ok)) && q.todo[0].ulid in q.table && q.todo[0].attempts == q.table[q.todo[0].ulid].attempts
    ensures var p := q.todo[0]; var r := q.table[p.ulid]; var z := Apply(q, FinishPost(started, done, ok)).table;
      && z.Keys == q.table.Keys && (forall u :: u in z && u != p.ulid ==> z[u] == q.table[u])
      && z[p.ulid].(attempts := r.attempts, nextRetry := r.nextRetry, sent := r.sent, note := r.note) == r
      && z[p.ulid].sent == (if ok then Some(done) else r.sent)
      && z[p.ulid].attempts == r.attempts + (if ok == p.retry then 1 else 0)
      && z[p.ulid].nextRetry == (if ok || p.retry then r.nextRetry else Some(done + Wait(r.attempts + 1)))
      && z[p.ulid].note ==
           (if ok then if p.retry then AckRetry(r.attempts + 1) else NoNote else if p.retry then r.note else SendFailed)
  {
    WaitIsBackoff(q.todo[0].attempts + 1);
  }

  /** A new row: nothing is known of it but its conversation and the time by which an answer is due, and it has been
      sent if it was sent directly. Every event leaves the clock at its own time. */
  lemma EnqueueWrites(q: Queue, u: Ulid, conv: Option<string>, now: int, alreadySent: bool, checkAfter: Option<int>)
    requires Enabled(q, Enqueue(u, conv, now, alreadySent, checkAfter))
    ensures var z := Apply(q, Enqueue(u, conv, now, alreadySent, checkAfter)).table;
      && z == q.table[u := z[u]]
      && z[u] == Row(conv, 0, None, NoNote, now, if alreadySent then Some(now) else None, None, "", None, Unanswered, checkAfter)
  {
  }

  function TimeOf(e: Event): int {
    if e.FinishPost? then e.done else e.now
  }

  lemma EventsSetClock(q: Queue, e: Event)
    requires Enabled(q, e)
    ensures q.clock <= TimeOf(e) == Apply(q, e).clock
  {
  }

  // ---------------------------------------------------------------- the transport acknowledgement

  lemma AckIsKept(q: Queue, e: Event, u: Ulid)
    requires Enabled(q, e) && u in q.used && (u in q.table ==> q.table[u].acked.Some?)
    ensures u in Apply(q, e).used && (u in Apply(q, e).table ==> Apply(q, e).table[u].acked.Some?)
  {
  }

  lemma {:induction false} AckIsKeptInRun(q: Queue, es: seq<Event>, z: Queue, u: Ulid)
    requires Reaches(q, es, z) && u in q.used && (u in q.table ==> q.table[u].acked.Some?)
    ensures u in z.table ==> z.table[u].acked.Some?
    decreases |es|
  {
    if es != [] {
      AckIsKept(q, es[0], u);
      AckIsKeptInRun(Apply(q, es[0]), es[1..], z, u);
    }
  }

  /** An acknowledgement is recorded with its status and time, on its own row only, and from then on, whatever
      happens, that row can never be selected for retransmission. */
  lemma AckEndsRetransmission(clock: int, es: seq<Event>, q: Queue, ack: Event, fs: seq<Event>, z: Queue, u: Ulid, now: int)
    requires Reaches(NewQueue(clock), es, q) && ack.AckArrives? && ack.ulid == u && Enabled(q, ack) && u in q.table
    requires Reaches(Apply(q, ack), fs, z)
    ensures Apply(q, ack).table[u].acked == Some(ack.now) && Apply(q, ack).table[u].ackStatus == ack.status
    ensures forall v :: v in q.table && v != u ==> v in Apply(q, ack).table && Apply(q, ack).table[v].acked == q.table[v].acked
    ensures !Enabled(z, BeginTick(now, [], [u]))
  {
    ReachableTimes(clock, es, q);
    assert Tracked(q, u);
    AckIsKeptInRun(Apply(q, ack), fs, z, u);
    if Enabled(z, BeginTick(now, [], [u])) {
      OneSelected(z, now, u);
      CleanUpKeepsDue(z.table, now, u);
    }
  }
}
