/** The application ACK of an outbound row: whether its conversation was answered. Rows are flipped by inbound
    envelopes of the same conversation and marked blocked by the timeout sweep. */
module AppAck {
  import opened Prelude
  import opened Outbound

  /** A row is processed exactly when it has an answer time, and no ulid is enqueued twice. */
  ghost predicate AppInv(q: Queue) {
    forall u :: u in q.table ==> u in q.used && (q.table[u].appAck.Some? <==> q.table[u].appStatus == Processed)
  }

  lemma EventKeepsAppInv(q: Queue, e: Event)
    requires AppInv(q) && Enabled(q, e)
    ensures AppInv(Apply(q, e))
  {
  }

  lemma {:induction false} RunKeepsAppInv(q: Queue, es: seq<Event>, z: Queue)
    requires AppInv(q) && Reaches(q, es, z)
    ensures AppInv(z)
    decreases |es|
  {
    if es != [] {
      EventKeepsAppInv(q, es[0]);
      RunKeepsAppInv(Apply(q, es[0]), es[1..], z);
    }
  }

  /** The conversation an event answers, if it is an envelope that answers one. */
  function Answers(e: Event): Option<string> {
    match e
    case AckArrives(_, status, conv, _, _) => if AckAnswers(status, conv) then conv else None
    case ReplyArrives(answered, _, _) => Some(answered)
    case _ => None
  }

  /** An envelope answers a conversation when it is a message of it, or an acknowledgement that names it and reports
      the message stored, shown to a terminal, or with an agent session. */
  lemma AnsweringEvents(e: Event, c: string)
    requires e.ReplyArrives? ==> e.answered != ""
    ensures Answers(e) == Some(c) <==>
      && c != ""
      && (|| (e.ReplyArrives? && e.answered == c)
          || (e.AckArrives? && e.conv == Some(c)
              && (e.status == "inbox_stored" || e.status == "tmux_injected" || e.status == "acp_delivered")))
  {
  }

  /** The exact effect of one event on the application ACK of a row that stays: unanswered becomes blocked exactly
      when the sweep finds it overdue; a row without an answer becomes processed exactly when the event is the
      envelope that picked it, and then it was the most recently enqueued unanswered row of the envelope's
      conversation; processed is final, with its time. */
  lemma AppStatusAdvances(q: Queue, e: Event, u: Ulid)
    requires AppInv(q) && Enabled(q, e) && u in q.table && u in Apply(q, e).table
    ensures var r, z := q.table[u], Apply(q, e).table[u];
      && z.conv == r.conv && z.enqueued == r.enqueued
      && (r.appStatus == Processed ==> z.appStatus == Processed && z.appAck == r.appAck)
      && (z.appStatus == Unanswered ==> r.appStatus == Unanswered)
      && (r.appStatus != Blocked && z.appStatus == Blocked <==>
            e.SweepTimeouts? && r.appStatus == Unanswered && r.checkAfter.Some? && r.checkAfter.value < e.now)
      && (r.appStatus != Processed && z.appStatus == Processed <==> Answers(e).Some? && e.pick == Some(u))
      && (r.appStatus != Processed && z.appStatus == Processed ==>
            z.appAck == Some(e.now) && LatestUnanswered(q.table, Answers(e).value, u))
  {
    if e.AckArrives? || e.ReplyArrives? {
      if e.pick == Some(u) {
        assert q.table[u].appAck.None?;
      }
    }
  }

  /** The rows of one table processed after an answer are those before it and the row picked. */
  lemma FlippedRows(q: Queue, e: Event, conv: string)
    requires AppInv(q) && Enabled(q, e) && Answers(e).Some?
    ensures ProcessedRows(Apply(q, e).table, conv)
         == ProcessedRows(q.table, conv) + (if e.pick.Some? && Answers(e).value == conv then {e.pick.value} else {})
  {
    var z := Apply(q, e).table;
    forall u | u in z ensures z[u].conv == q.table[u].conv
      ensures z[u].appStatus == Processed <==> q.table[u].appStatus == Processed || e.pick == Some(u)
    {
      AppStatusAdvances(q, e, u);
    }
  }

  /** An envelope that finds its conversation without an unanswered row changes no application ACK; one that
      finds any picks exactly one row. */
  lemma EnvelopeFlipsOneRow(q: Queue, e: Event)
    requires AppInv(q) && Enabled(q, e) && Answers(e).Some?
    ensures var z, c := Apply(q, e).table, Answers(e).value;
      && (e.pick.None? <==> NoneUnanswered(q.table, c))
      && |ProcessedRows(z, c)| == |ProcessedRows(q.table, c)| + (if e.pick.Some? then 1 else 0)
      && forall d :: d != c ==> ProcessedRows(z, d) == ProcessedRows(q.table, d)
  {
    var c := Answers(e).value;
    FlippedRows(q, e, c);
    if e.pick.Some? {
      assert LatestUnanswered(q.table, c, e.pick.value);
      assert e.pick.value !in ProcessedRows(q.table, c);
    }
    forall d | d != c ensures ProcessedRows(Apply(q, e).table, d) == ProcessedRows(q.table, d) {
      FlippedRows(q, e, d);
    }
  }

  function ProcessedRows(t: Table, conv: string): set<Ulid> {
    set u | u in t && t[u].conv == Some(conv) && t[u].appStatus == Processed
  }

  function EnvelopesFor(received: seq<string>, conv: string): nat {
    if received == [] then 0
    else EnvelopesFor(received[..|received| - 1], conv) + (if received[|received| - 1] == conv then 1 else 0)
  }

  /** Events that are no answers add no processed row. */
  lemma OtherEventsAddNone(q: Queue, e: Event, conv: string)
    requires AppInv(q) && Enabled(q, e) && Answers(e).None?
    ensures ProcessedRows(Apply(q, e).table, conv) <= ProcessedRows(q.table, conv)
    ensures Apply(q, e).received == q.received
  {
    var z := Apply(q, e).table;
    forall u | u in ProcessedRows(z, conv) ensures u in ProcessedRows(q.table, conv) {
      if u in q.table && !(e.Enqueue? && e.ulid == u) {
        AppStatusAdvances(q, e, u);
      }
    }
  }

  lemma SmallerSet<T>(a: set<T>, b: set<T>)
    requires a <= b
    ensures |a| <= |b|
  {
    assert b == a + (b - a);
  }

  lemma EventKeepsBound(q: Queue, e: Event, conv: string)
    requires AppInv(q) && Enabled(q, e)
    requires |ProcessedRows(q.table, conv)| <= EnvelopesFor(q.received, conv)
    ensures |ProcessedRows(Apply(q, e).table, conv)| <= EnvelopesFor(Apply(q, e).received, conv)
  {
    if Answers(e).Some? {
      EnvelopeFlipsOneRow(q, e);
      assert (q.received + [Answers(e).value])[..|q.received|] == q.received;
    } else {
      OtherEventsAddNone(q, e, conv);
      SmallerSet(ProcessedRows(Apply(q, e).table, conv), ProcessedRows(q.table, conv));
    }
  }

  lemma {:induction false} RunKeepsBound(q: Queue, es: seq<Event>, z: Queue, conv: string)
    requires AppInv(q) && Reaches(q, es, z)
    requires |ProcessedRows(q.table, conv)| <= EnvelopesFor(q.received, conv)
    ensures |ProcessedRows(z.table, conv)| <= EnvelopesFor(z.received, conv)
    decreases |es|
  {
    if es != [] {
      EventKeepsAppInv(q, es[0]);
      EventKeepsBound(q, es[0], conv);
      RunKeepsBound(Apply(q, es[0]), es[1..], z, conv);
    }
  }

  /** In every run the processed rows of a conversation are at most the envelopes received for it. */
  lemma ProcessedNeedEnvelopes(clock: int, es: seq<Event>, q: Queue, conv: string)
    requires Reaches(NewQueue(clock), es, q)
    ensures AppInv(q)
    ensures |ProcessedRows(q.table, conv)| <= EnvelopesFor(q.received, conv)
  {
    RunKeepsAppInv(NewQueue(clock), es, q);
    RunKeepsBound(NewQueue(clock), es, q, conv);
  }

  function PlacesOf(received: seq<string>, conv: string): set<nat> {
    set i: nat | i < |received| && received[i] == conv
  }

  /** The envelopes of a conversation are counted once each. */
  lemma {:induction false} EnvelopesAreCounted(received: seq<string>, conv: string)
    ensures EnvelopesFor(received, conv) == |PlacesOf(received, conv)|
  {
    if received == [] {
      assert PlacesOf(received, conv) == {};
    } else {
      var n := |received| - 1;
      EnvelopesAreCounted(received[..n], conv);
      assert PlacesOf(received, conv) == PlacesOf(received[..n], conv) + if received[n] == conv then {n} else {};
    }
  }
}
