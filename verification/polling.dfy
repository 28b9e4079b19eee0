/** The agent's inbox poller: each session's messages in timestamp order, a watermark per session that is the text
    of the last handled timestamp, and a state file that a restarted agent goes back to. */
module Polling {
  import opened Prelude
  import opened Canonical
  import opened Timestamps

  /** Every timestamp is written at Korean standard time. */
  const KST: string := "+09:00"

  /** `text` is the timestamp as it is stored and compared. */
  datatype Message = Message(stamp: Stamp, text: string, body: string)

  predicate WellStamped(m: Message) {
    Valid(m.stamp) && m.text == Text(m.stamp, KST)
  }

  type Id = string

  /** `marks`: the watermarks in memory, `saved`: those in the state file. `handled`: every message handled, by
      session, in order. */
  datatype Agent = Agent(
    inbox: map<Id, seq<Message>>,
    marks: map<Id, string>,
    saved: map<Id, string>,
    handled: map<Id, seq<Message>>)

  /** Whether handling a message of a session succeeds; the first failure ends the poll. */
  type Oracle = (Id, Message) -> bool

  function MarkOf(marks: map<Id, string>, id: Id): string {
    if id in marks then marks[id] else ""
  }

  function ListOf(lists: map<Id, seq<Message>>, id: Id): seq<Message> {
    if id in lists then lists[id] else []
  }

  // ---------------------------------------------------------------- one poll

  predicate IsUnread(m: Message, mark: string) {
    mark == "" || Less(mark, m.text)
  }

  function Unread(list: seq<Message>, mark: string): seq<Message> {
    if list == [] then []
    else Unread(list[..|list| - 1], mark) + (if IsUnread(list[|list| - 1], mark) then [list[|list| - 1]] else [])
  }

  /** How many messages are handled before the first failure. */
  function UntilFailure(list: seq<Message>, id: Id, ok: Oracle): (n: nat)
    ensures n <= |list|
    ensures forall i :: 0 <= i < n ==> ok(id, list[i])
    ensures n < |list| ==> !ok(id, list[n])
  {
    if list == [] || !ok(id, list[0]) then 0 else 1 + UntilFailure(list[1..], id, ok)
  }

  /** The agent after polling sessions in order, and whether no message failed. */
  datatype Polled = Polled(agent: Agent, complete: bool)

  /** A session's poll whose first `n` new messages were handled. The watermark moves to the last message only when
      all were. */
  function AfterHandling(a: Agent, id: Id, unread: seq<Message>, n: nat): Polled
    requires n <= |unread|
  {
    var handled := a.handled[id := ListOf(a.handled, id) + unread[..n]];
    if n < |unread| then Polled(a.(handled := handled), false)
    else if n == 0 then Polled(a.(handled := handled), true)
    else Polled(a.(handled := handled, marks := a.marks[id := unread[n - 1].text]), true)
  }

  function PollSession(a: Agent, id: Id, ok: Oracle): Polled {
    var unread := Unread(ListOf(a.inbox, id), MarkOf(a.marks, id));
    AfterHandling(a, id, unread, UntilFailure(unread, id, ok))
  }

  function PollEach(a: Agent, order: seq<Id>, poll: (Agent, Id) -> Polled): Polled {
    if order == [] then Polled(a, true)
    else
      var before := PollEach(a, order[..|order| - 1], poll);
      if !before.complete then before else poll(before.agent, order[|order| - 1])
  }

  /** The sessions in order, until one fails. */
  function PollAll(a: Agent, order: seq<Id>, ok: Oracle): Polled {
    PollEach(a, order, (x: Agent, id: Id) => PollSession(x, id, ok))
  }

  predicate AnyUnread(a: Agent, order: seq<Id>) {
    exists i :: 0 <= i < |order| && Unread(ListOf(a.inbox, order[i]), MarkOf(a.marks, order[i])) != []
  }

  datatype Event =
    | Arrive(id: Id, m: Message)
    | Loop(order: seq<Id>, ok: Oracle, otherChanges: bool, saveSucceeds: bool)
    | Restart

  /** One turn of the main loop saves the state only when a poller that did not fail reports work. */
  function Step(a: Agent, e: Event): Agent {
    match e
    case Arrive(id, m) => a.(inbox := a.inbox[id := ListOf(a.inbox, id) + [m]])
    case Loop(order, ok, otherChanges, saveSucceeds) =>
      var p := PollAll(a, order, ok);
      var changed := otherChanges || (p.complete && AnyUnread(a, order));
      if changed && saveSucceeds then p.agent.(saved := p.agent.marks) else p.agent
    case Restart => a.(marks := a.saved)
  }

  function Run(a: Agent, es: seq<Event>): Agent {
    if es == [] then a else Step(Run(a, es[..|es| - 1]), es[|es| - 1])
  }

  /** An agent that has received, handled and saved nothing. */
  predicate IsNew(a: Agent) {
    a.inbox == map[] && a.marks == map[] && a.saved == map[] && a.handled == map[]
  }

  // ---------------------------------------------------------------- the poller

  datatype Progress = Progress(count: nat, complete: bool)

  /** The loop over one session's messages: how many were handled, whether none failed, and the last watermark. */
  method HandleUnread(list: seq<Message>, mark: string, id: Id, ok: Oracle) returns (done: Progress, last: string)
    ensures done.count == UntilFailure(Unread(list, mark), id, ok)
    ensures done.complete <==> done.count == |Unread(list, mark)|
    ensures last == if done.count == 0 then mark else Unread(list, mark)[done.count - 1].text
  {
    last := mark;
    var count := 0;
    ghost var seen: seq<Message> := [];
    for i := 0 to |list|
      invariant seen == Unread(list[..i], mark) && count == |seen|
      invariant forall k :: 0 <= k < count ==> ok(id, seen[k])
      invariant last == if count == 0 then mark else seen[count - 1].text
    {
      assert list[..i + 1][..i] == list[..i];
      if mark != "" && !Less(mark, list[i].text) {
        continue;
      }
      if !ok(id, list[i]) {
        StopsAt(list, mark, i, id, ok);
        return Progress(count, false), last;
      }
      seen := seen + [list[i]];
      last := list[i].text;
      count := count + 1;
    }
    assert list[..|list|] == list;
    FailureAt(seen, id, ok, count);
    done := Progress(count, true);
  }

  class Poller {
    var marks: map<Id, string>
    ghost var handled: map<Id, seq<Message>>

    ghost function State(inbox: map<Id, seq<Message>>, saved: map<Id, string>): Agent
      reads this
    {
      Agent(inbox, marks, saved, handled)
    }

    constructor ()
      ensures marks == map[] && handled == map[]
    {
      marks, handled := map[], map[];
    }

    /** One session: what the watermark covers is skipped, the rest handled until one fails. */
    method PollOne(id: Id, list: seq<Message>, ok: Oracle, ghost inbox: map<Id, seq<Message>>, ghost saved: map<Id, string>)
      returns (complete: bool)
      requires list == ListOf(inbox, id)
      modifies this
      ensures Polled(State(inbox, saved), complete) == PollSession(old(State(inbox, saved)), id, ok)
    {
      var done, last := HandleUnread(list, MarkOf(marks, id), id, ok);
      ghost var unread := Unread(list, MarkOf(marks, id));
      handled := handled[id := ListOf(handled, id) + unread[..done.count]];
      if done.complete && done.count > 0 {
        marks := marks[id := last];
      }
      complete := done.complete;
    }

    /** All inbox sessions in order, up to the first failure; `count` messages were handled in complete sessions. */
    method PollOnce(order: seq<Id>, inbox: map<Id, seq<Message>>, ok: Oracle, ghost saved: map<Id, string>)
      returns (complete: bool)
      modifies this
      ensures Polled(State(inbox, saved), complete) == PollAll(old(State(inbox, saved)), order, ok)
    {
      complete := true;
      for i := 0 to |order|
        invariant complete
        invariant Polled(State(inbox, saved), true) == PollAll(old(State(inbox, saved)), order[..i], ok)
      {
        assert order[..i + 1][..i] == order[..i];
        complete := PollOne(order[i], ListOf(inbox, order[i]), ok, inbox, saved);
        if !complete {
          IncompleteStays(old(State(inbox, saved)), order, (x: Agent, id: Id) => PollSession(x, id, ok), i + 1);
          return false;
        }
      }
      assert order[..|order|] == order;
    }
  }

  lemma {:induction false} UnreadPrefix(list: seq<Message>, mark: string, i: nat)
    requires i < |list| && IsUnread(list[i], mark)
    ensures var some, all := Unread(list[..i], mark), Unread(list, mark);
      |some| < |all| && all[..|some|] == some && all[|some|] == list[i]
    decreases |list|
  {
    if i < |list| - 1 {
      UnreadPrefix(list[..|list| - 1], mark, i);
      assert list[..|list| - 1][..i] == list[..i];
    } else {
      assert list[..i] == list[..|list| - 1];
    }
  }

  /** The poll of a session stops at its first failing new message. */
  lemma StopsAt(list: seq<Message>, mark: string, i: nat, id: Id, ok: Oracle)
    requires i < |list| && IsUnread(list[i], mark) && !ok(id, list[i])
    requires forall k :: 0 <= k < |Unread(list[..i], mark)| ==> ok(id, Unread(list[..i], mark)[k])
    ensures var seen, unread := Unread(list[..i], mark), Unread(list, mark);
      UntilFailure(unread, id, ok) == |seen| < |unread| && unread[..|seen|] == seen
  {
    var seen, unread := Unread(list[..i], mark), Unread(list, mark);
    UnreadPrefix(list, mark, i);
    assert forall k :: 0 <= k < |seen| ==> unread[k] == seen[k];
    FailureAt(unread, id, ok, |seen|);
  }

  lemma {:induction false} FailureAt(list: seq<Message>, id: Id, ok: Oracle, n: nat)
    requires n <= |list| && (n < |list| ==> !ok(id, list[n])) && forall i :: 0 <= i < n ==> ok(id, list[i])
    ensures UntilFailure(list, id, ok) == n
  {
    if n > 0 {
      FailureAt(list[1..], id, ok, n - 1);
    }
  }

  lemma {:induction false} IncompleteStays(a: Agent, order: seq<Id>, poll: (Agent, Id) -> Polled, n: nat)
    requires n <= |order| && !PollEach(a, order[..n], poll).complete
    ensures PollEach(a, order, poll) == PollEach(a, order[..n], poll)
    decreases |order|
  {
    if n < |order| {
      assert order[..|order| - 1][..n] == order[..n];
      IncompleteStays(a, order[..|order| - 1], poll, n);
    } else {
      assert order[..n] == order;
    }
  }

  // ---------------------------------------------------------------- watermarks as positions

  ghost predicate StampedAt(list: seq<Message>, i: int) {
    0 <= i < |list| ==> WellStamped(list[i])
  }

  ghost predicate InTime(list: seq<Message>, i: int, j: int) {
    0 <= i < j < |list| ==> Time(list[i].stamp) < Time(list[j].stamp)
  }

  /** The messages of a session, in their order, are later than one another in time. */
  ghost predicate Increasing(list: seq<Message>) {
    (forall i :: StampedAt(list, i)) && (forall i, j :: InTime(list, i, j))
  }

  /** The watermark stands behind the first `k` messages. */
  ghost predicate Behind(list: seq<Message>, mark: string, k: int) {
    0 <= k <= |list| && mark == if k == 0 then "" else list[k - 1].text
  }

  lemma TextOrder(a: Message, b: Message)
    requires WellStamped(a) && WellStamped(b) && Time(a.stamp) < Time(b.stamp)
    ensures Less(a.text, b.text) && !Less(b.text, a.text) && a.text != ""
  {
    TextOrderIsTimeOrder(a.stamp, b.stamp, KST);
    TextOrderIsTimeOrder(b.stamp, a.stamp, KST);
    TextNotEmpty(a);
  }

  lemma TextNotEmpty(a: Message)
    requires WellStamped(a)
    ensures a.text != ""
  {
    assert |Four(a.stamp.year)| == 4;
  }

  lemma UnreadFrom(list: seq<Message>, mark: string, k: nat, i: nat)
    requires Increasing(list) && Behind(list, mark, k) && i < |list|
    ensures IsUnread(list[i], mark) <==> k <= i
  {
    if k > 0 {
      StampedTextNotEmpty(list, k - 1);
      if i == k - 1 {
        NotLessItself(mark);
      } else {
        TextsInOrder(list, i, k - 1);
      }
    }
  }

  lemma StampedTextNotEmpty(list: seq<Message>, i: nat)
    requires Increasing(list) && i < |list|
    ensures list[i].text != ""
  {
    assert StampedAt(list, i);
    TextNotEmpty(list[i]);
  }

  lemma TextsInOrder(list: seq<Message>, i: nat, j: nat)
    requires Increasing(list) && i < |list| && j < |list| && i != j
    ensures Less(list[j].text, list[i].text) <==> j < i
  {
    assert StampedAt(list, i) && StampedAt(list, j) && InTime(list, i, j) && InTime(list, j, i);
    if i < j {
      TextOrder(list[i], list[j]);
    } else {
      TextOrder(list[j], list[i]);
    }
  }

  /** With increasing timestamps the unread messages are those behind the watermark's position. */
  lemma {:induction false} UnreadIsSuffix(list: seq<Message>, mark: string, k: nat, n: nat)
    requires Increasing(list) && Behind(list, mark, k) && k <= n <= |list|
    ensures Unread(list[..n], mark) == list[k..n]
  {
    if n > 0 {
      var m := n - 1;
      assert list[..n][..m] == list[..m];
      UnreadFrom(list, mark, k, m);
      if n == k {
        NothingUnreadBefore(list, mark, k, n);
      } else {
        UnreadIsSuffix(list, mark, k, m);
        assert list[k..n] == list[k..m] + [list[m]];
      }
    }
  }

  lemma {:induction false} NothingUnreadBefore(list: seq<Message>, mark: string, k: nat, n: nat)
    requires Increasing(list) && Behind(list, mark, k) && n <= k
    ensures Unread(list[..n], mark) == []
  {
    if n > 0 {
      assert list[..n][..n - 1] == list[..n - 1];
      UnreadFrom(list, mark, k, n - 1);
      NothingUnreadBefore(list, mark, k, n - 1);
    }
  }

  lemma UnreadOfList(list: seq<Message>, mark: string, k: nat)
    requires Increasing(list) && Behind(list, mark, k)
    ensures Unread(list, mark) == list[k..]
  {
    UnreadIsSuffix(list, mark, k, |list|);
    assert list[..|list|] == list && list[k..|list|] == list[k..];
  }

  // ---------------------------------------------------------------- one session's view

  /** What concerns one session. */
  datatype View = View(list: seq<Message>, mark: string, saved: string, handled: seq<Message>)

  function ViewOf(a: Agent, id: Id): View {
    View(ListOf(a.inbox, id), MarkOf(a.marks, id), MarkOf(a.saved, id), ListOf(a.handled, id))
  }

  function PollView(v: View, unread: seq<Message>, n: nat): View
    requires n <= |unread|
  {
    if n < |unread| then v.(handled := v.handled + unread[..n])
    else if n == 0 then v
    else v.(handled := v.handled + unread, mark := unread[n - 1].text)
  }

  /** A session's poll is about that session only. */
  lemma PolledViews(a: Agent, id: Id, unread: seq<Message>, n: nat, x: Id)
    requires n <= |unread|
    ensures var p := AfterHandling(a, id, unread, n);
      && p.agent.inbox == a.inbox && p.agent.saved == a.saved && (p.complete <==> n == |unread|)
      && ViewOf(p.agent, x) == if x == id then PollView(ViewOf(a, id), unread, n) else ViewOf(a, x)
  {
    assert unread[..|unread|] == unread;
    assert ListOf(a.handled, id) + [] == ListOf(a.handled, id);
  }

  // ---------------------------------------------------------------- exactly once

  /** Every session's messages are later than one another. */
  ghost predicate Ordered(inbox: map<Id, seq<Message>>) {
    forall x :: Increasing(ListOf(inbox, x))
  }

  /** What was handled is exactly the part of the inbox the watermark covers. */
  ghost predicate ExactlyOnce(v: View) {
    exists k :: Behind(v.list, v.mark, k) && v.handled == v.list[..k]
  }

  /** Every message of the session was handled, once and in order. */
  ghost predicate AllHandled(v: View) {
    v.handled == v.list
  }

  lemma PollExactly(v: View, k: nat)
    requires Behind(v.list, v.mark, k) && v.handled == v.list[..k]
    ensures var z := PollView(v, v.list[k..], |v.list| - k); ExactlyOnce(z) && AllHandled(z)
  {
    var z := PollView(v, v.list[k..], |v.list| - k);
    assert v.list[..k] + v.list[k..] == v.list;
    assert v.list[..|v.list|] == v.list;
    assert Behind(z.list, z.mark, |v.list|);
  }

  ghost predicate ExactIn(a: Agent, x: Id) {
    ExactlyOnce(ViewOf(a, x))
  }

  ghost predicate Good(a: Agent) {
    forall x :: ExactIn(a, x)
  }

  predicate SameView(a: Agent, z: Agent, x: Id) {
    ViewOf(z, x) == ViewOf(a, x)
  }

  /** Only one session's view changes. */
  ghost predicate OnlyChanges(a: Agent, z: Agent, id: Id) {
    forall x :: x != id ==> SameView(a, z, x)
  }

  lemma PollSessionExactly(a: Agent, id: Id, ok: Oracle)
    requires Ordered(a.inbox) && Good(a) && PollSession(a, id, ok).complete
    ensures var z := PollSession(a, id, ok).agent;
      && z.inbox == a.inbox && Good(z) && AllHandled(ViewOf(z, id))
      && OnlyChanges(a, z, id)
  {
    var unread := Unread(ListOf(a.inbox, id), MarkOf(a.marks, id));
    PolledViews(a, id, unread, UntilFailure(unread, id, ok), id);
    HandlingExactly(a, id, unread);
  }

  lemma HandlingExactly(a: Agent, id: Id, unread: seq<Message>)
    requires Increasing(ListOf(a.inbox, id)) && Good(a) && unread == Unread(ListOf(a.inbox, id), MarkOf(a.marks, id))
    ensures var z := AfterHandling(a, id, unread, |unread|).agent;
      && z.inbox == a.inbox && Good(z) && AllHandled(ViewOf(z, id))
      && OnlyChanges(a, z, id)
  {
    var z := AfterHandling(a, id, unread, |unread|).agent;
    assert ExactIn(a, id);
    PolledViews(a, id, unread, |unread|, id);
    ViewExactly(ViewOf(a, id), unread);
    forall x | x != id ensures SameView(a, z, x) {
      PolledViews(a, id, unread, |unread|, x);
    }
    SpreadGood(a, z, id);
  }

  lemma ViewExactly(v: View, unread: seq<Message>)
    requires Increasing(v.list) && ExactlyOnce(v) && unread == Unread(v.list, v.mark)
    ensures var z := PollView(v, unread, |unread|); ExactlyOnce(z) && AllHandled(z)
  {
    var k :| Behind(v.list, v.mark, k) && v.handled == v.list[..k];
    UnreadOfList(v.list, v.mark, k);
    PollExactly(v, k);
  }

  lemma SpreadGood(a: Agent, z: Agent, id: Id)
    requires Good(a) && ExactIn(z, id) && OnlyChanges(a, z, id)
    ensures Good(z)
  {
    forall x ensures ExactIn(z, x) {
      assert ExactIn(a, x);
      assert x != id ==> SameView(a, z, x);
    }
  }

  ghost predicate AllHandledIn(a: Agent, order: seq<Id>) {
    forall i :: 0 <= i < |order| ==> AllHandled(ViewOf(a, order[i]))
  }

  /** What one complete poll of a session establishes. */
  ghost predicate ExactStep(a: Agent, id: Id, p: Polled) {
    Ordered(a.inbox) && Good(a) && p.complete ==>
      && p.agent.inbox == a.inbox && Good(p.agent) && AllHandled(ViewOf(p.agent, id))
      && OnlyChanges(a, p.agent, id)
  }

  lemma {:induction false} PollEachExactly(a: Agent, order: seq<Id>, poll: (Agent, Id) -> Polled)
    requires forall x, id :: ExactStep(x, id, poll(x, id))
    requires Ordered(a.inbox) && Good(a) && PollEach(a, order, poll).complete
    ensures var z := PollEach(a, order, poll).agent; z.inbox == a.inbox && Good(z) && AllHandledIn(z, order)
  {
    if order != [] {
      var before, last := order[..|order| - 1], order[|order| - 1];
      PollEachExactly(a, before, poll);
      var mid := PollEach(a, before, poll).agent;
      var z := poll(mid, last).agent;
      assert ExactStep(mid, last, poll(mid, last));
      forall i | 0 <= i < |order| ensures AllHandled(ViewOf(z, order[i])) {
        if order[i] != last {
          assert before[i] == order[i] && AllHandled(ViewOf(mid, before[i])) && SameView(mid, z, order[i]);
        }
      }
    }
  }

  lemma PollAllExactly(a: Agent, order: seq<Id>, ok: Oracle)
    requires Ordered(a.inbox) && Good(a) && PollAll(a, order, ok).complete
    ensures var z := PollAll(a, order, ok).agent; z.inbox == a.inbox && Good(z) && AllHandledIn(z, order)
  {
    var poll := (x: Agent, id: Id) => PollSession(x, id, ok);
    forall x, id ensures ExactStep(x, id, poll(x, id)) {
      if Ordered(x.inbox) && Good(x) && poll(x, id).complete {
        PollSessionExactly(x, id, ok);
      }
    }
    PollEachExactly(a, order, poll);
  }

  /** Each arrival is later than what its session holds. */
  ghost predicate ArrivesLater(a: Agent, e: Event) {
    e.Arrive? ==> Increasing(ListOf(a.inbox, e.id) + [e.m])
  }

  lemma ArrivalViews(a: Agent, e: Event, x: Id)
    requires e.Arrive?
    ensures ViewOf(Step(a, e), x) == if x == e.id then ViewOf(a, x).(list := ViewOf(a, x).list + [e.m]) else ViewOf(a, x)
  {
  }

  lemma ArrivalKeepsOrdered(a: Agent, e: Event)
    requires e.Arrive? && Ordered(a.inbox) && ArrivesLater(a, e)
    ensures Ordered(Step(a, e).inbox)
  {
    forall x ensures Increasing(ListOf(Step(a, e).inbox, x)) {
      ArrivalViews(a, e, x);
      assert Increasing(ListOf(a.inbox, x));
    }
  }

  lemma ArrivalKeepsExactly(v: View, m: Message)
    requires ExactlyOnce(v)
    ensures ExactlyOnce(v.(list := v.list + [m]))
  {
    var k :| Behind(v.list, v.mark, k) && v.handled == v.list[..k];
    assert (v.list + [m])[..k] == v.list[..k];
    assert Behind(v.list + [m], v.mark, k);
  }

  /** The run's arrivals are later than their sessions', its polls do not fail, and the agent is not restarted. */
  ghost predicate ErrorFree(a: Agent, es: seq<Event>) {
    forall i :: 0 <= i < |es| ==> StepErrorFree(Run(a, es[..i]), es[i])
  }

  ghost predicate StepErrorFree(a: Agent, e: Event) {
    ArrivesLater(a, e) && (e.Loop? ==> PollAll(a, e.order, e.ok).complete) && !e.Restart?
  }

  lemma ArriveExactly(a: Agent, e: Event)
    requires Ordered(a.inbox) && Good(a) && ArrivesLater(a, e) && e.Arrive?
    ensures Ordered(Step(a, e).inbox) && Good(Step(a, e))
  {
    ArrivalKeepsOrdered(a, e);
    forall x ensures ExactIn(Step(a, e), x) {
      ArrivalViews(a, e, x);
      assert ExactIn(a, x);
      if x == e.id {
        ArrivalKeepsExactly(ViewOf(a, x), e.m);
      }
    }
  }

  /** Saving the state changes neither what was handled nor the watermarks in memory. */
  lemma SavingKeepsGood(a: Agent, z: Agent, order: seq<Id>)
    requires Good(a) && AllHandledIn(a, order)
    requires z.inbox == a.inbox && z.marks == a.marks && z.handled == a.handled
    ensures Good(z) && AllHandledIn(z, order)
  {
    forall x ensures ExactIn(z, x) {
      assert ExactIn(a, x);
    }
    forall i | 0 <= i < |order| ensures AllHandled(ViewOf(z, order[i])) {
      assert AllHandled(ViewOf(a, order[i]));
    }
  }

  lemma StepExactly(a: Agent, e: Event)
    requires Ordered(a.inbox) && Good(a) && StepErrorFree(a, e)
    ensures Ordered(Step(a, e).inbox) && Good(Step(a, e))
    ensures e.Loop? ==> AllHandledIn(Step(a, e), e.order)
  {
    if e.Arrive? {
      ArriveExactly(a, e);
    } else {
      PollAllExactly(a, e.order, e.ok);
      SavingKeepsGood(PollAll(a, e.order, e.ok).agent, Step(a, e), e.order);
    }
  }

  lemma NewIsGood(a: Agent)
    requires IsNew(a)
    ensures Ordered(a.inbox) && Good(a) && Safe(a)
  {
    forall x ensures Increasing(ListOf(a.inbox, x)) && ExactIn(a, x) && SafeIn(a, x) {
      assert Behind([], "", 0);
      assert CoversFirst(ViewOf(a, x), "", 0);
    }
  }

  lemma {:induction false} RunExactly(start: Agent, es: seq<Event>)
    requires IsNew(start) && ErrorFree(start, es)
    ensures Ordered(Run(start, es).inbox) && Good(Run(start, es))
  {
    if es == [] {
      NewIsGood(start);
    } else {
      var n := |es| - 1;
      forall i | 0 <= i < n ensures StepErrorFree(Run(start, es[..n][..i]), es[..n][i]) {
        assert es[..n][..i] == es[..i];
      }
      RunExactly(start, es[..n]);
      StepExactly(Run(start, es[..n]), es[n]);
    }
  }

  /** In any error-free run every session's messages are handled exactly once and in order: what was handled is a
      prefix of the inbox, and a poll of the session makes it all of it. */
  lemma PollsHandleExactlyOnce(start: Agent, es: seq<Event>, e: Event, id: Id)
    requires IsNew(start) && ErrorFree(start, es)
    ensures ListOf(Run(start, es).handled, id) <= ListOf(Run(start, es).inbox, id)
    ensures StepErrorFree(Run(start, es), e) && e.Loop? && id in e.order ==>
      ListOf(Step(Run(start, es), e).handled, id) == ListOf(Step(Run(start, es), e).inbox, id)
  {
    RunExactly(start, es);
    var a := Run(start, es);
    assert ExactIn(a, id);
    if StepErrorFree(a, e) && e.Loop? && id in e.order {
      StepExactly(a, e);
      var i :| 0 <= i < |e.order| && e.order[i] == id;
      assert AllHandled(ViewOf(Step(a, e), e.order[i]));
    }
  }

  // ---------------------------------------------------------------- at least once

  ghost predicate HandledAt(v: View, i: int) {
    0 <= i < |v.list| ==> v.list[i] in v.handled
  }

  ghost predicate FromInbox(v: View, i: int) {
    0 <= i < |v.handled| ==> v.handled[i] in v.list
  }

  /** The watermark covers only handled messages. */
  ghost predicate Covers(v: View, mark: string) {
    exists k :: CoversFirst(v, mark, k)
  }

  ghost predicate CoversFirst(v: View, mark: string, k: int) {
    Behind(v.list, mark, k) && forall i :: i < k ==> HandledAt(v, i)
  }

  /** So do both watermarks, in memory and in the file; and only inbox messages are handled. */
  ghost predicate AtLeastOnce(v: View) {
    Covers(v, v.mark) && Covers(v, v.saved) && forall i :: FromInbox(v, i)
  }

  /** Every message of the session was handled. */
  ghost predicate Complete(v: View) {
    forall i :: HandledAt(v, i)
  }

  lemma CoversGrows(v: View, z: View, mark: string)
    requires Covers(v, mark) && v.list <= z.list && v.handled <= z.handled
    ensures Covers(z, mark)
  {
    var k :| CoversFirst(v, mark, k);
    forall i | i < k ensures HandledAt(z, i) {
      assert HandledAt(v, i);
    }
    assert CoversFirst(z, mark, k);
  }

  /** Handling a stretch of the inbox. */
  lemma HandlingMoreIsSafe(v: View, k: nat, n: nat)
    requires AtLeastOnce(v) && k <= n <= |v.list|
    ensures AtLeastOnce(v.(handled := v.handled + v.list[k..n]))
  {
    var z := v.(handled := v.handled + v.list[k..n]);
    CoversGrows(v, z, v.saved);
    CoversGrows(v, z, v.mark);
    forall i ensures FromInbox(z, i) {
      assert FromInbox(v, i);
      if |v.handled| <= i < |z.handled| {
        assert z.handled[i] == v.list[k + i - |v.handled|];
      }
    }
  }

  lemma HandlingAllIsComplete(v: View, k: nat)
    requires CoversFirst(v, v.mark, k)
    ensures Complete(v.(handled := v.handled + v.list[k..|v.list|]))
  {
    var z := v.(handled := v.handled + v.list[k..|v.list|]);
    forall i ensures HandledAt(z, i) {
      if 0 <= i < k {
        assert HandledAt(v, i);
      } else if k <= i < |v.list| {
        assert z.handled[|v.handled| + i - k] == v.list[i];
      }
    }
  }

  /** A complete session may be marked up to its last message. */
  lemma MarkingCompleteIsSafe(v: View)
    requires AtLeastOnce(v) && Complete(v) && v.list != []
    ensures var z := v.(mark := v.list[|v.list| - 1].text); AtLeastOnce(z) && Complete(z)
  {
    var z := v.(mark := v.list[|v.list| - 1].text);
    forall i ensures HandledAt(z, i) && FromInbox(z, i) {
      assert HandledAt(v, i) && FromInbox(v, i);
    }
    CoversGrows(v, z, v.saved);
    assert CoversFirst(z, z.mark, |v.list|);
  }

  lemma PollAtLeast(v: View, k: nat, n: nat)
    requires AtLeastOnce(v) && CoversFirst(v, v.mark, k) && n <= |v.list| - k
    ensures var z := PollView(v, v.list[k..], n); AtLeastOnce(z) && (n == |v.list| - k ==> Complete(z))
  {
    assert v.list[k..][..n] == v.list[k..k + n];
    HandlingMoreIsSafe(v, k, k + n);
    if n == |v.list| - k {
      HandlingAllIsComplete(v, k);
      if n == 0 {
        assert v.handled + v.list[k..|v.list|] == v.handled;
      } else {
        assert v.list[k..] == v.list[k..|v.list|];
        MarkingCompleteIsSafe(v.(handled := v.handled + v.list[k..|v.list|]));
      }
    }
  }

  ghost predicate SafeIn(a: Agent, x: Id) {
    AtLeastOnce(ViewOf(a, x))
  }

  ghost predicate Safe(a: Agent) {
    forall x :: SafeIn(a, x)
  }

  lemma PollSessionAtLeast(a: Agent, id: Id, ok: Oracle)
    requires Ordered(a.inbox) && Safe(a)
    ensures var p := PollSession(a, id, ok);
      && p.agent.inbox == a.inbox && p.agent.saved == a.saved && Safe(p.agent)
      && (p.complete ==> Complete(ViewOf(p.agent, id)))
      && OnlyChanges(a, p.agent, id)
  {
    var unread := Unread(ListOf(a.inbox, id), MarkOf(a.marks, id));
    HandlingAtLeast(a, id, unread, UntilFailure(unread, id, ok));
  }

  lemma HandlingAtLeast(a: Agent, id: Id, unread: seq<Message>, n: nat)
    requires Increasing(ListOf(a.inbox, id)) && Safe(a) && unread == Unread(ListOf(a.inbox, id), MarkOf(a.marks, id))
    requires n <= |unread|
    ensures var p := AfterHandling(a, id, unread, n);
      && p.agent.inbox == a.inbox && p.agent.saved == a.saved && Safe(p.agent)
      && (p.complete ==> Complete(ViewOf(p.agent, id)))
      && OnlyChanges(a, p.agent, id)
  {
    var z := AfterHandling(a, id, unread, n).agent;
    assert SafeIn(a, id);
    PolledViews(a, id, unread, n, id);
    ViewAtLeast(ViewOf(a, id), unread, n);
    forall x | x != id ensures SameView(a, z, x) {
      PolledViews(a, id, unread, n, x);
    }
    SpreadSafe(a, z, id);
  }

  lemma ViewAtLeast(v: View, unread: seq<Message>, n: nat)
    requires Increasing(v.list) && AtLeastOnce(v) && unread == Unread(v.list, v.mark) && n <= |unread|
    ensures var z := PollView(v, unread, n); AtLeastOnce(z) && (n == |unread| ==> Complete(z))
  {
    var k :| CoversFirst(v, v.mark, k);
    UnreadOfList(v.list, v.mark, k);
    PollAtLeast(v, k, n);
  }

  lemma SpreadSafe(a: Agent, z: Agent, id: Id)
    requires Safe(a) && SafeIn(z, id) && OnlyChanges(a, z, id)
    ensures Safe(z)
  {
    forall x ensures SafeIn(z, x) {
      assert SafeIn(a, x);
      assert x != id ==> SameView(a, z, x);
    }
  }

  ghost predicate CompleteIn(a: Agent, order: seq<Id>) {
    forall i :: 0 <= i < |order| ==> Complete(ViewOf(a, order[i]))
  }

  /** What one poll of a session keeps, complete or not. */
  ghost predicate SafeStep(a: Agent, id: Id, p: Polled) {
    Ordered(a.inbox) && Safe(a) ==>
      && p.agent.inbox == a.inbox && p.agent.saved == a.saved && Safe(p.agent)
      && (p.complete ==> Complete(ViewOf(p.agent, id)))
      && OnlyChanges(a, p.agent, id)
  }

  lemma {:induction false} PollEachAtLeast(a: Agent, order: seq<Id>, poll: (Agent, Id) -> Polled)
    requires forall x, id :: SafeStep(x, id, poll(x, id))
    requires Ordered(a.inbox) && Safe(a)
    ensures var p := PollEach(a, order, poll);
      p.agent.inbox == a.inbox && p.agent.saved == a.saved && Safe(p.agent) && (p.complete ==> CompleteIn(p.agent, order))
  {
    if order != [] {
      var before, last := order[..|order| - 1], order[|order| - 1];
      PollEachAtLeast(a, before, poll);
      var mid := PollEach(a, before, poll);
      if mid.complete {
        var p := poll(mid.agent, last);
        assert SafeStep(mid.agent, last, p);
        forall i | p.complete && 0 <= i < |order| ensures Complete(ViewOf(p.agent, order[i])) {
          if order[i] != last {
            assert before[i] == order[i] && Complete(ViewOf(mid.agent, before[i])) && SameView(mid.agent, p.agent, order[i]);
          }
        }
      }
    }
  }

  lemma PollAllAtLeast(a: Agent, order: seq<Id>, ok: Oracle)
    requires Ordered(a.inbox) && Safe(a)
    ensures var p := PollAll(a, order, ok);
      p.agent.inbox == a.inbox && p.agent.saved == a.saved && Safe(p.agent) && (p.complete ==> CompleteIn(p.agent, order))
  {
    var poll := (x: Agent, id: Id) => PollSession(x, id, ok);
    forall x, id ensures SafeStep(x, id, poll(x, id)) {
      if Ordered(x.inbox) && Safe(x) {
        PollSessionAtLeast(x, id, ok);
      }
    }
    PollEachAtLeast(a, order, poll);
  }

  /** Growing the inbox and moving a watermark to one that covers only handled messages. */
  lemma SameHandled(v: View, z: View)
    requires AtLeastOnce(v) && v.list <= z.list && z.handled == v.handled && Covers(v, z.mark) && Covers(v, z.saved)
    ensures AtLeastOnce(z) && (z.list == v.list && Complete(v) ==> Complete(z))
  {
    CoversGrows(v, z, z.mark);
    CoversGrows(v, z, z.saved);
    forall i ensures FromInbox(z, i) {
      assert FromInbox(v, i);
    }
    if z.list == v.list && Complete(v) {
      forall i ensures HandledAt(z, i) {
        assert HandledAt(v, i);
      }
    }
  }

  lemma ArriveAtLeast(a: Agent, e: Event)
    requires Safe(a) && e.Arrive?
    ensures Safe(Step(a, e))
  {
    forall x ensures SafeIn(Step(a, e), x) {
      ArrivalViews(a, e, x);
      assert SafeIn(a, x);
      SameHandled(ViewOf(a, x), ViewOf(Step(a, e), x));
    }
  }

  lemma RestartAtLeast(a: Agent)
    requires Safe(a)
    ensures Safe(a.(marks := a.saved))
  {
    var z := a.(marks := a.saved);
    forall x ensures SafeIn(z, x) {
      assert SafeIn(a, x);
      SameHandled(ViewOf(a, x), ViewOf(z, x));
    }
  }

  lemma SavingKeepsSafe(a: Agent, z: Agent, order: seq<Id>)
    requires Safe(a) && z.inbox == a.inbox && z.marks == a.marks && z.handled == a.handled
    requires z.saved == a.saved || z.saved == a.marks
    ensures Safe(z) && (CompleteIn(a, order) ==> CompleteIn(z, order))
  {
    forall x ensures SafeIn(z, x) {
      assert SafeIn(a, x);
      SameHandled(ViewOf(a, x), ViewOf(z, x));
    }
    if CompleteIn(a, order) {
      forall i | 0 <= i < |order| ensures Complete(ViewOf(z, order[i])) {
        assert SafeIn(a, order[i]) && Complete(ViewOf(a, order[i]));
        SameHandled(ViewOf(a, order[i]), ViewOf(z, order[i]));
      }
    }
  }

  lemma StepAtLeast(a: Agent, e: Event)
    requires Ordered(a.inbox) && Safe(a) && ArrivesLater(a, e)
    ensures Ordered(Step(a, e).inbox) && Safe(Step(a, e))
    ensures e.Loop? && PollAll(a, e.order, e.ok).complete ==> CompleteIn(Step(a, e), e.order)
  {
    if e.Arrive? {
      ArrivalKeepsOrdered(a, e);
      ArriveAtLeast(a, e);
    } else if e.Loop? {
      PollAllAtLeast(a, e.order, e.ok);
      SavingKeepsSafe(PollAll(a, e.order, e.ok).agent, Step(a, e), e.order);
    } else {
      RestartAtLeast(a);
    }
  }

  ghost predicate ArrivalsLater(a: Agent, es: seq<Event>) {
    forall i :: 0 <= i < |es| ==> ArrivesLater(Run(a, es[..i]), es[i])
  }

  lemma {:induction false} RunAtLeast(start: Agent, es: seq<Event>)
    requires IsNew(start) && ArrivalsLater(start, es)
    ensures Ordered(Run(start, es).inbox) && Safe(Run(start, es))
  {
    if es == [] {
      NewIsGood(start);
    } else {
      var n := |es| - 1;
      forall i | 0 <= i < n ensures ArrivesLater(Run(start, es[..n][..i]), es[..n][i]) {
        assert es[..n][..i] == es[..i];
      }
      RunAtLeast(start, es[..n]);
      StepAtLeast(Run(start, es[..n]), es[n]);
    }
  }

  /** Whatever polls fail midway, whatever saves fail and whenever the agent restarts: only inbox messages are
      handled, the watermarks in memory and in the file cover only handled messages, and a poll that completes
      leaves every message of its sessions handled at least once. */
  lemma PollsHandleAtLeastOnce(start: Agent, es: seq<Event>, e: Event, id: Id)
    requires IsNew(start) && ArrivalsLater(start, es)
    ensures AtLeastOnce(ViewOf(Run(start, es), id))
    ensures ArrivesLater(Run(start, es), e) && e.Loop? && PollAll(Run(start, es), e.order, e.ok).complete && id in e.order ==>
      forall m :: m in ListOf(Step(Run(start, es), e).inbox, id) ==> m in ListOf(Step(Run(start, es), e).handled, id)
  {
    RunAtLeast(start, es);
    var a := Run(start, es);
    assert SafeIn(a, id);
    if ArrivesLater(a, e) && e.Loop? && PollAll(a, e.order, e.ok).complete && id in e.order {
      StepAtLeast(a, e);
      var i :| 0 <= i < |e.order| && e.order[i] == id;
      var v := ViewOf(Step(a, e), id);
      assert Complete(v);
      forall m | m in v.list ensures m in v.handled {
        var j :| 0 <= j < |v.list| && v.list[j] == m;
        assert HandledAt(v, j);
      }
    }
  }

  /** The repetition a failure costs: when a session's poll stops before new message number `n`, the next complete
      poll handles the first `n` again and then the rest. */
  lemma FailedPollRepeats(a: Agent, id: Id, ok: Oracle, later: Oracle)
    requires !PollSession(a, id, ok).complete && PollSession(PollSession(a, id, ok).agent, id, later).complete
    ensures var unread := Unread(ListOf(a.inbox, id), MarkOf(a.marks, id));
      var n := UntilFailure(unread, id, ok);
      n < |unread| && ListOf(PollSession(PollSession(a, id, ok).agent, id, later).agent.handled, id)
        == ListOf(a.handled, id) + unread[..n] + unread
  {
    var unread := Unread(ListOf(a.inbox, id), MarkOf(a.marks, id));
    assert unread[..|unread|] == unread;
  }

  /** A message is taken up by later polls exactly when its time is later than the watermark's, or is the same and
      written with more fraction digits; so one that arrives with a handled time is skipped unless its text is
      longer. */
  lemma EqualTimestampIsSkipped(m: Message, n: Message)
    requires WellStamped(m) && WellStamped(n)
    ensures IsUnread(n, m.text) <==>
      || Time(m.stamp) < Time(n.stamp)
      || (Time(m.stamp) == Time(n.stamp) && |m.stamp.frac| < |n.stamp.frac|)
  {
    TextNotEmpty(m);
    TextOrderIsTimeOrder(m.stamp, n.stamp, KST);
  }
}
