/** The poller's state file: when the agent's main loop writes it, and what a restart then loses. */
module PollingState {
  import opened Prelude
  import opened Polling

  /** Nothing new in any of the sessions. */
  predicate Quiet(a: Agent, order: seq<Id>) {
    forall i :: 0 <= i < |order| ==> Unread(ListOf(a.inbox, order[i]), MarkOf(a.marks, order[i])) == []
  }

  lemma {:induction false} QuietPollEach(a: Agent, order: seq<Id>, ok: Oracle, poll: (Agent, Id) -> Polled)
    requires Quiet(a, order) && forall x, id :: poll(x, id) == PollSession(x, id, ok)
    ensures var p := PollEach(a, order, poll); p.complete && p.agent.marks == a.marks && p.agent.inbox == a.inbox
  {
    if order != [] {
      var n := |order| - 1;
      assert forall i :: 0 <= i < n ==> order[..n][i] == order[i];
      QuietPollEach(a, order[..n], ok, poll);
    }
  }

  /** A poll that finds nothing new is complete and moves no watermark. */
  lemma QuietPollMovesNothing(a: Agent, order: seq<Id>, ok: Oracle)
    requires Quiet(a, order)
    ensures PollAll(a, order, ok).complete && PollAll(a, order, ok).agent.marks == a.marks
  {
    QuietPollEach(a, order, ok, (x: Agent, id: Id) => PollSession(x, id, ok));
  }

  lemma {:induction false} PollEachKeepsSaved(a: Agent, order: seq<Id>, ok: Oracle, poll: (Agent, Id) -> Polled)
    requires forall x, id :: poll(x, id) == PollSession(x, id, ok)
    ensures PollEach(a, order, poll).agent.saved == a.saved
    ensures (forall id, m :: ok(id, m)) ==> PollEach(a, order, poll).complete
  {
    if order != [] {
      PollEachKeepsSaved(a, order[..|order| - 1], ok, poll);
    }
  }

  /** A poll writes no state file, and one in which no message fails is complete. */
  lemma PollKeepsSaved(a: Agent, order: seq<Id>, ok: Oracle)
    ensures PollAll(a, order, ok).agent.saved == a.saved
    ensures (forall id, m :: ok(id, m)) ==> PollAll(a, order, ok).complete
  {
    PollEachKeepsSaved(a, order, ok, (x: Agent, id: Id) => PollSession(x, id, ok));
  }

  /** A turn of the loop writes the state file exactly when the write succeeds and either another poller had work or
      this one found new messages and handled them all; a restart goes back to what was written. */
  lemma SavedWhen(a: Agent, e: Event)
    ensures e.Loop? ==>
      && (Step(a, e).saved == Step(a, e).marks
          || !e.saveSucceeds || (!e.otherChanges && (!PollAll(a, e.order, e.ok).complete || Quiet(a, e.order))))
      && (Step(a, e).saved == a.saved
          || (e.saveSucceeds && (e.otherChanges || (PollAll(a, e.order, e.ok).complete && !Quiet(a, e.order)))))
      && Step(a, e).marks == PollAll(a, e.order, e.ok).agent.marks
    ensures e.Restart? ==> Step(a, e) == a.(marks := a.saved)
    ensures e.Arrive? ==> Step(a, e).saved == a.saved && Step(a, e).marks == a.marks
  {
    if e.Loop? {
      PollKeepsSaved(a, e.order, e.ok);
      assert AnyUnread(a, e.order) <==> !Quiet(a, e.order);
    }
  }

  /** In every turn the poll is complete and the state file can be written. */
  ghost predicate Smooth(start: Agent, es: seq<Event>) {
    forall i :: 0 <= i < |es| && es[i].Loop? ==> es[i].saveSucceeds && PollAll(Run(start, es[..i]), es[i].order, es[i].ok).complete
  }

  /** When no poll fails and every write succeeds, the state file is always up to date: a restart changes nothing, so
      the agent goes on as if it had never stopped. */
  lemma {:induction false} RestartIsHarmless(start: Agent, es: seq<Event>)
    requires IsNew(start) && Smooth(start, es)
    ensures Step(Run(start, es), Restart) == Run(start, es)
  {
    if es != [] {
      var n := |es| - 1;
      var a, e := Run(start, es[..n]), es[n];
      assert Smooth(start, es[..n]) by {
        assert forall i :: 0 <= i < n ==> es[..n][i] == es[i] && es[..n][..i] == es[..i];
      }
      RestartIsHarmless(start, es[..n]);
      SavedWhen(a, Restart);
      SavedWhen(a, e);
      if e.Loop? && Quiet(a, e.order) {
        QuietPollMovesNothing(a, e.order, e.ok);
      }
    }
  }

  /** Timestamps are compared as text because all of them end with the offset of Korea. */
  lemma StampsEndAlike(m: Message)
    requires WellStamped(m)
    ensures |m.text| >= 6 && m.text[|m.text| - 6..] == "+09:00"
  {
  }
}
