/** The life of an agent session: its agent from start to close, its marker on the peer row of its label, and whole
    requests from their first step to their last. */
module SessionLife {
  import opened Prelude
  import opened AcpRegistry
  import Framing
  import Json

  // ---------------------------------------------------------------- which agents are live

  /** The step starts an agent. */
  predicate Starts(s: State, step: Step)
    requires Enabled(s, step)
  {
    || (step.SpawnAlways? && step.ok)
    || (step.Prompt? && step.ok && step.id in s.sessions && s.sessions[step.id].handle.None?)
  }

  /** The step ends the agent: it closes it, or the agent dies. */
  predicate Ends(s: State, step: Step, h: Handle)
    requires Enabled(s, step)
  {
    step == AgentDies(h) || (step.CloseAgent? && s.tasks[step.t].agent == h)
  }

  /** An agent is live after a step exactly when the step starts it, or it was live and the step does not end it; a
      new agent gets the next number, and is counted for the session it was started for. */
  lemma LiveAfter(s: State, step: Step, h: Handle)
    requires Enabled(s, step)
    ensures h in Next(s, step).live <==> (Starts(s, step) && h == s.nextHandle) || (h in s.live && !Ends(s, step, h))
    ensures Next(s, step).nextHandle == s.nextHandle + if Starts(s, step) then 1 else 0
    ensures Next(s, step).spawns ==
      s.spawns + if !Starts(s, step) then []
                 else [Spawn(if step.Prompt? then step.id else s.tasks[step.t].id, s.nextHandle)]
    ensures Next(s, step).closed == s.closed + if step.CloseAgent? then [s.tasks[step.t].agent] else []
  {
  }

  ghost predicate StartedHere(s: State, h: Handle) {
    exists k :: 0 <= k < |s.spawns| && s.spawns[k].handle == h
  }

  ghost predicate LiveOk(s: State) {
    && HandlesOk(s)
    && (forall h :: h in s.live ==> h < s.nextHandle && StartedHere(s, h) && h !in s.closed)
  }

  lemma StepKeepsLive(s: State, step: Step, h: Handle)
    requires IdsOk(s) && LiveOk(s) && Enabled(s, step) && h in Next(s, step).live
    ensures h < Next(s, step).nextHandle && StartedHere(Next(s, step), h) && h !in Next(s, step).closed
  {
    var z := Next(s, step);
    LiveAfter(s, step, h);
    if Starts(s, step) && h == s.nextHandle {
      assert z.spawns[|s.spawns|].handle == h;
    } else {
      var k :| 0 <= k < |s.spawns| && s.spawns[k].handle == h;
      assert z.spawns[k].handle == h;
    }
    assert forall c :: c in s.closed ==> c < s.nextHandle;
  }

  lemma {:induction false} RunKeepsLive(s: State, steps: seq<Step>, z: State)
    requires IdsOk(s) && LiveOk(s) && Reaches(s, steps, z)
    ensures LiveOk(z)
    decreases |steps|
  {
    if steps != [] {
      StepKeepsIds(s, steps[0]);
      StepKeepsHandles(s, steps[0]);
      forall h | h in Next(s, steps[0]).live
        ensures h < Next(s, steps[0]).nextHandle && StartedHere(Next(s, steps[0]), h) && h !in Next(s, steps[0]).closed
      {
        StepKeepsLive(s, steps[0], h);
      }
      RunKeepsLive(Next(s, steps[0]), steps[1..], z);
    }
  }

  /** In every interleaving, a live agent was started for a session here and has not been closed; so a session that a
      create reuses never has a closed agent. */
  lemma LiveAgentsAreOurs(peers: map<string, Peer>, steps: seq<Step>, s: State, h: Handle)
    requires Reaches(Fresh(peers), steps, s) && h in s.live
    ensures (exists k :: 0 <= k < |s.spawns| && s.spawns[k].handle == h) && h !in s.closed
  {
    RunKeepsLive(Fresh(peers), steps, s);
    assert StartedHere(s, h);
  }

  // ---------------------------------------------------------------- markers

  /** The label with white space around it. */
  predicate Pads(name: Option<string>, alias: string) {
    alias != "" && !Framing.IsSpace(alias[0]) && !Framing.IsSpace(alias[|alias| - 1])
    && exists i, j :: 0 <= i <= j <= |Text(name)| && Text(name)[i..j] == alias
         && Framing.AllSpace(Text(name)[..i]) && Framing.AllSpace(Text(name)[j..])
  }

  function Text(name: Option<string>): string {
    if name.Some? then name.value else ""
  }

  lemma PaddedAlias(name: Option<string>, alias: string)
    requires Pads(name, alias)
    ensures AliasOf(name) == Some(alias)
  {
    var i, j :| 0 <= i <= j <= |Text(name)| && Text(name)[i..j] == alias
         && Framing.AllSpace(Text(name)[..i]) && Framing.AllSpace(Text(name)[j..]);
    assert Text(name) == Text(name)[..i] + alias + Text(name)[j..];
    Framing.TrimPadded(Text(name)[..i], alias, Text(name)[j..]);
  }

  lemma BlankAlias(name: Option<string>)
    requires Framing.AllSpace(Text(name))
    ensures AliasOf(name) == None
  {
    if name.Some? {
      assert name.value + [] + [] == name.value;
      Framing.TrimPadded(name.value, [], []);
    }
  }

  /** Bridging a session whose label is an alias, up to white space around it, marks the row of the alias with the
      session's number, unless it is missing or homed elsewhere. A blank label marks nothing. */
  lemma BridgingMarks(s: State, t: nat, alias: string)
    requires Enabled(s, Bridge(t))
    ensures Framing.AllSpace(Text(s.tasks[t].name)) ==> Next(s, Bridge(t)).peers == s.peers
    ensures Pads(s.tasks[t].name, alias) ==>
      Next(s, Bridge(t)).peers
        == (if alias in s.peers && !s.peers[alias].remoteHomed
            then s.peers[alias := Peer(false, Some("acp:acp-" + Json.PrintNat(s.tasks[t].id)))] else s.peers)
  {
    if Pads(s.tasks[t].name, alias) {
      PaddedAlias(s.tasks[t].name, alias);
      assert Marker(s.tasks[t].id) == "acp:acp-" + Json.PrintNat(s.tasks[t].id);
    }
    if Framing.AllSpace(Text(s.tasks[t].name)) {
      BlankAlias(s.tasks[t].name);
    }
  }

  /** Closing a session takes back exactly its own marker, from the row its label names. */
  lemma UnbridgingClears(s: State, t: nat, alias: string)
    requires Enabled(s, Unbridge(t))
    ensures Framing.AllSpace(Text(s.tasks[t].name)) ==> Next(s, Unbridge(t)).peers == s.peers
    ensures Pads(s.tasks[t].name, alias) ==>
      Next(s, Unbridge(t)).peers
        == (if alias in s.peers && s.peers[alias].marker == Some("acp:acp-" + Json.PrintNat(s.tasks[t].id))
            then s.peers[alias := Peer(s.peers[alias].remoteHomed, None)] else s.peers)
  {
    if Pads(s.tasks[t].name, alias) {
      PaddedAlias(s.tasks[t].name, alias);
      assert Marker(s.tasks[t].id) == "acp:acp-" + Json.PrintNat(s.tasks[t].id);
    }
    if Framing.AllSpace(Text(s.tasks[t].name)) {
      BlankAlias(s.tasks[t].name);
    }
  }

  // ---------------------------------------------------------------- whole requests

  /** The steps of a request to create a session with its agent at once, and of one to close session `id`. */
  function CreateSteps(t: nat, name: Option<string>): seq<Step> {
    [CreateFind(t, name, true, None), AllocateId(t), SpawnAlways(t, true), Insert(t), Bridge(t)]
  }

  function CloseSteps(t: nat, id: Id): seq<Step> {
    [CloseRemove(t, id), Unbridge(t), CloseAgent(t)]
  }

  lemma DoneUndoes(s: State, t: nat, task: Task)
    requires t !in s.tasks
    ensures Done(Put(s, t, task), t) == s
  {
    assert s.tasks[t := task] - {t} == s.tasks;
  }

  /** The state of a create that has its agent and is about to enter its session. */
  function ReadyToEnter(s: State, t: nat, name: Option<string>): State {
    Put(Started(s, s.nextId), t, Inserting(s.nextId, name, Some(s.nextHandle))).(nextId := s.nextId + 1)
  }

  lemma EnterRun(s: State, t: nat, name: Option<string>) returns (z: State)
    requires t !in s.tasks
    ensures Reaches(ReadyToEnter(s, t, name), [Insert(t)] + [Bridge(t)], z)
    ensures z == s.(sessions := s.sessions[s.nextId := Session(name, Some(s.nextHandle))], inserted := s.inserted + [s.nextId],
                    nextId := s.nextId + 1, live := s.live + {s.nextHandle}, nextHandle := s.nextHandle + 1,
                    spawns := s.spawns + [Spawn(s.nextId, s.nextHandle)], peers := Bridged(s.peers, s.nextId, name))
  {
    var id := s.nextId;
    var s3 := ReadyToEnter(s, t, name);
    var s4 := Next(s3, Insert(t));
    z := Next(s4, Bridge(t));
    assert s4.tasks == s.tasks[t := Bridging(id, name)] && s4.tasks - {t} == s.tasks;
    LastStep(s4, Bridge(t), z);
    ReachesCons(s3, Insert(t), [Bridge(t)], z);
  }

  /** A create of a label without a session, run by itself with its agent started at once: it enters one session, under
      the next number and with the next agent, live, and marks the label's row. */
  lemma CreateRun(s: State, t: nat, name: Option<string>) returns (z: State)
    requires t !in s.tasks && (Reusable(name) ==> forall i :: i in s.sessions ==> s.sessions[i].name != name)
    ensures Reaches(s, CreateSteps(t, name), z)
    ensures z == s.(sessions := s.sessions[s.nextId := Session(name, Some(s.nextHandle))], inserted := s.inserted + [s.nextId],
                    nextId := s.nextId + 1, live := s.live + {s.nextHandle}, nextHandle := s.nextHandle + 1,
                    spawns := s.spawns + [Spawn(s.nextId, s.nextHandle)], peers := Bridged(s.peers, s.nextId, name))
  {
    var s1 := Put(s, t, Creating(name, true));
    var s2 := Put(s, t, Spawning(s.nextId, name)).(nextId := s.nextId + 1);
    z := EnterRun(s, t, name);
    var enter := [Insert(t)] + [Bridge(t)];
    assert Next(s2, SpawnAlways(t, true)) == ReadyToEnter(s, t, name);
    ReachesCons(s2, SpawnAlways(t, true), enter, z);
    assert Next(s1, AllocateId(t)) == s2;
    ReachesCons(s1, AllocateId(t), [SpawnAlways(t, true)] + enter, z);
    assert Next(s, CreateFind(t, name, true, None)) == s1;
    ReachesCons(s, CreateFind(t, name, true, None), [AllocateId(t)] + ([SpawnAlways(t, true)] + enter), z);
    assert CreateSteps(t, name) == [CreateFind(t, name, true, None)] + ([AllocateId(t)] + ([SpawnAlways(t, true)] + enter));
  }

  lemma LastStep(s: State, step: Step, z: State)
    requires Enabled(s, step) && Next(s, step) == z
    ensures Reaches(s, [step], z)
  {
    assert [step][1..] == [];
    assert Reaches(z, [], z);
  }

  /** A close, run by itself: the session goes, its marker with it, and its agent is closed. */
  lemma CloseRun(s: State, t: nat, id: Id) returns (z: State)
    requires t !in s.tasks && id in s.sessions && s.sessions[id].handle.Some?
    ensures Reaches(s, CloseSteps(t, id), z)
    ensures var sess := s.sessions[id];
      z == s.(sessions := s.sessions - {id}, live := s.live - {sess.handle.value}, closed := s.closed + [sess.handle.value],
              peers := Unbridged(s.peers, id, sess.name))
  {
    var name, h := s.sessions[id].name, s.sessions[id].handle;
    var s1 := Put(s, t, Unbridging(id, name, h)).(sessions := s.sessions - {id});
    var s2 := Put(s, t, ClosingAgent(h.value)).(sessions := s.sessions - {id}, peers := Unbridged(s.peers, id, name));
    z := Next(s2, CloseAgent(t));
    DoneUndoes(s2.(tasks := s.tasks), t, ClosingAgent(h.value));
    LastStep(s2, CloseAgent(t), z);
    assert Next(s1, Unbridge(t)) == s2;
    ReachesCons(s1, Unbridge(t), [CloseAgent(t)], z);
    assert Next(s, CloseRemove(t, id)) == s1;
    ReachesCons(s, CloseRemove(t, id), [Unbridge(t)] + [CloseAgent(t)], z);
    assert CloseSteps(t, id) == [CloseRemove(t, id)] + ([Unbridge(t)] + [CloseAgent(t)]);
  }

  /** A fresh daemon numbers its sessions from 1 and its agents from 0. */
  lemma FirstSession(peers: map<string, Peer>, t: nat, name: Option<string>) returns (z: State)
    ensures Reaches(Fresh(peers), CreateSteps(t, name), z)
    ensures z.sessions == map[1 := Session(name, Some(0))] && z.live == {0} && z.spawns == [Spawn(1, 0)] && z.inserted == [1]
  {
    z := CreateRun(Fresh(peers), t, name);
  }

  /** A new request can always start, of any kind, and one under way starts no other; and a live agent can die at any
      time. */
  lemma RequestsStart(s: State, t: nat, name: Option<string>, always: bool, id: Id, ok: bool, h: Handle)
    ensures t !in s.tasks <==> exists found :: Enabled(s, CreateFind(t, name, always, found))
    ensures t !in s.tasks <==> Enabled(s, Prompt(t, id, ok))
    ensures t !in s.tasks <==> Enabled(s, CloseRemove(t, id))
    ensures h in s.live <==> Enabled(s, AgentDies(h))
  {
    if t in s.tasks {
      assert forall found :: !Enabled(s, CreateFind(t, name, always, found));
    } else if name.Some? && name.value != "" && exists i :: i in s.sessions && s.sessions[i].name == name {
      var i :| i in s.sessions && s.sessions[i].name == name;
      assert Enabled(s, CreateFind(t, name, always, Some(i)));
    } else {
      assert Enabled(s, CreateFind(t, name, always, None));
    }
  }
}
