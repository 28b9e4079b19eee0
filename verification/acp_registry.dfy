/** The registry of agent sessions the daemon keeps for its HTTP clients. Requests run concurrently; each section
    of a request that holds the session lock, or runs one database statement, is one step. */
module AcpRegistry {
  import opened Prelude
  import Json
  import Framing

  type Id = nat
  type Handle = nat

  datatype Session = Session(name: Option<string>, handle: Option<Handle>)

  /** A peer row: whether its address is on another machine, and its session marker. */
  datatype Peer = Peer(remoteHomed: bool, marker: Option<string>)

  /** Where a request is between its steps. */
  datatype Task =
    | Creating(name: Option<string>, always: bool)
    | Spawning(id: Id, name: Option<string>)
    | Inserting(id: Id, name: Option<string>, handle: Option<Handle>)
    | Bridging(id: Id, name: Option<string>)
    | Unbridging(id: Id, name: Option<string>, handle: Option<Handle>)
    | ClosingAgent(agent: Handle)

  datatype Spawn = Spawn(id: Id, handle: Handle)

  /** `live`: agents whose process runs. History: `inserted` are the ids entered in the table, `spawns` the agents
      started for a session, `closed` the agents closed, each in order. */
  datatype State = State(
    sessions: map<Id, Session>,
    nextId: Id,
    nextHandle: Handle,
    live: set<Handle>,
    peers: map<string, Peer>,
    tasks: map<nat, Task>,
    inserted: seq<Id>,
    spawns: seq<Spawn>,
    closed: seq<Handle>)

  datatype Step =
    | CreateFind(t: nat, name: Option<string>, always: bool, found: Option<Id>)
    | AllocateId(t: nat)
    | SpawnAlways(t: nat, ok: bool)
    | Insert(t: nat)
    | Bridge(t: nat)
    | Prompt(t: nat, id: Id, ok: bool)
    | CloseRemove(t: nat, id: Id)
    | Unbridge(t: nat)
    | CloseAgent(t: nat)
    | AgentDies(handle: Handle)

  // ---------------------------------------------------------------- names

  function SessionName(id: Id): string {
    "acp-" + Json.PrintNat(id)
  }

  function Marker(id: Id): string {
    "acp:" + SessionName(id)
  }

  lemma MarkersDiffer(i: Id, j: Id)
    requires Marker(i) == Marker(j)
    ensures i == j
  {
    assert Marker(i)[8..] == Json.PrintNat(i) && Marker(j)[8..] == Json.PrintNat(j);
    Json.NatRoundTrip(i);
    Json.NatRoundTrip(j);
  }

  /** The alias of a label: trimmed, if anything remains. */
  function AliasOf(name: Option<string>): Option<string> {
    if name.None? || Framing.Trim(name.value) == "" then None else Some(Framing.Trim(name.value))
  }

  predicate Reusable(name: Option<string>) {
    name.Some? && name.value != ""
  }

  // ---------------------------------------------------------------- steps


  predicate Enabled(s: State, step: Step) {
    match step
    case CreateFind(t, name, always, found) =>
      && t !in s.tasks
      && (if Reusable(name) && exists i :: i in s.sessions && s.sessions[i].name == name
          then found.Some? && found.value in s.sessions && s.sessions[found.value].name == name
          else found.None?)
    case AllocateId(t) => t in s.tasks && s.tasks[t].Creating?
    case SpawnAlways(t, _) => t in s.tasks && s.tasks[t].Spawning?
    case Insert(t) => t in s.tasks && s.tasks[t].Inserting?
    case Bridge(t) => t in s.tasks && s.tasks[t].Bridging?
    case Prompt(t, _, _) => t !in s.tasks
    case CloseRemove(t, _) => t !in s.tasks
    case Unbridge(t) => t in s.tasks && s.tasks[t].Unbridging?
    case CloseAgent(t) => t in s.tasks && s.tasks[t].ClosingAgent?
    case AgentDies(h) => h in s.live
  }

  function Put(s: State, t: nat, task: Task): State {
    s.(tasks := s.tasks[t := task])
  }

  function Done(s: State, t: nat): State {
    s.(tasks := s.tasks - {t})
  }

  /** Starting an agent for a session. */
  function Started(s: State, id: Id): State {
    s.(nextHandle := s.nextHandle + 1, live := s.live + {s.nextHandle}, spawns := s.spawns + [Spawn(id, s.nextHandle)])
  }

  function Bridged(peers: map<string, Peer>, id: Id, name: Option<string>): map<string, Peer> {
    var alias := AliasOf(name);
    if alias.None? || alias.value !in peers || peers[alias.value].remoteHomed then peers
    else peers[alias.value := peers[alias.value].(marker := Some(Marker(id)))]
  }

  function Unbridged(peers: map<string, Peer>, id: Id, name: Option<string>): map<string, Peer> {
    var alias := AliasOf(name);
    if alias.None? || alias.value !in peers || peers[alias.value].marker != Some(Marker(id)) then peers
    else peers[alias.value := peers[alias.value].(marker := None)]
  }

  function Next(s: State, step: Step): State
    requires Enabled(s, step)
  {
    match step
    case CreateFind(t, name, always, found) =>
      if found.None? then Put(s, t, Creating(name, always))
      else
        var h := s.sessions[found.value].handle;
        if h.None? || h.value in s.live then s
        else Put(s, t, Creating(name, always)).(sessions := s.sessions - {found.value})
    case AllocateId(t) =>
      var task := s.tasks[t];
      Put(s, t, if task.always then Spawning(s.nextId, task.name) else Inserting(s.nextId, task.name, None))
        .(nextId := s.nextId + 1)
    case SpawnAlways(t, ok) =>
      var task := s.tasks[t];
      if ok then Put(Started(s, task.id), t, Inserting(task.id, task.name, Some(s.nextHandle))) else Done(s, t)
    case Insert(t) =>
      var task := s.tasks[t];
      Put(s, t, Bridging(task.id, task.name))
        .(sessions := s.sessions[task.id := Session(task.name, task.handle)], inserted := s.inserted + [task.id])
    case Bridge(t) => Done(s, t).(peers := Bridged(s.peers, s.tasks[t].id, s.tasks[t].name))
    case Prompt(t, id, ok) =>
      if id !in s.sessions || s.sessions[id].handle.Some? || !ok then s
      else
        Put(Started(s, id), t, Bridging(id, s.sessions[id].name))
          .(sessions := s.sessions[id := s.sessions[id].(handle := Some(s.nextHandle))])
    case CloseRemove(t, id) =>
      if id !in s.sessions then s
      else Put(s, t, Unbridging(id, s.sessions[id].name, s.sessions[id].handle)).(sessions := s.sessions - {id})
    case Unbridge(t) =>
      var task := s.tasks[t];
      var z := if task.handle.Some? then Put(s, t, ClosingAgent(task.handle.value)) else Done(s, t);
      z.(peers := Unbridged(s.peers, task.id, task.name))
    case CloseAgent(t) => Done(s, t).(closed := s.closed + [s.tasks[t].agent], live := s.live - {s.tasks[t].agent})
    case AgentDies(h) => s.(live := s.live - {h})
  }

  ghost predicate Reaches(s: State, steps: seq<Step>, z: State)
    decreases |steps|
  {
    if steps == [] then s == z else Enabled(s, steps[0]) && Reaches(Next(s, steps[0]), steps[1..], z)
  }

  function Fresh(peers: map<string, Peer>): State {
    State(map[], 1, 0, {}, peers, map[], [], [], [])
  }

  // ---------------------------------------------------------------- the invariant

  predicate Distinct(s: seq<nat>) {
    forall i, j :: 0 <= i < j < |s| ==> s[i] != s[j]
  }

  /** The id a request has been given and not yet entered. */
  function PendingId(task: Task): Option<Id> {
    match task
    case Spawning(id, _) => Some(id)
    case Inserting(id, _, _) => Some(id)
    case _ => None
  }

  /** The agent a request is responsible for. */
  function HeldHandle(task: Task): Option<Handle> {
    match task
    case Inserting(_, _, handle) => handle
    case Unbridging(_, _, handle) => handle
    case ClosingAgent(agent) => Some(agent)
    case _ => None
  }

  ghost predicate Holds(s: State, t: nat, h: Handle) {
    t in s.tasks && HeldHandle(s.tasks[t]) == Some(h)
  }

  ghost predicate Awaits(s: State, t: nat, id: Id) {
    t in s.tasks && PendingId(s.tasks[t]) == Some(id)
  }

  predicate Owns(s: State, id: Id, h: Handle) {
    id in s.sessions && s.sessions[id].handle == Some(h)
  }

  /** An id is entered once: those waiting to be entered are new and each waits in one request. */
  ghost predicate IdsOk(s: State) {
    && Distinct(s.inserted)
    && (forall i :: i in s.inserted ==> i < s.nextId)
    && (forall i :: i in s.sessions ==> i in s.inserted)
    && (forall t: nat, i: Id :: Awaits(s, t, i) ==> i < s.nextId && i !in s.inserted)
    && (forall t: nat, u: nat, i: Id :: Awaits(s, t, i) && Awaits(s, u, i) ==> t == u)
  }

  ghost predicate SpawnedFor(s: State, id: Id) {
    exists k :: 0 <= k < |s.spawns| && s.spawns[k].id == id
  }

  /** A session's agent was started once, or not yet. */
  ghost predicate SpawnsOk(s: State) {
    && (forall i, j :: 0 <= i < j < |s.spawns| ==> s.spawns[i].id != s.spawns[j].id && s.spawns[i].handle != s.spawns[j].handle)
    && (forall k :: 0 <= k < |s.spawns| ==> s.spawns[k].id < s.nextId && s.spawns[k].handle < s.nextHandle)
    && (forall i: Id :: i in s.sessions && s.sessions[i].handle.None? ==> !SpawnedFor(s, i))
    && (forall t: nat, i: Id :: Unspawned(s, t, i) ==> !SpawnedFor(s, i))
  }

  /** A request that will enter session `i`, with no agent for it yet. */
  ghost predicate Unspawned(s: State, t: nat, i: Id) {
    Awaits(s, t, i) && HeldHandle(s.tasks[t]).None?
  }

  /** An agent is in one place: a session, a request, or closed. */
  ghost predicate HandlesOk(s: State) {
    && Distinct(s.closed)
    && (forall h :: h in s.closed ==> h < s.nextHandle)
    && (forall i: Id, h: Handle :: Owns(s, i, h) ==> h < s.nextHandle && h !in s.closed)
    && (forall t: nat, h: Handle :: Holds(s, t, h) ==> h < s.nextHandle && h !in s.closed)
    && (forall i: Id, j: Id, h: Handle :: Owns(s, i, h) && Owns(s, j, h) ==> i == j)
    && (forall t: nat, u: nat, h: Handle :: Holds(s, t, h) && Holds(s, u, h) ==> t == u)
    && (forall i: Id, t: nat, h: Handle :: Owns(s, i, h) ==> !Holds(s, t, h))
  }

  ghost predicate Inv(s: State) {
    IdsOk(s) && SpawnsOk(s) && HandlesOk(s)
  }

  lemma AllocateKeepsIds(s: State, t: nat)
    requires IdsOk(s) && Enabled(s, AllocateId(t))
    ensures IdsOk(Next(s, AllocateId(t)))
  {
    var z := Next(s, AllocateId(t));
    assert forall u: nat, i: Id :: Awaits(z, u, i) ==> (u == t && i == s.nextId) || (u != t && Awaits(s, u, i));
  }

  lemma InsertKeepsIds(s: State, t: nat)
    requires IdsOk(s) && Enabled(s, Insert(t))
    ensures IdsOk(Next(s, Insert(t)))
  {
    var z := Next(s, Insert(t));
    assert Awaits(s, t, s.tasks[t].id);
    assert forall u: nat, i: Id :: Awaits(z, u, i) ==> u != t && Awaits(s, u, i);
  }

  lemma OtherStepsKeepIds(s: State, step: Step)
    requires IdsOk(s) && Enabled(s, step) && !step.AllocateId? && !step.Insert?
    ensures IdsOk(Next(s, step))
  {
    var z := Next(s, step);
    assert z.inserted == s.inserted && z.nextId == s.nextId;
    assert forall u: nat, i: Id :: Awaits(z, u, i) ==> Awaits(s, u, i);
    assert forall i :: i in z.sessions ==> i in s.sessions;
  }

  lemma StepKeepsIds(s: State, step: Step)
    requires IdsOk(s) && Enabled(s, step)
    ensures IdsOk(Next(s, step))
  {
    match step {
      case AllocateId(t) => AllocateKeepsIds(s, t);
      case Insert(t) => InsertKeepsIds(s, t);
      case _ => OtherStepsKeepIds(s, step);
    }
  }

  lemma NewSpawn(s: State, id: Id, z: State)
    requires IdsOk(s) && SpawnsOk(s) && !SpawnedFor(s, id) && id < s.nextId
    requires z.spawns == s.spawns + [Spawn(id, s.nextHandle)]
    ensures forall i :: SpawnedFor(z, i) <==> SpawnedFor(s, i) || i == id
  {
    forall i: Id ensures SpawnedFor(z, i) <==> SpawnedFor(s, i) || i == id {
      if SpawnedFor(s, i) {
        var k :| 0 <= k < |s.spawns| && s.spawns[k].id == i;
        assert z.spawns[k].id == i;
      }
      assert z.spawns[|s.spawns|].id == id;
    }
  }

  lemma SameSpawns(s: State, z: State)
    requires SpawnsOk(s) && z.spawns == s.spawns && z.nextHandle == s.nextHandle && z.nextId >= s.nextId
    requires forall i: Id :: i in z.sessions && z.sessions[i].handle.None? ==>
      (i in s.sessions && s.sessions[i].handle.None?) || exists t: nat :: Unspawned(s, t, i)
    requires forall t: nat, i: Id :: Unspawned(z, t, i) ==> Unspawned(s, t, i) || i >= s.nextId
    ensures SpawnsOk(z)
  {
    forall i: Id ensures SpawnedFor(z, i) <==> SpawnedFor(s, i) {
    }
    assert forall i: Id :: SpawnedFor(s, i) ==> i < s.nextId;
  }

  lemma PromptKeepsSpawns(s: State, t: nat, id: Id, ok: bool)
    requires IdsOk(s) && SpawnsOk(s) && Enabled(s, Prompt(t, id, ok))
    ensures SpawnsOk(Next(s, Prompt(t, id, ok)))
  {
    var z := Next(s, Prompt(t, id, ok));
    if id in s.sessions && s.sessions[id].handle.None? && ok {
      NewSpawn(s, id, z);
      forall u: nat, i: Id | Unspawned(z, u, i) ensures !SpawnedFor(z, i) {
        assert Unspawned(s, u, i);
      }
    }
  }

  lemma SpawnAlwaysKeepsSpawns(s: State, t: nat, ok: bool)
    requires IdsOk(s) && SpawnsOk(s) && Enabled(s, SpawnAlways(t, ok))
    ensures SpawnsOk(Next(s, SpawnAlways(t, ok)))
  {
    var z := Next(s, SpawnAlways(t, ok));
    if ok {
      var id := s.tasks[t].id;
      assert Unspawned(s, t, id);
      NewSpawn(s, id, z);
      forall u: nat, i: Id | Unspawned(z, u, i) ensures !SpawnedFor(z, i) {
        assert Unspawned(s, u, i);
      }
    } else {
      SameSpawns(s, z);
    }
  }

  lemma OtherStepsKeepSpawns(s: State, step: Step)
    requires IdsOk(s) && SpawnsOk(s) && Enabled(s, step) && !step.Prompt? && !step.SpawnAlways?
    ensures SpawnsOk(Next(s, step))
  {
    if step.Insert? && s.tasks[step.t].handle.None? {
      assert Unspawned(s, step.t, s.tasks[step.t].id);
    }
    SameSpawns(s, Next(s, step));
  }

  /** The holders of agents after a step that moves none. */
  ghost predicate SameHolders(s: State, z: State) {
    && z.closed == s.closed && z.nextHandle == s.nextHandle
    && (forall i: Id, h: Handle :: Owns(z, i, h) ==> Owns(s, i, h))
    && (forall t: nat, h: Handle :: Holds(z, t, h) ==> Holds(s, t, h))
  }

  lemma SameHoldersKeepHandles(s: State, z: State)
    requires HandlesOk(s) && SameHolders(s, z)
    ensures HandlesOk(z)
  {
  }

  /** A new agent in one new place. */
  lemma NewHandle(s: State, z: State)
    requires HandlesOk(s) && z.closed == s.closed && z.nextHandle == s.nextHandle + 1
    requires forall i: Id, h: Handle :: Owns(z, i, h) ==> Owns(s, i, h) || h == s.nextHandle
    requires forall t: nat, h: Handle :: Holds(z, t, h) ==> Holds(s, t, h) || h == s.nextHandle
    requires forall i, j :: Owns(z, i, s.nextHandle) && Owns(z, j, s.nextHandle) ==> i == j
    requires forall t, u :: Holds(z, t, s.nextHandle) && Holds(z, u, s.nextHandle) ==> t == u
    requires forall i, t :: Owns(z, i, s.nextHandle) ==> !Holds(z, t, s.nextHandle)
    ensures HandlesOk(z)
  {
    assert forall i: Id, h: Handle :: Owns(s, i, h) ==> h < s.nextHandle;
    assert forall t: nat, h: Handle :: Holds(s, t, h) ==> h < s.nextHandle;
  }

  lemma SpawnStepKeepsHandles(s: State, step: Step)
    requires HandlesOk(s) && Enabled(s, step) && (step.Prompt? || step.SpawnAlways?)
    ensures HandlesOk(Next(s, step))
  {
    var z := Next(s, step);
    if z.nextHandle == s.nextHandle {
      SameHoldersKeepHandles(s, z);
    } else {
      assert forall i: Id, h: Handle :: Owns(z, i, h) ==> Owns(s, i, h) || (step.Prompt? && i == step.id && h == s.nextHandle);
      assert forall t: nat, h: Handle :: Holds(z, t, h) ==> Holds(s, t, h) || (step.SpawnAlways? && t == step.t && h == s.nextHandle);
      assert forall i :: !Owns(s, i, s.nextHandle);
      assert forall t :: !Holds(s, t, s.nextHandle);
      NewHandle(s, z);
    }
  }

  lemma InsertKeepsHandles(s: State, t: nat)
    requires IdsOk(s) && HandlesOk(s) && Enabled(s, Insert(t))
    ensures HandlesOk(Next(s, Insert(t)))
  {
    var z := Next(s, Insert(t));
    var id, handle := s.tasks[t].id, s.tasks[t].handle;
    assert Awaits(s, t, id);
    assert forall i: Id, h: Handle :: Owns(z, i, h) ==> Owns(s, i, h) || (i == id && handle == Some(h) && Holds(s, t, h));
    assert forall u: nat, h: Handle :: Holds(z, u, h) ==> u != t && Holds(s, u, h);
  }

  lemma CloseRemoveKeepsHandles(s: State, t: nat, id: Id)
    requires HandlesOk(s) && Enabled(s, CloseRemove(t, id))
    ensures HandlesOk(Next(s, CloseRemove(t, id)))
  {
    var z := Next(s, CloseRemove(t, id));
    assert forall i: Id, h: Handle :: Owns(z, i, h) ==> i != id && Owns(s, i, h);
    assert forall u: nat, h: Handle :: Holds(z, u, h) ==> Holds(s, u, h) || (u == t && Owns(s, id, h));
  }

  lemma CloseAgentKeepsHandles(s: State, t: nat)
    requires HandlesOk(s) && Enabled(s, CloseAgent(t))
    ensures HandlesOk(Next(s, CloseAgent(t)))
  {
    var z := Next(s, CloseAgent(t));
    assert Holds(s, t, s.tasks[t].agent);
    assert forall i: Id, h: Handle :: Owns(z, i, h) ==> Owns(s, i, h);
    assert forall u: nat, h: Handle :: Holds(z, u, h) ==> u != t && Holds(s, u, h);
  }

  lemma StepKeepsHandles(s: State, step: Step)
    requires IdsOk(s) && HandlesOk(s) && Enabled(s, step)
    ensures HandlesOk(Next(s, step))
  {
    match step {
      case Prompt(_, _, _) => SpawnStepKeepsHandles(s, step);
      case SpawnAlways(_, _) => SpawnStepKeepsHandles(s, step);
      case Insert(t) => InsertKeepsHandles(s, t);
      case CloseRemove(t, id) => CloseRemoveKeepsHandles(s, t, id);
      case CloseAgent(t) => CloseAgentKeepsHandles(s, t);
      case _ => SameHoldersKeepHandles(s, Next(s, step));
    }
  }

  lemma StepKeepsInv(s: State, step: Step)
    requires Inv(s) && Enabled(s, step)
    ensures Inv(Next(s, step))
  {
    StepKeepsIds(s, step);
    StepKeepsHandles(s, step);
    match step {
      case Prompt(t, id, ok) => PromptKeepsSpawns(s, t, id, ok);
      case SpawnAlways(t, ok) => SpawnAlwaysKeepsSpawns(s, t, ok);
      case _ => OtherStepsKeepSpawns(s, step);
    }
  }

  lemma {:induction false} RunKeepsInv(s: State, steps: seq<Step>, z: State)
    requires Inv(s) && Reaches(s, steps, z)
    ensures Inv(z)
    decreases |steps|
  {
    if steps != [] {
      StepKeepsInv(s, steps[0]);
      RunKeepsInv(Next(s, steps[0]), steps[1..], z);
    }
  }

  // ---------------------------------------------------------------- whole runs

  /** What a create finds: a session of its label, when there is one. It is reused, and nothing changes, exactly when
      that session has no agent yet or a live one; one with a dead agent is forgotten, and then, as when there is none
      or the label is empty, a new session is under way. */
  lemma CreateReusesWhen(s: State, t: nat, name: Option<string>, always: bool, found: Option<Id>)
    requires Enabled(s, CreateFind(t, name, always, found))
    ensures found.Some? <==> name.Some? && name.value != "" && exists i :: i in s.sessions && s.sessions[i].name == name
    ensures var z := Next(s, CreateFind(t, name, always, found));
      if found.Some? && (s.sessions[found.value].handle == None || s.sessions[found.value].handle.value in s.live) then
        s.sessions[found.value].name == name && z == s
      else
        && z.tasks == s.tasks[t := Creating(name, always)]
        && z.sessions == (if found.Some? then s.sessions - {found.value} else s.sessions)
        && z.live == s.live && z.peers == s.peers && z.nextId == s.nextId
  {
  }

  /** However creates, prompts, closes and reaps interleave: no session id is entered twice, each session's agent
      is started at most once, no two sessions share an agent, and no agent is closed twice. */
  lemma SessionsAndAgentsAreUnique(peers: map<string, Peer>, steps: seq<Step>, s: State)
    requires Reaches(Fresh(peers), steps, s)
    ensures Distinct(s.inserted) && Distinct(s.closed)
    ensures forall i, j :: 0 <= i < j < |s.spawns| ==> s.spawns[i].id != s.spawns[j].id
    ensures forall i: Id, j: Id, h: Handle :: Owns(s, i, h) && Owns(s, j, h) ==> i == j
    ensures forall i: Id, h: Handle :: Owns(s, i, h) ==> h !in s.closed
  {
    RunKeepsInv(Fresh(peers), steps, s);
  }

  /** What a step does to the marker of a live session: it is lost exactly when that session itself is unbridged
      from the alias, or another session of the alias is bridged over it. Closing any other session keeps it. */
  lemma MarkerLostOnlyBy(s: State, step: Step, alias: string, id: Id)
    requires Enabled(s, step) && alias in s.peers && s.peers[alias].marker == Some(Marker(id))
    ensures alias in Next(s, step).peers
    ensures Next(s, step).peers[alias].marker != Some(Marker(id)) <==>
      || (step.Unbridge? && s.tasks[step.t].id == id && AliasOf(s.tasks[step.t].name) == Some(alias))
      || (step.Bridge? && s.tasks[step.t].id != id && AliasOf(s.tasks[step.t].name) == Some(alias) && !s.peers[alias].remoteHomed)
  {
    if step.Unbridge? && Marker(s.tasks[step.t].id) == Marker(id) {
      MarkersDiffer(s.tasks[step.t].id, id);
    }
    if step.Bridge? && Marker(s.tasks[step.t].id) == Marker(id) {
      MarkersDiffer(s.tasks[step.t].id, id);
    }
  }

  /** A row homed on another machine never gets a marker here. */
  lemma RemoteRowsAreNotBridged(s: State, step: Step, alias: string)
    requires Enabled(s, step) && alias in s.peers && s.peers[alias].remoteHomed
    ensures alias in Next(s, step).peers && Next(s, step).peers[alias].remoteHomed
    ensures Next(s, step).peers[alias].marker == s.peers[alias].marker || Next(s, step).peers[alias].marker.None?
  {
  }

  // ---------------------------------------------------------------- one session per name

  predicate Named(s: State, i: Id) {
    i in s.sessions && Reusable(s.sessions[i].name)
  }

  ghost predicate OneSessionPerLabel(s: State) {
    forall i, j :: Named(s, i) && Named(s, j) && s.sessions[i].name == s.sessions[j].name ==> i == j
  }

  /** The guard the insert lacks: a session of the label it enters is already in the table. */
  predicate MeetsItsLabel(s: State, step: Step)
    requires Enabled(s, step)
  {
    && step.Insert? && Reusable(s.tasks[step.t].name)
    && exists i :: i in s.sessions && s.sessions[i].name == s.tasks[step.t].name
  }

  lemma InsertMeetsOrKeeps(s: State, t: nat)
    requires IdsOk(s) && OneSessionPerLabel(s) && Enabled(s, Insert(t))
    ensures OneSessionPerLabel(Next(s, Insert(t))) <==> !MeetsItsLabel(s, Insert(t))
  {
    var z, id := Next(s, Insert(t)), s.tasks[t].id;
    assert Awaits(s, t, id);
    assert forall i :: Named(z, i) ==> i == id || (Named(s, i) && z.sessions[i] == s.sessions[i]);
    if MeetsItsLabel(s, Insert(t)) {
      var i :| i in s.sessions && s.sessions[i].name == s.tasks[t].name;
      assert Named(z, i) && Named(z, id) && z.sessions[i].name == z.sessions[id].name;
    }
  }

  /** One step from unique labels: they stay unique exactly unless it enters a session whose label is there. */
  lemma LabelBrokenOnlyBy(s: State, step: Step)
    requires IdsOk(s) && OneSessionPerLabel(s) && Enabled(s, step)
    ensures OneSessionPerLabel(Next(s, step)) <==> !MeetsItsLabel(s, step)
  {
    match step {
      case Insert(t) => InsertMeetsOrKeeps(s, t);
      case _ =>
        var z := Next(s, step);
        assert forall i :: Named(z, i) ==> Named(s, i) && z.sessions[i].name == s.sessions[i].name;
    }
  }

  /** Every state of the run has one session per label. */
  ghost predicate UniqueAlong(s: State, steps: seq<Step>)
    decreases |steps|
  {
    && OneSessionPerLabel(s)
    && (steps == [] || (Enabled(s, steps[0]) && UniqueAlong(Next(s, steps[0]), steps[1..])))
  }

  /** No insert of the run meets a session of its label. */
  ghost predicate NoInsertMeets(s: State, steps: seq<Step>)
    decreases |steps|
  {
    steps == [] || (Enabled(s, steps[0]) && !MeetsItsLabel(s, steps[0]) && NoInsertMeets(Next(s, steps[0]), steps[1..]))
  }

  lemma {:induction false} UniqueAlongWhen(s: State, steps: seq<Step>, z: State)
    requires IdsOk(s) && OneSessionPerLabel(s) && Reaches(s, steps, z)
    ensures UniqueAlong(s, steps) <==> NoInsertMeets(s, steps)
    decreases |steps|
  {
    if steps != [] {
      LabelBrokenOnlyBy(s, steps[0]);
      StepKeepsIds(s, steps[0]);
      if !MeetsItsLabel(s, steps[0]) {
        UniqueAlongWhen(Next(s, steps[0]), steps[1..], z);
      }
    }
  }

  /** However requests interleave: every state of a run has one session per label if and only if no insert of the
      run meets a session of its label. */
  lemma LabelsAreUniqueWhen(peers: map<string, Peer>, steps: seq<Step>, z: State)
    requires Reaches(Fresh(peers), steps, z)
    ensures UniqueAlong(Fresh(peers), steps) <==> NoInsertMeets(Fresh(peers), steps)
  {
    UniqueAlongWhen(Fresh(peers), steps, z);
  }

  // ---------------------------------------------------------------- creates that do not overlap

  /** A request that has found no session of its label and has not entered one. */
  ghost predicate WantsLabel(s: State, t: nat, name: Option<string>) {
    t in s.tasks && (s.tasks[t].Creating? || s.tasks[t].Spawning? || s.tasks[t].Inserting?) && s.tasks[t].name == name
  }

  /** No label is wanted by two creates at once, or by one while a session of it is in the table. */
  ghost predicate CreatesSerialised(s: State) {
    && (forall t, u, name :: Reusable(name) && WantsLabel(s, t, name) && WantsLabel(s, u, name) ==> t == u)
    && (forall t, i :: i in s.sessions && Reusable(s.sessions[i].name) ==> !WantsLabel(s, t, s.sessions[i].name))
  }

  /** No create of a label starts while another of it is under way. */
  ghost predicate StartsAlone(s: State, step: Step) {
    step.CreateFind? && Reusable(step.name) ==> forall t :: !WantsLabel(s, t, step.name)
  }

  lemma FindKeepsSerial(s: State, step: Step)
    requires OneSessionPerLabel(s) && CreatesSerialised(s) && step.CreateFind? && Enabled(s, step) && StartsAlone(s, step)
    ensures CreatesSerialised(Next(s, step))
  {
    var z := Next(s, step);
    assert forall u, l :: WantsLabel(z, u, l) ==> WantsLabel(s, u, l) || (u == step.t && l == step.name);
    assert forall i :: Named(z, i) ==> Named(s, i) && z.sessions[i] == s.sessions[i];
    if z != s && Reusable(step.name) {
      assert forall i :: Named(z, i) ==> z.sessions[i].name != step.name;
    }
  }

  lemma OthersKeepSerial(s: State, step: Step)
    requires CreatesSerialised(s) && Enabled(s, step) && !step.CreateFind?
    ensures CreatesSerialised(Next(s, step))
  {
    var z := Next(s, step);
    if step.Insert? {
      assert WantsLabel(s, step.t, s.tasks[step.t].name);
      assert forall u, l :: WantsLabel(z, u, l) ==> WantsLabel(s, u, l) && u != step.t;
    } else {
      assert forall u, l :: WantsLabel(z, u, l) ==> WantsLabel(s, u, l);
      assert forall i :: Named(z, i) ==> Named(s, i) && z.sessions[i].name == s.sessions[i].name;
    }
  }

  /** When creates of one label do not overlap, an insert never meets a session of its label. */
  lemma SerialCreatesKeepLabels(s: State, step: Step)
    requires IdsOk(s) && OneSessionPerLabel(s) && CreatesSerialised(s) && Enabled(s, step) && StartsAlone(s, step)
    ensures !MeetsItsLabel(s, step)
    ensures OneSessionPerLabel(Next(s, step)) && CreatesSerialised(Next(s, step))
  {
    if step.CreateFind? {
      FindKeepsSerial(s, step);
    } else {
      OthersKeepSerial(s, step);
    }
    if step.Insert? {
      assert WantsLabel(s, step.t, s.tasks[step.t].name);
    }
    LabelBrokenOnlyBy(s, step);
  }

  /** A run in which every create starts alone. */
  ghost predicate SerialReaches(s: State, steps: seq<Step>, z: State)
    decreases |steps|
  {
    if steps == [] then s == z
    else Enabled(s, steps[0]) && StartsAlone(s, steps[0]) && SerialReaches(Next(s, steps[0]), steps[1..], z)
  }

  lemma {:induction false} SerialInsertsMeetNone(s: State, steps: seq<Step>, z: State)
    requires IdsOk(s) && OneSessionPerLabel(s) && CreatesSerialised(s) && SerialReaches(s, steps, z)
    ensures NoInsertMeets(s, steps) && Reaches(s, steps, z)
    decreases |steps|
  {
    if steps != [] {
      StepKeepsIds(s, steps[0]);
      SerialCreatesKeepLabels(s, steps[0]);
      SerialInsertsMeetNone(Next(s, steps[0]), steps[1..], z);
    }
  }

  /** So a run in which creates of one label do not overlap has one session per label throughout. */
  lemma SerialRunHasOneSessionPerLabel(peers: map<string, Peer>, steps: seq<Step>, z: State)
    requires SerialReaches(Fresh(peers), steps, z)
    ensures UniqueAlong(Fresh(peers), steps)
  {
    SerialInsertsMeetNone(Fresh(peers), steps, z);
    LabelsAreUniqueWhen(peers, steps, z);
  }

  /** Two overlapping creates of one label: both look before either enters its session. */
  function OverlappingCreates(name: string): seq<Step> {
    [CreateFind(0, Some(name), false, None), CreateFind(1, Some(name), false, None),
     AllocateId(0), AllocateId(1), Insert(0), Insert(1)]
  }

  lemma ReachesCons(s: State, step: Step, rest: seq<Step>, z: State)
    requires Enabled(s, step) && Reaches(Next(s, step), rest, z)
    ensures Reaches(s, [step] + rest, z)
  {
    assert ([step] + rest)[1..] == rest;
  }

  /** The state in which both creates have an id and neither session is entered. */
  function BothWaiting(name: string): State {
    Fresh(map[]).(nextId := 3, tasks := map[0 := Inserting(1, Some(name), None), 1 := Inserting(2, Some(name), None)])
  }

  lemma InsertBoth(name: string) returns (s: State)
    requires name != ""
    ensures Reaches(BothWaiting(name), [Insert(0)] + ([Insert(1)] + []), s) && !OneSessionPerLabel(s)
  {
    var s4 := BothWaiting(name);
    var s5 := Next(s4, Insert(0));
    s := Next(s5, Insert(1));
    assert s.sessions == map[1 := Session(Some(name), None), 2 := Session(Some(name), None)];
    assert Named(s, 1) && Named(s, 2) && s.sessions[1].name == s.sessions[2].name;
    ReachesCons(s5, Insert(1), [], s);
    ReachesCons(s4, Insert(0), [Insert(1)] + [], s);
  }

  /** So they leave two sessions of one label. */
  lemma OverlappingCreatesDuplicate(name: string) returns (s: State)
    requires name != ""
    ensures Reaches(Fresh(map[]), OverlappingCreates(name), s) && !OneSessionPerLabel(s)
  {
    s := InsertBoth(name);
    var inserts := [Insert(0)] + ([Insert(1)] + []);
    var find0, find1 := CreateFind(0, Some(name), false, None), CreateFind(1, Some(name), false, None);
    var s0 := Fresh(map[]);
    var s1 := s0.(tasks := map[0 := Creating(Some(name), false)]);
    var s2 := s0.(tasks := map[0 := Creating(Some(name), false), 1 := Creating(Some(name), false)]);
    var s3 := s0.(nextId := 2, tasks := map[0 := Inserting(1, Some(name), None), 1 := Creating(Some(name), false)]);
    assert Next(s3, AllocateId(1)) == BothWaiting(name);
    ReachesCons(s3, AllocateId(1), inserts, s);
    assert Next(s2, AllocateId(0)) == s3;
    ReachesCons(s2, AllocateId(0), [AllocateId(1)] + inserts, s);
    assert Next(s1, find1) == s2;
    ReachesCons(s1, find1, [AllocateId(0)] + ([AllocateId(1)] + inserts), s);
    assert Next(s0, find0) == s1;
    ReachesCons(s0, find0, [find1] + ([AllocateId(0)] + ([AllocateId(1)] + inserts)), s);
    assert OverlappingCreates(name) == [find0] + ([find1] + ([AllocateId(0)] + ([AllocateId(1)] + inserts)));
  }

  // ---------------------------------------------------------------- the registry

  /** The daemon's state, with the locked section of each request as a method. */
  class AcpHttpState {
    var state: State

    constructor (peers: map<string, Peer>)
      ensures state == Fresh(peers)
    {
      state := Fresh(peers);
    }

    /** The first section of `create_session`: reuse a session of the label whose agent is not dead, and forget one
        whose agent is. `found` is the one the table yields first. */
    method FindOrStartCreate(t: nat, name: Option<string>, always: bool, found: Option<Id>) returns (reused: Option<Id>)
      requires Enabled(state, CreateFind(t, name, always, found))
      modifies this
      ensures state == Next(old(state), CreateFind(t, name, always, found))
      ensures reused.Some? ==> reused == found && state == old(state)
      ensures reused.None? ==> t in state.tasks && state.tasks[t] == Creating(name, always)
    {
      if found.Some? {
        var h := state.sessions[found.value].handle;
        if h.None? || h.value in state.live {
          return found;
        }
        state := state.(sessions := state.sessions - {found.value});
      }
      state := Put(state, t, Creating(name, always));
      reused := None;
    }

    /** The locked section of `prompt`: the agent is started here if the session has none, under the lock. */
    method ResolveForPrompt(t: nat, id: Id, spawnSucceeds: bool) returns (r: Option<Handle>)
      requires Enabled(state, Prompt(t, id, spawnSucceeds))
      modifies this
      ensures state == Next(old(state), Prompt(t, id, spawnSucceeds))
      ensures r.Some? <==> id in old(state).sessions && (old(state).sessions[id].handle.Some? || spawnSucceeds)
      ensures r.Some? ==> Owns(state, id, r.value)
    {
      if id !in state.sessions {
        return None;
      }
      var sess := state.sessions[id];
      if sess.handle.None? {
        if !spawnSucceeds {
          return None;
        }
        var h := state.nextHandle;
        state := Started(state, id);
        state := state.(sessions := state.sessions[id := sess.(handle := Some(h))]);
        state := Put(state, t, Bridging(id, sess.name));
        return Some(h);
      }
      r := sess.handle;
    }

    /** The locked section of `close`, shared by the reaper. */
    method RemoveSession(t: nat, id: Id) returns (known: bool)
      requires Enabled(state, CloseRemove(t, id))
      modifies this
      ensures state == Next(old(state), CloseRemove(t, id))
      ensures known <==> id in old(state).sessions
      ensures id !in state.sessions
    {
      known := id in state.sessions;
      if known {
        var sess := state.sessions[id];
        state := state.(sessions := state.sessions - {id});
        state := Put(state, t, Unbridging(id, sess.name, sess.handle));
      }
    }

    method BridgeSessionAsPeer(t: nat)
      requires Enabled(state, Bridge(t))
      modifies this
      ensures state == Next(old(state), Bridge(t))
    {
      var task := state.tasks[t];
      state := Done(state, t);
      var alias := AliasOf(task.name);
      if alias.None? {
        return;
      }
      if alias.value in state.peers && !state.peers[alias.value].remoteHomed {
        state := state.(peers := state.peers[alias.value := state.peers[alias.value].(marker := Some(Marker(task.id)))]);
      }
    }

    method UnbridgeSessionPeer(t: nat)
      requires Enabled(state, Unbridge(t))
      modifies this
      ensures state == Next(old(state), Unbridge(t))
    {
      var task := state.tasks[t];
      state := if task.handle.Some? then Put(state, t, ClosingAgent(task.handle.value)) else Done(state, t);
      var alias := AliasOf(task.name);
      if alias.Some? && alias.value in state.peers && state.peers[alias.value].marker == Some(Marker(task.id)) {
        state := state.(peers := state.peers[alias.value := state.peers[alias.value].(marker := None)]);
      }
    }
  }
}
