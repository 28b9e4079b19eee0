/** One daemon per data directory: an advisory lock the kernel releases when its holder's file closes or its
    process ends, and a pid file that outlives crashes. Processes start, acquire, end and crash in any
    interleaving, one file-system or process operation at a time. */
module Singleton {
  import opened Prelude

  type Pid = int

  /** Where a process is in its life: before, inside, past and after `acquire`. */
  datatype Phase =
    | Starting
    | Refused
    | Locked
    | Claiming
    | Writing
    | Running
    | Closing
    | Ended

  /** Processes are numbered in the order they start; a pid names at most one live process. `file` is the pid the
      pid file holds, if it exists and parses; `writer` is the process that wrote it. */
  datatype State = State(
    pids: map<nat, Pid>,
    phase: map<nat, Phase>,
    others: set<Pid>,
    lock: Option<nat>,
    file: Option<Pid>,
    writer: nat)

  datatype Step =
    | Spawn(i: nat, pid: Pid)
    | TryLock(i: nat)
    | CheckPid(i: nat)
    | Truncate(i: nat)
    | WritePid(i: nat)
    | WriteFails(i: nat)
    | RemovePid(i: nat)
    | RemoveFails(i: nat)
    | Close(i: nat)
    | Crash(i: nat)
    | OtherStarts(pid: Pid)
    | OtherEnds(pid: Pid)

  predicate Live(s: State, i: nat) {
    i in s.phase && i in s.pids
  }

  /** What `kill(pid, 0)` answers. */
  predicate PidAlive(s: State, p: Pid) {
    p > 0 && (p in s.others || exists i :: i in s.phase && Live(s, i) && s.pids[i] == p)
  }

  /** The second line of defence of `acquire`: the pid file names another live process. */
  predicate Blocked(s: State, i: nat)
    requires i in s.pids
  {
    s.file.Some? && PidAlive(s, s.file.value) && s.file.value != s.pids[i]
  }

  predicate In(s: State, i: nat, p: Phase) {
    Live(s, i) && s.phase[i] == p
  }

  predicate Enabled(s: State, step: Step) {
    match step
    case Spawn(i, pid) => i !in s.pids && i !in s.phase && pid > 0 && !PidAlive(s, pid)
    case TryLock(i) => In(s, i, Starting)
    case CheckPid(i) => In(s, i, Locked)
    case Truncate(i) => In(s, i, Claiming)
    case WritePid(i) => In(s, i, Writing)
    case WriteFails(i) => In(s, i, Claiming) || In(s, i, Writing)
    case RemovePid(i) => In(s, i, Running)
    case RemoveFails(i) => In(s, i, Running)
    case Close(i) => In(s, i, Closing)
    case Crash(i) => Live(s, i)
    case OtherStarts(pid) => pid > 0 && !PidAlive(s, pid)
    case OtherEnds(pid) => pid in s.others
  }

  function Enter(s: State, i: nat, p: Phase): State {
    s.(phase := s.phase[i := p])
  }

  function Next(s: State, step: Step): State
    requires Enabled(s, step)
  {
    match step
    case Spawn(i, pid) => Enter(s, i, Starting).(pids := s.pids[i := pid])
    case TryLock(i) => if s.lock.None? then Enter(s, i, Locked).(lock := Some(i)) else Enter(s, i, Refused)
    case CheckPid(i) => Enter(s, i, if Blocked(s, i) then Closing else Claiming)
    case Truncate(i) => Enter(s, i, Writing).(file := None)
    case WritePid(i) => Enter(s, i, Running).(file := Some(s.pids[i]), writer := i)
    case WriteFails(i) => Enter(s, i, Closing)
    case RemovePid(i) => Enter(s, i, Closing).(file := None)
    case RemoveFails(i) => Enter(s, i, Closing)
    case Close(i) => Enter(s, i, Ended).(lock := None)
    case Crash(i) => s.(phase := s.phase - {i}, lock := if s.lock == Some(i) then None else s.lock)
    case OtherStarts(pid) => s.(others := s.others + {pid})
    case OtherEnds(pid) => s.(others := s.others - {pid})
  }

  ghost predicate Reaches(s: State, steps: seq<Step>, z: State)
    decreases |steps|
  {
    if steps == [] then s == z else Enabled(s, steps[0]) && Reaches(Next(s, steps[0]), steps[1..], z)
  }

  function Booted(others: set<Pid>): State {
    State(map[], map[], others, None, None, 0)
  }

  // ---------------------------------------------------------------- the invariant

  predicate HoldsLock(p: Phase) {
    p != Starting && p != Refused && p != Ended
  }

  /** Live processes have pids of their own. */
  ghost predicate PidsOk(s: State) {
    && (forall i :: i in s.phase ==> i in s.pids && s.pids[i] > 0 && s.pids[i] !in s.others)
    && (forall i, j :: i in s.phase && j in s.phase && s.pids[i] == s.pids[j] ==> i == j)
  }

  /** The phases between getting and giving back the lock are those of its holder. */
  ghost predicate LockOk(s: State) {
    && (forall i :: i in s.phase ==> (HoldsLock(s.phase[i]) <==> s.lock == Some(i)))
    && (s.lock.Some? ==> s.lock.value in s.phase)
  }

  /** The pid file is the running process's, and otherwise that of the last process that wrote it. */
  ghost predicate FileOk(s: State) {
    && (forall i :: In(s, i, Running) ==> s.file == Some(s.pids[i]) && s.writer == i)
    && (forall i :: In(s, i, Writing) ==> s.file.None?)
    && (s.file.Some? ==> s.writer in s.pids && s.file.value == s.pids[s.writer])
  }

  ghost predicate Inv(s: State) {
    PidsOk(s) && LockOk(s) && FileOk(s)
  }

  lemma StepKeepsPids(s: State, step: Step)
    requires PidsOk(s) && Enabled(s, step)
    ensures PidsOk(Next(s, step))
  {
    match step {
      case Spawn(i, pid) =>
      case Crash(i) =>
      case OtherStarts(pid) =>
      case OtherEnds(pid) =>
      case _ =>
        assert Next(s, step).phase.Keys == s.phase.Keys;
    }
  }

  lemma StepKeepsLock(s: State, step: Step)
    requires PidsOk(s) && LockOk(s) && Enabled(s, step)
    ensures LockOk(Next(s, step))
  {
    match step {
      case Spawn(i, pid) =>
      case TryLock(i) =>
      case Close(i) =>
      case Crash(i) =>
      case OtherStarts(pid) =>
      case OtherEnds(pid) =>
      case _ =>
        assert s.lock == Some(step.i);
    }
  }

  predicate ByHolder(step: Step) {
    !(step.Spawn? || step.TryLock? || step.Crash? || step.OtherStarts? || step.OtherEnds?)
  }

  lemma QuietStepKeepsFile(s: State, step: Step)
    requires Inv(s) && Enabled(s, step) && !ByHolder(step)
    ensures FileOk(Next(s, step))
  {
    var z := Next(s, step);
    assert z.file == s.file && z.writer == s.writer;
    assert forall k :: In(z, k, Running) ==> In(s, k, Running) && z.pids[k] == s.pids[k];
    assert forall k :: In(z, k, Writing) ==> In(s, k, Writing);
  }

  lemma HolderStepKeepsFile(s: State, step: Step)
    requires Inv(s) && Enabled(s, step) && ByHolder(step)
    ensures FileOk(Next(s, step))
  {
    var z := Next(s, step);
    assert s.lock == Some(step.i) && z.pids == s.pids && z.phase.Keys == s.phase.Keys;
    forall k | k != step.i ensures !In(z, k, Running) && !In(z, k, Writing) {
      assert Live(s, k) ==> !HoldsLock(s.phase[k]);
    }
  }

  lemma StepKeepsInv(s: State, step: Step)
    requires Inv(s) && Enabled(s, step)
    ensures Inv(Next(s, step))
  {
    StepKeepsPids(s, step);
    StepKeepsLock(s, step);
    if ByHolder(step) {
      HolderStepKeepsFile(s, step);
    } else {
      QuietStepKeepsFile(s, step);
    }
  }

  lemma {:induction false} RunKeepsInv(s: State, steps: seq<Step>, z: State)
    requires Inv(s) && Reaches(s, steps, z)
    ensures Inv(z)
    decreases |steps|
  {
    if steps != [] {
      StepKeepsInv(s, steps[0]);
      RunKeepsInv(Next(s, steps[0]), steps[1..], z);
    }
  }

  // ---------------------------------------------------------------- safety over all runs

  /** At most one process is ever past `acquire`, and while it runs the pid file names it. */
  lemma AtMostOneRuns(others: set<Pid>, steps: seq<Step>, s: State, i: nat, j: nat)
    requires Reaches(Booted(others), steps, s) && In(s, i, Running)
    ensures In(s, j, Running) ==> i == j
    ensures s.file == Some(s.pids[i]) && s.lock == Some(i)
  {
    RunKeepsInv(Booted(others), steps, s);
  }

  /** The process a step belongs to. */
  function ActorOf(step: Step): Option<nat> {
    match step
    case OtherStarts(_) => None
    case OtherEnds(_) => None
    case _ => Some(step.i)
  }

  /** Only the lock holder writes or removes the pid file. */
  lemma OnlyHolderChangesFile(others: set<Pid>, steps: seq<Step>, s: State, step: Step)
    requires Reaches(Booted(others), steps, s) && Enabled(s, step)
    requires Next(s, step).file != s.file || step.Truncate? || step.WritePid? || step.RemovePid?
    ensures s.lock.Some? && ActorOf(step) == s.lock
  {
    RunKeepsInv(Booted(others), steps, s);
  }

  // ---------------------------------------------------------------- starting

  /** The steps of one uninterrupted `acquire` that is not refused. */
  function AcquireSteps(i: nat): seq<Step> {
    [TryLock(i), CheckPid(i), Truncate(i), WritePid(i)]
  }

  /** Exactly when an uninterrupted start gets past `acquire`: the lock is free and the pid file is absent,
      unreadable, names no live process, or names the starter itself. */
  lemma StartSucceedsWhen(s: State, i: nat)
    requires Inv(s) && In(s, i, Starting)
    ensures (exists z :: Reaches(s, AcquireSteps(i), z) && In(z, i, Running)) <==> s.lock.None? && !Blocked(s, i)
  {
    if s.lock.None? && !Blocked(s, i) {
      var z := AcquireRun(s, i);
    }
    forall z | Reaches(s, AcquireSteps(i), z) && In(z, i, Running) ensures s.lock.None? && !Blocked(s, i) {
      AcquireNeeds(s, i, z);
    }
  }

  lemma AcquireNeeds(s: State, i: nat, z: State)
    requires In(s, i, Starting) && Reaches(s, AcquireSteps(i), z)
    ensures s.lock.None? && !Blocked(s, i)
  {
    var t := Next(s, TryLock(i));
    var rest := AcquireSteps(i)[1..];
    assert rest == [CheckPid(i), Truncate(i), WritePid(i)];
    assert Enabled(t, rest[0]) && Reaches(Next(t, rest[0]), rest[1..], z);
    assert rest[1..] == [Truncate(i), WritePid(i)];
    assert Enabled(Next(t, CheckPid(i)), rest[1..][0]);
    SamePids(s, t, i);
  }

  /** The lock and the phases do not enter what the pid file says. */
  lemma SamePids(s: State, t: State, i: nat)
    requires i in s.phase && i in s.pids && s.pids == t.pids && s.others == t.others && s.file == t.file
    requires s.phase.Keys == t.phase.Keys
    ensures Blocked(s, i) == Blocked(t, i)
  {
  }

  /** The rest of a failed `acquire`, and of one that succeeds. */
  function GiveBack(s: State, i: nat): State
    requires In(s, i, Locked) && Blocked(s, i)
  {
    Next(Next(s, CheckPid(i)), Close(i))
  }

  function Claim(s: State, i: nat): State
    requires In(s, i, Locked) && !Blocked(s, i)
  {
    Next(Next(Next(s, CheckPid(i)), Truncate(i)), WritePid(i))
  }

  lemma RefusedRun(s: State, i: nat)
    requires Inv(s) && In(s, i, Starting) && s.lock.Some?
    ensures var z := Next(s, TryLock(i)); Inv(z) && z.file == s.file && z.lock == s.lock
  {
    StepKeepsInv(s, TryLock(i));
  }

  lemma BlockedRun(s: State, i: nat)
    requires Inv(s) && In(s, i, Starting) && s.lock.None? && Blocked(s, i)
    ensures var t := Next(s, TryLock(i));
      In(t, i, Locked) && Blocked(t, i) && Inv(GiveBack(t, i)) && GiveBack(t, i).file == s.file && GiveBack(t, i).lock.None?
  {
    var t := Next(s, TryLock(i));
    StepKeepsInv(s, TryLock(i));
    SamePids(s, t, i);
    StepKeepsInv(t, CheckPid(i));
    StepKeepsInv(Next(t, CheckPid(i)), Close(i));
  }

  lemma AcquireKeepsInv(s: State, i: nat)
    requires Inv(s) && In(s, i, Starting) && s.lock.None? && !Blocked(s, i)
    ensures var t := Next(s, TryLock(i));
      && In(t, i, Locked) && !Blocked(t, i) && Inv(Claim(t, i)) && Reaches(s, AcquireSteps(i), Claim(t, i))
      && In(Claim(t, i), i, Running) && Claim(t, i).lock == Some(i) && Claim(t, i).file == Some(s.pids[i])
      && Claim(t, i).pids == s.pids
  {
    var z := AcquireRun(s, i);
    RunKeepsInv(s, AcquireSteps(i), z);
  }

  lemma AcquireRun(s: State, i: nat) returns (z: State)
    requires Inv(s) && In(s, i, Starting) && s.lock.None? && !Blocked(s, i)
    ensures Reaches(s, AcquireSteps(i), z) && In(z, i, Running) && z.file == Some(s.pids[i]) && z.lock == Some(i)
    ensures var t := Next(s, TryLock(i)); In(t, i, Locked) && !Blocked(t, i) && z == Claim(t, i) && z.pids == s.pids
  {
    var t := Next(s, TryLock(i));
    SamePids(s, t, i);
    var u := Next(t, CheckPid(i));
    var v := Next(u, Truncate(i));
    z := Next(v, WritePid(i));
    assert [WritePid(i)][1..] == [];
    assert Reaches(v, [WritePid(i)], z);
    assert [Truncate(i), WritePid(i)][1..] == [WritePid(i)];
    assert Reaches(u, [Truncate(i), WritePid(i)], z);
    assert [CheckPid(i), Truncate(i), WritePid(i)][1..] == [Truncate(i), WritePid(i)];
    assert Reaches(t, [CheckPid(i), Truncate(i), WritePid(i)], z);
    assert AcquireSteps(i)[1..] == [CheckPid(i), Truncate(i), WritePid(i)];
  }

  /** After the crash of the process that runs the daemon the lock is free, the pid file still names the dead
      process, and no live process has that pid: no process that was live at the crash is blocked. */
  lemma CrashFreesTheDirectory(others: set<Pid>, steps: seq<Step>, s: State, r: nat, i: nat)
    requires Reaches(Booted(others), steps, s) && In(s, r, Running) && Live(s, i) && i != r
    ensures var z := Next(s, Crash(r));
      z.lock.None? && z.file == Some(s.pids[r]) && !PidAlive(z, s.pids[r]) && !Blocked(z, i)
  {
    RunKeepsInv(Booted(others), steps, s);
  }

  /** In every run, a start that finds the lock free is blocked exactly when the pid the file's writer had names
      a live process other than the starter: the writer itself, ended with its pid file not removed, or, when
      the writer is dead, a process that was given the same pid. */
  lemma BlockedOnlyByReusedPid(others: set<Pid>, steps: seq<Step>, s: State, i: nat)
    requires Reaches(Booted(others), steps, s) && In(s, i, Starting) && s.lock.None?
    ensures Blocked(s, i) <==>
      && s.file.Some? && s.writer in s.pids && s.pids[s.writer] != s.pids[i]
      && (|| In(s, s.writer, Ended)
          || In(s, s.writer, Starting) || In(s, s.writer, Refused)
          || (s.writer !in s.phase
              && (s.pids[s.writer] in s.others || exists j :: Live(s, j) && j != i && s.pids[j] == s.pids[s.writer])))
  {
    RunKeepsInv(Booted(others), steps, s);
    if s.file.Some? {
      var w := s.writer;
      if w in s.phase {
        assert !HoldsLock(s.phase[w]);
        assert PidAlive(s, s.pids[w]);
      } else if s.pids[w] in s.others {
        WriterPidPositive(others, steps, s);
      }
    }
  }

  ghost predicate PidsPositive(s: State) {
    forall i :: i in s.pids ==> s.pids[i] > 0
  }

  lemma {:induction false} RunKeepsPidsPositive(s: State, steps: seq<Step>, z: State)
    requires PidsPositive(s) && Reaches(s, steps, z)
    ensures PidsPositive(z)
    decreases |steps|
  {
    if steps != [] {
      RunKeepsPidsPositive(Next(s, steps[0]), steps[1..], z);
    }
  }

  lemma WriterPidPositive(others: set<Pid>, steps: seq<Step>, s: State)
    requires Reaches(Booted(others), steps, s)
    ensures PidsPositive(s)
  {
    RunKeepsPidsPositive(Booted(others), steps, s);
  }

  // ---------------------------------------------------------------- the guard

  /** The lock file and the pid file of one data directory, with the processes of the machine. */
  class DataDir {
    var state: State

    constructor (others: set<Pid>)
      ensures state == Booted(others)
    {
      state := Booted(others);
    }

    /** `acquire` of process `i` with nothing interleaved: on failure it reports the pid in the file, or -1 for a
        held lock and no readable pid, leaves the pid file alone, and gives back a lock it got. */
    method Acquire(i: nat) returns (r: Result<bool, Pid>)
      requires Inv(state) && In(state, i, Starting)
      modifies this
      ensures Inv(state)
      ensures r.Ok? <==> old(state).lock.None? && !Blocked(old(state), i)
      ensures r.Ok? ==> Reaches(old(state), AcquireSteps(i), state) && In(state, i, Running)
                        && state.lock == Some(i) && state.file == Some(state.pids[i])
      ensures r.Err? ==> state.file == old(state).file && state.lock == old(state).lock
      ensures r.Err? ==> state == Enter(old(state), i, if old(state).lock.Some? then Refused else Ended)
      ensures r.Err? && old(state).lock.Some? ==> r.error == if state.file.Some? then state.file.value else -1
      ensures r.Err? && old(state).lock.None? ==> Some(r.error) == state.file
    {
      ghost var before := state;
      state := Next(state, TryLock(i));
      if state.phase[i] == Refused {
        RefusedRun(before, i);
        return Err(if state.file.Some? then state.file.value else -1);
      }
      SamePids(before, state, i);
      var blocked := state.file.Some? && PidAlive(state, state.file.value) && state.file.value != state.pids[i];
      if blocked {
        var owner := state.file.value;
        BlockedRun(before, i);
        state := GiveBack(state, i);
        return Err(owner);
      }
      AcquireKeepsInv(before, i);
      state := Claim(state, i);
      r := Ok(true);
    }

    /** Dropping the guard: the pid file goes first, then the lock. */
    method Drop(i: nat)
      requires Inv(state) && In(state, i, Running)
      modifies this
      ensures Inv(state) && In(state, i, Ended) && state.lock.None? && state.file.None?
      ensures state == Enter(old(state), i, Ended).(lock := None, file := None)
    {
      StepKeepsInv(state, RemovePid(i));
      state := Next(state, RemovePid(i));
      StepKeepsInv(state, Close(i));
      state := Next(state, Close(i));
    }
  }
}
