/** The other steps of the machine a data directory lives on: which pids are alive, how daemons and other programs
    start and end, and what a failed claim leaves. */
module Processes {
  import opened Prelude
  import opened Singleton

  /** A pid is alive when a process has it: a positive number that another program bears, or a daemon that was started
      with it and has not ended. Other programs start under any positive pid that is not alive, and end. */
  lemma OtherProgramsComeAndGo(s: State, pid: Pid)
    ensures PidAlive(s, pid) <==> pid >= 1 && (pid in s.others || exists i :: Live(s, i) && s.pids[i] == pid)
    ensures Enabled(s, OtherStarts(pid)) <==> pid >= 1 && !PidAlive(s, pid)
    ensures Enabled(s, OtherStarts(pid)) ==>
      && PidAlive(Next(s, OtherStarts(pid)), pid)
      && Enabled(Next(s, OtherStarts(pid)), OtherEnds(pid))
      && Next(Next(s, OtherStarts(pid)), OtherEnds(pid)) == s
  {
    if Enabled(s, OtherStarts(pid)) {
      assert s.others + {pid} - {pid} == s.others;
    }
  }

  /** A daemon starts under any positive pid that is not alive, with a number not yet used. */
  lemma DaemonsStart(s: State, i: nat, pid: Pid)
    ensures Enabled(s, Spawn(i, pid)) <==> i !in s.pids && i !in s.phase && pid >= 1 && !PidAlive(s, pid)
    ensures Enabled(s, Spawn(i, pid)) ==> In(Next(s, Spawn(i, pid)), i, Starting) && PidAlive(Next(s, Spawn(i, pid)), pid)
  {
  }

  /** A holder that cannot write the pid file, before or after emptying it, gives the lock back. */
  lemma FailedClaimGivesBack(s: State, i: nat)
    requires In(s, i, Claiming) || In(s, i, Writing)
    ensures Enabled(s, WriteFails(i)) && Enabled(Next(s, WriteFails(i)), Close(i))
    ensures Next(Next(s, WriteFails(i)), Close(i)).lock == None && Next(Next(s, WriteFails(i)), Close(i)).file == s.file
  {
  }

  /** A fresh machine has no lock, no pid file and no daemon. */
  lemma FreshMachine(others: set<Pid>, i: nat, pid: Pid)
    requires pid >= 1 && pid !in others
    ensures Enabled(Booted(others), Spawn(i, pid)) && Booted(others).lock == None && Booted(others).file == None
    ensures forall p :: PidAlive(Booted(others), p) <==> p >= 1 && p in others
  {
  }
}
