/** The process table: processes made, forked, waiting, killed and ticked, and the files they hold. */
module ProcMan {
  import opened FdTable
  import opened ProcTable
  import opened ProcSteps

  class ProcessManager {
    const files: Files
    const processes: array<Proc>
    var ticksSinceReset: nat

    ghost function Table(): seq<Proc>
      reads processes
    {
      processes[..]
    }

    ghost function Slots(): seq<Slot>
      reads files.fdt
    {
      files.fdt[..]
    }

    ghost function Now(): Tables
      reads this, processes, files.fdt
    {
      Tables(Table(), Slots(), ticksSinceReset)
    }

    /** The tables fit together: every file's count is its number of holders. */
    ghost predicate Sound()
      reads processes, files.fdt
    {
      && processes.Length == PID_MAX && files.Valid()
      && (forall i :: 0 <= i < PID_MAX ==> ProcOk(processes[i]))
      && Conserved(processes[..], files.fdt[..])
    }

    constructor (neverFails: bool)
      ensures Sound() && Steady(Table(), NONE) && ticksSinceReset == 0 && files.reliable == neverFails
      ensures fresh(processes) && fresh(files) && fresh(files.fdt)
    {
      files := new Files(neverFails);
      processes := new Proc[PID_MAX](_ => Proc(Unused, 0, 0, 0, 0, 0, seq(MAX_FDS - 1, _ => FD_INVALID)));
      ticksSinceReset := 0;
      new;
      forall fd: Fd | 1 <= fd < FD_MAX
        ensures RefCount(files.fdt[fd]) == Held(processes[..], fd)
      {
        NothingHeld(processes[..], fd);
      }
    }

    // One file of one process.

    method OpenInto(pid: nat, k: nat, path: string, mode: nat) returns (fd: Fd)
      requires Sound() && pid < PID_MAX && k < MAX_FDS + 2 && HeldAt(processes[pid], k) == FD_INVALID
      requires 1 <= mode < MODE_MAX
      modifies processes, files.fdt
      ensures Sound() && Table() == old(Table())[pid := WithHeld(old(processes[pid]), k, fd)]
      ensures Keeps(old(Slots()), Slots()) && FreeCount(Slots()) + 1 >= FreeCount(old(Slots()))
      ensures |old(Slots())| == FD_MAX && if fd == FD_INVALID then SameFiles(old(Slots()), Slots())
              else old(Slots())[fd].Free? && Changed(old(Slots()), Slots(), fd, Used(path, SpareMake(mode, 1)))
      ensures files.reliable && HasFree(old(Slots())) ==> fd != FD_INVALID
    {
      hide Conserved, HeldAt, Held, FreeCount;
      ghost var before, table := files.fdt[..], Table();
      fd := files.FileOpen(path, mode);
      OpenGains(before, files.fdt[..], fd, path, mode);
      Taken(table, before, files.fdt[..], pid, k, fd);
      processes[pid] := WithHeld(processes[pid], k, fd);
      assert Table() == table[pid := WithHeld(table[pid], k, fd)];
    }

    method DupeInto(pid: nat, k: nat, from: Fd) returns (fd: Fd)
      requires Sound() && pid < PID_MAX && k < MAX_FDS + 2 && HeldAt(processes[pid], k) == FD_INVALID
      requires from != FD_INVALID && files.fdt[from].Used?
      modifies processes, files.fdt
      ensures Sound() && Table() == old(Table())[pid := WithHeld(old(processes[pid]), k, fd)]
      ensures Keeps(old(Slots()), Slots()) && FreeCount(Slots()) + 1 >= FreeCount(old(Slots()))
      ensures fd != FD_INVALID ==> SameFile(Slots(), fd, from)
      ensures files.reliable && HasFree(old(Slots())) ==> fd != FD_INVALID
    {
      hide Conserved, HeldAt, Held, FreeCount;
      ghost var before, table := files.fdt[..], Table();
      fd := files.FileDupeOrOpen(from);
      FreeCountChanged(before, files.fdt[..], fd);
      Taken(table, before, files.fdt[..], pid, k, fd);
      processes[pid] := WithHeld(processes[pid], k, fd);
      assert Table() == table[pid := WithHeld(table[pid], k, fd)];
    }

    method CloseAt(pid: nat, k: nat)
      requires Sound() && pid < PID_MAX && k < MAX_FDS + 2
      modifies processes, files.fdt
      ensures Sound() && Table() == old(Table())[pid := WithHeld(old(processes[pid]), k, FD_INVALID)]
      ensures Keeps(Slots(), old(Slots()))
    {
      hide Conserved, HeldAt, Held;
      ghost var before, table := files.fdt[..], Table();
      HeldIsUsed(table, before, pid, k);
      var count := files.FileClose(HeldAt(processes[pid], k));
      CloseLoses(before, files.fdt[..], HeldAt(processes[pid], k));
      Given(table, before, files.fdt[..], pid, k);
      processes[pid] := WithHeld(processes[pid], k, FD_INVALID);
      assert Table() == table[pid := WithHeld(table[pid], k, FD_INVALID)];
    }

    // Local fds.

    /** Closing a local fd; one that is not open is left alone. */
    method CloseFile(pid: nat, localFd: nat)
      requires Sound() && pid < PID_MAX
      modifies processes, files.fdt
      ensures Sound() && Table() == old(Table())[pid := LocalClosed(old(processes[pid]), localFd)]
      ensures Keeps(Slots(), old(Slots()))
    {
      hide Conserved, Held;
      KeepsItself(Slots());
      if localFd == 0 || localFd >= MAX_FDS {
        return;
      }
      if processes[pid].fds[localFd - 1] == FD_INVALID {
        ClosedAlready(processes[pid], localFd);
        return;
      }
      CloseAt(pid, localFd + 2);
    }

    /**
     * Opening a file at the first free local fd. The last local fd is taken to mean a full table, so it is never
     * used, and a search that runs past it cannot happen.
     */
    method OpenFile(pid: nat, path: string, mode: nat) returns (localFd: nat)
      requires Sound() && pid < PID_MAX && processes[pid].fds[MAX_FDS - 2] == FD_INVALID
      modifies processes, files.fdt
      ensures Sound() && localFd < MAX_FDS - 1 && Keeps(old(Slots()), Slots())
      ensures localFd == 0 ==> Table() == old(Table())
      ensures localFd != 0 ==>
        var fd := processes[pid].fds[localFd - 1];
        && FreeLocal(old(processes[pid]), localFd) && 1 <= mode < MODE_MAX && fd != FD_INVALID
        && Table() == old(Table())[pid := WithHeld(old(processes[pid]), localFd + 2, fd)]
        && |old(Slots())| == FD_MAX && old(Slots())[fd].Free?
        && Changed(old(Slots()), Slots(), fd, Used(path, SpareMake(mode, 1)))
      ensures files.reliable && 1 <= mode < MODE_MAX && HasFree(old(Slots())) && HasFreeLocal(old(processes[pid])) ==>
        localFd != 0
    {
      hide Conserved, Held, FreeCount;
      KeepsItself(Slots());
      if mode == 0 || mode >= MODE_MAX {
        return 0;
      }
      localFd := 1;
      while localFd < MAX_FDS
        invariant 1 <= localFd < MAX_FDS
        invariant forall j :: 0 <= j < localFd - 1 ==> processes[pid].fds[j] != FD_INVALID
        decreases MAX_FDS - localFd
      {
        if processes[pid].fds[localFd - 1] == FD_INVALID {
          break;
        }
        localFd := localFd + 1;
      }
      if localFd == MAX_FDS - 1 {
        return 0;
      }
      ClosedAlready(processes[pid], localFd);
      var fd := OpenInto(pid, localFd + 2, path, mode);
      if fd == FD_INVALID {
        return 0;
      }
    }

    // Ending a process.

    /** Closing everything a process holds: local fds, program, RAM file, proc file. */
    method CloseAll(pid: nat)
      requires Sound() && pid < PID_MAX
      modifies processes, files.fdt
      ensures Sound() && Bare(processes[pid])
      ensures Table() == old(Table())[pid := processes[pid]]
      ensures processes[pid].state == old(processes[pid]).state && processes[pid].r0 == old(processes[pid]).r0
      ensures Keeps(Slots(), old(Slots()))
    {
      hide Conserved, Held, WithHeld, HeldAt, Keeps;
      ghost var start := Table();
      KeepsItself(Slots());
      for localFd := 1 to MAX_FDS
        invariant Sound() && Table() == start[pid := processes[pid]]
        invariant forall k :: 3 <= k < localFd + 2 ==> HeldAt(processes[pid], k) == FD_INVALID
        invariant processes[pid].state == start[pid].state && processes[pid].r0 == start[pid].r0
        invariant Keeps(Slots(), old(Slots()))
      {
        FdsHeld(processes[pid], localFd);
        if processes[pid].fds[localFd - 1] != FD_INVALID {
          ghost var before := Slots();
          CloseFile(pid, localFd);
          KeepsAll(Slots(), before, old(Slots()));
        }
      }
      ghost var closing := Slots();
      CloseThree(pid, 0, 2, 1);
      KeepsAll(Slots(), closing, old(Slots()));
    }

    /** Closing three places, one after another. */
    method CloseThree(pid: nat, i: nat, j: nat, k: nat)
      requires Sound() && pid < PID_MAX && i < MAX_FDS + 2 && j < MAX_FDS + 2 && k < MAX_FDS + 2
      modifies processes, files.fdt
      ensures Sound() && Keeps(Slots(), old(Slots()))
      ensures var q := WithHeld(WithHeld(old(processes[pid]), i, FD_INVALID), j, FD_INVALID);
              Table() == old(Table())[pid := WithHeld(q, k, FD_INVALID)]
    {
      hide Conserved, Held, WithHeld, HeldAt, Keeps;
      ghost var s0 := Slots();
      CloseAt(pid, i);
      ghost var s1 := Slots();
      CloseAt(pid, j);
      ghost var s2 := Slots();
      CloseAt(pid, k);
      KeepsAll(s2, s1, s0);
      KeepsAll(Slots(), s2, s0);
    }

    /** A slot back to unused. */
    method Reset(pid: nat)
      requires Sound() && pid < PID_MAX
      modifies processes
      ensures Sound()
      ensures Table() == old(Table())[pid := old(processes[pid]).(state := Unused, instructionCounter := 0)]
    {
      hide Conserved, Held;
      ghost var before := Table();
      processes[pid] := processes[pid].(state := Unused, instructionCounter := 0);
      assert Table() == before[pid := processes[pid]];
      SameHoldings(before, pid, processes[pid], files.fdt[..]);
    }

    /** Ending a process: what it holds is closed, and whoever waits for it goes on, given its status. */
    method Kill(pid: nat, status: Value)
      requires Sound() && pid < PID_MAX && Steady(Table(), pid)
      modifies processes, files.fdt
      ensures Sound() && Steady(Table(), NONE) && ProcsOk(old(Table()))
      ensures Table() == if Live(old(processes[pid])) then Killed(old(Table()), pid, status) else old(Table())
      ensures Keeps(Slots(), old(Slots()))
      ensures Shaped(old(Now())) && Shaped(Now()) && Kills(old(Now()), Now(), pid, status)
    {
      hide Conserved, Held, HeldAt, SlotSteady, Bare, Keeps, Kills;
      KeepsItself(Slots());
      ghost var start, s := Table(), Now();
      KilledSteady(start, pid, status);
      if !Live(processes[pid]) {
        NotExiting(start, pid);
        KillsTo(s, s, pid, status);
        return;
      }
      CloseAll(pid);
      ghost var closed := Slots();
      BareIsEmptied(start[pid], processes[pid]);
      Reset(pid);
      assert Table() == start[pid := Emptied(start[pid])];
      for waiterPid := 0 to PID_MAX
        invariant Sound() && Slots() == closed
        invariant forall i :: 0 <= i < PID_MAX ==>
          processes[i] == if i == pid then Emptied(start[i])
                          else if i < waiterPid then AfterKill(start[i], false, pid, status) else start[i]
      {
        var waiter := processes[waiterPid];
        if Live(waiter) && waiter.state.WaitingWaitpid? && waiter.state.pid == pid {
          ghost var before := Table();
          processes[waiterPid] := waiter.(state := Active, r0 := status);
          assert Table() == before[waiterPid := processes[waiterPid]];
          SameHoldings(before, waiterPid, processes[waiterPid], files.fdt[..]);
        } else {
          WaiterLives(start, pid, waiterPid);
        }
      }
      assert Table() == Killed(start, pid, status);
      KillsTo(s, Now(), pid, status);
    }

    // Starting processes.

    method FindUnusedPid() returns (pid: nat)
      requires Sound()
      ensures pid <= PID_MAX && (pid < PID_MAX ==> FirstUnused(Table(), pid))
      ensures pid == PID_MAX ==> !HasUnused(Table())
    {
      pid := 0;
      while pid < PID_MAX
        invariant pid <= PID_MAX && forall i :: 0 <= i < pid ==> !processes[i].state.Unused?
      {
        if processes[pid].state.Unused? {
          return;
        }
        pid := pid + 1;
      }
    }

    /** A slot's state, once all its files are open. */
    method Start(pid: nat, r0: Value)
      requires Sound() && pid < PID_MAX
      modifies processes
      ensures Sound()
      ensures Table() == old(Table())[pid := old(processes[pid]).(state := Active, instructionCounter := 0, r0 := r0)]
    {
      hide Conserved, Held;
      ghost var before := Table();
      processes[pid] := processes[pid].(state := Active, instructionCounter := 0, r0 := r0);
      assert Table() == before[pid := processes[pid]];
      SameHoldings(before, pid, processes[pid], files.fdt[..]);
    }

    method SetR0(pid: nat, r0: Value)
      requires Sound() && pid < PID_MAX
      modifies processes
      ensures Sound() && Table() == old(Table())[pid := old(processes[pid]).(r0 := r0)]
    {
      hide Conserved, Held;
      ghost var before := Table();
      processes[pid] := processes[pid].(r0 := r0);
      assert Table() == before[pid := processes[pid]];
      SameHoldings(before, pid, processes[pid], files.fdt[..]);
    }

    method SetState(pid: nat, state: State)
      requires Sound() && pid < PID_MAX
      modifies processes
      ensures Sound() && Table() == old(Table())[pid := old(processes[pid]).(state := state)]
    {
      hide Conserved, Held;
      ghost var before := Table();
      processes[pid] := processes[pid].(state := state);
      assert Table() == before[pid := processes[pid]];
      SameHoldings(before, pid, processes[pid], files.fdt[..]);
    }

    /** A new process with a program, a proc file and a RAM file; if any cannot be had, all are given back. */
    method New(path: string) returns (pid: nat)
      requires Sound() && Steady(Table(), NONE)
      modifies processes, files.fdt
      ensures Sound() && Steady(Table(), NONE) && pid <= PID_MAX
      ensures pid < PID_MAX ==>
        && old(processes[pid]).state.Unused? && processes[pid].state.Active? && processes[pid].instructionCounter == 0
        && NoLocalFds(processes[pid]) && Table() == old(Table())[pid := processes[pid]]
      ensures pid == PID_MAX ==> SameProcesses(old(Table()), Table())
      ensures forall i :: 0 <= i < PID_MAX ==>
        processes[i].instructionCounter <= old(processes[i]).instructionCounter || processes[i].instructionCounter == 0
      ensures Shaped(old(Now())) && Shaped(Now()) && Begins(old(Now()), Now(), path, pid, files.reliable)
    {
      hide Conserved, Held, WithHeld, SlotSteady, Keeps, FreeCount, SlotFor, Agree, HasUnused, Bare;
      ghost var start, slots := Table(), Slots();
      KeepsItself(slots);
      SteadyShaped(start);
      pid := FindUnusedPid();
      if pid == PID_MAX {
        return;
      }
      UnusedIsBare(start, pid);
      var ok := NewFiles(pid, path);
      ghost var taken := Slots();
      if ok {
        KeepsAgree(slots, taken, taken);
        Start(pid, 0);
        StartedSteady(start, pid, processes[pid]);
        assert Table() == start[pid := processes[pid]];
        SteadyShaped(Table());
        return;
      }
      GiveBack(pid, start);
      KeepsAgree(slots, taken, Slots());
      SteadyShaped(Table());
      return PID_MAX;
    }

    /** The three files of a new process; whatever was had so far stays with it. */
    method NewFiles(pid: nat, path: string) returns (ok: bool)
      requires Sound() && pid < PID_MAX && Bare(processes[pid]) && NoLocalFds(processes[pid])
      modifies processes, files.fdt
      ensures Sound() && Table() == old(Table())[pid := processes[pid]]
      ensures processes[pid].state == old(processes[pid]).state && NoLocalFds(processes[pid])
      ensures Keeps(old(Slots()), Slots()) && |Slots()| == FD_MAX
      ensures ok ==> processes[pid].progmemFd != FD_INVALID && processes[pid].procFd != FD_INVALID
      ensures ok ==> processes[pid].ramFd != FD_INVALID && SlotFor(Slots(), processes[pid].progmemFd, path, 1)
      ensures ok ==> SlotFor(Slots(), processes[pid].procFd, ProcPath(pid), 3)
      ensures ok ==> SlotFor(Slots(), processes[pid].ramFd, RamPath(pid), 3)
      ensures files.reliable && FreeCount(old(Slots())) >= 3 ==> ok
    {
      hide Conserved, Held, HeldAt, Bare, Keeps, FreeCount, Changed, SlotFor, SameFiles;
      ghost var s0 := Slots();
      BarePlaces(processes[pid]);
      var fd := OpenInto(pid, 0, path, 1);
      ghost var s1 := Slots();
      var created: bool := *;
      if fd == FD_INVALID || !(created || files.reliable) {
        return false;
      }
      OpenedFor(s0, s1, fd, path, 1);
      fd := OpenInto(pid, 1, ProcPath(pid), 3);
      ghost var s2 := Slots();
      KeepsAll(s0, s1, s2);
      if fd == FD_INVALID {
        return false;
      }
      OpenedFor(s1, s2, fd, ProcPath(pid), 3);
      fd := OpenInto(pid, 2, RamPath(pid), 3);
      ghost var s3 := Slots();
      KeepsAll(s0, s2, s3);
      var stored: bool := *;
      if fd == FD_INVALID || !(stored || files.reliable) {
        return false;
      }
      OpenedFor(s2, s3, fd, RamPath(pid), 3);
      ForKept(s1, s2, processes[pid].progmemFd, path, 1);
      ForKept(s2, s3, processes[pid].progmemFd, path, 1);
      ForKept(s2, s3, processes[pid].procFd, ProcPath(pid), 3);
      return true;
    }

    /** The way out of a failed start: everything closed, the slot unused. */
    method GiveBack(pid: nat, ghost start: seq<Proc>)
      requires Sound() && pid < PID_MAX && |start| == PID_MAX && Steady(start, NONE) && start[pid].state.Unused?
      requires Table() == start[pid := processes[pid]]
      modifies processes, files.fdt
      ensures Sound() && Steady(Table(), NONE) && SameProcesses(start, Table())
      ensures processes[pid].instructionCounter == 0
      ensures forall i :: 0 <= i < PID_MAX && i != pid ==> processes[i] == start[i]
      ensures Keeps(Slots(), old(Slots()))
    {
      hide Conserved, Held, WithHeld, HeldAt, SlotSteady, Bare, Keeps;
      KeepsItself(Slots());
      for localFd := 1 to MAX_FDS
        invariant Sound() && Table() == start[pid := processes[pid]]
        invariant forall k :: 3 <= k < localFd + 2 ==> HeldAt(processes[pid], k) == FD_INVALID
        invariant Keeps(Slots(), old(Slots()))
      {
        ghost var before := Slots();
        CloseAt(pid, localFd + 2);
        KeepsAll(Slots(), before, old(Slots()));
      }
      ghost var closing := Slots();
      CloseThree(pid, 0, 1, 2);
      KeepsAll(Slots(), closing, old(Slots()));
      AllClosed(processes[pid]);
      BareIsEmptied(processes[pid], processes[pid]);
      Reset(pid);
      assert Table() == start[pid := processes[pid]];
      GivenBackSteady(start, pid, processes[pid]);
    }

    /**
     * A child like its parent: its own proc and RAM files, the same program, and a reference to each file the
     * parent has open. If anything cannot be had, all is given back. The parent is told the child, or that there
     * is none; the child is told 0.
     */
    method Fork(parent: nat) returns (child: nat)
      requires Sound() && Steady(Table(), NONE) && parent < PID_MAX && Live(processes[parent])
      modifies processes, files.fdt
      ensures Sound() && Steady(Table(), NONE) && child <= PID_MAX
      ensures Shaped(old(Now())) && Shaped(Now()) && Forks(old(Now()), Now(), parent, child, files.reliable)
      ensures forall i :: 0 <= i < PID_MAX ==>
        processes[i].instructionCounter <= old(processes[i]).instructionCounter || processes[i].instructionCounter == 0
    {
      hide Conserved, Held, SlotSteady, Bare, FreeCount, HasUnused, Forks, ChildOf, FirstUnused, Agree;
      ghost var start, s := Table(), Now();
      SteadyShaped(start);
      KeepsItself(s.slots);
      child := FindUnusedPid();
      LiveIsUsed(start, parent);
      if child < PID_MAX {
        FirstIsUnused(start, child);
        var ok := ForkInto(parent, child);
        SteadyShaped(Table());
        if ok {
          Forked(s, Now(), parent, child, files.reliable);
          return;
        }
      }
      ghost var back := Table();
      SetR0(parent, PID_MAX);
      R0Steady(back, parent, PID_MAX);
      SteadyShaped(Table());
      NotForked(s, Now(), parent, files.reliable);
      return PID_MAX;
    }

    /** Forking into an unused slot. */
    method ForkInto(parent: nat, child: nat) returns (ok: bool)
      requires Sound() && Steady(Table(), NONE) && parent < PID_MAX && child < PID_MAX && Live(processes[parent])
      requires FirstUnused(Table(), child) && child != parent
      modifies processes, files.fdt
      ensures Sound() && Steady(Table(), NONE) && Agree(old(Slots()), Slots())
      ensures Shaped(old(Now())) && Shaped(Now()) && (ok ==> ChildOf(old(Now()), Now(), parent, child))
      ensures !ok ==> SameProcesses(old(Table()), Table()) && processes[parent] == old(processes[parent])
      ensures forall i :: 0 <= i < PID_MAX ==>
        processes[i].instructionCounter <= old(processes[i]).instructionCounter || processes[i].instructionCounter == 0
      ensures files.reliable && FreeCount(old(Slots())) >= MAX_FDS + 2 ==> ok
    {
      hide Conserved, Held, WithHeld, SlotSteady, HeldAt, Bare, Keeps, Agree, FreeCount, SlotFor, SameOpen;
      ghost var start, s0 := Table(), Slots();
      SteadyShaped(start);
      LiveIsUsed(start, parent);
      UnusedIsBare(start, child);
      ok := ForkFiles(parent, child);
      ghost var taken := Slots();
      KeepsItself(taken);
      KeepsAgree(s0, taken, taken);
      if ok {
        LastLike(taken, processes[child], processes[parent]);
        ghost var had := processes[child];
        Start(child, 0);
        StartedSteady(start, child, processes[child]);
        assert Table() == start[child := processes[child]];
        ghost var forked := Table();
        SetR0(parent, child);
        R0Steady(forked, parent, child);
        SteadyShaped(Table());
        SameOpenTold(taken, had, start[parent], processes[child], processes[parent]);
        return true;
      }
      GiveBack(child, start);
      KeepsAgree(s0, taken, Slots());
      SteadyShaped(Table());
    }

    /** The files of a child, taken one by one; whatever was had so far stays with the child. */
    method ForkFiles(parent: nat, child: nat) returns (ok: bool)
      requires Sound() && parent < PID_MAX && child < PID_MAX && child != parent
      requires processes[parent].progmemFd != FD_INVALID && Bare(processes[child]) && NoLocalFds(processes[child])
      modifies processes, files.fdt
      ensures Sound() && Table() == old(Table())[child := processes[child]]
      ensures processes[child].state == old(processes[child]).state
      ensures Keeps(old(Slots()), Slots()) && |Slots()| == FD_MAX
      ensures ok ==> processes[child].progmemFd != FD_INVALID && processes[child].procFd != FD_INVALID
      ensures ok ==> processes[child].ramFd != FD_INVALID
      ensures ok ==> SlotFor(Slots(), processes[child].procFd, ProcPath(child), 3)
      ensures ok ==> SlotFor(Slots(), processes[child].ramFd, RamPath(child), 3)
      ensures ok ==> SameOpen(Slots(), processes[child], processes[parent], MAX_FDS - 1)
      ensures files.reliable && FreeCount(old(Slots())) >= MAX_FDS + 2 ==> ok
    {
      hide Conserved, Held, HeldAt, Bare, SameOpen, SameFile, Keeps, FreeCount, SlotFor;
      ghost var s0 := Slots();
      ok := OwnFiles(child);
      ghost var s1 := Slots();
      if !ok {
        return false;
      }
      HeldIsUsed(Table(), Slots(), parent, 0);
      ProgramHeld(processes[parent]);
      ProgramHeld(processes[child]);
      var fd := DupeInto(child, 0, processes[parent].progmemFd);
      ghost var s2 := Slots();
      KeepsAll(s0, s1, s2);
      if fd == FD_INVALID {
        return false;
      }
      SameOpenStarts(s2, processes[child], processes[parent]);
      ok := DupeFds(parent, child);
      ghost var s3 := Slots();
      KeepsAll(s0, s2, s3);
      KeepsAll(s1, s2, s3);
      if !ok {
        return false;
      }
      ForKept(s1, s3, processes[child].procFd, ProcPath(child), 3);
      ForKept(s1, s3, processes[child].ramFd, RamPath(child), 3);
      var stored: bool, copied: bool := *, *;
      return (stored && copied) || files.reliable;
    }

    /** A child's own proc and RAM files. */
    method OwnFiles(child: nat) returns (ok: bool)
      requires Sound() && child < PID_MAX && Bare(processes[child]) && NoLocalFds(processes[child])
      modifies processes, files.fdt
      ensures Sound() && Table() == old(Table())[child := processes[child]]
      ensures processes[child].state == old(processes[child]).state && NoLocalFds(processes[child])
      ensures processes[child].progmemFd == FD_INVALID
      ensures Keeps(old(Slots()), Slots()) && |Slots()| == FD_MAX
      ensures FreeCount(Slots()) + 2 >= FreeCount(old(Slots()))
      ensures ok ==> processes[child].procFd != FD_INVALID && processes[child].ramFd != FD_INVALID
      ensures ok ==> SlotFor(Slots(), processes[child].procFd, ProcPath(child), 3)
      ensures ok ==> SlotFor(Slots(), processes[child].ramFd, RamPath(child), 3)
      ensures files.reliable && FreeCount(old(Slots())) >= 2 ==> ok
    {
      hide Conserved, Held, HeldAt, Bare, Keeps, FreeCount, Changed, SlotFor, SameFiles;
      ghost var s0 := Slots();
      KeepsItself(s0);
      BarePlaces(processes[child]);
      ProgramHeld(processes[child]);
      var created: bool := *;
      if !(created || files.reliable) {
        return false;
      }
      var fd := OpenInto(child, 1, ProcPath(child), 3);
      ghost var s1 := Slots();
      created := *;
      if fd == FD_INVALID || !(created || files.reliable) {
        return false;
      }
      OpenedFor(s0, s1, fd, ProcPath(child), 3);
      fd := OpenInto(child, 2, RamPath(child), 3);
      ghost var s2 := Slots();
      KeepsAll(s0, s1, s2);
      if fd == FD_INVALID {
        return false;
      }
      OpenedFor(s1, s2, fd, RamPath(child), 3);
      ForKept(s1, s2, processes[child].procFd, ProcPath(child), 3);
      return true;
    }

    /** A reference for the child to each file the parent has open. */
    method DupeFds(parent: nat, child: nat) returns (ok: bool)
      requires Sound() && parent < PID_MAX && child < PID_MAX && child != parent && NoLocalFds(processes[child])
      requires SameOpen(Slots(), processes[child], processes[parent], 0)
      modifies processes, files.fdt
      ensures Sound() && Table() == old(Table())[child := processes[child]] && Keeps(old(Slots()), Slots())
      ensures processes[child] == old(processes[child]).(fds := processes[child].fds)
      ensures ok ==> SameOpen(Slots(), processes[child], processes[parent], MAX_FDS - 1)
      ensures files.reliable && FreeCount(old(Slots())) >= MAX_FDS - 1 ==> ok
    {
      hide Conserved, Held, HeldAt, SameOpen, SameFile, Keeps, FreeCount;
      ghost var start := Table();
      KeepsItself(Slots());
      for localFd := 1 to MAX_FDS
        invariant Sound() && Table() == start[child := processes[child]] && Keeps(old(Slots()), Slots())
        invariant processes[child] == start[child].(fds := processes[child].fds)
        invariant SameOpen(Slots(), processes[child], processes[parent], localFd - 1)
        invariant forall i :: localFd - 1 <= i < MAX_FDS - 1 ==> processes[child].fds[i] == FD_INVALID
        invariant FreeCount(Slots()) + (localFd - 1) >= FreeCount(old(Slots()))
      {
        FdsHeld(processes[parent], localFd);
        FdsHeld(processes[child], localFd);
        if processes[parent].fds[localFd - 1] != FD_INVALID {
          HeldIsUsed(Table(), Slots(), parent, localFd + 2);
          ghost var slots, so := Slots(), processes[child];
          var fd := DupeInto(child, localFd + 2, processes[parent].fds[localFd - 1]);
          KeepsAll(old(Slots()), slots, Slots());
          SameOpenKept(slots, Slots(), so, processes[parent], localFd - 1);
          PlacesKept(start, Table(), child, localFd + 2, fd);
          if fd == FD_INVALID {
            return false;
          }
          SameOpenMore(Slots(), so, processes[parent], localFd, fd);
        } else {
          SameOpenEmpty(Slots(), processes[child], processes[parent], localFd);
        }
      }
      return true;
    }

    // Running processes.

    /** One instruction of an active process; false ends it with the status returned. */
    method Exec(pid: nat, a: Action) returns (ok: bool, status: Value)
      requires Sound() && Steady(Table(), NONE) && pid < PID_MAX && processes[pid].state.Active? && ActionOk(a)
      modifies processes, files.fdt
      ensures Sound() && Steady(Table(), pid) && (ok ==> Steady(Table(), NONE))
      ensures CountersFall(old(Table()), Table())
      ensures Shaped(old(Now())) && Shaped(Now()) && Acts(pid, a, old(Now()), Now(), ok, status, files.reliable)
    {
      hide Conserved, Held, SlotSteady, WithHeld, HeldAt, Agree, Keeps, Forks, Opens, FreeCount;
      ghost var start, s := Table(), Now();
      LiveIsUsed(start, pid);
      SteadyShaped(start);
      KeepsItself(s.slots);
      ok, status := true, STATUS_KILLED;
      match a {
        case Plain =>
        case Fault => ok := false;
        case ExitCall(exitStatus) =>
          SetState(pid, Exiting);
          ok, status := false, exitStatus;
          StateSteady(start, pid, Exiting, pid);
        case ForkCall =>
          var child := Fork(pid);
        case KillCall(target) =>
          if target != 0 {
            AnyExempt(start, target);
            Kill(target, STATUS_KILLED);
          }
        case WaitPidCall(target, timeout) =>
          WaitPid(pid, target, timeout);
        case BlockCall =>
          SetState(pid, WaitingIO);
          StateSteady(start, pid, WaitingIO, NONE);
        case OpenCall(path, mode) =>
          var localFd := Open(pid, path, mode);
        case CloseCall(localFd) =>
          Close(pid, localFd);
      }
      ShapedStill(start, Table());
      if !ok {
        AnyExempt(start, pid);
      } else {
        AnyExempt(Table(), pid);
      }
    }

    /** The waitpid system call: the process waits for one there is, or is told there is none. */
    method WaitPid(pid: nat, target: nat, timeout: bool)
      requires Sound() && Steady(Table(), NONE) && pid < PID_MAX && Live(processes[pid])
      modifies processes
      ensures Sound() && Steady(Table(), NONE)
      ensures Table() == old(Table())[pid := Waited(old(processes[pid]), old(Table()), target, timeout)]
    {
      hide Conserved, Held, SlotSteady;
      ghost var start := Table();
      LiveIsUsed(start, pid);
      if target >= PID_MAX || !Live(processes[target]) {
        SetR0(pid, STATUS_NO_PROCESS);
        R0Steady(start, pid, STATUS_NO_PROCESS);
      } else {
        SetState(pid, WaitingWaitpid(target, timeout));
        StateSteady(start, pid, WaitingWaitpid(target, timeout), NONE);
      }
    }

    /** The close system call. */
    method Close(pid: nat, localFd: nat)
      requires Sound() && Steady(Table(), NONE) && pid < PID_MAX && Live(processes[pid])
      modifies processes, files.fdt
      ensures Sound() && Steady(Table(), NONE) && Agree(old(Slots()), Slots())
      ensures Table() == old(Table())[pid := LocalClosed(old(processes[pid]), localFd)]
    {
      hide Conserved, Held, SlotSteady, WithHeld, Agree, Keeps;
      ghost var start, slots := Table(), Slots();
      KeepsItself(slots);
      CloseFile(pid, localFd);
      KeepsAgree(slots, slots, Slots());
      if 1 <= localFd < MAX_FDS {
        FdsSteady(start, pid, localFd, FD_INVALID);
      } else {
        assert Table() == start;
      }
    }

    /** The open system call: the process is told the local fd, or 0. */
    method Open(pid: nat, path: string, mode: nat) returns (localFd: nat)
      requires Sound() && Steady(Table(), NONE) && pid < PID_MAX && Live(processes[pid])
      modifies processes, files.fdt
      ensures Sound() && Steady(Table(), NONE) && CountersFall(old(Table()), Table())
      ensures Shaped(old(Now())) && Shaped(Now()) && Opens(old(Now()), Now(), pid, path, mode, localFd, files.reliable)
    {
      hide Conserved, Held, SlotSteady, HeldAt, Agree, Keeps, Changed, FreeCount, FreeLocal, HasFreeLocal;
      ghost var start, s := Table(), Now();
      LiveIsUsed(start, pid);
      SteadyShaped(start);
      localFd := OpenFile(pid, path, mode);
      ghost var opened_ := Table();
      KeepsAgree(s.slots, Slots(), Slots());
      if localFd != 0 {
        FdsSteady(start, pid, localFd, processes[pid].fds[localFd - 1]);
      }
      SetR0(pid, localFd);
      R0Steady(opened_, pid, localFd);
      SteadyShaped(Table());
    }

    /** Whether a process has instructions to run: it is active, or what it waited for has come. */
    method Resume(pid: nat) returns (runs: bool)
      requires Sound() && Steady(Table(), NONE) && pid < PID_MAX && Live(processes[pid])
      modifies processes, files.fdt
      ensures Sound() && Steady(Table(), NONE) && CountersFall(old(Table()), Table())
      ensures runs ==> processes[pid].state.Active?
      ensures old(processes[pid]).state.Active? ==> runs && Table() == old(Table())
      ensures Shaped(old(Now())) && Shaped(Now()) && Resumes(pid, old(Now()), Now(), runs)
    {
      hide Conserved, Held, SlotSteady, Agree, Keeps;
      ghost var start, s := Table(), Now();
      LiveIsUsed(start, pid);
      SteadyShaped(start);
      KeepsItself(s.slots);
      match processes[pid].state {
        case Active =>
          return true;
        case WaitingWaitpid(_, hasTimeout) =>
          var reached: bool := *;
          if !hasTimeout || !reached {
            return false;
          }
          SetState(pid, Active);
          StateSteady(start, pid, Active, NONE);
          ghost var woken := Table();
          SetR0(pid, STATUS_TIMEOUT);
          R0Steady(woken, pid, STATUS_TIMEOUT);
          SteadyShaped(Table());
          return true;
        case WaitingIO =>
          var ready: bool := *;
          if !ready {
            return false;
          }
          SetState(pid, Active);
          StateSteady(start, pid, Active, NONE);
          var done: bool := *;
          if !done {
            AnyExempt(Table(), pid);
            Kill(pid, STATUS_KILLED);
          }
          SteadyShaped(Table());
          return done;
      }
    }

    /** Steps that have led to the tables as they are, which fit together all along. */
    ghost predicate Traced(x: Trace, pid: nat)
      reads this, processes, files.fdt
    {
      IsTrace(x, files.reliable) && AllKept(x.states, pid) && x.Last() == Now()
    }

    /** A process's share of a tick: at most so many instructions, while it stays active. */
    method Tick(pid: nat, actions: seq<Action>) returns (ghost x: Trace)
      requires Sound() && Steady(Table(), NONE) && pid < PID_MAX
      requires forall i :: 0 <= i < |actions| ==> ActionOk(actions[i])
      requires processes[pid].instructionCounter + INSTRUCTIONS_PER_TICK <= COUNTER_MAX
      modifies processes, files.fdt
      ensures Sound() && Steady(Table(), NONE)
      ensures IsShare(x, pid, actions, files.reliable) && x.states[0] == old(Now()) && Traced(x, pid)
      ensures forall i :: 0 <= i < PID_MAX && i != pid ==>
        processes[i].instructionCounter <= old(processes[i]).instructionCounter
      ensures processes[pid].instructionCounter <= old(processes[pid]).instructionCounter + INSTRUCTIONS_PER_TICK
    {
      hide Conserved, Held, SlotSteady, Does, IsTrace, Resumes, Finished, AllKept, Kept;
      x := Trace([], [Now()]);
      SteadyShaped(Table());
      NothingYet(x, files.reliable);
      FirstKept(Now(), pid);
      if !Live(processes[pid]) {
        NoShare(x, pid, actions, files.reliable);
        return;
      }
      var runs := Resume(pid);
      ResumedStep(pid, x.Last(), Now(), runs, files.reliable);
      x := Grown(x, Resumed(pid, runs), pid);
      if runs {
        x := RunShare(pid, actions, x);
      }
      ShareFrom(x, pid, actions, runs, files.reliable);
    }

    /** The instructions of a process that runs, and its end if it comes to that. */
    method RunShare(pid: nat, actions: seq<Action>, ghost x: Trace) returns (ghost y: Trace)
      requires Sound() && Steady(Table(), NONE) && pid < PID_MAX && processes[pid].state.Active?
      requires forall i :: 0 <= i < |actions| ==> ActionOk(actions[i])
      requires processes[pid].instructionCounter + INSTRUCTIONS_PER_TICK <= COUNTER_MAX
      requires Traced(x, pid) && |x.states| == 2 && |x.steps| == 1
      modifies processes, files.fdt
      ensures Sound() && Steady(Table(), NONE)
      ensures Traced(y, pid) && y.steps != [] && |y.states| == |y.steps| + 1 && Finished(y, pid, actions)
      ensures y.steps[0] == x.steps[0] && y.states[0] == x.states[0]
      ensures forall i :: 0 <= i < PID_MAX && i != pid ==>
        processes[i].instructionCounter <= old(processes[i]).instructionCounter
      ensures processes[pid].instructionCounter <= old(processes[pid]).instructionCounter + INSTRUCTIONS_PER_TICK
    {
      hide Conserved, Held, SlotSteady, IsTrace, Ran, Finished, AllKept;
      ghost var start := Table();
      y := x;
      RanNone(x, pid, actions);
      var n := 0;
      while true
        invariant 0 <= n < INSTRUCTIONS_PER_TICK
        invariant Sound() && Steady(Table(), NONE) && processes[pid].state.Active?
        invariant |y.steps| == n + 1 && |y.states| == n + 2 && Traced(y, pid) && Ran(y, pid, actions, n)
        invariant y.states[0] == x.states[0] && y.steps[0] == x.steps[0]
        invariant n > 0 ==> y.steps[n].Executed? && y.steps[n].ok
        invariant processes[pid].instructionCounter <= start[pid].instructionCounter + n
        invariant forall i :: 0 <= i < PID_MAX && i != pid ==>
          processes[i].instructionCounter <= start[i].instructionCounter
        decreases INSTRUCTIONS_PER_TICK - n
      {
        var a := if n < |actions| then actions[n] else Plain;
        ghost var z := y;
        var ok, status;
        ok, status, y := RunOne(pid, a, y);
        RanMore(z, pid, actions, n, Executed(pid, a, ok, status), Now());
        n := n + 1;
        if !ok {
          z := y;
          y := End(pid, status, y);
          EndsFailed(z, pid, actions, n, Now());
          return;
        }
        if n == INSTRUCTIONS_PER_TICK || !processes[pid].state.Active? {
          break;
        }
      }
      // Storing the process's data fails if it killed itself; killing it again then does nothing.
      ghost var z := y;
      if processes[pid].procFd == FD_INVALID {
        AnyExempt(Table(), pid);
        y := End(pid, STATUS_KILLED, y);
      }
      EndsDone(z, pid, actions, n, Now());
    }

    /** One instruction, counted if the process goes on. */
    method RunOne(pid: nat, a: Action, ghost x: Trace) returns (ok: bool, status: Value, ghost y: Trace)
      requires Sound() && Steady(Table(), NONE) && pid < PID_MAX && processes[pid].state.Active? && ActionOk(a)
      requires Traced(x, pid)
      modifies processes, files.fdt
      ensures Sound() && Steady(Table(), pid) && (ok ==> Steady(Table(), NONE))
      ensures Traced(y, pid) && y == Add(x, Executed(pid, a, ok, status), Now())
      ensures forall i :: 0 <= i < PID_MAX ==>
        processes[i].instructionCounter <= old(processes[i]).instructionCounter + if i == pid then 1 else 0
    {
      hide Conserved, Held, SlotSteady, Acts, Does, IsTrace, AllKept;
      ghost var s := Now();
      ok, status := Exec(pid, a);
      ghost var mid := Now();
      if ok {
        Count(pid);
        AnyExempt(Table(), pid);
        RanStep(pid, a, s, mid, Now(), status, files.reliable);
      } else {
        FailedStep(pid, a, s, mid, status, files.reliable);
      }
      y := Grown(x, Executed(pid, a, ok, status), pid);
    }

    /** A process ended after its instructions. */
    method End(pid: nat, status: Value, ghost x: Trace) returns (ghost y: Trace)
      requires Sound() && pid < PID_MAX && Steady(Table(), pid) && Traced(x, pid)
      modifies processes, files.fdt
      ensures Sound() && Steady(Table(), NONE)
      ensures Traced(y, pid) && y == Add(x, Ended(pid, status), Now())
      ensures forall i :: 0 <= i < PID_MAX ==>
        processes[i].instructionCounter <= old(processes[i]).instructionCounter
    {
      hide Conserved, Held, SlotSteady, Kills, Does, IsTrace, AllKept;
      ghost var s := Now();
      Kill(pid, status);
      EndedStep(pid, s, Now(), status, files.reliable);
      y := Grown(x, Ended(pid, status), pid);
    }

    /** A trace with one more step, which has just been taken. */
    ghost method Grown(x: Trace, step: Step, pid: nat) returns (y: Trace)
      requires IsTrace(x, files.reliable) && AllKept(x.states, pid) && Does(step, x.Last(), Now(), files.reliable)
      requires Sound() && (Steady(Table(), NONE) || Steady(Table(), pid))
      ensures y == Add(x, step, Now()) && Traced(y, pid)
    {
      hide Conserved, Held, SlotSteady, Does, AllKept, IsTrace;
      y := Add(x, step, Now());
      TraceGrows(x, step, Now(), files.reliable);
      if Steady(Table(), NONE) {
        AnyExempt(Table(), pid);
      }
      KeptMore(x.states, Now(), pid);
    }

    method Count(pid: nat)
      requires Sound() && Steady(Table(), NONE) && pid < PID_MAX
      modifies processes
      ensures Sound() && Steady(Table(), NONE)
      ensures var p := old(processes[pid]);
              Table() == old(Table())[pid := p.(instructionCounter := p.instructionCounter + 1)]
    {
      hide Conserved, Held, SlotSteady;
      ghost var before := Table();
      processes[pid] := processes[pid].(instructionCounter := processes[pid].instructionCounter + 1);
      assert Table() == before[pid := processes[pid]];
      SameHoldings(before, pid, processes[pid], files.fdt[..]);
      CounterSteady(before, pid, processes[pid].instructionCounter);
    }

    /** Each counter is within what the ticks since the last reset allow. */
    ghost predicate Bounded()
      reads this, processes
    {
      && ticksSinceReset < TICKS_PER_RESET && processes.Length == PID_MAX
      && forall i :: 0 <= i < PID_MAX ==> processes[i].instructionCounter <= INSTRUCTIONS_PER_TICK * ticksSinceReset
    }

    /** A tick of every process; counters are reset before they could reach their limit. */
    method TickAll(scripts: seq<seq<Action>>) returns (ghost shares: seq<Trace>)
      requires Sound() && Steady(Table(), NONE) && Bounded() && |scripts| == PID_MAX
      requires forall p, i :: 0 <= p < PID_MAX && 0 <= i < |scripts[p]| ==> ActionOk(scripts[p][i])
      modifies processes, files.fdt, this`ticksSinceReset
      ensures Sound() && Steady(Table(), NONE) && Bounded()
      ensures IsRound(shares, scripts, old(Now()), Now(), files.reliable)
      ensures forall p :: 0 <= p < |shares| ==> AllKept(shares[p].states, p)
    {
      hide Conserved, Held, SlotSteady, IsShare, AllKept;
      ghost var s := Now();
      shares := [];
      for pid := 0 to PID_MAX
        invariant Sound() && Steady(Table(), NONE) && ticksSinceReset == old(ticksSinceReset)
        invariant |shares| == pid && Linked(shares)
        invariant pid == 0 ==> Now() == s
        invariant pid > 0 ==> shares[0].states[0] == s && shares[pid - 1].Last() == Now()
        invariant forall p :: 0 <= p < pid ==> IsShare(shares[p], p, scripts[p], files.reliable)
        invariant forall p :: 0 <= p < pid ==> AllKept(shares[p].states, p)
        invariant forall i :: 0 <= i < PID_MAX ==>
          processes[i].instructionCounter <= INSTRUCTIONS_PER_TICK * (ticksSinceReset + if i < pid then 1 else 0)
      {
        ghost var x := Tick(pid, scripts[pid]);
        ShareStates(x, pid, scripts[pid], files.reliable);
        shares := shares + [x];
      }
      EndRound();
    }

    /** After a round: the counters are reset if the next could be one too many. */
    method EndRound()
      requires Sound() && Steady(Table(), NONE) && ticksSinceReset < TICKS_PER_RESET
      requires forall i :: 0 <= i < PID_MAX ==>
        processes[i].instructionCounter <= INSTRUCTIONS_PER_TICK * (ticksSinceReset + 1)
      modifies processes, this`ticksSinceReset
      ensures Sound() && Steady(Table(), NONE) && Bounded() && Now() == RoundEnded(old(Now()))
    {
      hide Conserved, Held, SlotSteady;
      ticksSinceReset := ticksSinceReset + 1;
      if ticksSinceReset >= TICKS_PER_RESET {
        ticksSinceReset := 0;
        ghost var table := Table();
        ResetInstructionCounters();
        assert Table() == CountersReset(table);
      }
    }

    method ResetInstructionCounters()
      requires Sound() && Steady(Table(), NONE)
      modifies processes
      ensures Sound() && Steady(Table(), NONE)
      ensures forall i :: 0 <= i < PID_MAX ==> processes[i] == old(processes[i]).(instructionCounter := 0)
    {
      hide Conserved, Held, SlotSteady;
      for pid := 0 to PID_MAX
        invariant Sound() && Steady(Table(), NONE)
        invariant forall i :: 0 <= i < PID_MAX ==>
          processes[i] == if i < pid then old(processes[i]).(instructionCounter := 0) else old(processes[i])
      {
        ghost var before := Table();
        processes[pid] := processes[pid].(instructionCounter := 0);
        assert Table() == before[pid := processes[pid]];
        SameHoldings(before, pid, processes[pid], files.fdt[..]);
        CounterSteady(before, pid, 0);
      }
    }

    /** Any run of new processes, kills and ticks: each does what it should, and leaves the tables fitting together. */
    method Run(events: seq<Event>) returns (ghost states: seq<Tables>)
      requires Sound() && Steady(Table(), NONE) && Bounded() && forall i :: 0 <= i < |events| ==> EventOk(events[i])
      modifies processes, files.fdt, this`ticksSinceReset
      ensures Sound() && Steady(Table(), NONE) && Bounded()
      ensures IsRun(events, states, files.reliable) && states[0] == old(Now()) && states[|events|] == Now()
      ensures AllKept(states, NONE)
    {
      hide Conserved, Held, SlotSteady, AllKept, Happens, Begins, Kills, IsRound, Agree, Keeps;
      states := [Now()];
      SteadyShaped(Table());
      FirstKept(Now(), NONE);
      for i := 0 to |events|
        invariant Sound() && Steady(Table(), NONE) && Bounded()
        invariant |states| == i + 1 && states[0] == old(Now()) && states[i] == Now() && AllKept(states, NONE)
        invariant forall j :: 0 <= j < i ==> Happens(events[j], states[j], states[j + 1], files.reliable)
      {
        assert EventOk(events[i]);
        ghost var s := Now();
        match events[i] {
          case NewEvent(path) =>
            var pid := New(path);
            NewHappens(path, s, Now(), pid, files.reliable);
          case KillEvent(pid, status) =>
            AnyExempt(Table(), pid);
            Kill(pid, status);
            KillHappens(pid, status, s, Now(), files.reliable);
          case TickEvent(scripts) =>
            SteadyShaped(Table());
            ghost var shares := TickAll(scripts);
            SteadyShaped(Table());
            TickHappens(shares, scripts, s, Now(), files.reliable);
        }
        SteadyShaped(Table());
        KeptMore(states, Now(), NONE);
        states := states + [Now()];
      }
    }

    /** A file is free exactly when no process holds it, and no count is past seven. */
    lemma FreedWithLastHolder(fd: Fd)
      requires Sound() && fd != FD_INVALID
      ensures files.fdt.Length == FD_MAX && (files.fdt[fd].Free? <==> Held(Table(), fd) == 0)
      ensures Held(Table(), fd) < REF_COUNT_MAX
    {
    }
  }
}
