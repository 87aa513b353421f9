/** The process table on values: what a slot holds, who holds which file, and what a kill makes of the table. */
module ProcTable {
  import opened FdTable

  const PID_MAX := 16
  const MAX_FDS := 9
  const INSTRUCTIONS_PER_TICK := 160
  const COUNTER_MAX := 65500
  const TICKS_PER_RESET := COUNTER_MAX / INSTRUCTIONS_PER_TICK
  const STATUS_NO_PROCESS := 65532
  const STATUS_KILLED := 65534
  const STATUS_TIMEOUT := 65535

  type Pid = p: int | 0 <= p < PID_MAX
  type Value = v: int | 0 <= v < 0x1_0000

  datatype State =
    | Unused
    | Active
    | WaitingWaitpid(pid: Pid, hasTimeout: bool)
    | WaitingIO
    | Exiting

  /** A slot of the process table, with what its proc file holds: register 0, local fds, RAM file. */
  datatype Proc = Proc(
    state: State,
    instructionCounter: nat,
    progmemFd: Fd,
    procFd: Fd,
    r0: Value,
    ramFd: Fd,
    fds: seq<Fd>)

  /** Every file a process holds, each by its place. */
  function Holdings(p: Proc): seq<Fd> {
    [p.progmemFd, p.procFd, p.ramFd] + p.fds
  }

  /** How often the processes together hold a file. */
  function Held(table: seq<Proc>, fd: Fd): nat {
    if table == [] then 0 else Held(table[..|table| - 1], fd) + multiset(Holdings(table[|table| - 1]))[fd]
  }

  /** Every slot but 0 counts exactly its holders. */
  ghost predicate Conserved(table: seq<Proc>, slots: seq<Slot>) {
    forall fd: Fd :: 1 <= fd < |slots| ==> RefCount(slots[fd]) == Held(table, fd)
  }

  lemma {:induction false} HeldUpdate(table: seq<Proc>, pid: nat, p: Proc, fd: Fd)
    requires pid < |table|
    ensures Held(table[pid := p], fd)
         == Held(table, fd) - multiset(Holdings(table[pid]))[fd] + multiset(Holdings(p))[fd]
    decreases |table|
  {
    hide Holdings;
    var n := |table| - 1;
    if pid < n {
      HeldUpdate(table[..n], pid, p, fd);
      assert table[pid := p][..n] == table[..n][pid := p];
    } else {
      assert table[pid := p][..n] == table[..n];
    }
  }

  lemma {:induction false} HeldAtLeast(table: seq<Proc>, pid: nat, fd: Fd)
    requires pid < |table|
    ensures Held(table, fd) >= multiset(Holdings(table[pid]))[fd]
    decreases |table|
  {
    hide Holdings;
    var n := |table| - 1;
    if pid < n {
      HeldAtLeast(table[..n], pid, fd);
      assert table[..n][pid] == table[pid];
    }
  }

  // Places of a process's files.

  predicate ProcOk(p: Proc) {
    |p.fds| == MAX_FDS - 1
  }

  /** Place 0 is the program, 1 the proc file, 2 the RAM file, the others local fds from 1 on. */
  function HeldAt(p: Proc, k: nat): Fd
    requires ProcOk(p) && k < MAX_FDS + 2
  {
    if k == 0 then p.progmemFd else if k == 1 then p.procFd else if k == 2 then p.ramFd else p.fds[k - 3]
  }

  function WithHeld(p: Proc, k: nat, fd: Fd): (q: Proc)
    requires ProcOk(p) && k < MAX_FDS + 2
    ensures ProcOk(q) && HeldAt(q, k) == fd && Holdings(q) == Holdings(p)[k := fd]
    ensures forall j :: 0 <= j < MAX_FDS + 2 && j != k ==> HeldAt(q, j) == HeldAt(p, j)
    ensures q.state == p.state && q.instructionCounter == p.instructionCounter && q.r0 == p.r0
    ensures q.fds == if k < 3 then p.fds else p.fds[k - 3 := fd]
    ensures q.progmemFd == (if k == 0 then fd else p.progmemFd) && q.procFd == (if k == 1 then fd else p.procFd)
    ensures q.ramFd == if k == 2 then fd else p.ramFd
  {
    if k == 0 then p.(progmemFd := fd) else if k == 1 then p.(procFd := fd)
    else if k == 2 then p.(ramFd := fd) else p.(fds := p.fds[k - 3 := fd])
  }

  lemma HeldAtHoldings(p: Proc, k: nat)
    requires ProcOk(p) && k < MAX_FDS + 2
    ensures |Holdings(p)| == MAX_FDS + 2 && Holdings(p)[k] == HeldAt(p, k)
  {
  }

  /** Changing one place changes the counts of what leaves it and what comes. */
  lemma HeldMoves(table: seq<Proc>, pid: nat, k: nat, fd: Fd, x: Fd)
    requires pid < |table| && ProcOk(table[pid]) && k < MAX_FDS + 2
    ensures Held(table[pid := WithHeld(table[pid], k, fd)], x)
         == Held(table, x) - (if HeldAt(table[pid], k) == x then 1 else 0) + (if fd == x then 1 else 0)
    ensures HeldAt(table[pid], k) == x ==> Held(table, x) >= 1
  {
    hide Held, Holdings, WithHeld, HeldAt;
    var p := table[pid];
    var q := WithHeld(p, k, fd);
    HeldUpdate(table, pid, q, x);
    HeldAtLeast(table, pid, x);
    HeldAtHoldings(p, k);
    UpdateCounts(Holdings(p), k, fd, x);
  }

  lemma UpdateCounts(h: seq<Fd>, k: nat, fd: Fd, x: Fd)
    requires k < |h|
    ensures multiset(h[k := fd])[x] == multiset(h)[x] - (if h[k] == x then 1 else 0) + (if fd == x then 1 else 0)
    ensures h[k] == x ==> multiset(h)[x] >= 1
  {
  }

  /** A file just opened, or referred to once more, goes into an empty place. */
  lemma Taken(table: seq<Proc>, before: seq<Slot>, after: seq<Slot>, pid: nat, k: nat, fd: Fd)
    requires pid < |table| && ProcOk(table[pid]) && k < MAX_FDS + 2 && HeldAt(table[pid], k) == FD_INVALID
    requires Conserved(table, before) && Gains(before, after, fd)
    ensures Conserved(table[pid := WithHeld(table[pid], k, fd)], after)
  {
    hide Held, HeldAt, WithHeld, RefCount;
    var more := table[pid := WithHeld(table[pid], k, fd)];
    forall x: Fd | 1 <= x < |after|
      ensures RefCount(after[x]) == Held(more, x)
    {
      HeldMoves(table, pid, k, fd, x);
      assert RefCount(before[x]) == Held(table, x);
    }
  }

  /** A file just closed leaves its place. */
  lemma Given(table: seq<Proc>, before: seq<Slot>, after: seq<Slot>, pid: nat, k: nat)
    requires pid < |table| && ProcOk(table[pid]) && k < MAX_FDS + 2 && Conserved(table, before)
    requires Loses(before, after, HeldAt(table[pid], k))
    ensures Conserved(table[pid := WithHeld(table[pid], k, FD_INVALID)], after)
  {
    hide Held, HeldAt, WithHeld, RefCount;
    var less := table[pid := WithHeld(table[pid], k, FD_INVALID)];
    forall x: Fd | 1 <= x < |after|
      ensures RefCount(after[x]) == Held(less, x)
    {
      HeldMoves(table, pid, k, FD_INVALID, x);
      assert RefCount(before[x]) == Held(table, x);
    }
  }

  /** A file a process holds is in use. */
  lemma HeldIsUsed(table: seq<Proc>, slots: seq<Slot>, pid: nat, k: nat)
    requires pid < |table| && ProcOk(table[pid]) && k < MAX_FDS + 2 && Conserved(table, slots) && |slots| == FD_MAX
    ensures var fd := HeldAt(table[pid], k); fd != FD_INVALID ==> slots[fd].Used?
  {
    hide Held, HeldAt, WithHeld;
    var fd := HeldAt(table[pid], k);
    HeldMoves(table, pid, k, FD_INVALID, fd);
    assert fd != FD_INVALID ==> RefCount(slots[fd]) == Held(table, fd);
  }

  // States.

  /** A process exists when it has a program file. */
  predicate Live(p: Proc) {
    p.progmemFd != FD_INVALID
  }

  predicate Bare(p: Proc)
    requires ProcOk(p)
  {
    forall k :: 0 <= k < MAX_FDS + 2 ==> HeldAt(p, k) == FD_INVALID
  }

  /** What holds of a slot between steps; one slot may be on its way out. */
  ghost predicate SlotSteady(table: seq<Proc>, pid: nat, exiting: nat)
    requires |table| == PID_MAX && pid < PID_MAX
  {
    var p := table[pid];
    && ProcOk(p) && p.fds[MAX_FDS - 2] == FD_INVALID
    && (Live(p) <==> !p.state.Unused?)
    && (if Live(p) then p.procFd != FD_INVALID && p.ramFd != FD_INVALID else Bare(p))
    && (p.state.WaitingWaitpid? ==> Live(table[p.state.pid]))
    && (p.state.Exiting? ==> pid == exiting)
  }

  /** Every slot is steady, but for `exiting` if that is one of them. */
  ghost predicate Steady(table: seq<Proc>, exiting: nat) {
    |table| == PID_MAX && forall pid :: 0 <= pid < PID_MAX ==> SlotSteady(table, pid, exiting)
  }

  lemma SteadyShaped(table: seq<Proc>)
    requires Steady(table, NONE)
    ensures |table| == PID_MAX && ProcsOk(table)
  {
    forall i | 0 <= i < PID_MAX
      ensures ProcOk(table[i])
    {
      assert SlotSteady(table, i, NONE);
    }
  }

  /** No slot is exempt. */
  const NONE := PID_MAX

  function Emptied(p: Proc): (q: Proc)
    requires ProcOk(p)
    ensures ProcOk(q) && Bare(q) && q.state.Unused? && q.instructionCounter == 0
  {
    Proc(Unused, 0, FD_INVALID, FD_INVALID, p.r0, FD_INVALID, seq(MAX_FDS - 1, _ => FD_INVALID))
  }

  /** What a kill makes of one slot: the one killed is emptied, and those waiting for it go on with its status. */
  function AfterKill(p: Proc, own: bool, pid: nat, status: Value): (q: Proc)
    requires ProcOk(p)
    ensures ProcOk(q)
  {
    if own then Emptied(p)
    else if p.state.WaitingWaitpid? && p.state.pid == pid then p.(state := Active, r0 := status)
    else p
  }

  predicate ProcsOk(table: seq<Proc>) {
    forall i :: 0 <= i < |table| ==> ProcOk(table[i])
  }

  function Killed(table: seq<Proc>, pid: nat, status: Value): (r: seq<Proc>)
    requires ProcsOk(table)
    ensures |r| == |table| && forall i :: 0 <= i < |table| ==> r[i] == AfterKill(table[i], i == pid, pid, status)
  {
    seq(|table|, i requires 0 <= i < |table| => AfterKill(table[i], i == pid, pid, status))
  }

  /** After a kill every slot is steady: whoever waited for the process waits no more. */
  lemma KilledSteady(table: seq<Proc>, pid: nat, status: Value)
    requires Steady(table, pid) && pid < PID_MAX
    ensures ProcsOk(table) && Steady(Killed(table, pid, status), NONE)
  {
    hide HeldAt;
    forall i | 0 <= i < PID_MAX
      ensures ProcOk(table[i])
    {
      assert SlotSteady(table, i, pid);
    }
    var after := Killed(table, pid, status);
    forall i | 0 <= i < PID_MAX
      ensures SlotSteady(after, i, NONE)
    {
      assert SlotSteady(table, i, pid);
      if after[i].state.WaitingWaitpid? {
        assert after[after[i].state.pid] == AfterKill(table[after[i].state.pid], false, pid, status);
      }
    }
  }

  /** A slot changed to one that is live, or stays what it was to those waiting for it, keeps the rest steady. */
  lemma StepSteady(table: seq<Proc>, pid: nat, p: Proc, exiting: nat)
    requires |table| == PID_MAX && pid < PID_MAX && ProcOk(p)
    requires forall i :: 0 <= i < PID_MAX && i != pid ==> SlotSteady(table, i, exiting)
    requires Live(table[pid]) ==> Live(p)
    requires SlotSteady(table[pid := p], pid, exiting)
    ensures Steady(table[pid := p], exiting)
  {
    hide Bare, HeldAt;
    var after := table[pid := p];
    forall i | 0 <= i < PID_MAX
      ensures SlotSteady(after, i, exiting)
    {
      if i != pid {
        assert SlotSteady(table, i, exiting);
      }
    }
  }

  lemma {:induction false} NothingHeld(table: seq<Proc>, fd: Fd)
    requires fd != FD_INVALID && forall i :: 0 <= i < |table| ==> ProcOk(table[i]) && Bare(table[i])
    ensures Held(table, fd) == 0
    decreases |table|
  {
    if table != [] {
      var n := |table| - 1;
      NothingHeld(table[..n], fd);
      var h := Holdings(table[n]);
      forall i | 0 <= i < |h|
        ensures h[i] == FD_INVALID
      {
        HeldAtHoldings(table[n], i);
        assert HeldAt(table[n], i) == FD_INVALID;
      }
      assert fd !in multiset(h);
    }
  }

  lemma OpenGains(before: seq<Slot>, after: seq<Slot>, fd: Fd, path: string, mode: nat)
    requires 1 <= mode < MODE_MAX
    requires |before| == FD_MAX && (fd == FD_INVALID ==> SameFiles(before, after))
    requires fd != FD_INVALID ==>
      before[fd].Free? && Changed(before, after, fd, Used(path, SpareMake(mode, 1)))
    ensures Gains(before, after, fd) && Keeps(before, after) && FreeCount(after) + 1 >= FreeCount(before)
  {
    FreeCountChanged(before, after, fd);
  }

  lemma CloseLoses(before: seq<Slot>, after: seq<Slot>, fd: Fd)
    requires |before| == FD_MAX && (fd != FD_INVALID ==> before[fd].Used? && SlotOk(before[fd]))
    requires fd == FD_INVALID ==> SameFiles(before, after)
    requires fd != FD_INVALID ==> after == before[fd := Counted(before[fd], RefCount(before[fd]) - 1)]
    ensures Loses(before, after, fd) && Keeps(after, before)
  {
  }

  /** A process with one local fd closed. */
  function LocalClosed(p: Proc, localFd: nat): Proc
    requires ProcOk(p)
  {
    if 1 <= localFd < MAX_FDS then WithHeld(p, localFd + 2, FD_INVALID) else p
  }

  lemma ClosedAlready(p: Proc, localFd: nat)
    requires ProcOk(p) && 1 <= localFd < MAX_FDS && p.fds[localFd - 1] == FD_INVALID
    ensures LocalClosed(p, localFd) == p && WithHeld(p, localFd + 2, FD_INVALID) == p
    ensures HeldAt(p, localFd + 2) == FD_INVALID
  {
  }

  lemma FdsHeld(p: Proc, localFd: nat)
    requires ProcOk(p) && 1 <= localFd < MAX_FDS
    ensures HeldAt(p, localFd + 2) == p.fds[localFd - 1]
  {
  }

  lemma BareIsEmptied(start: Proc, p: Proc)
    requires ProcOk(start) && ProcOk(p) && Bare(p) && p.r0 == start.r0
    ensures p.(state := Unused, instructionCounter := 0) == Emptied(start)
  {
    assert HeldAt(p, 0) == HeldAt(p, 1) == HeldAt(p, 2) == FD_INVALID;
    forall i | 0 <= i < MAX_FDS - 1
      ensures p.fds[i] == FD_INVALID
    {
      assert HeldAt(p, i + 3) == FD_INVALID;
    }
    assert p.fds == Emptied(start).fds;
  }

  lemma NotExiting(table: seq<Proc>, pid: nat)
    requires Steady(table, pid) && pid < PID_MAX && !Live(table[pid])
    ensures Steady(table, NONE)
  {
    forall i | 0 <= i < PID_MAX
      ensures SlotSteady(table, i, NONE)
    {
      assert SlotSteady(table, i, pid);
    }
  }

  lemma WaiterLives(table: seq<Proc>, pid: nat, i: nat)
    requires Steady(table, pid) && i < PID_MAX
    ensures ProcOk(table[i]) && (table[i].state.WaitingWaitpid? ==> Live(table[i]))
  {
    assert SlotSteady(table, i, pid);
  }

  /** Changing nothing a process holds keeps all counts right. */
  lemma SameHoldings(table: seq<Proc>, pid: nat, p: Proc, slots: seq<Slot>)
    requires pid < |table| && Holdings(p) == Holdings(table[pid]) && Conserved(table, slots)
    ensures Conserved(table[pid := p], slots)
  {
    hide Held, Holdings;
    forall fd: Fd | 1 <= fd < |slots|
      ensures RefCount(slots[fd]) == Held(table[pid := p], fd)
    {
      HeldUpdate(table, pid, p, fd);
      assert RefCount(slots[fd]) == Held(table, fd);
    }
  }

  /** No local file is open. */
  predicate NoLocalFds(p: Proc) {
    forall i :: 0 <= i < |p.fds| ==> p.fds[i] == FD_INVALID
  }

  /** Only slots that were unused, and are still, may differ. */
  ghost predicate SameProcesses(a: seq<Proc>, b: seq<Proc>) {
    |a| == |b| && forall i :: 0 <= i < |a| ==> a[i] == b[i] || (a[i].state.Unused? && b[i].state.Unused?)
  }

  lemma UnusedIsBare(table: seq<Proc>, pid: nat)
    requires Steady(table, NONE) && pid < PID_MAX && table[pid].state.Unused?
    ensures ProcOk(table[pid]) && Bare(table[pid]) && NoLocalFds(table[pid])
    ensures HeldAt(table[pid], 0) == HeldAt(table[pid], 1) == HeldAt(table[pid], 2) == FD_INVALID
  {
    assert SlotSteady(table, pid, NONE);
    forall i | 0 <= i < MAX_FDS - 1
      ensures table[pid].fds[i] == FD_INVALID
    {
      assert HeldAt(table[pid], i + 3) == FD_INVALID;
    }
  }

  lemma AllClosed(p: Proc)
    requires ProcOk(p) && HeldAt(p, 0) == HeldAt(p, 1) == HeldAt(p, 2) == FD_INVALID
    requires forall k :: 3 <= k < MAX_FDS + 2 ==> HeldAt(p, k) == FD_INVALID
    ensures Bare(p)
  {
  }

  /** A slot that holds its three files may start. */
  lemma StartedSteady(table: seq<Proc>, pid: nat, p: Proc)
    requires Steady(table, NONE) && pid < PID_MAX && ProcOk(p) && p.state.Active?
    requires p.progmemFd != FD_INVALID && p.procFd != FD_INVALID && p.ramFd != FD_INVALID
    requires p.fds[MAX_FDS - 2] == FD_INVALID
    ensures Steady(table[pid := p], NONE)
  {
    hide Bare, HeldAt;
    forall i | 0 <= i < PID_MAX
      ensures SlotSteady(table, i, NONE)
    {
    }
    assert SlotSteady(table[pid := p], pid, NONE);
    StepSteady(table, pid, p, NONE);
  }

  lemma GivenBackSteady(table: seq<Proc>, pid: nat, p: Proc)
    requires Steady(table, NONE) && pid < PID_MAX && table[pid].state.Unused?
    requires ProcOk(p) && Bare(p) && p.state.Unused?
    ensures Steady(table[pid := p], NONE)
  {
    assert SlotSteady(table, pid, NONE);
    assert HeldAt(p, 0) == FD_INVALID && HeldAt(p, MAX_FDS + 1) == FD_INVALID;
    assert SlotSteady(table[pid := p], pid, NONE);
    StepSteady(table, pid, p, NONE);
  }

  /** The child runs the parent's program, and its first `n` local fds are open where the parent's are, alike. */
  predicate SameOpen(slots: seq<Slot>, child: Proc, parent: Proc, n: nat) {
    && n <= |child.fds| && n <= |parent.fds|
    && child.progmemFd != FD_INVALID && parent.progmemFd != FD_INVALID
    && SameFile(slots, child.progmemFd, parent.progmemFd)
    && forall i :: 0 <= i < n ==> SamePlace(slots, child.fds[i], parent.fds[i])
  }

  /** Both places are empty, or hold the same file in the same mode. */
  predicate SamePlace(slots: seq<Slot>, f: Fd, g: Fd) {
    (f == FD_INVALID && g == FD_INVALID) || (f != FD_INVALID && g != FD_INVALID && SameFile(slots, f, g))
  }

  /** Files open alike stay so while slots in use keep their files. */
  lemma SameOpenKept(a: seq<Slot>, b: seq<Slot>, child: Proc, parent: Proc, n: nat)
    requires Keeps(a, b) && SameOpen(a, child, parent, n)
    ensures SameOpen(b, child, parent, n)
  {
    hide Keeps, SameFile;
    SameFileKept(a, b, child.progmemFd, parent.progmemFd);
    forall i | 0 <= i < n
      ensures SamePlace(b, child.fds[i], parent.fds[i])
    {
      if child.fds[i] != FD_INVALID {
        assert SamePlace(a, child.fds[i], parent.fds[i]);
        SameFileKept(a, b, child.fds[i], parent.fds[i]);
      }
    }
  }

  lemma SameOpenStarts(slots: seq<Slot>, child: Proc, parent: Proc)
    requires child.progmemFd != FD_INVALID && parent.progmemFd != FD_INVALID
    requires SameFile(slots, child.progmemFd, parent.progmemFd)
    ensures SameOpen(slots, child, parent, 0)
  {
  }

  lemma SameOpenEmpty(slots: seq<Slot>, child: Proc, parent: Proc, localFd: nat)
    requires ProcOk(child) && ProcOk(parent) && 1 <= localFd < MAX_FDS
    requires SameOpen(slots, child, parent, localFd - 1)
    requires child.fds[localFd - 1] == FD_INVALID && parent.fds[localFd - 1] == FD_INVALID
    ensures SameOpen(slots, child, parent, localFd)
  {
    hide SameFile;
  }

  /** One more place taken alike. */
  lemma SameOpenMore(slots: seq<Slot>, child: Proc, parent: Proc, localFd: nat, fd: Fd)
    requires ProcOk(child) && ProcOk(parent) && 1 <= localFd < MAX_FDS
    requires SameOpen(slots, child, parent, localFd - 1) && SamePlace(slots, fd, parent.fds[localFd - 1])
    ensures SameOpen(slots, WithHeld(child, localFd + 2, fd), parent, localFd)
  {
    hide SameFile, HeldAt;
  }

  lemma ProgramHeld(p: Proc)
    requires ProcOk(p)
    ensures HeldAt(p, 0) == p.progmemFd
  {
  }

  lemma BarePlaces(p: Proc)
    requires ProcOk(p) && Bare(p)
    ensures HeldAt(p, 0) == HeldAt(p, 1) == HeldAt(p, 2) == FD_INVALID
  {
  }

  lemma LiveIsUsed(table: seq<Proc>, pid: nat)
    requires Steady(table, NONE) && pid < PID_MAX
    ensures ProcOk(table[pid]) && (Live(table[pid]) <==> !table[pid].state.Unused?)
    ensures table[pid].fds[MAX_FDS - 2] == FD_INVALID && !table[pid].state.Exiting?
    ensures Live(table[pid]) ==> table[pid].procFd != FD_INVALID
  {
    assert SlotSteady(table, pid, NONE);
  }

  /** What a process is told changes nothing else about it. */
  lemma R0Steady(table: seq<Proc>, pid: nat, r0: Value)
    requires Steady(table, NONE) && pid < PID_MAX
    ensures Steady(table[pid := table[pid].(r0 := r0)], NONE)
  {
    hide Bare;
    var p := table[pid].(r0 := r0);
    forall i | 0 <= i < PID_MAX
      ensures SlotSteady(table, i, NONE)
    {
    }
    assert SlotSteady(table, pid, NONE);
    SameHeldBare(table[pid], p);
    assert SlotSteady(table[pid := p], pid, NONE);
    StepSteady(table, pid, p, NONE);
  }

  lemma SameHeldBare(p: Proc, q: Proc)
    requires ProcOk(p) && q == p.(r0 := q.r0, state := q.state, instructionCounter := q.instructionCounter)
    ensures ProcOk(q) && Bare(q) == Bare(p)
  {
    assert forall k :: 0 <= k < MAX_FDS + 2 ==> HeldAt(q, k) == HeldAt(p, k);
  }

  lemma PlacesKept(start: seq<Proc>, table: seq<Proc>, pid: nat, k: nat, fd: Fd)
    requires pid < |table| == |start| && forall i :: 0 <= i < |table| && i != pid ==> table[i] == start[i]
    ensures table == start[pid := table[pid]]
  {
  }

  lemma AnyExempt(table: seq<Proc>, pid: nat)
    requires Steady(table, NONE)
    ensures Steady(table, pid)
  {
    forall i | 0 <= i < PID_MAX
      ensures SlotSteady(table, i, pid)
    {
      assert SlotSteady(table, i, NONE);
    }
  }

  /** A live process may change its state: to wait for one that is live, to go on, or to be on its way out. */
  lemma StateSteady(table: seq<Proc>, pid: nat, state: State, exiting: nat)
    requires Steady(table, NONE) && pid < PID_MAX && Live(table[pid]) && !state.Unused?
    requires state.WaitingWaitpid? ==> Live(table[state.pid])
    requires state.Exiting? ==> pid == exiting
    ensures Steady(table[pid := table[pid].(state := state)], exiting)
  {
    hide Bare, HeldAt;
    var p := table[pid].(state := state);
    assert SlotSteady(table, pid, NONE);
    AnyExempt(table, exiting);
    forall i | 0 <= i < PID_MAX
      ensures SlotSteady(table, i, exiting)
    {
    }
    assert SlotSteady(table[pid := p], pid, exiting);
    StepSteady(table, pid, p, exiting);
  }

  /** A live process may open and close local fds but the last. */
  lemma FdsSteady(table: seq<Proc>, pid: nat, localFd: nat, fd: Fd)
    requires Steady(table, NONE) && pid < PID_MAX && ProcOk(table[pid]) && Live(table[pid])
    requires 1 <= localFd < MAX_FDS && (localFd == MAX_FDS - 1 ==> fd == FD_INVALID)
    ensures Steady(table[pid := WithHeld(table[pid], localFd + 2, fd)], NONE)
  {
    hide Bare, HeldAt;
    var p := WithHeld(table[pid], localFd + 2, fd);
    assert SlotSteady(table, pid, NONE);
    forall i | 0 <= i < PID_MAX
      ensures SlotSteady(table, i, NONE)
    {
    }
    assert SlotSteady(table[pid := p], pid, NONE);
    StepSteady(table, pid, p, NONE);
  }

  lemma CounterSteady(table: seq<Proc>, pid: nat, counter: nat)
    requires Steady(table, NONE) && pid < PID_MAX
    ensures Steady(table[pid := table[pid].(instructionCounter := counter)], NONE)
  {
    hide Bare;
    var p := table[pid].(instructionCounter := counter);
    assert SlotSteady(table, pid, NONE);
    forall i | 0 <= i < PID_MAX
      ensures SlotSteady(table, i, NONE)
    {
    }
    SameHeldBare(table[pid], p);
    assert SlotSteady(table[pid := p], pid, NONE);
    StepSteady(table, pid, p, NONE);
  }
}
