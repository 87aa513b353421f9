/** What each step of the process tables does, and which steps a tick and a run are made of. */
module ProcSteps {
  import opened FdTable
  import opened ProcTable

  /** Both tables, and the ticks since the instruction counters were reset. */
  datatype Tables = Tables(table: seq<Proc>, slots: seq<Slot>, ticks: nat)

  predicate Shaped(s: Tables) {
    |s.table| == PID_MAX && |s.slots| == FD_MAX && ProcsOk(s.table)
  }

  /** One slot of the process table changed. */
  function With(s: Tables, pid: nat, p: Proc): Tables
    requires pid < |s.table|
  {
    s.(table := s.table[pid := p])
  }

  /** The process table changed, and files opened or closed, none of them renamed. */
  predicate Becomes(s: Tables, t: Tables, table: seq<Proc>) {
    t.table == table && t.ticks == s.ticks && Agree(s.slots, t.slots)
  }

  predicate HasUnused(table: seq<Proc>) {
    exists i :: 0 <= i < |table| && table[i].state.Unused?
  }

  /** The slot a new process gets: the first that is unused. */
  predicate FirstUnused(table: seq<Proc>, pid: nat) {
    pid < |table| && table[pid].state.Unused? && forall i :: 0 <= i < pid ==> !table[i].state.Unused?
  }

  /** A slot in use for a file, in a mode. */
  predicate SlotFor(slots: seq<Slot>, fd: Fd, path: string, mode: nat) {
    fd != FD_INVALID && fd < |slots| && slots[fd].Used? && slots[fd].path == path && SpareMode(slots[fd].spare) == mode
  }

  lemma OpenedFor(a: seq<Slot>, b: seq<Slot>, fd: Fd, path: string, mode: nat)
    requires |a| == FD_MAX && Changed(a, b, fd, Used(path, SpareMake(mode, 1))) && 1 <= mode < MODE_MAX
    ensures SlotFor(b, fd, path, mode)
  {
  }

  lemma ForKept(a: seq<Slot>, b: seq<Slot>, fd: Fd, path: string, mode: nat)
    requires Keeps(a, b) && SlotFor(a, fd, path, mode)
    ensures SlotFor(b, fd, path, mode)
  {
  }

  const DIGITS := "0123456789"

  function Decimal(n: nat): string {
    if n < 10 then [DIGITS[n]] else Decimal(n / 10) + [DIGITS[n % 10]]
  }

  function ProcPath(pid: nat): string {
    "/tmp/proc" + Decimal(pid)
  }

  function RamPath(pid: nat): string {
    "/tmp/ram" + Decimal(pid)
  }

  /** What the next instruction of a process does, as far as the tables are concerned. */
  datatype Action =
    | Plain
    | Fault
    | ExitCall(status: Value)
    | ForkCall
    | KillCall(target: nat)
    | WaitPidCall(target: nat, timeout: bool)
    | OpenCall(path: string, mode: nat)
    | CloseCall(localFd: nat)
    | BlockCall

  /** The kernel stops on a kill of a process number past its table. */
  predicate ActionOk(a: Action) {
    a.KillCall? ==> a.target < PID_MAX
  }

  /** What a waitpid makes of its caller: waiting for a process there is, or told there is none. */
  function Waited(p: Proc, table: seq<Proc>, target: nat, timeout: bool): Proc
    requires |table| == PID_MAX
  {
    if target >= PID_MAX || !Live(table[target]) then p.(r0 := STATUS_NO_PROCESS)
    else p.(state := WaitingWaitpid(target, timeout))
  }

  // Single steps.

  /** A kill: the process is emptied and its waiters go on with its status; one that is not there changes nothing. */
  predicate Kills(s: Tables, t: Tables, pid: nat, status: Value)
    requires Shaped(s) && pid < PID_MAX
  {
    if Live(s.table[pid]) then Becomes(s, t, Killed(s.table, pid, status)) else t == s
  }

  lemma KillsTo(s: Tables, t: Tables, pid: nat, status: Value)
    requires Shaped(s) && pid < PID_MAX && Keeps(t.slots, s.slots) && t.ticks == s.ticks
    requires if Live(s.table[pid]) then t.table == Killed(s.table, pid, status) else t == s
    ensures Kills(s, t, pid, status)
  {
    hide Keeps, Killed, Agree;
    KeepsItself(s.slots);
    KeepsAgree(s.slots, s.slots, t.slots);
  }

  /** The child a fork makes: its own proc and RAM files, the parent's program and open files, told 0. */
  predicate ChildOf(s: Tables, t: Tables, parent: nat, child: nat)
    requires Shaped(s) && Shaped(t) && parent < PID_MAX && child < PID_MAX
  {
    var q := t.table[child];
    && FirstUnused(s.table, child) && q.state.Active? && q.r0 == 0 && q.instructionCounter == 0
    && SlotFor(t.slots, q.procFd, ProcPath(child), 3) && SlotFor(t.slots, q.ramFd, RamPath(child), 3)
    && SameOpen(t.slots, q, t.table[parent], MAX_FDS - 1)
    && t.table == s.table[child := q][parent := s.table[parent].(r0 := child)]
  }

  /** A fork: a child, or the parent told there is none and nothing else to show for it. */
  ghost predicate Forks(s: Tables, t: Tables, parent: nat, child: nat, reliable: bool)
    requires Shaped(s) && Shaped(t) && parent < PID_MAX
  {
    && Becomes(s, t, t.table) && child <= PID_MAX && child != parent
    && (if child < PID_MAX then ChildOf(s, t, parent, child)
        else && t.table[parent] == s.table[parent].(r0 := PID_MAX)
             && SameProcesses(s.table[parent := t.table[parent]], t.table))
    && (reliable && HasUnused(s.table) && FreeCount(s.slots) >= MAX_FDS + 2 ==> child < PID_MAX)
  }

  lemma NotForked(s: Tables, t: Tables, parent: nat, reliable: bool)
    requires Shaped(s) && Shaped(t) && parent < PID_MAX && Becomes(s, t, t.table)
    requires t.table[parent] == s.table[parent].(r0 := PID_MAX)
    requires SameProcesses(s.table[parent := t.table[parent]], t.table)
    requires reliable && HasUnused(s.table) ==> FreeCount(s.slots) < MAX_FDS + 2
    ensures Forks(s, t, parent, PID_MAX, reliable)
  {
    hide Becomes, SameProcesses, FreeCount, HasUnused;
  }

  lemma Forked(s: Tables, t: Tables, parent: nat, child: nat, reliable: bool)
    requires Shaped(s) && Shaped(t) && parent < PID_MAX && child < PID_MAX && child != parent
    requires Becomes(s, t, t.table) && ChildOf(s, t, parent, child)
    ensures Forks(s, t, parent, child, reliable)
  {
    hide Becomes, ChildOf, FreeCount, HasUnused;
  }

  /** Nothing but what is open counts. */
  lemma SameOpenTold(slots: seq<Slot>, child: Proc, parent: Proc, child': Proc, parent': Proc)
    requires SameOpen(slots, child, parent, MAX_FDS - 1)
    requires child'.progmemFd == child.progmemFd && child'.fds == child.fds
    requires parent'.progmemFd == parent.progmemFd && parent'.fds == parent.fds
    ensures SameOpen(slots, child', parent', MAX_FDS - 1)
  {
    hide SameFile;
  }

  lemma LastLike(slots: seq<Slot>, child: Proc, parent: Proc)
    requires SameOpen(slots, child, parent, MAX_FDS - 1)
    requires parent.fds[MAX_FDS - 2] == FD_INVALID
    ensures child.fds[MAX_FDS - 2] == FD_INVALID
  {
    hide SameFile;
    assert SamePlace(slots, child.fds[MAX_FDS - 2], parent.fds[MAX_FDS - 2]);
  }

  lemma FirstIsUnused(table: seq<Proc>, pid: nat)
    requires FirstUnused(table, pid)
    ensures pid < |table| && table[pid].state.Unused? && HasUnused(table)
  {
  }

  /** The first free local fd of seven, or 0. */
  predicate FreeLocal(p: Proc, localFd: nat)
    requires ProcOk(p)
  {
    && 1 <= localFd < MAX_FDS - 1 && p.fds[localFd - 1] == FD_INVALID
    && forall j :: 0 <= j < localFd - 1 ==> p.fds[j] != FD_INVALID
  }

  predicate HasFreeLocal(p: Proc) {
    exists j :: 0 <= j < MAX_FDS - 2 && j < |p.fds| && p.fds[j] == FD_INVALID
  }

  /** An open: the file at the first free local fd and at a free slot, or the process told it has none. */
  predicate Opens(s: Tables, t: Tables, pid: nat, path: string, mode: nat, localFd: nat, reliable: bool)
    requires Shaped(s) && Shaped(t) && pid < PID_MAX
  {
    var p := s.table[pid];
    && localFd < MAX_FDS - 1
    && (if localFd == 0 then Becomes(s, t, s.table[pid := p.(r0 := 0)])
        else && FreeLocal(p, localFd) && 1 <= mode < MODE_MAX
             && var fd := t.table[pid].fds[localFd - 1];
             && Becomes(s, t, s.table[pid := WithHeld(p, localFd + 2, fd).(r0 := localFd)])
             && fd != FD_INVALID && s.slots[fd].Free?
             && Changed(s.slots, t.slots, fd, Used(path, SpareMake(mode, 1))))
    && (reliable && 1 <= mode < MODE_MAX && HasFree(s.slots) && HasFreeLocal(p) ==> localFd != 0)
  }

  /** A new process at the first unused slot, with its program, proc and RAM files open, or none. */
  ghost predicate Begins(s: Tables, t: Tables, path: string, pid: nat, reliable: bool)
    requires Shaped(s) && Shaped(t)
  {
    && Becomes(s, t, t.table) && pid <= PID_MAX
    && (if pid < PID_MAX then
          var q := t.table[pid];
          && FirstUnused(s.table, pid) && t.table == s.table[pid := q]
          && q.state.Active? && q.instructionCounter == 0 && NoLocalFds(q) && SlotFor(t.slots, q.progmemFd, path, 1)
          && SlotFor(t.slots, q.procFd, ProcPath(pid), 3) && SlotFor(t.slots, q.ramFd, RamPath(pid), 3)
        else SameProcesses(s.table, t.table))
    && (reliable && HasUnused(s.table) && FreeCount(s.slots) >= 3 ==> pid < PID_MAX)
  }

  /** One instruction of an active process; it goes on but for a fault and an exit. */
  ghost predicate Acts(pid: nat, a: Action, s: Tables, t: Tables, ok: bool, status: Value, reliable: bool)
    requires Shaped(s) && Shaped(t) && pid < PID_MAX
  {
    var p := s.table[pid];
    && p.state.Active? && ok == (!a.Fault? && !a.ExitCall?)
    && status == (if a.ExitCall? then a.status else STATUS_KILLED)
    && match a
       case Plain => t == s
       case Fault => t == s
       case ExitCall(_) => t == With(s, pid, p.(state := Exiting))
       case ForkCall => exists child :: Forks(s, t, pid, child, reliable)
       case KillCall(target) => if 1 <= target < PID_MAX then Kills(s, t, target, STATUS_KILLED) else t == s
       case WaitPidCall(target, timeout) => t == With(s, pid, Waited(p, s.table, target, timeout))
       case OpenCall(path, mode) => exists localFd :: Opens(s, t, pid, path, mode, localFd, reliable)
       case CloseCall(localFd) => Becomes(s, t, s.table[pid := LocalClosed(p, localFd)])
       case BlockCall => t == With(s, pid, p.(state := WaitingIO))
  }

  /** Whether a process runs in a tick: active, timed out, or what it waited for came; if that failed it is killed. */
  predicate Resumes(pid: nat, s: Tables, t: Tables, runs: bool)
    requires Shaped(s) && pid < PID_MAX
  {
    var p := s.table[pid];
    match p.state
    case Active => runs && t == s
    case WaitingWaitpid(_, hasTimeout) =>
      if runs then hasTimeout && t == With(s, pid, p.(state := Active, r0 := STATUS_TIMEOUT)) else t == s
    case WaitingIO =>
      var woken := With(s, pid, p.(state := Active));
      if runs then t == woken else t == s || Kills(woken, t, pid, STATUS_KILLED)
    case _ => false
  }

  /** An instruction counted. */
  function CountedRun(s: Tables, pid: nat): Tables
    requires pid < |s.table|
  {
    With(s, pid, s.table[pid].(instructionCounter := s.table[pid].instructionCounter + 1))
  }

  // Steps in order.

  datatype Step =
    | Resumed(pid: nat, runs: bool)
    | Executed(pid: nat, action: Action, ok: bool, status: Value)
    | Ended(pid: nat, status: Value)

  ghost predicate Does(x: Step, s: Tables, t: Tables, reliable: bool) {
    && Shaped(s) && Shaped(t) && x.pid < PID_MAX
    && match x
       case Resumed(pid, runs) => Resumes(pid, s, t, runs)
       case Executed(pid, a, ok, status) =>
         if ok then exists mid :: RanTo(pid, a, s, mid, status, reliable) && t == CountedRun(mid, pid)
         else Acts(pid, a, s, t, false, status, reliable)
       case Ended(pid, status) => Kills(s, t, pid, status)
  }

  ghost predicate RanTo(pid: nat, a: Action, s: Tables, mid: Tables, status: Value, reliable: bool)
    requires Shaped(s) && pid < PID_MAX
  {
    Shaped(mid) && Acts(pid, a, s, mid, true, status, reliable)
  }

  /** Steps with the tables before and after each. */
  datatype Trace = Trace(steps: seq<Step>, states: seq<Tables>) {
    function Last(): Tables
      requires states != []
    {
      states[|states| - 1]
    }
  }

  ghost predicate IsTrace(x: Trace, reliable: bool) {
    && |x.states| == |x.steps| + 1
    && forall i :: 0 <= i < |x.steps| ==> Does(x.steps[i], x.states[i], x.states[i + 1], reliable)
  }

  /** The instruction of a script, and then plain ones. */
  function ActionAt(actions: seq<Action>, k: nat): Action {
    if k < |actions| then actions[k] else Plain
  }

  /** `n` instructions of a process, each but the last leaving it active. */
  ghost predicate Ran(x: Trace, pid: nat, actions: seq<Action>, n: nat)
    requires |x.states| == |x.steps| + 1 && n < |x.steps|
  {
    forall k :: 1 <= k <= n ==> RanAt(x, pid, actions, k) && (k < n ==> GoesOn(x, pid, k))
  }

  predicate RanAt(x: Trace, pid: nat, actions: seq<Action>, k: nat)
    requires 1 <= k < |x.steps|
  {
    x.steps[k].Executed? && x.steps[k].pid == pid && x.steps[k].action == ActionAt(actions, k - 1)
  }

  predicate GoesOn(x: Trace, pid: nat, k: nat)
    requires k < |x.steps| && k + 1 < |x.states| && x.steps[k].Executed?
  {
    x.steps[k].ok && pid < |x.states[k + 1].table| && x.states[k + 1].table[pid].state.Active?
  }

  /**
   * A process's share of a tick: it may be resumed, runs instructions until it fails, is no longer active or has had
   * its share, and is ended if it failed or has ended itself.
   */
  ghost predicate IsShare(x: Trace, pid: nat, actions: seq<Action>, reliable: bool) {
    && IsTrace(x, reliable) && pid < PID_MAX && |x.states[0].table| == PID_MAX
    && if !Live(x.states[0].table[pid]) then x.steps == []
       else
         && x.steps != [] && x.steps[0].Resumed? && x.steps[0].pid == pid
         && if !x.steps[0].runs then |x.steps| == 1 else Finished(x, pid, actions)
  }

  ghost predicate Finished(x: Trace, pid: nat, actions: seq<Action>)
    requires |x.states| == |x.steps| + 1 && x.steps != [] && pid < PID_MAX
  {
    var ended := x.steps[|x.steps| - 1].Ended?;
    var n: int := |x.steps| - 1 - if ended then 1 else 0;
    && 1 <= n <= INSTRUCTIONS_PER_TICK && Ran(x, pid, actions, n) && x.steps[n].Executed?
    && if !x.steps[n].ok then ended && x.steps[n + 1] == Ended(pid, x.steps[n].status)
       else
         && |x.states[n + 1].table| == PID_MAX
         && (n == INSTRUCTIONS_PER_TICK || !x.states[n + 1].table[pid].state.Active?)
         && (ended <==> x.states[n + 1].table[pid].procFd == FD_INVALID)
         && (ended ==> x.steps[n + 1] == Ended(pid, STATUS_KILLED))
  }

  lemma NoShare(x: Trace, pid: nat, actions: seq<Action>, reliable: bool)
    requires IsTrace(x, reliable) && pid < PID_MAX && x.steps == [] && |x.states[0].table| == PID_MAX
    requires !Live(x.states[0].table[pid])
    ensures IsShare(x, pid, actions, reliable)
  {
  }

  lemma ShareFrom(x: Trace, pid: nat, actions: seq<Action>, runs: bool, reliable: bool)
    requires IsTrace(x, reliable) && pid < PID_MAX && |x.states[0].table| == PID_MAX && Live(x.states[0].table[pid])
    requires |x.states| == |x.steps| + 1 && x.steps != [] && x.steps[0] == Resumed(pid, runs)
    requires if runs then Finished(x, pid, actions) else |x.steps| == 1
    ensures IsShare(x, pid, actions, reliable)
  {
    hide Does, Finished;
  }

  lemma NothingYet(x: Trace, reliable: bool)
    requires x.steps == [] && |x.states| == 1
    ensures IsTrace(x, reliable)
  {
  }

  lemma RanNone(x: Trace, pid: nat, actions: seq<Action>)
    requires |x.steps| == 1 && |x.states| == 2
    ensures Ran(x, pid, actions, 0)
  {
  }

  lemma ResumedStep(pid: nat, s: Tables, t: Tables, runs: bool, reliable: bool)
    requires Shaped(s) && Shaped(t) && pid < PID_MAX && Resumes(pid, s, t, runs)
    ensures Does(Resumed(pid, runs), s, t, reliable)
  {
    hide Resumes;
  }

  lemma FailedStep(pid: nat, a: Action, s: Tables, t: Tables, status: Value, reliable: bool)
    requires Shaped(s) && Shaped(t) && pid < PID_MAX && Acts(pid, a, s, t, false, status, reliable)
    ensures Does(Executed(pid, a, false, status), s, t, reliable)
  {
    hide Acts;
  }

  lemma RanStep(pid: nat, a: Action, s: Tables, mid: Tables, t: Tables, status: Value, reliable: bool)
    requires Shaped(s) && Shaped(mid) && pid < PID_MAX && Acts(pid, a, s, mid, true, status, reliable)
    requires t == CountedRun(mid, pid)
    ensures Does(Executed(pid, a, true, status), s, t, reliable)
  {
    hide Acts;
    assert RanTo(pid, a, s, mid, status, reliable);
  }

  lemma EndedStep(pid: nat, s: Tables, t: Tables, status: Value, reliable: bool)
    requires Shaped(s) && Shaped(t) && pid < PID_MAX && Kills(s, t, pid, status)
    ensures Does(Ended(pid, status), s, t, reliable)
  {
    hide Kills;
  }

  /** One more step. */
  function Add(x: Trace, step: Step, t: Tables): Trace {
    Trace(x.steps + [step], x.states + [t])
  }

  lemma TraceGrows(x: Trace, step: Step, t: Tables, reliable: bool)
    requires IsTrace(x, reliable) && Does(step, x.Last(), t, reliable)
    ensures IsTrace(Add(x, step, t), reliable) && Add(x, step, t).Last() == t
  {
    hide Does;
    var y := Add(x, step, t);
    forall i | 0 <= i < |y.steps|
      ensures Does(y.steps[i], y.states[i], y.states[i + 1], reliable)
    {
      if i < |x.steps| {
        assert Does(x.steps[i], x.states[i], x.states[i + 1], reliable);
      }
    }
  }

  /** One more instruction, after those before left the process active. */
  lemma RanMore(x: Trace, pid: nat, actions: seq<Action>, n: nat, step: Step, t: Tables)
    requires |x.states| == |x.steps| + 1 && |x.steps| == n + 1 && Ran(x, pid, actions, n)
    requires n > 0 ==> x.steps[n].Executed? && x.steps[n].ok
    requires pid < |x.Last().table| && x.Last().table[pid].state.Active?
    requires step.Executed? && step.pid == pid && step.action == ActionAt(actions, n)
    ensures Ran(Add(x, step, t), pid, actions, n + 1)
  {
    var y := Add(x, step, t);
    forall k | 1 <= k <= n + 1
      ensures RanAt(y, pid, actions, k) && (k < n + 1 ==> GoesOn(y, pid, k))
    {
      if k <= n {
        assert RanAt(x, pid, actions, k);
        assert y.steps[k] == x.steps[k] && y.states[k + 1] == x.states[k + 1];
      }
    }
  }

  lemma RanStill(x: Trace, pid: nat, actions: seq<Action>, n: nat, step: Step, t: Tables)
    requires |x.states| == |x.steps| + 1 && |x.steps| == n + 1 && Ran(x, pid, actions, n)
    ensures Ran(Add(x, step, t), pid, actions, n)
  {
    var y := Add(x, step, t);
    forall k | 1 <= k <= n
      ensures RanAt(y, pid, actions, k) && (k < n ==> GoesOn(y, pid, k))
    {
      assert RanAt(x, pid, actions, k);
      assert y.steps[k] == x.steps[k] && y.states[k + 1] == x.states[k + 1];
    }
  }

  /** The last instruction failed, and the process is ended with its status. */
  lemma EndsFailed(x: Trace, pid: nat, actions: seq<Action>, n: nat, t: Tables)
    requires |x.states| == |x.steps| + 1 && |x.steps| == n + 1 && pid < PID_MAX
    requires 1 <= n <= INSTRUCTIONS_PER_TICK && Ran(x, pid, actions, n) && x.steps[n].Executed? && !x.steps[n].ok
    ensures Finished(Add(x, Ended(pid, x.steps[n].status), t), pid, actions)
  {
    RanStill(x, pid, actions, n, Ended(pid, x.steps[n].status), t);
  }

  /** The process has had its share, or is no longer active; if it ended itself it is ended once more. */
  lemma EndsDone(x: Trace, pid: nat, actions: seq<Action>, n: nat, t: Tables)
    requires |x.states| == |x.steps| + 1 && |x.steps| == n + 1 && pid < PID_MAX && |x.Last().table| == PID_MAX
    requires 1 <= n <= INSTRUCTIONS_PER_TICK && Ran(x, pid, actions, n) && x.steps[n].Executed? && x.steps[n].ok
    requires n == INSTRUCTIONS_PER_TICK || !x.Last().table[pid].state.Active?
    ensures x.Last().table[pid].procFd != FD_INVALID ==> Finished(x, pid, actions)
    ensures x.Last().table[pid].procFd == FD_INVALID ==> Finished(Add(x, Ended(pid, STATUS_KILLED), t), pid, actions)
  {
    RanStill(x, pid, actions, n, Ended(pid, STATUS_KILLED), t);
  }

  /** The tables fit together, but for a process on its way out. */
  ghost predicate Kept(s: Tables, exiting: nat) {
    Shaped(s) && Conserved(s.table, s.slots) && Steady(s.table, exiting)
  }

  ghost predicate AllKept(states: seq<Tables>, exiting: nat) {
    forall i :: 0 <= i < |states| ==> Kept(states[i], exiting)
  }

  lemma FirstKept(s: Tables, exiting: nat)
    requires Shaped(s) && Conserved(s.table, s.slots) && Steady(s.table, NONE)
    ensures AllKept([s], exiting)
  {
    hide Conserved, Steady;
    AnyExempt(s.table, exiting);
  }

  lemma KeptMore(states: seq<Tables>, t: Tables, exiting: nat)
    requires AllKept(states, exiting) && Kept(t, exiting)
    ensures AllKept(states + [t], exiting)
  {
    hide Kept;
  }

  /** All counters at 0. */
  function CountersReset(table: seq<Proc>): (r: seq<Proc>)
    ensures |r| == |table| && forall i :: 0 <= i < |table| ==> r[i] == table[i].(instructionCounter := 0)
  {
    seq(|table|, i requires 0 <= i < |table| => table[i].(instructionCounter := 0))
  }

  /** The end of a round: one more tick, or all counters reset. */
  function RoundEnded(s: Tables): Tables {
    if s.ticks + 1 >= TICKS_PER_RESET then s.(ticks := 0, table := CountersReset(s.table)) else s.(ticks := s.ticks + 1)
  }

  /** A tick of every process in turn. */
  ghost predicate IsRound(shares: seq<Trace>, scripts: seq<seq<Action>>, s: Tables, t: Tables, reliable: bool) {
    && |shares| == PID_MAX == |scripts|
    && (forall p :: 0 <= p < PID_MAX ==> IsShare(shares[p], p, scripts[p], reliable))
    && shares[0].states[0] == s && Linked(shares) && t == RoundEnded(shares[PID_MAX - 1].Last())
  }

  /** Each trace goes on where the one before it ended. */
  ghost predicate Linked(shares: seq<Trace>) {
    && (forall p :: 0 <= p < |shares| ==> shares[p].states != [])
    && (forall p :: 1 <= p < |shares| ==> shares[p].states[0] == shares[p - 1].Last())
  }

  datatype Event =
    | NewEvent(path: string)
    | KillEvent(pid: nat, status: Value)
    | TickEvent(scripts: seq<seq<Action>>)

  ghost predicate EventOk(e: Event) {
    match e
    case NewEvent(_) => true
    case KillEvent(pid, _) => pid < PID_MAX
    case TickEvent(scripts) =>
      && |scripts| == PID_MAX
      && (forall p, i :: 0 <= p < PID_MAX && 0 <= i < |scripts[p]| ==> ActionOk(scripts[p][i]))
  }

  /** What an event from outside does. */
  ghost predicate Happens(e: Event, s: Tables, t: Tables, reliable: bool) {
    && Shaped(s) && Shaped(t)
    && match e
       case NewEvent(path) => exists pid :: Begins(s, t, path, pid, reliable)
       case KillEvent(pid, status) => pid < PID_MAX && Kills(s, t, pid, status)
       case TickEvent(scripts) => exists shares :: IsRound(shares, scripts, s, t, reliable)
  }

  lemma ShareStates(x: Trace, pid: nat, actions: seq<Action>, reliable: bool)
    requires IsShare(x, pid, actions, reliable)
    ensures x.states != []
  {
  }

  lemma NewHappens(path: string, s: Tables, t: Tables, pid: nat, reliable: bool)
    requires Shaped(s) && Shaped(t) && Begins(s, t, path, pid, reliable)
    ensures Happens(NewEvent(path), s, t, reliable)
  {
    hide Begins;
  }

  lemma KillHappens(pid: nat, status: Value, s: Tables, t: Tables, reliable: bool)
    requires Shaped(s) && Shaped(t) && pid < PID_MAX && Kills(s, t, pid, status)
    ensures Happens(KillEvent(pid, status), s, t, reliable)
  {
    hide Kills;
  }

  lemma TickHappens(shares: seq<Trace>, scripts: seq<seq<Action>>, s: Tables, t: Tables, reliable: bool)
    requires Shaped(s) && Shaped(t) && IsRound(shares, scripts, s, t, reliable)
    ensures Happens(TickEvent(scripts), s, t, reliable)
  {
    hide IsRound;
  }

  /** Events one after another, with the tables before and after each. */
  ghost predicate IsRun(events: seq<Event>, states: seq<Tables>, reliable: bool) {
    && |states| == |events| + 1
    && forall i :: 0 <= i < |events| ==> Happens(events[i], states[i], states[i + 1], reliable)
  }

  lemma ShapedStill(a: seq<Proc>, b: seq<Proc>)
    requires Steady(b, NONE) || (|a| == |b| == PID_MAX && ProcsOk(b))
    ensures |b| == PID_MAX && ProcsOk(b)
  {
    if Steady(b, NONE) {
      SteadyShaped(b);
    }
  }

  ghost predicate CountersFall(a: seq<Proc>, b: seq<Proc>) {
    |a| == |b| && forall i :: 0 <= i < |a| ==> b[i].instructionCounter <= a[i].instructionCounter
  }
}
