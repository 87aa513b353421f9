/** What follows for ticks from their steps: exits reach exactly those waiting, and nobody else is woken. */
module ProcRuns {
  import opened FdTable
  import opened ProcTable
  import opened ProcSteps

  /** A process waiting for another, however long it takes. */
  predicate Awaits(s: Tables, waiter: nat, pid: nat) {
    waiter < |s.table| && pid < PID_MAX && s.table[waiter].state == WaitingWaitpid(pid, false)
  }

  predicate Gone(s: Tables, pid: nat) {
    pid < |s.table| && s.table[pid].state.Unused?
  }

  lemma KeptLives(s: Tables, exiting: nat, pid: nat)
    requires Kept(s, exiting) && pid < PID_MAX
    ensures Live(s.table[pid]) <==> !s.table[pid].state.Unused?
  {
    hide Conserved;
    assert SlotSteady(s.table, pid, exiting);
  }

  /** An instruction that fails is a share's last but for the end of its process, with the status it failed with. */
  lemma FailedIsEnded(x: Trace, pid: nat, actions: seq<Action>, i: nat, reliable: bool)
    requires IsShare(x, pid, actions, reliable) && i < |x.steps| && x.steps[i].Executed? && !x.steps[i].ok
    ensures i + 2 == |x.steps| && x.steps[i + 1] == Ended(pid, x.steps[i].status) && x.steps[i].pid == pid
  {
    hide Does;
    var n: int := |x.steps| - 1 - if x.steps[|x.steps| - 1].Ended? then 1 else 0;
    assert i <= n && RanAt(x, pid, actions, i);
    assert i < n ==> GoesOn(x, pid, i);
  }

  /**
   * A process that exits is gone at the end of its share; every process that waited for it goes on with the exit
   * status in its register 0, and no other process changes.
   */
  lemma ExitWakes(x: Trace, pid: nat, actions: seq<Action>, i: nat, q: nat, reliable: bool)
    requires IsShare(x, pid, actions, reliable) && AllKept(x.states, pid) && q < PID_MAX
    requires i < |x.steps| && x.steps[i].Executed? && x.steps[i].action.ExitCall?
    ensures |x.states| == i + 3 && |x.states[i].table| == |x.Last().table| == PID_MAX
    ensures var p, status, r := x.states[i].table[q], x.steps[i].action.status, x.Last().table[q];
            if q == pid then r.state.Unused?
            else if p.state.WaitingWaitpid? && p.state.pid == pid then r == p.(state := Active, r0 := status)
            else r == p
  {
    hide Finished, Conserved, Steady, Agree;
    var s, mid := x.states[i], x.states[i + 1];
    assert Does(x.steps[i], s, mid, reliable);
    ExitFails(x.steps[i], s, mid, reliable);
    FailedIsEnded(x, pid, actions, i, reliable);
    assert Does(x.steps[i + 1], mid, x.states[i + 2], reliable);
    KeptLives(s, pid, pid);
  }

  lemma ExitFails(step: Step, s: Tables, t: Tables, reliable: bool)
    requires Does(step, s, t, reliable) && step.Executed? && step.action.ExitCall?
    ensures Shaped(s) && step.pid < PID_MAX && !step.ok && step.status == step.action.status
    ensures var p := s.table[step.pid]; p.state.Active? && t == With(s, step.pid, p.(state := Exiting))
  {
  }

  /** The one waiting is as it was, or goes on with a status because the one waited for is gone. */
  ghost predicate StillOrWoken(s: Tables, t: Tables, waiter: nat, pid: nat)
    requires waiter < |s.table| == |t.table|
  {
    t.table[waiter] == s.table[waiter] || (Gone(t, pid) && exists status: Value ::
      t.table[waiter] == s.table[waiter].(state := Active, r0 := status))
  }

  /** Someone who waits however long it takes goes on only when that process is gone, and then with a status. */
  lemma AwaitedStep(step: Step, s: Tables, t: Tables, waiter: nat, pid: nat, reliable: bool)
    requires Does(step, s, t, reliable) && Awaits(s, waiter, pid) && !Gone(t, waiter)
    ensures waiter < |s.table| == |t.table| && StillOrWoken(s, t, waiter, pid)
  {
    hide Acts, StillOrWoken, Kills;
    match step {
      case Executed(p, a, ok, status) =>
        if ok {
          var mid :| RanTo(p, a, s, mid, status, reliable) && t == CountedRun(mid, p);
          AwaitedAct(p, a, s, mid, ok, status, waiter, pid, reliable);
          StillCounted(s, mid, p, waiter, pid);
        } else {
          AwaitedAct(p, a, s, t, ok, status, waiter, pid, reliable);
        }
      case Ended(p, status) => AwaitedKill(s, t, p, status, waiter, pid);
      case Resumed(p, runs) => AwaitedResume(p, s, t, runs, waiter, pid);
    }
  }

  lemma AwaitedAct(p: nat, a: Action, s: Tables, t: Tables, ok: bool, status: Value, waiter: nat, pid: nat,
      reliable: bool)
    requires Shaped(s) && Shaped(t) && p < PID_MAX && Acts(p, a, s, t, ok, status, reliable)
    requires Awaits(s, waiter, pid) && !Gone(t, waiter)
    ensures StillOrWoken(s, t, waiter, pid) && waiter != p
  {
    hide Agree, Kills, StillOrWoken;
    if a.KillCall? && 1 <= a.target < PID_MAX {
      AwaitedKill(s, t, a.target, STATUS_KILLED, waiter, pid);
    } else {
      StillAsBefore(s, t, waiter, pid);
    }
  }

  lemma AwaitedKill(s: Tables, t: Tables, p: nat, status: Value, waiter: nat, pid: nat)
    requires Shaped(s) && Shaped(t) && p < PID_MAX && Kills(s, t, p, status)
    requires Awaits(s, waiter, pid) && !Gone(t, waiter)
    ensures StillOrWoken(s, t, waiter, pid)
  {
    hide Agree;
  }

  lemma AwaitedResume(p: nat, s: Tables, t: Tables, runs: bool, waiter: nat, pid: nat)
    requires Shaped(s) && Shaped(t) && p < PID_MAX && Resumes(p, s, t, runs)
    requires Awaits(s, waiter, pid) && !Gone(t, waiter)
    ensures StillOrWoken(s, t, waiter, pid)
  {
    hide Agree, Kills, StillOrWoken;
    var woken := With(s, p, s.table[p].(state := Active));
    if s.table[p].state.WaitingIO? && Kills(woken, t, p, STATUS_KILLED) {
      AwaitedKill(woken, t, p, STATUS_KILLED, waiter, pid);
      StillThrough(s, woken, t, waiter, pid);
    } else {
      StillAsBefore(s, t, waiter, pid);
    }
  }

  lemma StillAsBefore(s: Tables, t: Tables, waiter: nat, pid: nat)
    requires waiter < |s.table| == |t.table| && t.table[waiter] == s.table[waiter]
    ensures StillOrWoken(s, t, waiter, pid)
  {
  }

  lemma StillThrough(s: Tables, mid: Tables, t: Tables, waiter: nat, pid: nat)
    requires waiter < |s.table| == |mid.table| == |t.table| && mid.table[waiter] == s.table[waiter]
    requires StillOrWoken(mid, t, waiter, pid)
    ensures StillOrWoken(s, t, waiter, pid)
  {
  }

  lemma StillCounted(s: Tables, mid: Tables, p: nat, waiter: nat, pid: nat)
    requires waiter < |s.table| == |mid.table| && p < |mid.table| && waiter != p && StillOrWoken(s, mid, waiter, pid)
    ensures StillOrWoken(s, CountedRun(mid, p), waiter, pid)
  {
  }

  /** Neither the one waiting nor the one waited for is gone after any of the steps from one state to another. */
  predicate BothStay(x: Trace, waiter: nat, pid: nat, from: nat, n: nat) {
    n < |x.states| && forall k :: from < k <= n ==> !Gone(x.states[k], waiter) && !Gone(x.states[k], pid)
  }

  /** While both stay, the one waiting does nothing else, whatever any process does. */
  lemma {:induction false} AwaitedKept(x: Trace, waiter: nat, pid: nat, from: nat, n: nat, reliable: bool)
    requires IsTrace(x, reliable) && from <= n && BothStay(x, waiter, pid, from, n)
    requires Awaits(x.states[from], waiter, pid)
    ensures waiter < |x.states[n].table| && x.states[n].table[waiter] == x.states[from].table[waiter]
    decreases n
  {
    hide Does;
    if n > from {
      AwaitedKept(x, waiter, pid, from, n - 1, reliable);
      assert Does(x.steps[n - 1], x.states[n - 1], x.states[n], reliable);
      AwaitedStep(x.steps[n - 1], x.states[n - 1], x.states[n], waiter, pid, reliable);
    }
  }

  /** As soon as the one waited for is gone, the one waiting goes on with a status, and as it was otherwise. */
  lemma AwaitedWoken(x: Trace, waiter: nat, pid: nat, from: nat, n: nat, exiting: nat, reliable: bool)
    requires IsTrace(x, reliable) && AllKept(x.states, exiting)
    requires from <= n && BothStay(x, waiter, pid, from, n) && Awaits(x.states[from], waiter, pid)
    requires n + 1 < |x.states| && Gone(x.states[n + 1], pid) && !Gone(x.states[n + 1], waiter)
    ensures waiter < |x.states[n + 1].table|
    ensures exists status: Value ::
              x.states[n + 1].table[waiter] == x.states[from].table[waiter].(state := Active, r0 := status)
  {
    hide Does;
    AwaitedKept(x, waiter, pid, from, n, reliable);
    var s, t := x.states[n], x.states[n + 1];
    assert Does(x.steps[n], s, t, reliable) && Kept(t, exiting);
    AwaitedStep(x.steps[n], s, t, waiter, pid, reliable);
    if t.table[waiter] == s.table[waiter] {
      KeptWaits(t, exiting, waiter);
      assert false;
    }
  }

  /** A call to wait for a process there is makes its caller wait for that one, timed or not as asked. */
  lemma WaitEnters(step: Step, s: Tables, t: Tables, reliable: bool)
    requires Does(step, s, t, reliable) && step.Executed? && step.action.WaitPidCall?
    requires step.action.target < PID_MAX && Live(s.table[step.action.target])
    ensures step.pid < |s.table| == |t.table| && s.table[step.pid].state.Active?
    ensures t.table[step.pid].state == WaitingWaitpid(step.action.target, step.action.timeout)
    ensures !step.action.timeout ==> Awaits(t, step.pid, step.action.target)
    ensures var p := s.table[step.pid];
            t.table[step.pid] == p.(state := t.table[step.pid].state, instructionCounter := p.instructionCounter + 1)
  {
  }

  /** Waiting for a process there is not is over at once. */
  lemma WaitRefused(step: Step, s: Tables, t: Tables, reliable: bool)
    requires Does(step, s, t, reliable) && step.Executed? && step.action.WaitPidCall?
    requires step.action.target >= PID_MAX || !Live(s.table[step.action.target])
    ensures step.pid < |t.table| && t.table[step.pid].state.Active? && t.table[step.pid].r0 == 65532
  {
  }

  /** A wait is timed out only if it was asked to be, and told so. */
  lemma TimedOut(step: Step, s: Tables, t: Tables, reliable: bool)
    requires Does(step, s, t, reliable) && step.Resumed? && s.table[step.pid].state.WaitingWaitpid?
    ensures step.pid < |s.table| == |t.table|
    ensures step.runs ==> s.table[step.pid].state.hasTimeout && t.table[step.pid].state.Active?
    ensures step.runs ==> t.table[step.pid].r0 == 65535
    ensures !step.runs ==> t == s
  {
  }

  /** From the call to the return: a process that waits without timeout comes back when the other is gone. */
  lemma WaitReturns(x: Trace, i: nat, n: nat, exiting: nat, reliable: bool)
    requires IsTrace(x, reliable) && AllKept(x.states, exiting) && i < n && n + 1 < |x.states|
    requires x.steps[i].Executed? && x.steps[i].action.WaitPidCall? && !x.steps[i].action.timeout
    requires var target := x.steps[i].action.target;
             && target < PID_MAX && Live(x.states[i].table[target])
             && BothStay(x, x.steps[i].pid, target, i + 1, n)
             && Gone(x.states[n + 1], target) && !Gone(x.states[n + 1], x.steps[i].pid)
    ensures var w := x.steps[i].pid;
            && w < |x.states[i].table| && w < |x.states[n + 1].table| && x.states[n + 1].table[w].state.Active?
            && x.states[n + 1].table[w].fds == x.states[i].table[w].fds
            && forall k :: i < k <= n ==> w < |x.states[k].table| && x.states[k].table[w].state.WaitingWaitpid?
  {
    hide Does, BothStay;
    var w, target := x.steps[i].pid, x.steps[i].action.target;
    assert Does(x.steps[i], x.states[i], x.states[i + 1], reliable);
    WaitEnters(x.steps[i], x.states[i], x.states[i + 1], reliable);
    AwaitedWoken(x, w, target, i + 1, n, exiting, reliable);
    forall k | i < k <= n
      ensures w < |x.states[k].table| && x.states[k].table[w].state.WaitingWaitpid?
    {
      StaysSooner(x, w, target, i + 1, k, n);
      AwaitedKept(x, w, target, i + 1, k, reliable);
    }
  }

  lemma StaysSooner(x: Trace, waiter: nat, pid: nat, from: nat, k: nat, n: nat)
    requires BothStay(x, waiter, pid, from, n) && k <= n
    ensures BothStay(x, waiter, pid, from, k)
  {
  }

  /** Nobody waits for a process that is gone. */
  lemma KeptWaits(s: Tables, exiting: nat, waiter: nat)
    requires Kept(s, exiting) && waiter < PID_MAX && s.table[waiter].state.WaitingWaitpid?
    ensures !Gone(s, s.table[waiter].state.pid)
  {
    hide Conserved;
    assert SlotSteady(s.table, waiter, exiting);
    assert SlotSteady(s.table, s.table[waiter].state.pid, exiting);
  }

  /** Over a whole round of ticks in which both stay, the one waiting waits on. */
  lemma AwaitedRound(shares: seq<Trace>, scripts: seq<seq<Action>>, s: Tables, t: Tables, waiter: nat, pid: nat,
      reliable: bool)
    requires IsRound(shares, scripts, s, t, reliable) && Awaits(s, waiter, pid)
    requires forall p :: 0 <= p < PID_MAX ==>
      shares[p].states != [] && BothStay(shares[p], waiter, pid, 0, |shares[p].states| - 1)
    ensures Awaits(t, waiter, pid) && t.table[waiter].r0 == s.table[waiter].r0
  {
    hide IsShare, BothStay;
    AwaitedShares(shares, scripts, PID_MAX - 1, waiter, pid, reliable);
  }

  lemma {:induction false} AwaitedShares(shares: seq<Trace>, scripts: seq<seq<Action>>, n: nat, waiter: nat, pid: nat,
      reliable: bool)
    requires Linked(shares) && |shares| == |scripts| && n < |shares|
    requires forall p :: 0 <= p <= n ==> IsShare(shares[p], p, scripts[p], reliable)
    requires forall p :: 0 <= p <= n ==> BothStay(shares[p], waiter, pid, 0, |shares[p].states| - 1)
    requires Awaits(shares[0].states[0], waiter, pid)
    ensures waiter < |shares[n].Last().table| && shares[n].Last().table[waiter] == shares[0].states[0].table[waiter]
  {
    hide BothStay, Finished, Does;
    if n > 0 {
      AwaitedShares(shares, scripts, n - 1, waiter, pid, reliable);
    }
    assert IsShare(shares[n], n, scripts[n], reliable);
    AwaitedKept(shares[n], waiter, pid, 0, |shares[n].states| - 1, reliable);
  }

  // What the other calls come to.

  /** What a fork tells: the parent which process is its child and the child 0, or the parent 16. */
  predicate Told(s: Tables, t: Tables, parent: nat)
    requires |s.table| == |t.table| == PID_MAX && parent < PID_MAX
  {
    var told := t.table[parent].r0;
    if told < PID_MAX then
      && told != parent && s.table[told].state.Unused? && t.table[told].state.Active? && t.table[told].r0 == 0
      && SameOpen(t.slots, t.table[told], t.table[parent], MAX_FDS - 1)
      && (forall q :: 0 <= q < PID_MAX && q != told && q != parent ==> t.table[q] == s.table[q])
    else told == 16 && forall q :: 0 <= q < PID_MAX && s.table[q].state.Unused? ==> t.table[q].state.Unused?
  }

  /** After a fork there is one process more, with the parent's files open, or none; both are told. */
  lemma ForkTells(step: Step, s: Tables, t: Tables, reliable: bool)
    requires Does(step, s, t, reliable) && step.Executed? && step.action.ForkCall?
    ensures |s.table| == |t.table| == PID_MAX && step.pid < PID_MAX && Told(s, t, step.pid)
  {
    hide Forks, Agree, Kills, Opens, Waited, LocalClosed, Resumes, Told;
    var mid :| RanTo(step.pid, ForkCall, s, mid, step.status, reliable) && t == CountedRun(mid, step.pid);
    var child: nat :| Forks(s, mid, step.pid, child, reliable);
    ForkedTold(s, mid, step.pid, child, reliable);
    CountedTold(s, mid, step.pid);
  }

  lemma ForkedTold(s: Tables, t: Tables, parent: nat, child: nat, reliable: bool)
    requires Shaped(s) && Shaped(t) && parent < PID_MAX && Forks(s, t, parent, child, reliable)
    ensures Told(s, t, parent)
  {
    hide SameOpen, SlotFor, FreeCount, HasUnused, Agree;
  }

  lemma CountedTold(s: Tables, mid: Tables, parent: nat)
    requires |s.table| == |mid.table| == PID_MAX && parent < PID_MAX && Told(s, mid, parent)
    ensures Told(s, CountedRun(mid, parent), parent)
  {
    hide SameOpen;
    var t := CountedRun(mid, parent);
    var told := mid.table[parent].r0;
    if told < PID_MAX {
      SameOpenTold(t.slots, mid.table[told], mid.table[parent], t.table[told], t.table[parent]);
    }
  }

  /** After an open the process is told a local fd that was free, now open at that path and mode, or 0. */
  lemma OpenTells(step: Step, s: Tables, t: Tables, reliable: bool)
    requires Does(step, s, t, reliable) && step.Executed? && step.action.OpenCall?
    ensures step.pid < |s.table| == |t.table|
    ensures var p, q := s.table[step.pid], t.table[step.pid];
            if q.r0 == 0 then q.fds == p.fds
            else
              && q.r0 <= |p.fds| == |q.fds| && p.fds[q.r0 - 1] == FD_INVALID
              && q.fds == p.fds[q.r0 - 1 := q.fds[q.r0 - 1]]
              && SlotFor(t.slots, q.fds[q.r0 - 1], step.action.path, step.action.mode)
  {
    hide FreeCount, HasFree, HasFreeLocal;
  }

  /** After a close the local fd is not open, and no other differs. */
  lemma CloseTells(step: Step, s: Tables, t: Tables, reliable: bool)
    requires Does(step, s, t, reliable) && step.Executed? && step.action.CloseCall?
    ensures step.pid < |s.table| == |t.table|
    ensures var p, q, fd := s.table[step.pid], t.table[step.pid], step.action.localFd;
            q.fds == if 1 <= fd <= |p.fds| then p.fds[fd - 1 := FD_INVALID] else p.fds
  {
    hide Agree;
  }

  /** The first process cannot be killed by a call; any other is gone, and who waited for it goes on, told 65534. */
  lemma KillTells(step: Step, s: Tables, t: Tables, q: nat, reliable: bool)
    requires Does(step, s, t, reliable) && step.Executed? && step.action.KillCall? && step.action.target < PID_MAX
    requires q < PID_MAX && q != step.pid
    ensures |s.table| == |t.table| == PID_MAX
    ensures var target := step.action.target;
            if target == 0 || !Live(s.table[target]) then t.table[q] == s.table[q]
            else if q == target then t.table[q].state.Unused?
            else if s.table[q].state.WaitingWaitpid? && s.table[q].state.pid == target then
              t.table[q] == s.table[q].(state := Active, r0 := 65534)
            else t.table[q] == s.table[q]
  {
    hide Agree;
  }

  lemma StepKeepsTicks(step: Step, s: Tables, t: Tables, reliable: bool)
    requires Does(step, s, t, reliable)
    ensures t.ticks == s.ticks
  {
    hide Agree, SameOpen, SlotFor, FreeCount, Changed;
  }

  lemma {:induction false} TraceKeepsTicks(x: Trace, n: nat, reliable: bool)
    requires IsTrace(x, reliable) && n < |x.states|
    ensures x.states[n].ticks == x.states[0].ticks
    decreases n
  {
    hide Does;
    if n > 0 {
      TraceKeepsTicks(x, n - 1, reliable);
      assert Does(x.steps[n - 1], x.states[n - 1], x.states[n], reliable);
      StepKeepsTicks(x.steps[n - 1], x.states[n - 1], x.states[n], reliable);
    }
  }

  lemma {:induction false} SharesKeepTicks(shares: seq<Trace>, scripts: seq<seq<Action>>, n: nat, reliable: bool)
    requires Linked(shares) && |shares| == |scripts| && n < |shares|
    requires forall p :: 0 <= p <= n ==> IsShare(shares[p], p, scripts[p], reliable)
    ensures shares[n].Last().ticks == shares[0].states[0].ticks
    decreases n
  {
    hide Finished, Does;
    if n > 0 {
      SharesKeepTicks(shares, scripts, n - 1, reliable);
    }
    assert IsShare(shares[n], n, scripts[n], reliable);
    TraceKeepsTicks(shares[n], |shares[n].states| - 1, reliable);
  }

  /** The counters are reset after every 409th round, and nothing else happens after the last share of a round. */
  lemma RoundsReset(shares: seq<Trace>, scripts: seq<seq<Action>>, s: Tables, t: Tables, reliable: bool)
    requires IsRound(shares, scripts, s, t, reliable) && s.ticks < 409
    ensures |shares| == PID_MAX && shares[PID_MAX - 1].states != []
    ensures t.ticks == (if s.ticks == 408 then 0 else s.ticks + 1) && t.slots == shares[PID_MAX - 1].Last().slots
    ensures var table := shares[PID_MAX - 1].Last().table;
            if t.ticks != 0 then t.table == table
            else |t.table| == |table|
                 && forall q :: 0 <= q < |table| ==> t.table[q] == table[q].(instructionCounter := 0)
  {
    hide IsShare;
    SharesKeepTicks(shares, scripts, PID_MAX - 1, reliable);
  }

  // The files of processes.

  function NumberOf(digits: string): int {
    if digits == "" then 0
    else 10 * NumberOf(digits[..|digits| - 1]) + (digits[|digits| - 1] as int - '0' as int)
  }

  lemma {:induction false} DecimalReads(n: nat)
    ensures NumberOf(Decimal(n)) == n
  {
    DigitReads(n % 10);
    if n >= 10 {
      DecimalReads(n / 10);
      assert Decimal(n)[..|Decimal(n)| - 1] == Decimal(n / 10);
    }
  }

  lemma DigitReads(d: nat)
    requires d < 10
    ensures DIGITS[d] as int - '0' as int == d
  {
  }

  /** No two processes' files have the same path. */
  lemma PathsDiffer(p: nat, q: nat)
    ensures p != q ==> ProcPath(p) != ProcPath(q) && RamPath(p) != RamPath(q)
    ensures ProcPath(p) != RamPath(q)
    ensures ProcPath(p)[..9] == "/tmp/proc" && NumberOf(ProcPath(p)[9..]) == p
    ensures RamPath(p)[..8] == "/tmp/ram" && NumberOf(RamPath(p)[8..]) == p
  {
    hide Decimal;
    DecimalReads(p);
    DecimalReads(q);
    assert ProcPath(p)[9..] == Decimal(p) && ProcPath(q)[9..] == Decimal(q);
    assert RamPath(p)[8..] == Decimal(p) && RamPath(q)[8..] == Decimal(q);
    assert ProcPath(p)[5] == 'p' && RamPath(q)[5] == 'r';
  }
}
