/** Safety of the backup scheduler over every run, and what each part of it depends on. */
module SchedulerSafety {
  import opened Common
  import opened Scheduler

  // --- Backoff over a series of failures ---------------------------------------------------------------------------

  /** The k-th delay, k >= 1, of a series of failures under one interval. */
  function Delay(interval: int, k: nat): (d: int)
    requires k >= 1
  {
    Min(Max(interval, 60), 60 * Pow2(Min(k, 8) - 1))
  }

  /** After `k` failures the stored count is min(k, 8), and the next failure stores min(k + 1, 8) with the next delay. */
  lemma BackoffSeries(interval: int, k: nat)
    ensures Backoff(interval, Min(k, 8)) == (Min(k + 1, 8), Delay(interval, k + 1))
  {
  }

  lemma {:induction false} Pow2Grows(m: nat, n: nat)
    requires m <= n
    ensures Pow2(m) <= Pow2(n)
    decreases n
  {
    if m < n { Pow2Grows(m, n - 1); }
  }

  /** Delays never decrease, never more than double, and stay within one minute and 7680 seconds and the interval. */
  lemma DelayShape(interval: int, k: nat)
    requires k >= 1
    ensures 60 <= Delay(interval, k) <= 7680
    ensures interval >= 60 ==> Delay(interval, k) <= interval
    ensures Delay(interval, k) <= Delay(interval, k + 1) <= 2 * Delay(interval, k)
    ensures k < 8 ==> Delay(interval, k + 1) == Min(Max(interval, 60), 2 * Delay(interval, k))
    ensures k >= 8 ==> Delay(interval, k + 1) == Delay(interval, k)
  {
    var e := Min(k, 8) - 1;
    Pow2Grows(e, 7);
    assert Pow2(7) == 128 by { assert Pow2(4) == 16; }
    if k < 8 { assert Pow2(e + 1) == 2 * Pow2(e); }
  }

  // --- Invariants of every run --------------------------------------------------------------------------------------

  ghost predicate AtMostOneRunning(runs: map<string, RunRow>) {
    forall a, b :: a in runs && b in runs && runs[a].status == Running && runs[b].status == Running ==> a == b
  }

  /** Without connection loss, only the lock holder has left the idle state. */
  ghost predicate HolderOnly(procs: map<nat, Proc>, holder: Option<nat>) {
    forall pid :: pid in procs && procs[pid] != Idle ==> holder == Some(pid)
  }

  /**
   A run in flight has a row of its own with its own start; the row is running while its process holds the
   lock, and stops running otherwise only once it is stale.
   */
  ghost predicate RowOf(sys: System, pid: nat, job: Job) {
    && job.run in sys.runs && sys.runs[job.run].started == job.started
    && (sys.runs[job.run].status != Running ==> !InTime(job, sys.clock) && sys.holder != Some(pid))
  }

  ghost predicate Rows(sys: System) {
    && (forall pid :: pid in sys.procs && InFlight(sys.procs[pid]) ==> RowOf(sys, pid, sys.procs[pid].job))
    && (forall a, b :: a in sys.procs && b in sys.procs && a != b && InFlight(sys.procs[a]) && InFlight(sys.procs[b]) ==>
          sys.procs[a].job.run != sys.procs[b].job.run)
  }

  /** Work that carries the context, and any work if nothing overstays, is within its ten minutes. */
  ghost predicate Timely(rules: Rules, procs: map<nat, Proc>, clock: int) {
    forall pid :: pid in procs ==> MayWait(rules, procs[pid], clock)
  }

  /** What the run in flight in the lock holder was admitted with, against what is stored now. */
  ghost predicate Counted(sys: System, job: Job) {
    && job.epoch <= sys.epoch
    && (job.epoch == sys.epoch ==> job.failures == sys.schedule.failures && job.interval == sys.schedule.interval)
    && (job.epoch != sys.epoch ==> sys.schedule.failures == 0 && sys.delays == [])
  }

  ghost predicate Counts(rules: Rules, sys: System) {
    && 0 <= sys.schedule.failures <= 8
    && (forall pid :: pid in sys.procs && InFlight(sys.procs[pid]) ==> 0 <= sys.procs[pid].job.failures <= 8)
    && (forall pid :: pid in sys.procs && InFlight(sys.procs[pid]) && sys.holder == Some(pid) ==>
          Counted(sys, sys.procs[pid].job) && (!rules.changeInFlight ==> sys.procs[pid].job.epoch == sys.epoch))
  }

  ghost predicate Inv(rules: Rules, sys: System) {
    && AtMostOneRunning(sys.runs)
    && Rows(sys)
    && Timely(rules, sys.procs, sys.clock)
    && Counts(rules, sys)
    && (sys.holder.Some? ==> sys.holder.value in sys.procs)
    && (!rules.connectionLoss ==> HolderOnly(sys.procs, sys.holder))
  }

  lemma RecoveryKeepsRows(sys: System)
    requires AtMostOneRunning(sys.runs) && Rows(sys)
    requires forall pid :: pid in sys.procs && InFlight(sys.procs[pid]) ==> sys.holder != Some(pid)
    ensures var runs := Recover(sys.runs, sys.clock); AtMostOneRunning(runs) && Rows(sys.(runs := runs))
  {
    var runs := Recover(sys.runs, sys.clock);
    forall pid | pid in sys.procs && InFlight(sys.procs[pid]) ensures RowOf(sys.(runs := runs), pid, sys.procs[pid].job) {
      assert RowOf(sys, pid, sys.procs[pid].job);
    }
  }

  lemma LeavingKeepsRows(sys: System, pid: nat, p: Proc)
    requires Rows(sys) && !InFlight(p)
    ensures Rows(Move(sys, pid, p))
  {
    forall q | q in Move(sys, pid, p).procs && InFlight(Move(sys, pid, p).procs[q])
      ensures RowOf(Move(sys, pid, p), q, Move(sys, pid, p).procs[q].job)
    {
      assert RowOf(sys, q, sys.procs[q].job);
    }
  }

  lemma NewRowKeepsRows(sys: System, id: string)
    requires Rows(sys) && NoneRunning(sys.runs) && id !in sys.runs
    ensures var runs := sys.runs[id := RunRow(sys.clock, Running)]; Rows(sys.(runs := runs)) && AtMostOneRunning(runs)
  {
    var runs := sys.runs[id := RunRow(sys.clock, Running)];
    forall pid | pid in sys.procs && InFlight(sys.procs[pid]) ensures RowOf(sys.(runs := runs), pid, sys.procs[pid].job) {
      assert RowOf(sys, pid, sys.procs[pid].job);
    }
  }

  /** The process goes to work on a row that no other process works on. */
  lemma AdmissionKeepsRows(sys: System, pid: nat, job: Job)
    requires Rows(sys) && job.run in sys.runs && sys.runs[job.run] == RunRow(job.started, Running)
    requires forall q :: q in sys.procs && InFlight(sys.procs[q]) ==> sys.procs[q].job.run != job.run
    ensures Rows(Move(sys, pid, Archiving(job, false)))
  {
    var after := Move(sys, pid, Archiving(job, false));
    forall q | q in after.procs && InFlight(after.procs[q]) ensures RowOf(after, q, after.procs[q].job) {
      if q != pid { assert RowOf(sys, q, sys.procs[q].job); }
    }
  }

  lemma DecisionsKeepRows(rules: Rules, sys: System, step: Step)
    requires step.Decide?
    requires AtMostOneRunning(sys.runs) && Rows(sys) && Next(rules, sys, step).Some?
    ensures Rows(Next(rules, sys, step).value) && AtMostOneRunning(Next(rules, sys, step).value.runs)
  {
    if step.commit == Lost {
      LeavingKeepsRows(sys, step.pid, Unlocking);
    } else {
      RecoveryKeepsRows(sys);
      var recovered := sys.(runs := Recover(sys.runs, sys.clock));
      if !Due(sys.schedule, sys.clock) || !NoneRunning(recovered.runs) {
        LeavingKeepsRows(recovered, step.pid, Unlocking);
      } else {
        NewRowKeepsRows(recovered, step.id);
        var admitted := recovered.(runs := recovered.runs[step.id := RunRow(sys.clock, Running)]);
        if step.commit == Ambiguous {
          LeavingKeepsRows(admitted, step.pid, Unlocking);
        } else {
          var s := sys.schedule;
          forall q | q in sys.procs && InFlight(sys.procs[q]) ensures sys.procs[q].job.run != step.id {
            assert RowOf(sys, q, sys.procs[q].job);
          }
          AdmissionKeepsRows(admitted, step.pid, Job(step.id, sys.clock, s.interval, s.retain, s.failures, sys.epoch));
        }
      }
    }
  }

  lemma DecisionsKeepCounts(rules: Rules, sys: System, step: Step)
    requires step.Decide?
    requires Counts(rules, sys) && Next(rules, sys, step).Some?
    ensures Counts(rules, Next(rules, sys, step).value)
  {
  }

  lemma DecisionsKeep(rules: Rules, sys: System, step: Step)
    requires step.Decide?
    requires Inv(rules, sys) && Next(rules, sys, step).Some?
    ensures Inv(rules, Next(rules, sys, step).value)
  {
    DecisionsKeepRows(rules, sys, step);
    DecisionsKeepCounts(rules, sys, step);
  }

  lemma RecordsKeepRows(rules: Rules, sys: System, step: Step)
    requires step.Record?
    requires AtMostOneRunning(sys.runs) && Rows(sys) && Next(rules, sys, step).Some?
    ensures Rows(Next(rules, sys, step).value) && AtMostOneRunning(Next(rules, sys, step).value.runs)
  {
  }

  lemma RecordsKeepCounts(rules: Rules, sys: System, step: Step)
    requires step.Record?
    requires Counts(rules, sys) && Next(rules, sys, step).Some?
    ensures Counts(rules, Next(rules, sys, step).value)
  {
  }

  lemma RecordsKeep(rules: Rules, sys: System, step: Step)
    requires step.Record?
    requires Inv(rules, sys) && Next(rules, sys, step).Some?
    ensures Inv(rules, Next(rules, sys, step).value)
  {
    RecordsKeepRows(rules, sys, step);
    RecordsKeepCounts(rules, sys, step);
  }

  lemma ChangesKeepRows(rules: Rules, sys: System, step: Step)
    requires step.Configure?
    requires AtMostOneRunning(sys.runs) && Rows(sys) && Next(rules, sys, step).Some?
    ensures Rows(Next(rules, sys, step).value) && AtMostOneRunning(Next(rules, sys, step).value.runs)
  {
  }

  lemma ChangesKeepCounts(rules: Rules, sys: System, step: Step)
    requires step.Configure?
    requires Counts(rules, sys) && Next(rules, sys, step).Some?
    ensures Counts(rules, Next(rules, sys, step).value)
  {
  }

  lemma ChangesKeep(rules: Rules, sys: System, step: Step)
    requires step.Configure?
    requires Inv(rules, sys) && Next(rules, sys, step).Some?
    ensures Inv(rules, Next(rules, sys, step).value)
  {
    ChangesKeepRows(rules, sys, step);
    ChangesKeepCounts(rules, sys, step);
  }

  lemma SettingStepsKeepRows(rules: Rules, sys: System, step: Step)
    requires step.Tick? || step.Spawn? || step.TryLock?
    requires AtMostOneRunning(sys.runs) && Rows(sys) && Next(rules, sys, step).Some?
    ensures Rows(Next(rules, sys, step).value) && AtMostOneRunning(Next(rules, sys, step).value.runs)
  {
  }

  lemma SettingStepsKeepCounts(rules: Rules, sys: System, step: Step)
    requires step.Tick? || step.Spawn? || step.TryLock?
    requires Counts(rules, sys) && Next(rules, sys, step).Some?
    ensures Counts(rules, Next(rules, sys, step).value)
  {
  }

  lemma SettingStepsKeep(rules: Rules, sys: System, step: Step)
    requires step.Tick? || step.Spawn? || step.TryLock?
    requires Inv(rules, sys) && Next(rules, sys, step).Some?
    ensures Inv(rules, Next(rules, sys, step).value)
  {
    SettingStepsKeepRows(rules, sys, step);
    SettingStepsKeepCounts(rules, sys, step);
  }

  lemma WorkStepsKeepRows(rules: Rules, sys: System, step: Step)
    requires step.ArchiveCalls? || step.ArchiveEnds? || step.RotateEnds?
    requires AtMostOneRunning(sys.runs) && Rows(sys) && Next(rules, sys, step).Some?
    ensures Rows(Next(rules, sys, step).value) && AtMostOneRunning(Next(rules, sys, step).value.runs)
  {
  }

  lemma WorkStepsKeepCounts(rules: Rules, sys: System, step: Step)
    requires step.ArchiveCalls? || step.ArchiveEnds? || step.RotateEnds?
    requires Counts(rules, sys) && Next(rules, sys, step).Some?
    ensures Counts(rules, Next(rules, sys, step).value)
  {
  }

  lemma WorkStepsKeep(rules: Rules, sys: System, step: Step)
    requires step.ArchiveCalls? || step.ArchiveEnds? || step.RotateEnds?
    requires Inv(rules, sys) && Next(rules, sys, step).Some?
    ensures Inv(rules, Next(rules, sys, step).value)
  {
    WorkStepsKeepRows(rules, sys, step);
    WorkStepsKeepCounts(rules, sys, step);
  }

  lemma LeavingStepsKeepRows(rules: Rules, sys: System, step: Step)
    requires step.Unlock? || step.Die? || step.LoseConnection?
    requires AtMostOneRunning(sys.runs) && Rows(sys) && Next(rules, sys, step).Some?
    ensures Rows(Next(rules, sys, step).value) && AtMostOneRunning(Next(rules, sys, step).value.runs)
  {
  }

  lemma LeavingStepsKeepCounts(rules: Rules, sys: System, step: Step)
    requires step.Unlock? || step.Die? || step.LoseConnection?
    requires Counts(rules, sys) && Next(rules, sys, step).Some?
    ensures Counts(rules, Next(rules, sys, step).value)
  {
  }

  lemma LeavingStepsKeep(rules: Rules, sys: System, step: Step)
    requires step.Unlock? || step.Die? || step.LoseConnection?
    requires Inv(rules, sys) && Next(rules, sys, step).Some?
    ensures Inv(rules, Next(rules, sys, step).value)
  {
    LeavingStepsKeepRows(rules, sys, step);
    LeavingStepsKeepCounts(rules, sys, step);
  }

  lemma StepKeeps(rules: Rules, sys: System, step: Step)
    requires Inv(rules, sys) && Next(rules, sys, step).Some?
    ensures Inv(rules, Next(rules, sys, step).value)
  {
    if step.Decide? {
      DecisionsKeep(rules, sys, step);
    } else if step.Record? {
      RecordsKeep(rules, sys, step);
    } else if step.Configure? {
      ChangesKeep(rules, sys, step);
    } else if step.Tick? || step.Spawn? || step.TryLock? {
      SettingStepsKeep(rules, sys, step);
    } else if step.ArchiveCalls? || step.ArchiveEnds? || step.RotateEnds? {
      WorkStepsKeep(rules, sys, step);
    } else {
      LeavingStepsKeep(rules, sys, step);
    }
  }

  lemma {:induction false} RunKeeps(rules: Rules, clock: int, steps: seq<Step>)
    requires Run(rules, clock, steps).Some?
    ensures Inv(rules, Run(rules, clock, steps).value)
    decreases |steps|
  {
    if steps != [] {
      var before, last := steps[..|steps| - 1], steps[|steps| - 1];
      RunKeeps(rules, clock, before);
      StepKeeps(rules, Run(rules, clock, before).value, last);
    }
  }

  /** Whatever the environment does, at most one run row is running and the stored count stays within 0..8. */
  lemma OneRunAtATime(rules: Rules, clock: int, steps: seq<Step>)
    requires Run(rules, clock, steps).Some?
    ensures var sys := Run(rules, clock, steps).value;
            AtMostOneRunning(sys.runs) && 0 <= sys.schedule.failures <= 8
  {
    RunKeeps(rules, clock, steps);
  }

  // --- Rows over time ----------------------------------------------------------------------------------------------

  /** Rows are never deleted, keep their start, and a terminal status is final. */
  ghost predicate RowsLater(runs: map<string, RunRow>, later: map<string, RunRow>) {
    forall id :: id in runs ==>
      && id in later
      && later[id].started == runs[id].started
      && (runs[id].status != Running ==> later[id] == runs[id])
  }

  lemma StepKeepsRows(rules: Rules, sys: System, step: Step)
    requires Next(rules, sys, step).Some?
    ensures RowsLater(sys.runs, Next(rules, sys, step).value.runs)
  {
  }

  lemma {:induction false} TerminalIsFinal(rules: Rules, clock: int, steps: seq<Step>, k: nat)
    requires k <= |steps| && Run(rules, clock, steps).Some?
    ensures Run(rules, clock, steps[..k]).Some?
    ensures RowsLater(Run(rules, clock, steps[..k]).value.runs, Run(rules, clock, steps).value.runs)
    decreases |steps|
  {
    if k == |steps| {
      assert steps[..k] == steps;
    } else {
      var before, last := steps[..|steps| - 1], steps[|steps| - 1];
      assert before[..k] == steps[..k];
      TerminalIsFinal(rules, clock, before, k);
      StepKeepsRows(rules, Run(rules, clock, before).value, last);
    }
  }

  /** A new row appears only in the lock holder's decision, with the schedule enabled and due and nothing left running. */
  lemma AdmittedOnlyWhenDue(rules: Rules, sys: System, step: Step, id: string)
    requires Next(rules, sys, step).Some? && id !in sys.runs && id in Next(rules, sys, step).value.runs
    ensures step.Decide? && step.id == id && sys.holder == Some(step.pid)
    ensures sys.schedule.enabled && sys.schedule.next <= sys.clock
    ensures forall r :: r in sys.runs && sys.runs[r].status == Running ==> sys.runs[r].started < sys.clock - MAX_RUN
    ensures forall r :: r in Next(rules, sys, step).value.runs && Next(rules, sys, step).value.runs[r].status == Running ==> r == id
  {
    var recovered := Recover(sys.runs, sys.clock);
    forall r | r in sys.runs && sys.runs[r].status == Running ensures sys.runs[r].started < sys.clock - MAX_RUN {
      assert recovered[r].status != Running;
    }
  }

  /** Applying the stored policy again changes nothing a run depends on. */
  lemma ReapplyIsIdle(rules: Rules, sys: System)
    requires Next(rules, sys, Configure(sys.schedule.enabled, sys.schedule.interval, sys.schedule.retain)).Some?
    ensures Next(rules, sys, Configure(sys.schedule.enabled, sys.schedule.interval, sys.schedule.retain)) == Some(sys)
  {
  }

  // --- Overlap ------------------------------------------------------------------------------------------------------

  ghost predicate Overlaps(rules: Rules, clock: int, steps: seq<Step>, a: nat, b: nat) {
    && Run(rules, clock, steps).Some?
    && var procs := Run(rules, clock, steps).value.procs;
    && a != b && a in procs && b in procs && Working(procs[a]) && Working(procs[b])
  }

  /**
   The process outlived its run: it is busy with work that carries no context, more than ten minutes after
   its admission, without the lock, and its row has been recorded as ended by somebody else.
   */
  ghost predicate Outlived(sys: System, pid: nat) {
    && pid in sys.procs && Working(sys.procs[pid]) && !(sys.procs[pid].Archiving? && sys.procs[pid].bound)
    && var job := sys.procs[pid].job;
    && !InTime(job, sys.clock) && sys.holder != Some(pid)
    && job.run in sys.runs && sys.runs[job.run].started == job.started && sys.runs[job.run].status != Running
  }

  /** Whatever the rules: of two processes at work at once, one has outlived its run. */
  lemma OverlapMeansOutlived(rules: Rules, clock: int, steps: seq<Step>, a: nat, b: nat)
    requires Overlaps(rules, clock, steps, a, b)
    ensures var sys := Run(rules, clock, steps).value; Outlived(sys, a) || Outlived(sys, b)
    ensures rules.overstay
  {
    RunKeeps(rules, clock, steps);
    var sys := Run(rules, clock, steps).value;
    assert RowOf(sys, a, sys.procs[a].job) && RowOf(sys, b, sys.procs[b].job);
    assert MayWait(rules, sys.procs[a], sys.clock) && MayWait(rules, sys.procs[b], sys.clock);
  }

  /** A run without a lost connection is also a run under rules that forbid the loss. */
  lemma {:induction false} RunWithoutLoss(rules: Rules, clock: int, steps: seq<Step>)
    requires forall k :: 0 <= k < |steps| ==> !steps[k].LoseConnection?
    ensures Run(rules, clock, steps) == Run(rules.(connectionLoss := false), clock, steps)
    decreases |steps|
  {
    if steps != [] {
      RunWithoutLoss(rules, clock, steps[..|steps| - 1]);
      assert !steps[|steps| - 1].LoseConnection?;
    }
  }

  /** Every run on which work overlaps has lost a connection. */
  lemma OverlapMeansLoss(rules: Rules, clock: int, steps: seq<Step>, a: nat, b: nat)
    requires Overlaps(rules, clock, steps, a, b)
    ensures exists k :: 0 <= k < |steps| && steps[k].LoseConnection?
    ensures rules.connectionLoss
  {
    RunKeeps(rules, clock, steps);
    if forall k :: 0 <= k < |steps| ==> !steps[k].LoseConnection? {
      RunWithoutLoss(rules, clock, steps);
      RunKeeps(rules.(connectionLoss := false), clock, steps);
      assert false;
    }
  }

  /** One more step of a run. */
  lemma Extend(rules: Rules, clock: int, steps: seq<Step>, sys: System, step: Step) returns (steps': seq<Step>, sys': System)
    requires Run(rules, clock, steps) == Some(sys) && Next(rules, sys, step).Some?
    ensures steps' == steps + [step] && sys' == Next(rules, sys, step).value && Run(rules, clock, steps') == Some(sys')
  {
    steps', sys' := steps + [step], Next(rules, sys, step).value;
    assert steps'[..|steps'| - 1] == steps;
  }

  /** An enabled schedule whose first run is in flight in process 0. */
  lemma FirstRunInFlight(rules: Rules, clock: int) returns (steps: seq<Step>, sys: System)
    ensures Run(rules, clock, steps) == Some(sys)
    ensures sys == System(clock, Schedule(true, 86400, 7, clock, 0), map["a" := RunRow(clock, Running)], Some(0),
                          map[0 := Archiving(Job("a", clock, 86400, 7, 0, 1), false)], [], 1)
  {
    steps, sys := [], Initial(clock);
    steps, sys := Extend(rules, clock, steps, sys, Configure(true, 86400, 7));
    steps, sys := Extend(rules, clock, steps, sys, Spawn(0));
    steps, sys := Extend(rules, clock, steps, sys, TryLock(0));
    steps, sys := Extend(rules, clock, steps, sys, Decide(0, "a", Ok));
    assert sys.procs == map[0 := Archiving(Job("a", clock, 86400, 7, 0, 1), false)];
    assert sys.runs == map["a" := RunRow(clock, Running)];
  }

  /** The first run's archive is published, its connection is lost, and its rotation takes more than ten minutes. */
  lemma RotationOverstays(rules: Rules, clock: int) returns (steps: seq<Step>, sys: System)
    requires rules.connectionLoss && rules.overstay
    ensures Run(rules, clock, steps) == Some(sys)
    ensures sys == System(clock + 601, Schedule(true, 86400, 7, clock, 0), map["a" := RunRow(clock, Running)], None,
                          map[0 := Rotating(Job("a", clock, 86400, 7, 0, 1))], [], 1)
  {
    steps, sys := FirstRunInFlight(rules, clock);
    steps, sys := Extend(rules, clock, steps, sys, ArchiveEnds(0, true));
    steps, sys := Extend(rules, clock, steps, sys, LoseConnection(0));
    steps, sys := Extend(rules, clock, steps, sys, Tick(601));
    assert sys.procs == map[0 := Rotating(Job("a", clock, 86400, 7, 0, 1))];
  }

  /** The row then counts as stale, and a second process starts archiving beside the rotation. */
  lemma RotationOverlaps(rules: Rules, clock: int) returns (steps: seq<Step>)
    requires rules.connectionLoss && rules.overstay
    ensures Overlaps(rules, clock, steps, 0, 1)
  {
    var sys;
    steps, sys := RotationOverstays(rules, clock);
    steps, sys := Extend(rules, clock, steps, sys, Spawn(1));
    steps, sys := Extend(rules, clock, steps, sys, TryLock(1));
    assert Recover(sys.runs, sys.clock) == map["a" := RunRow(clock, Failed)];
    steps, sys := Extend(rules, clock, steps, sys, Decide(1, "b", Ok));
  }

  /**
   Dumps and rotations never overlap, on any run with process deaths, exactly unless a live process can both
   lose its connection and be kept beyond ten minutes by work that carries no context.
   */
  lemma NoOverlapIff(rules: Rules, clock: int)
    ensures (forall steps, a, b :: !Overlaps(rules, clock, steps, a, b)) <==> !(rules.connectionLoss && rules.overstay)
  {
    if rules.connectionLoss && rules.overstay {
      var steps := RotationOverlaps(rules, clock);
    } else {
      forall steps, a, b ensures !Overlaps(rules, clock, steps, a, b) {
        if Overlaps(rules, clock, steps, a, b) {
          OverlapMeansOutlived(rules, clock, steps, a, b);
          OverlapMeansLoss(rules, clock, steps, a, b);
        }
      }
    }
  }

  // --- Failure series --------------------------------------------------------------------------------------------------

  /** The k-th failure recorded since the last success or policy change stored the k-th count and delay, for every k. */
  ghost predicate InSeries(sys: System) {
    && sys.schedule.failures == Min(|sys.delays|, 8)
    && forall i :: 0 <= i < |sys.delays| ==> sys.delays[i] == Delay(sys.schedule.interval, i + 1)
  }

  /** The step commits the failure of a run in flight. */
  ghost predicate RecordsFailure(sys: System, step: Step) {
    && step.Record? && step.commit != Lost && sys.holder == Some(step.pid)
    && step.pid in sys.procs && sys.procs[step.pid].Finishing? && !sys.procs[step.pid].ok
  }

  /** The step commits a failure whose run was itself a retry and was admitted under an earlier policy. */
  ghost predicate OutdatedFailure(sys: System, step: Step) {
    && RecordsFailure(sys, step)
    && sys.procs[step.pid].job.epoch != sys.epoch
    && sys.procs[step.pid].job.failures >= 1
  }

  /**
   What the failure of a run admitted under an earlier policy stores, where the first count and delay of a
   new series were due: the count is wrong exactly if the run was a retry, and the delay exactly if its
   interval was also longer than a minute.
   */
  lemma OutdatedFailureStores(rules: Rules, sys: System, step: Step)
    requires Inv(rules, sys) && Next(rules, sys, step).Some?
    requires RecordsFailure(sys, step) && sys.procs[step.pid].job.epoch != sys.epoch
    ensures var job, next := sys.procs[step.pid].job, Next(rules, sys, step).value;
            && |next.delays| == 1
            && (next.schedule.failures == 1 <==> job.failures == 0)
            && (next.delays[0] == Delay(next.schedule.interval, 1) <==> job.failures == 0 || job.interval <= 60)
  {
    var job := sys.procs[step.pid].job;
    assert Counted(sys, job);
    BackoffSeries(job.interval, job.failures);
    if job.failures >= 1 { Pow2Grows(1, Min(job.failures + 1, 8) - 1); }
  }

  lemma CurrentFailureExtends(rules: Rules, sys: System, step: Step)
    requires Inv(rules, sys) && Next(rules, sys, step).Some? && InSeries(sys)
    requires RecordsFailure(sys, step) && sys.procs[step.pid].job.epoch == sys.epoch
    ensures InSeries(Next(rules, sys, step).value)
  {
    assert Counted(sys, sys.procs[step.pid].job);
    BackoffSeries(sys.schedule.interval, |sys.delays|);
  }

  lemma OtherStepsKeepSeries(rules: Rules, sys: System, step: Step)
    requires Next(rules, sys, step).Some? && InSeries(sys) && !RecordsFailure(sys, step)
    ensures InSeries(Next(rules, sys, step).value)
  {
  }

  /** One step takes a series on, and nothing but an outdated failure breaks it. */
  lemma StepKeepsSeriesIff(rules: Rules, sys: System, step: Step)
    requires Inv(rules, sys) && Next(rules, sys, step).Some? && InSeries(sys)
    ensures InSeries(Next(rules, sys, step).value) <==> !OutdatedFailure(sys, step)
  {
    if !RecordsFailure(sys, step) {
      OtherStepsKeepSeries(rules, sys, step);
    } else if sys.procs[step.pid].job.epoch == sys.epoch {
      CurrentFailureExtends(rules, sys, step);
    } else {
      OutdatedFailureStores(rules, sys, step);
    }
  }

  /** The state before step `k` of a run. */
  ghost function Before(rules: Rules, clock: int, steps: seq<Step>, k: nat): System
    requires k <= |steps| && Run(rules, clock, steps).Some?
  {
    TerminalIsFinal(rules, clock, steps, k);
    Run(rules, clock, steps[..k]).value
  }

  lemma BeforeNext(rules: Rules, clock: int, steps: seq<Step>, k: nat)
    requires k < |steps| && Run(rules, clock, steps).Some?
    ensures Inv(rules, Before(rules, clock, steps, k))
    ensures Next(rules, Before(rules, clock, steps, k), steps[k]) == Some(Before(rules, clock, steps, k + 1))
  {
    TerminalIsFinal(rules, clock, steps, k);
    TerminalIsFinal(rules, clock, steps, k + 1);
    RunKeeps(rules, clock, steps[..k]);
    assert steps[..k + 1][..k] == steps[..k];
  }

  lemma {:induction false} SeriesUpTo(rules: Rules, clock: int, steps: seq<Step>, n: nat)
    requires n <= |steps| && Run(rules, clock, steps).Some?
    requires forall k :: 0 <= k < n ==> !OutdatedFailure(Before(rules, clock, steps, k), steps[k])
    ensures InSeries(Before(rules, clock, steps, n))
  {
    if n > 0 {
      SeriesUpTo(rules, clock, steps, n - 1);
      BeforeNext(rules, clock, steps, n - 1);
      StepKeepsSeriesIff(rules, Before(rules, clock, steps, n - 1), steps[n - 1]);
    }
  }

  /**
   On any one run, failures follow the series at every moment if and only if the run records no failure of a
   retry that was admitted under an earlier policy.
   */
  lemma SeriesIffNoOutdatedFailure(rules: Rules, clock: int, steps: seq<Step>)
    requires Run(rules, clock, steps).Some?
    ensures (forall k :: 0 <= k <= |steps| ==> InSeries(Before(rules, clock, steps, k))) <==>
            (forall k :: 0 <= k < |steps| ==> !OutdatedFailure(Before(rules, clock, steps, k), steps[k]))
  {
    if forall k :: 0 <= k <= |steps| ==> InSeries(Before(rules, clock, steps, k)) {
      forall k | 0 <= k < |steps| ensures !OutdatedFailure(Before(rules, clock, steps, k), steps[k]) {
        BeforeNext(rules, clock, steps, k);
        assert InSeries(Before(rules, clock, steps, k)) && InSeries(Before(rules, clock, steps, k + 1));
        StepKeepsSeriesIff(rules, Before(rules, clock, steps, k), steps[k]);
      }
    }
    if forall k :: 0 <= k < |steps| ==> !OutdatedFailure(Before(rules, clock, steps, k), steps[k]) {
      forall k | 0 <= k <= |steps| ensures InSeries(Before(rules, clock, steps, k)) {
        SeriesUpTo(rules, clock, steps, k);
      }
    }
  }

  /** The first run has failed and its retry is due. */
  lemma RetryDue(rules: Rules, clock: int) returns (steps: seq<Step>, sys: System)
    ensures Run(rules, clock, steps) == Some(sys)
    ensures sys.procs == map[0 := Idle] && sys.holder == None && sys.runs == map["a" := RunRow(clock, Failed)]
    ensures sys.schedule.enabled && sys.schedule.interval == 86400 && sys.schedule.retain == 7
    ensures sys.schedule.failures == 1 && sys.schedule.next <= sys.clock && sys.epoch == 1
  {
    steps, sys := FirstRunInFlight(rules, clock);
    steps, sys := Extend(rules, clock, steps, sys, ArchiveEnds(0, false));
    steps, sys := Extend(rules, clock, steps, sys, Record(0, Ok));
    assert sys.schedule.failures == 1 && sys.runs == map["a" := RunRow(clock, Failed)];
    steps, sys := Extend(rules, clock, steps, sys, Unlock(0));
    steps, sys := Extend(rules, clock, steps, sys, Tick(86400));
  }

  /** One failed run, and the retry that follows it in flight. */
  lemma RetryInFlight(rules: Rules, clock: int) returns (steps: seq<Step>, sys: System)
    ensures Run(rules, clock, steps) == Some(sys)
    ensures sys.procs == map[0 := Archiving(Job("b", sys.clock, 86400, 7, 1, 1), false)] && sys.holder == Some(0)
    ensures sys.schedule.enabled && sys.schedule.interval == 86400 && sys.epoch == 1
  {
    steps, sys := RetryDue(rules, clock);
    steps, sys := Extend(rules, clock, steps, sys, TryLock(0));
    assert Recover(sys.runs, sys.clock) == sys.runs;
    steps, sys := Extend(rules, clock, steps, sys, Decide(0, "b", Ok));
  }

  ghost predicate BreaksSeries(rules: Rules, clock: int, steps: seq<Step>) {
    Run(rules, clock, steps).Some? && !InSeries(Run(rules, clock, steps).value)
  }

  /** A policy change during that retry resets the count, and the retry's failure then stores its old count plus one. */
  lemma SeriesBrokenByChange(rules: Rules, clock: int) returns (steps: seq<Step>)
    requires rules.changeInFlight
    ensures BreaksSeries(rules, clock, steps)
  {
    var sys;
    steps, sys := RetryInFlight(rules, clock);
    steps, sys := Extend(rules, clock, steps, sys, Configure(true, 3600, 7));
    assert sys.schedule.failures == 0 && sys.delays == [];
    steps, sys := Extend(rules, clock, steps, sys, ArchiveEnds(0, false));
    steps, sys := Extend(rules, clock, steps, sys, Record(0, Ok));
    assert sys.schedule.failures == 2 && |sys.delays| == 1;
  }

  /**
   On every run the k-th failure since the last success or policy change stores min(k, 8) and waits the
   k-th delay, exactly when the policy is never changed while a run is in flight.
   */
  lemma SeriesIffNoChangeInFlight(rules: Rules, clock: int)
    ensures (forall steps :: !BreaksSeries(rules, clock, steps)) <==> !rules.changeInFlight
  {
    if rules.changeInFlight {
      var steps := SeriesBrokenByChange(rules, clock);
    } else {
      forall steps ensures !BreaksSeries(rules, clock, steps) {
        if Run(rules, clock, steps).Some? {
          forall k | 0 <= k < |steps| ensures !OutdatedFailure(Before(rules, clock, steps, k), steps[k]) {
            BeforeNext(rules, clock, steps, k);
          }
          SeriesUpTo(rules, clock, steps, |steps|);
          assert steps[..|steps|] == steps;
        }
      }
    }
  }
}
