/**
 The durable backup scheduler: any number of scheduler processes share one schedule row, the run rows
 and one session advisory lock. Transactions are atomic; their commit may succeed, fail, or fail after
 taking effect. A process may die at any step, which frees its lock. The dump and the queries of a run
 carry a context that ends ten minutes after admission, and no such call outlasts it; sync, checksum,
 inventory, publication and rotation carry none. `Rules` says whether the environment may also drop a
 live process's database connection, let that other work outlast the ten minutes, and change the
 policy while a run is in flight.
 */
module Scheduler {
  import opened Common

  const MAX_RUN := 600

  datatype Status = Running | Succeeded | Failed

  datatype RunRow = RunRow(started: int, status: Status)

  datatype Schedule = Schedule(enabled: bool, interval: int, retain: int, next: int, failures: int)

  /** What a process read when its run was admitted, and when that was; `epoch` is history. */
  datatype Job = Job(run: string, started: int, interval: int, retain: int, failures: int, epoch: nat)

  /** While archiving, `bound` says that the call in progress carries the run's context. */
  datatype Proc =
    | Idle
    | Locked
    | Archiving(job: Job, bound: bool)
    | Rotating(job: Job)
    | Finishing(job: Job, ok: bool)
    | Unlocking

  /**
   `delays` and `epoch` are history: the delays recorded since the last recorded success or policy change,
   and the number of policy changes.
   */
  datatype System = System(
    clock: int,
    schedule: Schedule,
    runs: map<string, RunRow>,
    holder: Option<nat>,
    procs: map<nat, Proc>,
    delays: seq<int>,
    epoch: nat)

  datatype Commit = Ok | Lost | Ambiguous

  datatype Rules = Rules(connectionLoss: bool, overstay: bool, changeInFlight: bool)

  datatype Step =
    | Tick(seconds: nat)
    | Configure(enabled: bool, interval: int, retain: int)
    | Spawn(pid: nat)
    | TryLock(pid: nat)
    | Decide(pid: nat, id: string, commit: Commit)
    | ArchiveCalls(pid: nat, bound: bool)
    | ArchiveEnds(pid: nat, ok: bool)
    | RotateEnds(pid: nat, ok: bool)
    | Record(pid: nat, commit: Commit)
    | Unlock(pid: nat)
    | Die(pid: nat)
    | LoseConnection(pid: nat)

  // --- Backoff -------------------------------------------------------------------------------------------------

  function Pow2(n: nat): (p: nat)
    ensures p >= 1
  {
    if n == 0 then 1 else 2 * Pow2(n - 1)
  }

  /** New failure count and delay in seconds after one more failure. */
  function Backoff(interval: int, failures: nat): (r: (nat, int)) {
    var bounded := if interval < 60 then 60 else interval;
    var count := Min(failures + 1, 8);
    (count, Min(bounded, 60 * Pow2(count - 1)))
  }

  // --- Transactions ------------------------------------------------------------------------------------------------

  /** Runs started more than ten minutes ago are recorded as failed. */
  function Recover(runs: map<string, RunRow>, now: int): (r: map<string, RunRow>) {
    map id | id in runs ::
      if runs[id].status == Running && runs[id].started < now - MAX_RUN then runs[id].(status := Failed) else runs[id]
  }

  predicate NoneRunning(runs: map<string, RunRow>) {
    forall id :: id in runs ==> runs[id].status != Running
  }

  predicate Due(s: Schedule, now: int) {
    s.enabled && s.next <= now
  }

  predicate PolicyChanges(s: Schedule, enabled: bool, interval: int, retain: int) {
    s.enabled != enabled || s.interval != interval || s.retain != retain
  }

  function Reconfigured(s: Schedule, enabled: bool, interval: int, retain: int, now: int): (r: Schedule) {
    if PolicyChanges(s, enabled, interval, retain)
    then Schedule(enabled, interval, retain, now, 0)
    else Schedule(enabled, interval, retain, s.next, s.failures)
  }

  function Recorded(sys: System, job: Job, ok: bool): (r: System)
    requires job.failures >= 0
  {
    var runs := if job.run in sys.runs && sys.runs[job.run].status == Running
                then sys.runs[job.run := sys.runs[job.run].(status := if ok then Succeeded else Failed)]
                else sys.runs;
    if ok then
      sys.(runs := runs, schedule := sys.schedule.(next := sys.clock + job.interval, failures := 0), delays := [])
    else
      var (count, delay) := Backoff(job.interval, job.failures);
      sys.(runs := runs, schedule := sys.schedule.(next := sys.clock + delay, failures := count), delays := sys.delays + [delay])
  }

  predicate InFlight(p: Proc) {
    p.Archiving? || p.Rotating? || p.Finishing?
  }

  /** The process is dumping or rotating archives. */
  predicate Working(p: Proc) {
    p.Archiving? || p.Rotating?
  }

  /** The run's context has not ended, or the row is not yet stale: the two limits are the same. */
  predicate InTime(job: Job, now: int) {
    now <= job.started + MAX_RUN
  }

  /** Time cannot pass a deadline under a call that carries it. */
  predicate MayWait(rules: Rules, p: Proc, now: int) {
    Working(p) && ((p.Archiving? && p.bound) || !rules.overstay) ==> InTime(p.job, now)
  }

  function Move(sys: System, pid: nat, p: Proc): (r: System) {
    sys.(procs := sys.procs[pid := p])
  }

  predicate At(sys: System, pid: nat, p: Proc) {
    pid in sys.procs && sys.procs[pid] == p
  }

  /** The admission transaction of the lock holder. */
  function Decided(sys: System, pid: nat, id: string, commit: Commit): (r: System) {
    var runs := Recover(sys.runs, sys.clock);
    if commit == Lost then Move(sys, pid, Unlocking)
    else if !Due(sys.schedule, sys.clock) || !NoneRunning(runs) then Move(sys.(runs := runs), pid, Unlocking)
    else
      var s := sys.schedule;
      var admitted := sys.(runs := runs[id := RunRow(sys.clock, Running)]);
      if commit == Ambiguous then Move(admitted, pid, Unlocking)
      else Move(admitted, pid, Archiving(Job(id, sys.clock, s.interval, s.retain, s.failures, sys.epoch), false))
  }

  function Next(rules: Rules, sys: System, step: Step): (r: Option<System>) {
    match step
    case Tick(seconds) =>
      if forall pid :: pid in sys.procs ==> MayWait(rules, sys.procs[pid], sys.clock + seconds)
      then Some(sys.(clock := sys.clock + seconds))
      else None
    case Configure(enabled, interval, retain) =>
      if 60 <= interval <= 604800 && 1 <= retain <= 365 &&
         (PolicyChanges(sys.schedule, enabled, interval, retain) && !rules.changeInFlight ==>
            forall pid :: pid in sys.procs ==> !InFlight(sys.procs[pid]))
      then Some(sys.(schedule := Reconfigured(sys.schedule, enabled, interval, retain, sys.clock),
                     delays := if PolicyChanges(sys.schedule, enabled, interval, retain) then [] else sys.delays,
                     epoch := if PolicyChanges(sys.schedule, enabled, interval, retain) then sys.epoch + 1 else sys.epoch))
      else None
    case Spawn(pid) => if pid !in sys.procs then Some(Move(sys, pid, Idle)) else None
    case TryLock(pid) =>
      if At(sys, pid, Idle) && sys.holder == None then Some(Move(sys.(holder := Some(pid)), pid, Locked)) else None
    case Decide(pid, id, commit) =>
      if At(sys, pid, Locked) && sys.holder == Some(pid) && id !in sys.runs then Some(Decided(sys, pid, id, commit)) else None
    case ArchiveCalls(pid, bound) =>
      // A call under a context that has ended fails at once.
      if pid in sys.procs && sys.procs[pid].Archiving? && (bound ==> InTime(sys.procs[pid].job, sys.clock))
      then Some(Move(sys, pid, Archiving(sys.procs[pid].job, bound)))
      else None
    case ArchiveEnds(pid, ok) =>
      // The last work of a successful archive, its publication, carries no context.
      if pid in sys.procs && sys.procs[pid].Archiving? && (ok ==> !sys.procs[pid].bound) then
        var job := sys.procs[pid].job;
        Some(Move(sys, pid, if ok then Rotating(job) else Finishing(job, false)))
      else None
    case RotateEnds(pid, ok) =>
      if pid in sys.procs && sys.procs[pid].Rotating? then Some(Move(sys, pid, Finishing(sys.procs[pid].job, ok))) else None
    case Record(pid, commit) =>
      if pid in sys.procs && sys.procs[pid].Finishing? && sys.procs[pid].job.failures >= 0 then
        if commit == Lost || sys.holder != Some(pid) then Some(Move(sys, pid, Unlocking))
        else Some(Move(Recorded(sys, sys.procs[pid].job, sys.procs[pid].ok), pid, Unlocking))
      else None
    case Unlock(pid) =>
      if pid in sys.procs && (sys.procs[pid].Unlocking? || sys.procs[pid].Locked?) then
        Some(Move(sys.(holder := if sys.holder == Some(pid) then None else sys.holder), pid, Idle))
      else None
    case Die(pid) =>
      if pid in sys.procs then
        Some(sys.(procs := sys.procs - {pid}, holder := if sys.holder == Some(pid) then None else sys.holder))
      else None
    case LoseConnection(pid) =>
      if rules.connectionLoss && sys.holder == Some(pid) then Some(sys.(holder := None)) else None
  }

  /** A new database: no runs, no processes, and the disabled default policy. */
  function Initial(clock: int): (s: System) {
    System(clock, Schedule(false, 86400, 7, clock, 0), map[], None, map[], [], 0)
  }

  function Run(rules: Rules, clock: int, steps: seq<Step>): (r: Option<System>)
    decreases |steps|
  {
    if steps == [] then Some(Initial(clock)) else
    match Run(rules, clock, steps[..|steps| - 1])
    case None => None
    case Some(sys) => Next(rules, sys, steps[|steps| - 1])
  }
}
