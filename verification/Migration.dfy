/**
 The migration runner: one transaction per migration, recorded with its checksum in a ledger. A run
 holds a session lock, so runs happen one after another; each may be interrupted at any statement,
 and an interrupted commit may or may not have taken effect.
 */
module Migration {
  datatype Migration = Migration(version: string, sql: string, checksum: string)

  /** Committed state: whether the ledger table exists, its rows, and the SQL that took effect, in order. */
  datatype State = State(table: bool, ledger: map<string, string>, effects: seq<string>)

  const EMPTY := State(false, map[], [])

  /** The statement at which a run is cut off; `took` says whether an interrupted commit took effect. */
  datatype Interrupt =
    | Never
    | AtConnect
    | AtTable(created: bool)
    | AtLookup(i: nat)
    | AtBegin(i: nat)
    | AtSql(i: nat)
    | AtInsert(i: nat)
    | AtCommit(i: nat, took: bool)

  datatype Result = Completed | Drift(i: nat) | Interrupted

  /** The committed effect of one migration's transaction. */
  function Apply(s: State, m: Migration): (r: State) {
    State(s.table, s.ledger[m.version := m.checksum], s.effects + [m.sql])
  }

  // --- The run as a function --------------------------------------------------------------------------------

  function RunFrom(s: State, ms: seq<Migration>, i: nat, at: Interrupt): (r: (State, Result))
    requires i <= |ms|
    decreases |ms| - i
  {
    if i == |ms| then (s, Completed) else
    var m := ms[i];
    if at == AtLookup(i) then (s, Interrupted)
    else if m.version in s.ledger then
      if s.ledger[m.version] == m.checksum then RunFrom(s, ms, i + 1, at) else (s, Drift(i))
    else if at == AtBegin(i) || at == AtSql(i) || at == AtInsert(i) then (s, Interrupted)
    else if at.AtCommit? && at.i == i then (if at.took then Apply(s, m) else s, Interrupted)
    else RunFrom(Apply(s, m), ms, i + 1, at)
  }

  function RunOnce(s: State, ms: seq<Migration>, at: Interrupt): (r: (State, Result)) {
    if at == AtConnect then (s, Interrupted)
    else if at.AtTable? then (s.(table := s.table || at.created), Interrupted)
    else RunFrom(s.(table := true), ms, 0, at)
  }

  class Database {
    var table: bool
    var ledger: map<string, string>
    var effects: seq<string>

    ghost function Committed(): (s: State)
      reads this
    {
      State(table, ledger, effects)
    }

    constructor ()
      ensures Committed() == EMPTY
    {
      table, ledger, effects := false, map[], [];
    }

    /** The ledger loop: look each version up, skip or stop on its checksum, or apply it in a transaction. */
    method Migrate(ms: seq<Migration>, at: Interrupt) returns (r: Result)
      modifies this
      ensures (Committed(), r) == RunOnce(old(Committed()), ms, at)
    {
      if at == AtConnect {
        return Interrupted;
      }
      if at.AtTable? {
        table := table || at.created;
        return Interrupted;
      }
      table := true;
      var i := 0;
      while i < |ms|
        invariant i <= |ms|
        invariant RunFrom(old(Committed()).(table := true), ms, 0, at) == RunFrom(Committed(), ms, i, at)
      {
        var m := ms[i];
        if at == AtLookup(i) {
          return Interrupted;
        }
        if m.version in ledger {
          if ledger[m.version] != m.checksum {
            return Drift(i);
          }
        } else {
          if at == AtBegin(i) {
            return Interrupted;
          }
          // The open transaction works on copies; nothing is visible before its commit.
          var newEffects, newLedger := effects, ledger;
          if at == AtSql(i) {
            return Interrupted;
          }
          newEffects := newEffects + [m.sql];
          if at == AtInsert(i) {
            return Interrupted;
          }
          newLedger := newLedger[m.version := m.checksum];
          if at.AtCommit? && at.i == i && !at.took {
            return Interrupted;
          }
          effects, ledger := newEffects, newLedger;
          if at.AtCommit? && at.i == i {
            return Interrupted;
          }
        }
        i := i + 1;
      }
      return Completed;
    }
  }

  // --- Reference: one uninterrupted run from the empty database -----------------------------------------------

  /** The state after the first `k` migrations: each version recorded once, its first SQL applied once. */
  function Clean(ms: seq<Migration>, k: nat): (s: State)
    requires k <= |ms|
    ensures s.table
  {
    if k == 0 then State(true, map[], []) else
    var s := Clean(ms, k - 1);
    if ms[k - 1].version in s.ledger then s else Apply(s, ms[k - 1])
  }

  predicate DistinctVersions(ms: seq<Migration>) {
    forall i, j :: 0 <= i < j < |ms| ==> ms[i].version != ms[j].version
  }

  function Sqls(ms: seq<Migration>): (s: seq<string>)
    ensures |s| == |ms| && forall i :: 0 <= i < |ms| ==> s[i] == ms[i].sql
  {
    seq(|ms|, i requires 0 <= i < |ms| => ms[i].sql)
  }

  /** With distinct versions, a clean prefix has run exactly those migrations' SQL once each, in order. */
  lemma {:induction false} CleanIsExactlyOnce(ms: seq<Migration>, k: nat)
    requires DistinctVersions(ms) && k <= |ms|
    ensures Clean(ms, k).effects == Sqls(ms[..k])
    ensures forall v :: v in Clean(ms, k).ledger <==> exists i :: 0 <= i < k && ms[i].version == v
    ensures forall i :: 0 <= i < k ==> ms[i].version in Clean(ms, k).ledger && Clean(ms, k).ledger[ms[i].version] == ms[i].checksum
  {
    if k > 0 {
      CleanIsExactlyOnce(ms, k - 1);
      assert Sqls(ms[..k]) == Sqls(ms[..k - 1]) + [ms[k - 1].sql];
    }
  }

  /** An earlier release's source has the same clean states as the longer one. */
  lemma {:induction false} CleanOfPrefix(ms: seq<Migration>, n: nat, k: nat)
    requires k <= n <= |ms|
    ensures Clean(ms[..n], k) == Clean(ms, k)
  {
    if k > 0 { CleanOfPrefix(ms, n, k - 1); }
  }

  lemma {:induction false} LedgerGrows(ms: seq<Migration>, j: nat, k: nat)
    requires j < k <= |ms|
    ensures ms[j].version in Clean(ms, k).ledger
  {
    if j < k - 1 { LedgerGrows(ms, j, k - 1); }
  }

  // --- Resumption -----------------------------------------------------------------------------------------------

  /** A run over `ms` that starts in a clean state and has reached `i` ends in a clean state. */
  lemma {:induction false} RunStaysClean(ms: seq<Migration>, k: nat, i: nat, at: Interrupt) returns (k': nat)
    requires k <= |ms| && i <= |ms|
    requires i <= k || Clean(ms, i) == Clean(ms, k)
    ensures k' <= |ms| && RunFrom(Clean(ms, k), ms, i, at).0 == Clean(ms, k')
    ensures RunFrom(Clean(ms, k), ms, i, at).1 == Completed ==> Clean(ms, k') == Clean(ms, |ms|)
    decreases |ms| - i
  {
    k' := k;
    if i < |ms| && at != AtLookup(i) {
      if ms[i].version in Clean(ms, k).ledger {
        if Clean(ms, k).ledger[ms[i].version] == ms[i].checksum {
          k' := RunStaysClean(ms, k, i + 1, at);
        }
      } else {
        if i < k { LedgerGrows(ms, i, k); assert false; }
        assert Clean(ms, i + 1) == Apply(Clean(ms, k), ms[i]);
        if at == AtBegin(i) || at == AtSql(i) || at == AtInsert(i) {
        } else if at.AtCommit? && at.i == i {
          k' := if at.took then i + 1 else k;
        } else {
          k' := RunStaysClean(ms, i + 1, i + 1, at);
        }
      }
    }
  }

  /** One attempt: an installation of the first `n` migrations, cut off at `at`. */
  datatype Attempt = Attempt(n: nat, at: Interrupt)

  function RunAll(s: State, ms: seq<Migration>, attempts: seq<Attempt>): (r: State)
    requires forall a :: a in attempts ==> a.n <= |ms|
    decreases |attempts|
  {
    if attempts == [] then s else
    var last := attempts[|attempts| - 1];
    RunOnce(RunAll(s, ms, attempts[..|attempts| - 1]), ms[..last.n], last.at).0
  }

  /** The database is where some clean run of `k` migrations leaves it, but for the ledger table itself. */
  ghost predicate CleanAt(s: State, ms: seq<Migration>, k: nat) {
    k <= |ms| && s.(table := true) == Clean(ms, k)
  }

  lemma AttemptStaysClean(s: State, ms: seq<Migration>, k: nat, n: nat, at: Interrupt) returns (k': nat)
    requires CleanAt(s, ms, k) && n <= |ms|
    ensures CleanAt(RunOnce(s, ms[..n], at).0, ms, k')
    ensures RunOnce(s, ms[..n], at).1 == Completed && k <= n ==> RunOnce(s, ms[..n], at).0 == Clean(ms, n)
  {
    k' := k;
    if at != AtConnect && !at.AtTable? {
      if k <= n {
        CleanOfPrefix(ms, n, k);
        k' := RunStaysClean(ms[..n], k, 0, at);
        CleanOfPrefix(ms, n, k');
        CleanOfPrefix(ms, n, n);
      } else {
        OldSourceChangesNothing(ms, k, n, 0, at);
      }
    }
  }

  /** An earlier release run against a newer database applies nothing. */
  lemma {:induction false} OldSourceChangesNothing(ms: seq<Migration>, k: nat, n: nat, i: nat, at: Interrupt)
    requires i <= n < k <= |ms|
    ensures RunFrom(Clean(ms, k), ms[..n], i, at).0 == Clean(ms, k)
    decreases n - i
  {
    if i < n {
      LedgerGrows(ms, i, k);
      OldSourceChangesNothing(ms, k, n, i + 1, at);
    }
  }

  /** From an empty database, any attempts leave exactly some clean prefix. */
  lemma {:induction false} AttemptsLeaveCleanPrefix(ms: seq<Migration>, attempts: seq<Attempt>) returns (k: nat)
    requires forall a :: a in attempts ==> a.n <= |ms|
    ensures CleanAt(RunAll(EMPTY, ms, attempts), ms, k)
    decreases |attempts|
  {
    if attempts == [] {
      k := 0;
    } else {
      var before, last := attempts[..|attempts| - 1], attempts[|attempts| - 1];
      k := AttemptsLeaveCleanPrefix(ms, before);
      k := AttemptStaysClean(RunAll(EMPTY, ms, before), ms, k, last.n, last.at);
    }
  }

  /**
   Any series of interrupted runs of this or earlier releases, followed by a run that completes, leaves
   the schema and ledger of one uninterrupted run from the empty database.
   */
  lemma ResumptionEqualsCleanRun(ms: seq<Migration>, attempts: seq<Attempt>, at: Interrupt)
    requires forall a :: a in attempts ==> a.n <= |ms|
    requires RunOnce(RunAll(EMPTY, ms, attempts), ms, at).1 == Completed
    ensures RunOnce(RunAll(EMPTY, ms, attempts), ms, at).0 == RunOnce(EMPTY, ms, Never).0 == Clean(ms, |ms|)
    ensures RunOnce(EMPTY, ms, Never).1 == Completed
  {
    var s := RunAll(EMPTY, ms, attempts);
    assert ms[..|ms|] == ms;
    var k := AttemptsLeaveCleanPrefix(ms, attempts);
    var k' := AttemptStaysClean(s, ms, k, |ms|, at);
    CompletedHasNoDrift(s.(table := true), ms, 0, at);
    UninterruptedCompletes(ms, 0);
  }

  /** A run that completes has found, for every migration of the source, its own checksum in the ledger. */
  lemma {:induction false} CompletedHasNoDrift(s: State, ms: seq<Migration>, i: nat, at: Interrupt)
    requires i <= |ms| && RunFrom(s, ms, i, at).1 == Completed
    ensures var r := RunFrom(s, ms, i, at).0;
            && (forall v :: v in s.ledger ==> v in r.ledger && r.ledger[v] == s.ledger[v])
            && (forall j :: i <= j < |ms| ==> ms[j].version in r.ledger && r.ledger[ms[j].version] == ms[j].checksum)
    decreases |ms| - i
  {
    if i < |ms| {
      var m := ms[i];
      var next := if m.version in s.ledger then s else Apply(s, m);
      CompletedHasNoDrift(next, ms, i + 1, at);
      assert m.version in next.ledger;
    }
  }

  lemma {:induction false} UninterruptedCompletes(ms: seq<Migration>, i: nat)
    requires i <= |ms|
    requires forall j :: 0 <= j < |ms| ==> ms[j].version in Clean(ms, |ms|).ledger && Clean(ms, |ms|).ledger[ms[j].version] == ms[j].checksum
    ensures RunFrom(Clean(ms, i), ms, i, Never) == (Clean(ms, |ms|), Completed)
    decreases |ms| - i
  {
    if i < |ms| {
      CleanLedgerKept(ms, i, |ms|);
      assert ms[i].version in Clean(ms, |ms|).ledger;
      UninterruptedCompletes(ms, i + 1);
    }
  }

  lemma {:induction false} CleanLedgerKept(ms: seq<Migration>, j: nat, k: nat)
    requires j <= k <= |ms|
    ensures forall v :: v in Clean(ms, j).ledger ==> v in Clean(ms, k).ledger && Clean(ms, k).ledger[v] == Clean(ms, j).ledger[v]
  {
    if j < k { CleanLedgerKept(ms, j, k - 1); }
  }

  /** With distinct versions, completion means every migration's SQL took effect exactly once, in source order. */
  lemma CompletedIsExactlyOnce(ms: seq<Migration>, attempts: seq<Attempt>, at: Interrupt)
    requires DistinctVersions(ms)
    requires forall a :: a in attempts ==> a.n <= |ms|
    requires RunOnce(RunAll(EMPTY, ms, attempts), ms, at).1 == Completed
    ensures RunOnce(RunAll(EMPTY, ms, attempts), ms, at).0.effects == Sqls(ms)
  {
    ResumptionEqualsCleanRun(ms, attempts, at);
    CleanIsExactlyOnce(ms, |ms|);
    assert ms[..|ms|] == ms;
  }

  // --- Drift ------------------------------------------------------------------------------------------------------

  /** The source changed an already recorded migration. */
  predicate Drifted(s: State, ms: seq<Migration>, d: nat) {
    d < |ms| && ms[d].version in s.ledger && s.ledger[ms[d].version] != ms[d].checksum
  }

  /**
   From any database, a run whose source disagrees with the ledger at `d` never completes and does exactly
   what the source cut off before `d` would have done: no later migration runs.
   */
  lemma {:induction false} DriftStopsTheRun(s: State, ms: seq<Migration>, i: nat, d: nat, at: Interrupt)
    requires i <= d && Drifted(s, ms, d)
    ensures RunFrom(s, ms, i, at).1 != Completed
    ensures RunFrom(s, ms, i, at).0 == RunFrom(s, ms[..d], i, at).0
    decreases d - i
  {
    if i < d {
      var m := ms[i];
      assert ms[..d][i] == m;
      if m.version in s.ledger {
        DriftStopsTheRun(s, ms, i + 1, d, at);
      } else {
        assert Drifted(Apply(s, m), ms, d);
        DriftStopsTheRun(Apply(s, m), ms, i + 1, d, at);
      }
    }
  }

  /** Migrations of one version agree in their checksum. */
  predicate Consistent(ms: seq<Migration>) {
    forall i, j :: 0 <= i < j < |ms| && ms[i].version == ms[j].version ==> ms[i].checksum == ms[j].checksum
  }

  /**
   From any database and for any source, an uninterrupted run completes exactly if no recorded checksum
   differs from the source and the source does not differ from itself.
   */
  lemma CompletesIffNoDrift(s: State, ms: seq<Migration>)
    ensures RunOnce(s, ms, Never).1 == Completed <==> (forall d :: 0 <= d < |ms| ==> !Drifted(s, ms, d)) && Consistent(ms)
  {
    var start := s.(table := true);
    if RunOnce(s, ms, Never).1 == Completed {
      CompletedHasNoDrift(start, ms, 0, Never);
    }
    if (forall d :: 0 <= d < |ms| ==> !Drifted(s, ms, d)) && Consistent(ms) {
      forall d | 0 <= d < |ms| ensures !Drifted(start, ms, d) { assert !Drifted(s, ms, d); }
      NoDriftCompletes(start, ms, 0);
    }
  }

  lemma {:induction false} NoDriftCompletes(s: State, ms: seq<Migration>, i: nat)
    requires Consistent(ms) && i <= |ms|
    requires forall d :: i <= d < |ms| ==> !Drifted(s, ms, d)
    ensures RunFrom(s, ms, i, Never).1 == Completed
    decreases |ms| - i
  {
    if i < |ms| {
      assert !Drifted(s, ms, i);
      var next := if ms[i].version in s.ledger then s else Apply(s, ms[i]);
      forall d | i + 1 <= d < |ms| ensures !Drifted(next, ms, d) {
        assert !Drifted(s, ms, d);
      }
      NoDriftCompletes(next, ms, i + 1);
    }
  }

  lemma {:induction false} CleanLedgerIsFromSource(ms: seq<Migration>, k: nat, v: string)
    requires k <= |ms| && v in Clean(ms, k).ledger
    ensures exists i :: 0 <= i < k && ms[i].version == v && ms[i].checksum == Clean(ms, k).ledger[v]
  {
    if v in Clean(ms, k - 1).ledger {
      CleanLedgerIsFromSource(ms, k - 1, v);
    } else {
      assert ms[k - 1].version == v;
    }
  }

  /**
   Whatever interrupted attempts went before, one uninterrupted run completes exactly if the source does not
   differ from itself; it then leaves the state of a clean run, with distinct versions every migration
   applied exactly once and in source order.
   */
  lemma RetryCompletesIff(ms: seq<Migration>, attempts: seq<Attempt>)
    requires forall a :: a in attempts ==> a.n <= |ms|
    ensures RunOnce(RunAll(EMPTY, ms, attempts), ms, Never).1 == Completed <==> Consistent(ms)
    ensures Consistent(ms) ==> RunOnce(RunAll(EMPTY, ms, attempts), ms, Never).0 == Clean(ms, |ms|)
    ensures DistinctVersions(ms) ==> Consistent(ms) && Clean(ms, |ms|).effects == Sqls(ms)
  {
    var s := RunAll(EMPTY, ms, attempts);
    var k := AttemptsLeaveCleanPrefix(ms, attempts);
    CompletesIffNoDrift(s, ms);
    if Consistent(ms) {
      forall d | 0 <= d < |ms| ensures !Drifted(s, ms, d) {
        if ms[d].version in s.ledger {
          assert s.ledger == Clean(ms, k).ledger;
          CleanLedgerIsFromSource(ms, k, ms[d].version);
        }
      }
      ResumptionEqualsCleanRun(ms, attempts, Never);
    }
    if DistinctVersions(ms) {
      CleanIsExactlyOnce(ms, |ms|);
      assert ms[..|ms|] == ms;
    }
  }
}
