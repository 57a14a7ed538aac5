/** The download transition system uses its broker as the broker allows: each run drives one map of sessions. */
module DownloadRefinement {
  import opened Common
  import opened DownloadProtocol
  import opened DownloadSafety
  import V = BrokerView

  function HeldIn(s: Session): (h: V.Held) {
    V.Held(s.actor, if s.entry.plan.Some? then s.entry.plan.value.hash else "", s.entry.claimed, s.ch.canceled)
  }

  function RowOf(s: Session): (r: V.Row) {
    V.Row(s.id, s.entry.present, HeldIn(s))
  }

  function Rows(sys: System): (rows: seq<V.Row>)
    ensures |rows| == |sys| && forall i :: 0 <= i < |sys| ==> rows[i] == RowOf(sys[i])
  {
    seq(|sys|, i requires 0 <= i < |sys| => RowOf(sys[i]))
  }

  /** The broker's map holds exactly the sessions that are present, as they are. */
  ghost predicate Refines(v: V.View, sys: System) {
    V.Shows(v, Rows(sys))
  }

  /** The call of the broker, or the end of a held session's context, that an action amounts to. */
  function CallOf(s: Session, a: Action, t: Session): (call: V.Call) {
    match a
    case SetPlan(_) => if s.browser.Planned? then V.SetPlan(s.id, s.browser.p.hash) else V.NoCall
    case Claim(hash, _) => V.Claim(s.id, hash)
    case Remove => if s.entry.present then V.Remove(s.id) else V.NoCall
    case _ => if s.entry.present && t.ch.canceled && !s.ch.canceled then V.Cancel(s.id) else V.NoCall
  }

  lemma EntryEffect(database: bool, s: Session, a: Action)
    requires a.SetPlan? || a.Remove?
    requires EntryPart(s.entry, s.row, s.browser, s.runner) && BrowserAction(database, s, a).Some?
    ensures var t := BrowserAction(database, s, a).value; V.Effected(RowOf(s), CallOf(s, a, t), RowOf(t))
  {
  }

  lemma BrowserEffect(database: bool, s: Session, a: Action)
    requires ThreadOf(a) == BrowserThread && !a.SetPlan? && !a.Remove? && BrowserAction(database, s, a).Some?
    ensures var t := BrowserAction(database, s, a).value; V.Effected(RowOf(s), CallOf(s, a, t), RowOf(t))
  {
    var t := BrowserAction(database, s, a).value;
    assert t.id == s.id && t.actor == s.actor && t.entry == s.entry;
  }

  lemma OpeningEffect(database: bool, s: Session, a: Action)
    requires ThreadOf(a) == RunnerOpening && OpeningAction(database, s, a).Some?
    ensures var t := OpeningAction(database, s, a).value; V.Effected(RowOf(s), CallOf(s, a, t), RowOf(t))
  {
  }

  lemma CopyEffect(digest: seq<byte> -> string, database: bool, s: Session, a: Action)
    requires ThreadOf(a) == RunnerCopying && CopyAction(digest, database, s, a).Some?
    ensures var t := CopyAction(digest, database, s, a).value; V.Effected(RowOf(s), CallOf(s, a, t), RowOf(t))
  {
  }

  lemma OtherEffect(digest: seq<byte> -> string, database: bool, s: Session, a: Action)
    requires ThreadOf(a) in {InterrupterThread, RunnerFinishing, WatcherThread, Meeting} && SessionStep(digest, database, s, a).Some?
    ensures var t := SessionStep(digest, database, s, a).value; V.Effected(RowOf(s), CallOf(s, a, t), RowOf(t))
  {
  }

  lemma ActionEffect(digest: seq<byte> -> string, database: bool, s: Session, a: Action)
    requires EntryPart(s.entry, s.row, s.browser, s.runner) && SessionStep(digest, database, s, a).Some?
    ensures var t := SessionStep(digest, database, s, a).value; V.Effected(RowOf(s), CallOf(s, a, t), RowOf(t))
  {
    match ThreadOf(a)
    case BrowserThread =>
      if a.SetPlan? || a.Remove? { EntryEffect(database, s, a); } else { BrowserEffect(database, s, a); }
    case RunnerOpening => OpeningEffect(database, s, a);
    case RunnerCopying => CopyEffect(digest, database, s, a);
    case _ => OtherEffect(digest, database, s, a);
  }

  /** Every action keeps to what the broker accepts, and the map follows. */
  lemma ActRefines(digest: seq<byte> -> string, database: bool, v: V.View, sys: System, at: nat, a: Action)
    requires SystemInv(digest, database, sys) && Refines(v, sys)
    requires at < |sys| && SessionStep(digest, database, sys[at], a).Some?
    ensures var t := SessionStep(digest, database, sys[at], a).value;
            var call := CallOf(sys[at], a, t);
            V.Accepts(v, call) && Refines(V.Effect(v, call), sys[at := t])
  {
    var s, t := sys[at], SessionStep(digest, database, sys[at], a).value;
    assert SessionInv(digest, database, s);
    ActionEffect(digest, database, s, a);
    RowsApart(sys);
    V.RowFollows(v, Rows(sys), at, CallOf(s, a, t), RowOf(t));
    RowsOfUpdate(sys, at, t);
  }

  lemma RowsOfUpdate(sys: System, at: nat, t: Session)
    requires at < |sys|
    ensures Rows(sys[at := t]) == Rows(sys)[at := RowOf(t)]
  {
  }

  lemma RowsApart(sys: System)
    requires forall i, j :: 0 <= i < j < |sys| ==> sys[i].id != sys[j].id
    ensures V.Apart(Rows(sys))
  {
  }

  /** For an identifier never used before, the transition system admits exactly whom the broker admits. */
  lemma AdmitsAgree(v: V.View, sys: System, id: string, actor: string)
    requires Refines(v, sys) && forall i :: 0 <= i < |sys| ==> sys[i].id != id
    ensures Admits(sys, id, actor) <==> V.Admits(v, actor)
  {
    var rows := Rows(sys);
    V.AdmitsShown(v, rows, actor);
    assert V.Present(rows) == Active(sys);
    assert forall i :: 0 <= i < |sys| ==> rows[i].present == sys[i].entry.present && rows[i].held.actor == sys[i].actor;
  }

  lemma ReserveRefines(v: V.View, sys: System, id: string, actor: string)
    requires Refines(v, sys) && Admits(sys, id, actor)
    ensures id !in v && V.Accepts(v, V.Reserve(id, actor, ""))
    ensures Refines(V.Effect(v, V.Reserve(id, actor, "")), sys + [Reserved(id, actor)])
  {
    AdmitsAgree(v, sys, id, actor);
    forall k | k in v ensures k != id {
      var i :| V.At(Rows(sys), i, k);
    }
    V.AppendShows(v, Rows(sys), id, V.Held(actor, "", false, false));
    assert Rows(sys + [Reserved(id, actor)]) == Rows(sys) + [RowOf(Reserved(id, actor))];
  }

  // --- Every run ----------------------------------------------------------------------------------------------------

  function CallIn(digest: seq<byte> -> string, database: bool, sys: System, step: Step): (call: V.Call)
    requires Next(digest, database, sys, step).Some?
  {
    match step
    case Reserve(id, actor) => V.Reserve(id, actor, "")
    case Act(at, a) => CallOf(sys[at], a, SessionStep(digest, database, sys[at], a).value)
  }

  lemma StepRefines(digest: seq<byte> -> string, database: bool, v: V.View, sys: System, step: Step)
    requires SystemInv(digest, database, sys) && Refines(v, sys) && Next(digest, database, sys, step).Some?
    ensures V.Accepts(v, CallIn(digest, database, sys, step))
    ensures Refines(V.Effect(v, CallIn(digest, database, sys, step)), Next(digest, database, sys, step).value)
  {
    match step
    case Reserve(id, actor) => ReserveRefines(v, sys, id, actor);
    case Act(at, a) => ActRefines(digest, database, v, sys, at, a);
  }

  /** Step `k` of the run makes this call. */
  ghost predicate Makes(digest: seq<byte> -> string, database: bool, steps: seq<Step>, k: nat, call: V.Call) {
    && k < |steps|
    && Run(digest, database, steps[..k]).Some?
    && var sys := Run(digest, database, steps[..k]).value;
    && Next(digest, database, sys, steps[k]).Some?
    && call == CallIn(digest, database, sys, steps[k])
  }

  /** The calls are those of the run's steps, one by one. */
  ghost predicate MakesAll(digest: seq<byte> -> string, database: bool, steps: seq<Step>, calls: seq<V.Call>) {
    |calls| == |steps| && forall k :: 0 <= k < |steps| ==> Makes(digest, database, steps, k, calls[k])
  }

  lemma OneMoreMade(digest: seq<byte> -> string, database: bool, steps: seq<Step>, calls: seq<V.Call>, call: V.Call)
    requires steps != [] && MakesAll(digest, database, steps[..|steps| - 1], calls) && Makes(digest, database, steps, |steps| - 1, call)
    ensures MakesAll(digest, database, steps, calls + [call])
  {
    var before := steps[..|steps| - 1];
    forall k | 0 <= k < |steps| ensures Makes(digest, database, steps, k, (calls + [call])[k]) {
      if k < |before| {
        assert before[..k] == steps[..k] && Makes(digest, database, before, k, calls[k]);
      }
    }
  }

  /**
   Every run makes a series of calls that the broker accepts one after the other, and the broker's map then
   holds exactly the sessions present in the run's last state, as they are.
   */
  lemma {:induction false} RunRefines(digest: seq<byte> -> string, database: bool, steps: seq<Step>) returns (calls: seq<V.Call>)
    requires Run(digest, database, steps).Some?
    ensures |calls| == |steps| && V.Serve(calls).Served? && Refines(V.Serve(calls).v, Run(digest, database, steps).value)
    ensures MakesAll(digest, database, steps, calls)
    decreases |steps|
  {
    calls := [];
    if steps == [] {
      assert V.Present([]) == {};
    } else {
      var before, last := steps[..|steps| - 1], steps[|steps| - 1];
      calls := RunRefines(digest, database, before);
      var sys := Run(digest, database, before).value;
      RunKeeps(digest, database, before);
      StepRefines(digest, database, V.Serve(calls).v, sys, last);
      V.ServeOne(calls, CallIn(digest, database, sys, last));
      OneMoreMade(digest, database, steps, calls, CallIn(digest, database, sys, last));
      calls := calls + [CallIn(digest, database, sys, last)];
    }
  }

  /** In every reachable state the broker's map is within capacity and holds no actor twice. */
  lemma MapSafety(digest: seq<byte> -> string, database: bool, steps: seq<Step>) returns (v: V.View)
    requires Run(digest, database, steps).Some?
    ensures Refines(v, Run(digest, database, steps).value)
    ensures |v| <= V.CAPACITY && forall i, j :: i in v && j in v && i != j ==> v[i].actor != v[j].actor
  {
    var calls := RunRefines(digest, database, steps);
    v := V.Serve(calls).v;
    RunKeeps(digest, database, steps);
    var sys := Run(digest, database, steps).value;
    assert V.Present(Rows(sys)) == Active(sys);
    forall i, j | i in v && j in v && i != j ensures v[i].actor != v[j].actor {
      var m :| V.At(Rows(sys), m, i);
      var n :| V.At(Rows(sys), n, j);
      assert m != n;
    }
  }

  /** With its plan set, a held session can be claimed in the transition system exactly when the broker lets it be claimed. */
  lemma ClaimsAgree(database: bool, v: V.View, sys: System, at: nat, hash: string, stream: Stream)
    requires Refines(v, sys) && at < |sys| && sys[at].entry.present
    requires sys[at].entry.plan.Some? && sys[at].row == sys[at].entry.plan
    ensures OpeningAction(database, sys[at], Claim(hash, stream)).Some? <==> V.Claimable(v, sys[at].id, hash)
  {
    assert Rows(sys)[at] == RowOf(sys[at]);
  }
}
