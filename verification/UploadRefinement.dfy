/** The upload transition system uses its broker as the broker allows: each run drives one map of sessions. */
module UploadRefinement {
  import opened Common
  import opened UploadProtocol
  import opened UploadSafety
  import V = BrokerView

  function RowOf(s: Session): (r: V.Row) {
    V.Row(s.entry.stage, s.entry.present, V.Held(s.actor, s.entry.hash, s.entry.claimed, false))
  }

  function Rows(sys: System): (rows: seq<V.Row>)
    ensures |rows| == |sys| && forall i :: 0 <= i < |sys| ==> rows[i] == RowOf(sys[i])
  {
    seq(|sys|, i requires 0 <= i < |sys| => RowOf(sys[i]))
  }

  /** The broker's map holds exactly the sessions that are present, as they are. */
  ghost predicate Refines(v: V.View, sys: System) {
    V.Shows(v, Rows(sys))
  }

  /** The call of the broker that an action amounts to. */
  function CallOf(s: Session, a: Action): (call: V.Call) {
    match a
    case Claim(hash) => V.Claim(s.entry.stage, hash)
    case Remove => V.Remove(s.entry.stage)
    case _ => V.NoCall
  }

  lemma BrowserEffect(s: Session, a: Action)
    requires ThreadOf(a) in {BrowserOpening, BrowserCopying, BrowserClosing} && SessionStep(s, a).Some?
    requires s.entry.present == (!s.browser.Cleaning? && !s.browser.Left?)
    ensures V.Effected(RowOf(s), CallOf(s, a), RowOf(SessionStep(s, a).value))
  {
    if ThreadOf(a) == BrowserCopying { CopyKeepsIdentity(s, a); }
  }

  lemma OtherEffect(s: Session, a: Action)
    requires ThreadOf(a) in {RunnerThread, Watchers, Meeting} && SessionStep(s, a).Some?
    ensures V.Effected(RowOf(s), CallOf(s, a), RowOf(SessionStep(s, a).value))
  {
  }

  lemma RowsOfUpdate(sys: System, at: nat, t: Session)
    requires at < |sys|
    ensures Rows(sys[at := t]) == Rows(sys)[at := RowOf(t)]
  {
  }

  lemma RowsApart(sys: System)
    requires SystemInv(sys)
    ensures V.Apart(Rows(sys))
  {
  }

  /** Every action keeps to what the broker accepts, and the map follows. */
  lemma ActRefines(v: V.View, sys: System, at: nat, a: Action)
    requires SystemInv(sys) && Refines(v, sys) && at < |sys| && SessionStep(sys[at], a).Some?
    ensures V.Accepts(v, CallOf(sys[at], a))
    ensures Refines(V.Effect(v, CallOf(sys[at], a)), sys[at := SessionStep(sys[at], a).value])
  {
    var s, t := sys[at], SessionStep(sys[at], a).value;
    assert SessionInv(s);
    if ThreadOf(a) in {RunnerThread, Watchers, Meeting} { OtherEffect(s, a); } else { BrowserEffect(s, a); }
    RowsApart(sys);
    V.RowFollows(v, Rows(sys), at, CallOf(s, a), RowOf(t));
    RowsOfUpdate(sys, at, t);
  }

  /** The transition system admits exactly the uploads that the broker admits: a stage not held, an actor without one. */
  lemma AdmitsAgree(v: V.View, sys: System, stage: string, actor: string)
    requires Refines(v, sys)
    ensures Admits(sys, stage, actor) <==> stage !in v && V.Admits(v, actor)
  {
    var rows := Rows(sys);
    V.AdmitsShown(v, rows, actor);
    assert V.Present(rows) == Active(sys);
    assert forall i :: 0 <= i < |sys| ==>
      rows[i].present == sys[i].entry.present && rows[i].held.actor == sys[i].actor && rows[i].id == sys[i].entry.stage;
    if stage in v {
      var i :| V.At(rows, i, stage);
    }
  }

  lemma ReserveRefines(v: V.View, sys: System, stage: string, hash: string, actor: string, req: Request)
    requires Refines(v, sys) && Admits(sys, stage, actor)
    ensures stage !in v && V.Accepts(v, V.Reserve(stage, actor, hash))
    ensures Refines(V.Effect(v, V.Reserve(stage, actor, hash)), sys + [Reserved(stage, hash, actor, req)])
  {
    AdmitsAgree(v, sys, stage, actor);
    V.AppendShows(v, Rows(sys), stage, V.Held(actor, hash, false, false));
    assert Rows(sys + [Reserved(stage, hash, actor, req)]) == Rows(sys) + [RowOf(Reserved(stage, hash, actor, req))];
  }

  function CallIn(sys: System, step: Step): (call: V.Call)
    requires Next(sys, step).Some?
  {
    match step
    case Reserve(stage, hash, actor, _) => V.Reserve(stage, actor, hash)
    case Act(at, a) => CallOf(sys[at], a)
  }

  lemma StepRefines(v: V.View, sys: System, step: Step)
    requires SystemInv(sys) && Refines(v, sys) && Next(sys, step).Some?
    ensures V.Accepts(v, CallIn(sys, step)) && Refines(V.Effect(v, CallIn(sys, step)), Next(sys, step).value)
  {
    match step
    case Reserve(stage, hash, actor, req) => ReserveRefines(v, sys, stage, hash, actor, req);
    case Act(at, a) => ActRefines(v, sys, at, a);
  }

  /** Step `k` of the run makes this call. */
  ghost predicate Makes(steps: seq<Step>, k: nat, call: V.Call) {
    && k < |steps|
    && Run(steps[..k]).Some?
    && Next(Run(steps[..k]).value, steps[k]).Some?
    && call == CallIn(Run(steps[..k]).value, steps[k])
  }

  /** The calls are those of the run's steps, one by one. */
  ghost predicate MakesAll(steps: seq<Step>, calls: seq<V.Call>) {
    |calls| == |steps| && forall k :: 0 <= k < |steps| ==> Makes(steps, k, calls[k])
  }

  lemma OneMoreMade(steps: seq<Step>, calls: seq<V.Call>, call: V.Call)
    requires steps != [] && MakesAll(steps[..|steps| - 1], calls) && Makes(steps, |steps| - 1, call)
    ensures MakesAll(steps, calls + [call])
  {
    var before := steps[..|steps| - 1];
    forall k | 0 <= k < |steps| ensures Makes(steps, k, (calls + [call])[k]) {
      if k < |before| {
        assert before[..k] == steps[..k] && Makes(before, k, calls[k]);
      }
    }
  }

  /**
   Every run makes a series of calls that the broker accepts one after the other, and the broker's map then
   holds exactly the sessions present in the run's last state, as they are.
   */
  lemma {:induction false} RunRefines(steps: seq<Step>) returns (calls: seq<V.Call>)
    requires Run(steps).Some?
    ensures |calls| == |steps| && V.Serve(calls).Served? && Refines(V.Serve(calls).v, Run(steps).value)
    ensures MakesAll(steps, calls)
    decreases |steps|
  {
    calls := [];
    if steps == [] {
      assert V.Present([]) == {};
    } else {
      var before, last := steps[..|steps| - 1], steps[|steps| - 1];
      calls := RunRefines(before);
      var sys := Run(before).value;
      RunKeeps(before);
      StepRefines(V.Serve(calls).v, sys, last);
      V.ServeOne(calls, CallIn(sys, last));
      OneMoreMade(steps, calls, CallIn(sys, last));
      calls := calls + [CallIn(sys, last)];
    }
  }

  /** A held upload can be claimed in the transition system exactly when the broker lets it be claimed. */
  lemma ClaimsAgree(v: V.View, sys: System, at: nat, hash: string)
    requires Refines(v, sys) && at < |sys| && sys[at].entry.present
    ensures SessionStep(sys[at], Claim(hash)).Some? <==> V.Claimable(v, sys[at].entry.stage, hash)
  {
    assert Rows(sys)[at] == RowOf(sys[at]);
  }
}
