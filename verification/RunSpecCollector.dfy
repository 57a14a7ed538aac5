/**
 The walk that collects runner-file bindings from a stored run specification, with budgets on the number
 of run specs visited and on the nesting depth.
 */
module RunSpecCollector {
  import opened Common
  import opened Text

  const MAX_DEPTH := 32
  const MAX_NODES := 4096
  const RUNNER_FILE := "runner_file"

  datatype Binding = Binding(name: string, provider: string, reference: string, version: string, target: string)

  datatype RunSpec = RunSpec(secrets: seq<Binding>, workflow: Option<Workflow>)

  datatype Workflow = Workflow(steps: seq<RunSpec>)

  datatype Item = Item(provider: string, reference: string, version: string)

  // --- Reference: what a tree contains ---------------------------------------------------------------------------

  function Count(spec: RunSpec): (n: nat)
    ensures n >= 1
    decreases spec, 1
  {
    1 + (if spec.workflow.Some? then CountAll(spec.workflow.value.steps) else 0)
  }

  function CountAll(specs: seq<RunSpec>): (n: nat)
    ensures n >= |specs|
    decreases specs, 0
  {
    if specs == [] then 0 else Count(specs[0]) + CountAll(specs[1..])
  }

  /** No run spec or workflow of the tree lies deeper than the bound. */
  predicate Shallow(spec: RunSpec, depth: nat)
    decreases spec, 2
  {
    depth <= MAX_DEPTH && (spec.workflow.Some? ==> ShallowWorkflow(spec.workflow.value, depth + 1))
  }

  predicate ShallowWorkflow(w: Workflow, depth: nat)
    decreases w, 1
  {
    depth <= MAX_DEPTH && ShallowAll(w.steps, depth + 1)
  }

  predicate ShallowAll(specs: seq<RunSpec>, depth: nat)
    decreases specs, 0
  {
    specs == [] || (Shallow(specs[0], depth) && ShallowAll(specs[1..], depth))
  }

  /** All bindings of the tree, outermost first. */
  function Bindings(spec: RunSpec): (bs: seq<Binding>)
    decreases spec, 1
  {
    spec.secrets + (if spec.workflow.Some? then AllBindings(spec.workflow.value.steps) else [])
  }

  function AllBindings(specs: seq<RunSpec>): (bs: seq<Binding>)
    decreases specs, 0
  {
    if specs == [] then [] else Bindings(specs[0]) + AllBindings(specs[1..])
  }

  predicate AllValid(valid: Binding -> bool, bs: seq<Binding>) {
    forall i :: 0 <= i < |bs| ==> valid(bs[i])
  }

  predicate IsRunnerFile(b: Binding) {
    Lower(TrimSpace(b.provider)) == RUNNER_FILE
  }

  function ItemOf(b: Binding): (i: Item) {
    Item(RUNNER_FILE, TrimSpace(b.reference), TrimSpace(b.version))
  }

  /** The runner-file bindings, normalised, in order. */
  function Items(bs: seq<Binding>): (items: seq<Item>) {
    if bs == [] then []
    else (if IsRunnerFile(bs[0]) then [ItemOf(bs[0])] else []) + Items(bs[1..])
  }

  lemma {:induction false} ItemsAppend(a: seq<Binding>, b: seq<Binding>)
    ensures Items(a + b) == Items(a) + Items(b)
    decreases |a|
  {
    if a == [] {
      assert a + b == b;
    } else {
      ItemsAppend(a[1..], b);
      assert (a + b)[1..] == a[1..] + b;
      Assoc(if IsRunnerFile(a[0]) then [ItemOf(a[0])] else [], Items(a[1..]), Items(b));
    }
  }

  lemma ValidAppend(valid: Binding -> bool, a: seq<Binding>, b: seq<Binding>)
    ensures AllValid(valid, a + b) <==> AllValid(valid, a) && AllValid(valid, b)
  {
    if AllValid(valid, a + b) {
      forall i | 0 <= i < |a| ensures valid(a[i]) { assert (a + b)[i] == a[i]; }
      forall i | 0 <= i < |b| ensures valid(b[i]) { assert (a + b)[|a| + i] == b[i]; }
    }
  }

  // --- The walk ------------------------------------------------------------------------------------------------------

  class Collector {
    const valid: Binding -> bool
    var nodes: nat
    var found: seq<Item>

    constructor (valid: Binding -> bool)
      ensures this.valid == valid && nodes == 0 && found == []
    {
      this.valid := valid;
      nodes, found := 0, [];
    }

    /** Validates every binding in order and reports the runner-file ones; stops at the first invalid one. */
    method CollectBindings(bindings: seq<Binding>) returns (ok: bool)
      modifies this
      ensures ok <==> AllValid(valid, bindings)
      ensures ok ==> found == old(found) + Items(bindings)
      ensures nodes == old(nodes)
    {
      var i := 0;
      assert old(found) + Items(bindings[..0]) == old(found);
      while i < |bindings|
        invariant 0 <= i <= |bindings| && nodes == old(nodes)
        invariant AllValid(valid, bindings[..i]) && found == old(found) + Items(bindings[..i])
      {
        if !valid(bindings[i]) {
          return false;
        }
        assert bindings[..i + 1] == bindings[..i] + [bindings[i]];
        ItemsAppend(bindings[..i], [bindings[i]]);
        if Lower(TrimSpace(bindings[i].provider)) == RUNNER_FILE {
          found := found + [Item(RUNNER_FILE, TrimSpace(bindings[i].reference), TrimSpace(bindings[i].version))];
        }
        i := i + 1;
      }
      assert bindings[..i] == bindings;
      return true;
    }

    /** A run spec is visited if the depth and node budgets allow it. */
    method VisitRunSpec(spec: RunSpec, depth: nat) returns (ok: bool)
      requires nodes <= MAX_NODES
      modifies this
      ensures nodes <= MAX_NODES
      ensures ok <==> Shallow(spec, depth) && old(nodes) + Count(spec) <= MAX_NODES && AllValid(valid, Bindings(spec))
      ensures ok ==> nodes == old(nodes) + Count(spec) && found == old(found) + Items(Bindings(spec))
      decreases spec, 3
    {
      if depth > MAX_DEPTH || nodes >= MAX_NODES {
        return false;
      }
      nodes := nodes + 1;
      ghost var was, total := found, Bindings(spec);
      SplitBindings(valid, spec, was);
      ok := CollectBindings(spec.secrets);
      if !ok {
        assert !AllValid(valid, total);
        return false;
      }
      assert found == was + Items(spec.secrets);
      if spec.workflow.Some? {
        ok := VisitWorkflow(spec.workflow.value, depth + 1);
        assert ok ==> found == was + Items(total);
      }
    }

    /** A workflow with more steps than the node budget still allows is refused at once. */
    method VisitWorkflow(w: Workflow, depth: nat) returns (ok: bool)
      requires nodes <= MAX_NODES
      modifies this
      ensures nodes <= MAX_NODES
      ensures ok <==> ShallowWorkflow(w, depth) && old(nodes) + CountAll(w.steps) <= MAX_NODES && AllValid(valid, AllBindings(w.steps))
      ensures ok ==> nodes == old(nodes) + CountAll(w.steps) && found == old(found) + Items(AllBindings(w.steps))
      decreases w, 2
    {
      if depth > MAX_DEPTH || |w.steps| > MAX_NODES - nodes {
        return false;
      }
      ok := VisitSteps(w.steps, depth + 1);
    }

    /** One step of a workflow, seen as the first of the steps that remain. */
    method VisitStep(steps: seq<RunSpec>, i: nat, depth: nat) returns (ok: bool)
      requires i < |steps| && nodes <= MAX_NODES
      modifies this
      ensures nodes <= MAX_NODES
      ensures !ok ==> !(ShallowAll(steps[i..], depth) && old(nodes) + CountAll(steps[i..]) <= MAX_NODES && AllValid(valid, AllBindings(steps[i..])))
      ensures ok ==>
                && (ShallowAll(steps[i..], depth) <==> ShallowAll(steps[i + 1..], depth))
                && old(nodes) + CountAll(steps[i..]) == nodes + CountAll(steps[i + 1..])
                && (AllValid(valid, AllBindings(steps[i..])) <==> AllValid(valid, AllBindings(steps[i + 1..])))
                && old(found) + Items(AllBindings(steps[i..])) == found + Items(AllBindings(steps[i + 1..]))
      decreases steps, 0
    {
      ghost var was := found;
      ok := VisitRunSpec(steps[i], depth);
      PeelStep(valid, steps, i, depth, was);
    }

    /** The loop over a workflow's steps. */
    method VisitSteps(steps: seq<RunSpec>, depth: nat) returns (ok: bool)
      requires nodes <= MAX_NODES
      modifies this
      ensures nodes <= MAX_NODES
      ensures ok <==> ShallowAll(steps, depth) && old(nodes) + CountAll(steps) <= MAX_NODES && AllValid(valid, AllBindings(steps))
      ensures ok ==> nodes == old(nodes) + CountAll(steps) && found == old(found) + Items(AllBindings(steps))
      decreases steps, 1
    {
      var i := 0;
      assert steps[0..] == steps;
      // What the whole asks for; each step leaves the same question about the rest.
      ghost var shallow, count := ShallowAll(steps, depth), nodes + CountAll(steps);
      ghost var legal, items := AllValid(valid, AllBindings(steps)), found + Items(AllBindings(steps));
      while i < |steps|
        invariant 0 <= i <= |steps| && nodes <= MAX_NODES
        invariant shallow <==> ShallowAll(steps[i..], depth)
        invariant count == nodes + CountAll(steps[i..])
        invariant legal <==> AllValid(valid, AllBindings(steps[i..]))
        invariant items == found + Items(AllBindings(steps[i..]))
      {
        ok := VisitStep(steps, i, depth);
        if !ok {
          return false;
        }
        i := i + 1;
      }
      assert steps[i..] == [] && found + [] == found;
      return true;
    }
  }

  /** What a run spec asks for is what its own bindings ask for and what its steps do. */
  lemma SplitBindings(valid: Binding -> bool, spec: RunSpec, was: seq<Item>)
    ensures spec.workflow.None? ==> Bindings(spec) == spec.secrets
    ensures spec.workflow.Some? ==>
              && (AllValid(valid, Bindings(spec)) <==>
                    AllValid(valid, spec.secrets) && AllValid(valid, AllBindings(spec.workflow.value.steps)))
              && was + Items(Bindings(spec)) == (was + Items(spec.secrets)) + Items(AllBindings(spec.workflow.value.steps))
  {
    if spec.workflow.Some? {
      var inner := AllBindings(spec.workflow.value.steps);
      ValidAppend(valid, spec.secrets, inner);
      ItemsAppend(spec.secrets, inner);
      Assoc(was, Items(spec.secrets), Items(inner));
    }
  }

  /** What the remaining steps ask for is what the next one asks for and what the others do. */
  lemma PeelStep(valid: Binding -> bool, steps: seq<RunSpec>, i: nat, depth: nat, was: seq<Item>)
    requires i < |steps|
    ensures ShallowAll(steps[i..], depth) <==> Shallow(steps[i], depth) && ShallowAll(steps[i + 1..], depth)
    ensures CountAll(steps[i..]) == Count(steps[i]) + CountAll(steps[i + 1..])
    ensures AllValid(valid, AllBindings(steps[i..])) <==>
            AllValid(valid, Bindings(steps[i])) && AllValid(valid, AllBindings(steps[i + 1..]))
    ensures was + Items(AllBindings(steps[i..])) == (was + Items(Bindings(steps[i]))) + Items(AllBindings(steps[i + 1..]))
  {
    assert steps[i..][1..] == steps[i + 1..] && steps[i..][0] == steps[i];
    ValidAppend(valid, Bindings(steps[i]), AllBindings(steps[i + 1..]));
    ItemsAppend(Bindings(steps[i]), AllBindings(steps[i + 1..]));
    Assoc(was, Items(Bindings(steps[i])), Items(AllBindings(steps[i + 1..])));
  }

  /** The collection of one stored run spec. */
  method CollectFromRunSpec(valid: Binding -> bool, spec: RunSpec) returns (items: Option<seq<Item>>)
    ensures items.Some? <==> Shallow(spec, 0) && Count(spec) <= MAX_NODES && AllValid(valid, Bindings(spec))
    ensures items.Some? ==> items.value == Items(Bindings(spec))
  {
    var c := new Collector(valid);
    var ok := c.VisitRunSpec(spec, 0);
    if ok {
      return Some(c.found);
    }
    return None;
  }

  /** The collection of one stored workflow. */
  method CollectFromWorkflow(valid: Binding -> bool, w: Workflow) returns (items: Option<seq<Item>>)
    ensures items.Some? <==> ShallowWorkflow(w, 0) && CountAll(w.steps) <= MAX_NODES && AllValid(valid, AllBindings(w.steps))
    ensures items.Some? ==> items.value == Items(AllBindings(w.steps))
  {
    var c := new Collector(valid);
    var ok := c.VisitWorkflow(w, 0);
    if ok {
      return Some(c.found);
    }
    return None;
  }

  /** What is reported is exactly the runner-file bindings: each reported, and nothing else. */
  lemma {:induction false} ItemsAreTheRunnerFiles(bs: seq<Binding>, item: Item)
    ensures item in Items(bs) <==> exists i :: 0 <= i < |bs| && IsRunnerFile(bs[i]) && ItemOf(bs[i]) == item
  {
    if bs != [] {
      ItemsAreTheRunnerFiles(bs[1..], item);
      assert forall i :: 0 <= i < |bs[1..]| ==> bs[1..][i] == bs[i + 1];
      if exists i :: 0 <= i < |bs| && IsRunnerFile(bs[i]) && ItemOf(bs[i]) == item {
        var i :| 0 <= i < |bs| && IsRunnerFile(bs[i]) && ItemOf(bs[i]) == item;
        if i > 0 { assert bs[1..][i - 1] == bs[i]; }
      }
    }
  }
}
