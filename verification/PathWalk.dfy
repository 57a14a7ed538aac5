/** The descriptor walk that opens a directory by an absolute path without following any link. */
module PathWalk {
  import opened Common

  datatype Node = Directory(children: map<string, nat>) | File | Symlink(target: string)

  const ROOT: nat := 0

  // --- Components -----------------------------------------------------------------------------------------------

  /** Splits at every slash; there is always one more component than slashes. */
  function Split(path: string): (parts: seq<string>)
    ensures |parts| >= 1
  {
    if path == "" then [""]
    else if path[0] == '/' then [""] + Split(path[1..])
    else var rest := Split(path[1..]); [[path[0]] + rest[0]] + rest[1..]
  }

  function Join(parts: seq<string>): (path: string)
    requires |parts| >= 1
  {
    if |parts| == 1 then parts[0] else parts[0] + "/" + Join(parts[1..])
  }

  /** Splitting loses nothing and leaves no slash in a component. */
  lemma {:induction false} SplitJoins(path: string)
    ensures Join(Split(path)) == path
    ensures forall i :: 0 <= i < |Split(path)| ==> '/' !in Split(path)[i]
  {
    if path != "" {
      SplitJoins(path[1..]);
      var rest := Split(path[1..]);
      assert path == [path[0]] + path[1..];
      if path[0] == '/' {
        assert ([""] + rest)[1..] == rest;
        assert "" + "/" + Join(rest) == path;
      } else {
        var first := [path[0]] + rest[0];
        if |rest| == 1 {
          assert [first] + rest[1..] == [first];
        } else {
          assert ([first] + rest[1..])[1..] == rest[1..];
          assert first + "/" + Join(rest[1..]) == [path[0]] + (rest[0] + "/" + Join(rest[1..]));
        }
      }
    }
  }

  /** The components that name a hop. */
  function Names(parts: seq<string>): (names: seq<string>) {
    if parts == [] then []
    else if parts[0] == "" || parts[0] == "." then Names(parts[1..])
    else [parts[0]] + Names(parts[1..])
  }

  // --- Reference: a trail of real directories ------------------------------------------------------------------------

  ghost predicate IsDirectory(nodes: map<nat, Node>, inode: nat) {
    inode in nodes && nodes[inode].Directory?
  }

  /** `hops` leads from `start` through directory entries called `names`, and is directories only. */
  ghost predicate Trail(nodes: map<nat, Node>, start: nat, names: seq<string>, hops: seq<nat>) {
    && |hops| == |names| + 1
    && hops[0] == start
    && (forall i :: 0 <= i < |hops| ==> IsDirectory(nodes, hops[i]))
    && (forall i :: 0 <= i < |names| ==> names[i] in nodes[hops[i]].children && nodes[hops[i]].children[names[i]] == hops[i + 1])
  }

  ghost predicate Leads(nodes: map<nat, Node>, start: nat, names: seq<string>, end: nat) {
    exists hops :: Trail(nodes, start, names, hops) && hops[|hops| - 1] == end
  }

  /** The directory reached by one hop, if the entry is itself a directory. */
  function Hop(nodes: map<nat, Node>, at: nat, name: string): (next: Option<nat>) {
    if at in nodes && nodes[at].Directory? && name in nodes[at].children then
      var inode := nodes[at].children[name];
      if inode in nodes && nodes[inode].Directory? then Some(inode) else None
    else None
  }

  lemma LeadsStep(nodes: map<nat, Node>, start: nat, names: seq<string>, end: nat)
    requires names != []
    ensures Leads(nodes, start, names, end) <==>
            Hop(nodes, start, names[0]).Some? && Leads(nodes, Hop(nodes, start, names[0]).value, names[1..], end)
  {
    if Leads(nodes, start, names, end) {
      var hops :| Trail(nodes, start, names, hops) && hops[|hops| - 1] == end;
      assert Trail(nodes, hops[1], names[1..], hops[1..]);
    }
    var next := Hop(nodes, start, names[0]);
    if next.Some? && Leads(nodes, next.value, names[1..], end) {
      var hops :| Trail(nodes, next.value, names[1..], hops) && hops[|hops| - 1] == end;
      assert Trail(nodes, start, names, [start] + hops);
    }
  }

  /** A named first component is one hop. */
  lemma NamedHop(nodes: map<nat, Node>, at: nat, parts: seq<string>)
    requires parts != [] && parts[0] != "" && parts[0] != "."
    ensures forall end :: Leads(nodes, at, Names(parts), end) <==>
              Hop(nodes, at, parts[0]).Some? && Leads(nodes, Hop(nodes, at, parts[0]).value, Names(parts[1..]), end)
  {
    assert Names(parts)[1..] == Names(parts[1..]);
    forall end { LeadsStep(nodes, at, Names(parts), end); }
  }

  lemma LeadsNowhereElse(nodes: map<nat, Node>, start: nat, end: nat)
    requires IsDirectory(nodes, start)
    ensures Leads(nodes, start, [], end) <==> start == end
  {
    assert Trail(nodes, start, [], [start]);
  }

  // --- The walk --------------------------------------------------------------------------------------------------------

  class Process {
    const nodes: map<nat, Node>
    var open: map<nat, nat>
    var nextFd: nat

    ghost predicate Valid()
      reads this
    {
      && IsDirectory(nodes, ROOT)
      && forall fd :: fd in open ==> fd < nextFd
    }

    constructor (nodes: map<nat, Node>)
      requires IsDirectory(nodes, ROOT)
      ensures Valid() && open == map[]
    {
      this.nodes := nodes;
      open, nextFd := map[], 0;
    }

    /** Opens an entry of the directory behind `fd`, directories only, following no link. */
    method OpenAt(fd: nat, name: string) returns (next: Option<nat>, fault: bool)
      requires Valid() && fd in open
      modifies this
      ensures Valid()
      ensures next.Some? <==> !fault && Hop(nodes, old(open[fd]), name).Some?
      ensures next.Some? ==> next.value !in old(open) && open == old(open)[next.value := Hop(nodes, old(open[fd]), name).value]
      ensures next.None? ==> open == old(open)
    {
      fault := Fails();
      var hop := Hop(nodes, open[fd], name);
      if fault || hop.None? {
        return None, fault;
      }
      next := Some(nextFd);
      open := open[nextFd := hop.value];
      nextFd := nextFd + 1;
    }

    method Close(fd: nat)
      requires Valid() && fd in open
      modifies this`open
      ensures Valid() && open == old(open) - {fd}
    {
      open := open - {fd};
    }

    /**
     Walks an absolute path from the root. Success holds exactly one new descriptor, for the directory the
     named components lead to; every failure has closed whatever it opened.
     */
    method OpenDirectory(path: string) returns (fd: Option<nat>, ghost faulted: bool)
      requires Valid()
      modifies this
      ensures Valid()
      ensures fd.None? ==> open == old(open)
      ensures fd.Some? ==>
                && fd.value !in old(open) && fd.value in open && open - {fd.value} == old(open)
                && "/" <= path && ".." !in Split(path)
                && Leads(nodes, ROOT, Names(Split(path)), open[fd.value])
      ensures !faulted && "/" <= path && ".." !in Split(path) && (exists end :: Leads(nodes, ROOT, Names(Split(path)), end)) ==> fd.Some?
    {
      faulted := false;
      if !("/" <= path) {
        return None, faulted;
      }
      var fault := Fails();
      if fault {
        return None, true;
      }
      ghost var before := open;
      var at := nextFd;
      open, nextFd := open[at := ROOT], nextFd + 1;
      assert open - {at} == before;
      var parts := Split(path);
      var i := 0;
      while i < |parts|
        invariant 0 <= i <= |parts| && Valid() && !faulted
        invariant at in open && at !in before && open - {at} == before
        invariant IsDirectory(nodes, open[at])
        invariant ".." !in parts[..i]
        invariant forall end :: Leads(nodes, ROOT, Names(parts), end) <==> Leads(nodes, open[at], Names(parts[i..]), end)
      {
        var part := parts[i];
        assert parts[i..][0] == part && parts[i..][1..] == parts[i + 1..];
        assert parts[..i + 1] == parts[..i] + [part];
        if part == ".." {
          Close(at);
          return None, faulted;
        }
        if part != "" && part != "." {
          NamedHop(nodes, open[at], parts[i..]);
          var next;
          next, fault := OpenAt(at, part);
          Close(at);
          if next.None? {
            return None, fault;
          }
          at := next.value;
          assert open - {at} == before;
        }
        i := i + 1;
      }
      assert parts[i..] == [] && parts[..i] == parts;
      forall end { LeadsNowhereElse(nodes, open[at], end); }
      return Some(at), false;
    }
  }
}
