/**
 Rotation of backup directories. The root is a map of entries; every system call may also fail for
 reasons of its own, which the methods choose freely.
 */
module Rotation {
  import opened Common
  import opened Names

  /** `PrivateFile` is a regular file of this user with mode 0600. */
  datatype Child = PrivateFile | OtherChild

  /** `secure` is a directory of this user with mode 0700; anything that is not a directory is `NotDir`. */
  datatype Node = Dir(secure: bool, children: map<string, Child>) | NotDir

  type Entries = map<string, Node>

  predicate IsBackup(name: string) {
    BACKUP_PREFIX <= name
  }

  /** What the first pass demands of a candidate. */
  predicate Safe(name: string, node: Node) {
    '/' !in name && node.Dir? && node.secure
  }

  /** What removal demands: exactly the two private files of a backup. */
  predicate Canonical(node: Node) {
    && node.Dir? && node.secure
    && node.children.Keys == {DUMP, MANIFEST}
    && (forall c :: c in node.children ==> node.children[c] == PrivateFile)
  }

  function Backups(entries: Entries): (names: set<string>) {
    set n | n in entries && IsBackup(n)
  }

  /** The backups with at least `retain` backups above them: all but the `retain` greatest. */
  function Doomed(entries: Entries, retain: nat): (names: set<string>) {
    set n | n in Backups(entries) && |Above(Backups(entries), n)| >= retain
  }

  /** The same directory, less some of its files. */
  ghost predicate Lost(before: Node, after: Node) {
    && before.Dir? && after.Dir? && after.secure == before.secure
    && after.children.Keys <= before.children.Keys
    && forall c :: c in after.children ==> after.children[c] == before.children[c]
  }

  /** Everything outside `doomed` is as it was; a doomed directory has at most lost files. */
  ghost predicate OnlyErodes(before: Entries, after: Entries, doomed: set<string>) {
    && after.Keys <= before.Keys
    && (forall n :: n in before && n !in doomed ==> n in after && after[n] == before[n])
    && (forall n :: n in before && n in doomed && n !in after ==> Canonical(before[n]))
    && (forall n :: n in after && n in doomed && after[n] != before[n] ==> Lost(before[n], after[n]))
  }

  /** Whatever is gone or has lost a file, every doomed backup with a lower name is gone. */
  ghost predicate LowestFirst(before: Entries, after: Entries, doomed: set<string>) {
    forall m, n :: m in doomed && n in doomed && Less(m, n) && n in before && (n !in after || after[n] != before[n]) ==> m !in after
  }

  /** All of `s`, each once, in some order. */
  ghost predicate IsListing(names: seq<string>, s: set<string>) {
    Elements(names) == s && forall i, j :: 0 <= i < j < |names| ==> names[i] != names[j]
  }

  predicate Removable(children: map<string, Child>, c: string) {
    c in {DUMP, MANIFEST} && c in children && children[c] == PrivateFile
  }

  /** What is left after unlinking in the given order up to the first file that is not removable. */
  function Unlinked(children: map<string, Child>, order: seq<string>): (left: map<string, Child>)
    decreases |order|
  {
    if order == [] || !Removable(children, order[0]) then children
    else Unlinked(children - {order[0]}, order[1..])
  }

  /** What a refused directory holds afterwards: it is counted before it is touched, but not examined. */
  function Refused(children: map<string, Child>, order: seq<string>): (left: map<string, Child>) {
    if |order| != 2 then children else Unlinked(children, order)
  }

  class Root {
    var entries: Entries

    constructor (entries: Entries)
      ensures this.entries == entries
    {
      this.entries := entries;
    }

    /**
     Removes one backup directory, checking and unlinking its files one by one in directory order. `faulted`
     says that some call failed for reasons of its own.
     */
    method RemoveTree(name: string) returns (ok: bool, ghost faulted: bool, ghost order: seq<string>)
      modifies this
      ensures ok ==> name in old(entries) && Canonical(old(entries)[name]) && entries == old(entries) - {name}
      ensures !ok ==> entries.Keys == old(entries).Keys
      ensures OnlyErodes(old(entries), entries, {name})
      ensures !faulted && name in old(entries) && Safe(name, old(entries)[name]) ==>
                && IsListing(order, old(entries)[name].children.Keys)
                && (ok <==> Canonical(old(entries)[name]))
                && (!ok ==> entries == old(entries)[name := Dir(true, Refused(old(entries)[name].children, order))])
    {
      order := [];
      var fault := Fails();
      faulted := fault;
      if name !in entries || !Safe(name, entries[name]) || fault {
        return false, faulted, order;
      }
      ghost var before := entries;
      var children := entries[name].children;
      var listing := List(children.Keys);
      order := listing;
      if |listing| != 2 {
        assert entries == before[name := Dir(true, children)];
        NotTwo(children, listing);
        return false, faulted, order;
      }
      var emptied;
      emptied, faulted := UnlinkAll(name, listing);
      EarlyStop(before, entries, name);
      if !emptied {
        return false, faulted, order;
      }
      fault := Fails();
      faulted := fault;
      if fault {
        return false, faulted, order;
      }
      entries := entries - {name};
      assert entries == before - {name};
      return true, faulted, order;
    }

    /** The loop over the two entries of a backup directory. */
    method UnlinkAll(name: string, listing: seq<string>) returns (ok: bool, ghost faulted: bool)
      requires name in entries && entries[name].Dir? && entries[name].secure
      requires IsListing(listing, entries[name].children.Keys) && |listing| == 2
      modifies this
      ensures name in entries && Lost(old(entries)[name], entries[name])
      ensures entries == old(entries)[name := entries[name]]
      ensures ok ==> Canonical(old(entries)[name]) && !faulted
      ensures !faulted ==> ok == Canonical(old(entries)[name])
      ensures !faulted ==> entries[name] == Dir(true, Unlinked(old(entries)[name].children, listing))
    {
      ghost var before := entries;
      var children := entries[name].children;
      TwoNames(listing, children.Keys);
      assert children - {} == children && before[name] == Dir(true, children);
      var i := 0;
      while i < |listing|
        invariant 0 <= i <= 2 && |listing| == 2
        invariant entries == before[name := Dir(true, children - Elements(listing[..i]))]
        invariant Unlinked(children, listing) == Unlinked(children - Elements(listing[..i]), listing[i..])
        invariant forall j :: 0 <= j < i ==> Removable(children, listing[j])
      {
        var c := listing[i];
        NextChild(children, listing, i);
        var left := entries[name].children;
        var fault := Fails();
        if (c != DUMP && c != MANIFEST) || left[c] != PrivateFile || fault {
          return false, fault;
        }
        entries := entries[name := Dir(true, left - {c})];
        i := i + 1;
      }
      BothRemovable(children, listing);
      return true, false;
    }

    /** Keeps the `retain` greatest backups; without faults it fails exactly on what it must not remove. */
    method Rotate(retain: int) returns (ok: bool, ghost faulted: bool)
      modifies this
      ensures retain < 1 ==> !ok && entries == old(entries)
      ensures ok ==> entries == old(entries) - Doomed(old(entries), retain)
      ensures retain >= 1 ==> OnlyErodes(old(entries), entries, Doomed(old(entries), retain))
      ensures retain >= 1 ==> LowestFirst(old(entries), entries, Doomed(old(entries), retain))
      ensures (exists n :: n in Backups(old(entries)) && !Safe(n, old(entries)[n])) ==> !ok && entries == old(entries)
      ensures !faulted && retain >= 1 ==>
                (ok <==> && (forall n :: n in Backups(old(entries)) ==> Safe(n, old(entries)[n]))
                         && (forall n :: n in Doomed(old(entries), retain) ==> Canonical(old(entries)[n])))
    {
      if retain < 1 {
        return false, false;
      }
      var fault := Fails();
      if fault {
        return false, true;
      }
      var safe, names;
      safe, faulted, names := Candidates();
      if !safe {
        return false, faulted;
      }
      names := Sort(names);
      if |names| <= retain {
        FewHaveNoDoomed(entries, names, retain);
        return true, faulted;
      }
      ghost var later;
      ok, later := RemoveAll(names, retain);
      fault := Fails();
      // Even if the final sync fails, the removals stand.
      ok, faulted := ok && !fault, faulted || later || fault;
    }

    /** The first pass: lists the backups, in directory order, and stops at one that is unsafe. */
    method Candidates() returns (safe: bool, ghost faulted: bool, names: seq<string>)
      ensures safe ==> Increasing(Sort(names)) && Elements(Sort(names)) == Backups(entries)
      ensures safe ==> !faulted && forall n :: n in Backups(entries) ==> Safe(n, entries[n])
      ensures !faulted && !safe ==> exists n :: n in Backups(entries) && !Safe(n, entries[n])
    {
      names := [];
      var left := entries.Keys;
      while left != {}
        invariant left <= entries.Keys
        invariant Elements(names) == Backups(entries) - left
        invariant forall i, j :: 0 <= i < j < |names| ==> names[i] != names[j]
        invariant forall n :: n in Backups(entries) - left ==> Safe(n, entries[n])
      {
        var name :| name in left;
        left := left - {name};
        if IsBackup(name) {
          var fault := Fails();
          if !Safe(name, entries[name]) || fault {
            return false, fault, names;
          }
          assert name !in Elements(names);
          assert Elements(names + [name]) == Elements(names) + {name};
          names := names + [name];
        }
      }
      SortSorts(names);
      safe, faulted := true, false;
    }

    /** Removes the names before the last `retain`, lowest first, stopping at the first failure. */
    method RemoveAll(names: seq<string>, retain: nat) returns (ok: bool, ghost faulted: bool)
      requires Increasing(names) && Elements(names) == Backups(entries) && 1 <= retain < |names|
      requires forall n :: n in Backups(entries) ==> Safe(n, entries[n])
      modifies this
      ensures ok ==> entries == old(entries) - Doomed(old(entries), retain)
      ensures OnlyErodes(old(entries), entries, Doomed(old(entries), retain))
      ensures LowestFirst(old(entries), entries, Doomed(old(entries), retain))
      ensures !faulted ==> (ok <==> forall n :: n in Doomed(old(entries), retain) ==> Canonical(old(entries)[n]))
    {
      ghost var before := entries;
      LowestAreDoomed(entries, names, retain);
      var i, k := 0, |names| - retain;
      assert entries == before - Elements(names[..0]);
      while i < k
        invariant 0 <= i <= k && Gone(before, entries, names, i)
      {
        assert names[i] in Elements(names) && names[i] in Elements(names[..k]);
        ok, faulted := RemoveNext(names, k, i, before);
        if !ok {
          return;
        }
        i := i + 1;
      }
      AllGone(before, entries, names, k);
      return true, false;
    }

    /** One removal of that loop. */
    method RemoveNext(names: seq<string>, k: nat, i: nat, ghost before: Entries) returns (ok: bool, ghost faulted: bool)
      requires Increasing(names) && i < k <= |names| && Gone(before, entries, names, i)
      requires names[i] in before && Safe(names[i], before[names[i]])
      modifies this
      ensures ok ==> Gone(before, entries, names, i + 1)
      ensures !ok ==> OnlyErodes(before, entries, Elements(names[..k])) && LowestFirst(before, entries, Elements(names[..k]))
      ensures !faulted ==> (ok <==> Canonical(before[names[i]]))
    {
      ghost var now := entries;
      NotYetRemoved(names, i);
      ghost var order;
      ok, faulted, order := RemoveTree(names[i]);
      if ok {
        OneMoreGone(before, now, entries, names, i);
      } else {
        assert names[..k][..i] == names[..i];
        ErosionComposes(before, now, entries, names[..k], i);
        StopsInOrder(before, now, entries, names, k, i);
      }
    }
  }

  /** The first `i` names, all of them backups, have been removed and nothing else has changed. */
  ghost predicate Gone(before: Entries, after: Entries, names: seq<string>, i: nat) {
    && i <= |names|
    && after == before - Elements(names[..i])
    && forall j :: 0 <= j < i ==> names[j] in before && Canonical(before[names[j]])
  }

  lemma OneMoreGone(before: Entries, mid: Entries, after: Entries, names: seq<string>, i: nat)
    requires i < |names| && Gone(before, mid, names, i)
    requires names[i] in before && Canonical(before[names[i]]) && after == mid - {names[i]}
    ensures Gone(before, after, names, i + 1)
  {
    assert Elements(names[..i + 1]) == Elements(names[..i]) + {names[i]};
    assert after == before - Elements(names[..i + 1]);
  }

  lemma AllGone(before: Entries, after: Entries, names: seq<string>, k: nat)
    requires Gone(before, after, names, k)
    ensures OnlyErodes(before, after, Elements(names[..k])) && LowestFirst(before, after, Elements(names[..k]))
    ensures forall n :: n in Elements(names[..k]) ==> n in before && Canonical(before[n])
  {
    forall n | n in Elements(names[..k]) ensures n in before && Canonical(before[n]) {
      var j :| 0 <= j < k && names[j] == n;
    }
  }

  method List(s: set<string>) returns (names: seq<string>)
    ensures IsListing(names, s)
  {
    names := [];
    var left := s;
    while left != {}
      invariant left <= s && IsListing(names, s - left)
    {
      var x :| x in left;
      assert x !in Elements(names);
      assert Elements(names + [x]) == Elements(names) + {x};
      names, left := names + [x], left - {x};
    }
  }

  /** A listing of two names, as the set it lists. */
  lemma TwoNames(listing: seq<string>, all: set<string>)
    requires IsListing(listing, all) && |listing| == 2
    ensures all == {listing[0], listing[1]} && listing[0] != listing[1]
    ensures Elements(listing[..0]) == {} && listing[0..] == listing
  {
  }

  /** The next child is still there and as it was; unlinking goes on after it, or stops before it. */
  lemma NextChild(children: map<string, Child>, listing: seq<string>, i: nat)
    requires IsListing(listing, children.Keys) && i < |listing|
    ensures var c, left := listing[i], children - Elements(listing[..i]);
            && c in left && left[c] == children[c]
            && left - {c} == children - Elements(listing[..i + 1])
            && (Removable(children, c) ==> Unlinked(left, listing[i..]) == Unlinked(left - {c}, listing[i + 1..]))
            && (!Removable(children, c) ==> Unlinked(left, listing[i..]) == left && !Canonical(Dir(true, children)))
  {
    var c := listing[i];
    assert c in Elements(listing) && c !in Elements(listing[..i]);
    assert listing[i..][0] == c && listing[i..][1..] == listing[i + 1..];
    assert Elements(listing[..i + 1]) == Elements(listing[..i]) + {c};
  }

  lemma BothRemovable(children: map<string, Child>, listing: seq<string>)
    requires IsListing(listing, children.Keys) && |listing| == 2
    requires Removable(children, listing[0]) && Removable(children, listing[1])
    ensures Canonical(Dir(true, children))
  {
    TwoNames(listing, children.Keys);
  }

  lemma {:induction false} DistinctSize(names: seq<string>)
    requires forall i, j :: 0 <= i < j < |names| ==> names[i] != names[j]
    ensures |Elements(names)| == |names|
  {
    if names != [] {
      DistinctSize(names[1..]);
      assert names[0] !in Elements(names[1..]);
      assert Elements(names) == Elements(names[1..]) + {names[0]};
    }
  }

  lemma NotTwo(children: map<string, Child>, listing: seq<string>)
    requires IsListing(listing, children.Keys) && |listing| != 2
    ensures children.Keys != {DUMP, MANIFEST}
  {
    DistinctSize(listing);
  }

  lemma EarlyStop(before: Entries, after: Entries, name: string)
    requires name in before && name in after && after == before[name := after[name]] && Lost(before[name], after[name])
    ensures OnlyErodes(before, after, {name}) && after.Keys == before.Keys
  {
  }

  lemma NotYetRemoved(names: seq<string>, i: nat)
    requires Increasing(names) && i < |names|
    ensures names[i] !in Elements(names[..i])
  {
    if names[i] in Elements(names[..i]) {
      LessIrreflexive(names[i]);
      assert false;
    }
  }

  /** Stopping at position `i` of a sorted list leaves nothing lower than what was touched. */
  lemma StopsInOrder(before: Entries, mid: Entries, after: Entries, names: seq<string>, k: nat, i: nat)
    requires Increasing(names) && i < k <= |names| && mid == before - Elements(names[..i])
    requires OnlyErodes(mid, after, {names[i]}) && after.Keys == mid.Keys
    ensures LowestFirst(before, after, Elements(names[..k]))
  {
    forall m, n | m in Elements(names[..k]) && n in Elements(names[..k]) && Less(m, n) && n in before && (n !in after || after[n] != before[n])
      ensures m !in after
    {
      var l :| 0 <= l < k && names[l] == m;
      var j :| 0 <= j < k && names[j] == n;
      if j > i {
        Apart(names, i, j);
        assert false;
      }
      if l >= j {
        if l > j { LessTransitive(m, n, m); }
        LessIrreflexive(m);
        assert false;
      }
      assert names[..i][l] == m;
    }
  }

  lemma Apart(names: seq<string>, i: nat, j: nat)
    requires Increasing(names) && i < j < |names|
    ensures names[j] !in Elements(names[..i]) && names[j] != names[i]
  {
    NotYetRemoved(names, j);
    assert names[..j][i] == names[i];
    assert Elements(names[..i]) <= Elements(names[..j]);
  }

  lemma ErosionComposes(before: Entries, mid: Entries, after: Entries, doomed: seq<string>, i: nat)
    requires i < |doomed| && Gone(before, mid, doomed, i) && OnlyErodes(mid, after, {doomed[i]})
    ensures OnlyErodes(before, after, Elements(doomed))
  {
    AllGone(before, mid, doomed, i);
    assert Elements(doomed[..i]) <= Elements(doomed);
    assert doomed[i] in Elements(doomed);
  }

  /** The names before the last `retain` in sorted order are exactly the doomed ones. */
  lemma LowestAreDoomed(entries: Entries, names: seq<string>, retain: nat)
    requires Increasing(names) && Elements(names) == Backups(entries) && retain <= |names|
    ensures Elements(names[..|names| - retain]) == Doomed(entries, retain)
  {
    forall n | n in Backups(entries) ensures n in Elements(names[..|names| - retain]) <==> n in Doomed(entries, retain) {
      var i :| 0 <= i < |names| && names[i] == n;
      RankInOrder(names, i);
      if i < |names| - retain {
        assert names[..|names| - retain][i] == n;
      } else if n in names[..|names| - retain] {
        var j :| 0 <= j < |names| - retain && names[j] == n;
        RankInOrder(names, j);
        assert false;
      }
    }
  }

  lemma FewHaveNoDoomed(entries: Entries, names: seq<string>, retain: nat)
    requires Increasing(names) && Elements(names) == Backups(entries) && |names| <= retain
    ensures Doomed(entries, retain) == {}
  {
    forall n | n in Backups(entries) ensures n !in Doomed(entries, retain) {
      var i :| 0 <= i < |names| && names[i] == n;
      RankInOrder(names, i);
    }
  }

  // --- What is kept -------------------------------------------------------------------------------------------------

  /** Every kept backup has a greater name than every doomed one. */
  lemma KeptAreGreatest(entries: Entries, retain: nat, kept: string, doomed: string)
    requires kept in Backups(entries) && kept !in Doomed(entries, retain) && doomed in Doomed(entries, retain)
    ensures Less(doomed, kept)
  {
    LessTotal(kept, doomed);
    if Less(kept, doomed) { AboveIsAntitone(Backups(entries), kept, doomed); }
  }

  /** No directory kept by rotation was created in an earlier second than one it may remove. */
  lemma KeptAreNotOlder(entries: Entries, retain: nat, a: Stamp, b: Stamp, r: string, r': string)
    requires ValidStamp(a) && ValidStamp(b) && a.year <= 9999 && b.year <= 9999
    requires BackupName(a, r) in Backups(entries) && BackupName(a, r) !in Doomed(entries, retain)
    requires BackupName(b, r') in Doomed(entries, retain)
    ensures !Before(a, b)
  {
    KeptAreGreatest(entries, retain, BackupName(a, r), BackupName(b, r'));
    if Before(a, b) {
      NameOrderRefinesTime(a, b, r, r');
      LessTransitive(BackupName(a, r), BackupName(b, r'), BackupName(a, r));
      LessIrreflexive(BackupName(a, r));
    }
  }

  /** Exactly `retain` backups survive, or all of them when there are fewer. */
  lemma SurvivorCount(entries: Entries, retain: nat)
    ensures |Backups(entries) - Doomed(entries, retain)| == Min(retain, |Backups(entries)|)
  {
    var names := Listing(Backups(entries));
    CardinalityOfIncreasing(names);
    if |names| <= retain {
      FewHaveNoDoomed(entries, names, retain);
      assert Backups(entries) - {} == Backups(entries);
    } else {
      LowestAreDoomed(entries, names, retain);
      CardinalityOfIncreasing(names[..|names| - retain]);
      DifferenceSize(Backups(entries), Doomed(entries, retain));
    }
  }

  lemma {:induction false} Listing(s: set<string>) returns (names: seq<string>)
    ensures Increasing(names) && Elements(names) == s
    decreases s
  {
    names := [];
    if s != {} {
      var x :| x in s;
      names := Listing(s - {x});
      assert x !in Elements(names);
      InsertKeepsOrder(names, x);
      names := Insert(names, x);
    }
  }

  lemma DifferenceSize(a: set<string>, b: set<string>)
    requires b <= a
    ensures |a - b| == |a| - |b|
  {
    assert (a - b) + b == a;
  }

  /**
   A directory of two files that is not a backup is refused; it is left untouched, whatever the directory
   order, exactly if neither file is one that removal would unlink.
   */
  lemma RefusalIsHarmlessIff(children: map<string, Child>, a: string, b: string)
    requires children.Keys == {a, b} && a != b && !Canonical(Dir(true, children))
    ensures (forall order :: IsListing(order, children.Keys) ==> Refused(children, order) == children) <==>
            !Removable(children, a) && !Removable(children, b)
  {
    assert IsListing([a, b], {a, b});
    assert IsListing([b, a], {a, b});
    if Removable(children, a) {
      UnlinkedLosesFirst(children, [a, b]);
    } else if Removable(children, b) {
      UnlinkedLosesFirst(children, [b, a]);
    } else {
      forall order | IsListing(order, children.Keys) ensures Refused(children, order) == children {
        if |order| == 2 { TwoNames(order, children.Keys); }
      }
    }
  }

  lemma {:induction false} UnlinkedShrinks(children: map<string, Child>, order: seq<string>)
    ensures Unlinked(children, order).Keys <= children.Keys
    decreases |order|
  {
    if order != [] && Removable(children, order[0]) { UnlinkedShrinks(children - {order[0]}, order[1..]); }
  }

  lemma UnlinkedLosesFirst(children: map<string, Child>, order: seq<string>)
    requires order != [] && Removable(children, order[0])
    ensures order[0] !in Unlinked(children, order)
  {
    UnlinkedShrinks(children - {order[0]}, order[1..]);
  }
}
