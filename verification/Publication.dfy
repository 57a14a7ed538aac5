/**
 Staged publication of a backup or an export: files are written into a dotted directory, which one atomic
 rename turns into the published one. Every system call may fail, a write may stop part way, and the
 process may stop after any call; `trail` records the disk after each change.
 */
module Publication {
  import opened Common
  import opened Text
  import opened Manifests
  import Names

  const MANIFEST_VERSION := 1
  const MAX_METADATA := 65536
  const DUMP := Names.DUMP
  const MANIFEST := Names.MANIFEST

  predicate IsHex(s: string) {
    forall i :: 0 <= i < |s| ==> '0' <= s[i] <= '9' || 'a' <= s[i] <= 'f' || 'A' <= s[i] <= 'F'
  }

  /** A SHA-256 sum in hexadecimal. */
  type Digest = s: string | |s| == 64 && IsHex(s)
    witness seq(64, i => '0')

  /** Plain bytes, or a JSON text of `size` bytes that decodes to one manifest. */
  datatype Content = Raw(data: seq<byte>) | Document(manifest: Manifest, size: nat)

  type Files = map<string, Content>

  datatype Entry = DirectoryEntry(inode: nat) | OtherEntry

  /** The pinned output directory and the directories its entries refer to. */
  datatype Disk = Disk(entries: map<string, Entry>, directories: map<nat, Files>)

  // --- What is published ----------------------------------------------------------------------------------------

  /** Exactly a dump and a manifest that records its size and digest. */
  ghost predicate Archive(digest: seq<byte> -> Digest, files: Files, m: Manifest, data: seq<byte>) {
    && files == map[DUMP := Raw(data), MANIFEST := Document(m, FreshLength(m))]
    && m.version == MANIFEST_VERSION
    && m.files == [FileRecord(DUMP, digest(data), |data|)]
  }

  ghost predicate PublishedAs(digest: seq<byte> -> Digest, disk: Disk, name: string) {
    && name in disk.entries && disk.entries[name].DirectoryEntry?
    && disk.entries[name].inode in disk.directories
    && exists m, data :: Archive(digest, disk.directories[disk.entries[name].inode], m, data)
  }

  /** A name that did not exist before exists only as a complete archive. */
  ghost predicate Whole(digest: seq<byte> -> Digest, disk: Disk, name: string) {
    name in disk.entries ==> PublishedAs(digest, disk, name)
  }

  // --- Verification ------------------------------------------------------------------------------------------------

  predicate ValidManifest(m: Manifest) {
    && m.version == MANIFEST_VERSION
    && m.createdAt.instant != 0
    && TrimSpace(m.application) != "" && TrimSpace(m.schema) != "" && TrimSpace(m.database) != ""
    && |m.files| == 1
    && m.files[0].path == DUMP
    && |m.files[0].sha256| == 64 && IsHex(m.files[0].sha256)
    && m.files[0].bytes >= 0
  }

  function Checksum(digest: seq<byte> -> Digest, data: seq<byte>): (r: FileRecord) {
    FileRecord(DUMP, digest(data), |data|)
  }

  /** Admits exactly the two files of an archive whose manifest is bounded, valid and agrees with the dump. */
  function Verify(digest: seq<byte> -> Digest, files: Files): (r: Option<(Manifest, seq<byte>)>) {
    if files.Keys != {DUMP, MANIFEST} then None
    else
      match files[MANIFEST]
      case Raw(_) => None
      case Document(m, size) =>
        if size == 0 || size > MAX_METADATA || !ValidManifest(m) then None
        else
          match files[DUMP]
          case Document(_, _) => None
          case Raw(data) => if Checksum(digest, data) == m.files[0] then Some((m, data)) else None
  }

  /** The parts of a manifest that the backup does not compute from the dump. */
  ghost predicate Identified(m: Manifest) {
    m.createdAt.instant != 0 && !AllSpace(m.application) && !AllSpace(m.schema) && !AllSpace(m.database)
  }

  /** A published archive verifies, as what was written, exactly when its manifest is identified and at most 64 KiB long. */
  lemma PublishedVerifiesIff(digest: seq<byte> -> Digest, files: Files, m: Manifest, data: seq<byte>)
    requires Archive(digest, files, m, data)
    ensures Verify(digest, files) == (if Identified(m) && FreshLength(m) <= MAX_METADATA then Some((m, data)) else None)
  {
    BlankIffAllSpace(m.application);
    BlankIffAllSpace(m.schema);
    BlankIffAllSpace(m.database);
    assert files.Keys == {DUMP, MANIFEST};
  }

  // --- Staging -------------------------------------------------------------------------------------------------------

  /** `d` differs from `base` at most in the staging entry and the staging directory. */
  ghost predicate Outside(base: Disk, d: Disk, staging: string, inode: nat) {
    && d.entries - {staging} == base.entries - {staging}
    && d.directories - {inode} == base.directories - {inode}
  }

  ghost predicate Kept(trail: seq<Disk>, from: nat, base: Disk, staging: string, inode: nat) {
    from <= |trail| && forall i :: from <= i < |trail| ==> Outside(base, trail[i], staging, inode)
  }

  /** While staging, the name that will be published is as it was. */
  lemma OutsideKeepsName(base: Disk, d: Disk, staging: string, inode: nat, name: string)
    requires Outside(base, d, staging, inode) && name != staging
    ensures name in d.entries <==> name in base.entries
    ensures name in base.entries ==> d.entries[name] == base.entries[name]
  {
    assert name in d.entries - {staging} <==> name in base.entries - {staging};
    if name in base.entries {
      assert (d.entries - {staging})[name] == (base.entries - {staging})[name];
    }
  }

  class Output {
    const digest: seq<byte> -> Digest
    var disk: Disk
    ghost var trail: seq<Disk>

    constructor (digest: seq<byte> -> Digest, disk: Disk)
      ensures this.disk == disk && trail == [] && this.digest == digest
    {
      this.digest, this.disk := digest, disk;
      trail := [];
    }

    /** The staging directory is in place and holds `files`; nothing else has changed since `from`. */
    ghost predicate Staged(from: nat, base: Disk, staging: string, inode: nat, files: Files)
      reads this
    {
      && Kept(trail, from, base, staging, inode)
      && Outside(base, disk, staging, inode)
      && staging in disk.entries && disk.entries[staging] == DirectoryEntry(inode)
      && inode in disk.directories && disk.directories[inode] == files
    }

    /** Replaces the staging directory's files, as one visible change. */
    method SetFiles(inode: nat, files: Files, ghost from: nat, ghost base: Disk, ghost staging: string)
      requires inode in disk.directories && Staged(from, base, staging, inode, disk.directories[inode])
      modifies this
      ensures Staged(from, base, staging, inode, files) && old(trail) <= trail
    {
      disk := disk.(directories := disk.directories[inode := files]);
      trail := trail + [disk];
    }

    /**
     Creates the staging directory under a name that must not exist, on an unused inode. `faulted` says
     that some call failed for reasons of its own, `swept` that cleaning up did not.
     */
    method MakeStaging(staging: string, inode: nat) returns (ok: bool, ghost faulted: bool, ghost swept: bool)
      requires inode !in disk.directories
      modifies this
      ensures !faulted ==> (ok <==> staging !in old(disk.entries))
      ensures ok ==> staging !in old(disk.entries) && Staged(|old(trail)|, old(disk), staging, inode, map[])
      ensures !ok && swept ==> disk == old(disk)
      ensures !ok ==> Kept(trail, |old(trail)|, old(disk), staging, inode)
      ensures old(trail) <= trail
    {
      ghost var base, from := disk, |trail|;
      var fault := Fails();
      if staging in disk.entries || fault {
        return false, fault, true;
      }
      disk := Disk(disk.entries[staging := DirectoryEntry(inode)], disk.directories[inode := map[]]);
      trail := trail + [disk];
      fault := Fails();
      if fault {
        // It could not be opened: it is removed again if that works.
        fault := Fails();
        if !fault {
          disk := Disk(disk.entries - {staging}, disk.directories - {inode});
          trail := trail + [disk];
        }
        return false, true, !fault;
      }
      return true, false, true;
    }

    /** Creates a file that must not exist and writes it; a failure may leave any part of it. */
    method WriteFile(inode: nat, name: string, content: Content, ghost from: nat, ghost base: Disk, ghost staging: string)
      returns (ok: bool, ghost faulted: bool)
      requires inode in disk.directories && Staged(from, base, staging, inode, disk.directories[inode])
      modifies this
      ensures inode in disk.directories && Staged(from, base, staging, inode, disk.directories[inode])
      ensures disk.directories[inode].Keys <= old(disk.directories[inode].Keys) + {name}
      ensures !faulted ==> (ok <==> name !in old(disk.directories[inode]))
      ensures ok ==> name !in old(disk.directories[inode]) && disk.directories[inode] == old(disk.directories[inode])[name := content]
      ensures old(trail) <= trail
    {
      var fault := Fails();
      if name in disk.directories[inode] || fault {
        return false, fault;
      }
      var files := disk.directories[inode];
      SetFiles(inode, files[name := Raw([])], from, base, staging);
      fault := Fails();
      if fault {
        var part: seq<byte> := *;
        SetFiles(inode, files[name := Raw(part)], from, base, staging);
        return false, true;
      }
      SetFiles(inode, files[name := content], from, base, staging);
      fault := Fails();
      return !fault, fault;
    }

    /** Stage a backup: dump, checksum the dump as written, and write the manifest that records it. */
    method FillBackup(inode: nat, template: Manifest, ghost from: nat, ghost base: Disk, ghost staging: string)
      returns (ok: bool, ghost faulted: bool, ghost m: Manifest, ghost data: seq<byte>)
      requires Staged(from, base, staging, inode, map[])
      modifies this
      ensures inode in disk.directories && Staged(from, base, staging, inode, disk.directories[inode])
      ensures disk.directories[inode].Keys <= {DUMP, MANIFEST}
      ensures !faulted ==> ok
      ensures ok ==> Archive(digest, disk.directories[inode], m, data)
      ensures ok ==> m == template.(version := MANIFEST_VERSION, files := m.files)
      ensures old(trail) <= trail
    {
      m, data := template, [];
      var dumped: seq<byte> := *;
      ok, faulted := WriteFile(inode, DUMP, Raw(dumped), from, base, staging);
      if !ok {
        return;
      }
      var record := Checksum(digest, dumped);
      // Compatibility, inventory and every other query of the database may refuse here.
      var fault := Fails();
      if fault {
        return false, true, m, data;
      }
      var manifest := template.(version := MANIFEST_VERSION, files := [record]);
      m, data := manifest, dumped;
      ok, faulted := WriteFile(inode, MANIFEST, Document(manifest, FreshLength(manifest)), from, base, staging);
    }

    /** Stage an export: copy the dump, check whatever the copy became against the manifest, and write that manifest again. */
    method FillExport(inode: nat, m: Manifest, dump: seq<byte>, ghost from: nat, ghost base: Disk, ghost staging: string)
      returns (ok: bool, ghost faulted: bool, ghost data: seq<byte>)
      requires ValidManifest(m) && m.files[0] == Checksum(digest, dump)
      requires Staged(from, base, staging, inode, map[])
      modifies this
      ensures inode in disk.directories && Staged(from, base, staging, inode, disk.directories[inode])
      ensures disk.directories[inode].Keys <= {DUMP, MANIFEST}
      ensures !faulted ==> ok && data == dump
      ensures ok ==> Archive(digest, disk.directories[inode], m, data)
      ensures ok ==> digest(data) == digest(dump) && |data| == |dump|
      ensures old(trail) <= trail
    {
      var copied: seq<byte> := *;
      data := copied;
      ghost var intact := copied == dump;
      ok, faulted := WriteFile(inode, DUMP, Raw(copied), from, base, staging);
      if !ok || Checksum(digest, copied) != m.files[0] {
        return false, true, data;
      }
      assert m.files == [Checksum(digest, copied)];
      ok, faulted := WriteFile(inode, MANIFEST, Document(m, FreshLength(m)), from, base, staging);
      faulted := faulted || !intact;
    }

    /** Renames staging to its final name if that name is free; a failed sync afterwards leaves the rename in place. */
    method Publish(staging: string, name: string) returns (ok: bool, ghost faulted: bool, ghost renamed: bool)
      requires staging in disk.entries && staging != name
      modifies this
      ensures !faulted ==> (ok <==> name !in old(disk.entries))
      ensures ok ==> renamed
      ensures renamed ==>
                && name !in old(disk.entries)
                && disk == old(disk).(entries := (old(disk.entries) - {staging})[name := old(disk.entries[staging])])
                && trail == old(trail) + [disk]
      ensures !renamed ==> disk == old(disk) && trail == old(trail)
    {
      var fault := Fails();
      if name in disk.entries || fault {
        return false, fault, false;
      }
      disk := disk.(entries := (disk.entries - {staging})[name := disk.entries[staging]]);
      trail := trail + [disk];
      fault := Fails();
      return !fault, fault, true;
    }

    /** Unlinks one file of the staging directory, if the call works. */
    method Unlink(inode: nat, name: string, ghost from: nat, ghost base: Disk, ghost staging: string) returns (ghost faulted: bool)
      requires inode in disk.directories && Staged(from, base, staging, inode, disk.directories[inode])
      modifies this
      ensures inode in disk.directories && Staged(from, base, staging, inode, disk.directories[inode])
      ensures disk.directories[inode] == old(disk.directories[inode]) - (if faulted then {} else {name})
      ensures old(trail) <= trail
    {
      var fault := Fails();
      faulted := fault;
      if !fault {
        SetFiles(inode, disk.directories[inode] - {name}, from, base, staging);
      }
    }

    /** Removes staging files, but only while the staging name still refers to the directory that was opened. */
    method Cleanup(staging: string, inode: nat, ghost renamed: bool, ghost from: nat, ghost base: Disk) returns (ghost swept: bool)
      requires !renamed ==> inode in disk.directories && Staged(from, base, staging, inode, disk.directories[inode])
      requires !renamed ==> disk.directories[inode].Keys <= {DUMP, MANIFEST}
      requires renamed ==> staging !in disk.entries
      modifies this
      ensures renamed ==> disk == old(disk) && trail == old(trail)
      ensures !renamed ==> Kept(trail, from, base, staging, inode) && Outside(base, disk, staging, inode)
      ensures !renamed && swept ==> staging !in disk.entries && inode !in disk.directories
      ensures old(trail) <= trail
    {
      var fault := Fails();
      swept := !fault;
      if fault || staging !in disk.entries || disk.entries[staging] != DirectoryEntry(inode) {
        return;
      }
      ghost var first, second;
      first := Unlink(inode, DUMP, from, base, staging);
      second := Unlink(inode, MANIFEST, from, base, staging);
      fault := Fails();
      swept := !first && !second && !fault;
      assert swept ==> disk.directories[inode] == map[] by {
        if swept { assert disk.directories[inode].Keys == {}; }
      }
      if !fault && disk.directories[inode] == map[] {
        disk := Disk(disk.entries - {staging}, disk.directories - {inode});
        trail := trail + [disk];
      }
    }

    /** After `from`, whenever the process may have stopped: the final name is absent or complete, and final once there. */
    ghost predicate SafeTrail(from: nat, name: string)
      reads this
    {
      && from <= |trail|
      && (forall i :: from <= i < |trail| ==> Whole(digest, trail[i], name))
      && (forall i, j :: from <= i <= j < |trail| && name in trail[i].entries ==>
            name in trail[j].entries && trail[j] == trail[i])
    }

    /** Publishes a staged archive, or cleans it up; shared by backup and export. */
    method Finish(staged: bool, staging: string, name: string, inode: nat, ghost from: nat, ghost base: Disk,
                  ghost m: Manifest, ghost data: seq<byte>) returns (ok: bool, ghost faulted: bool, ghost swept: bool)
      requires staging != name && staging !in base.entries && inode !in base.directories
      requires inode in disk.directories && Staged(from, base, staging, inode, disk.directories[inode])
      requires disk.directories[inode].Keys <= {DUMP, MANIFEST}
      requires staged ==> Archive(digest, disk.directories[inode], m, data)
      modifies this
      ensures !faulted ==> (ok <==> staged && name !in base.entries)
      ensures !ok && swept ==> disk == base || (name !in base.entries && PublishedAs(digest, disk, name))
      ensures name !in base.entries ==> SafeTrail(from, name)
      ensures name in base.entries ==> !ok && Kept(trail, from, base, staging, inode)
      ensures ok ==> staged && name in disk.entries && disk.entries[name] == DirectoryEntry(inode) && inode in disk.directories &&
                     Archive(digest, disk.directories[inode], m, data)
      ensures old(trail) <= trail
    {
      OutsideKeepsName(base, disk, staging, inode, name);
      if name !in base.entries { AbsentSoFar(trail, from, base, staging, inode, name); }
      ok, faulted, swept := false, false, true;
      ghost var renamed := false;
      if staged {
        ok, faulted, renamed := Publish(staging, name);
      }
      if !ok {
        swept := Cleanup(staging, inode, renamed, from, base);
      }
      if renamed {
        assert PublishedAs(digest, disk, name) by {
          assert Archive(digest, disk.directories[disk.entries[name].inode], m, data);
        }
      } else {
        if swept { SweptClean(base, disk, staging, inode); }
        if name !in base.entries { AbsentSoFar(trail, from, base, staging, inode, name); }
      }
    }

    /**
     A backup. Under a new name, at every point the name is absent or a complete archive, and once there it
     stays; an existing name is never touched. Success publishes the archive of some dump, and only a call
     that failed or a taken name can prevent it. A failed backup that could clean up leaves nothing behind,
     unless only the last sync failed: then the complete archive stays.
     */
    method Backup(name: string, inode: nat, template: Manifest) returns (ok: bool, ghost faulted: bool, ghost swept: bool)
      requires inode !in disk.directories
      modifies this
      ensures !faulted ==> (ok <==> name !in old(disk.entries) && "." + name !in old(disk.entries))
      ensures !ok && swept ==> disk == old(disk) || (name !in old(disk.entries) && PublishedAs(digest, disk, name))
      ensures name !in old(disk.entries) ==> SafeTrail(|old(trail)|, name)
      ensures name in old(disk.entries) ==> !ok && Kept(trail, |old(trail)|, old(disk), "." + name, inode)
      ensures ok ==>
                && PublishedAs(digest, disk, name)
                && exists data :: Archive(digest, disk.directories[disk.entries[name].inode],
                                          template.(version := MANIFEST_VERSION, files := [Checksum(digest, data)]), data)
      ensures old(trail) <= trail
    {
      var staging := "." + name;
      ghost var base, from := disk, |trail|;
      var made;
      made, faulted, swept := MakeStaging(staging, inode);
      if !made {
        if name !in base.entries { AbsentSoFar(trail, from, base, staging, inode, name); }
        return false, faulted, swept;
      }
      var staged; ghost var m, data, later;
      staged, faulted, m, data := FillBackup(inode, template, from, base, staging);
      ok, later, swept := Finish(staged, staging, name, inode, from, base, m, data);
      faulted := faulted || later;
      if ok {
        assert m == template.(version := MANIFEST_VERSION, files := [Checksum(digest, data)]);
      }
    }

    /** An export of a verified archive, published the same way with the same manifest. */
    method Export(name: string, inode: nat, input: Files) returns (ok: bool, ghost faulted: bool, ghost swept: bool)
      requires inode !in disk.directories
      modifies this
      ensures !faulted ==>
                (ok <==> Verify(digest, input).Some? && name !in old(disk.entries) && "." + name !in old(disk.entries))
      ensures !ok && swept ==> disk == old(disk) || (name !in old(disk.entries) && PublishedAs(digest, disk, name))
      ensures name !in old(disk.entries) ==> SafeTrail(|old(trail)|, name)
      ensures name in old(disk.entries) ==> !ok && Kept(trail, |old(trail)|, old(disk), "." + name, inode)
      ensures ok ==>
                && Verify(digest, input).Some? && PublishedAs(digest, disk, name)
                && exists data :: Archive(digest, disk.directories[disk.entries[name].inode], Verify(digest, input).value.0, data)
      ensures old(trail) <= trail
    {
      var staging := "." + name;
      ghost var base, from := disk, |trail|;
      var verified := Verify(digest, input);
      if verified.None? {
        return false, false, true;
      }
      var (manifest, dump) := verified.value;
      var made;
      made, faulted, swept := MakeStaging(staging, inode);
      if !made {
        if name !in base.entries { AbsentSoFar(trail, from, base, staging, inode, name); }
        return false, faulted, swept;
      }
      var staged; ghost var data, later;
      staged, faulted, data := FillExport(inode, manifest, dump, from, base, staging);
      ok, later, swept := Finish(staged, staging, name, inode, from, base, manifest, data);
      faulted := faulted || later;
    }
  }

  /**
   An exported archive verifies again, with the manifest it was exported with, exactly when that manifest's
   fresh encoding is at most 64 KiB: the bound is checked when reading, not when writing.
   */
  lemma ExportVerifiesIff(digest: seq<byte> -> Digest, input: Files, output: Files, data: seq<byte>)
    requires Verify(digest, input).Some?
    requires Archive(digest, output, Verify(digest, input).value.0, data)
    ensures Verify(digest, output) == (if FreshLength(Verify(digest, input).value.0) <= MAX_METADATA
                                       then Some((Verify(digest, input).value.0, data)) else None)
  {
    var m := Verify(digest, input).value.0;
    BlankIffAllSpace(m.application);
    BlankIffAllSpace(m.schema);
    BlankIffAllSpace(m.database);
    PublishedVerifiesIff(digest, output, m, data);
  }

  /** Without the staging entry and directory, the disk is what it was. */
  lemma SweptClean(base: Disk, d: Disk, staging: string, inode: nat)
    requires Outside(base, d, staging, inode)
    requires staging !in base.entries && inode !in base.directories
    requires staging !in d.entries && inode !in d.directories
    ensures d == base
  {
    assert d.entries == d.entries - {staging} && base.entries == base.entries - {staging};
    assert d.directories == d.directories - {inode} && base.directories == base.directories - {inode};
  }

  lemma AbsentSoFar(trail: seq<Disk>, from: nat, base: Disk, staging: string, inode: nat, name: string)
    requires Kept(trail, from, base, staging, inode) && name != staging && name !in base.entries
    ensures forall i :: from <= i < |trail| ==> name !in trail[i].entries
  {
    forall i | from <= i < |trail| ensures name !in trail[i].entries {
      OutsideKeepsName(base, trail[i], staging, inode, name);
    }
  }

  // --- Published and refused ------------------------------------------------------------------------------------------

  /** The text of a digest takes 66 bytes. */
  lemma DigestIsPlain(d: Digest)
    ensures TextLength(d) == 66
  {
    PlainLength(d);
  }

  lemma SampleIsIdentified(files: seq<FileRecord>, n: nat, width: nat)
    ensures Identified(Sample(files, n, width))
  {
    var m := Sample(files, n, width);
    assert !IsSpace(m.application[0]) && !IsSpace(m.schema[0]) && !IsSpace(m.database[0]);
  }

  /**
   Any backup that needs 841 or more runner files: unless a call fails it is published under any free name,
   and then verification refuses it.
   */
  method BackupTooLong(output: Output, name: string, inode: nat, template: Manifest) returns (ok: bool, ghost faulted: bool)
    requires inode !in output.disk.directories && |template.runnerFiles| >= 841
    modifies output
    ensures !faulted ==> (ok <==> name !in old(output.disk.entries) && "." + name !in old(output.disk.entries))
    ensures ok ==> PublishedAs(output.digest, output.disk, name) &&
                   Verify(output.digest, output.disk.directories[output.disk.entries[name].inode]) == None
  {
    ghost var swept;
    ok, faulted, swept := output.Backup(name, inode, template);
    if ok {
      ghost var files := output.disk.directories[output.disk.entries[name].inode];
      ghost var data :| Archive(output.digest, files,
                                template.(version := MANIFEST_VERSION, files := [Checksum(output.digest, data)]), data);
      ghost var m := template.(version := MANIFEST_VERSION, files := [Checksum(output.digest, data)]);
      InventoryIsLong(m);
      PublishedVerifiesIff(output.digest, files, m, data);
    }
  }

  /** Any dump with the compact text of its manifest. */
  function CompactArchive(m: Manifest, data: seq<byte>): (files: Files) {
    map[DUMP := Raw(data), MANIFEST := Document(m, CompactLength(m))]
  }

  lemma CompactArchiveVerifies(digest: seq<byte> -> Digest, m: Manifest, data: seq<byte>)
    requires Identified(m) && m.version == MANIFEST_VERSION && m.files == [Checksum(digest, data)]
    requires CompactLength(m) <= MAX_METADATA
    ensures Verify(digest, CompactArchive(m, data)) == Some((m, data))
  {
    BlankIffAllSpace(m.application);
    BlankIffAllSpace(m.schema);
    BlankIffAllSpace(m.database);
    assert CompactArchive(m, data).Keys == {DUMP, MANIFEST};
  }

  /**
   Any archive with the compact text of an identified manifest that names 841 or more runner files and is still
   within 64 KiB: it verifies, and unless a call fails it is exported under any free name; the export is then
   refused, because its manifest was written again with indentation.
   */
  method ExportTooLong(output: Output, name: string, inode: nat, m: Manifest, data: seq<byte>) returns (ok: bool, ghost faulted: bool)
    requires inode !in output.disk.directories
    requires Identified(m) && m.version == MANIFEST_VERSION && m.files == [Checksum(output.digest, data)]
    requires |m.runnerFiles| >= 841 && CompactLength(m) <= MAX_METADATA
    modifies output
    ensures Verify(output.digest, CompactArchive(m, data)) == Some((m, data))
    ensures !faulted ==> (ok <==> name !in old(output.disk.entries) && "." + name !in old(output.disk.entries))
    ensures ok ==> PublishedAs(output.digest, output.disk, name) &&
                   Verify(output.digest, output.disk.directories[output.disk.entries[name].inode]) == None
  {
    ghost var swept;
    var input := CompactArchive(m, data);
    CompactArchiveVerifies(output.digest, m, data);
    InventoryIsLong(m);
    ok, faulted, swept := output.Export(name, inode, input);
    if ok {
      ghost var files := output.disk.directories[output.disk.entries[name].inode];
      ghost var copy :| Archive(output.digest, files, m, copy);
      ExportVerifiesIff(output.digest, input, files, copy);
    }
  }

  lemma DumpIsPlain(path: string)
    requires path == DUMP
    ensures TextLength(path) == 15
  {
    assert forall i :: 0 <= i < |path| ==> 'a' <= path[i] <= 'z' || path[i] == '.';
    PlainLength(path);
  }

  /** Such manifests exist: here one of an empty dump, for any number of runner files from 841 to 1000. */
  lemma EdgeManifest(digest: seq<byte> -> Digest, n: nat) returns (m: Manifest)
    requires 841 <= n <= 1000
    ensures Identified(m) && m.version == MANIFEST_VERSION && m.files == [Checksum(digest, [])]
    ensures |m.runnerFiles| == n && CompactLength(m) <= MAX_METADATA
  {
    var f := Checksum(digest, []);
    m := Sample([f], n, 4);
    DigestIsPlain(f.sha256);
    DumpIsPlain(f.path);
    assert NumberLength(f.bytes) == 1;
    SampleIsOnTheEdge(f, n, 4);
    SampleIsIdentified([f], n, 4);
  }
}
