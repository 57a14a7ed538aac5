/**
 Backup manifests and the length of their JSON texts: the compact one, and the indented one that a backup or an
 export writes.
 */
module Manifests {
  import opened Common
  import Names
  import RunSpecCollector

  datatype FileRecord = FileRecord(path: string, sha256: string, bytes: int)

  /** An instant, 0 being the zero time, and how it is printed in the offset it carries. */
  datatype Time = Time(instant: int, printed: string)

  /** `migrations` is `None` for a nil slice. */
  datatype Manifest = Manifest(
    version: int,
    createdAt: Time,
    application: string,
    schema: string,
    database: string,
    migrations: Option<seq<string>>,
    files: seq<FileRecord>,
    runnerFiles: seq<RunSpecCollector.Item>)

  // --- Texts -----------------------------------------------------------------------------------------------------

  /** Bytes of one character in a JSON string, as the encoder escapes it. */
  function CharLength(c: char): (n: nat)
    ensures n >= 1
  {
    if c in {'"', '\\', '\n', '\r', '\t', '\U{8}', '\U{C}'} then 2
    else if c < ' ' || c in {'<', '>', '&', '\U{2028}', '\U{2029}'} then 6
    else if c < '\U{80}' then 1
    else if c < '\U{800}' then 2
    else if c < '\U{10000}' then 3
    else 4
  }

  function CharsLength(s: string): (n: nat)
    ensures n >= |s|
  {
    if s == "" then 0 else CharLength(s[0]) + CharsLength(s[1..])
  }

  function TextLength(s: string): (n: nat)
    ensures n >= |s| + 2
  {
    2 + CharsLength(s)
  }

  predicate Plain(s: string) {
    forall i :: 0 <= i < |s| ==> CharLength(s[i]) == 1
  }

  lemma {:induction false} PlainLength(s: string)
    requires Plain(s)
    ensures TextLength(s) == |s| + 2
  {
    if s != "" { PlainLength(s[1..]); }
  }

  function NumberLength(n: int): (w: nat) {
    if n < 0 then 1 + Names.Width(-n) else Names.Width(n)
  }

  // --- Layouts -----------------------------------------------------------------------------------------------------

  /** A JSON value as far as its length goes; keys need no escapes. */
  datatype Json = Leaf(length: nat) | List(items: seq<Json>) | Record(fields: seq<Field>)

  datatype Field = Field(key: string, value: Json)

  /** No space at all. Each item is followed by a comma or the closing bracket. */
  function Compact(j: Json): (n: nat)
    decreases j, 1
  {
    match j
    case Leaf(length) => length
    case List(items) => if items == [] then 2 else 1 + CompactItems(items)
    case Record(fields) => if fields == [] then 2 else 1 + CompactFields(fields)
  }

  function CompactItems(items: seq<Json>): (n: nat)
    decreases items, 0
  {
    if items == [] then 0 else Compact(items[0]) + 1 + CompactItems(items[1..])
  }

  function CompactFields(fields: seq<Field>): (n: nat)
    decreases fields, 0
  {
    if fields == [] then 0 else |fields[0].key| + 3 + Compact(fields[0].value) + 1 + CompactFields(fields[1..])
  }

  /** One item to a line, two spaces for each level, a space after a colon. */
  function Indented(j: Json, level: nat): (n: nat)
    decreases j, 1
  {
    match j
    case Leaf(length) => length
    case List(items) => if items == [] then 2 else 2 + 2 * level + IndentedItems(items, level + 1)
    case Record(fields) => if fields == [] then 2 else 2 + 2 * level + IndentedFields(fields, level + 1)
  }

  function IndentedItems(items: seq<Json>, level: nat): (n: nat)
    decreases items, 0
  {
    if items == [] then 0 else 2 + 2 * level + Indented(items[0], level) + IndentedItems(items[1..], level)
  }

  function IndentedFields(fields: seq<Field>, level: nat): (n: nat)
    decreases fields, 0
  {
    if fields == [] then 0
    else 2 + 2 * level + |fields[0].key| + 4 + Indented(fields[0].value, level) + IndentedFields(fields[1..], level)
  }

  /** The indented text is never the shorter one. */
  lemma {:induction false} CompactIsShorter(j: Json, level: nat)
    ensures Compact(j) <= Indented(j, level)
    decreases j, 1
  {
    match j
    case Leaf(_) =>
    case List(items) => CompactItemsAreShorter(items, level + 1);
    case Record(fields) => CompactFieldsAreShorter(fields, level + 1);
  }

  lemma {:induction false} CompactItemsAreShorter(items: seq<Json>, level: nat)
    ensures CompactItems(items) <= IndentedItems(items, level)
    decreases items, 0
  {
    if items != [] {
      CompactIsShorter(items[0], level);
      CompactItemsAreShorter(items[1..], level);
    }
  }

  lemma {:induction false} CompactFieldsAreShorter(fields: seq<Field>, level: nat)
    ensures CompactFields(fields) <= IndentedFields(fields, level)
    decreases fields, 0
  {
    if fields != [] {
      CompactIsShorter(fields[0].value, level);
      CompactFieldsAreShorter(fields[1..], level);
    }
  }

  // --- The manifest's text -------------------------------------------------------------------------------------------

  function Texts(ss: seq<string>): (items: seq<Json>)
    ensures |items| == |ss| && forall i :: 0 <= i < |ss| ==> items[i] == Leaf(TextLength(ss[i]))
  {
    seq(|ss|, i requires 0 <= i < |ss| => Leaf(TextLength(ss[i])))
  }

  function FileTree(f: FileRecord): (j: Json) {
    Record([Field("path", Leaf(TextLength(f.path))),
            Field("sha256", Leaf(TextLength(f.sha256))),
            Field("bytes", Leaf(NumberLength(f.bytes)))])
  }

  function ItemTree(i: RunSpecCollector.Item): (j: Json) {
    Record([Field("provider", Leaf(TextLength(i.provider))),
            Field("reference", Leaf(TextLength(i.reference))),
            Field("version", Leaf(TextLength(i.version)))])
  }

  function FileTrees(fs: seq<FileRecord>): (items: seq<Json>) {
    seq(|fs|, i requires 0 <= i < |fs| => FileTree(fs[i]))
  }

  function ItemTrees(rs: seq<RunSpecCollector.Item>): (items: seq<Json>) {
    seq(|rs|, i requires 0 <= i < |rs| => ItemTree(rs[i]))
  }

  function MigrationsTree(migrations: Option<seq<string>>): (j: Json) {
    match migrations
    case None => Leaf(4)
    case Some(ss) => List(Texts(ss))
  }

  /** A nil slice is printed as null, and an empty inventory left out; a manifest with no file is never written. */
  function Tree(m: Manifest): (j: Json) {
    Record([Field("version", Leaf(NumberLength(m.version))),
            Field("created_at", Leaf(|m.createdAt.printed| + 2)),
            Field("application_version", Leaf(TextLength(m.application))),
            Field("schema_identity", Leaf(TextLength(m.schema))),
            Field("database", Leaf(TextLength(m.database))),
            Field("migrations", MigrationsTree(m.migrations)),
            Field("files", List(FileTrees(m.files)))] +
           (if m.runnerFiles == [] then [] else [Field("runner_file_inventory", List(ItemTrees(m.runnerFiles)))]))
  }

  function CompactLength(m: Manifest): (n: nat) {
    Compact(Tree(m))
  }

  /** What a backup and an export write: indented, with a line break at the end. */
  function FreshLength(m: Manifest): (n: nat)
    ensures n >= 1
  {
    Indented(Tree(m), 0) + 1
  }

  /** Writing a compact manifest again never makes it shorter. */
  lemma FreshIsLonger(m: Manifest)
    ensures CompactLength(m) < FreshLength(m)
  {
    CompactIsShorter(Tree(m), 0);
  }

  lemma {:induction false} FieldCounts(fields: seq<Field>, i: nat, level: nat)
    requires i < |fields|
    ensures Indented(fields[i].value, level) <= IndentedFields(fields, level)
  {
    if i > 0 { FieldCounts(fields[1..], i - 1, level); }
  }

  lemma RecordLine(i: RunSpecCollector.Item)
    ensures Indented(ItemTree(i), 2) >= 72
  {
    var fields := ItemTree(i).fields;
    assert fields[1..] == [fields[1], fields[2]] && fields[1..][1..] == [fields[2]];
    assert IndentedFields(fields[1..][1..], 3) >= 21;
    assert IndentedFields(fields[1..], 3) >= 44;
    assert IndentedFields(fields, 3) >= 66;
  }

  lemma {:induction false} RecordLines(rs: seq<RunSpecCollector.Item>)
    ensures IndentedItems(ItemTrees(rs), 2) >= 78 * |rs|
    decreases |rs|
  {
    if rs != [] {
      RecordLine(rs[0]);
      assert ItemTrees(rs)[1..] == ItemTrees(rs[1..]);
      RecordLines(rs[1..]);
    }
  }

  /** A fresh text spends at least 78 bytes on each runner file, whatever the rest of the manifest is. */
  lemma InventoryIsLong(m: Manifest)
    ensures FreshLength(m) >= 78 * |m.runnerFiles|
  {
    if m.runnerFiles != [] {
      FieldCounts(Tree(m).fields, 7, 1);
      RecordLines(m.runnerFiles);
    }
  }

  // --- Compact texts, in closed form ----------------------------------------------------------------------------------

  lemma CompactItem(i: RunSpecCollector.Item)
    ensures Compact(ItemTree(i)) == 37 + TextLength(i.provider) + TextLength(i.reference) + TextLength(i.version)
  {
    var fields := ItemTree(i).fields;
    assert fields[1..] == [fields[1], fields[2]] && fields[1..][1..] == [fields[2]] && fields[1..][1..][1..] == [];
    assert CompactFields(fields[1..][1..]) == 11 + TextLength(i.version);
    assert CompactFields(fields[1..]) == 24 + TextLength(i.reference) + TextLength(i.version);
    assert CompactFields(fields) == 36 + TextLength(i.provider) + TextLength(i.reference) + TextLength(i.version);
  }

  lemma CompactFile(f: FileRecord)
    ensures Compact(FileTree(f)) == 28 + TextLength(f.path) + TextLength(f.sha256) + NumberLength(f.bytes)
  {
    var fields := FileTree(f).fields;
    assert fields[1..] == [fields[1], fields[2]] && fields[1..][1..] == [fields[2]] && fields[1..][1..][1..] == [];
    assert CompactFields(fields[1..][1..]) == 9 + NumberLength(f.bytes);
    assert CompactFields(fields[1..]) == 19 + TextLength(f.sha256) + NumberLength(f.bytes);
    assert CompactFields(fields) == 27 + TextLength(f.path) + TextLength(f.sha256) + NumberLength(f.bytes);
  }

  lemma Peel(fields: seq<Field>, i: nat)
    requires i < |fields|
    ensures CompactFields(fields[i..]) == |fields[i].key| + 4 + Compact(fields[i].value) + CompactFields(fields[i + 1..])
  {
    assert fields[i..][1..] == fields[i + 1..];
  }

  function Cost(f: Field): (n: nat) {
    |f.key| + 4 + Compact(f.value)
  }

  lemma CompactEight(fields: seq<Field>)
    requires |fields| == 8
    ensures CompactFields(fields) ==
            Cost(fields[0]) + Cost(fields[1]) + Cost(fields[2]) + Cost(fields[3]) +
            Cost(fields[4]) + Cost(fields[5]) + Cost(fields[6]) + Cost(fields[7])
  {
    assert fields[8..] == [] && fields[0..] == fields;
    Peel(fields, 7);
    Peel(fields, 6);
    Peel(fields, 5);
    Peel(fields, 4);
    Peel(fields, 3);
    Peel(fields, 2);
    Peel(fields, 1);
    Peel(fields, 0);
  }

  /** The compact text of a manifest with an inventory. */
  lemma CompactManifest(m: Manifest)
    requires m.runnerFiles != []
    ensures CompactLength(m) ==
            130 + NumberLength(m.version) + |m.createdAt.printed| + TextLength(m.application) + TextLength(m.schema) +
            TextLength(m.database) + Compact(MigrationsTree(m.migrations)) + Compact(List(FileTrees(m.files))) +
            Compact(List(ItemTrees(m.runnerFiles)))
  {
    CompactEight(Tree(m).fields);
  }

  lemma {:induction false} CompactInventory(rs: seq<RunSpecCollector.Item>, each: nat)
    requires forall i :: 0 <= i < |rs| ==> Compact(ItemTree(rs[i])) <= each
    ensures CompactItems(ItemTrees(rs)) <= (each + 1) * |rs|
    decreases |rs|
  {
    if rs != [] {
      assert ItemTrees(rs)[1..] == ItemTrees(rs[1..]);
      CompactInventory(rs[1..], each);
      assert (each + 1) * |rs| == (each + 1) + (each + 1) * |rs[1..]|;
    }
  }

  // --- A manifest on the edge ---------------------------------------------------------------------------------------

  /** One runner file for each reference. */
  function Inventory(provider: string, refs: seq<string>, version: string): (rs: seq<RunSpecCollector.Item>)
    ensures |rs| == |refs|
  {
    seq(|refs|, i requires 0 <= i < |refs| => RunSpecCollector.Item(provider, refs[i], version))
  }

  predicate ShortRefs(refs: seq<string>) {
    forall i :: 0 <= i < |refs| ==> TextLength(refs[i]) <= 6
  }

  lemma InventoryFits(provider: string, refs: seq<string>, version: string)
    requires TextLength(provider) <= 13 && TextLength(version) <= 3 && ShortRefs(refs)
    ensures CompactItems(ItemTrees(Inventory(provider, refs, version))) <= 60 * |refs|
  {
    var rs := Inventory(provider, refs, version);
    forall i | 0 <= i < |rs| ensures Compact(ItemTree(rs[i])) <= 59 { CompactItem(rs[i]); }
    CompactInventory(rs, 59);
  }

  /** The parts of a manifest other than its inventory take few bytes. */
  ghost predicate Modest(m: Manifest) {
    NumberLength(m.version) + |m.createdAt.printed| + TextLength(m.application) + TextLength(m.schema) + TextLength(m.database) +
      Compact(MigrationsTree(m.migrations)) + Compact(List(FileTrees(m.files))) <= 5000
  }

  /**
   A manifest that is modest but for 841 to 1000 runner files with short references: its compact text is
   within 64 KiB, and the text written for it is not.
   */
  lemma CompactFitsFreshDoesNot(m: Manifest, provider: string, refs: seq<string>, version: string)
    requires Modest(m) && m.runnerFiles == Inventory(provider, refs, version)
    requires TextLength(provider) <= 13 && TextLength(version) <= 3 && ShortRefs(refs) && 841 <= |refs| <= 1000
    ensures CompactLength(m) <= 65536 < FreshLength(m)
  {
    InventoryIsLong(m);
    InventoryFits(provider, refs, version);
    CompactManifest(m);
  }

  // --- Such manifests exist -------------------------------------------------------------------------------------------

  lemma {:induction false} PaddedIsPlain(n: nat, width: nat)
    ensures Plain(Names.Padded(n, width))
  {
    if width > 0 { PaddedIsPlain(n / 10, width - 1); }
  }

  /** Numbered references. */
  function Refs(n: nat, width: nat): (refs: seq<string>)
    ensures |refs| == n
  {
    seq(n, i requires 0 <= i < n => Names.Padded(i, width))
  }

  lemma RefsAreShort(n: nat, width: nat)
    requires width <= 4
    ensures ShortRefs(Refs(n, width))
  {
    forall i | 0 <= i < n ensures TextLength(Refs(n, width)[i]) <= 6 {
      PaddedIsPlain(i, width);
      PlainLength(Names.Padded(i, width));
    }
  }

  lemma LettersArePlain(s: string)
    requires forall i :: 0 <= i < |s| ==> 'a' <= s[i] <= 'z' || s[i] == '_'
    ensures TextLength(s) == |s| + 2
  {
    PlainLength(s);
  }

  /** A plain, identified manifest for the given files and `n` runner files. */
  function Sample(files: seq<FileRecord>, n: nat, width: nat): (m: Manifest) {
    Manifest(1, Time(1, "2026-01-01T00:00:00Z"), "v", "s", "d", Some(["m"]), files, Inventory(RunSpecCollector.RUNNER_FILE, Refs(n, width), "1"))
  }

  lemma OneText(s: string)
    ensures Compact(List(Texts([s]))) == 2 + TextLength(s)
  {
    assert Texts([s]) == [Leaf(TextLength(s))] && Texts([s])[1..] == [];
    assert CompactItems(Texts([s])) == TextLength(s) + 1;
  }

  lemma OneFile(f: FileRecord)
    ensures Compact(List(FileTrees([f]))) == 30 + TextLength(f.path) + TextLength(f.sha256) + NumberLength(f.bytes)
  {
    CompactFile(f);
    assert FileTrees([f]) == [FileTree(f)] && FileTrees([f])[1..] == [];
    assert CompactItems(FileTrees([f])) == Compact(FileTree(f)) + 1;
  }

  lemma SampleTexts()
    ensures TextLength("v") == TextLength("s") == TextLength("d") == TextLength("m") == TextLength("1") == 3
  {
    PlainLength("v");
    PlainLength("s");
    PlainLength("d");
    PlainLength("m");
    PlainLength("1");
  }

  lemma SampleIsModest(f: FileRecord, n: nat, width: nat)
    requires TextLength(f.path) + TextLength(f.sha256) + NumberLength(f.bytes) <= 1000
    ensures Modest(Sample([f], n, width))
  {
    var m := Sample([f], n, width);
    SampleTexts();
    OneText("m");
    OneFile(f);
    assert NumberLength(m.version) == 1;
  }

  lemma SampleIsOnTheEdge(f: FileRecord, n: nat, width: nat)
    requires 841 <= n <= 1000 && width <= 4
    requires TextLength(f.path) + TextLength(f.sha256) + NumberLength(f.bytes) <= 1000
    ensures CompactLength(Sample([f], n, width)) <= 65536 < FreshLength(Sample([f], n, width))
  {
    var m := Sample([f], n, width);
    SampleIsModest(f, n, width);
    PlainLength(m.runnerFiles[0].version);
    LettersArePlain(RunSpecCollector.RUNNER_FILE);
    RefsAreShort(n, width);
    CompactFitsFreshDoesNot(m, RunSpecCollector.RUNNER_FILE, Refs(n, width), "1");
  }
}
