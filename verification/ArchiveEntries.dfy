/** Acceptance of archive entry lists, for archives being opened and for archives being packed. */
module ArchiveEntries {
  import opened Identifiers
  import opened Saturation
  import opened Lists
  import opened ArchivePaths

  const MANIFEST_PATH := "rtw.toml"

  datatype Limits = Limits(maxArchiveBytes: nat, maxEntries: nat, maxEntryBytes: nat, maxUncompressedBytes: nat, maxManifestBytes: nat)

  /** One ZIP entry; `supported` says that it can be read, that its name is canonical UTF-8, and that its type,
      compression and lack of encryption are acceptable. */
  datatype Entry = Entry(name: string, isDirectory: bool, size: nat, compressedSize: nat, supported: bool)

  datatype ArtifactEntry = ArtifactEntry(path: string, compressedSize: nat, uncompressedSize: nat)

  datatype EntryTable = EntryTable(entries: map<string, ArtifactEntry>, indices: map<string, nat>)

  // ---------- what is acceptable, without any order ----------

  function NameOf(e: Entry): Option<string> {
    ArchiveName(e.name, e.isDirectory)
  }

  predicate FileAt(e: Entry, path: string) { !e.isDirectory && NameOf(e) == Some(path) }
  predicate DirectoryAt(e: Entry, path: string) { e.isDirectory && NameOf(e) == Some(path) }

  function FileCount(path: string): Entry -> nat { (e: Entry) => if FileAt(e, path) then 1 else 0 }
  function DirectoryCount(path: string): Entry -> nat { (e: Entry) => if DirectoryAt(e, path) then 1 else 0 }
  function EntrySize(e: Entry): nat { e.size }

  function Saturated(n: nat): nat {
    if n > USIZE_MAX then USIZE_MAX else n
  }

  predicate Admissible(e: Entry, limits: Limits) {
    e.supported && NameOf(e).Some? && (e.isDirectory || e.size <= limits.maxEntryBytes)
  }

  /** At most one file or one directory per normalized name. */
  predicate OnceAt(entries: seq<Entry>, path: string) {
    Tally(entries, FileCount(path)) + Tally(entries, DirectoryCount(path)) <= 1
  }

  ghost predicate Clean(entries: seq<Entry>, limits: Limits) {
    && (forall e | e in entries :: Admissible(e, limits))
    && (forall path :: OnceAt(entries, path))
    && Saturated(Tally(entries, EntrySize)) <= limits.maxUncompressedBytes
  }

  /** No file is an ancestor of any entry. */
  ghost predicate FilesAreLeaves(entries: seq<Entry>) {
    forall f, e | f in entries && e in entries && !f.isDirectory && NameOf(f).Some? && NameOf(e).Some? ::
      !Ancestor(NameOf(f).value, NameOf(e).value)
  }

  ghost predicate Acceptable(entries: seq<Entry>, limits: Limits) {
    && |entries| <= limits.maxEntries && Clean(entries, limits) && FilesAreLeaves(entries)
    && exists e :: e in entries && FileAt(e, MANIFEST_PATH)
  }

  /** Acceptance does not depend on the order of the entries. */
  lemma AcceptanceIsUnordered(a: seq<Entry>, b: seq<Entry>, limits: Limits)
    requires multiset(a) == multiset(b)
    ensures Acceptable(a, limits) == Acceptable(b, limits)
  {
    forall e ensures e in a <==> e in b {
      assert e in a <==> e in multiset(a);
      assert e in b <==> e in multiset(b);
    }
    assert |a| == |multiset(a)| && |b| == |multiset(b)|;
    TallyPermutes(a, b, EntrySize);
    forall path ensures OnceAt(a, path) == OnceAt(b, path) {
      TallyPermutes(a, b, FileCount(path));
      TallyPermutes(a, b, DirectoryCount(path));
    }
  }

  /** In an acceptable list no file path equals the name of another entry or is its ancestor. */
  lemma AcceptableIsTree(entries: seq<Entry>, limits: Limits, i: nat, j: nat)
    requires Acceptable(entries, limits) && i < |entries| && j < |entries| && i != j && !entries[i].isDirectory
    ensures NameOf(entries[i]).Some? && NameOf(entries[j]).Some?
    ensures NameOf(entries[i]) != NameOf(entries[j])
    ensures !Ancestor(NameOf(entries[i]).value, NameOf(entries[j]).value)
    ensures ValidPath(NameOf(entries[i]).value)
  {
    assert entries[i] in entries && entries[j] in entries;
    var path := NameOf(entries[i]).value;
    CanonicalNameIff(entries[i].name, false);
    if NameOf(entries[j]) == Some(path) {
      assert OnceAt(entries, path);
      var both := (e: Entry) => FileCount(path)(e) + DirectoryCount(path)(e);
      TallySplits(entries, FileCount(path), DirectoryCount(path), both);
      TwoInTally(entries, i, j, both);
      assert false;
    }
  }

  /** Directory names are another matter: `a/` and `a//` are two different directories of one acceptable archive. */
  lemma DirectoriesMayAlias()
    ensures var entries := [Entry("rtw.toml", false, 1, 1, true), Entry("a/", true, 0, 0, true), Entry("a//", true, 0, 0, true)];
      Acceptable(entries, Limits(100, 3, 10, 10, 10)) && NameOf(entries[1]) == Some("a") && NameOf(entries[2]) == Some("a/")
  {
    hide Tally, NameOf, Ancestor;
    var m, a, b := Entry("rtw.toml", false, 1, 1, true), Entry("a/", true, 0, 0, true), Entry("a//", true, 0, 0, true);
    var entries := [m, a, b];
    AliasNames();
    forall path ensures OnceAt(entries, path) {
      ThreeInTally(m, a, b, FileCount(path));
      ThreeInTally(m, a, b, DirectoryCount(path));
    }
    ThreeInTally(m, a, b, EntrySize);
    assert m in entries && FileAt(m, MANIFEST_PATH);
    forall e | e in entries ensures NameOf(e).Some? && !Ancestor("rtw.toml", NameOf(e).value) && Admissible(e, Limits(100, 3, 10, 10, 10)) {
      TooShort("rtw.toml", NameOf(e).value);
    }
  }

  lemma TooShort(p: string, q: string)
    requires |q| <= |p|
    ensures !Ancestor(p, q)
  {
  }

  lemma AliasNames()
    ensures NameOf(Entry("rtw.toml", false, 1, 1, true)) == Some("rtw.toml")
    ensures NameOf(Entry("a/", true, 0, 0, true)) == Some("a") && NameOf(Entry("a//", true, 0, 0, true)) == Some("a/")
  {
    PlainNames();
    assert StripSlash("a/") == "a" && StripSlash("a//") == "a/";
  }

  lemma PlainNames()
    ensures PlainSegments("rtw.toml") && PlainSegments("a")
  {
    SplitOne("rtw.toml");
    SplitOne("a");
  }

  lemma SplitOne(s: string)
    requires '/' !in s
    ensures Strings.Split(s, '/') == [s]
  {
    Strings.SplitWithout(s, '/');
  }

  lemma ThreeInTally<T>(x: T, y: T, z: T, weigh: T -> nat)
    ensures Tally([x, y, z], weigh) == weigh(x) + weigh(y) + weigh(z)
  {
    TallyAppend([], x, weigh);
    TallyAppend([x], y, weigh);
    TallyAppend([x, y], z, weigh);
    assert [] + [x] == [x] && [x] + [y] == [x, y] && [x, y] + [z] == [x, y, z];
  }

  // ---------- tallies ----------

  lemma {:induction false} TallySplits<T>(s: seq<T>, f: T -> nat, g: T -> nat, both: T -> nat)
    requires forall x :: both(x) == f(x) + g(x)
    ensures Tally(s, both) == Tally(s, f) + Tally(s, g)
  {
    if s != [] {
      TallySplits(s[..|s| - 1], f, g, both);
    }
  }

  lemma {:induction false} TwoInTally<T>(s: seq<T>, i: nat, j: nat, weigh: T -> nat)
    requires i < |s| && j < |s| && i != j
    ensures weigh(s[i]) + weigh(s[j]) <= Tally(s, weigh)
  {
    var last := |s| - 1;
    if i == last {
      TallyIncludes(s[..last], j, weigh);
    } else if j == last {
      TallyIncludes(s[..last], i, weigh);
    } else {
      TwoInTally(s[..last], i, j, weigh);
    }
  }

  /** Reordering keeps a tally. */
  lemma {:induction false} TallyPermutes<T>(s: seq<T>, t: seq<T>, weigh: T -> nat)
    requires multiset(s) == multiset(t)
    ensures Tally(s, weigh) == Tally(t, weigh)
    decreases |s|
  {
    if s == [] {
      assert |multiset(t)| == 0;
    } else {
      var last := s[|s| - 1];
      assert s == s[..|s| - 1] + [last];
      assert last in multiset(t);
      var k :| 0 <= k < |t| && t[k] == last;
      var others := t[..k] + t[k + 1..];
      assert t == t[..k] + [last] + t[k + 1..];
      assert multiset(s[..|s| - 1]) + multiset{last} == multiset(others) + multiset{last};
      assert multiset(s[..|s| - 1]) == multiset(others) by {
        CancelOne(multiset(s[..|s| - 1]), multiset(others), last);
      }
      TallyPermutes(s[..|s| - 1], others, weigh);
      TallyConcat(t[..k], t[k + 1..], weigh);
      TallyConcat(t[..k] + [last], t[k + 1..], weigh);
      TallyAppend(t[..k], last, weigh);
    }
  }

  // ---------- the opening validator ----------

  /** What the scan has collected from the entries so far. */
  ghost predicate Collected(entries: seq<Entry>, files: set<string>, directories: set<string>, total: nat) {
    && (forall path :: path in files <==> Tally(entries, FileCount(path)) > 0)
    && (forall path :: path in directories <==> Tally(entries, DirectoryCount(path)) > 0)
    && total == Saturated(Tally(entries, EntrySize))
  }

  /** The checks one more entry has to pass. */
  predicate Passes(e: Entry, limits: Limits, files: set<string>, directories: set<string>, total: nat) {
    && Admissible(e, limits)
    && NameOf(e).value !in files && NameOf(e).value !in directories
    && SaturatingAdd(total, e.size) <= limits.maxUncompressedBytes
  }

  lemma OneMoreEntry(entries: seq<Entry>, e: Entry, limits: Limits, files: set<string>, directories: set<string>, total: nat)
    requires Clean(entries, limits) && Collected(entries, files, directories, total)
    ensures Clean(entries + [e], limits) <==> Passes(e, limits, files, directories, total)
    ensures NameOf(e).Some? ==>
      Collected(entries + [e], if e.isDirectory then files else files + {NameOf(e).value},
                if e.isDirectory then directories + {NameOf(e).value} else directories, SaturatingAdd(total, e.size))
  {
    hide Tally, NameOf;
    TallyAppend(entries, e, EntrySize);
    forall path
      ensures Tally(entries + [e], FileCount(path)) == Tally(entries, FileCount(path)) + FileCount(path)(e)
      ensures Tally(entries + [e], DirectoryCount(path)) == Tally(entries, DirectoryCount(path)) + DirectoryCount(path)(e)
    {
      TallyAppend(entries, e, FileCount(path));
      TallyAppend(entries, e, DirectoryCount(path));
    }
    assert e in entries + [e];
    if NameOf(e).Some? {
      assert OnceAt(entries, NameOf(e).value);
      assert OnceAt(entries + [e], NameOf(e).value) <==> NameOf(e).value !in files && NameOf(e).value !in directories;
      forall path | path != NameOf(e).value ensures OnceAt(entries + [e], path) {
        assert OnceAt(entries, path);
      }
    }
  }

  /** What was clean stays clean when later entries are left out. */
  lemma CleanPrefix(entries: seq<Entry>, i: nat, limits: Limits)
    requires i <= |entries| && Clean(entries, limits)
    ensures Clean(entries[..i], limits)
  {
    hide Tally;
    assert entries == entries[..i] + entries[i..];
    TallyConcat(entries[..i], entries[i..], EntrySize);
    forall path ensures OnceAt(entries[..i], path) {
      assert OnceAt(entries, path);
      TallyConcat(entries[..i], entries[i..], FileCount(path));
      TallyConcat(entries[..i], entries[i..], DirectoryCount(path));
    }
  }

  /** The table lists exactly the files, each with its own entry and index. */
  ghost predicate Tabled(entries: seq<Entry>, i: nat, files: set<string>, table: EntryTable)
    requires i <= |entries|
  {
    && table.entries.Keys == files && table.indices.Keys == files
    && forall path | path in files ::
         table.indices[path] < i && FileAt(entries[table.indices[path]], path)
         && table.entries[path] == ArtifactEntry(path, entries[table.indices[path]].compressedSize, entries[table.indices[path]].size)
  }

  /** `validate_entries`: one scan over the entries, then the ancestor check over everything collected. */
  method ValidateEntries(entries: seq<Entry>, limits: Limits) returns (r: Option<EntryTable>)
    ensures r.Some? <==> Acceptable(entries, limits)
    ensures r.Some? ==> Describes(entries, r.value)
  {
    hide Clean, Collected, Tabled, Acceptable, Describes;
    if |entries| > limits.maxEntries {
      TooMany(entries, limits);
      return None;
    }
    var files: set<string>, directories: set<string>, total: nat := {}, {}, 0;
    var table := EntryTable(map[], map[]);
    NothingCollected(entries, limits);
    for i := 0 to |entries|
      invariant Clean(entries[..i], limits) && Collected(entries[..i], files, directories, total)
      invariant Tabled(entries, i, files, table)
    {
      var e := entries[i];
      ScanOne(entries, i, limits, files, directories, total, table);
      if !e.supported || NameOf(e).None? {
        return None;
      }
      var name := NameOf(e).value;
      total := SaturatingAdd(total, e.size);
      if total > limits.maxUncompressedBytes {
        return None;
      }
      if e.isDirectory {
        if name in files || name in directories {
          return None;
        }
        directories := directories + {name};
      } else {
        if e.size > limits.maxEntryBytes || name in directories || name in files {
          return None;
        }
        files := files + {name};
        table := EntryTable(table.entries[name := ArtifactEntry(name, e.compressedSize, e.size)], table.indices[name := i]);
      }
    }
    assert entries[..|entries|] == entries;
    var conflict := AnyAncestor(files + directories, files);
    CollectedDecides(entries, limits, files, directories, total, table);
    if conflict || MANIFEST_PATH !in files {
      return None;
    }
    return Some(table);
  }

  /** The result describes every file of the archive and nothing else. */
  ghost predicate Describes(entries: seq<Entry>, table: EntryTable) {
    && table.entries.Keys == table.indices.Keys
    && (forall e | e in entries && !e.isDirectory :: NameOf(e).Some? && NameOf(e).value in table.entries)
    && forall path | path in table.entries ::
         table.indices[path] < |entries| && FileAt(entries[table.indices[path]], path)
         && table.entries[path] == ArtifactEntry(path, entries[table.indices[path]].compressedSize, entries[table.indices[path]].size)
  }

  lemma TooMany(entries: seq<Entry>, limits: Limits)
    requires |entries| > limits.maxEntries
    ensures !Acceptable(entries, limits)
  {
  }

  lemma NothingCollected(entries: seq<Entry>, limits: Limits)
    ensures Clean(entries[..0], limits) && Collected(entries[..0], {}, {}, 0) && Tabled(entries, 0, {}, EntryTable(map[], map[]))
  {
    assert entries[..0] == [];
    forall path ensures OnceAt([], path) {
    }
  }

  lemma ScanOne(entries: seq<Entry>, i: nat, limits: Limits, files: set<string>, directories: set<string>, total: nat, table: EntryTable)
    requires i < |entries| && Clean(entries[..i], limits) && Collected(entries[..i], files, directories, total) && Tabled(entries, i, files, table)
    ensures var e := entries[i];
      && (Clean(entries[..i + 1], limits) <==> Passes(e, limits, files, directories, total))
      && (!Passes(e, limits, files, directories, total) ==> !Acceptable(entries, limits))
      && (Passes(e, limits, files, directories, total) ==>
            var name := NameOf(e).value;
            if e.isDirectory then
              Collected(entries[..i + 1], files, directories + {name}, SaturatingAdd(total, e.size)) && Tabled(entries, i + 1, files, table)
            else
              Collected(entries[..i + 1], files + {name}, directories, SaturatingAdd(total, e.size))
              && Tabled(entries, i + 1, files + {name}, EntryTable(table.entries[name := ArtifactEntry(name, e.compressedSize, e.size)], table.indices[name := i])))
  {
    hide Clean, Collected, Acceptable, Tabled, Admissible;
    assert entries[..i + 1] == entries[..i] + [entries[i]];
    OneMoreEntry(entries[..i], entries[i], limits, files, directories, total);
    TableGrows(entries, i, files, table);
    if Acceptable(entries, limits) {
      AcceptableIsClean(entries, limits);
      CleanPrefix(entries, i + 1, limits);
    }
    assert Admissible(entries[i], limits) ==> NameOf(entries[i]).Some? by { AdmissibleIsNamed(entries[i], limits); }
  }

  lemma AdmissibleIsNamed(e: Entry, limits: Limits)
    ensures Admissible(e, limits) ==> NameOf(e).Some?
  {
  }

  lemma TableGrows(entries: seq<Entry>, i: nat, files: set<string>, table: EntryTable)
    requires i < |entries| && Tabled(entries, i, files, table)
    ensures Tabled(entries, i + 1, files, table)
    ensures var e := entries[i];
      NameOf(e).Some? && !e.isDirectory && NameOf(e).value !in files ==>
        var name := NameOf(e).value;
        Tabled(entries, i + 1, files + {name}, EntryTable(table.entries[name := ArtifactEntry(name, e.compressedSize, e.size)], table.indices[name := i]))
  {
    hide NameOf;
  }

  method AnyAncestor(paths: set<string>, files: set<string>) returns (conflict: bool)
    ensures conflict <==> exists path, p :: path in paths && p in files && Ancestor(p, path)
  {
    hide Ancestor;
    var rest := paths;
    while rest != {}
      invariant rest <= paths
      invariant forall path, p | path in paths && path !in rest && p in files :: !Ancestor(p, path)
      decreases rest
    {
      var path :| path in rest;
      var found := AncestorIn(path, files);
      if found {
        return true;
      }
      rest := rest - {path};
    }
    return false;
  }

  lemma InTally(entries: seq<Entry>, weigh: Entry -> nat)
    ensures Tally(entries, weigh) > 0 <==> exists e :: e in entries && weigh(e) > 0
  {
    if e :| e in entries && weigh(e) > 0 {
      var i :| 0 <= i < |entries| && entries[i] == e;
      TallyIncludes(entries, i, weigh);
    } else {
      TallyNothing(entries, weigh);
    }
  }

  lemma CollectedDecides(entries: seq<Entry>, limits: Limits, files: set<string>, directories: set<string>, total: nat, table: EntryTable)
    requires |entries| <= limits.maxEntries && Clean(entries, limits) && Collected(entries, files, directories, total)
    requires Tabled(entries, |entries|, files, table)
    ensures Acceptable(entries, limits) <==>
      MANIFEST_PATH in files && forall path, p | path in files + directories && p in files :: !Ancestor(p, path)
    ensures Describes(entries, table)
  {
    hide Tally, Ancestor, NameOf;
    CollectedAccepts(entries, limits, files, directories, total);
    forall e | e in entries && !e.isDirectory ensures NameOf(e).Some? && NameOf(e).value in files {
      assert Admissible(e, limits);
      InTally(entries, FileCount(NameOf(e).value));
    }
  }

  lemma CollectedAccepts(entries: seq<Entry>, limits: Limits, files: set<string>, directories: set<string>, total: nat)
    requires |entries| <= limits.maxEntries && Clean(entries, limits) && Collected(entries, files, directories, total)
    ensures Acceptable(entries, limits) <==>
      MANIFEST_PATH in files && forall path, p | path in files + directories && p in files :: !Ancestor(p, path)
  {
    hide Tally, Ancestor, NameOf, OnceAt;
    forall path ensures path in files <==> exists e :: e in entries && FileAt(e, path) {
      InTally(entries, FileCount(path));
      assert forall e :: FileCount(path)(e) > 0 <==> FileAt(e, path);
    }
    forall path ensures path in directories <==> exists e :: e in entries && DirectoryAt(e, path) {
      InTally(entries, DirectoryCount(path));
      assert forall e :: DirectoryCount(path)(e) > 0 <==> DirectoryAt(e, path);
    }
    forall e | e in entries ensures NameOf(e).Some? && NameOf(e).value in files + directories && (!e.isDirectory ==> NameOf(e).value in files) {
      assert Admissible(e, limits);
      assert e.isDirectory || FileAt(e, NameOf(e).value);
      assert !e.isDirectory || DirectoryAt(e, NameOf(e).value);
    }
  }

  /** What opening demands of the entry list: acceptability, the manifest limit, and the content the manifest declares. */
  ghost predicate Opens(entries: seq<Entry>, content: string, limits: Limits) {
    && Acceptable(entries, limits)
    && (forall e | e in entries && FileAt(e, MANIFEST_PATH) :: e.size <= limits.maxManifestBytes)
    && exists e :: e in entries && FileAt(e, content)
  }

  /** `validate_reader`, given the entry list and the content path its manifest declares. */
  method OpenArchive(archiveBytes: nat, entries: seq<Entry>, content: string, limits: Limits) returns (r: Option<EntryTable>)
    ensures r.Some? <==> archiveBytes <= limits.maxArchiveBytes && Opens(entries, content, limits)
    ensures r.Some? ==> Describes(entries, r.value)
  {
    hide Acceptable, NameOf;
    if archiveBytes > limits.maxArchiveBytes {
      return None;
    }
    r := ValidateEntries(entries, limits);
    if r.None? {
      return;
    }
    ManifestIsListed(entries, limits, r.value);
    var manifest := entries[r.value.indices[MANIFEST_PATH]];
    if manifest.size > limits.maxManifestBytes {
      return None;
    }
    if content !in r.value.entries {
      return None;
    }
  }

  lemma ManifestIsListed(entries: seq<Entry>, limits: Limits, table: EntryTable)
    requires Acceptable(entries, limits) && Describes(entries, table)
    ensures MANIFEST_PATH in table.indices && table.indices[MANIFEST_PATH] < |entries|
    ensures forall e | e in entries && FileAt(e, MANIFEST_PATH) :: e == entries[table.indices[MANIFEST_PATH]]
  {
    hide NameOf, Clean, FilesAreLeaves;
    var i := table.indices[MANIFEST_PATH];
    forall e | e in entries && FileAt(e, MANIFEST_PATH) ensures e == entries[i] {
      var j :| 0 <= j < |entries| && entries[j] == e;
      OneFilePerName(entries, limits, i, j);
    }
  }

  lemma OneFilePerName(entries: seq<Entry>, limits: Limits, i: nat, j: nat)
    requires Acceptable(entries, limits) && i < |entries| && j < |entries|
    requires !entries[i].isDirectory && NameOf(entries[i]) == NameOf(entries[j])
    ensures i == j
  {
    if i != j {
      AcceptableIsTree(entries, limits, i, j);
      assert false;
    }
  }

  // ---------- the packing validator ----------

  /** One file to pack; its path has been parsed already. */
  datatype PackEntry = PackEntry(path: string, size: nat)

  /** The archive entries a pack writes: the manifest, then one regular file per entry. */
  function AsArchive(manifestSize: nat, packed: seq<PackEntry>): (entries: seq<Entry>)
    ensures |entries| == |packed| + 1 && entries[0] == Entry(MANIFEST_PATH, false, manifestSize, manifestSize, true)
    ensures forall i | 0 <= i < |packed| :: entries[i + 1] == Entry(packed[i].path, false, packed[i].size, packed[i].size, true)
  {
    [Entry(MANIFEST_PATH, false, manifestSize, manifestSize, true)]
      + seq(|packed|, i requires 0 <= i < |packed| => Entry(packed[i].path, false, packed[i].size, packed[i].size, true))
  }

  ghost predicate ParsedPaths(packed: seq<PackEntry>) {
    forall p | p in packed :: ValidPath(p.path)
  }

  lemma ParsedName(path: string)
    requires ValidPath(path)
    ensures ArchiveName(path, false) == Some(path)
  {
  }

  lemma ManifestIsParsed()
    ensures ValidPath(MANIFEST_PATH)
  {
    PlainNames();
  }

  /** `enforce_entry_size` */
  predicate WithinEntrySize(size: nat, maximum: nat) {
    size <= maximum
  }

  /** `validate_memory_entries` accepts exactly the lists whose archive the opening validator accepts. */
  method ValidateMemoryEntries(content: string, manifestSize: nat, packed: seq<PackEntry>, limits: Limits) returns (ok: bool)
    requires ParsedPaths(packed) && |packed| < USIZE_MAX
    ensures ok <==> Opens(AsArchive(manifestSize, packed), content, limits)
  {
    hide Clean, Collected, Acceptable, ParsedPaths, Opens, AsArchive, ArchiveName, Tally;
    ghost var entries := AsArchive(manifestSize, packed);
    if SaturatingAdd(|packed|, 1) > limits.maxEntries {
      TooManyToPack(content, manifestSize, packed, limits);
      return false;
    }
    ManifestFirst(content, manifestSize, packed, limits);
    if !WithinEntrySize(manifestSize, limits.maxEntryBytes) {
      return false;
    }
    if manifestSize > limits.maxManifestBytes {
      return false;
    }
    var paths: set<string>, total: nat := {MANIFEST_PATH}, Saturated(manifestSize);
    if total > limits.maxUncompressedBytes {
      return false;
    }
    for i := 0 to |packed|
      invariant Clean(entries[..i + 1], limits) && Collected(entries[..i + 1], paths, {}, total)
    {
      var p := packed[i];
      PackOne(content, manifestSize, packed, limits, i, paths, total);
      if p.path in paths {
        return false;
      }
      paths := paths + {p.path};
      if !WithinEntrySize(p.size, limits.maxEntryBytes) {
        return false;
      }
      total := SaturatingAdd(total, p.size);
      if total > limits.maxUncompressedBytes {
        return false;
      }
    }
    var conflict := AnyAncestor(paths, paths);
    PackDecides(content, manifestSize, packed, limits, paths, total);
    return !conflict && content in paths;
  }

  lemma TooManyToPack(content: string, manifestSize: nat, packed: seq<PackEntry>, limits: Limits)
    requires |packed| + 1 > limits.maxEntries
    ensures !Opens(AsArchive(manifestSize, packed), content, limits)
  {
    TooMany(AsArchive(manifestSize, packed), limits);
  }

  lemma ManifestFirst(content: string, manifestSize: nat, packed: seq<PackEntry>, limits: Limits)
    ensures var prefix := AsArchive(manifestSize, packed)[..1];
      && (Clean(prefix, limits) <==> manifestSize <= limits.maxEntryBytes && Saturated(manifestSize) <= limits.maxUncompressedBytes)
      && (Clean(prefix, limits) ==> Collected(prefix, {MANIFEST_PATH}, {}, Saturated(manifestSize)))
      && (Opens(AsArchive(manifestSize, packed), content, limits) ==> Clean(prefix, limits))
    ensures manifestSize > limits.maxManifestBytes ==> !Opens(AsArchive(manifestSize, packed), content, limits)
  {
    hide Clean, Collected, ArchiveName;
    var entries := AsArchive(manifestSize, packed);
    ManifestIsParsed();
    ParsedName(MANIFEST_PATH);
    NothingCollected(entries, limits);
    StartClean(limits, entries[0]);
    assert entries[..1] == entries[..0] + [entries[0]];
    assert {} + {MANIFEST_PATH} == {MANIFEST_PATH};
    if Opens(AsArchive(manifestSize, packed), content, limits) {
      AcceptableIsClean(entries, limits);
      CleanPrefix(entries, 1, limits);
    }
  }

  lemma StartClean(limits: Limits, e: Entry)
    requires NameOf(e).Some? && !e.isDirectory && e.supported
    ensures Clean([] + [e], limits) <==> e.size <= limits.maxEntryBytes && Saturated(e.size) <= limits.maxUncompressedBytes
    ensures Clean([] + [e], limits) ==> Collected([] + [e], {} + {NameOf(e).value}, {}, Saturated(e.size))
  {
    hide NameOf;
    var none: seq<Entry> := [];
    forall path ensures OnceAt(none, path) {
    }
    if Clean(none, limits) {
      OneMoreEntry(none, e, limits, {}, {}, 0);
    }
  }

  lemma AcceptableIsClean(entries: seq<Entry>, limits: Limits)
    requires Acceptable(entries, limits)
    ensures Clean(entries, limits)
  {
  }

  lemma PackOne(content: string, manifestSize: nat, packed: seq<PackEntry>, limits: Limits, i: nat, paths: set<string>, total: nat)
    requires ParsedPaths(packed) && i < |packed|
    requires var entries := AsArchive(manifestSize, packed);
      Clean(entries[..i + 1], limits) && Collected(entries[..i + 1], paths, {}, total)
    ensures var entries := AsArchive(manifestSize, packed);
      var passes := packed[i].path !in paths && packed[i].size <= limits.maxEntryBytes && SaturatingAdd(total, packed[i].size) <= limits.maxUncompressedBytes;
      && (passes ==> Clean(entries[..i + 2], limits) && Collected(entries[..i + 2], paths + {packed[i].path}, {}, SaturatingAdd(total, packed[i].size)))
      && (!passes ==> !Opens(AsArchive(manifestSize, packed), content, limits))
  {
    hide Clean, Collected, ArchiveName;
    var entries := AsArchive(manifestSize, packed);
    var e := entries[i + 1];
    assert packed[i] in packed;
    ParsedName(packed[i].path);
    OneMoreEntry(entries[..i + 1], e, limits, paths, {}, total);
    assert entries[..i + 2] == entries[..i + 1] + [e];
    if Opens(AsArchive(manifestSize, packed), content, limits) {
      AcceptableIsClean(entries, limits);
      CleanPrefix(entries, i + 2, limits);
    }
  }

  /** The manifest the pack generates is the archive's only entry of that name. */
  lemma OwnManifest(manifestSize: nat, packed: seq<PackEntry>, limits: Limits)
    requires Acceptable(AsArchive(manifestSize, packed), limits)
    ensures forall e | e in AsArchive(manifestSize, packed) && FileAt(e, MANIFEST_PATH) :: e.size == manifestSize
  {
    hide Acceptable;
    var entries := AsArchive(manifestSize, packed);
    ManifestIsParsed();
    ParsedName(MANIFEST_PATH);
    forall e | e in entries && FileAt(e, MANIFEST_PATH) ensures e == entries[0] {
      var j :| 0 <= j < |entries| && entries[j] == e;
      OneFilePerName(entries, limits, 0, j);
    }
  }

  lemma PackDecides(content: string, manifestSize: nat, packed: seq<PackEntry>, limits: Limits, paths: set<string>, total: nat)
    requires |packed| + 1 <= limits.maxEntries && manifestSize <= limits.maxManifestBytes
    requires var entries := AsArchive(manifestSize, packed);
      Clean(entries[..|packed| + 1], limits) && Collected(entries[..|packed| + 1], paths, {}, total)
    ensures Opens(AsArchive(manifestSize, packed), content, limits) <==>
      content in paths && forall path, p | path in paths && p in paths :: !Ancestor(p, path)
  {
    hide Clean, Tally, Ancestor, NameOf, AsArchive;
    var entries := AsArchive(manifestSize, packed);
    assert entries[..|packed| + 1] == entries;
    CollectedAccepts(entries, limits, paths, {}, total);
    if Acceptable(entries, limits) {
      OwnManifest(manifestSize, packed, limits);
    }
    ManifestIsThere(manifestSize, packed);
    assert paths + {} == paths;
    forall path ensures path in paths <==> exists e :: e in entries && FileAt(e, path) {
      InTally(entries, FileCount(path));
      assert forall e :: FileCount(path)(e) > 0 <==> FileAt(e, path);
    }
  }

  lemma ManifestIsThere(manifestSize: nat, packed: seq<PackEntry>)
    ensures exists e :: e in AsArchive(manifestSize, packed) && FileAt(e, MANIFEST_PATH)
  {
    var entries := AsArchive(manifestSize, packed);
    ManifestIsParsed();
    ParsedName(MANIFEST_PATH);
    assert entries[0] in entries && FileAt(entries[0], MANIFEST_PATH);
  }
}
