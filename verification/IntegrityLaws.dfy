/** What the functions of module Integrity accept, find and explain, stated apart from how they compute it. */
module IntegrityLaws {
  import opened Wrappers
  import opened Texts
  import opened Integrity
  import opened IntegrityProofs

  // ---------- Byte order ----------

  // Equal up to k, where a ends or has the smaller byte.
  ghost predicate DiffersAt(a: Bytes, b: Bytes, k: nat) {
    && k <= |a| && k < |b| && (forall j :: 0 <= j < k ==> a[j] == b[j])
    && (k == |a| || a[k] < b[k])
  }

  /** Paths are compared byte by byte, a proper prefix first. */
  lemma {:induction false} LessExactly(a: Bytes, b: Bytes)
    ensures Less(a, b) <==> exists k: nat :: DiffersAt(a, b, k)
  {
    if a == [] || b == [] || a[0] != b[0] {
      if b != [] && (a == [] || a[0] < b[0]) { assert DiffersAt(a, b, 0); }
    } else {
      LessExactly(a[1..], b[1..]);
      if k: nat :| DiffersAt(a[1..], b[1..], k) {
        assert forall j :: 0 < j < k + 1 ==> a[j] == a[1..][j - 1] && b[j] == b[1..][j - 1];
        assert DiffersAt(a, b, k + 1);
      }
      if k: nat :| DiffersAt(a, b, k) { assert DiffersAt(a[1..], b[1..], k - 1); }
    }
  }

  // ---------- The walk ----------

  // The names of the path lead from an entry of this directory to the node.
  ghost predicate Reaches(entries: seq<Entry>, path: seq<Bytes>, node: Node)
    decreases |path|, 1
  {
    exists k :: 0 <= k < |entries| && Leads(entries[k], path, node)
  }

  ghost predicate Leads(entry: Entry, path: seq<Bytes>, node: Node)
    decreases |path|, 0
  {
    && path != [] && entry.name == path[0]
    && if |path| == 1 then entry.node == node
       else entry.node.Directory? && Reaches(entry.node.entries, path[1..], node)
  }

  // A link or another kind of node somewhere below.
  ghost predicate HoldsOther(entries: seq<Entry>) {
    exists path: seq<Bytes>, node: Node :: (node.SymbolicLink? || node.Other?) && Reaches(entries, path, node)
  }

  ghost predicate OtherAt(entry: Entry) {
    exists path: seq<Bytes>, node: Node :: (node.SymbolicLink? || node.Other?) && Leads(entry, path, node)
  }

  lemma ReachesFirst(entries: seq<Entry>, path: seq<Bytes>, node: Node)
    requires entries != []
    ensures Reaches(entries, path, node) <==> Leads(entries[0], path, node) || Reaches(entries[1..], path, node)
  {
    if Reaches(entries[1..], path, node) {
      var k :| 0 <= k < |entries[1..]| && Leads(entries[1..][k], path, node);
      assert entries[k + 1] == entries[1..][k];
    }
    if k :| 0 <= k < |entries| && Leads(entries[k], path, node) {
      assert k > 0 ==> entries[1..][k - 1] == entries[k];
    }
  }

  // The leaf lies at `path` below `segments`.
  ghost predicate IsAt(leaf: Leaf, segments: seq<Bytes>, path: seq<Bytes>) { leaf.segments == segments + path }

  ghost predicate Extend(leaves: seq<Leaf>, segments: seq<Bytes>) {
    forall leaf :: leaf in leaves ==> segments <= leaf.segments
  }

  // The leaves are the regular files that the entries lead to.
  ghost predicate Finds(entries: seq<Entry>, segments: seq<Bytes>, leaves: seq<Leaf>) {
    Extend(leaves, segments) &&
    forall path: seq<Bytes>, leaf: Leaf :: IsAt(leaf, segments, path) ==>
      (leaf in leaves <==> Reaches(entries, path, FileNode(leaf.size, leaf.sha)))
  }

  ghost predicate FindsAt(entry: Entry, segments: seq<Bytes>, leaves: seq<Leaf>) {
    Extend(leaves, segments) &&
    forall path: seq<Bytes>, leaf: Leaf :: IsAt(leaf, segments, path) ==>
      (leaf in leaves <==> Leads(entry, path, FileNode(leaf.size, leaf.sha)))
  }

  lemma FileIsFound(entry: Entry, segments: seq<Bytes>, leaves: seq<Leaf>)
    requires entry.node.FileNode?
    requires leaves == [Leaf(segments + [entry.name], entry.node.size, entry.node.sha)]
    ensures FindsAt(entry, segments, leaves) && !OtherAt(entry)
  {
    forall path: seq<Bytes>, leaf: Leaf | IsAt(leaf, segments, path)
      ensures leaf in leaves <==> Leads(entry, path, FileNode(leaf.size, leaf.sha))
    {
      SameTail(segments, path, [entry.name]);
    }
  }

  lemma SameTail(a: seq<Bytes>, b: seq<Bytes>, d: seq<Bytes>)
    ensures a + b == a + d <==> b == d
  {
    assert (a + b)[|a|..] == b && (a + d)[|a|..] == d;
  }

  lemma NameIsNext(segments: seq<Bytes>, name: Bytes, path: seq<Bytes>)
    requires segments + [name] <= segments + path
    ensures path != [] && path[0] == name
  {
    assert (segments + [name])[|segments|] == name;
    assert (segments + path)[|segments|] == name;
  }

  lemma DirectoryIsFound(entry: Entry, segments: seq<Bytes>, leaves: seq<Leaf>)
    requires entry.node.Directory? && Finds(entry.node.entries, segments + [entry.name], leaves)
    ensures FindsAt(entry, segments, leaves)
  {
    var here, children := segments + [entry.name], entry.node.entries;
    forall path: seq<Bytes>, leaf: Leaf | IsAt(leaf, segments, path)
      ensures leaf in leaves <==> Leads(entry, path, FileNode(leaf.size, leaf.sha))
    {
      if path != [] && path[0] == entry.name {
        assert path == [entry.name] + path[1..];
        assert leaf.segments == here + path[1..];
        assert IsAt(leaf, here, path[1..]);
        assert !Reaches(children, [], FileNode(leaf.size, leaf.sha));
      } else {
        if here <= leaf.segments { NameIsNext(segments, entry.name, path); }
      }
    }
    forall leaf | leaf in leaves ensures segments <= leaf.segments { assert here <= leaf.segments; }
  }

  lemma DirectoryHoldsOther(entry: Entry)
    requires entry.node.Directory?
    ensures OtherAt(entry) <==> HoldsOther(entry.node.entries)
  {
    if path: seq<Bytes>, node: Node :|
      (node.SymbolicLink? || node.Other?) && Reaches(entry.node.entries, path, node)
    {
      var k :| 0 <= k < |entry.node.entries| && Leads(entry.node.entries[k], path, node);
      assert ([entry.name] + path)[1..] == path;
      assert Leads(entry, [entry.name] + path, node);
    }
    if path: seq<Bytes>, node: Node :| (node.SymbolicLink? || node.Other?) && Leads(entry, path, node) {
      assert Reaches(entry.node.entries, path[1..], node);
    }
  }

  lemma {:induction false} VisitFinds(entry: Entry, segments: seq<Bytes>)
    ensures var leaves := Visit(entry, segments + [entry.name]);
      && (leaves.None? <==> OtherAt(entry)) && (leaves.Some? ==> FindsAt(entry, segments, leaves.value))
    decreases entry, 0
  {
    match entry.node
    case FileNode(size, sha) => FileIsFound(entry, segments, [Leaf(segments + [entry.name], size, sha)]);
    case Directory(children) =>
      WalkFinds(children, segments + [entry.name]);
      DirectoryHoldsOther(entry);
      var leaves := Walk(children, segments + [entry.name]);
      if leaves.Some? { DirectoryIsFound(entry, segments, leaves.value); }
    case _ => assert Leads(entry, [entry.name], entry.node);
  }

  lemma FoundFirst(entries: seq<Entry>, segments: seq<Bytes>, a: seq<Leaf>, b: seq<Leaf>)
    requires entries != [] && FindsAt(entries[0], segments, a) && Finds(entries[1..], segments, b)
    ensures Finds(entries, segments, a + b)
  {
    forall path: seq<Bytes>, leaf: Leaf | IsAt(leaf, segments, path)
      ensures leaf in a + b <==> Reaches(entries, path, FileNode(leaf.size, leaf.sha))
    {
      ReachesFirst(entries, path, FileNode(leaf.size, leaf.sha));
    }
  }

  lemma OtherFirst(entries: seq<Entry>)
    requires entries != []
    ensures HoldsOther(entries) <==> OtherAt(entries[0]) || HoldsOther(entries[1..])
  {
    forall path: seq<Bytes>, node: Node
      ensures Reaches(entries, path, node) <==> Leads(entries[0], path, node) || Reaches(entries[1..], path, node)
    {
      ReachesFirst(entries, path, node);
    }
  }

  /** The walk returns exactly the regular files of the tree, each under the names that lead to it, and refuses
      exactly the trees that hold a link or another kind of node somewhere. */
  lemma {:induction false} WalkFinds(entries: seq<Entry>, segments: seq<Bytes>)
    ensures Walk(entries, segments).None? <==> HoldsOther(entries)
    ensures Walk(entries, segments).Some? ==> Finds(entries, segments, Walk(entries, segments).value)
    decreases entries, 1
  {
    if entries != [] {
      VisitFinds(entries[0], segments);
      WalkFinds(entries[1..], segments);
      OtherFirst(entries);
      var first, others := Visit(entries[0], segments + [entries[0].name]), Walk(entries[1..], segments);
      if first.Some? && others.Some? { FoundFirst(entries, segments, first.value, others.value); }
    }
  }

  // ---------- Paths ----------

  // A name without separators and zeros that is no dot name.
  ghost predicate Plain(s: Bytes) {
    s != [] && s != [46] && s != [46, 46] && 47 !in s && 92 !in s && 0 !in s
  }

  // Plain names joined by slashes.
  ghost predicate PlainPath(path: Bytes) {
    exists names: seq<Bytes> :: names != [] && path == Join(names) && forall k :: 0 <= k < |names| ==> Plain(names[k])
  }

  lemma {:induction false} JoinOfSplit(s: Bytes)
    ensures Join(Split(s)) == s
    ensures forall k :: 0 <= k < |Split(s)| ==> SLASH !in Split(s)[k]
  {
    if s != [] {
      var rest := Split(s[1..]);
      JoinOfSplit(s[1..]);
      assert s == [s[0]] + s[1..];
      if s[0] == SLASH {
        assert ([[]] + rest)[1..] == rest;
      } else {
        assert ([[s[0]] + rest[0]] + rest[1..])[1..] == rest[1..];
        assert SLASH !in [s[0]] + rest[0];
      }
    }
  }

  lemma PlainNamesSplit(names: seq<Bytes>)
    requires names != [] && forall k :: 0 <= k < |names| ==> Plain(names[k])
    ensures Split(Join(names)) == names && Join(names) != [] && Join(names)[0] != SLASH
    ensures BACKSLASH !in Join(names) && NUL !in Join(names)
  {
    SplitOfJoin(names);
    JoinContains(names, BACKSLASH);
    JoinContains(names, NUL);
    assert Plain(names[0]) && names[0][0] in names[0];
    assert Join(names)[0] == names[0][0];
  }

  /** The paths a manifest may hold are exactly the plain names joined by slashes. */
  lemma SafePathExactly(path: Bytes)
    ensures IsSafePath(path) <==> PlainPath(path)
  {
    if names: seq<Bytes> :|
      names != [] && path == Join(names) && forall k :: 0 <= k < |names| ==> Plain(names[k])
    {
      PlainNamesSplit(names);
    }
    if IsSafePath(path) {
      JoinOfSplit(path);
      JoinContains(Split(path), BACKSLASH);
      JoinContains(Split(path), NUL);
      forall k | 0 <= k < |Split(path)| ensures Plain(Split(path)[k]) {
        assert IsSafeSegment(Split(path)[k]);
      }
    }
  }

  // ---------- Validation ----------

  ghost predicate HexDigits(s: Bytes) {
    forall k :: 0 <= k < |s| ==> 48 <= s[k] <= 57 || 65 <= s[k] <= 70 || 97 <= s[k] <= 102
  }

  ghost predicate SafeCount(n: int) { 0 <= n <= 9007199254740991 }

  ghost predicate GoodFile(f: File) {
    PlainPath(f.path) && SafeCount(f.size) && |f.sha| == 64 && HexDigits(f.sha)
  }

  // Every path before the next one in byte order.
  ghost predicate Ascending(files: seq<File>) {
    forall m, n :: 0 <= m < n < |files| ==> Less(files[m].path, files[n].path)
  }

  lemma GoodFileExactly(f: File)
    ensures IsValidFile(f) <==> GoodFile(f)
  {
    SafePathExactly(f.path);
    HexExactly(f.sha);
  }

  lemma HexExactly(s: Bytes)
    ensures IsHex(s) <==> HexDigits(s)
  {}

  lemma AscendingExactly(files: seq<File>)
    ensures Ascending(files) <==> files == Sort(files) && DistinctPaths(files)
  {
    SortSorts(files);
    if files == Sort(files) && DistinctPaths(files) {
      forall m, n | 0 <= m < n < |files| ensures Less(files[m].path, files[n].path) {
        LessIsTotal(files[m].path, files[n].path);
      }
    }
    if Ascending(files) {
      forall m, n | 0 <= m < n < |files|
        ensures !Less(files[n].path, files[m].path) && files[m].path != files[n].path
      {
        LessIsAsymmetric(files[m].path, files[n].path);
      }
      SortOfSorted(files);
    }
  }

  /** The sizes of two lists add up, and a single file counts its own. */
  lemma {:induction false} TotalAdds(a: seq<File>, b: seq<File>, f: File)
    ensures Total(a + b) == Total(a) + Total(b) && Total([f]) == f.size
  {
    if a == [] {
      assert a + b == b;
    } else {
      assert (a + b)[1..] == a[1..] + b;
      TotalAdds(a[1..], b, f);
    }
    assert [f][1..] == [];
  }

  ghost predicate GoodManifest(m: Manifest) {
    var files := Normalized(m.files);
    && m.schemaVersion == 1 && m.algorithm == "sha256"
    && m.sourceDirectory != [] && 47 !in m.sourceDirectory
    && (|m.treeSha| == 40 || |m.treeSha| == 64) && HexDigits(m.treeSha)
    && SafeCount(m.fileCount) && SafeCount(m.totalBytes)
    && (forall k :: 0 <= k < |m.files| ==> GoodFile(m.files[k]))
    && m.fileCount == |m.files| && m.totalBytes == Total(m.files)
    && Ascending(m.files) && m.rootDigest == PREFIX + EncodeFiles(files)
  }

  lemma NormalizedPaths(files: seq<File>)
    ensures Ascending(Normalized(files)) <==> Ascending(files)
  {}

  lemma {:induction false} NormalizedTotal(files: seq<File>)
    ensures Total(Normalized(files)) == Total(files)
  {
    if files != [] { NormalizedTotal(files[1..]); }
  }

  /** A manifest is accepted exactly when its version and hashes are well-formed, its paths are plain and in
      ascending byte order, its counts are those of its files, and its digest is that of its list. */
  lemma ValidatesExactly(m: Manifest)
    ensures Validate(m).Some? <==> GoodManifest(m)
  {
    var files := Normalized(m.files);
    HexExactly(m.treeSha);
    NormalizedPaths(m.files);
    NormalizedTotal(m.files);
    AscendingExactly(files);
    forall k | 0 <= k < |m.files| ensures IsValidFile(m.files[k]) <==> GoodFile(m.files[k]) {
      GoodFileExactly(m.files[k]);
    }
  }

  // ---------- Verification ----------

  // Same digits, whatever their case.
  ghost predicate SameHex(a: Bytes, b: Bytes) { Lower(a) == Lower(b) }

  ghost function Explained(good: bool, here: bool, same: bool, listed: bool, equal: bool, v: Manifest): Verdict {
    if !good then Invalid("manifest_unavailable_or_invalid")
    else if !here then Invalid("source_directory_mismatch")
    else if !same then Invalid("tree_sha_mismatch")
    else if !listed then Invalid("manifest_unavailable_or_invalid")
    else if !equal then Invalid("root_digest_mismatch")
    else Valid(v)
  }

  lemma VerifyCases(tree: seq<Entry>, directory: Bytes, m: Manifest, expected: Bytes, v: Manifest)
    requires IsTree(tree) && Validate(m) == Some(v) && v.sourceDirectory == directory && v.treeSha == Lower(expected)
    requires IsTreeSha(expected) && v.files == Normalized(m.files)
    ensures Verify(tree, directory, Some(m), expected) ==
      Explained(true, true, true, SourceFiles(tree).Some?, SourceFiles(tree) == Some(v.files), v)
  {
    VerifyAcceptsExactly(tree, directory, m, expected);
  }

  lemma VerifyStops(tree: seq<Entry>, directory: Bytes, m: Manifest, expected: Bytes)
    requires Validate(m).None? || Validate(m).value.sourceDirectory != directory
      || Validate(m).value.treeSha != Lower(expected)
    ensures var v := Validate(m);
      Verify(tree, directory, Some(m), expected) ==
      Explained(v.Some?, v.Some? && v.value.sourceDirectory == directory, false, false, false, m)
  {}

  /** Each reason a verification gives, exactly when it gives it; with a good manifest for the directory and
      tree hash, only a tree that cannot be listed or holds other files is refused. */
  lemma VerifyExplains(tree: seq<Entry>, directory: Bytes, m: Manifest, expected: Bytes, good: bool, other: bool)
    requires IsTree(tree) && good == GoodManifest(m) && other == HoldsOther(tree)
    ensures Verify(tree, directory, Some(m), expected) ==
      if !good then Invalid("manifest_unavailable_or_invalid")
      else if m.sourceDirectory != directory then Invalid("source_directory_mismatch")
      else if !SameHex(m.treeSha, expected) then Invalid("tree_sha_mismatch")
      else if other then Invalid("manifest_unavailable_or_invalid")
      else if SourceFiles(tree) != Some(Normalized(m.files)) then Invalid("root_digest_mismatch")
      else Valid(m.(treeSha := Lower(m.treeSha), files := Normalized(m.files)))
  {
    ValidatesExactly(m);
    WalkFinds(tree, []);
    if Validate(m).Some? {
      var v := Validate(m).value;
      ValidatedFiles(m, v);
      assert v == m.(treeSha := Lower(m.treeSha), files := Normalized(m.files));
      if m.sourceDirectory == directory && SameHex(m.treeSha, expected) {
        LowerIsTreeSha(expected, m.treeSha);
        VerifyCases(tree, directory, m, expected, v);
      } else {
        VerifyStops(tree, directory, m, expected);
      }
    } else {
      VerifyStops(tree, directory, m, expected);
    }
  }
}
