/** Injectivity of the root digest and soundness of validation and verification for module Integrity. */
module IntegrityProofs {
  import opened Wrappers
  import opened Texts
  import opened Integrity

  // ---------- The byte order ----------

  lemma {:induction false} LessIsAsymmetric(a: Bytes, b: Bytes)
    ensures !(Less(a, b) && Less(b, a))
  {
    if a != [] && b != [] { LessIsAsymmetric(a[1..], b[1..]); }
  }

  lemma {:induction false} LessIsTotal(a: Bytes, b: Bytes)
    ensures Less(a, b) || Less(b, a) || a == b
  {
    if a != [] && b != [] {
      LessIsTotal(a[1..], b[1..]);
      assert a == [a[0]] + a[1..] && b == [b[0]] + b[1..];
    }
  }

  lemma {:induction false} LessIsTransitive(a: Bytes, b: Bytes, d: Bytes)
    requires !Less(b, a) && !Less(d, b)
    ensures !Less(d, a)
  {
    LessIsTotal(a, b);
    LessIsTotal(b, d);
    if a != [] && b != [] && d != [] && a[0] == b[0] == d[0] { LessIsTransitive(a[1..], b[1..], d[1..]); }
  }

  // ---------- Sorting ----------

  ghost predicate Sorted(files: seq<File>) {
    forall m, n :: 0 <= m < n < |files| ==> !Less(files[n].path, files[m].path)
  }

  lemma {:induction false} InsertSorts(f: File, list: seq<File>)
    requires Sorted(list)
    ensures Sorted(Insert(f, list)) && multiset(Insert(f, list)) == multiset([f] + list)
  {
    if list == [] {
    } else if !Less(list[0].path, f.path) {
      forall n | 0 <= n < |list| ensures !Less(list[n].path, f.path) {
        if n > 0 { LessIsTransitive(f.path, list[0].path, list[n].path); }
      }
    } else {
      var rest := Insert(f, list[1..]);
      InsertSorts(f, list[1..]);
      assert list == [list[0]] + list[1..];
      LessIsAsymmetric(list[0].path, f.path);
      forall n | 0 <= n < |rest| ensures !Less(rest[n].path, list[0].path) {
        assert rest[n] in multiset(rest);
        assert rest[n] == f || rest[n] in list[1..];
      }
    }
  }

  lemma {:induction false} SortSorts(files: seq<File>)
    ensures Sorted(Sort(files)) && multiset(Sort(files)) == multiset(files)
  {
    if files != [] {
      SortSorts(files[1..]);
      InsertSorts(files[0], Sort(files[1..]));
      assert files == [files[0]] + files[1..];
    }
  }

  lemma DistinctIsOrderFree(a: seq<File>, b: seq<File>)
    requires multiset(a) == multiset(b) && DistinctPaths(a)
    ensures DistinctPaths(b)
  {
    forall m, n | 0 <= m < n < |b| ensures b[m].path != b[n].path {
      if b[m].path == b[n].path {
        TwiceInside(b, m, n);
        assert b[m] in multiset(a) && b[n] in multiset(a);
        var i :| 0 <= i < |a| && a[i] == b[m];
        var j :| 0 <= j < |a| && a[j] == b[n];
        assert i == j;
        OnceInside(a, i);
      }
    }
  }

  lemma TwiceInside(s: seq<File>, m: nat, n: nat)
    requires m < n < |s|
    ensures s[m] == s[n] ==> multiset(s)[s[m]] >= 2
  {
    assert s == s[..n] + s[n..];
    assert s[m] == s[..n][m] && s[n] == s[n..][0];
    assert s[m] in multiset(s[..n]) && s[n] in multiset(s[n..]);
  }

  lemma OnceInside(s: seq<File>, i: nat)
    requires DistinctPaths(s) && i < |s|
    ensures multiset(s)[s[i]] == 1
  {
    assert s == s[..i] + [s[i]] + s[i + 1..];
    assert s[i] !in s[..i] && s[i] !in s[i + 1..];
  }

  lemma SameLeast(a: seq<File>, b: seq<File>)
    requires Sorted(a) && Sorted(b) && DistinctPaths(a) && a != [] && b != [] && a[0] in b && b[0] in a
    ensures a[0] == b[0]
  {
    var i :| 0 <= i < |a| && a[i] == b[0];
    var j :| 0 <= j < |b| && b[j] == a[0];
    if i != 0 && j != 0 {
      assert !Less(a[i].path, a[0].path) && !Less(b[j].path, b[0].path);
      LessIsTotal(a[0].path, a[i].path);
    }
  }

  lemma MultisetTail(a: seq<File>)
    requires a != []
    ensures multiset(a[1..]) == multiset(a) - multiset{a[0]} && a[0] in multiset(a)
  {
    assert a == [a[0]] + a[1..];
  }

  lemma {:induction false} SortedIsUnique(a: seq<File>, b: seq<File>)
    requires Sorted(a) && Sorted(b) && DistinctPaths(a) && multiset(a) == multiset(b)
    ensures a == b
  {
    assert |multiset(a)| == |a| && |multiset(b)| == |b|;
    if a != [] {
      MultisetTail(a);
      MultisetTail(b);
      assert a[0] in b && b[0] in a;
      SameLeast(a, b);
      SortedIsUnique(a[1..], b[1..]);
    }
  }

  /** The root digest of files with distinct paths does not depend on their order. */
  lemma DigestIgnoresOrder(a: seq<File>, b: seq<File>)
    requires DistinctPaths(a) && multiset(a) == multiset(b)
    ensures Sort(a) == Sort(b) && RootDigest(a) == RootDigest(b)
  {
    SortSorts(a);
    SortSorts(b);
    DistinctIsOrderFree(a, Sort(a));
    SortedIsUnique(Sort(a), Sort(b));
  }

  lemma SortOfSorted(files: seq<File>)
    requires Sorted(files) && DistinctPaths(files)
    ensures Sort(files) == files
  {
    SortSorts(files);
    SortedIsUnique(files, Sort(files));
  }

  // ---------- Decoding ----------

  datatype Decoded = Decoded(file: File, rest: Bytes)

  // The bytes up to the first `stop`, and what follows it.
  function Until(s: Bytes, stop: byte): Option<(Bytes, Bytes)> {
    if s == [] then None
    else if s[0] == stop then Some(([], s[1..]))
    else
      var more := Until(s[1..], stop);
      if more.None? then None else Some(([s[0]] + more.value.0, more.value.1))
  }

  lemma {:induction false} UntilStops(head: Bytes, stop: byte, rest: Bytes)
    requires stop !in head
    ensures Until(head + [stop] + rest, stop) == Some((head, rest))
  {
    var s := head + [stop] + rest;
    if head == [] {
      assert s[1..] == rest;
    } else {
      assert s[0] == head[0] != stop && s[1..] == head[1..] + [stop] + rest;
      assert head == [head[0]] + head[1..];
      UntilStops(head[1..], stop, rest);
    }
  }

  function DecodeFile(s: Bytes): Option<Decoded> {
    var length := Until(s, COLON);
    if length.None? then None
    else
      var n, body := Decimal(length.value.0), length.value.1;
      if n >= |body| || body[n] != NUL then None
      else
        var size := Until(body[n + 1..], NUL);
        if size.None? then None
        else
          var sha := Until(size.value.1, NUL);
          if sha.None? then None
          else Some(Decoded(File(body[..n], Decimal(size.value.0), sha.value.0), sha.value.1))
  }

  function DecodeFiles(s: Bytes): Option<seq<File>>
    decreases |s|
  {
    if s == [] then Some([])
    else
      var first := DecodeFile(s);
      if first.None? || |first.value.rest| >= |s| then None
      else
        var others := DecodeFiles(first.value.rest);
        if others.None? then None else Some([first.value.file] + others.value)
  }

  lemma DecodeOne(f: File, rest: Bytes)
    requires NUL !in f.sha
    ensures DecodeFile(EncodeFile(f) + rest) == Some(Decoded(f, rest))
  {
    var length, size := Digits(|f.path|), Digits(f.size);
    var afterSize := f.sha + [NUL] + rest;
    var afterPath := size + [NUL] + afterSize;
    var body := f.path + [NUL] + afterPath;
    assert EncodeFile(f) + rest == length + [COLON] + body;
    UntilStops(length, COLON, body);
    DecimalOfDigits(|f.path|);
    assert body[..|f.path|] == f.path && body[|f.path| + 1..] == afterPath;
    UntilStops(size, NUL, afterSize);
    DecimalOfDigits(f.size);
    UntilStops(f.sha, NUL, rest);
  }

  ghost predicate Decodable(files: seq<File>) { forall k :: 0 <= k < |files| ==> NUL !in files[k].sha }

  /** The encoding that is hashed has a decoder; it holds for any path bytes, NUL, colon and digits included. */
  lemma {:induction false} DecodeInverts(files: seq<File>)
    requires Decodable(files)
    ensures DecodeFiles(EncodeFiles(files)) == Some(files)
  {
    if files != [] {
      var rest := EncodeFiles(files[1..]);
      DecodeOne(files[0], rest);
      DecodeInverts(files[1..]);
      assert files == [files[0]] + files[1..];
    }
  }

  /** Equal root digests mean equal sorted file lists. */
  lemma DigestIsInjective(a: seq<File>, b: seq<File>)
    requires Decodable(a) && Decodable(b) && RootDigest(a) == RootDigest(b)
    ensures Sort(a) == Sort(b)
  {
    assert RootDigest(a)[|PREFIX|..] == EncodeFiles(Sort(a));
    assert RootDigest(b)[|PREFIX|..] == EncodeFiles(Sort(b));
    SortKeepsDecodable(a);
    SortKeepsDecodable(b);
    DecodeInverts(Sort(a));
    DecodeInverts(Sort(b));
  }

  lemma SortKeepsDecodable(files: seq<File>)
    requires Decodable(files)
    ensures Decodable(Sort(files))
  {
    SortSorts(files);
    forall k | 0 <= k < |Sort(files)| ensures NUL !in Sort(files)[k].sha {
      assert Sort(files)[k] in multiset(files);
    }
  }

  // ---------- Paths of a directory tree ----------

  // What a file system allows as an entry name.
  predicate IsEntryName(name: Bytes) { IsSafeSegment(name) && SLASH !in name && NUL !in name }

  predicate IsLowerDigest(sha: Bytes) {
    |sha| == 64 && forall k :: 0 <= k < |sha| ==> IsDigit(sha[k]) || 97 <= sha[k] <= 102
  }

  function Names(entries: seq<Entry>): set<Bytes> { set k | 0 <= k < |entries| :: entries[k].name }

  ghost predicate IsTree(entries: seq<Entry>)
    decreases entries, 1
  {
    entries == [] || (entries[0].name !in Names(entries[1..]) && IsEntry(entries[0]) && IsTree(entries[1..]))
  }

  ghost predicate IsEntry(entry: Entry)
    decreases entry, 0
  {
    && IsEntryName(entry.name)
    && (entry.node.FileNode? ==> IsLowerDigest(entry.node.sha))
    && (entry.node.Directory? ==> IsTree(entry.node.entries))
  }

  ghost predicate Below(leaf: Leaf, segments: seq<Bytes>) {
    && segments <= leaf.segments && IsLowerDigest(leaf.sha)
    && forall k :: |segments| <= k < |leaf.segments| ==> IsEntryName(leaf.segments[k])
  }

  ghost predicate Inside(leaf: Leaf, segments: seq<Bytes>, names: set<Bytes>) {
    Below(leaf, segments) && |segments| < |leaf.segments| && leaf.segments[|segments|] in names
  }

  ghost predicate DistinctLeaves(leaves: seq<Leaf>) {
    forall m, n :: 0 <= m < n < |leaves| ==> leaves[m].segments != leaves[n].segments
  }

  lemma {:induction false} WalkIsBelow(entries: seq<Entry>, segments: seq<Bytes>, leaves: seq<Leaf>)
    requires IsTree(entries) && Walk(entries, segments) == Some(leaves)
    ensures DistinctLeaves(leaves) && forall k :: 0 <= k < |leaves| ==> Inside(leaves[k], segments, Names(entries))
    decreases entries, 1
  {
    if entries != [] {
      var next := segments + [entries[0].name];
      var first, others := Visit(entries[0], next).value, Walk(entries[1..], segments).value;
      VisitIsBelow(entries[0], next, first);
      WalkIsBelow(entries[1..], segments, others);
      assert Names(entries) == Names(entries[1..]) + {entries[0].name} by {
        assert forall k :: 0 < k < |entries| ==> entries[k] == entries[1..][k - 1];
      }
      forall k | 0 <= k < |first| ensures Inside(first[k], segments, {entries[0].name}) {
        assert next <= first[k].segments;
      }
      forall m, n | 0 <= m < |first| && 0 <= n < |others| ensures first[m].segments != others[n].segments {
        assert Inside(first[m], segments, {entries[0].name}) && Inside(others[n], segments, Names(entries[1..]));
      }
    }
  }

  lemma {:induction false} VisitIsBelow(entry: Entry, segments: seq<Bytes>, leaves: seq<Leaf>)
    requires IsEntry(entry) && Visit(entry, segments) == Some(leaves)
    ensures DistinctLeaves(leaves) && forall k :: 0 <= k < |leaves| ==> Below(leaves[k], segments)
    decreases entry, 0
  {
    if entry.node.Directory? {
      WalkIsBelow(entry.node.entries, segments, leaves);
      assert forall k :: 0 <= k < |leaves| ==> Inside(leaves[k], segments, Names(entry.node.entries));
    }
  }

  lemma {:induction false} SplitOfPlain(s: Bytes)
    requires SLASH !in s
    ensures Split(s) == [s]
  {
    if s != [] {
      assert s == [s[0]] + s[1..];
      SplitOfPlain(s[1..]);
    }
  }

  lemma {:induction false} SplitOfCons(name: Bytes, rest: Bytes)
    requires SLASH !in name
    ensures Split(name + [SLASH] + rest) == [name] + Split(rest)
  {
    var s := name + [SLASH] + rest;
    if name == [] {
      assert s[1..] == rest;
    } else {
      assert s[0] == name[0] && s[1..] == name[1..] + [SLASH] + rest;
      SplitOfCons(name[1..], rest);
      assert name == [name[0]] + name[1..];
    }
  }

  /** Splitting a joined path gives back its segments, so different entries have different paths. */
  lemma {:induction false} SplitOfJoin(segments: seq<Bytes>)
    requires segments != [] && forall k :: 0 <= k < |segments| ==> SLASH !in segments[k]
    ensures Split(Join(segments)) == segments
  {
    if |segments| == 1 {
      SplitOfPlain(segments[0]);
    } else {
      SplitOfCons(segments[0], Join(segments[1..]));
      SplitOfJoin(segments[1..]);
    }
  }

  ghost predicate SomeContains(segments: seq<Bytes>, b: byte) { exists k :: 0 <= k < |segments| && b in segments[k] }

  lemma {:induction false} JoinContains(segments: seq<Bytes>, b: byte)
    requires b != SLASH
    ensures b in Join(segments) <==> SomeContains(segments, b)
  {
    if |segments| > 1 {
      JoinContains(segments[1..], b);
      assert SomeContains(segments[1..], b) ==> SomeContains(segments, b) by {
        if SomeContains(segments[1..], b) {
          var k :| 0 <= k < |segments| - 1 && b in segments[1..][k];
          assert b in segments[k + 1];
        }
      }
      assert forall k :: 0 < k < |segments| ==> segments[k] == segments[1..][k - 1];
    }
  }

  lemma {:induction false} ListedAt(leaves: seq<Leaf>)
    ensures |Listed(leaves)| == |leaves|
    ensures forall k :: 0 <= k < |leaves| ==>
      Listed(leaves)[k] == File(Join(leaves[k].segments), leaves[k].size, leaves[k].sha)
  {
    if leaves != [] { ListedAt(leaves[1..]); }
  }

  // What every listed file satisfies.
  ghost predicate Regular(f: File) {
    IsLowerDigest(f.sha) && (IsSafePath(f.path) <==> BACKSLASH !in f.path)
  }

  lemma LeafIsRegular(leaf: Leaf)
    requires Below(leaf, []) && leaf.segments != []
    ensures Regular(File(Join(leaf.segments), leaf.size, leaf.sha)) && Split(Join(leaf.segments)) == leaf.segments
  {
    var path := Join(leaf.segments);
    SplitOfJoin(leaf.segments);
    JoinContains(leaf.segments, NUL);
    assert IsEntryName(leaf.segments[0]) && path[0] == leaf.segments[0][0];
    assert forall k :: 0 <= k < |leaf.segments| ==> IsEntryName(leaf.segments[k]);
  }

  /** The files found in a directory tree have pairwise distinct paths, whatever the order of the listings. */
  lemma TreePathsAreDistinct(tree: seq<Entry>, files: seq<File>)
    requires IsTree(tree) && SourceFiles(tree) == Some(files)
    ensures DistinctPaths(files) && Sorted(files) && forall k :: 0 <= k < |files| ==> Regular(files[k])
  {
    var leaves := Walk(tree, []).value;
    var listed := Listed(leaves);
    WalkIsBelow(tree, [], leaves);
    ListedAt(leaves);
    forall k | 0 <= k < |leaves| ensures Regular(listed[k]) && Split(listed[k].path) == leaves[k].segments {
      assert Inside(leaves[k], [], Names(tree));
      LeafIsRegular(leaves[k]);
    }
    assert DistinctPaths(listed);
    SortSorts(listed);
    DistinctIsOrderFree(listed, files);
    forall k | 0 <= k < |files| ensures Regular(files[k]) {
      assert files[k] in multiset(listed);
    }
  }

  // ---------- Validation ----------

  lemma {:induction false} LowerOfLower(s: Bytes)
    requires forall k :: 0 <= k < |s| ==> IsDigit(s[k]) || 97 <= s[k] <= 102
    ensures Lower(s) == s
  {
  }

  lemma {:induction false} NormalizedIsSame(files: seq<File>)
    requires forall k :: 0 <= k < |files| ==> IsLowerDigest(files[k].sha)
    ensures Normalized(files) == files
  {
    if files != [] {
      assert IsLowerDigest(files[0].sha);
      LowerOfLower(files[0].sha);
      NormalizedIsSame(files[1..]);
    }
  }

  lemma {:induction false} SizeWithinTotal(files: seq<File>, k: nat)
    requires k < |files|
    ensures files[k].size <= Total(files)
  {
    if k > 0 { SizeWithinTotal(files[1..], k - 1); }
  }

  lemma LowerIsTreeSha(a: Bytes, b: Bytes)
    requires Lower(a) == Lower(b) && IsTreeSha(b)
    ensures IsTreeSha(a)
  {
    assert |a| == |Lower(a)| == |b|;
    forall k | 0 <= k < |a| ensures IsDigit(a[k]) || 97 <= LowerHex(a[k]) <= 102 {
      assert Lower(a)[k] == LowerHex(a[k]) && Lower(b)[k] == LowerHex(b[k]);
    }
  }

  predicate NoBackslash(files: seq<File>) { forall k :: 0 <= k < |files| ==> BACKSLASH !in files[k].path }

  /** A created manifest passes the validator, unchanged, exactly when no file name contains a backslash
      and the totals are safe integers. */
  lemma CreatedValidates(tree: seq<Entry>, directory: Bytes, treeSha: Bytes, m: Manifest)
    requires IsTree(tree) && IsBaseName(directory) && Create(tree, directory, treeSha) == Some(m)
    ensures Validate(m).Some? <==> NoBackslash(m.files) && IsSafeNat(m.fileCount) && IsSafeNat(m.totalBytes)
    ensures Validate(m).Some? ==> Validate(m).value == m
  {
    TreePathsAreDistinct(tree, m.files);
    TreeFilesDecodable(m.files);
    NormalizedIsSame(m.files);
    SortOfSorted(m.files);
    LowerTreeSha(treeSha);
    if IsSafeNat(m.fileCount) && IsSafeNat(m.totalBytes) { ValidFiles(m.files); }
  }

  lemma ValidFiles(files: seq<File>)
    requires (forall k :: 0 <= k < |files| ==> Regular(files[k])) && Total(files) <= MAX_SAFE_INTEGER
    ensures (forall k :: 0 <= k < |files| ==> IsValidFile(files[k])) <==> NoBackslash(files)
  {
    forall k | 0 <= k < |files| ensures IsValidFile(files[k]) <==> BACKSLASH !in files[k].path {
      SizeWithinTotal(files, k);
      assert Regular(files[k]);
    }
  }

  lemma LowerTreeSha(sha: Bytes)
    requires IsTreeSha(sha)
    ensures IsTreeSha(Lower(sha)) && Lower(Lower(sha)) == Lower(sha)
  {
    assert forall k :: 0 <= k < |sha| ==> IsDigit(Lower(sha)[k]) || 97 <= Lower(sha)[k] <= 102;
    LowerOfLower(Lower(sha));
  }

  const SHA40: Bytes := seq(40, _ => 48 as byte)
  const SHA64: Bytes := seq(64, _ => 48 as byte)

  /** A file whose name contains a backslash yields a manifest that its own validator refuses. */
  lemma BackslashIsRefused()
    ensures var tree := [Entry([97, BACKSLASH, 98], FileNode(0, SHA64))];
      IsTree(tree) && Create(tree, [97], SHA40).Some? && Validate(Create(tree, [97], SHA40).value).None?
  {
    var tree := [Entry([97, BACKSLASH, 98], FileNode(0, SHA64))];
    assert IsEntry(tree[0]) && tree[1..] == [] && Walk(tree[1..], []) == Some([]);
    var leaf := Leaf([] + [tree[0].name], 0, SHA64);
    assert Visit(tree[0], [] + [tree[0].name]) == Some([leaf]);
    assert Walk(tree, []) == Some([leaf] + []);
    assert [leaf] + [] == [leaf] && [leaf][1..] == [];
    var file := File(Join(leaf.segments), 0, SHA64);
    assert Listed([]) == [] && Listed([leaf]) == [file] + Listed([leaf][1..]);
    assert Sort([]) == [] && [file][1..] == [] && Sort([file]) == [file];
    assert SourceFiles(tree) == Some([file]);
    var m := Create(tree, [97], SHA40).value;
    CreatedValidates(tree, [97], SHA40, m);
    assert m.files[0].path[1] == BACKSLASH;
  }

  // ---------- Verification ----------

  lemma ValidatedFiles(m: Manifest, v: Manifest)
    requires Validate(m) == Some(v)
    ensures v.files == Normalized(m.files) == Sort(v.files) && Decodable(v.files)
    ensures v.fileCount == |v.files| && v.totalBytes == Total(v.files) && v.rootDigest == RootDigest(v.files)
    ensures IsTreeSha(m.treeSha) && v.treeSha == Lower(m.treeSha)
  {
    forall k | 0 <= k < |v.files| ensures NUL !in v.files[k].sha {
      assert IsValidFile(m.files[k]);
      assert forall n :: 0 <= n < |v.files[k].sha| ==> v.files[k].sha[n] == LowerHex(m.files[k].sha[n]);
    }
  }

  /** Verification accepts exactly the trees whose sorted file list, directory name and tree hash are
      those of a valid manifest; the digest comparison alone already decides, and the count, size and
      list comparisons after it never fail. */
  lemma VerifyAcceptsExactly(tree: seq<Entry>, directory: Bytes, m: Manifest, expected: Bytes)
    requires IsTree(tree)
    ensures var verdict := Verify(tree, directory, Some(m), expected);
      && (verdict.Valid? <==> Validate(m).Some? && m.sourceDirectory == directory && Lower(m.treeSha) == Lower(expected)
                              && SourceFiles(tree) == Some(Normalized(m.files)))
      && (verdict.Invalid? ==>
            verdict.reason !in ["file_count_mismatch", "total_bytes_mismatch", "file_manifest_mismatch"])
  {
    if Validate(m).Some? && Lower(m.treeSha) == Lower(expected) {
      var v := Validate(m).value;
      ValidatedFiles(m, v);
      LowerIsTreeSha(expected, m.treeSha);
      if SourceFiles(tree).Some? {
        var files := SourceFiles(tree).value;
        TreePathsAreDistinct(tree, files);
        SortOfSorted(files);
        TreeFilesDecodable(files);
        if RootDigest(files) == v.rootDigest { DigestIsInjective(files, v.files); }
      }
    }
  }

  lemma TreeFilesDecodable(files: seq<File>)
    requires forall k :: 0 <= k < |files| ==> Regular(files[k])
    ensures Decodable(files)
  {
    assert forall k :: 0 <= k < |files| ==> IsLowerDigest(files[k].sha);
  }

  /** A valid manifest made from one tree accepts another exactly when both hold the same files: the
      same paths with the same sizes and content digests. */
  lemma TamperEvidence(original: seq<Entry>, present: seq<Entry>, directory: Bytes, treeSha: Bytes, m: Manifest)
    requires IsTree(original) && IsTree(present) && IsBaseName(directory)
    requires Create(original, directory, treeSha) == Some(m) && Validate(m).Some?
    ensures Verify(present, directory, Some(m), treeSha).Valid? <==>
      Walk(present, []).Some? && multiset(Listed(Walk(present, []).value)) == multiset(Listed(Walk(original, []).value))
  {
    CreatedValidates(original, directory, treeSha, m);
    VerifyAcceptsExactly(present, directory, m, treeSha);
    ValidatedFiles(m, m);
    LowerTreeSha(treeSha);
    TreePathsAreDistinct(original, m.files);
    SortSorts(Listed(Walk(original, []).value));
    if Walk(present, []).Some? {
      var files := SourceFiles(present).value;
      TreePathsAreDistinct(present, files);
      SortSorts(Listed(Walk(present, []).value));
      if multiset(files) == multiset(m.files) { SortedIsUnique(files, m.files); }
    }
  }
}
