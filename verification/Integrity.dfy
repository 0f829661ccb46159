/**
 Source integrity manifests of apps/api/src/services/snapshotSourceIntegrity.ts.  Paths and digests
 are byte strings; a root digest is the byte string that is hashed (an injective hash).
 */
module Integrity {
  import opened Wrappers
  import opened Texts

  const NUL: byte := 0
  const SLASH: byte := 47
  const COLON: byte := 58
  const BACKSLASH: byte := 92

  // "memorepo-snapshot-source-integrity-v1" NUL
  const PREFIX: Bytes := [109, 101, 109, 111, 114, 101, 112, 111, 45, 115, 110, 97, 112, 115, 104, 111, 116, 45, 115,
                          111, 117, 114, 99, 101, 45, 105, 110, 116, 101, 103, 114, 105, 116, 121, 45, 118, 49, 0]

  datatype File = File(path: Bytes, size: nat, sha: Bytes)

  datatype Manifest = Manifest(
    schemaVersion: int, algorithm: string, sourceDirectory: Bytes, treeSha: Bytes,
    rootDigest: Bytes, fileCount: int, totalBytes: int, files: seq<File>)

  // ---------- Order ----------

  // compareUtf8(a, b) < 0
  predicate Less(a: Bytes, b: Bytes) {
    b != [] && (a == [] || a[0] < b[0] || (a[0] == b[0] && Less(a[1..], b[1..])))
  }

  function Insert(f: File, list: seq<File>): seq<File> {
    if list == [] || !Less(list[0].path, f.path) then [f] + list else [list[0]] + Insert(f, list[1..])
  }

  // Array.prototype.sort(compareIntegrityFiles), which is stable.
  function Sort(files: seq<File>): seq<File> {
    if files == [] then [] else Insert(files[0], Sort(files[1..]))
  }

  // ---------- Root digest ----------

  function EncodeFile(f: File): Bytes {
    Digits(|f.path|) + [COLON] + f.path + [NUL] + Digits(f.size) + [NUL] + f.sha + [NUL]
  }

  function EncodeFiles(files: seq<File>): Bytes {
    if files == [] then [] else EncodeFile(files[0]) + EncodeFiles(files[1..])
  }

  // snapshotSourceRootDigest
  function RootDigest(files: seq<File>): Bytes { PREFIX + EncodeFiles(Sort(files)) }

  // ---------- The directory walk ----------

  datatype Node = FileNode(size: nat, sha: Bytes) | Directory(entries: seq<Entry>) | SymbolicLink | Other

  datatype Entry = Entry(name: Bytes, node: Node)

  datatype Leaf = Leaf(segments: seq<Bytes>, size: nat, sha: Bytes)

  // segments.join("/")
  function Join(segments: seq<Bytes>): Bytes {
    if segments == [] then [] else if |segments| == 1 then segments[0] else segments[0] + [SLASH] + Join(segments[1..])
  }

  // value.split("/")
  function Split(s: Bytes): (r: seq<Bytes>)
    ensures r != []
  {
    if s == [] then [[]]
    else
      var rest := Split(s[1..]);
      if s[0] == SLASH then [[]] + rest else [[s[0]] + rest[0]] + rest[1..]
  }

  // walkSnapshotSource; None when it rejects an entry.
  function Walk(entries: seq<Entry>, segments: seq<Bytes>): Option<seq<Leaf>>
    decreases entries, 1
  {
    if entries == [] then Some([])
    else
      var first := Visit(entries[0], segments + [entries[0].name]);
      var others := Walk(entries[1..], segments);
      if first.None? || others.None? then None else Some(first.value + others.value)
  }

  function Visit(entry: Entry, segments: seq<Bytes>): Option<seq<Leaf>>
    decreases entry, 0
  {
    match entry.node
    case FileNode(size, sha) => Some([Leaf(segments, size, sha)])
    case Directory(children) => Walk(children, segments)
    case SymbolicLink => None
    case Other => None
  }

  function Listed(leaves: seq<Leaf>): seq<File> {
    if leaves == [] then [] else [File(Join(leaves[0].segments), leaves[0].size, leaves[0].sha)] + Listed(leaves[1..])
  }

  // snapshotSourceFiles
  function SourceFiles(tree: seq<Entry>): Option<seq<File>> {
    var leaves := Walk(tree, []);
    if leaves.None? then None else Some(Sort(Listed(leaves.value)))
  }

  // ---------- Creation, validation, verification ----------

  function LowerHex(b: byte): byte { if 65 <= b <= 70 then b + 32 else b }

  function Lower(s: Bytes): (r: Bytes)
    ensures |r| == |s| && forall k :: 0 <= k < |s| ==> r[k] == LowerHex(s[k])
  {
    if s == [] then [] else [LowerHex(s[0])] + Lower(s[1..])
  }

  predicate IsHex(s: Bytes) { forall k :: 0 <= k < |s| ==> IsDigit(s[k]) || 97 <= LowerHex(s[k]) <= 102 }

  predicate IsTreeSha(s: Bytes) { IsHex(s) && (|s| == 40 || |s| == 64) }

  predicate IsDigest(s: Bytes) { IsHex(s) && |s| == 64 }

  function Total(files: seq<File>): nat {
    if files == [] then 0 else files[0].size + Total(files[1..])
  }

  // createSnapshotSourceIntegrityManifest; None when it throws.
  function Create(tree: seq<Entry>, directory: Bytes, treeSha: Bytes): Option<Manifest> {
    var files := SourceFiles(tree);
    if !IsTreeSha(treeSha) || files.None? then None else
    Some(Manifest(1, "sha256", directory, Lower(treeSha), RootDigest(files.value), |files.value|, Total(files.value),
                  files.value))
  }

  predicate IsSafeSegment(s: Bytes) { s != [] && s != [46] && s != [46, 46] }

  predicate IsSafePath(path: Bytes) {
    && path != [] && BACKSLASH !in path && NUL !in path && path[0] != SLASH
    && forall k :: 0 <= k < |Split(path)| ==> IsSafeSegment(Split(path)[k])
  }

  predicate IsSafeNat(n: int) { 0 <= n <= MAX_SAFE_INTEGER }

  predicate IsBaseName(s: Bytes) { s != [] && SLASH !in s }

  // validateIntegrityFile
  predicate IsValidFile(f: File) { IsSafePath(f.path) && IsSafeNat(f.size) && IsDigest(f.sha) }

  function Normalized(files: seq<File>): (r: seq<File>)
    ensures |r| == |files| && forall k :: 0 <= k < |files| ==> r[k] == files[k].(sha := Lower(files[k].sha))
  {
    if files == [] then [] else [files[0].(sha := Lower(files[0].sha))] + Normalized(files[1..])
  }

  predicate DistinctPaths(files: seq<File>) {
    forall m, n :: 0 <= m < n < |files| ==> files[m].path != files[n].path
  }

  // validateSnapshotSourceIntegrityManifest; None when it throws.
  function Validate(m: Manifest): Option<Manifest> {
    if m.schemaVersion != 1 || m.algorithm != "sha256" then None
    else if !IsBaseName(m.sourceDirectory) || !IsTreeSha(m.treeSha) then None
    else if !IsSafeNat(m.fileCount) || !IsSafeNat(m.totalBytes) then None
    else if exists k :: 0 <= k < |m.files| && !IsValidFile(m.files[k]) then None
    else
      var files := Normalized(m.files);
      if |files| != m.fileCount || Total(files) != m.totalBytes then None
      else if files != Sort(files) || !DistinctPaths(files) then None
      else if RootDigest(files) != m.rootDigest then None
      else Some(m.(treeSha := Lower(m.treeSha), files := files))
  }

  datatype Verdict = Valid(manifest: Manifest) | Invalid(reason: string)

  // verifySnapshotSourceIntegrity; `stored` is None when the manifest file cannot be read.
  function Verify(tree: seq<Entry>, directory: Bytes, stored: Option<Manifest>, expectedTreeSha: Bytes): Verdict {
    var manifest := if stored.None? then None else Validate(stored.value);
    if manifest.None? then Invalid("manifest_unavailable_or_invalid")
    else if manifest.value.sourceDirectory != directory then Invalid("source_directory_mismatch")
    else if manifest.value.treeSha != Lower(expectedTreeSha) then Invalid("tree_sha_mismatch")
    else
      var actual := Create(tree, directory, expectedTreeSha);
      if actual.None? then Invalid("manifest_unavailable_or_invalid")
      else if actual.value.rootDigest != manifest.value.rootDigest then Invalid("root_digest_mismatch")
      else if actual.value.fileCount != manifest.value.fileCount then Invalid("file_count_mismatch")
      else if actual.value.totalBytes != manifest.value.totalBytes then Invalid("total_bytes_mismatch")
      else if actual.value.files != manifest.value.files then Invalid("file_manifest_mismatch")
      else Valid(manifest.value)
  }

  // ---------- The loops ----------

  // The hash state after the updates of snapshotSourceRootDigest.
  method HashFiles(files: seq<File>) returns (hashed: Bytes)
    ensures hashed == RootDigest(files)
  {
    hashed := PREFIX;
    var sorted := Sort(files);
    var k := 0;
    while k < |sorted|
      invariant 0 <= k <= |sorted|
      invariant hashed + EncodeFiles(sorted[k..]) == PREFIX + EncodeFiles(sorted)
    {
      EncodeSplits(hashed, sorted, k);
      hashed := HashFile(hashed, sorted[k]);
      k := k + 1;
    }
  }

  // The three updates for one file.
  method HashFile(before: Bytes, f: File) returns (hashed: Bytes)
    ensures hashed == before + EncodeFile(f)
  {
    hashed := before + Digits(|f.path|) + [COLON] + f.path + [NUL];
    hashed := hashed + Digits(f.size) + [NUL];
    hashed := hashed + f.sha + [NUL];
  }

  lemma EncodeSplits(hashed: Bytes, files: seq<File>, k: nat)
    requires k < |files|
    ensures (hashed + EncodeFile(files[k])) + EncodeFiles(files[k + 1..]) == hashed + EncodeFiles(files[k..])
  {
    assert files[k..][0] == files[k] && files[k..][1..] == files[k + 1..];
  }

  // walkSnapshotSource pushing onto `files`; false when it throws.
  method WalkSnapshotSource(entries: seq<Entry>, segments: seq<Bytes>, files: seq<File>)
    returns (ok: bool, all: seq<File>)
    ensures ok <==> Walk(entries, segments).Some?
    ensures ok ==> all == files + Listed(Walk(entries, segments).value)
    decreases entries
  {
    all, ok := files, true;
    ghost var whole := Walk(entries, segments);
    var k := 0;
    while k < |entries|
      invariant 0 <= k <= |entries|
      invariant whole.Some? <==> Walk(entries[k..], segments).Some?
      invariant whole.Some? ==> all + Listed(Walk(entries[k..], segments).value) == files + Listed(whole.value)
    {
      var next := segments + [entries[k].name];
      ghost var rest := Walk(entries[k + 1..], segments);
      assert entries[k..][0] == entries[k] && entries[k..][1..] == entries[k + 1..];
      ghost var first := Visit(entries[k], next);
      if first.Some? && rest.Some? { ListedConcat(first.value, rest.value); }
      match entries[k].node {
        case FileNode(size, sha) => all := all + [File(Join(next), size, sha)];
        case Directory(children) => ok, all := WalkSnapshotSource(children, next, all);
        case SymbolicLink => ok := false;
        case Other => ok := false;
      }
      if !ok { return; }
      k := k + 1;
    }
  }

  lemma {:induction false} ListedConcat(a: seq<Leaf>, b: seq<Leaf>)
    ensures Listed(a + b) == Listed(a) + Listed(b)
  {
    if a == [] {
      assert a + b == b;
    } else {
      ListedConcat(a[1..], b);
      assert (a + b)[1..] == a[1..] + b;
    }
  }
}
