/**
 The match list of searchSnapshotText of apps/api/src/services/snapshotSourceTools.ts: which lines match, and
 the entries they give, in the order of the repositories, their files and the lines.  Lower-casing, the glob
 and extension filters, the size of a serialised match and the clock are parameters.
 */
module SearchMatches {
  import opened Wrappers

  const MAX_FILE_BYTES := 1024 * 1024

  // Binary: a NUL among the first 8 KiB, or not UTF-8.
  datatype Body = Binary | Text(lines: seq<string>)

  datatype SourceFile = SourceFile(path: string, size: nat, body: Body)

  datatype Repository = Repository(project: string, files: seq<SourceFile>)

  datatype Match = Match(project: string, path: string, line: nat, context: string)

  datatype Query = Query(
    needle: string, caseSensitive: bool, pathPrefix: Option<string>,
    fold: string -> string, accepts: string -> bool, cost: Match -> nat, expired: nat -> bool)

  // ---------- Which lines match ----------

  predicate OccursAt(s: string, needle: string, k: nat) {
    k + |needle| <= |s| && s[k..k + |needle|] == needle
  }

  // String.prototype.indexOf, or |s| + 1 when there is no occurrence.
  function FindFrom(s: string, needle: string, k: nat): (r: nat)
    requires k <= |s| + 1
    ensures r <= |s| + 1 && (r <= |s| ==> OccursAt(s, needle, r))
    ensures forall j :: k <= j < r ==> !OccursAt(s, needle, j)
    decreases |s| + 1 - k
  {
    if k > |s| || OccursAt(s, needle, k) then k else FindFrom(s, needle, k + 1)
  }

  function Folded(q: Query, s: string): string { if q.caseSensitive then s else q.fold(s) }

  predicate LineMatches(q: Query, line: string) {
    FindFrom(Folded(q, line), Folded(q, q.needle), 0) <= |Folded(q, line)|
  }

  // compactContext: at most 100 characters either side of the first occurrence.
  function Context(q: Query, line: string): string {
    var index := FindFrom(Folded(q, line), Folded(q, q.needle), 0);
    var start := if index > 100 then index - 100 else 0;
    var end := if index + |q.needle| + 100 < |line| then index + |q.needle| + 100 else |line|;
    (if start > 0 then ['\U{2026}'] else [])
    + (if start <= end then line[start..end] else [])
    + (if end < |line| then ['\U{2026}'] else [])
  }

  predicate IsPrefixed(prefix: string, path: string) { path == prefix || prefix + "/" <= path }

  predicate Selected(q: Query, f: SourceFile) {
    (q.pathPrefix.Some? ==> IsPrefixed(q.pathPrefix.value, f.path)) && q.accepts(f.path)
  }

  // ---------- The full ordered match list ----------

  function MatchAt(q: Query, project: string, path: string, lines: seq<string>, k: nat): seq<Match>
    requires k < |lines|
  {
    if LineMatches(q, lines[k]) then [Match(project, path, k + 1, Context(q, lines[k]))] else []
  }

  function MatchesFrom(q: Query, project: string, path: string, lines: seq<string>, k: nat): seq<Match>
    requires k <= |lines|
    decreases |lines| - k
  {
    if k == |lines| then [] else MatchAt(q, project, path, lines, k) + MatchesFrom(q, project, path, lines, k + 1)
  }

  function FileMatches(q: Query, project: string, f: SourceFile): seq<Match> {
    if Selected(q, f) && f.size <= MAX_FILE_BYTES && f.body.Text? then
      MatchesFrom(q, project, f.path, f.body.lines, 0)
    else []
  }

  function RepositoryMatches(q: Query, project: string, files: seq<SourceFile>): seq<Match> {
    if files == [] then [] else FileMatches(q, project, files[0]) + RepositoryMatches(q, project, files[1..])
  }

  function AllMatches(q: Query, repositories: seq<Repository>): seq<Match> {
    if repositories == [] then []
    else RepositoryMatches(q, repositories[0].project, repositories[0].files) + AllMatches(q, repositories[1..])
  }
}
