/** The match list stated by positions, apart from how it is computed. */
module SearchListings {
  import opened Wrappers
  import opened SearchMatches

  // ---------- Positions ----------

  datatype Position = Position(repository: nat, file: nat, line: nat)

  predicate Precedes(a: Position, b: Position) {
    || a.repository < b.repository
    || (a.repository == b.repository && (a.file < b.file || (a.file == b.file && a.line < b.line)))
  }

  predicate Within(p: Position, lo: Position, hi: Position) { !Precedes(p, lo) && Precedes(p, hi) }

  // Under the path prefix, and accepted by the glob and the extensions.
  ghost predicate Wanted(q: Query, path: string) {
    && q.accepts(path)
    && match q.pathPrefix
       case None => true
       case Some(prefix) =>
         path == prefix || (|path| > |prefix| && path[..|prefix|] == prefix && path[|prefix|] == '/')
  }

  // A line of a wanted text file of at most 1 MiB.
  ghost predicate IsLine(q: Query, repositories: seq<Repository>, p: Position) {
    && p.repository < |repositories| && p.file < |repositories[p.repository].files|
    && var f := repositories[p.repository].files[p.file];
       Wanted(q, f.path) && f.size <= 1_048_576 && f.body.Text? && p.line < |f.body.lines|
  }

  ghost predicate Contains(s: string, needle: string) { exists k: nat :: OccursAt(s, needle, k) }

  // The line contains the query, both folded unless the search is case-sensitive.
  ghost predicate Holds(q: Query, line: string) {
    if q.caseSensitive then Contains(line, q.needle) else Contains(q.fold(line), q.fold(q.needle))
  }

  ghost predicate IsHit(q: Query, repositories: seq<Repository>, p: Position) {
    IsLine(q, repositories, p) && Holds(q, repositories[p.repository].files[p.file].body.lines[p.line])
  }

  ghost predicate FirstAt(s: string, needle: string, k: nat) {
    OccursAt(s, needle, k) && forall j: nat :: j < k ==> !OccursAt(s, needle, j)
  }

  // The line from 100 characters before the first occurrence to 100 characters after as many characters as
  // the query has, with an ellipsis at every end that is cut.
  ghost predicate IsExcerpt(line: string, needle: string, k: nat, context: string) {
    var start := if k < 100 then 0 else k - 100;
    var end := if k + |needle| + 100 > |line| then |line| else k + |needle| + 100;
    var middle := if start <= end then line[start..end] else "";
    var front := if k > 100 then "\U{2026}" + middle else middle;
    context == if k + |needle| + 100 < |line| then front + "\U{2026}" else front
  }

  // The excerpt shows the first occurrence in the line.
  ghost predicate Shows(q: Query, line: string, context: string) {
    exists k: nat ::
      && (if q.caseSensitive then FirstAt(line, q.needle, k) else FirstAt(q.fold(line), q.fold(q.needle), k))
      && IsExcerpt(line, q.needle, k, context)
  }

  ghost predicate Describes(q: Query, repositories: seq<Repository>, p: Position, m: Match)
    requires IsLine(q, repositories, p)
  {
    var f := repositories[p.repository].files[p.file];
    && m.project == repositories[p.repository].project && m.path == f.path && m.line == p.line + 1
    && Shows(q, f.body.lines[p.line], m.context)
  }

  // The entry of line k of a file.
  ghost predicate LineEntry(q: Query, project: string, path: string, lines: seq<string>, k: nat, m: Match) {
    && k < |lines| && Holds(q, lines[k]) && Shows(q, lines[k], m.context)
    && m.project == project && m.path == path && m.line == k + 1
  }

  // `found` are the entries of the lines `ks`, which are the ones from the line `from` on that hold the query.
  ghost predicate LineList(q: Query, project: string, path: string, lines: seq<string>, from: nat,
                           found: seq<Match>, ks: seq<nat>)
  {
    && |found| == |ks| && (forall n, m :: 0 <= n < m < |ks| ==> ks[n] < ks[m])
    && (forall n :: 0 <= n < |ks| ==> from <= ks[n] && LineEntry(q, project, path, lines, ks[n], found[n]))
    && forall k :: from <= k < |lines| && Holds(q, lines[k]) ==> k in ks
  }

  // A file contributes these entries.
  ghost predicate ListsFile(q: Query, project: string, path: string, lines: seq<string>, found: seq<Match>) {
    exists ks :: LineList(q, project, path, lines, 0, found, ks)
  }

  ghost predicate Increasing(positions: seq<Position>) {
    forall n, m :: 0 <= n < m < |positions| ==> Precedes(positions[n], positions[m])
  }

  ghost predicate Entry(q: Query, repositories: seq<Repository>, p: Position, m: Match, lo: Position, hi: Position) {
    Within(p, lo, hi) && IsHit(q, repositories, p) && Describes(q, repositories, p, m)
  }

  ghost predicate Covers(q: Query, repositories: seq<Repository>, positions: seq<Position>, lo: Position,
                         hi: Position)
  {
    forall p :: Within(p, lo, hi) && IsHit(q, repositories, p) ==> p in positions
  }

  ghost predicate Entries(q: Query, repositories: seq<Repository>, list: seq<Match>, positions: seq<Position>,
                          lo: Position, hi: Position)
  {
    |list| == |positions| &&
    forall n :: 0 <= n < |positions| ==> Entry(q, repositories, positions[n], list[n], lo, hi)
  }

  // The positions are those of the hits between lo and hi, and the list describes them one by one.
  ghost predicate Lists(q: Query, repositories: seq<Repository>, list: seq<Match>, positions: seq<Position>,
                        lo: Position, hi: Position)
  {
    && Increasing(positions) && Covers(q, repositories, positions, lo, hi)
    && Entries(q, repositories, list, positions, lo, hi)
  }

  // Every hit of the repositories once and in order.
  ghost predicate IsListing(q: Query, repositories: seq<Repository>, list: seq<Match>) {
    exists positions :: Lists(q, repositories, list, positions, Position(0, 0, 0), Position(|repositories|, 0, 0))
  }

  // ---------- The computed list is one ----------

  lemma IncreasingJoined(ps: seq<Position>, qs: seq<Position>, mid: Position)
    requires Increasing(ps) && Increasing(qs)
    requires forall n :: 0 <= n < |ps| ==> Precedes(ps[n], mid)
    requires forall n :: 0 <= n < |qs| ==> !Precedes(qs[n], mid)
    ensures Increasing(ps + qs)
  {
    forall n, m | 0 <= n < m < |ps + qs| ensures Precedes((ps + qs)[n], (ps + qs)[m]) {
      if n < |ps| <= m { assert Precedes(ps[n], mid) && !Precedes(qs[m - |ps|], mid); }
    }
  }

  lemma CoversJoined(q: Query, repositories: seq<Repository>, ps: seq<Position>, qs: seq<Position>,
                     lo: Position, mid: Position, hi: Position)
    requires Covers(q, repositories, ps, lo, mid) && Covers(q, repositories, qs, mid, hi)
    ensures Covers(q, repositories, ps + qs, lo, hi)
  {
    forall p | Within(p, lo, hi) && IsHit(q, repositories, p) ensures p in ps + qs {
      assert Within(p, lo, mid) || Within(p, mid, hi);
    }
  }

  lemma Widened(q: Query, repositories: seq<Repository>, p: Position, m: Match, lo: Position, hi: Position,
                lower: Position, higher: Position)
    requires Entry(q, repositories, p, m, lo, hi) && !Precedes(lo, lower) && !Precedes(higher, hi)
    ensures Entry(q, repositories, p, m, lower, higher) && Within(p, lo, hi)
  {}

  lemma EntriesWiden(q: Query, repositories: seq<Repository>, list: seq<Match>, ps: seq<Position>, lo: Position,
                     hi: Position, lower: Position, higher: Position)
    requires Entries(q, repositories, list, ps, lo, hi) && !Precedes(lo, lower) && !Precedes(higher, hi)
    ensures Entries(q, repositories, list, ps, lower, higher)
    ensures forall n :: 0 <= n < |ps| ==> Within(ps[n], lo, hi)
  {
    forall n | 0 <= n < |ps| ensures Entry(q, repositories, ps[n], list[n], lower, higher) && Within(ps[n], lo, hi) {
      Widened(q, repositories, ps[n], list[n], lo, hi, lower, higher);
    }
  }

  // What holds of two lists pair by pair holds of their concatenations.
  lemma PairsJoin<A, B>(good: (A, B) -> bool, a: seq<A>, x: seq<B>, b: seq<A>, y: seq<B>)
    requires |a| == |x| && |b| == |y|
    requires forall n :: 0 <= n < |a| ==> good(a[n], x[n])
    requires forall n :: 0 <= n < |b| ==> good(b[n], y[n])
    ensures forall n :: 0 <= n < |a + b| ==> good((a + b)[n], (x + y)[n])
  {}

  lemma Joined(q: Query, repositories: seq<Repository>, a: seq<Match>, ps: seq<Position>, b: seq<Match>,
               qs: seq<Position>, lo: Position, mid: Position, hi: Position)
    requires Lists(q, repositories, a, ps, lo, mid) && Lists(q, repositories, b, qs, mid, hi)
    requires !Precedes(mid, lo) && !Precedes(hi, mid)
    ensures Lists(q, repositories, a + b, ps + qs, lo, hi)
  {
    EntriesWiden(q, repositories, a, ps, lo, mid, lo, hi);
    EntriesWiden(q, repositories, b, qs, mid, hi, lo, hi);
    IncreasingJoined(ps, qs, mid);
    CoversJoined(q, repositories, ps, qs, lo, mid, hi);
    PairsJoin((p, m) => Entry(q, repositories, p, m, lo, hi), ps, a, qs, b);
  }

  lemma MatchesExactly(q: Query, line: string)
    ensures LineMatches(q, line) <==> Holds(q, line)
  {
    var s, needle := Folded(q, line), Folded(q, q.needle);
    var first := FindFrom(s, needle, 0);
    if k: nat :| OccursAt(s, needle, k) { assert first <= k; }
  }

  lemma ContextShows(q: Query, line: string)
    requires LineMatches(q, line)
    ensures Shows(q, line, Context(q, line))
  {
    var k := FindFrom(Folded(q, line), Folded(q, q.needle), 0);
    assert IsExcerpt(line, q.needle, k, Context(q, line));
  }

  lemma {:induction false} LinesListed(q: Query, project: string, path: string, lines: seq<string>, from: nat)
    returns (ks: seq<nat>)
    requires from <= |lines|
    ensures LineList(q, project, path, lines, from, MatchesFrom(q, project, path, lines, from), ks)
    decreases |lines| - from
  {
    ks := [];
    if from < |lines| {
      var rest := LinesListed(q, project, path, lines, from + 1);
      var found := MatchesFrom(q, project, path, lines, from + 1);
      MatchesExactly(q, lines[from]);
      if LineMatches(q, lines[from]) {
        ContextShows(q, lines[from]);
        ks := [from] + rest;
        LineAdded(q, project, path, lines, from, found, rest, Match(project, path, from + 1, Context(q, lines[from])));
      } else {
        ks := rest;
        LineSkipped(q, project, path, lines, from, found, rest);
        assert [] + found == found;
      }
    }
  }

  lemma LineAdded(q: Query, project: string, path: string, lines: seq<string>, from: nat, found: seq<Match>,
                  ks: seq<nat>, m: Match)
    requires LineList(q, project, path, lines, from + 1, found, ks) && LineEntry(q, project, path, lines, from, m)
    ensures LineList(q, project, path, lines, from, [m] + found, [from] + ks)
  {
    PairsJoin((k, e) => from <= k && LineEntry(q, project, path, lines, k, e), [from], [m], ks, found);
    NumbersAdded(from, ks);
  }

  lemma NumbersAdded(from: nat, ks: seq<nat>)
    requires (forall n :: 0 <= n < |ks| ==> from < ks[n]) && forall n, m :: 0 <= n < m < |ks| ==> ks[n] < ks[m]
    ensures forall n, m :: 0 <= n < m < |[from] + ks| ==> ([from] + ks)[n] < ([from] + ks)[m]
    ensures forall k :: k == from || k in ks ==> k in [from] + ks
  {
    assert forall n :: 0 < n < |[from] + ks| ==> ([from] + ks)[n] == ks[n - 1];
  }

  lemma LineSkipped(q: Query, project: string, path: string, lines: seq<string>, from: nat, found: seq<Match>,
                    ks: seq<nat>)
    requires from < |lines| && !Holds(q, lines[from]) && LineList(q, project, path, lines, from + 1, found, ks)
    ensures LineList(q, project, path, lines, from, found, ks)
  {}

  lemma MatchesListFile(q: Query, project: string, path: string, lines: seq<string>)
    ensures ListsFile(q, project, path, lines, MatchesFrom(q, project, path, lines, 0))
  {
    var ks := LinesListed(q, project, path, lines, 0);
  }

  lemma NoHits(q: Query, repositories: seq<Repository>, lo: Position, hi: Position)
    requires forall p :: Within(p, lo, hi) ==> !IsHit(q, repositories, p)
    ensures Lists(q, repositories, [], [], lo, hi)
  {}

  lemma WantedExactly(q: Query, f: SourceFile)
    ensures Selected(q, f) <==> Wanted(q, f.path)
  {
    if q.pathPrefix.Some? {
      var prefix := q.pathPrefix.value;
      if prefix + "/" <= f.path { assert f.path[|prefix|] == (prefix + "/")[|prefix|]; }
      if |f.path| > |prefix| && f.path[..|prefix|] == prefix && f.path[|prefix|] == '/' {
        assert f.path[..|prefix| + 1] == prefix + "/";
      }
    }
  }

  // The lines of one file as positions.
  lemma Placed(q: Query, repositories: seq<Repository>, r: nat, f: nat, found: seq<Match>, ks: seq<nat>)
    returns (positions: seq<Position>)
    requires r < |repositories| && f < |repositories[r].files|
    requires var file := repositories[r].files[f];
      && Wanted(q, file.path) && file.size <= MAX_FILE_BYTES && file.body.Text?
      && LineList(q, repositories[r].project, file.path, file.body.lines, 0, found, ks)
    ensures Lists(q, repositories, found, positions, Position(r, f, 0), Position(r, f + 1, 0))
  {
    var lo, hi := Position(r, f, 0), Position(r, f + 1, 0);
    var project, file := repositories[r].project, repositories[r].files[f];
    positions := seq(|ks|, n requires 0 <= n < |ks| => Position(r, f, ks[n]));
    forall n | 0 <= n < |positions| ensures Entry(q, repositories, positions[n], found[n], lo, hi) {
      assert LineEntry(q, project, file.path, file.body.lines, ks[n], found[n]);
    }
    forall p | Within(p, lo, hi) && IsHit(q, repositories, p) ensures p in positions {
      var n :| 0 <= n < |ks| && ks[n] == p.line;
      assert positions[n] == p;
    }
  }

  lemma FileListed(q: Query, repositories: seq<Repository>, r: nat, f: nat) returns (positions: seq<Position>)
    requires r < |repositories| && f < |repositories[r].files|
    ensures Lists(q, repositories, FileMatches(q, repositories[r].project, repositories[r].files[f]), positions,
                  Position(r, f, 0), Position(r, f + 1, 0))
  {
    var project, file := repositories[r].project, repositories[r].files[f];
    var lo, hi := Position(r, f, 0), Position(r, f + 1, 0);
    WantedExactly(q, file);
    if Selected(q, file) && file.size <= MAX_FILE_BYTES && file.body.Text? {
      var ks := LinesListed(q, project, file.path, file.body.lines, 0);
      positions := Placed(q, repositories, r, f, MatchesFrom(q, project, file.path, file.body.lines, 0), ks);
    } else {
      assert forall p :: Within(p, lo, hi) ==> p.repository == r && p.file == f;
      positions := [];
      NoHits(q, repositories, lo, hi);
    }
  }

  lemma {:induction false} FilesListed(q: Query, repositories: seq<Repository>, r: nat, f: nat)
    returns (positions: seq<Position>)
    requires r < |repositories| && f <= |repositories[r].files|
    ensures Lists(q, repositories, RepositoryMatches(q, repositories[r].project, repositories[r].files[f..]), positions,
                  Position(r, f, 0), Position(r + 1, 0, 0))
    decreases |repositories[r].files| - f
  {
    var project, files := repositories[r].project, repositories[r].files;
    if f == |files| {
      positions := [];
      NoHits(q, repositories, Position(r, f, 0), Position(r + 1, 0, 0));
    } else {
      var here := FileListed(q, repositories, r, f);
      var rest := FilesListed(q, repositories, r, f + 1);
      positions := here + rest;
      assert files[f..][0] == files[f] && files[f..][1..] == files[f + 1..];
      Joined(q, repositories, FileMatches(q, project, files[f]), here,
             RepositoryMatches(q, project, files[f + 1..]), rest,
             Position(r, f, 0), Position(r, f + 1, 0), Position(r + 1, 0, 0));
    }
  }

  lemma {:induction false} RepositoriesListed(q: Query, repositories: seq<Repository>, r: nat)
    returns (positions: seq<Position>)
    requires r <= |repositories|
    ensures Lists(q, repositories, AllMatches(q, repositories[r..]), positions,
                  Position(r, 0, 0), Position(|repositories|, 0, 0))
    decreases |repositories| - r
  {
    var end := Position(|repositories|, 0, 0);
    if r == |repositories| {
      positions := [];
      NoHits(q, repositories, Position(r, 0, 0), end);
    } else {
      var repository := repositories[r];
      var here := FilesListed(q, repositories, r, 0);
      var rest := RepositoriesListed(q, repositories, r + 1);
      positions := here + rest;
      assert repository.files[0..] == repository.files;
      assert repositories[r..][0] == repository && repositories[r..][1..] == repositories[r + 1..];
      Joined(q, repositories, RepositoryMatches(q, repository.project, repository.files), here,
             AllMatches(q, repositories[r + 1..]), rest, Position(r, 0, 0), Position(r + 1, 0, 0), end);
    }
  }

  /** The computed match list has exactly the hits, in order. */
  lemma AllMatchesIsListing(q: Query, repositories: seq<Repository>)
    ensures IsListing(q, repositories, AllMatches(q, repositories))
  {
    var positions := RepositoriesListed(q, repositories, 0);
    assert repositories[0..] == repositories;
  }

  // ---------- There is only one ----------

  ghost predicate SameElements(a: seq<Position>, b: seq<Position>) { forall p :: p in a <==> p in b }

  lemma BothEmpty(a: seq<Position>, b: seq<Position>)
    requires SameElements(a, b)
    ensures a == [] <==> b == []
  {
    if a != [] { assert a[0] in b; }
    if b != [] { assert b[0] in a; }
  }

  lemma TailsAgree(a: seq<Position>, b: seq<Position>)
    requires Increasing(a) && Increasing(b) && SameElements(a, b) && a != [] && b != []
    ensures a[0] == b[0] && SameElements(a[1..], b[1..])
  {
    assert a[0] in b && b[0] in a;
    assert a == [a[0]] + a[1..] && b == [b[0]] + b[1..];
    forall p ensures p in a[1..] <==> p in b[1..] {
      assert p in a[1..] ==> p in a && Precedes(a[0], p);
      assert p in b[1..] ==> p in b && Precedes(b[0], p);
    }
  }

  lemma {:induction false} SamePositions(a: seq<Position>, b: seq<Position>)
    requires Increasing(a) && Increasing(b) && SameElements(a, b)
    ensures a == b
  {
    BothEmpty(a, b);
    if a != [] {
      TailsAgree(a, b);
      SamePositions(a[1..], b[1..]);
      assert a == [a[0]] + a[1..] && b == [b[0]] + b[1..];
    }
  }

  lemma SameExcerpt(q: Query, repositories: seq<Repository>, p: Position, a: Match, b: Match)
    requires IsLine(q, repositories, p) && Describes(q, repositories, p, a) && Describes(q, repositories, p, b)
    ensures a == b
  {}

  lemma ListedIsCovered(q: Query, repositories: seq<Repository>, list: seq<Match>, ps: seq<Position>,
                        qs: seq<Position>, lo: Position, hi: Position)
    requires Lists(q, repositories, list, ps, lo, hi) && Covers(q, repositories, qs, lo, hi)
    ensures forall p :: p in ps ==> p in qs
  {
    forall p | p in ps ensures p in qs {
      var n :| 0 <= n < |ps| && ps[n] == p;
      assert Entry(q, repositories, ps[n], list[n], lo, hi);
    }
  }

  lemma ListsAgree(q: Query, repositories: seq<Repository>, a: seq<Match>, b: seq<Match>, ps: seq<Position>,
                   lo: Position, hi: Position)
    requires Lists(q, repositories, a, ps, lo, hi) && Lists(q, repositories, b, ps, lo, hi)
    ensures a == b
  {
    forall n | 0 <= n < |a| ensures a[n] == b[n] {
      assert Entry(q, repositories, ps[n], a[n], lo, hi) && Entry(q, repositories, ps[n], b[n], lo, hi);
      SameExcerpt(q, repositories, ps[n], a[n], b[n]);
    }
  }

  /** What is listed, and in which order, is determined. */
  lemma ListingIsUnique(q: Query, repositories: seq<Repository>, a: seq<Match>, b: seq<Match>)
    requires IsListing(q, repositories, a) && IsListing(q, repositories, b)
    ensures a == b
  {
    var lo, hi := Position(0, 0, 0), Position(|repositories|, 0, 0);
    var ps :| Lists(q, repositories, a, ps, lo, hi);
    var qs :| Lists(q, repositories, b, qs, lo, hi);
    ListedIsCovered(q, repositories, a, ps, qs, lo, hi);
    ListedIsCovered(q, repositories, b, qs, ps, lo, hi);
    SamePositions(ps, qs);
    ListsAgree(q, repositories, a, b, ps, lo, hi);
  }
}
