/**
 searchSnapshotText of apps/api/src/services/snapshotSourceTools.ts: a paged literal search under a
 clock, a scan budget and a response budget.  Lower-casing, the glob and extension filters, the size
 of a serialised match and the clock are parameters.
 */
module SourceSearch {
  import opened Wrappers
  import opened SearchListings
  import opened SearchMatches
  import opened Texts

  const MAX_SEARCH_LIMIT := 100
  const MAX_QUERY_BYTES := 1024
  const MAX_OFFSET := 1_000_000
  const MAX_SCANNED_BYTES := 32 * 1024 * 1024
  const MAX_RESPONSE_BYTES := 45 * 1024

  datatype Page = Page(
    complete: bool, searchedFiles: nat, skippedBinary: nat, skippedOversize: nat, scannedBytes: nat,
    truncated: bool, hasMore: bool, nextOffset: Option<nat>, matches: seq<Match>)

  datatype SearchError = BadQuery | BadLimit | BadOffset

  function Clamp(n: int, most: nat): nat { if n < 0 then 0 else if n > most then most else n }

  function Cost(q: Query, matches: seq<Match>): nat {
    if matches == [] then 0 else Cost(q, matches[..|matches| - 1]) + q.cost(matches[|matches| - 1])
  }

  // all[offset..offset + limit]
  function PageOf(all: seq<Match>, offset: nat, limit: nat): seq<Match> {
    all[Clamp(offset, |all|)..Clamp(offset + limit, |all|)]
  }

  // ---------- The search ----------

  // matchingCount, matches and responseBytes
  datatype Progress = Progress(count: nat, matches: seq<Match>, bytes: nat)

  ghost predicate Tracks(q: Query, offset: nat, limit: nat, p: Progress, seen: seq<Match>) {
    && p.count == |seen| && p.matches == PageOf(seen, offset, limit)
    && p.bytes == Cost(q, p.matches) <= MAX_RESPONSE_BYTES
  }

  lemma TracksNext(q: Query, offset: nat, limit: nat, p: Progress, seen: seq<Match>, m: Match)
    requires Tracks(q, offset, limit, p, seen)
    ensures PageOf(seen + [m], offset, limit) ==
      if p.count >= offset && |p.matches| < limit then p.matches + [m] else p.matches
    ensures Cost(q, p.matches + [m]) == p.bytes + q.cost(m)
  {
    assert (p.matches + [m])[..|p.matches|] == p.matches;
  }

  // One matching line; `over` reports that it belongs on the page but the response budget is exhausted.
  method Offer(q: Query, offset: nat, limit: nat, p: Progress, candidate: Match, ghost seen: seq<Match>)
    returns (next: Progress, over: bool)
    requires Tracks(q, offset, limit, p, seen)
    ensures over ==> next == p && |p.matches| < limit && offset <= |seen|
    ensures over ==> p.bytes + q.cost(candidate) > MAX_RESPONSE_BYTES
    ensures !over ==> Tracks(q, offset, limit, next, seen + [candidate])
  {
    TracksNext(q, offset, limit, p, seen, candidate);
    next, over := p, false;
    if p.count >= offset && |p.matches| < limit {
      var bytes := q.cost(candidate);
      if p.bytes + bytes > MAX_RESPONSE_BYTES { return p, true; }
      next := next.(matches := p.matches + [candidate], bytes := p.bytes + bytes);
    }
    next := next.(count := next.count + 1);
  }

  lemma Regroup(seen: seq<Match>, found: seq<Match>, rest: seq<Match>, all: seq<Match>)
    requires seen + (found + rest) == all
    ensures (seen + found) + rest == all && (found != [] ==> seen < all)
  {
  }

  // All of `found` was seen, or the part before the entry that does not fit.
  ghost predicate Took(q: Query, offset: nat, limit: nat, p: Progress, over: bool, seen0: seq<Match>, seen: seq<Match>,
                       found: seq<Match>)
  {
    if over then StoppedBefore(q, offset, limit, p, seen, seen0 + found) else seen == seen0 + found
  }

  // The loop over the lines of one file.
  method ScanLines(q: Query, offset: nat, limit: nat, project: string, path: string, lines: seq<string>, p0: Progress,
                   ghost seen0: seq<Match>)
    returns (p: Progress, over: bool, ghost seen: seq<Match>)
    requires Tracks(q, offset, limit, p0, seen0)
    ensures Tracks(q, offset, limit, p, seen)
    ensures !over ==> seen == seen0 + MatchesFrom(q, project, path, lines, 0)
    ensures !over ==> p.count == p0.count + |MatchesFrom(q, project, path, lines, 0)|
    ensures over ==> StoppedBefore(q, offset, limit, p, seen, seen0 + MatchesFrom(q, project, path, lines, 0))
  {
    p, over, seen := p0, false, seen0;
    ghost var all := seen0 + MatchesFrom(q, project, path, lines, 0);
    var index := 0;
    while index < |lines|
      invariant 0 <= index <= |lines| && !over && Tracks(q, offset, limit, p, seen)
      invariant seen + MatchesFrom(q, project, path, lines, index) == all
    {
      ghost var found, rest := MatchAt(q, project, path, lines, index), MatchesFrom(q, project, path, lines, index + 1);
      assert MatchesFrom(q, project, path, lines, index) == found + rest;
      Regroup(seen, found, rest, all);
      if LineMatches(q, lines[index]) {
        var candidate := Match(project, path, index + 1, Context(q, lines[index]));
        p, over := Offer(q, offset, limit, p, candidate, seen);
        if over { return; }
        seen := seen + [candidate];
      } else {
        seen := seen + [];
      }
      index := index + 1;
    }
  }

  // The lines of one file; it contributes the entries of exactly those that hold the query.
  method SearchLines(q: Query, offset: nat, limit: nat, project: string, path: string, lines: seq<string>, p0: Progress,
                     ghost seen0: seq<Match>)
    returns (p: Progress, over: bool, ghost seen: seq<Match>)
    requires Tracks(q, offset, limit, p0, seen0)
    ensures Tracks(q, offset, limit, p, seen)
    ensures Took(q, offset, limit, p, over, seen0, seen, MatchesFrom(q, project, path, lines, 0))
    ensures exists found ::
      ListsFile(q, project, path, lines, found) && Took(q, offset, limit, p, over, seen0, seen, found)
  {
    p, over, seen := ScanLines(q, offset, limit, project, path, lines, p0, seen0);
    MatchesListFile(q, project, path, lines);
  }

  // The next match of `all` belongs on the page and does not fit.
  ghost predicate StoppedBefore(q: Query, offset: nat, limit: nat, p: Progress, seen: seq<Match>, all: seq<Match>) {
    seen < all && |p.matches| < limit && offset <= |seen| && p.bytes + q.cost(all[|seen|]) > MAX_RESPONSE_BYTES
  }

  datatype Tally = Tally(searchedFiles: nat, skippedBinary: nat, skippedOversize: nat, scannedBytes: nat)

  // The heading a file is counted under.
  datatype Heading = Unwanted | Oversize | NotText | Searched

  ghost function HeadingOf(q: Query, f: SourceFile): Heading {
    if !Wanted(q, f.path) then Unwanted
    else if f.size > 1_048_576 then Oversize
    else if f.body.Binary? then NotText
    else Searched
  }

  ghost function CountOf(q: Query, files: seq<SourceFile>, h: Heading): nat {
    if files == [] then 0 else (if HeadingOf(q, files[0]) == h then 1 else 0) + CountOf(q, files[1..], h)
  }

  ghost function AllCount(q: Query, repositories: seq<Repository>, h: Heading): nat {
    if repositories == [] then 0 else CountOf(q, repositories[0].files, h) + AllCount(q, repositories[1..], h)
  }

  // The bytes of the files that are read.
  ghost function BytesRead(q: Query, files: seq<SourceFile>): nat {
    if files == [] then 0
    else (if HeadingOf(q, files[0]) in {NotText, Searched} then files[0].size else 0) + BytesRead(q, files[1..])
  }

  ghost function AllBytesRead(q: Query, repositories: seq<Repository>): nat {
    if repositories == [] then 0 else BytesRead(q, repositories[0].files) + AllBytesRead(q, repositories[1..])
  }

  // From t0 to t everything in `all` but `rest` has been counted.
  ghost predicate Counted(q: Query, t0: Tally, t: Tally, all: seq<SourceFile>, rest: seq<SourceFile>) {
    && t.searchedFiles + CountOf(q, rest, Searched) == t0.searchedFiles + CountOf(q, all, Searched)
    && t.skippedBinary + CountOf(q, rest, NotText) == t0.skippedBinary + CountOf(q, all, NotText)
    && t.skippedOversize + CountOf(q, rest, Oversize) == t0.skippedOversize + CountOf(q, all, Oversize)
    && t.scannedBytes + BytesRead(q, rest) == t0.scannedBytes + BytesRead(q, all)
  }

  // Everything in the repositories but `rest` has been counted.
  ghost predicate AllCounted(q: Query, t: Tally, all: seq<Repository>, rest: seq<Repository>) {
    && t.searchedFiles + AllCount(q, rest, Searched) == AllCount(q, all, Searched)
    && t.skippedBinary + AllCount(q, rest, NotText) == AllCount(q, all, NotText)
    && t.skippedOversize + AllCount(q, rest, Oversize) == AllCount(q, all, Oversize)
    && t.scannedBytes + AllBytesRead(q, rest) == AllBytesRead(q, all)
  }

  lemma CountedNext(q: Query, t0: Tally, t: Tally, next: Tally, all: seq<SourceFile>, rest: seq<SourceFile>)
    requires rest != [] && Counted(q, t0, t, all, rest) && Counted(q, t, next, [rest[0]], [])
    ensures Counted(q, t0, next, all, rest[1..])
  {
    assert [rest[0]][1..] == [];
  }

  lemma AllCountedNext(q: Query, t: Tally, next: Tally, all: seq<Repository>, rest: seq<Repository>)
    requires rest != [] && AllCounted(q, t, all, rest) && Counted(q, t, next, rest[0].files, [])
    ensures AllCounted(q, next, all, rest[1..])
  {}

  function Sizes(files: seq<SourceFile>): nat {
    if files == [] then 0 else files[0].size + Sizes(files[1..])
  }

  function AllSizes(repositories: seq<Repository>): nat {
    if repositories == [] then 0 else Sizes(repositories[0].files) + AllSizes(repositories[1..])
  }

  ghost predicate Expires(q: Query) { exists n: nat :: q.expired(n) }

  // One file, once the clock and the scan budget allow it.
  method SearchFile(q: Query, offset: nat, limit: nat, project: string, f: SourceFile, t0: Tally, p0: Progress,
                    ghost seen0: seq<Match>)
    returns (t: Tally, p: Progress, over: bool, ghost seen: seq<Match>)
    requires Tracks(q, offset, limit, p0, seen0) && t0.scannedBytes < MAX_SCANNED_BYTES
    ensures Tracks(q, offset, limit, p, seen) && t.scannedBytes < MAX_SCANNED_BYTES + MAX_FILE_BYTES
    ensures t.scannedBytes <= t0.scannedBytes + f.size
    ensures Counted(q, t0, t, [f], [])
    ensures !over ==> seen == seen0 + FileMatches(q, project, f)
    ensures over ==> StoppedBefore(q, offset, limit, p, seen, seen0 + FileMatches(q, project, f))
  {
    t, p, over, seen := t0, p0, false, seen0;
    assert seen0 + [] == seen0 && [f][1..] == [];
    WantedExactly(q, f);
    if !Selected(q, f) { return; }
    if f.size > MAX_FILE_BYTES {
      t := t.(skippedOversize := t.skippedOversize + 1);
      return;
    }
    t := t.(scannedBytes := t.scannedBytes + f.size);
    if f.body.Binary? {
      t := t.(skippedBinary := t.skippedBinary + 1);
      return;
    }
    t := t.(searchedFiles := t.searchedFiles + 1);
    p, over, seen := SearchLines(q, offset, limit, project, f.path, f.body.lines, p, seen);
  }

  datatype Stop = Finished | OutOfTime | OutOfSpace

  // `seen` is all of `all`, or the part before the exit that was taken.
  ghost predicate Outcome(q: Query, offset: nat, limit: nat, p: Progress, stop: Stop, seen: seq<Match>,
                          all: seq<Match>) {
    && Tracks(q, offset, limit, p, seen)
    && (stop.Finished? ==> seen == all)
    && (stop.OutOfTime? ==> seen <= all)
    && (stop.OutOfSpace? ==> StoppedBefore(q, offset, limit, p, seen, all))
  }

  // The nested loops; `clock` counts the files looked at, `stop` says which exit was taken.
  method SearchFiles(q: Query, offset: nat, limit: nat, project: string, files: seq<SourceFile>, clock0: nat,
                     t0: Tally, p0: Progress,
                     ghost seen0: seq<Match>)
    returns (clock: nat, t: Tally, p: Progress, stop: Stop, ghost seen: seq<Match>)
    requires Tracks(q, offset, limit, p0, seen0) && t0.scannedBytes < MAX_SCANNED_BYTES + MAX_FILE_BYTES
    ensures t.scannedBytes < MAX_SCANNED_BYTES + MAX_FILE_BYTES && t.scannedBytes <= t0.scannedBytes + Sizes(files)
    ensures stop.OutOfTime? ==> Expires(q) || t.scannedBytes >= MAX_SCANNED_BYTES
    ensures Outcome(q, offset, limit, p, stop, seen, seen0 + RepositoryMatches(q, project, files))
    ensures stop.Finished? ==> Counted(q, t0, t, files, [])
  {
    clock, t, p, stop, seen := clock0, t0, p0, Finished, seen0;
    ghost var all := seen0 + RepositoryMatches(q, project, files);
    var k := 0;
    while k < |files|
      invariant 0 <= k <= |files| && stop.Finished? && Tracks(q, offset, limit, p, seen)
      invariant t.scannedBytes < MAX_SCANNED_BYTES + MAX_FILE_BYTES
      invariant seen + RepositoryMatches(q, project, files[k..]) == all
      invariant Counted(q, t0, t, files, files[k..])
      invariant t.scannedBytes + Sizes(files[k..]) <= t0.scannedBytes + Sizes(files)
    {
      if q.expired(clock) || t.scannedBytes >= MAX_SCANNED_BYTES {
        stop := OutOfTime;
        return;
      }
      clock := clock + 1;
      ghost var rest := RepositoryMatches(q, project, files[k + 1..]);
      assert files[k..][0] == files[k] && files[k..][1..] == files[k + 1..];
      assert seen + (FileMatches(q, project, files[k]) + rest) == seen + FileMatches(q, project, files[k]) + rest;
      var over;
      ghost var t1 := t;
      t, p, over, seen := SearchFile(q, offset, limit, project, files[k], t, p, seen);
      CountedNext(q, t0, t1, t, files, files[k..]);
      if over {
        stop := OutOfSpace;
        return;
      }
      k := k + 1;
    }
  }

  lemma NextRepository(q: Query, repositories: seq<Repository>, r: nat)
    requires r < |repositories|
    ensures AllMatches(q, repositories[r..]) ==
      RepositoryMatches(q, repositories[r].project, repositories[r].files) + AllMatches(q, repositories[r + 1..])
    ensures AllSizes(repositories[r..]) == Sizes(repositories[r].files) + AllSizes(repositories[r + 1..])
  {
    assert repositories[r..][0] == repositories[r] && repositories[r..][1..] == repositories[r + 1..];
  }

  lemma AfterRepository(q: Query, offset: nat, limit: nat, p: Progress, stop: Stop, before: seq<Match>,
                        here: seq<Match>, rest: seq<Match>,
                        seen: seq<Match>, all: seq<Match>)
    requires before + (here + rest) == all && Outcome(q, offset, limit, p, stop, seen, before + here)
    ensures if stop.Finished? then seen + rest == all else Outcome(q, offset, limit, p, stop, seen, all)
  {
    assert all == (before + here) + rest;
  }

  // After r repositories.
  ghost predicate Reached(q: Query, repositories: seq<Repository>, offset: nat, limit: nat, r: nat,
                          t: Tally, p: Progress, stop: Stop, seen: seq<Match>)
    requires r <= |repositories|
  {
    var all := AllMatches(q, repositories);
    && Scanned(q, repositories, r, t, stop)
    && (stop.Finished? ==> Tracks(q, offset, limit, p, seen) && seen + AllMatches(q, repositories[r..]) == all)
    && (!stop.Finished? ==> Outcome(q, offset, limit, p, stop, seen, all))
  }

  ghost predicate Scanned(q: Query, repositories: seq<Repository>, r: nat, t: Tally, stop: Stop)
    requires r <= |repositories|
  {
    && t.scannedBytes < MAX_SCANNED_BYTES + MAX_FILE_BYTES
    && t.scannedBytes + AllSizes(repositories[r..]) <= AllSizes(repositories)
    && (stop.Finished? ==> AllCounted(q, t, repositories, repositories[r..]))
    && (stop.OutOfTime? ==> Expires(q) || t.scannedBytes >= MAX_SCANNED_BYTES)
  }

  lemma ScannedNext(q: Query, repositories: seq<Repository>, r: nat, t0: Tally, t: Tally, stop: Stop)
    requires r < |repositories| && Scanned(q, repositories, r, t0, Finished)
    requires t.scannedBytes < MAX_SCANNED_BYTES + MAX_FILE_BYTES
    requires t.scannedBytes <= t0.scannedBytes + Sizes(repositories[r].files)
    requires stop.OutOfTime? ==> Expires(q) || t.scannedBytes >= MAX_SCANNED_BYTES
    requires stop.Finished? ==> Counted(q, t0, t, repositories[r].files, [])
    ensures Scanned(q, repositories, r + 1, t, stop)
  {
    NextRepository(q, repositories, r);
    if stop.Finished? { AllCountedNext(q, t0, t, repositories, repositories[r..]); }
    assert repositories[r..][0] == repositories[r] && repositories[r..][1..] == repositories[r + 1..];
  }

  lemma ReachedNext(q: Query, repositories: seq<Repository>, offset: nat, limit: nat, r: nat,
                    p: Progress, stop: Stop, before: seq<Match>, seen: seq<Match>)
    requires r < |repositories| && before + AllMatches(q, repositories[r..]) == AllMatches(q, repositories)
    requires var here := RepositoryMatches(q, repositories[r].project, repositories[r].files);
      Outcome(q, offset, limit, p, stop, seen, before + here)
    ensures stop.Finished? ==> seen + AllMatches(q, repositories[r + 1..]) == AllMatches(q, repositories)
    ensures !stop.Finished? ==> Outcome(q, offset, limit, p, stop, seen, AllMatches(q, repositories))
  {
    var here := RepositoryMatches(q, repositories[r].project, repositories[r].files);
    NextRepository(q, repositories, r);
    AfterRepository(q, offset, limit, p, stop, before, here, AllMatches(q, repositories[r + 1..]), seen,
                    AllMatches(q, repositories));
  }

  method SearchRepositories(q: Query, repositories: seq<Repository>, offset: nat, limit: nat)
    returns (t: Tally, p: Progress, stop: Stop, ghost seen: seq<Match>)
    ensures Scanned(q, repositories, |repositories|, t, stop)
    ensures Outcome(q, offset, limit, p, stop, seen, AllMatches(q, repositories))
  {
    t, p, stop, seen := Tally(0, 0, 0, 0), Progress(0, [], 0), Finished, [];
    var r, clock := 0, 0;
    NothingTracked(q, offset, limit, p);
    ReachedStart(q, repositories, offset, limit, t, p);
    while r < |repositories| && stop.Finished?
      invariant 0 <= r <= |repositories| && Reached(q, repositories, offset, limit, r, t, p, stop, seen)
    {
      clock, t, p, stop, seen := SearchRepository(q, repositories, offset, limit, r, clock, t, p, seen);
      r := r + 1;
    }
    ReachedEnd(q, repositories, offset, limit, r, t, p, stop, seen);
  }

  // One pass of the outer loop.
  method SearchRepository(q: Query, repositories: seq<Repository>, offset: nat, limit: nat, r: nat,
                          clock0: nat, t0: Tally, p0: Progress, ghost seen0: seq<Match>)
    returns (clock: nat, t: Tally, p: Progress, stop: Stop, ghost seen: seq<Match>)
    requires r < |repositories| && Reached(q, repositories, offset, limit, r, t0, p0, Finished, seen0)
    ensures Reached(q, repositories, offset, limit, r + 1, t, p, stop, seen)
  {
    var repository := repositories[r];
    clock, t, p, stop, seen := SearchFiles(q, offset, limit, repository.project, repository.files, clock0, t0, p0,
                                           seen0);
    ScannedNext(q, repositories, r, t0, t, stop);
    ReachedNext(q, repositories, offset, limit, r, p, stop, seen0, seen);
  }

  // An early exit leaves the rest unscanned.
  lemma StoppedAt(q: Query, repositories: seq<Repository>, r: nat, t: Tally, stop: Stop)
    requires r <= |repositories| && Scanned(q, repositories, r, t, stop) && (stop.Finished? ==> r == |repositories|)
    ensures Scanned(q, repositories, |repositories|, t, stop)
  {
    assert repositories[|repositories|..] == [];
  }

  lemma ReachedStart(q: Query, repositories: seq<Repository>, offset: nat, limit: nat, t: Tally, p: Progress)
    requires t == Tally(0, 0, 0, 0) && Tracks(q, offset, limit, p, [])
    ensures Reached(q, repositories, offset, limit, 0, t, p, Finished, [])
  {
    assert repositories[0..] == repositories;
  }

  lemma NothingTracked(q: Query, offset: nat, limit: nat, p: Progress)
    requires p.count == p.bytes == 0 && p.matches == []
    ensures Tracks(q, offset, limit, p, [])
  {}

  lemma ReachedEnd(q: Query, repositories: seq<Repository>, offset: nat, limit: nat, r: nat,
                   t: Tally, p: Progress, stop: Stop, seen: seq<Match>)
    requires r <= |repositories| && (stop.Finished? ==> r == |repositories|)
    requires Reached(q, repositories, offset, limit, r, t, p, stop, seen)
    ensures Scanned(q, repositories, |repositories|, t, stop)
    ensures Outcome(q, offset, limit, p, stop, seen, AllMatches(q, repositories))
  {
    StoppedAt(q, repositories, r, t, stop);
    assert repositories[|repositories|..] == [];
  }

  // requiredLiteral
  predicate IsQuery(needle: string) { needle != "" && '\0' !in needle && Utf8Length(needle) <= MAX_QUERY_BYTES }

  // What every returned page satisfies, `all` being the full ordered match list: at most 45 KiB of matches and
  // less than 33 MiB scanned.
  ghost predicate PageIsSound(q: Query, all: seq<Match>, offset: nat, limit: nat, page: Page) {
    && page.matches <= PageOf(all, offset, limit)
    && Cost(q, page.matches) <= 46_080 && page.scannedBytes < 34_603_008
    && (page.hasMore ==> page.matches == PageOf(all, offset, limit) && offset + |page.matches| < |all|)
    && (page.complete ==> page.matches == PageOf(all, offset, limit))
    && (page.complete ==> (page.hasMore <==> offset + |page.matches| < |all|))
    && page.nextOffset == (if page.hasMore then Some(offset + |page.matches|) else None)
    && page.truncated == (!page.complete || page.hasMore)
  }

  // It is such a page of the list of all hits.
  ghost predicate IsPage(q: Query, repositories: seq<Repository>, offset: nat, limit: nat, page: Page) {
    exists all :: IsListing(q, repositories, all) && PageIsSound(q, all, offset, limit, page)
  }

  method SearchSnapshotText(q: Query, repositories: seq<Repository>, limit: int, offset: int)
    returns (r: Result<Page, SearchError>)
    ensures r.Ok? <==>
      && q.needle != "" && '\0' !in q.needle && Utf8Length(q.needle) <= 1024
      && 1 <= limit <= 100 && 0 <= offset <= 1_000_000
    ensures r.Ok? ==> PageIsSound(q, AllMatches(q, repositories), offset, limit, r.value)
    ensures r.Ok? ==> IsPage(q, repositories, offset, limit, r.value)
    ensures r.Ok? && !r.value.complete ==> MayStop(q, repositories, offset, limit)
    ensures r.Ok? && r.value.complete ==>
      && r.value.searchedFiles == AllCount(q, repositories, Searched)
      && r.value.skippedBinary == AllCount(q, repositories, NotText)
      && r.value.skippedOversize == AllCount(q, repositories, Oversize)
      && r.value.scannedBytes == AllBytesRead(q, repositories)
  {
    if !IsQuery(q.needle) { return Err(BadQuery); }
    if limit < 1 || limit > MAX_SEARCH_LIMIT { return Err(BadLimit); }
    if offset < 0 || offset > MAX_OFFSET { return Err(BadOffset); }
    ghost var seen;
    var t, p, stop;
    t, p, stop, seen := SearchRepositories(q, repositories, offset, limit);
    var hasMore := p.count > offset + |p.matches|;
    var next := if hasMore then Some(offset + |p.matches|) else None;
    var page := Page(stop.Finished?, t.searchedFiles, t.skippedBinary, t.skippedOversize, t.scannedBytes,
                     !stop.Finished? || hasMore, hasMore, next, p.matches);
    ResultIsSound(q, repositories, offset, limit, t, p, stop, seen, page);
    AllMatchesIsListing(q, repositories);
    return Ok(page);
  }

  lemma ResultIsSound(q: Query, repositories: seq<Repository>, offset: nat, limit: nat,
                      t: Tally, p: Progress, stop: Stop, seen: seq<Match>, page: Page)
    requires Scanned(q, repositories, |repositories|, t, stop)
    requires Outcome(q, offset, limit, p, stop, seen, AllMatches(q, repositories))
    requires page.hasMore == (p.count > offset + |p.matches|) && page.matches == p.matches
    requires page.scannedBytes == t.scannedBytes && page.complete == stop.Finished?
    requires page.nextOffset == (if page.hasMore then Some(offset + |p.matches|) else None)
    requires page.truncated == (!page.complete || page.hasMore)
    ensures PageIsSound(q, AllMatches(q, repositories), offset, limit, page)
    ensures !page.complete ==> MayStop(q, repositories, offset, limit)
    ensures page.complete ==> AllCounted(q, t, repositories, [])
  {
    PageMatches(q, AllMatches(q, repositories), offset, limit, p, stop, seen, page);
    assert repositories[|repositories|..] == [];
    if stop.OutOfSpace? { PageIsTooBig(q, offset, limit, p, seen, AllMatches(q, repositories)); }
  }

  lemma PageMatches(q: Query, all: seq<Match>, offset: nat, limit: nat, p: Progress, stop: Stop, seen: seq<Match>,
                    page: Page)
    requires Outcome(q, offset, limit, p, stop, seen, all)
    requires page.hasMore == (p.count > offset + |p.matches|) && page.matches == p.matches
    requires page.complete == stop.Finished?
    ensures page.matches <= PageOf(all, offset, limit) && Cost(q, page.matches) <= MAX_RESPONSE_BYTES
    ensures page.hasMore ==> page.matches == PageOf(all, offset, limit) && offset + |page.matches| < |all|
    ensures page.complete ==> page.matches == PageOf(all, offset, limit)
    ensures page.complete ==> (page.hasMore <==> offset + |page.matches| < |all|)
  {
    PrefixPage(seen, all, offset, limit);
  }

  // The only reasons for an early exit: the clock, the scan budget or a page over the response budget.
  ghost predicate MayStop(q: Query, repositories: seq<Repository>, offset: nat, limit: nat) {
    || Expires(q) || AllSizes(repositories) >= MAX_SCANNED_BYTES
    || Cost(q, PageOf(AllMatches(q, repositories), offset, limit)) > MAX_RESPONSE_BYTES
  }

  lemma {:induction false} CostOfPrefix(q: Query, a: seq<Match>, b: seq<Match>)
    requires a <= b
    ensures Cost(q, a) <= Cost(q, b)
  {
    if |a| < |b| {
      CostOfPrefix(q, a, b[..|b| - 1]);
    } else {
      assert a == b;
    }
  }

  lemma PageIsTooBig(q: Query, offset: nat, limit: nat, p: Progress, seen: seq<Match>, all: seq<Match>)
    requires Tracks(q, offset, limit, p, seen) && StoppedBefore(q, offset, limit, p, seen, all)
    ensures Cost(q, PageOf(all, offset, limit)) > MAX_RESPONSE_BYTES
  {
    var next := all[|seen|];
    TracksNext(q, offset, limit, p, seen, next);
    assert seen + [next] <= all;
    PrefixPage(seen + [next], all, offset, limit);
    CostOfPrefix(q, p.matches + [next], PageOf(all, offset, limit));
  }

  lemma PrefixPage(seen: seq<Match>, all: seq<Match>, offset: nat, limit: nat)
    ensures seen <= all ==> PageOf(seen, offset, limit) <= PageOf(all, offset, limit)
    ensures seen <= all && offset + |PageOf(seen, offset, limit)| < |seen| ==>
      PageOf(seen, offset, limit) == PageOf(all, offset, limit)
  {
  }

  /** An unmarked page is the whole rest of the match list. */
  lemma UntruncatedIsAll(q: Query, all: seq<Match>, offset: nat, limit: nat, page: Page)
    requires PageIsSound(q, all, offset, limit, page) && offset <= |all|
    ensures !page.truncated ==> page.matches == all[offset..]
  {
  }

  // ---------- Following next_offset ----------

  // What `serve` answers to every request the search accepts: complete pages of the list `all`.
  ghost predicate Serves(q: Query, all: seq<Match>, limit: nat, serve: nat -> Page) {
    forall offset: nat :: offset <= MAX_OFFSET ==>
      serve(offset).complete && PageIsSound(q, all, offset, limit, serve(offset))
  }

  // The matches a caller collects by following next_offset; None when a request is refused.
  ghost function Collect(q: Query, all: seq<Match>, limit: nat, serve: nat -> Page, offset: nat): Option<seq<Match>>
    requires 1 <= limit && Serves(q, all, limit, serve)
    decreases |all| - offset
  {
    if offset > MAX_OFFSET then None
    else
      var page := serve(offset);
      assert PageIsSound(q, all, offset, limit, page);
      if page.nextOffset.None? then Some(page.matches)
      else
        var rest := Collect(q, all, limit, serve, page.nextOffset.value);
        if rest.None? then None else Some(page.matches + rest.value)
  }

  // The number of matches on pages whose start, counted from `offset`, is at most MAX_OFFSET.
  function Reachable(offset: nat, limit: nat): (n: nat)
    requires 1 <= limit && offset <= MAX_OFFSET
    ensures MAX_OFFSET < n <= MAX_OFFSET + limit
    decreases MAX_OFFSET - offset
  {
    if offset + limit <= MAX_OFFSET then Reachable(offset + limit, limit) else offset + limit
  }

  // One page of a collection: a refusal, the last page, or a full page before the collection from its end.
  ghost predicate StepOf(all: seq<Match>, limit: nat, collect: nat -> Option<seq<Match>>, offset: nat)
    requires offset <= |all|
  {
    if offset > MAX_OFFSET then collect(offset).None?
    else if offset + limit >= |all| then collect(offset) == Some(all[offset..])
    else
      var rest := collect(offset + limit);
      collect(offset) == if rest.None? then None else Some(all[offset..offset + limit] + rest.value)
  }

  lemma CollectStep(q: Query, all: seq<Match>, limit: nat, serve: nat -> Page, offset: nat)
    requires 1 <= limit && Serves(q, all, limit, serve) && offset <= |all|
    ensures StepOf(all, limit, (o: nat) => Collect(q, all, limit, serve, o), offset)
  {
    if offset <= MAX_OFFSET { assert PageIsSound(q, all, offset, limit, serve(offset)); }
    var page := PageOf(all, offset, limit);
    assert offset + limit >= |all| ==> page == all[offset..];
    assert offset + limit < |all| ==> page == all[offset..offset + limit];
  }

  lemma ReachableStep(offset: nat, limit: nat)
    requires 1 <= limit && offset <= MAX_OFFSET
    ensures offset + limit <= Reachable(offset, limit)
    ensures Reachable(offset, limit)
      == if offset + limit <= MAX_OFFSET then Reachable(offset + limit, limit) else offset + limit
  {}

  lemma {:induction false} StepsYieldRest(all: seq<Match>, limit: nat, collect: nat -> Option<seq<Match>>, offset: nat)
    requires 1 <= limit && offset <= |all| && offset <= MAX_OFFSET
    requires forall o: nat :: o <= |all| ==> StepOf(all, limit, collect, o)
    ensures collect(offset) == if |all| <= Reachable(offset, limit) then Some(all[offset..]) else None
    decreases |all| - offset
  {
    assert StepOf(all, limit, collect, offset);
    ReachableStep(offset, limit);
    var next := offset + limit;
    if next < |all| {
      assert StepOf(all, limit, collect, next);
      if next <= MAX_OFFSET { StepsYieldRest(all, limit, collect, next); }
      assert all[offset..] == all[offset..next] + all[next..];
    }
  }

  // `serve` answers every request as the search promises, with complete pages.
  ghost predicate Answers(q: Query, repositories: seq<Repository>, limit: nat, serve: nat -> Page) {
    forall offset: nat :: offset <= MAX_OFFSET ==>
      serve(offset).complete && IsPage(q, repositories, offset, limit, serve(offset))
  }

  lemma AnswersServe(q: Query, repositories: seq<Repository>, all: seq<Match>, limit: nat, serve: nat -> Page)
    requires IsListing(q, repositories, all)
    ensures Answers(q, repositories, limit, serve) <==> Serves(q, all, limit, serve)
  {
    forall offset: nat | offset <= MAX_OFFSET
      ensures IsPage(q, repositories, offset, limit, serve(offset)) <==>
        PageIsSound(q, all, offset, limit, serve(offset))
    {
      if IsPage(q, repositories, offset, limit, serve(offset)) {
        var list :| IsListing(q, repositories, list) && PageIsSound(q, list, offset, limit, serve(offset));
        ListingIsUnique(q, repositories, list, all);
      }
    }
  }

  /** Whatever complete pages the search returns, following next_offset from the start collects every
      hit once and in order if and only if there are at most Reachable(0, limit) of them; with more,
      a next_offset is handed out that the search refuses. */
  lemma PagingYieldsAll(q: Query, repositories: seq<Repository>, all: seq<Match>, limit: nat, serve: nat -> Page)
    requires IsListing(q, repositories, all) && 1 <= limit && Answers(q, repositories, limit, serve)
    ensures Serves(q, all, limit, serve)
    ensures Collect(q, all, limit, serve, 0) == if |all| <= Reachable(0, limit) then Some(all) else None
  {
    AnswersServe(q, repositories, all, limit, serve);
    CollectsAll(q, all, limit, serve);
  }

  lemma CollectsAll(q: Query, all: seq<Match>, limit: nat, serve: nat -> Page)
    requires 1 <= limit && Serves(q, all, limit, serve)
    ensures Collect(q, all, limit, serve, 0) == if |all| <= Reachable(0, limit) then Some(all) else None
  {
    var collect := (o: nat) => Collect(q, all, limit, serve, o);
    forall o: nat | o <= |all| ensures StepOf(all, limit, collect, o) {
      CollectStep(q, all, limit, serve, o);
    }
    StepsYieldRest(all, limit, collect, 0);
    assert all[0..] == all;
  }

  /** In a case-sensitive search the excerpt of a matching line contains the query. */
  lemma ContextShowsQuery(q: Query, line: string)
    requires q.caseSensitive && LineMatches(q, line)
    ensures exists k :: 0 <= k <= |Context(q, line)| && OccursAt(Context(q, line), q.needle, k)
  {
    var index := FindFrom(line, q.needle, 0);
    var start := if index > 100 then index - 100 else 0;
    var end := if index + |q.needle| + 100 < |line| then index + |q.needle| + 100 else |line|;
    assert OccursAt(line, q.needle, index);
    var before := if start > 0 then ['\U{2026}'] else [];
    var after := if end < |line| then ['\U{2026}'] else [];
    assert Context(q, line) == before + line[start..end] + after;
    ExcerptShows(line, q.needle, index, start, end, before, after);
  }

  lemma ExcerptShows(line: string, needle: string, index: nat, start: nat, end: nat, before: string, after: string)
    requires start <= index && index + |needle| <= end <= |line| && line[index..index + |needle|] == needle
    ensures OccursAt(before + line[start..end] + after, needle, |before| + index - start)
  {
    var context, k := before + line[start..end] + after, |before| + index - start;
    forall j | 0 <= j < |needle| ensures context[k + j] == needle[j] {
      assert context[k + j] == line[start..end][index - start + j] == line[index + j];
      assert line[index..index + |needle|][j] == line[index + j];
    }
    assert context[k..k + |needle|] == needle;
  }
}
