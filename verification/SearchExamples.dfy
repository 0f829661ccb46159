/** A search whose pages cannot all be fetched by following next_offset. */
module SearchExamples {
  import opened Wrappers
  import opened SearchListings
  import opened SearchMatches
  import opened SourceSearch

  // A case-sensitive search for x over everything, with small matches and a clock that never expires.
  function PlainQuery(): Query {
    Query("x", true, None, (s: string) => s, (path: string) => true, (m: Match) => 64, (n: nat) => false)
  }

  function Lines(): (lines: seq<string>)
    ensures |lines| == 524_288 && forall k :: 0 <= k < |lines| ==> lines[k] == "x"
  {
    seq(524_288, _ => "x")
  }

  // Lines() joined by line feeds.
  function BigFile(path: string): SourceFile { SourceFile(path, 1_048_575, Text(Lines())) }

  function TwoBigFiles(): seq<Repository> { [Repository("project", [BigFile("a.txt"), BigFile("b.txt")])] }

  lemma {:induction false} EveryLineMatches(q: Query, project: string, path: string, lines: seq<string>, k: nat)
    requires q.caseSensitive && q.needle == "x" && k <= |lines| && forall j :: 0 <= j < |lines| ==> lines[j] == "x"
    ensures |MatchesFrom(q, project, path, lines, k)| == |lines| - k
    decreases |lines| - k
  {
    if k < |lines| {
      EveryLineMatches(q, project, path, lines, k + 1);
      assert lines[k][0..0 + |q.needle|] == q.needle && OccursAt(lines[k], q.needle, 0);
      assert FindFrom(lines[k], q.needle, 0) == 0;
    }
  }

  lemma BigFileMatches(path: string)
    ensures |FileMatches(PlainQuery(), "project", BigFile(path))| == 524_288
  {
    EveryLineMatches(PlainQuery(), "project", path, Lines(), 0);
  }

  lemma TwoBigFilesMatch()
    ensures |AllMatches(PlainQuery(), TwoBigFiles())| == 1_048_576 && AllSizes(TwoBigFiles()) == 2_097_150
  {
    var q, files := PlainQuery(), TwoBigFiles()[0].files;
    BigFileMatches("a.txt");
    BigFileMatches("b.txt");
    assert files[1..] == [files[1]] && files[1..][1..] == [] && TwoBigFiles()[1..] == [];
    assert RepositoryMatches(q, "project", files[1..])
      == FileMatches(q, "project", files[1]) + RepositoryMatches(q, "project", []);
    assert Sizes(files[1..]) == files[1].size + Sizes([]);
  }

  lemma {:induction false} SmallCost(q: Query, matches: seq<Match>)
    requires forall m :: q.cost(m) == 64
    ensures Cost(q, matches) == 64 * |matches|
  {
    if matches != [] { SmallCost(q, matches[..|matches| - 1]); }
  }

  /** Every page of this search is complete, ... */
  lemma BigSearchNeverStops(offset: nat)
    ensures !MayStop(PlainQuery(), TwoBigFiles(), offset, 100)
  {
    TwoBigFilesMatch();
    SmallCost(PlainQuery(), PageOf(AllMatches(PlainQuery(), TwoBigFiles()), offset, 100));
  }

  // The complete answer to one request.
  function CompletePage(all: seq<Match>, offset: nat): Page {
    var matches := PageOf(all, offset, 100);
    var hasMore := offset + |matches| < |all|;
    Page(true, 2, 0, 0, 2_097_150, hasMore, hasMore, if hasMore then Some(offset + |matches|) else None, matches)
  }

  function Served(offset: nat): Page { CompletePage(AllMatches(PlainQuery(), TwoBigFiles()), offset) }

  lemma CompletePagesServe()
    ensures Answers(PlainQuery(), TwoBigFiles(), 100, Served)
  {
    var q, all := PlainQuery(), AllMatches(PlainQuery(), TwoBigFiles());
    forall offset: nat ensures PageIsSound(q, all, offset, 100, Served(offset)) {
      CompleteIsSound(q, all, offset, Served(offset));
    }
    AllMatchesIsListing(q, TwoBigFiles());
    AnswersServe(q, TwoBigFiles(), all, 100, Served);
  }

  lemma CompleteIsSound(q: Query, all: seq<Match>, offset: nat, page: Page)
    requires (forall m :: q.cost(m) == 64) && page == CompletePage(all, offset)
    ensures PageIsSound(q, all, offset, 100, page)
  {
    SmallCost(q, PageOf(all, offset, 100));
  }

  /** ... and yet following next_offset ends in a refusal: 1048576 matches exceed what pages of 100 reach. */
  lemma OffsetLimitIsReached(all: seq<Match>, serve: nat -> Page)
    requires IsListing(PlainQuery(), TwoBigFiles(), all) && Answers(PlainQuery(), TwoBigFiles(), 100, serve)
    ensures Serves(PlainQuery(), all, 100, serve) && Collect(PlainQuery(), all, 100, serve, 0).None?
  {
    TwoBigFilesMatch();
    AllMatchesIsListing(PlainQuery(), TwoBigFiles());
    ListingIsUnique(PlainQuery(), TwoBigFiles(), all, AllMatches(PlainQuery(), TwoBigFiles()));
    PagingYieldsAll(PlainQuery(), TwoBigFiles(), all, 100, serve);
  }
}
