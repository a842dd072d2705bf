/** The per-repository summary and the assembly of the scan result
    (services/github_service.py: process_repo and fetch_github_data). */
module DeepScan {
  import opened Wrappers
  import opened Strings
  import opened Signatures
  import opened GitHubApi
  import opened TechStack

  /** The README is cut to this many characters. */
  const README_LIMIT: nat := 600

  /** The lookup message by which the provider reports an unknown user. */
  const NOT_FOUND_MESSAGE: string := "Not Found"

  /** The error text returned for an unknown user. */
  const USER_NOT_FOUND: string := "User not found"

  /** One element of `deep_scan`. `detectedTech` is a set: the source returns
      `list(set(...))`, whose order is unspecified. */
  datatype RepoSummary = RepoSummary(
    name: string,
    desc: Option<string>,
    languages: map<string, int>,
    detectedTech: set<string>,
    readmeSnippet: string,
    updatedAt: string)

  /** The value of fetch_github_data: the error record, or the profile. */
  datatype ScanResult =
    | Error(error: string)
    | Profile(username: string, publicRepos: Option<int>, deepScan: seq<RepoSummary>)

  /** `repo.get('fork', False)` is truthy: a missing or null field is not a fork. */
  function IsFork(repo: RepoDescriptor): (r: bool)
    ensures repo.fork == None ==> !r
    ensures repo.fork == Some(false) ==> !r
    ensures repo.fork == Some(true) ==> r
  {
    repo.fork == Some(true)
  }

  /** The summary built for a repository that is not a fork. */
  function Summarize(remote: Remote, repo: RepoDescriptor): (s: RepoSummary)
    ensures s.name == repo.name && s.desc == repo.description
    ensures |s.readmeSnippet| == Min(|remote.readme(repo.name).GetOr("")|, README_LIMIT)
    ensures s.readmeSnippet <= remote.readme(repo.name).GetOr("")
    ensures |remote.readme(repo.name).GetOr("")| <= README_LIMIT ==>
              s.readmeSnippet == remote.readme(repo.name).GetOr("")
    ensures s.updatedAt <= repo.updatedAt && 'T' !in s.updatedAt
    ensures |s.updatedAt| < |repo.updatedAt| ==> repo.updatedAt[|s.updatedAt|] == 'T'
    ensures s.languages == remote.languages(repo.name).GetOr(map[])
    ensures s.detectedTech == TechStackOf(remote, repo.name)
  {
    RepoSummary(
      repo.name,
      repo.description,
      remote.languages(repo.name).GetOr(map[]),
      TechStackOf(remote, repo.name),
      Truncate(remote.readme(repo.name).GetOr(""), README_LIMIT),
      BeforeFirst(repo.updatedAt, 'T'))
  }

  /** process_repo: nothing for a fork, the summary otherwise. */
  function ProcessRepo(remote: Remote, repo: RepoDescriptor): (r: Option<RepoSummary>)
    ensures r.None? <==> repo.fork == Some(true)
    ensures r.Some? ==> r.value.name == repo.name
  {
    if IsFork(repo) then None else Some(Summarize(remote, repo))
  }

  /** `executor.map(process_repo, repos)`: one result per descriptor, in submission order. */
  function MapRepos(remote: Remote, repos: seq<RepoDescriptor>): (r: seq<Option<RepoSummary>>)
    ensures |r| == |repos|
    ensures forall i :: 0 <= i < |repos| ==> r[i] == ProcessRepo(remote, repos[i])
  {
    seq(|repos|, i requires 0 <= i < |repos| => ProcessRepo(remote, repos[i]))
  }

  /** `[r for r in results if r is not None]`. */
  function Present(results: seq<Option<RepoSummary>>): (r: seq<RepoSummary>)
    ensures |r| <= |results|
    ensures forall i :: 0 <= i < |results| && results[i].Some? ==> results[i].value in r
  {
    if results == [] then []
    else
      assert results == [results[0]] + results[1..];
      match results[0]
      case Some(s) => [s] + Present(results[1..])
      case None => Present(results[1..])
  }

  /** The deep scan of a listing. */
  function DeepScanOf(remote: Remote, repos: ReposResponse): (r: seq<RepoSummary>)
    ensures repos.NotAList? ==> r == []
    ensures repos.RepoList? ==> r == SummarizeAll(remote, NonForks(repos.repos))
  {
    match repos
    case RepoList(list) =>
      DeepScanIsNonForkSummaries(remote, list);
      Present(MapRepos(remote, list))
    case NotAList => []
  }

  /** fetch_github_data, with every network answer taken from `remote`. */
  function FetchGithubData(username: string, remote: Remote): (r: ScanResult)
    ensures r.Error? <==> remote.user.message == Some(NOT_FOUND_MESSAGE)
    ensures r.Error? ==> r.error == USER_NOT_FOUND
    ensures r.Profile? ==> r.username == username && r.publicRepos == remote.user.publicRepos
    ensures r.Profile? && remote.repos.NotAList? ==> r.deepScan == []
  {
    if remote.user.message == Some(NOT_FOUND_MESSAGE) then Error(USER_NOT_FOUND)
    else Profile(username, remote.user.publicRepos, DeepScanOf(remote, remote.repos))
  }

  // ---------------------------------------------------------------------------
  // Reference: filter the forks first, then summarise every survivor

  /** The descriptors that are not forks, in listing order. */
  function NonForks(repos: seq<RepoDescriptor>): (r: seq<RepoDescriptor>)
    ensures forall d :: d in r <==> d in repos && !IsFork(d)
  {
    if repos == [] then []
    else if IsFork(repos[0]) then NonForks(repos[1..])
    else [repos[0]] + NonForks(repos[1..])
  }

  function SummarizeAll(remote: Remote, repos: seq<RepoDescriptor>): (r: seq<RepoSummary>)
    ensures |r| == |repos|
    ensures forall i :: 0 <= i < |repos| ==> r[i] == Summarize(remote, repos[i])
  {
    seq(|repos|, i requires 0 <= i < |repos| => Summarize(remote, repos[i]))
  }

  lemma PresentCons(head: Option<RepoSummary>, tail: seq<Option<RepoSummary>>)
    ensures Present([head] + tail) == (if head.Some? then [head.value] else []) + Present(tail)
  {
    assert ([head] + tail)[1..] == tail;
  }

  lemma SummarizeAllCons(remote: Remote, head: RepoDescriptor, tail: seq<RepoDescriptor>)
    ensures SummarizeAll(remote, [head] + tail) == [Summarize(remote, head)] + SummarizeAll(remote, tail)
  {
  }

  /** Dropping the `None`s of the mapped results gives exactly the summaries
      of the non-fork descriptors, one each, in listing order: filtering when
      draining is the same as filtering before dispatch. */
  lemma {:induction false} DeepScanIsNonForkSummaries(remote: Remote, repos: seq<RepoDescriptor>)
    ensures Present(MapRepos(remote, repos)) == SummarizeAll(remote, NonForks(repos))
  {
    if repos != [] {
      var tail := repos[1..];
      DeepScanIsNonForkSummaries(remote, tail);
      assert MapRepos(remote, repos) == [ProcessRepo(remote, repos[0])] + MapRepos(remote, tail);
      PresentCons(ProcessRepo(remote, repos[0]), MapRepos(remote, tail));
      if !IsFork(repos[0]) {
        assert NonForks(repos) == [repos[0]] + NonForks(tail);
        SummarizeAllCons(remote, repos[0], NonForks(tail));
      } else {
        assert NonForks(repos) == NonForks(tail);
      }
    } else {
      assert MapRepos(remote, repos) == [];
    }
  }

  /** No summary in the result stems from a fork, and every non-fork
      descriptor contributes its summary. */
  lemma DeepScanCoversNonForks(username: string, remote: Remote)
    requires remote.user.message != Some(NOT_FOUND_MESSAGE)
    requires remote.repos.RepoList?
    ensures forall s :: s in FetchGithubData(username, remote).deepScan <==>
              exists d :: d in remote.repos.repos && !IsFork(d) && s == Summarize(remote, d)
    ensures |FetchGithubData(username, remote).deepScan| == |NonForks(remote.repos.repos)|
  {
    var list := remote.repos.repos;
    DeepScanIsNonForkSummaries(remote, list);
    var scan := FetchGithubData(username, remote).deepScan;
    assert scan == SummarizeAll(remote, NonForks(list));
    forall s | s in scan
      ensures exists d :: d in list && !IsFork(d) && s == Summarize(remote, d)
    {
      var i :| 0 <= i < |scan| && scan[i] == s;
      assert NonForks(list)[i] in NonForks(list);
    }
    forall d | d in list && !IsFork(d)
      ensures Summarize(remote, d) in scan
    {
      var i :| 0 <= i < |NonForks(list)| && NonForks(list)[i] == d;
      assert scan[i] == Summarize(remote, d);
    }
  }

  /** A repository whose every sub-fetch failed still yields a summary: empty
      languages, empty README snippet, and detections only from a keyword in its name. */
  lemma SoftFailure(remote: Remote, repo: RepoDescriptor)
    requires !IsFork(repo)
    requires remote.contents(repo.name).None?
    requires remote.languages(repo.name).None?
    requires remote.readme(repo.name).None?
    ensures ProcessRepo(remote, repo).Some?
    ensures ProcessRepo(remote, repo).value.languages == map[]
    ensures ProcessRepo(remote, repo).value.readmeSnippet == ""
    ensures ProcessRepo(remote, repo).value.detectedTech ==
            (if NameHasCpKeyword(repo.name) then Elements(CP_LABELS) else {})
  {
    FailedListing(remote, repo.name);
  }
}
