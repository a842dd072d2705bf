/** A concrete scan: user "alice" owns a practice repository, a web
    application whose package.json names mongoose, and a fork. */
module Scenario {
  import opened Wrappers
  import opened Strings
  import opened Signatures
  import opened GitHubApi
  import opened TechStack
  import opened DeepScan

  function AliceRepos(): seq<RepoDescriptor> {
    [ RepoDescriptor("leetcode-prep", None, Some(false), "2024-05-01T10:00:00Z"),
      RepoDescriptor("webapp", Some("A web app"), None, "2024-04-02T08:30:00Z"),
      RepoDescriptor("old-fork", None, Some(true), "2023-01-01T00:00:00Z") ]
  }

  /** The provider's answers: only the two listings and one manifest are
      available; every other call failed. */
  function AliceRemote(): Remote {
    Remote(
      UserLookup(None, Some(3)),
      RepoList(AliceRepos()),
      repo => if repo == "leetcode-prep" then Some(["a.cpp"])
              else if repo == "webapp" then Some([PACKAGE_MANIFEST])
              else None,
      (repo, path) => if repo == "webapp" && path == PACKAGE_MANIFEST then Some("mongoose") else None,
      repo => None,
      repo => None)
  }

  /** No signature fires on a lone `a.cpp` and an empty dependency text. */
  lemma NothingFiresOnLoneSource()
    ensures forall k :: 0 <= k < |TECH_SIGNATURES| ==> !Matches(TECH_SIGNATURES[k], ["a.cpp"], "")
  {
    MarkersNonEmpty();
    forall k, m | 0 <= k < |TECH_SIGNATURES| && m in TECH_SIGNATURES[k].markers
      ensures !Contains("", m) && m != "a.cpp"
    {
      ContainedInEmpty(m);
    }
  }

  /** "leetcode-prep" carries the keyword "leetcode". */
  lemma PracticeName()
    ensures DetectCp("leetcode-prep", ["a.cpp"])
  {
    var lowered := LowerAscii("leetcode-prep");
    assert lowered[..8] == "leetcode";
    assert OccursAt(lowered, "leetcode", 0);
  }

  /** The name alone marks the practice repository, and no signature fires on
      a lone `a.cpp` with no manifest. */
  lemma PracticeRepoDetection()
    ensures DetectedTech("leetcode-prep", ["a.cpp"], "") == Elements(CP_LABELS)
  {
    PracticeName();
    NothingFiresOnLoneSource();
    assert forall sig :: sig in TECH_SIGNATURES ==> !Matches(sig, ["a.cpp"], "");
    MatchedTechsIff(TECH_SIGNATURES, ["a.cpp"], "");
    assert Elements(MatchedTechs(TECH_SIGNATURES, ["a.cpp"], "")) == {};
  }

  lemma PracticeRepoTech()
    ensures TechStackOf(AliceRemote(), "leetcode-prep") == Elements(CP_LABELS)
  {
    var files := ListingOf(AliceRemote(), "leetcode-prep");
    assert files == ["a.cpp"];
    assert DependencyText(files, None, None) == "";
    PracticeRepoDetection();
  }

  /** No practice keyword occurs in "webapp". */
  lemma KeywordsAbsentFromWebApp()
    ensures forall kw :: kw in CP_KEYWORDS ==> !Contains("webapp", kw)
  {
    var name := "webapp";
    ForeignCharNotContained(name, "leetcode", 0);
    ForeignCharNotContained(name, "codeforces", 0);
    ForeignCharNotContained(name, "hackerrank", 0);
    ForeignCharNotContained(name, "algo", 1);
    ForeignCharNotContained(name, "dsa", 0);
    ForeignCharNotContained(name, "solutions", 0);
    ForeignCharNotContained(name, "competitive", 0);
    ForeignCharNotContained(name, "cp", 0);
    ForeignCharNotContained(name, "interview", 0);
  }

  /** Markers that each hold a character (at the given index) absent from
      "mongoose" do not occur in "mongoose". */
  lemma MissMongoose(markers: seq<string>, at: seq<nat>)
    requires |at| == |markers|
    requires forall i :: 0 <= i < |markers| ==> at[i] < |markers[i]| && markers[i][at[i]] !in "mongoose"
    ensures forall m :: m in markers ==> !Contains("mongoose", m)
  {
    forall i | 0 <= i < |markers|
      ensures !Contains("mongoose", markers[i])
    {
      ForeignCharNotContained("mongoose", markers[i], at[i]);
    }
  }

  lemma WebFrameworkMarkersMissMongoose()
    ensures forall k, m :: 0 <= k < 3 && m in TECH_SIGNATURES[k].markers ==> !Contains("mongoose", m)
  {
    MissMongoose(TECH_SIGNATURES[0].markers, [1, 0]);
    MissMongoose(TECH_SIGNATURES[1].markers, [0, 0]);
    MissMongoose(TECH_SIGNATURES[2].markers, [2, 0, 0]);
  }

  lemma DeploymentMarkersMissMongoose()
    ensures forall k, m :: 3 <= k < 6 && m in TECH_SIGNATURES[k].markers ==> !Contains("mongoose", m)
  {
    MissMongoose(TECH_SIGNATURES[3].markers, [0, 1]);
    MissMongoose(TECH_SIGNATURES[4].markers, [0, 0]);
    MissMongoose(TECH_SIGNATURES[5].markers, [2, 0]);
  }

  lemma OtherDatabaseMarkersMissMongoose()
    ensures forall k, m :: 7 <= k < |TECH_SIGNATURES| && m in TECH_SIGNATURES[k].markers ==> !Contains("mongoose", m)
  {
    MissMongoose(TECH_SIGNATURES[7].markers, [0, 0, 2, 0]);
    MissMongoose(TECH_SIGNATURES[8].markers, [1, 1, 0]);
    MissMongoose(TECH_SIGNATURES[9].markers, [0, 0]);
    MissMongoose(TECH_SIGNATURES[10].markers, [0, 0]);
  }

  /** "webapp" carries no keyword and lists no C++ source. */
  lemma WebAppNotPractice()
    ensures !DetectCp("webapp", [PACKAGE_MANIFEST])
  {
    assert LowerAscii("webapp") == "webapp";
    KeywordsAbsentFromWebApp();
    assert CppFiles([PACKAGE_MANIFEST]) == [];
  }

  /** Only the MongoDB signature fires on a lone package.json reading "mongoose". */
  lemma OnlyMongoFires()
    ensures forall k :: 0 <= k < |TECH_SIGNATURES| && k != 6 ==> !Matches(TECH_SIGNATURES[k], [PACKAGE_MANIFEST], "mongoose")
    ensures Matches(TECH_SIGNATURES[6], [PACKAGE_MANIFEST], "mongoose")
  {
    NoMarkerIsManifest();
    WebFrameworkMarkersMissMongoose();
    DeploymentMarkersMissMongoose();
    OtherDatabaseMarkersMissMongoose();
    assert Contains("mongoose", "mongoose");
  }

  /** The web application is detected as using MongoDB and nothing else. */
  lemma WebAppDetection()
    ensures DetectedTech("webapp", [PACKAGE_MANIFEST], "mongoose") == {"MongoDB"}
  {
    var files, deps := [PACKAGE_MANIFEST], "mongoose";
    WebAppNotPractice();
    OnlyMongoFires();
    TechSelectedIff(6, "webapp", files, deps);
    MatchedTechsIff(TECH_SIGNATURES, files, deps);
    forall t | t in DetectedTech("webapp", files, deps)
      ensures t == "MongoDB"
    {
      var sig :| sig in TECH_SIGNATURES && sig.tech == t && Matches(sig, files, deps);
      var j :| 0 <= j < |TECH_SIGNATURES| && TECH_SIGNATURES[j] == sig;
    }
  }

  lemma WebAppTech()
    ensures TechStackOf(AliceRemote(), "webapp") == {"MongoDB"}
  {
    var files := ListingOf(AliceRemote(), "webapp");
    assert files == [PACKAGE_MANIFEST];
    assert DependencyText(files, Some("mongoose"), None) == "mongoose";
    WebAppDetection();
  }

  /** The scan of alice holds two summaries, in listing order; the fork is absent. */
  lemma AliceScanShape()
    ensures FetchGithubData("alice", AliceRemote()).Profile?
    ensures FetchGithubData("alice", AliceRemote()).publicRepos == Some(3)
    ensures |FetchGithubData("alice", AliceRemote()).deepScan| == 2
    ensures FetchGithubData("alice", AliceRemote()).deepScan[0] == Summarize(AliceRemote(), AliceRepos()[0])
    ensures FetchGithubData("alice", AliceRemote()).deepScan[1] == Summarize(AliceRemote(), AliceRepos()[1])
  {
    var remote := AliceRemote();
    var repos := AliceRepos();
    DeepScanIsNonForkSummaries(remote, repos);
    var kept := NonForks(repos);
    assert NonForks(repos[2..]) == [];
    assert NonForks(repos[1..]) == [repos[1]] + NonForks(repos[2..]);
    assert kept == [repos[0]] + NonForks(repos[1..]);
    assert |kept| == 2 && kept[0] == repos[0] && kept[1] == repos[1];
  }

  lemma WebAppDate()
    ensures BeforeFirst(AliceRepos()[1].updatedAt, 'T') == "2024-04-02"
  {
    var stamp := "2024-04-02T08:30:00Z";
    assert stamp[..10] == "2024-04-02";
    BeforeFirstAt(stamp, 'T', 10);
  }

  lemma AliceScan()
    ensures FetchGithubData("alice", AliceRemote()).Profile?
    ensures |FetchGithubData("alice", AliceRemote()).deepScan| == 2
    ensures FetchGithubData("alice", AliceRemote()).deepScan[0].name == "leetcode-prep"
    ensures FetchGithubData("alice", AliceRemote()).deepScan[0].detectedTech == Elements(CP_LABELS)
    ensures FetchGithubData("alice", AliceRemote()).deepScan[1].name == "webapp"
    ensures FetchGithubData("alice", AliceRemote()).deepScan[1].detectedTech == {"MongoDB"}
    ensures FetchGithubData("alice", AliceRemote()).deepScan[1].updatedAt == "2024-04-02"
  {
    AliceScanShape();
    PracticeRepoTech();
    WebAppTech();
    WebAppDate();
  }
}
