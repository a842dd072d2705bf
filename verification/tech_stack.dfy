/** Technology detection for one repository (services/github_service.py:
    detect_cp_repo and scan_repo_tech_stack). */
module TechStack {
  import opened Wrappers
  import opened Strings
  import opened Signatures
  import opened GitHubApi

  /** The elements of a list, as a set. */
  function Elements(s: seq<string>): set<string> {
    set x | x in s
  }

  predicate NoDuplicates(s: seq<string>) {
    forall i, j :: 0 <= i < j < |s| ==> s[i] != s[j]
  }

  // ---------------------------------------------------------------------------
  // The practice-repo heuristic

  predicate IsCppSource(file: string) {
    EndsWith(file, CPP_SUFFIX) || EndsWith(file, CC_SUFFIX)
  }

  /** The list comprehension of the files ending in `.cpp` or `.cc`, in listing order. */
  function CppFiles(files: seq<string>): (r: seq<string>)
    ensures |r| <= |files|
    ensures forall f :: f in r <==> f in files && IsCppSource(f)
  {
    if files == [] then []
    else if IsCppSource(files[0]) then [files[0]] + CppFiles(files[1..])
    else CppFiles(files[1..])
  }

  /** The strong signal: some keyword occurs in the lower-cased repository name. */
  predicate NameHasCpKeyword(repoName: string) {
    exists kw :: kw in CP_KEYWORDS && Contains(LowerAscii(repoName), kw)
  }

  /** detect_cp_repo: the name carries a keyword, or the listing holds a C++
      source file and no CMake build file. */
  function DetectCp(repoName: string, files: seq<string>): (r: bool)
    ensures (exists kw, i: nat :: kw in CP_KEYWORDS && OccursAt(LowerAscii(repoName), kw, i)) ==> r
    ensures !(exists kw, i: nat :: kw in CP_KEYWORDS && OccursAt(LowerAscii(repoName), kw, i)) ==>
      (r <==> (exists f :: f in files && IsCppSource(f)) && CMAKE_FILE !in files)
  {
    NameKeywordIff(repoName);
    if NameHasCpKeyword(repoName) then true
    else
      var cppFiles := CppFiles(files);
      assert cppFiles != [] ==> cppFiles[0] in cppFiles;
      |cppFiles| > 0 && CMAKE_FILE !in files
  }

  /** The keyword test of `DetectCp` finds exactly the keyword occurrences. */
  lemma NameKeywordIff(repoName: string)
    ensures NameHasCpKeyword(repoName) <==>
      exists kw, i: nat :: kw in CP_KEYWORDS && OccursAt(LowerAscii(repoName), kw, i)
  {
    forall kw | kw in CP_KEYWORDS {
      ContainsIff(LowerAscii(repoName), kw);
    }
  }

  // ---------------------------------------------------------------------------
  // Dependency text

  /** What one manifest adds to the dependency text: its content when it is
      listed and its fetch succeeded, `""` otherwise. */
  function ManifestContent(files: seq<string>, manifest: string, fetched: Option<string>): (r: string)
    ensures r != "" ==> manifest in files && fetched == Some(r)
    ensures manifest in files && fetched.Some? ==> r == fetched.value
  {
    if manifest in files then fetched.GetOr("") else ""
  }

  /** The dependency text: the package.json part followed by the requirements.txt part. */
  function DependencyText(files: seq<string>, packageJson: Option<string>, requirements: Option<string>): (r: string)
    ensures PACKAGE_MANIFEST !in files && REQUIREMENTS_MANIFEST !in files ==> r == ""
    ensures ManifestContent(files, PACKAGE_MANIFEST, packageJson) <= r
    ensures r[|ManifestContent(files, PACKAGE_MANIFEST, packageJson)|..] ==
            ManifestContent(files, REQUIREMENTS_MANIFEST, requirements)
  {
    ManifestContent(files, PACKAGE_MANIFEST, packageJson) + ManifestContent(files, REQUIREMENTS_MANIFEST, requirements)
  }

  // ---------------------------------------------------------------------------
  // Signature matching

  /** A signature fires when one of its markers is a listed file name or occurs
      in the dependency text. */
  predicate Matches(sig: Signature, files: seq<string>, deps: string) {
    (exists m :: m in sig.markers && m in files) || (exists m :: m in sig.markers && Contains(deps, m))
  }

  /** A signature fires exactly when one of its markers is a listed file or
      occurs at some index of the dependency text. */
  lemma MatchesIff(sig: Signature, files: seq<string>, deps: string)
    ensures Matches(sig, files, deps) <==>
              (exists m :: m in sig.markers && m in files) ||
              (exists m, i: nat :: m in sig.markers && OccursAt(deps, m, i))
  {
    MarkerOccursIff(sig.markers, deps);
  }

  /** Some marker is a substring of `deps` exactly when some marker occurs at an index of it. */
  lemma MarkerOccursIff(markers: seq<string>, deps: string)
    ensures (exists m :: m in markers && Contains(deps, m)) <==>
            exists m, i: nat :: m in markers && OccursAt(deps, m, i)
  {
    forall m | m in markers {
      ContainsIff(deps, m);
    }
  }

  /** The labels the matching loop appends, in catalogue order. */
  function MatchedTechs(sigs: seq<Signature>, files: seq<string>, deps: string): seq<string> {
    if sigs == [] then []
    else
      var init := MatchedTechs(sigs[..|sigs| - 1], files, deps);
      var last := sigs[|sigs| - 1];
      if Matches(last, files, deps) then init + [last.tech] else init
  }

  /** A label is appended exactly when some signature carrying it fires. */
  lemma {:induction false} MatchedTechsIff(sigs: seq<Signature>, files: seq<string>, deps: string)
    ensures forall t :: t in MatchedTechs(sigs, files, deps) <==>
              exists sig :: sig in sigs && sig.tech == t && Matches(sig, files, deps)
  {
    if sigs != [] {
      var init := sigs[..|sigs| - 1];
      assert sigs == init + [sigs[|sigs| - 1]];
      MatchedTechsIff(init, files, deps);
    }
  }

  /** The set of labels detected for a repository (the value of
      `list(set(detected_tech))`, whose order Python leaves unspecified). */
  function DetectedTech(repoName: string, files: seq<string>, deps: string): set<string>
  {
    Elements(MatchedTechs(TECH_SIGNATURES, files, deps))
      + (if DetectCp(repoName, files) then Elements(CP_LABELS) else {})
  }

  /** A label is detected exactly when a catalogue entry carrying it fires, or
      when the practice-repo heuristic holds and it is one of those labels. */
  lemma DetectedTechIff(repoName: string, files: seq<string>, deps: string)
    ensures forall t :: t in DetectedTech(repoName, files, deps) <==>
              (exists sig :: sig in TECH_SIGNATURES && sig.tech == t && Matches(sig, files, deps)) ||
              (DetectCp(repoName, files) && t in CP_LABELS)
  {
    MatchedTechsIff(TECH_SIGNATURES, files, deps);
  }

  /** The file list the scan works on: a failed listing is the empty list. */
  function ListingOf(remote: Remote, repoName: string): seq<string> {
    remote.contents(repoName).GetOr([])
  }

  /** The detected set of a repository, given the provider's answers. */
  function TechStackOf(remote: Remote, repoName: string): (r: set<string>)
    ensures remote.contents(repoName).None? ==> r == DetectedTech(repoName, [], "")
    ensures remote.contents(repoName).Some? ==>
              r == DetectedTech(repoName, remote.contents(repoName).value,
                     DependencyText(remote.contents(repoName).value,
                                    remote.fileContent(repoName, PACKAGE_MANIFEST),
                                    remote.fileContent(repoName, REQUIREMENTS_MANIFEST)))
  {
    var files := ListingOf(remote, repoName);
    DetectedTech(repoName, files,
      DependencyText(files, remote.fileContent(repoName, PACKAGE_MANIFEST),
                            remote.fileContent(repoName, REQUIREMENTS_MANIFEST)))
  }

  // ---------------------------------------------------------------------------
  // The scan as the source runs it

  /** `list(set(xs))`: the same elements, each once (in some order). */
  function Dedup(s: seq<string>): (r: seq<string>)
    ensures NoDuplicates(r)
    ensures forall x :: x in r <==> x in s
  {
    if s == [] then []
    else
      var rest := Dedup(s[1..]);
      if s[0] in rest then rest else [s[0]] + rest
  }

  /** Step 3 of scan_repo_tech_stack: walk the catalogue in order and append
      the label of every signature that fires. */
  method MatchSignatures(sigs: seq<Signature>, files: seq<string>, deps: string) returns (detected: seq<string>)
    ensures detected == MatchedTechs(sigs, files, deps)
  {
    detected := [];
    for i := 0 to |sigs|
      invariant detected == MatchedTechs(sigs[..i], files, deps)
    {
      var sig := sigs[i];
      assert sigs[..i + 1][..i] == sigs[..i];
      if Matches(sig, files, deps) {
        detected := detected + [sig.tech];
      }
    }
    assert sigs[..|sigs|] == sigs;
  }

  /** scan_repo_tech_stack: fetch the listing, accumulate the dependency text,
      append the label of every firing signature, append the practice-repo
      labels, and deduplicate. */
  method ScanTechStack(remote: Remote, repoName: string) returns (tech: seq<string>)
    ensures NoDuplicates(tech)
    ensures Elements(tech) == TechStackOf(remote, repoName)
  {
    var files: seq<string> := [];
    var listing := remote.contents(repoName);
    if listing.Some? {
      files := listing.value;
    }

    var deps := "";
    if PACKAGE_MANIFEST in files {
      deps := deps + remote.fileContent(repoName, PACKAGE_MANIFEST).GetOr("");
    }
    if REQUIREMENTS_MANIFEST in files {
      deps := deps + remote.fileContent(repoName, REQUIREMENTS_MANIFEST).GetOr("");
    }
    assert deps == DependencyText(files, remote.fileContent(repoName, PACKAGE_MANIFEST),
                                         remote.fileContent(repoName, REQUIREMENTS_MANIFEST));

    var detected := MatchSignatures(TECH_SIGNATURES, files, deps);

    if DetectCp(repoName, files) {
      detected := detected + CP_LABELS;
    }

    tech := Dedup(detected);
  }

  // ---------------------------------------------------------------------------
  // Properties of detection

  /** A catalogue label is detected exactly when its signature fires. */
  lemma TechSelectedIff(k: nat, repoName: string, files: seq<string>, deps: string)
    requires k < |TECH_SIGNATURES|
    ensures TECH_SIGNATURES[k].tech in DetectedTech(repoName, files, deps)
            <==> Matches(TECH_SIGNATURES[k], files, deps)
  {
    TechsDistinct();
    TechsDisjoint();
    MatchedTechsIff(TECH_SIGNATURES, files, deps);
    var t := TECH_SIGNATURES[k].tech;
    if t in Elements(MatchedTechs(TECH_SIGNATURES, files, deps)) {
      var sig :| sig in TECH_SIGNATURES && sig.tech == t && Matches(sig, files, deps);
      var j :| 0 <= j < |TECH_SIGNATURES| && TECH_SIGNATURES[j] == sig;
      assert j == k;
    }
  }

  /** The three practice-repo labels come together: all of them when the
      heuristic fires, none of them otherwise. */
  lemma CpLabelsAllOrNothing(repoName: string, files: seq<string>, deps: string)
    ensures DetectCp(repoName, files) ==> Elements(CP_LABELS) <= DetectedTech(repoName, files, deps)
    ensures !DetectCp(repoName, files) ==> Elements(CP_LABELS) !! DetectedTech(repoName, files, deps)
  {
    TechsDisjoint();
    MatchedTechsIff(TECH_SIGNATURES, files, deps);
    forall t | t in Elements(MatchedTechs(TECH_SIGNATURES, files, deps))
      ensures t !in CP_LABELS
    {
      var sig :| sig in TECH_SIGNATURES && sig.tech == t && Matches(sig, files, deps);
      var j :| 0 <= j < |TECH_SIGNATURES| && TECH_SIGNATURES[j] == sig;
    }
  }

  /** Every detected label is a catalogue label or a practice-repo label. */
  lemma DetectedWithinCatalogue(repoName: string, files: seq<string>, deps: string)
    ensures DetectedTech(repoName, files, deps) <= Elements(CatalogueLabels()) + Elements(CP_LABELS)
  {
    MatchedTechsIff(TECH_SIGNATURES, files, deps);
    forall t | t in Elements(MatchedTechs(TECH_SIGNATURES, files, deps))
      ensures t in CatalogueLabels()
    {
      var sig :| sig in TECH_SIGNATURES && sig.tech == t && Matches(sig, files, deps);
      var j :| 0 <= j < |TECH_SIGNATURES| && TECH_SIGNATURES[j] == sig;
      assert CatalogueLabels()[j] == t;
    }
  }

  /** A failed listing yields no file-based detection and an empty dependency
      text: only a keyword in the name can still mark the repository. */
  lemma FailedListing(remote: Remote, repoName: string)
    requires remote.contents(repoName).None?
    ensures TechStackOf(remote, repoName) ==
            (if NameHasCpKeyword(repoName) then Elements(CP_LABELS) else {})
  {
    MarkersNonEmpty();
    var deps := DependencyText([], remote.fileContent(repoName, PACKAGE_MANIFEST),
                                   remote.fileContent(repoName, REQUIREMENTS_MANIFEST));
    assert deps == "";
    forall sig | sig in TECH_SIGNATURES
      ensures !Matches(sig, [], deps)
    {
      forall m | m in sig.markers
        ensures !Contains(deps, m)
      {
        ContainedInEmpty(m);
      }
    }
    MatchedTechsIff(TECH_SIGNATURES, [], deps);
    assert Elements(MatchedTechs(TECH_SIGNATURES, [], deps)) == {};
    assert CppFiles([]) == [];
  }
}
