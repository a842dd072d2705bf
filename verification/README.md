# Deep-scan pipeline of a developer-profile builder, in Dafny

This project models the repository deep scan of `services/github_service.py`.
Given a username, the scan looks the user up on the code-hosting provider and
lists up to 15 repositories. It drops forks and summarises every other
repository: its languages, a README snippet, the date it was last updated, and
the technologies detected by shallow signature matching. Detection matches
file names and dependency-manifest substrings, plus a heuristic that marks
practice (competitive-programming) repositories.

Every network answer is a value here. The `GitHubApi.Remote` datatype holds
the user lookup, the repository listing, and one function per per-repository
endpoint. Each such function returns `None` where the source swallows an
exception or where its status guard fails. With those inputs given, the scan
is deterministic.

Modules (one file each):

- `Wrappers` (`wrappers.dfy`): `Option`, the result of a call that may fail softly.
- `Strings` (`strings.dfy`): Python's `in` on strings, `endswith`, `lower`, `s[:n]` and `split(sep)[0]`.
- `Signatures` (`signatures.dfy`): the catalogue `TECH_SIGNATURES`, `CP_KEYWORDS`, the three practice-repo labels, and the file names the scan tests for.
- `GitHubApi` (`github_api.dfy`): the provider's answers for one user.
- `TechStack` (`tech_stack.dfy`): `detect_cp_repo` and `scan_repo_tech_stack`.
  - `ScanTechStack` is the imperative scan: `+=` on the dependency text, a loop appending labels, then `list(set(...))`.
  - It is proved against the set-valued specification `DetectedTech`.
- `DeepScan` (`deep_scan.dfy`): `process_repo` and `fetch_github_data`.
- `Scenario` (`scenario.dfy`): a worked end-to-end scan of a user "alice". She owns a practice repository, a web application whose `package.json` reads `mongoose`, and a fork.

Points where the code's own behaviour is easy to misread:

- The third practice-repo label is `"Core Logic (C++/Java/Python)"`, the string the code appends, not a shorter `"Core Logic"`.
- `deep_scan` keeps the listing order, because `executor.map` returns results in submission order.
- The user lookup aborts only on the message `"Not Found"`. Any other error body, such as a rate-limit message, continues the scan with `public_repos` absent.

## Model

| member | source | states |
|---|---|---|
| `Strings.ContainsIff` | services/github_service.py:78 | Python's substring test `m in text` holds exactly when `m` occurs at some index of `text` |
| `Strings.Contains` | services/github_service.py:78 | Python's `sub in text`: true whenever `sub` is a prefix of `text`, and never when `sub` is longer than `text` |
| `Strings.ContainedInEmpty` | services/github_service.py:70 | only the empty string occurs in the empty dependency text |
| `Strings.ForeignCharNotContained` | services/github_service.py:78 | a marker holding a character the text lacks does not occur in the text |
| `Strings.EndsWith` | services/github_service.py:50 | `s.endswith(suffix)` holds iff `suffix` fits in `s` and each of its characters equals the character at the same offset from the end of `s` |
| `Strings.LowerAscii` | services/github_service.py:45 | `name.lower()` on ASCII: same length, no upper-case letter remains, other characters are kept, and an upper-case letter becomes the letter 32 code points above |
| `Strings.Truncate` | services/github_service.py:121 | `s[:600]` is the prefix of `s` whose length is the smaller of `len(s)` and 600 |
| `Strings.BeforeFirst` | services/github_service.py:130 | `split('T')[0]` is a prefix with no `'T'`, and it is followed by `'T'` whenever it is shorter than the input |
| `Strings.BeforeFirstAt` | services/github_service.py:130 | when the first `'T'` is at index `k`, `split('T')[0]` is the first `k` characters |
| `Signatures.TechsDistinct` | services/github_service.py:11-26 | the catalogue's labels (dict keys) are pairwise distinct |
| `Signatures.TechsDisjoint` | services/github_service.py:83-86 | no catalogue label is one of the three practice-repo labels |
| `Signatures.MarkersNonEmpty` | services/github_service.py:11-26 | every marker is non-empty |
| `Signatures.NoMarkerIsManifest` | services/github_service.py:11-26 | no marker is the file name `package.json` |
| `TechStack.CppFiles` | services/github_service.py:50 | the comprehension keeps exactly the listed files ending in `.cpp` or `.cc` |
| `TechStack.DetectCp` | services/github_service.py:40-54 | true when a keyword occurs in the lower-cased name, whatever the files; otherwise true iff some file ends in `.cpp` or `.cc` and `CMakeLists.txt` is not listed |
| `TechStack.NameKeywordIff` | services/github_service.py:45 | the `any(kw in name.lower() ...)` test holds iff some keyword occurs at some index of the lower-cased name |
| `TechStack.ManifestContent` | services/github_service.py:71-74 | a manifest contributes its content only when it is listed and its fetch succeeded, and `""` otherwise |
| `TechStack.DependencyText` | services/github_service.py:69-74 | the text is `""` when neither manifest is listed; otherwise it is the `package.json` part followed by the `requirements.txt` part |
| `TechStack.MatchesIff` | services/github_service.py:78 | the test `any(s in files ...) or any(s in dependencies_text ...)` (`Matches`) holds iff one of the signature's markers is a listed file name or occurs at some index of the dependency text |
| `TechStack.MatchedTechsIff` | services/github_service.py:76-79 | a label is appended iff some catalogue entry with that label has a marker that is a listed file or a substring of the dependency text |
| `TechStack.MatchSignatures` | services/github_service.py:76-79 | the loop over the catalogue appends exactly the labels `MatchedTechs` gives, in catalogue order |
| `TechStack.Dedup` | services/github_service.py:88 | `list(set(xs))` has no duplicates and holds exactly the elements of `xs` |
| `TechStack.DetectedTechIff` | services/github_service.py:76-88 | a label is detected iff a catalogue entry carrying it fires, or `detect_cp_repo` holds and it is one of the three practice-repo labels |
| `TechStack.TechStackOf` | services/github_service.py:56-74 | with a failed listing the scan works on no files and an empty dependency text; otherwise on the listing and the text of its listed manifests |
| `TechStack.ScanTechStack` | services/github_service.py:56-88 | the returned list has no duplicates and holds exactly the detected set for the provider's answers |
| `TechStack.TechSelectedIff` | services/github_service.py:77-79 | a catalogue label is detected iff one of its markers is a listed file or occurs in the dependency text |
| `TechStack.CpLabelsAllOrNothing` | services/github_service.py:82-86 | all three practice-repo labels are detected when `detect_cp_repo` holds, and none of them otherwise |
| `TechStack.DetectedWithinCatalogue` | services/github_service.py:76-88 | every detected label is a catalogue label or a practice-repo label |
| `TechStack.FailedListing` | services/github_service.py:63-67 | after a failed file listing the detected set is the three practice-repo labels if the name has a keyword, and empty otherwise |
| `DeepScan.Summarize` | services/github_service.py:103-131 | the summary keeps the name and description; `languages` is the languages answer or `{}`; `detected_tech` is the repository's detected set; the README snippet is the prefix of the README (or of `""`) whose length is the smaller of its length and 600; `updated_at` is the timestamp up to its first `'T'` |
| `DeepScan.IsFork` | services/github_service.py:102 | `repo.get('fork', False)` is true for `fork: true` only; a missing, null or false `fork` is not a fork |
| `DeepScan.ProcessRepo` | services/github_service.py:102 | nothing is returned exactly for a descriptor whose `fork` is true; a missing or null `fork` is not a fork |
| `DeepScan.MapRepos` | services/github_service.py:135 | one result per descriptor, in submission order |
| `DeepScan.Present` | services/github_service.py:136 | every non-`None` result is kept, and the filtered list is no longer than the results; that it holds nothing else, in order, is `DeepScanIsNonForkSummaries` |
| `DeepScan.DeepScanOf` | services/github_service.py:133-136 | a listing that is not a list gives no summaries; a list gives the summaries of its non-fork descriptors, in listing order |
| `DeepScan.NonForks` | services/github_service.py:102 | keeps exactly the descriptors that are not forks |
| `DeepScan.FetchGithubData` | services/github_service.py:90-142 | the error record comes back exactly when the lookup reports `"Not Found"`; otherwise the profile carries the username and `public_repos`, and a listing that is not a list gives an empty `deep_scan` |
| `DeepScan.DeepScanIsNonForkSummaries` | services/github_service.py:133-136 | dropping the `None`s of the mapped results equals summarising the non-fork descriptors, in listing order |
| `DeepScan.DeepScanCoversNonForks` | services/github_service.py:133-136 | every summary in `deep_scan` comes from a non-fork descriptor; each non-fork descriptor contributes one summary |
| `DeepScan.SoftFailure` | services/github_service.py:105-122 | a non-fork repository whose fetches all failed still yields a summary with empty languages, an empty snippet, and only keyword-based detections |
| `Scenario.PracticeRepoDetection` | services/github_service.py:45-46 | "leetcode-prep" listing only `a.cpp` is detected as exactly the three practice-repo labels |
| `Scenario.WebAppDetection` | services/github_service.py:76-79 | "webapp" listing `package.json` that reads `mongoose` is detected as exactly `{"MongoDB"}` |
| `Scenario.WebAppDate` | services/github_service.py:130 | the timestamp `2024-04-02T08:30:00Z` gives the date `2024-04-02` |
| `Scenario.AliceScanShape` | services/github_service.py:133-142 | alice's scan holds two summaries, for her two non-fork repositories, in listing order |
| `Scenario.AliceScan` | services/github_service.py:90-142 | alice's scan: the fork is absent; `leetcode-prep` has the practice-repo labels; `webapp` has `{"MongoDB"}` and date `2024-04-02` |

## Left out

- HTTP requests, URLs, the `Authorization` header built from the `GITHUB_TOKEN` environment variable, and the per-call timeouts (services/github_service.py:7-8, 31-38, 64-67, 91-97, 107-122). Each call is replaced by the value it produced, given in `GitHubApi.Remote`.
- Base64 decoding (section 4 of RFC 4648) and UTF-8 decoding of file and README content (services/github_service.py:36, 121). The model receives the decoded text, or `None` when the status was not 200 or decoding raised.
- The `ThreadPoolExecutor` with 8 workers (services/github_service.py:134-135). It is modelled as a sequential map that keeps submission order. The worker bound has no functional effect.
- `str.lower()` is modelled on ASCII letters only (`Strings.LowerAscii`). Repository names on the provider are ASCII, so Unicode case mapping cannot arise.
- Element order of `detected_tech`: the source returns `list(set(...))`, whose order Python does not specify. `RepoSummary.detectedTech` is a set. `ScanTechStack` promises only a duplicate-free list with the right elements.
- The languages endpoint's body is stored without a status check (services/github_service.py:109). An error response therefore puts the provider's error object into `languages`. The model's `languages` input is a map of names to byte counts, so that case is only the map the caller supplies.
- Exceptions the source does not catch are not modelled: a failed user or repository-listing request, and a descriptor without `name`, `description` or `updated_at` (services/github_service.py:92, 97, 103, 126, 130). The model's descriptors always carry these fields.
- services/ai_service.py (prompt construction and a call to an external generative-language API), app.py (the Flask request handler) and services/pdf_service.py (PDF text extraction) are not part of this model.
