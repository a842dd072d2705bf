/** The hosting provider's REST surface, seen from one scan of one user: every
    remote call is replaced by the value it returned. A call that raised (a
    timeout, a non-JSON body, a decode error) or whose guard failed is `None`.
    Authentication headers and URLs play no part in the decisions and are absent. */
module GitHubApi {
  import opened Wrappers

  /** The fields of the user-lookup JSON object the scan reads. */
  datatype UserLookup = UserLookup(message: Option<string>, publicRepos: Option<int>)

  /** One entry of the repository listing. `description` is JSON null or a string;
      `fork` is `None` when the field is absent or null. */
  datatype RepoDescriptor = RepoDescriptor(
    name: string,
    description: Option<string>,
    fork: Option<bool>,
    updatedAt: string)

  /** The decoded repository-listing body: a JSON list, or anything else
      (an error object of the provider). */
  datatype ReposResponse = RepoList(repos: seq<RepoDescriptor>) | NotAList

  /** The answers of the provider for one user.
      - `contents(repo)`: the `name` of every top-level entry, `None` when the
        request or the list comprehension raised;
      - `fileContent(repo, path)`: the base64- and UTF-8-decoded file, `None`
        unless the status was 200 and decoding succeeded;
      - `languages(repo)`: the decoded languages object, `None` when the request raised;
      - `readme(repo)`: the decoded README, `None` unless the status was 200
        and decoding succeeded. */
  datatype Remote = Remote(
    user: UserLookup,
    repos: ReposResponse,
    contents: string -> Option<seq<string>>,
    fileContent: (string, string) -> Option<string>,
    languages: string -> Option<map<string, int>>,
    readme: string -> Option<string>)
}
