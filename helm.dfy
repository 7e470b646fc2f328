/**
 * Repository credential resolution for the manifest renderer (preview/helm.go).
 *
 * A username and a password are resolved separately for a repository URL: a non-blank
 * environment override wins; otherwise the value comes from the first repository of Helm's
 * local repository file whose URL matches; otherwise it is "".
 */
module Helm {
  import opened Wrappers
  import opened Strings

  /** One repository of Helm's local repository file (`repo.Entry`, the fields used here). */
  datatype Entry = Entry(url: string, username: string, password: string)

  /** The zero `repo.Entry` returned when nothing matches. */
  const EmptyEntry := Entry("", "", "")

  const PasswordVariable := "HELM_REPO_PASSWORD"
  const UsernameVariable := "HELM_REPO_USERNAME"

  /** The process environment: variable name to value; a name that is absent is unset. */
  type Environment = map<string, string>

  /** URL comparison of the lookup: each side loses at most one trailing "/". */
  predicate UrlMatches(entryUrl: string, repoUrl: string)
  {
    TrimSuffix(entryUrl, "/") == TrimSuffix(repoUrl, "/")
  }

  /** `i` is the position of the first repository whose URL matches `repoUrl`. */
  predicate IsFirstMatch(repos: seq<Entry>, repoUrl: string, i: int)
  {
    && 0 <= i < |repos|
    && UrlMatches(repos[i].url, repoUrl)
    && forall j :: 0 <= j < i ==> !UrlMatches(repos[j].url, repoUrl)
  }

  /** No repository of the file matches `repoUrl`. */
  predicate NoMatch(repos: seq<Entry>, repoUrl: string)
  {
    forall e :: e in repos ==> !UrlMatches(e.url, repoUrl)
  }

  /** Position of the first matching repository, if any. */
  function FirstMatch(repos: seq<Entry>, repoUrl: string): (r: Option<nat>)
    ensures r.Some? ==> IsFirstMatch(repos, repoUrl, r.value)
    ensures r.None? ==> NoMatch(repos, repoUrl)
  {
    if |repos| == 0 then None
    else if UrlMatches(repos[0].url, repoUrl) then Some(0)
    else
      match FirstMatch(repos[1..], repoUrl)
      case None => NoMatchTail(repos, repoUrl); None
      case Some(i) => FirstMatchTail(repos, repoUrl, i); Some(i + 1)
  }

  /** A first match in the tail, after a head that does not match, is the first match overall. */
  lemma FirstMatchTail(repos: seq<Entry>, repoUrl: string, i: nat)
    requires |repos| > 0 && !UrlMatches(repos[0].url, repoUrl) && IsFirstMatch(repos[1..], repoUrl, i)
    ensures IsFirstMatch(repos, repoUrl, i + 1)
  {
    forall j | 0 < j < i + 1 ensures !UrlMatches(repos[j].url, repoUrl) {
      assert repos[j] == repos[1..][j - 1];
    }
  }

  lemma NoMatchTail(repos: seq<Entry>, repoUrl: string)
    requires |repos| > 0 && !UrlMatches(repos[0].url, repoUrl) && NoMatch(repos[1..], repoUrl)
    ensures NoMatch(repos, repoUrl)
  {
    assert repos == [repos[0]] + repos[1..];
  }

  /** The entry `findHelmRepo` answers for a loaded file (None when no file was loaded). */
  function Lookup(file: Option<seq<Entry>>, repoUrl: string): Entry
  {
    match file
    case None => EmptyEntry
    case Some(repos) =>
      match FirstMatch(repos, repoUrl)
      case None => EmptyEntry
      case Some(i) => repos[i]
  }

  /** The value of an override variable when it is set and not blank after trimming. */
  function EnvOverride(env: Environment, name: string): (r: Option<string>)
    ensures r.Some? <==> name in env && !AllSpace(env[name])
    ensures r.Some? ==> r.value == env[name]
  {
    if name !in env then None
    else
      TrimSpaceEmptyIff(env[name]);
      if TrimSpace(env[name]) != "" then Some(env[name]) else None
  }

  /** What `FindRepoPassword` answers, given the environment and the loaded file. */
  function ResolvePassword(env: Environment, file: Option<seq<Entry>>, repoUrl: string): string
  {
    match EnvOverride(env, PasswordVariable)
    case Some(v) => v
    case None => Lookup(file, repoUrl).password
  }

  /** What `FindRepoUsername` answers, given the environment and the loaded file. */
  function ResolveUsername(env: Environment, file: Option<seq<Entry>>, repoUrl: string): string
  {
    match EnvOverride(env, UsernameVariable)
    case Some(v) => v
    case None => Lookup(file, repoUrl).username
  }

  /** The package state of preview/helm.go: the loaded local repository file, and the warnings logged. */
  class HelmRepositories {
    var localHelmFile: Option<seq<Entry>>
    var warnings: seq<string>

    /** Before the first load the package variable is nil. */
    constructor ()
      ensures localHelmFile == None && warnings == []
    {
      localHelmFile := None;
      warnings := [];
    }

    /**
     * Stores what the loader returned, even when it also returned an error; an error is only
     * logged as a warning. `loaded` and `err` are the two results of `repo.LoadFile`.
     */
    method LoadLocalHelmFile(loaded: Option<seq<Entry>>, err: Option<string>)
      modifies this
      ensures localHelmFile == loaded
      ensures warnings == old(warnings) + if err.Some? then ["could not read helm local repository config: " + err.value] else []
    {
      if err.Some? {
        warnings := warnings + ["could not read helm local repository config: " + err.value];
      }
      localHelmFile := loaded;
    }

    /** Linear search of the loaded file, returning on the first matching URL. */
    method FindHelmRepo(repoUrl: string) returns (e: Entry)
      ensures e == Lookup(localHelmFile, repoUrl)
    {
      if localHelmFile.Some? {
        var repos := localHelmFile.value;
        var url := TrimSuffix(repoUrl, "/");
        for i := 0 to |repos|
          invariant forall j :: 0 <= j < i ==> !UrlMatches(repos[j].url, repoUrl)
        {
          if TrimSuffix(repos[i].url, "/") == url {
            FirstMatchAt(repos, repoUrl, i);
            return repos[i];
          }
        }
      }
      return EmptyEntry;
    }

    method FindRepoPassword(env: Environment, repoUrl: string) returns (password: string)
      ensures password == ResolvePassword(env, localHelmFile, repoUrl)
    {
      if PasswordVariable in env && TrimSpace(env[PasswordVariable]) != "" {
        TrimSpaceEmptyIff(env[PasswordVariable]);
        return env[PasswordVariable];
      }
      TrimSpaceEmptyIff(if PasswordVariable in env then env[PasswordVariable] else "");
      var entry := FindHelmRepo(repoUrl);
      return entry.password;
    }

    method FindRepoUsername(env: Environment, repoUrl: string) returns (username: string)
      ensures username == ResolveUsername(env, localHelmFile, repoUrl)
    {
      if UsernameVariable in env && TrimSpace(env[UsernameVariable]) != "" {
        TrimSpaceEmptyIff(env[UsernameVariable]);
        return env[UsernameVariable];
      }
      TrimSpaceEmptyIff(if UsernameVariable in env then env[UsernameVariable] else "");
      var entry := FindHelmRepo(repoUrl);
      return entry.username;
    }
  }

  /** The first match is unique, so any first-match position is the one `FirstMatch` finds. */
  lemma FirstMatchAt(repos: seq<Entry>, repoUrl: string, i: nat)
    requires IsFirstMatch(repos, repoUrl, i)
    ensures FirstMatch(repos, repoUrl) == Some(i)
  {
  }

  /** A set, non-blank password override is returned as it is, whatever the URL and the file. */
  lemma PasswordOverrideWins(env: Environment, file: Option<seq<Entry>>, repoUrl: string)
    requires PasswordVariable in env && !AllSpace(env[PasswordVariable])
    ensures ResolvePassword(env, file, repoUrl) == env[PasswordVariable]
  {
  }

  /** A set, non-blank username override is returned as it is, whatever the URL and the file. */
  lemma UsernameOverrideWins(env: Environment, file: Option<seq<Entry>>, repoUrl: string)
    requires UsernameVariable in env && !AllSpace(env[UsernameVariable])
    ensures ResolveUsername(env, file, repoUrl) == env[UsernameVariable]
  {
  }

  /** An unset or blank override falls through to the file lookup. */
  lemma BlankOverrideFallsThrough(env: Environment, file: Option<seq<Entry>>, repoUrl: string)
    requires PasswordVariable !in env || AllSpace(env[PasswordVariable])
    requires UsernameVariable !in env || AllSpace(env[UsernameVariable])
    ensures ResolvePassword(env, file, repoUrl) == Lookup(file, repoUrl).password
    ensures ResolveUsername(env, file, repoUrl) == Lookup(file, repoUrl).username
  {
  }

  /**
   * Username and password are resolved independently: changing the password variable does not
   * change the username, and changing the username variable does not change the password.
   */
  lemma ResolutionIndependent(env: Environment, v: string, file: Option<seq<Entry>>, repoUrl: string)
    ensures ResolveUsername(env[PasswordVariable := v], file, repoUrl) == ResolveUsername(env, file, repoUrl)
    ensures ResolvePassword(env[UsernameVariable := v], file, repoUrl) == ResolvePassword(env, file, repoUrl)
  {
    assert PasswordVariable != UsernameVariable;
  }

  /** A query URL with one more trailing "/" gets the same entry, as long as it had none before. */
  lemma TrailingSlashIgnored(file: Option<seq<Entry>>, repoUrl: string)
    requires !HasSuffix(repoUrl, "/")
    ensures Lookup(file, repoUrl + "/") == Lookup(file, repoUrl)
  {
    TrimSuffixOnce(repoUrl, "/");
    assert TrimSuffix(repoUrl, "/") == repoUrl;
    if file.Some? {
      FirstMatchSameKey(file.value, repoUrl + "/", repoUrl);
    }
  }

  /** Two query URLs that agree after trimming one "/" find the same position. */
  lemma {:induction false} FirstMatchSameKey(repos: seq<Entry>, u1: string, u2: string)
    requires TrimSuffix(u1, "/") == TrimSuffix(u2, "/")
    ensures FirstMatch(repos, u1) == FirstMatch(repos, u2)
  {
    if |repos| > 0 {
      FirstMatchSameKey(repos[1..], u1, u2);
    }
  }

  /** Only one "/" is ignored: a repository registered as "https://dummy" does not serve "https://dummy//". */
  lemma DoubleSlashNotIgnored()
    ensures Lookup(Some([Entry("https://dummy", "helmUsername", "helmPassword")]), "https://dummy//") == EmptyEntry
  {
    var repos := [Entry("https://dummy", "helmUsername", "helmPassword")];
    TrimSuffixOnce("https://dummy/", "/");
    assert TrimSuffix("https://dummy", "/") == "https://dummy";
    assert !UrlMatches(repos[0].url, "https://dummy//");
  }

  /** When the first match lies in `repos`, repositories appended after it are never consulted. */
  lemma {:induction false} LaterEntriesIgnored(repos: seq<Entry>, more: seq<Entry>, repoUrl: string)
    requires FirstMatch(repos, repoUrl).Some?
    ensures Lookup(Some(repos + more), repoUrl) == Lookup(Some(repos), repoUrl)
  {
    var i := FirstMatch(repos, repoUrl).value;
    assert (repos + more)[..|repos|] == repos;
    FirstMatchAt(repos + more, repoUrl, i);
  }

  /** No file, or no matching repository, resolves to empty credentials rather than an error. */
  lemma MissingEntryIsEmpty(file: Option<seq<Entry>>, repoUrl: string)
    requires file.None? || NoMatch(file.value, repoUrl)
    ensures Lookup(file, repoUrl) == EmptyEntry
  {
  }

  /** The repository that the scenarios of preview/helm_test.go find in the local file. */
  const Dummy := Entry("https://dummy", "helmUsername", "helmPassword")

  /** Overrides from the environment win for known and unknown URLs (TestFindRepoCredentialsFromEnv). */
  method CredentialsFromEnvScenario()
  {
    var helm := new HelmRepositories();
    var env := map[PasswordVariable := "myPassword", UsernameVariable := "myUsername"];
    helm.LoadLocalHelmFile(Some([Dummy]), None);
    assert !AllSpace("myPassword") by { assert !IsSpace("myPassword"[0]); }
    assert !AllSpace("myUsername") by { assert !IsSpace("myUsername"[0]); }
    var p := helm.FindRepoPassword(env, "https://dummy");
    var u := helm.FindRepoUsername(env, "https://dummy");
    assert p == "myPassword" && u == "myUsername";
    p := helm.FindRepoPassword(env, "https://unknown");
    u := helm.FindRepoUsername(env, "https://unknown");
    assert p == "myPassword" && u == "myUsername";
  }

  /** Without overrides the file answers, also for a URL with a trailing slash (TestFindRepoCredentialsFromHelmConfig). */
  method CredentialsFromHelmConfigScenario()
  {
    var helm := new HelmRepositories();
    helm.LoadLocalHelmFile(Some([Dummy]), None);
    FirstMatchAt([Dummy], "https://dummy", 0);
    var p := helm.FindRepoPassword(map[], "https://dummy");
    var u := helm.FindRepoUsername(map[], "https://dummy");
    assert p == "helmPassword" && u == "helmUsername";
    TrailingSlashIgnored(Some([Dummy]), "https://dummy");
    p := helm.FindRepoPassword(map[], "https://dummy/");
    u := helm.FindRepoUsername(map[], "https://dummy/");
    assert p == "helmPassword" && u == "helmUsername";
    TrimSuffixOnce("https://dummy", "/");
    assert !UrlMatches(Dummy.url, "https://no.defined.in.repositories");
    MissingEntryIsEmpty(Some([Dummy]), "https://no.defined.in.repositories");
    p := helm.FindRepoPassword(map[], "https://no.defined.in.repositories");
    u := helm.FindRepoUsername(map[], "https://no.defined.in.repositories");
    assert p == "" && u == "";
  }

  /** A configuration file that cannot be read leaves no repositories and logs a warning (TestFindRepoCredentialsNone). */
  method CredentialsNoneScenario()
  {
    var helm := new HelmRepositories();
    helm.LoadLocalHelmFile(None, Some("open no/repositories.yaml: no such file or directory"));
    var p := helm.FindRepoPassword(map[], "https://dummy");
    var u := helm.FindRepoUsername(map[], "https://dummy");
    assert p == "" && u == "" && |helm.warnings| == 1;
  }
}
