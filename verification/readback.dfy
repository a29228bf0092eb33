/** What the sections written by `set_credentials` and
    `set_jenkins_credentials` (lib/config.js:79-140) read back as, option by
    option. Each option gets a lemma of its own so that every proof reads
    a single option of the fourteen-call sequence. */
module Readback {
  import opened Wrappers
  import opened Js
  import opened Store
  import opened Writer
  import opened Credentials

  lemma VcsReadType(creds: Doc, e: VcsEntry, env: string, sec: string, os: seq<Opt>)
    requires os == VcsOptions(e, env)
    ensures Get(Rewrite(creds, sec, os), sec, "type") == Some(ToStr(e.vcsType))
  {
    ReadAt(creds, sec, os, 0, Opt("type", e.vcsType, true));
  }

  lemma VcsReadEnv(creds: Doc, e: VcsEntry, env: string, sec: string, os: seq<Opt>)
    requires os == VcsOptions(e, env)
    ensures Get(Rewrite(creds, sec, os), sec, "env") == Some(env)
  {
    assert Stored(Str(env), true) == env;
    ReadAt(creds, sec, os, 1, Opt("env", Str(env), true));
  }

  lemma VcsReadUsername(creds: Doc, e: VcsEntry, env: string, sec: string, os: seq<Opt>)
    requires os == VcsOptions(e, env)
    ensures Get(Rewrite(creds, sec, os), sec, "username") == Some(if e.user != Str("") then ToStr(e.user) else "-")
  {
    ReadAt(creds, sec, os, 2, Opt("username", e.user, e.user != Str("")));
  }

  lemma VcsReadPassword(creds: Doc, e: VcsEntry, env: string, sec: string, os: seq<Opt>)
    requires os == VcsOptions(e, env)
    ensures Get(Rewrite(creds, sec, os), sec, "password") == Some(if e.auth == Str("user_pass") || e.auth == Str("deploy_key") then ToStr(e.token) else "-")
  {
    ReadAt(creds, sec, os, 3, Opt("password", e.token, e.auth == Str("user_pass") || e.auth == Str("deploy_key")));
  }

  lemma VcsReadGithubApiUrl(creds: Doc, e: VcsEntry, env: string, sec: string, os: seq<Opt>)
    requires os == VcsOptions(e, env)
    ensures Get(Rewrite(creds, sec, os), sec, "github_api_url") == Some("-")
  {
    assert Stored(Str("-"), true) == "-";
    ReadAt(creds, sec, os, 4, Opt("github_api_url", Str("-"), true));
  }

  lemma VcsReadGithubToken(creds: Doc, e: VcsEntry, env: string, sec: string, os: seq<Opt>)
    requires os == VcsOptions(e, env)
    ensures Get(Rewrite(creds, sec, os), sec, "github_token") == Some(if e.auth == Str("github_api") then ToStr(e.token) else "-")
  {
    ReadAt(creds, sec, os, 5, Opt("github_token", e.token, e.auth == Str("github_api")));
  }

  lemma VcsReadGithubBots(creds: Doc, e: VcsEntry, env: string, sec: string, os: seq<Opt>)
    requires os == VcsOptions(e, env)
    ensures Get(Rewrite(creds, sec, os), sec, "github_bots") == Some("-")
  {
    assert Stored(Str("-"), true) == "-";
    ReadAt(creds, sec, os, 6, Opt("github_bots", Str("-"), true));
  }

  lemma VcsReadTfs(creds: Doc, e: VcsEntry, env: string, sec: string, os: seq<Opt>)
    requires os == VcsOptions(e, env)
    ensures Get(Rewrite(creds, sec, os), sec, "tfs") == Some(if e.vcsType == Str("tfs") then (if e.group != Str("") then ToStr(e.group) else "true") else "-")
  {
    assert ToStr(Str("true")) == "true";
    ReadAt(creds, sec, os, 7, Opt("tfs", if e.group != Str("") then e.group else Str("true"), e.vcsType == Str("tfs")));
  }

  lemma VcsReadGitlabToken(creds: Doc, e: VcsEntry, env: string, sec: string, os: seq<Opt>)
    requires os == VcsOptions(e, env)
    ensures Get(Rewrite(creds, sec, os), sec, "gitlab_token") == Some(if e.auth == Str("gitlab_api") then ToStr(e.token) else "-")
  {
    ReadAt(creds, sec, os, 8, Opt("gitlab_token", e.token, e.auth == Str("gitlab_api")));
  }

  lemma VcsReadGroup(creds: Doc, e: VcsEntry, env: string, sec: string, os: seq<Opt>)
    requires os == VcsOptions(e, env)
    ensures Get(Rewrite(creds, sec, os), sec, "group") == Some(if e.vcsType == Str("gitlab") then ToStr(e.group) else "-")
  {
    ReadAt(creds, sec, os, 9, Opt("group", e.group, e.vcsType == Str("gitlab")));
  }

  lemma VcsReadUnsafeHosts(creds: Doc, e: VcsEntry, env: string, sec: string, os: seq<Opt>)
    requires os == VcsOptions(e, env)
    ensures Get(Rewrite(creds, sec, os), sec, "unsafe_hosts") == Some(if Truthy(e.unsafe) then "true" else "-")
  {
    assert Stored(Str("true"), Truthy(e.unsafe)) == if Truthy(e.unsafe) then "true" else "-";
    ReadAt(creds, sec, os, 10, Opt("unsafe_hosts", Str("true"), Truthy(e.unsafe)));
  }

  lemma VcsReadSkipStats(creds: Doc, e: VcsEntry, env: string, sec: string, os: seq<Opt>)
    requires os == VcsOptions(e, env)
    ensures Get(Rewrite(creds, sec, os), sec, "skip_stats") == Some(if Truthy(e.skipStats) then "true" else "-")
  {
    assert Stored(Str("true"), Truthy(e.skipStats)) == if Truthy(e.skipStats) then "true" else "-";
    ReadAt(creds, sec, os, 11, Opt("skip_stats", Str("true"), Truthy(e.skipStats)));
  }

  lemma VcsReadFromDate(creds: Doc, e: VcsEntry, env: string, sec: string, os: seq<Opt>)
    requires os == VcsOptions(e, env)
    ensures Get(Rewrite(creds, sec, os), sec, "from_date") == Some(ToStr(e.fromDate))
  {
    ReadAt(creds, sec, os, 12, Opt("from_date", e.fromDate, true));
  }

  lemma VcsReadTag(creds: Doc, e: VcsEntry, env: string, sec: string, os: seq<Opt>)
    requires os == VcsOptions(e, env)
    ensures Get(Rewrite(creds, sec, os), sec, "tag") == Some(ToStr(e.tag))
  {
    ReadAt(creds, sec, os, 13, Opt("tag", e.tag, true));
  }

  /** The option discipline of a written version-control section: `env`
      is the placeholder exactly for username/password; the password is
      real only for username/password and deploy keys, each API token
      only for its own API; the TFS marker only for TFS, the group only for
      GitLab; the GitHub API URL and bots are always the placeholder. */
  lemma SetCredentialsOptions(opts: Options, creds: Doc, data: Data, index: nat, sources: seq<Source>)
    requires SetCredentials(opts, creds, data, index, sources).Success?
    ensures var e := VcsAt(data, index);
            var sec := VcsSection(e);
            var d := SetCredentials(opts, creds, data, index, sources).value.credentials;
            && Get(d, sec, "type") == Some(ToStr(e.vcsType))
            && Get(d, sec, "env") == Some(if e.auth == Str("user_pass") then "-" else EnvName(index))
            && Get(d, sec, "username") == Some(if e.user != Str("") then ToStr(e.user) else "-")
            && Get(d, sec, "password")
               == Some(if e.auth == Str("user_pass") || e.auth == Str("deploy_key") then ToStr(e.token) else "-")
            && Get(d, sec, "github_api_url") == Some("-")
            && Get(d, sec, "github_token") == Some(if e.auth == Str("github_api") then ToStr(e.token) else "-")
            && Get(d, sec, "github_bots") == Some("-")
            && Get(d, sec, "tfs")
               == Some(if e.vcsType == Str("tfs") then (if e.group != Str("") then ToStr(e.group) else "true") else "-")
            && Get(d, sec, "gitlab_token") == Some(if e.auth == Str("gitlab_api") then ToStr(e.token) else "-")
            && Get(d, sec, "group") == Some(if e.vcsType == Str("gitlab") then ToStr(e.group) else "-")
            && Get(d, sec, "unsafe_hosts") == Some(if Truthy(e.unsafe) then "true" else "-")
            && Get(d, sec, "skip_stats") == Some(if Truthy(e.skipStats) then "true" else "-")
            && Get(d, sec, "from_date") == Some(ToStr(e.fromDate))
            && Get(d, sec, "tag") == Some(ToStr(e.tag))
  {
    var e := VcsAt(data, index);
    var env := CredentialsEnv(e.auth, index);
    var os := VcsOptions(e, env);
    var sec := VcsSection(e);
    VcsReadType(creds, e, env, sec, os);
    VcsReadEnv(creds, e, env, sec, os);
    VcsReadUsername(creds, e, env, sec, os);
    VcsReadPassword(creds, e, env, sec, os);
    VcsReadGithubApiUrl(creds, e, env, sec, os);
    VcsReadGithubToken(creds, e, env, sec, os);
    VcsReadGithubBots(creds, e, env, sec, os);
    VcsReadTfs(creds, e, env, sec, os);
    VcsReadGitlabToken(creds, e, env, sec, os);
    VcsReadGroup(creds, e, env, sec, os);
    VcsReadUnsafeHosts(creds, e, env, sec, os);
    VcsReadSkipStats(creds, e, env, sec, os);
    VcsReadFromDate(creds, e, env, sec, os);
    VcsReadTag(creds, e, env, sec, os);
  }

  lemma JenkinsReadType(creds: Doc, user: Value, token: Value, unsafe: Value, sec: string, os: seq<Opt>)
    requires os == JenkinsOptions(user, token, unsafe)
    ensures Get(Rewrite(creds, sec, os), sec, "type") == Some("jenkins")
  {
    assert Stored(Str("jenkins"), true) == "jenkins";
    ReadAt(creds, sec, os, 0, Opt("type", Str("jenkins"), true));
  }

  lemma JenkinsReadUsername(creds: Doc, user: Value, token: Value, unsafe: Value, sec: string, os: seq<Opt>)
    requires os == JenkinsOptions(user, token, unsafe)
    ensures Get(Rewrite(creds, sec, os), sec, "username") == Some(ToStr(user))
  {
    ReadAt(creds, sec, os, 1, Opt("username", user, true));
  }

  lemma JenkinsReadPassword(creds: Doc, user: Value, token: Value, unsafe: Value, sec: string, os: seq<Opt>)
    requires os == JenkinsOptions(user, token, unsafe)
    ensures Get(Rewrite(creds, sec, os), sec, "password") == Some(ToStr(token))
  {
    ReadAt(creds, sec, os, 2, Opt("password", token, true));
  }

  lemma JenkinsReadUnsafeHosts(creds: Doc, user: Value, token: Value, unsafe: Value, sec: string, os: seq<Opt>)
    requires os == JenkinsOptions(user, token, unsafe)
    ensures Get(Rewrite(creds, sec, os), sec, "unsafe_hosts") == Some(if Truthy(unsafe) then "true" else "-")
  {
    assert Stored(Str("true"), Truthy(unsafe)) == if Truthy(unsafe) then "true" else "-";
    ReadAt(creds, sec, os, 3, Opt("unsafe_hosts", Str("true"), Truthy(unsafe)));
  }

  /** A Jenkins section is tagged `type=jenkins` and holds the user, the
      token and the unsafe flag of its row. */
  lemma JenkinsSectionReads(creds: Doc, data: Data, index: nat)
    ensures var sec := ToStr(JenkinsHost(data, index));
            var r := SetJenkinsCredentials(creds, data, index);
            && Get(r, sec, "type") == Some("jenkins")
            && Get(r, sec, "username") == Some(ToStr(At(Field(data, "jenkins_user"), index)))
            && Get(r, sec, "password") == Some(ToStr(At(Field(data, "jenkins_token"), index)))
            && Get(r, sec, "unsafe_hosts")
               == Some(if Truthy(At(Field(data, "jenkins_unsafe"), index)) then "true" else "-")
  {
    var user, token, unsafe := At(Field(data, "jenkins_user"), index), At(Field(data, "jenkins_token"), index),
                               At(Field(data, "jenkins_unsafe"), index);
    var sec := ToStr(JenkinsHost(data, index));
    var os := JenkinsOptions(user, token, unsafe);
    JenkinsReadType(creds, user, token, unsafe, sec, os);
    JenkinsReadUsername(creds, user, token, unsafe, sec, os);
    JenkinsReadPassword(creds, user, token, unsafe, sec, os);
    JenkinsReadUnsafeHosts(creds, user, token, unsafe, sec, os);
  }
}
