/** `writeSettings` (lib/config.js:142-179): rewrites the sections of the
    settings document the configuration form owns and leaves every other
    section as it was. */
module Settings {
  import opened Wrappers
  import opened Js
  import opened Store
  import opened Writer

  /** The sections `writeSettings` rebuilds, in the order it rebuilds them. */
  const Rebuilt: seq<string> := ["bigboat", "projects", "ssh", "jenkins", "quality-time"]

  function BigboatOptions(data: Data): seq<Opt> {
    [Opt("host", Field(data, "bigboat_url"), true), Opt("key", Field(data, "bigboat_key"), true)]
  }

  /** One option per project, named by the project key and holding the
      quality report name. */
  function ProjectOptions(projects: seq<Project>): (r: seq<Opt>)
    ensures |r| == |projects|
    ensures forall i :: 0 <= i < |projects| ==> r[i] == Opt(ToStr(projects[i].key), projects[i].value, true)
  {
    if |projects| == 0 then []
    else [Opt(ToStr(projects[0].key), projects[0].value, true)] + ProjectOptions(projects[1..])
  }

  function SshOptions(opts: Options, data: Data): seq<Opt> {
    [ Opt("username", Str("agent-" + ToStr(Field(data, "jira_key"))), true),
      Opt("host", Str(opts.sshHost), true),
      Opt("cert", Str("certs/wwwgros.crt"), true) ]
  }

  const JenkinsBlank: seq<Opt> :=
    [Opt("host", Str(""), true), Opt("username", Str(""), true), Opt("password", Str(""), true), Opt("verify", Str(""), true)]

  /** The `quality-time` options: a name and the URL when a URL was
      submitted, nothing otherwise. */
  function QualityTimeOptions(data: Data): seq<Opt> {
    if Truthy(Field(data, "quality_time_url")) then
      [Opt("name", Str("quality-time-data"), true), Opt("url", Field(data, "quality_time_url"), true)]
    else []
  }

  /** The first two rewrites: `bigboat`, then `projects`. */
  function Leading(settings: Doc, data: Data, projects: seq<Project>): Doc {
    Rewrite(Rewrite(settings, "bigboat", BigboatOptions(data)), "projects", ProjectOptions(projects))
  }

  /** The first four rewrites: `bigboat`, `projects`, `ssh` and `jenkins`. */
  function Rewritten(opts: Options, settings: Doc, data: Data, projects: seq<Project>): Doc {
    Rewrite(Rewrite(Leading(settings, data, projects), "ssh", SshOptions(opts, data)), "jenkins", JenkinsBlank)
  }

  /** `definitions.name`: always removed, then set again when the quality
      report is enabled (a no-op when the section is missing). */
  function Definitions(d: Doc, data: Data): (r: Doc)
    ensures Sections(r) == Sections(d)
  {
    var d' := RemoveKey(d, "definitions", "name");
    if Truthy(Field(data, "quality_report_enable")) then SetOption(d', "definitions", "name", Str("quality-report-data"))
    else d'
  }

  /** `writeSettings(data, projects)`: the settings document it writes. */
  function WriteSettings(opts: Options, settings: Doc, data: Data, projects: seq<Project>): Doc {
    Rewrite(Definitions(Rewritten(opts, settings, data, projects), data), "quality-time", QualityTimeOptions(data))
  }

  // ---------------------------------------------------------------------
  // What the rewritten document holds

  /** The rebuilt sections end the document, in rebuild order, after
      every other section in its old order. */
  lemma SettingsSections(opts: Options, settings: Doc, data: Data, projects: seq<Project>)
    ensures Sections(WriteSettings(opts, settings, data, projects)) == Arrange(Sections(settings), Rebuilt)
  {
    var r1, r2, r3, r4 := ["projects", "ssh", "jenkins", "quality-time"], ["ssh", "jenkins", "quality-time"], ["jenkins", "quality-time"], ["quality-time"];
    assert Rebuilt == ["bigboat"] + r1 && r1 == ["projects"] + r2 && r2 == ["ssh"] + r3 && r3 == ["jenkins"] + r4 && r4 == ["quality-time"] + [];
    var s0 := Sections(settings);
    var s1 := Erase(s0, "bigboat") + ["bigboat"];
    var s2 := Erase(s1, "projects") + ["projects"];
    var s3 := Erase(s2, "ssh") + ["ssh"];
    var s4 := Erase(s3, "jenkins") + ["jenkins"];
    ArrangeCons(s0, "bigboat", r1);
    ArrangeCons(s1, "projects", r2);
    ArrangeCons(s2, "ssh", r3);
    ArrangeCons(s3, "jenkins", r4);
    ArrangeCons(s4, "quality-time", []);
  }

  lemma LeadingKeep(settings: Doc, data: Data, projects: seq<Project>, n: string, k: string)
    requires n != "bigboat" && n != "projects"
    ensures Get(Leading(settings, data, projects), n, k) == Get(settings, n, k)
  {
    ReadOther(settings, "bigboat", BigboatOptions(data), n, k);
    ReadOther(Rewrite(settings, "bigboat", BigboatOptions(data)), "projects", ProjectOptions(projects), n, k);
  }

  lemma MiddleKeep(opts: Options, settings: Doc, data: Data, projects: seq<Project>, n: string, k: string)
    requires n != "ssh" && n != "jenkins"
    ensures Get(Rewritten(opts, settings, data, projects), n, k) == Get(Leading(settings, data, projects), n, k)
  {
    var d2 := Leading(settings, data, projects);
    ReadOther(d2, "ssh", SshOptions(opts, data), n, k);
    ReadOther(Rewrite(d2, "ssh", SshOptions(opts, data)), "jenkins", JenkinsBlank, n, k);
  }

  lemma DefinitionsOther(d: Doc, data: Data, n: string, k: string)
    requires n != "definitions" || k != "name"
    ensures Get(Definitions(d, data), n, k) == Get(d, n, k)
  {
    GetRemoveKey(d, "definitions", "name", n, k);
    SetOptionOther(RemoveKey(d, "definitions", "name"), "definitions", "name", Str("quality-report-data"), true, n, k);
  }

  lemma TrailingKeep(opts: Options, settings: Doc, data: Data, projects: seq<Project>, n: string, k: string)
    requires n != "quality-time" && (n != "definitions" || k != "name")
    ensures Get(WriteSettings(opts, settings, data, projects), n, k) == Get(Rewritten(opts, settings, data, projects), n, k)
  {
    var d4 := Rewritten(opts, settings, data, projects);
    DefinitionsOther(d4, data, n, k);
    ReadOther(Definitions(d4, data), "quality-time", QualityTimeOptions(data), n, k);
  }

  /** Reads of `bigboat` and `projects` are decided by the first two
      rewrites: nothing later touches those sections. */
  lemma LaterKeep(opts: Options, settings: Doc, data: Data, projects: seq<Project>, n: string, k: string)
    requires n == "bigboat" || n == "projects"
    ensures Get(WriteSettings(opts, settings, data, projects), n, k) == Get(Leading(settings, data, projects), n, k)
  {
    TrailingKeep(opts, settings, data, projects, n, k);
    MiddleKeep(opts, settings, data, projects, n, k);
  }

  /** Every section the form does not own reads as before, and so does
      every `definitions` option other than `name`. */
  lemma OthersKept(opts: Options, settings: Doc, data: Data, projects: seq<Project>, n: string, k: string)
    requires n !in Rebuilt
    requires n != "definitions" || k != "name"
    ensures Get(WriteSettings(opts, settings, data, projects), n, k) == Get(settings, n, k)
  {
    assert n != "bigboat" && n != "projects" && n != "ssh" && n != "jenkins" && n != "quality-time";
    TrailingKeep(opts, settings, data, projects, n, k);
    MiddleKeep(opts, settings, data, projects, n, k);
    LeadingKeep(settings, data, projects, n, k);
  }

  lemma DefinitionsSet(d: Doc, data: Data)
    ensures Get(Definitions(d, data), "definitions", "name")
            == if Has(d, "definitions") && Truthy(Field(data, "quality_report_enable")) then Some("quality-report-data") else None
  {
    GetRemoveKey(d, "definitions", "name", "definitions", "name");
    StoredStr("quality-report-data");
  }

  lemma RewrittenHas(opts: Options, settings: Doc, data: Data, projects: seq<Project>, n: string)
    requires n != "bigboat" && n != "projects" && n != "ssh" && n != "jenkins"
    ensures Has(Rewritten(opts, settings, data, projects), n) <==> Has(settings, n)
  {
    var d1 := Rewrite(settings, "bigboat", BigboatOptions(data));
    var d2 := Rewrite(d1, "projects", ProjectOptions(projects));
    var d3 := Rewrite(d2, "ssh", SshOptions(opts, data));
    RewriteHas(settings, "bigboat", BigboatOptions(data), n);
    RewriteHas(d1, "projects", ProjectOptions(projects), n);
    RewriteHas(d2, "ssh", SshOptions(opts, data), n);
    RewriteHas(d3, "jenkins", JenkinsBlank, n);
  }

  /** `definitions.name` is present afterwards exactly when the section
      exists and the quality report is enabled; a name stored before is
      never kept. */
  lemma DefinitionsName(opts: Options, settings: Doc, data: Data, projects: seq<Project>)
    ensures Get(WriteSettings(opts, settings, data, projects), "definitions", "name")
            == if Has(settings, "definitions") && Truthy(Field(data, "quality_report_enable"))
               then Some("quality-report-data") else None
  {
    var d4 := Rewritten(opts, settings, data, projects);
    RewrittenHas(opts, settings, data, projects, "definitions");
    DefinitionsSet(d4, data);
    ReadOther(Definitions(d4, data), "quality-time", QualityTimeOptions(data), "definitions", "name");
  }

  /** A `quality-time` section written with a URL. */
  lemma QualityTimeFilled(d: Doc, url: Value)
    requires Truthy(url)
    ensures var r := Rewrite(d, "quality-time", [Opt("name", Str("quality-time-data"), true), Opt("url", url, true)]);
            && Has(r, "quality-time")
            && Keys(r, "quality-time") == ["name", "url"]
            && Get(r, "quality-time", "name") == Some("quality-time-data")
            && Get(r, "quality-time", "url") == Some(ToStr(url))
  {
    var name, link := Opt("name", Str("quality-time-data"), true), Opt("url", url, true);
    DistinctPair(name, link);
    RewriteKeys(d, "quality-time", [name, link]);
    assert ItemKeys(Rendered([name, link])) == ["name", "url"];
    StoredStr("quality-time-data");
    ReadAt(d, "quality-time", [name, link], 0, name);
    ReadAt(d, "quality-time", [name, link], 1, link);
  }

  /** A `quality-time` section written without a URL. */
  lemma QualityTimeEmpty(d: Doc)
    ensures var r := Rewrite(d, "quality-time", []);
            && Has(r, "quality-time")
            && Keys(r, "quality-time") == []
            && Get(r, "quality-time", "name") == None
            && Get(r, "quality-time", "url") == None
  {
    RewriteKeys(d, "quality-time", []);
    ReadAbsent(d, "quality-time", [], "name");
    ReadAbsent(d, "quality-time", [], "url");
  }

  /** `quality-time` is rebuilt: it lists the data name and the URL, in
      that order and reading back as written, exactly when a URL was
      submitted, and is empty otherwise. */
  lemma QualityTimeContents(opts: Options, settings: Doc, data: Data, projects: seq<Project>)
    ensures var r := WriteSettings(opts, settings, data, projects);
            var url := Field(data, "quality_time_url");
            && Has(r, "quality-time")
            && Keys(r, "quality-time") == (if Truthy(url) then ["name", "url"] else [])
            && Get(r, "quality-time", "name") == (if Truthy(url) then Some("quality-time-data") else None)
            && Get(r, "quality-time", "url") == (if Truthy(url) then Some(ToStr(url)) else None)
  {
    var d := Definitions(Rewritten(opts, settings, data, projects), data);
    if Truthy(Field(data, "quality_time_url")) {
      QualityTimeFilled(d, Field(data, "quality_time_url"));
    } else {
      QualityTimeEmpty(d);
    }
  }

  /** Each project key reads as the report name of its last entry. */
  lemma ProjectRead(opts: Options, settings: Doc, data: Data, projects: seq<Project>, i: nat)
    requires i < |projects|
    requires forall j :: i < j < |projects| ==> ToStr(projects[j].key) != ToStr(projects[i].key)
    ensures Get(WriteSettings(opts, settings, data, projects), "projects", ToStr(projects[i].key))
            == Some(ToStr(projects[i].value))
  {
    var ps := ProjectOptions(projects);
    LaterKeep(opts, settings, data, projects, "projects", ToStr(projects[i].key));
    ReadAt(Rewrite(settings, "bigboat", BigboatOptions(data)), "projects", ps, i, ps[i]);
  }

  /** The `projects` section holds no key other than the submitted
      projects': a project dropped from the form leaves nothing behind. */
  lemma ProjectAbsent(opts: Options, settings: Doc, data: Data, projects: seq<Project>, k: string)
    requires forall j :: 0 <= j < |projects| ==> ToStr(projects[j].key) != k
    ensures Get(WriteSettings(opts, settings, data, projects), "projects", k) == None
  {
    LaterKeep(opts, settings, data, projects, "projects", k);
    ReadAbsent(Rewrite(settings, "bigboat", BigboatOptions(data)), "projects", ProjectOptions(projects), k);
  }

  /** `bigboat` holds the submitted host and key. */
  lemma BigboatReads(opts: Options, settings: Doc, data: Data, projects: seq<Project>)
    ensures var r := WriteSettings(opts, settings, data, projects);
            && Get(r, "bigboat", "host") == Some(ToStr(Field(data, "bigboat_url")))
            && Get(r, "bigboat", "key") == Some(ToStr(Field(data, "bigboat_key")))
  {
    var bs := BigboatOptions(data);
    var d1 := Rewrite(settings, "bigboat", bs);
    LaterKeep(opts, settings, data, projects, "bigboat", "host");
    LaterKeep(opts, settings, data, projects, "bigboat", "key");
    ReadOther(d1, "projects", ProjectOptions(projects), "bigboat", "host");
    ReadOther(d1, "projects", ProjectOptions(projects), "bigboat", "key");
    ReadPair(settings, "bigboat", bs[0], bs[1]);
  }

  /** An `ssh` section written for the user `user` and the host `host`. */
  lemma SshSection(d: Doc, user: string, host: string)
    ensures var r := Rewrite(d, "ssh", [Opt("username", Str(user), true), Opt("host", Str(host), true),
                                        Opt("cert", Str("certs/wwwgros.crt"), true)]);
            && Get(r, "ssh", "username") == Some(user)
            && Get(r, "ssh", "host") == Some(host)
            && Get(r, "ssh", "cert") == Some("certs/wwwgros.crt")
  {
    StoredStr(user);
    StoredStr(host);
    StoredStr("certs/wwwgros.crt");
    ReadTriple(d, "ssh", Opt("username", Str(user), true), Opt("host", Str(host), true), Opt("cert", Str("certs/wwwgros.crt"), true));
  }

  /** `ssh` logs in as `agent-<jira_key>` to the configured host with the
      bundled certificate. */
  lemma SshReads(opts: Options, settings: Doc, data: Data, projects: seq<Project>)
    ensures var r := WriteSettings(opts, settings, data, projects);
            && Get(r, "ssh", "username") == Some("agent-" + ToStr(Field(data, "jira_key")))
            && Get(r, "ssh", "host") == Some(opts.sshHost)
            && Get(r, "ssh", "cert") == Some("certs/wwwgros.crt")
  {
    var d2 := Leading(settings, data, projects);
    var d3 := Rewrite(d2, "ssh", SshOptions(opts, data));
    SshSection(d2, "agent-" + ToStr(Field(data, "jira_key")), opts.sshHost);
    TrailingKeep(opts, settings, data, projects, "ssh", "username");
    TrailingKeep(opts, settings, data, projects, "ssh", "host");
    TrailingKeep(opts, settings, data, projects, "ssh", "cert");
    MiddleSsh(d3, "username");
    MiddleSsh(d3, "host");
    MiddleSsh(d3, "cert");
  }

  lemma MiddleSsh(d3: Doc, k: string)
    ensures Get(Rewrite(d3, "jenkins", JenkinsBlank), "ssh", k) == Get(d3, "ssh", k)
  {
    ReadOther(d3, "jenkins", JenkinsBlank, "ssh", k);
  }

  /** A `jenkins` section written with the four blank options. */
  lemma JenkinsSection(d: Doc)
    ensures var r := Rewrite(d, "jenkins", JenkinsBlank);
            && Get(r, "jenkins", "host") == Some("")
            && Get(r, "jenkins", "username") == Some("")
            && Get(r, "jenkins", "password") == Some("")
            && Get(r, "jenkins", "verify") == Some("")
  {
    StoredStr("");
    ReadQuad(d, "jenkins", Opt("host", Str(""), true), Opt("username", Str(""), true), Opt("password", Str(""), true), Opt("verify", Str(""), true));
  }

  /** `jenkins` is reset: host, user, password and verification flag are
      all empty. */
  lemma JenkinsBlanked(opts: Options, settings: Doc, data: Data, projects: seq<Project>)
    ensures var r := WriteSettings(opts, settings, data, projects);
            && Get(r, "jenkins", "host") == Some("")
            && Get(r, "jenkins", "username") == Some("")
            && Get(r, "jenkins", "password") == Some("")
            && Get(r, "jenkins", "verify") == Some("")
  {
    var d3 := Rewrite(Leading(settings, data, projects), "ssh", SshOptions(opts, data));
    TrailingKeep(opts, settings, data, projects, "jenkins", "host");
    TrailingKeep(opts, settings, data, projects, "jenkins", "username");
    TrailingKeep(opts, settings, data, projects, "jenkins", "password");
    TrailingKeep(opts, settings, data, projects, "jenkins", "verify");
    JenkinsSection(d3);
  }

  /** With a single project its key reads as its report name. */
  lemma SingleProject(opts: Options, settings: Doc, data: Data, p: Project)
    ensures Get(WriteSettings(opts, settings, data, [p]), "projects", ToStr(p.key)) == Some(ToStr(p.value))
  {
    ProjectRead(opts, settings, data, [p], 0);
  }
}
