/** The status page's configuration check (lib/routes/index.js:13-38): the
    agent counts as configured when the settings file exists and its
    `projects` section starts with a project key that has a value. */
module Status {
  import opened Wrappers
  import opened Js
  import opened Presence
  import opened Store
  import opened Writer
  import opened Settings

  /** `hasConfig` as `get_status` settles it. A missing settings file
      reads as an empty document, so `fileExists` is all that tells the
      two apart. */
  predicate HasConfig(fileExists: bool, settings: Doc) {
    fileExists && Has(settings, "projects") && |Keys(settings, "projects")| > 0
    && HasValue(Str(Keys(settings, "projects")[0]))
  }

  /** The agent is configured exactly when the first project key is a
      real token: a key such as `-` or `0` counts as no key at all. */
  lemma HasConfigFirstKey(settings: Doc)
    requires Has(settings, "projects") && |Keys(settings, "projects")| > 0
    ensures HasConfig(true, settings) <==> Keys(settings, "projects")[0] !in FalsyTokens
  {
  }

  /** A settings file with a single project `TEST` counts as configured. */
  lemma OneProjectConfigured()
    ensures HasConfig(true, Doc([Section("projects", [Item("TEST", "")])]))
  {
    var d := Doc([Section("projects", [Item("TEST", "")])]);
    assert Sections(d) == ["projects"];
    assert Keys(d, "projects") == ["TEST"];
  }

  /** An empty `projects` section, or none at all, is not a configuration. */
  lemma EmptyNotConfigured()
    ensures !HasConfig(true, Doc([Section("projects", [])]))
    ensures !HasConfig(true, Empty)
  {
    var d := Doc([Section("projects", [])]);
    assert Sections(d) == ["projects"];
    assert Keys(d, "projects") == [];
  }

  // ---------------------------------------------------------------------
  // The status after `writeSettings`

  /** Options set in turn on a section that already has a first option
      never move that option. */
  lemma {:induction false} UpsertAllKeepsFirst(items: seq<Item>, opts: seq<Opt>)
    requires |items| > 0
    ensures |UpsertAll(items, opts)| > 0
    ensures ItemKeys(UpsertAll(items, opts))[0] == items[0].key
    decreases |opts|
  {
    if |opts| > 0 {
      var next := Upsert(items, opts[0].key, Stored(opts[0].value, opts[0].condition));
      assert ItemKeys(next)[0] == ItemKeys(items)[0];
      UpsertAllKeepsFirst(next, opts[1..]);
    }
  }

  /** The `definitions` edits do not touch `projects`. */
  lemma FindDefinitionsOther(d: Doc, data: Data, m: string)
    requires m != "definitions"
    ensures Find(Definitions(d, data).sections, m) == Find(d.sections, m)
  {
    var d' := RemoveKey(d, "definitions", "name");
    FindRemoveKeyIn(d.sections, "definitions", "name", m);
    if Truthy(Field(data, "quality_report_enable")) && Has(d', "definitions") {
      FindSetIn(d'.sections, "definitions", "name", Stored(Str("quality-report-data"), true), m);
    }
  }

  /** The `projects` section `writeSettings` leaves behind. */
  lemma WrittenProjects(opts: Options, settings: Doc, data: Data, projects: seq<Project>)
    ensures Find(WriteSettings(opts, settings, data, projects).sections, "projects")
            == Some(Section("projects", UpsertAll([], ProjectOptions(projects))))
  {
    var d1 := Rewrite(settings, "bigboat", BigboatOptions(data));
    var d2 := Leading(settings, data, projects);
    var d3 := Rewrite(d2, "ssh", SshOptions(opts, data));
    var d4 := Rewritten(opts, settings, data, projects);
    var d5 := Definitions(d4, data);
    FindRewritten(d1, "projects", ProjectOptions(projects));
    FindRewriteOther(d2, "ssh", SshOptions(opts, data), "projects");
    FindRewriteOther(d3, "jenkins", JenkinsBlank, "projects");
    FindDefinitionsOther(d4, data, "projects");
    FindRewriteOther(d5, "quality-time", QualityTimeOptions(data), "projects");
  }

  /** After `writeSettings`, the status page reports the agent as
      configured exactly when the first project's key has a value. */
  lemma ConfiguredAfterWrite(opts: Options, settings: Doc, data: Data, projects: seq<Project>)
    requires |projects| > 0
    ensures HasConfig(true, WriteSettings(opts, settings, data, projects))
            <==> HasValue(Str(ToStr(projects[0].key)))
  {
    var written := WriteSettings(opts, settings, data, projects);
    var ps := ProjectOptions(projects);
    WrittenProjects(opts, settings, data, projects);
    assert Has(written, "projects");
    var first := Upsert([], ps[0].key, Stored(ps[0].value, ps[0].condition));
    assert UpsertAll([], ps) == UpsertAll(first, ps[1..]);
    UpsertAllKeepsFirst(first, ps[1..]);
    assert Keys(written, "projects")[0] == ToStr(projects[0].key);
  }
}
