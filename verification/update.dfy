/** `update(data, configForms)` (lib/config.js:224-235): settles the
    project list, then writes the settings and the credentials. */
module ConfigUpdate {
  import opened Wrappers
  import opened Js
  import opened Store
  import opened Writer
  import opened Credentials
  import opened Settings

  /** A `quality_report_name` list the writers cannot walk: anything but an
      array, an empty array (its first entry is read), or an array with a
      missing entry (every entry's `key` is read). */
  predicate ProjectsRejected(names: Value) {
    names != Undefined && (!names.Arr? || |names.elems| == 0 || exists i :: 0 <= i < |names.elems| && Nullish(names.elems[i]))
  }

  function ProjectList(es: seq<Value>): (r: seq<Project>)
    requires forall i :: 0 <= i < |es| ==> !Nullish(es[i])
    ensures |r| == |es|
    ensures forall i :: 0 <= i < |es| ==> r[i] == Project(Read(es[i], "key"), Read(es[i], "value"))
  {
    if |es| == 0 then [] else [Project(Read(es[0], "key"), Read(es[0], "value"))] + ProjectList(es[1..])
  }

  /** The `projects` list `update` hands to both writers: one project named
      by the JIRA key with no report name when none was submitted,
      otherwise the submitted entries with an empty first key replaced by
      the JIRA key. */
  function ProjectsOf(data: Data): (r: Result<seq<Project>>)
    ensures r.Failure? <==> ProjectsRejected(Field(data, "quality_report_name"))
    ensures Field(data, "quality_report_name") == Undefined ==> r == Success([Project(Field(data, "jira_key"), Str(""))])
    ensures r.Success? ==> |r.value| > 0 && (r.value[0].key != Str("") || Field(data, "jira_key") == Str(""))
    ensures r.Success? && Field(data, "quality_report_name").Arr? ==>
              var es := Field(data, "quality_report_name").elems;
              && |r.value| == |es|
              && r.value[0] == Project(if Read(es[0], "key") == Str("") then Field(data, "jira_key") else Read(es[0], "key"),
                                       Read(es[0], "value"))
              && forall i :: 0 < i < |es| ==> r.value[i] == Project(Read(es[i], "key"), Read(es[i], "value"))
  {
    var names := Field(data, "quality_report_name");
    var jira := Field(data, "jira_key");
    if names == Undefined then Success([Project(jira, Str(""))])
    else if ProjectsRejected(names) then Failure("TypeError: cannot read property 'key'")
    else
      var ps := ProjectList(names.elems);
      Success(if ps[0].key == Str("") then [ps[0].(key := jira)] + ps[1..] else ps)
  }

  /** What `update` leaves behind. The settings file is written before the
      credentials writer runs, so it is written even when that writer
      throws. */
  datatype Updated = Updated(settings: Doc, credentials: Result<CredWrite>)

  /** What `update(data)` writes when the project list is usable: the
      settings exactly as `writeSettings` leaves them and the credentials
      exactly as `writeCredentialsSources` does, both over the project list
      `ProjectsOf` settles. */
  ghost predicate UpdateOutcome(opts: Options, settings: Doc, creds: Doc, data: Data, r: Result<Updated>) {
    && (r.Failure? <==> ProjectsRejected(Field(data, "quality_report_name")))
    && (r.Success? ==>
          && ProjectsOf(data).Success?
          && r.value.settings == WriteSettings(opts, settings, data, ProjectsOf(data).value)
          && CredentialsOutcome(opts, creds, data, ProjectsOf(data).value, r.value.credentials))
  }

  /** `update(data)`: nothing is written when the project list is
      unusable; otherwise the settings are rewritten and the credentials
      writer runs on the same project list. */
  method Update(opts: Options, settings: Doc, creds: Doc, data: Data) returns (r: Result<Updated>)
    ensures r.Failure? <==> ProjectsRejected(Field(data, "quality_report_name"))
    ensures r.Success? ==> Sections(r.value.settings) == Arrange(Sections(settings), Rebuilt)
    ensures r.Success? && Field(data, "quality_report_name") == Undefined ==>
              Get(r.value.settings, "projects", ToStr(Field(data, "jira_key"))) == Some("")
    ensures r.Success? && (exists j :: 0 <= j < VcsCount(data) && InstanceFails(data, j)) ==> r.value.credentials.Failure?
    ensures r.Success? && r.value.credentials.Success? ==>
              forall n :: Has(r.value.credentials.value.credentials, n) <==>
                n in VcsNames(data, 0, VcsCount(data)) || n in HostNames(data, 0, HostCount(data))
    ensures UpdateOutcome(opts, settings, creds, data, r)
  {
    var projects :- ProjectsOf(data);
    var written := WriteSettings(opts, settings, data, projects);
    SettingsSections(opts, settings, data, projects);
    if Field(data, "quality_report_name") == Undefined {
      SingleProject(opts, settings, data, projects[0]);
      StoredStr("");
    }
    var c := WriteCredentialsSources(opts, creds, data, projects);
    return Success(Updated(written, c));
  }
}
