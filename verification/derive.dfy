/** Derivation of form values from the two stores (lib/form.js:31-75,
    283-494): the rules in `form_options` that rebuild each field's value
    from `settings` and `credentials`, the section lookup they share and
    the helpers `getDomain`, `getSectionValue` and `getOptionValue`. */
module Derive {
  import opened Wrappers
  import opened Js
  import opened Presence
  import opened Store
  import opened Writer

  /** Both stores as read at the start of a request. */
  datatype Stores = Stores(settings: Doc, credentials: Doc)

  /** What a rule sees of its form instance: its `cloneIndex` (counted
      from 1 across every cloneable instance) and, once the instance has
      been bound to a submission, the data the form library holds. */
  datatype Instance = Instance(cloneIndex: nat, bound: Option<Data>)

  /** The environment the rules consult: the configured paths, URL host
      parsing (`None` where the `URL` constructor throws), the files
      present on disk and the parsed content of every `data_sources.json`
      present, by path. */
  datatype World = World(
    opts: Options,
    parseHost: string -> Option<string>,
    files: set<string>,
    sidecars: map<string, seq<Source>>)

  // ---------------------------------------------------------------------
  // getDomain (lib/form.js:31-39)

  /** `getDomain(value)`: the `host` of the value read as a URL when that
      parses and the host is non-empty, otherwise the value itself. */
  function GetDomain(parseHost: string -> Option<string>, v: Value): (r: Value)
    ensures r != v ==> parseHost(ToStr(v)).Some? && parseHost(ToStr(v)).value != ""
    ensures parseHost(ToStr(v)).Some? && parseHost(ToStr(v)).value != "" ==> r == Str(parseHost(ToStr(v)).value)
  {
    match parseHost(ToStr(v))
    case None => v
    case Some(host) => if host != "" then Str(host) else v
  }

  /** A derived host is only empty when the input was. */
  lemma GetDomainNonEmpty(parseHost: string -> Option<string>, v: Value)
    requires GetDomain(parseHost, v) == Str("")
    ensures v == Str("")
  {
  }

  /** Applying `getDomain` twice changes nothing, provided that a host
      on its own never parses to a further, non-empty host (a bare host
      has no URL scheme). */
  lemma GetDomainIdempotent(parseHost: string -> Option<string>, v: Value)
    requires forall s :: parseHost(s).Some? && parseHost(s).value != "" ==>
               parseHost(parseHost(s).value).None? || parseHost(parseHost(s).value).value == ""
    ensures GetDomain(parseHost, GetDomain(parseHost, v)) == GetDomain(parseHost, v)
  {
  }

  // ---------------------------------------------------------------------
  // getSectionValue (lib/form.js:41-54)

  /** The section argument: a single name or a list of names. */
  datatype Selector = One(name: string) | Several(names: seq<string>)

  /** `getSectionValue(section, config)` as written: a single section
      yields its first option name (`undefined` when it has none), a
      missing one `''`. In the list branch the parameter `config` (the
      store) shadows the module, so `config.has_value` is the store's own
      property, which does not exist: `filter(undefined)` throws as soon
      as a listed section exists. */
  function SectionValue(d: Doc, sel: Selector): (r: Result<Value>)
    ensures sel.One? && !Has(d, sel.name) ==> r == Success(Str(""))
    ensures sel.One? && Has(d, sel.name) ==>
              r == Success(if |Keys(d, sel.name)| > 0 then Str(Keys(d, sel.name)[0]) else Undefined)
    ensures sel.Several? ==> (r.Failure? <==> exists i :: 0 <= i < |sel.names| && Has(d, sel.names[i]))
    ensures sel.Several? && r.Success? ==> r.value == Str("")
  {
    match sel
    case One(name) =>
      if Has(d, name) then
        var ks := Keys(d, name);
        Success(if |ks| > 0 then Str(ks[0]) else Undefined)
      else Success(Str(""))
    case Several(names) =>
      if exists i :: 0 <= i < |names| && Has(d, names[i]) then
        Failure("TypeError: undefined is not a function")
      else
        Success(Str(""))
  }

  /** `keys.filter(has_value)`: `filter` hands `has_value` each option
      NAME, so the names kept are those that are not themselves falsy
      tokens, whatever their options hold. */
  function PresentKeys(ks: seq<string>): (r: seq<string>)
    ensures forall k :: k in r <==> k in ks && HasValue(Str(k))
    ensures (forall i :: 0 <= i < |ks| ==> HasValue(Str(ks[i]))) ==> r == ks
  {
    if |ks| == 0 then []
    else (if HasValue(Str(ks[0])) then [ks[0]] else []) + PresentKeys(ks[1..])
  }

  /** One listed section as the list branch evidently means to render
      it: its option names that pass `has_value`, space-separated; a
      missing section renders as `''`. */
  function ListedKeys(d: Doc, name: string): string {
    if Has(d, name) then Join(PresentKeys(Keys(d, name)), " ") else ""
  }

  /** The rendering of every listed section, in list order. */
  function Listed(d: Doc, names: seq<string>): (r: seq<string>)
    ensures |r| == |names|
    ensures forall i :: 0 <= i < |names| ==> r[i] == ListedKeys(d, names[i])
  {
    if |names| == 0 then [] else [ListedKeys(d, names[0])] + Listed(d, names[1..])
  }

  /** `getSectionValue` with `has_value` taken from the configuration
      module, as the list branch evidently intends: each listed section
      renders to its option names that pass `has_value`, the renderings
      are joined by spaces and the result is trimmed. It never throws, and
      a list of sections none of which exists renders as `''`. */
  function SectionValueIntended(d: Doc, sel: Selector): (r: Result<Value>)
    ensures r.Success?
    ensures sel.One? ==> r == SectionValue(d, sel)
    ensures sel.Several? ==> r.value == Str(Trim(Join(Listed(d, sel.names), " ")))
    ensures sel.Several? && |sel.names| == 1 ==> r.value == Str(Trim(ListedKeys(d, sel.names[0])))
    ensures sel.Several? && (forall i :: 0 <= i < |sel.names| ==> !Has(d, sel.names[i])) ==> r.value == Str("")
  {
    match sel
    case One(_) => SectionValue(d, sel)
    case Several(names) =>
      var parts := seq(|names|, i requires 0 <= i < |names| => ListedKeys(d, names[i]));
      assert parts == Listed(d, names);
      if forall i :: 0 <= i < |names| ==> !Has(d, names[i]) then
        JoinOfEmpties(parts, " ");
        TrimSpaces(Join(parts, " "));
        Success(Str(Trim(Join(parts, " "))))
      else
        Success(Str(Trim(Join(parts, " "))))
  }

  /** Joining empty strings with a space leaves nothing but spaces. */
  lemma {:induction false} JoinOfEmpties(parts: seq<string>, sep: string)
    requires sep == " "
    requires forall i :: 0 <= i < |parts| ==> parts[i] == ""
    ensures forall j :: 0 <= j < |Join(parts, sep)| ==> Join(parts, sep)[j] == ' '
  {
    if |parts| > 1 {
      JoinOfEmpties(parts[1..], sep);
      assert Join(parts, sep) == sep + Join(parts[1..], sep);
    }
  }

  /** Trimming a string of spaces leaves nothing. */
  lemma {:induction false} TrimSpaces(s: string)
    requires forall j :: 0 <= j < |s| ==> s[j] == ' '
    ensures Trim(s) == ""
    decreases |s|
  {
    if |s| > 0 {
      TrimSpaces(s[1..]);
    }
  }

  /** `String.prototype.trim` for the only whitespace the joined text can
      carry at its ends, the space. */
  function Trim(s: string): (r: string)
    ensures |r| <= |s|
    ensures |r| > 0 ==> r[0] != ' ' && r[|r| - 1] != ' '
    decreases |s|
  {
    if |s| > 0 && s[0] == ' ' then Trim(s[1..])
    else if |s| > 0 && s[|s| - 1] == ' ' then Trim(s[..|s| - 1])
    else s
  }

  /** The list branch throws on a store holding the listed section,
      where the evident intent renders that section's present options. */
  lemma SectionValueListThrows(d: Doc, name: string)
    requires Has(d, name)
    ensures SectionValue(d, Several([name])).Failure?
    ensures SectionValueIntended(d, Several([name])).Success?
  {
    assert Has(d, [name][0]);
  }

  /** The filter tests option names, not their values: a section whose
      only option `TEST` holds the empty string still renders `TEST`. */
  lemma SectionValueTestsNames(d: Doc)
    requires Has(d, "projects") && Keys(d, "projects") == ["TEST"]
    requires Get(d, "projects", "TEST") == Some("")
    ensures !Present(Get(d, "projects", "TEST"))
    ensures SectionValueIntended(d, Several(["projects"])).value == Str("TEST")
  {
    assert "TEST" !in FalsyTokens;
    assert PresentKeys(["TEST"]) == ["TEST"];
  }

  // ---------------------------------------------------------------------
  // getOptionValue (lib/form.js:56-75)

  /** The store an option reference names: the `settings` or the
      `credentials` object, or a string naming neither. */
  datatype StoreName = SettingsStore | CredentialsStore | Unnamed

  /** An option reference as a rule or a field's static `option` gives
      it: `[store, section, option]`, the empty list, or another object
      (whose element `[0]` is `undefined`). */
  datatype OptionData =
    | Ref(store: StoreName, section: Option<string>, key: string)
    | NoRef
    | NotAList

  /** `credentials.get(section, key)` where the section may be
      `undefined`; a missing section or option reads as `undefined`. */
  function GetIn(d: Doc, sec: Option<string>, key: string): (r: Option<string>)
    ensures sec.None? ==> r.None?
    ensures sec.Some? ==> r == Get(d, sec.value, key)
  {
    if sec.None? then None else Get(d, sec.value, key)
  }

  /** The option holds a value under the presence policy. */
  predicate Filled(d: Doc, sec: Option<string>, key: string) {
    Present(GetIn(d, sec, key))
  }

  function StoreOf(st: Stores, name: StoreName): Doc
    requires name != Unnamed
  {
    if name == SettingsStore then st.settings else st.credentials
  }

  /** `getOptionValue`: the empty list reads as `''`; a reference reads
      its store; a reference to neither store, or any other object, makes
      `get` throw, which is caught and leaves `undefined`. */
  function OptionValue(o: OptionData, st: Stores): (r: Value)
    ensures o.NoRef? ==> r == Str("")
    ensures o.Ref? && o.store != Unnamed ==> r == FromOption(GetIn(StoreOf(st, o.store), o.section, o.key))
    ensures o.NotAList? || (o.Ref? && o.store == Unnamed) ==> r == Undefined
  {
    match o
    case NoRef => Str("")
    case NotAList => Undefined
    case Ref(store, section, key) =>
      if store == Unnamed then Undefined else FromOption(GetIn(StoreOf(st, store), section, key))
  }

  // ---------------------------------------------------------------------
  // getCredentialsSection (lib/form.js:283-294)

  /** `credentials.sections()[cloneIndex-1]`: `undefined` past the end. */
  function Positional(creds: Doc, cloneIndex: nat): (r: Option<string>)
    ensures r.Some? <==> 1 <= cloneIndex <= |Sections(creds)|
    ensures r.Some? ==> r.value == Sections(creds)[cloneIndex - 1]
  {
    if 1 <= cloneIndex <= |Sections(creds)| then Some(Sections(creds)[cloneIndex - 1]) else None
  }

  /** The submitted value of the lookup field names an existing section. */
  predicate NamesSection(inst: Instance, creds: Doc, key: Option<string>) {
    && key.Some?
    && inst.bound.Some?
    && Field(inst.bound.value, key.value).Str?
    && Has(creds, Field(inst.bound.value, key.value).s)
  }

  /** `getCredentialsSection(config_form, credentials, key)`: on a bound
      instance with a lookup field, the submitted domain when it is an
      existing section; otherwise the section at the instance's position.
      Whatever it returns is a section of the store. */
  function CredentialsSection(inst: Instance, creds: Doc, key: Option<string>): (r: Option<string>)
    ensures r.Some? ==> Has(creds, r.value)
    ensures NamesSection(inst, creds, key) ==> r == Some(Field(inst.bound.value, key.value).s)
    ensures !NamesSection(inst, creds, key) ==> r == Positional(creds, inst.cloneIndex)
  {
    if NamesSection(inst, creds, key) then Some(Field(inst.bound.value, key.value).s)
    else Positional(creds, inst.cloneIndex)
  }

  /** An unbound instance, as in the pass before binding, always reads
      the section at its position. */
  lemma UnboundIsPositional(inst: Instance, creds: Doc, key: Option<string>)
    requires inst.bound.None?
    ensures CredentialsSection(inst, creds, key) == Positional(creds, inst.cloneIndex)
  {
  }

  // ---------------------------------------------------------------------
  // The form_options rules (lib/form.js:295-494)

  /** What a rule yields: a value used as it is, an option reference that
      `getOptionValue` resolves, or the `{key, value}` columns of a map
      field. */
  datatype Derived = Direct(v: Value) | Lookup(o: OptionData) | Columns(m: Value)

  /** The `{key: ..., value: ...}` object a map field is filled from. */
  function ColumnsOf(keys: Value, values: Value): Value {
    Obj([Member("key", keys), Member("value", values)])
  }

  /** `jira_key`: the first project key, `''` without a `projects`
      section (and `undefined` for an empty one). */
  function JiraKey(settings: Doc): (r: Value)
    ensures !Has(settings, "projects") ==> r == Str("")
    ensures Has(settings, "projects") && |Keys(settings, "projects")| > 0 ==> r == Str(Keys(settings, "projects")[0])
    ensures Has(settings, "projects") && |Keys(settings, "projects")| == 0 ==> r == Undefined
  {
    if Has(settings, "projects") then
      var ks := Keys(settings, "projects");
      if |ks| > 0 then Str(ks[0]) else Undefined
    else Str("")
  }

  function StrList(ks: seq<string>): (r: seq<Value>)
    ensures |r| == |ks|
    ensures forall i :: 0 <= i < |ks| ==> r[i] == Str(ks[i])
  {
    if |ks| == 0 then [] else [Str(ks[0])] + StrList(ks[1..])
  }

  /** The values of the given `projects` options, as `get` reads them. */
  function ProjectValues(settings: Doc, ks: seq<string>): (r: seq<Value>)
    ensures |r| == |ks|
    ensures forall i :: 0 <= i < |ks| ==> r[i] == FromOption(Get(settings, "projects", ks[i]))
  {
    if |ks| == 0 then [] else [FromOption(Get(settings, "projects", ks[0]))] + ProjectValues(settings, ks[1..])
  }

  /** `quality_report_name`: every project key with its report name, in
      store order; one empty row without a `projects` section. */
  function QualityReportName(settings: Doc): (r: Value)
    ensures !Has(settings, "projects") ==> r == ColumnsOf(Str(""), Str(""))
    ensures Has(settings, "projects") ==>
              var ks := Keys(settings, "projects");
              && r.Obj? && |r.members| == 2
              && r.members[0] == Member("key", Arr(StrList(ks)))
              && r.members[1].name == "value"
              && r.members[1].val.Arr?
              && |r.members[1].val.elems| == |ks|
              && forall i :: 0 <= i < |ks| ==>
                   r.members[1].val.elems[i] == FromOption(Get(settings, "projects", ks[i]))
  {
    if !Has(settings, "projects") then ColumnsOf(Str(""), Str(""))
    else
      var ks := Keys(settings, "projects");
      ColumnsOf(Arr(StrList(ks)), Arr(ProjectValues(settings, ks)))
  }

  /** `version_control_type`: the stored `type` when present, else
      guessed from the options present, first match winning: `tfs`, then
      a GitLab token or group, then a GitHub token, then an `env`. */
  function VcsType(creds: Doc, sec: Option<string>): (r: Value)
    ensures Filled(creds, sec, "type") ==> r == Str(GetIn(creds, sec, "type").value)
    ensures !Filled(creds, sec, "type") ==>
              && (r == Str("tfs") <==> Filled(creds, sec, "tfs"))
              && (r == Str("gitlab") <==>
                    !Filled(creds, sec, "tfs") && (Filled(creds, sec, "gitlab_token") || Filled(creds, sec, "group")))
              && (r == Str("github") <==>
                    && !Filled(creds, sec, "tfs") && !Filled(creds, sec, "gitlab_token") && !Filled(creds, sec, "group")
                    && Filled(creds, sec, "github_token"))
              && (r == Str("git") <==>
                    && !Filled(creds, sec, "tfs") && !Filled(creds, sec, "gitlab_token") && !Filled(creds, sec, "group")
                    && !Filled(creds, sec, "github_token") && Filled(creds, sec, "env"))
              && (r == Str("subversion") <==>
                    && !Filled(creds, sec, "tfs") && !Filled(creds, sec, "gitlab_token") && !Filled(creds, sec, "group")
                    && !Filled(creds, sec, "github_token") && !Filled(creds, sec, "env"))
  {
    if Filled(creds, sec, "type") then Str(GetIn(creds, sec, "type").value)
    else if Filled(creds, sec, "tfs") then Str("tfs")
    else if Filled(creds, sec, "gitlab_token") || Filled(creds, sec, "group") then Str("gitlab")
    else if Filled(creds, sec, "github_token") then Str("github")
    else if Filled(creds, sec, "env") then Str("git")
    else Str("subversion")
  }

  /** The authentication methods the form offers. */
  const AuthMethods: set<Value> :=
    {Str("github_api"), Str("gitlab_api"), Str("deploy_key"), Str("user_pass"), Str("none")}

  /** `version_control_auth`: guessed from the options present, first
      match winning: GitHub token, GitLab token, `env`, username. */
  function VcsAuth(creds: Doc, sec: Option<string>): (r: Value)
    ensures r in AuthMethods
    ensures r == Str("github_api") <==> Filled(creds, sec, "github_token")
    ensures r == Str("gitlab_api") <==> !Filled(creds, sec, "github_token") && Filled(creds, sec, "gitlab_token")
    ensures r == Str("deploy_key") <==>
              !Filled(creds, sec, "github_token") && !Filled(creds, sec, "gitlab_token") && Filled(creds, sec, "env")
    ensures r == Str("user_pass") <==>
              && !Filled(creds, sec, "github_token") && !Filled(creds, sec, "gitlab_token") && !Filled(creds, sec, "env")
              && Filled(creds, sec, "username")
    ensures r == Str("none") <==>
              && !Filled(creds, sec, "github_token") && !Filled(creds, sec, "gitlab_token") && !Filled(creds, sec, "env")
              && !Filled(creds, sec, "username")
  {
    if Filled(creds, sec, "github_token") then Str("github_api")
    else if Filled(creds, sec, "gitlab_token") then Str("gitlab_api")
    else if Filled(creds, sec, "env") then Str("deploy_key")
    else if Filled(creds, sec, "username") then Str("user_pass")
    else Str("none")
  }

  /** `version_control_user`: the stored username when present. */
  function VcsUser(creds: Doc, sec: Option<string>): (r: OptionData)
    ensures Filled(creds, sec, "username") ==> r == Ref(CredentialsStore, sec, "username")
    ensures !Filled(creds, sec, "username") ==> r == NoRef
  {
    if Filled(creds, sec, "username") then Ref(CredentialsStore, sec, "username") else NoRef
  }

  /** `version_control_token`: the first present of `password`,
      `github_token` and `gitlab_token`. */
  function VcsToken(creds: Doc, sec: Option<string>): (r: OptionData)
    ensures r == NoRef || (r.Ref? && r.store == CredentialsStore && r.section == sec && Filled(creds, sec, r.key))
    ensures r == NoRef <==>
              !Filled(creds, sec, "password") && !Filled(creds, sec, "github_token") && !Filled(creds, sec, "gitlab_token")
    ensures Filled(creds, sec, "password") ==> r.Ref? && r.key == "password"
    ensures !Filled(creds, sec, "password") && Filled(creds, sec, "github_token") ==> r.Ref? && r.key == "github_token"
  {
    if Filled(creds, sec, "password") then Ref(CredentialsStore, sec, "password")
    else if Filled(creds, sec, "github_token") then Ref(CredentialsStore, sec, "github_token")
    else if Filled(creds, sec, "gitlab_token") then Ref(CredentialsStore, sec, "gitlab_token")
    else NoRef
  }

  /** How a possibly `undefined` section name reads in a template
      string or a concatenation. */
  function SectionText(sec: Option<string>): string {
    if sec.Some? then sec.value else "undefined"
  }

  /** `version_control_key`: the sentinel when a key file for the section
      or the shared key exists, the empty string otherwise. The key
      itself is never shown. */
  function VcsKey(w: World, sec: Option<string>): (r: Value)
    ensures r == Str(Existing) || r == Str("")
    ensures r == Str(Existing) <==>
              PathJoin(w.opts.keyPath, "source_" + SectionText(sec)) in w.files
              || PathJoin(w.opts.keyPath, "id_rsa") in w.files
  {
    if PathJoin(w.opts.keyPath, "source_" + SectionText(sec)) in w.files then Str(Existing)
    else if PathJoin(w.opts.keyPath, "id_rsa") in w.files then Str(Existing)
    else Str("")
  }

  /** `version_control_group`: a TFS collection takes precedence, where
      the marker `'true'` stands for no collection; then a GitLab group. */
  function VcsGroup(creds: Doc, sec: Option<string>): (r: OptionData)
    ensures Filled(creds, sec, "tfs") ==>
              r == (if GetIn(creds, sec, "tfs") == Some("true") then NoRef else Ref(CredentialsStore, sec, "tfs"))
    ensures !Filled(creds, sec, "tfs") && Filled(creds, sec, "group") ==> r == Ref(CredentialsStore, sec, "group")
    ensures !Filled(creds, sec, "tfs") && !Filled(creds, sec, "group") ==> r == NoRef
  {
    if Filled(creds, sec, "tfs") then
      if GetIn(creds, sec, "tfs") == Some("true") then NoRef else Ref(CredentialsStore, sec, "tfs")
    else if Filled(creds, sec, "group") then Ref(CredentialsStore, sec, "group")
    else NoRef
  }

  /** The check box rules `version_control_unsafe` and
      `version_control_skip_stats`: `'1'` exactly when the option holds a
      value. */
  function Flag(creds: Doc, sec: Option<string>, key: string): (r: Value)
    ensures r == Str("1") <==> Filled(creds, sec, key)
    ensures r == Str("") <==> !Filled(creds, sec, key)
  {
    if Filled(creds, sec, key) then Str("1") else Str("")
  }

  /** The `dummy` entries a domain owns by the suffix test. */
  function Owned(sources: seq<Source>, domain: string): (r: seq<Source>)
    ensures |r| <= |sources|
    ensures forall s :: s in r <==> s in sources && StartsWith(s.name, "dummy") && EndsWith(s.name, domain)
  {
    if |sources| == 0 then []
    else
      (if StartsWith(sources[0].name, "dummy") && EndsWith(sources[0].name, domain) then [sources[0]] else [])
      + Owned(sources[1..], domain)
  }

  /** The checkout label a dummy source name carries between `dummy ` and
      ` <domain>`; the generated label `repository on` reads back as the
      empty key. */
  function DecodeKey(name: string, domain: string): (r: string)
    ensures var k := Substring(name, 6, |name| - |domain| - 1);
            r == if k == "repository on" then "" else k
  {
    var k := Substring(name, 6, |name| - |domain| - 1);
    if k == "repository on" then "" else k
  }

  function DecodeKeys(owned: seq<Source>, domain: string): (r: seq<Value>)
    ensures |r| == |owned|
    ensures forall i :: 0 <= i < |owned| ==> r[i] == Str(DecodeKey(owned[i].name, domain))
  {
    if |owned| == 0 then [] else [Str(DecodeKey(owned[0].name, domain))] + DecodeKeys(owned[1..], domain)
  }

  function Urls(owned: seq<Source>): (r: seq<Value>)
    ensures |r| == |owned|
    ensures forall i :: 0 <= i < |owned| ==> r[i] == owned[i].url
  {
    if |owned| == 0 then [] else [owned[0].url] + Urls(owned[1..])
  }

  /** The project whose sidecar holds the collected sources: the first
      project key, when it has no quality report name. */
  function SidecarProject(settings: Doc): (r: Option<string>)
    ensures r.Some? <==>
              && Has(settings, "projects") && |Keys(settings, "projects")| > 0
              && !Present(Get(settings, "projects", Keys(settings, "projects")[0]))
    ensures r.Some? ==> r.value == Keys(settings, "projects")[0]
  {
    if !Has(settings, "projects") then None
    else
      var ks := Keys(settings, "projects");
      if |ks| == 0 || Present(Get(settings, "projects", ks[0])) then None else Some(ks[0])
  }

  /** `version_control_source`: the checkouts the sidecar of the main
      project records for the instance's domain, as `{key, value}`
      columns; `{}` when there is no such sidecar. Reading the label needs
      the domain's length, so entries matched against an `undefined`
      domain throw. */
  function VcsSource(settings: Doc, w: World, sec: Option<string>): (r: Result<Value>)
    ensures SidecarProject(settings).None? ==> r == Success(Obj([]))
    ensures SidecarProject(settings).Some? && SidecarPath(w.opts, SidecarProject(settings).value) !in w.sidecars ==>
              r == Success(Obj([]))
    ensures SidecarProject(settings).Some? && SidecarPath(w.opts, SidecarProject(settings).value) in w.sidecars ==>
              var owned := Owned(w.sidecars[SidecarPath(w.opts, SidecarProject(settings).value)], SectionText(sec));
              && (r.Failure? <==> sec.None? && |owned| > 0)
              && (r.Success? ==> r.value == ColumnsOf(Arr(DecodeKeys(owned, SectionText(sec))), Arr(Urls(owned))))
  {
    match SidecarProject(settings)
    case None => Success(Obj([]))
    case Some(main) =>
      var path := SidecarPath(w.opts, main);
      if path !in w.sidecars then Success(Obj([]))
      else
        var domain := SectionText(sec);
        var owned := Owned(w.sidecars[path], domain);
        if sec.None? && |owned| > 0 then Failure("TypeError: cannot read property 'length' of undefined")
        else Success(ColumnsOf(Arr(DecodeKeys(owned, domain)), Arr(Urls(owned))))
  }

  /** A section name is truthy unless it is `undefined` or empty. */
  predicate Named(sec: Option<string>) {
    sec.Some? && sec.value != ""
  }

  /** `jenkins_host`: the instance's section, or without one the host of
      the `jenkins` settings. */
  function JenkinsHostRule(parseHost: string -> Option<string>, settings: Doc, sec: Option<string>): (r: Value)
    ensures Named(sec) ==> r == Str(sec.value)
    ensures !Named(sec) ==> r == GetDomain(parseHost, FromOption(Get(settings, "jenkins", "host")))
  {
    if Named(sec) then Str(sec.value) else GetDomain(parseHost, FromOption(Get(settings, "jenkins", "host")))
  }

  /** `jenkins_user` and `jenkins_token`: the option of the instance's
      section, or without one the same option of the `jenkins` settings. */
  function JenkinsRef(sec: Option<string>, key: string): (r: OptionData)
    ensures Named(sec) ==> r == Ref(CredentialsStore, sec, key)
    ensures !Named(sec) ==> r == Ref(SettingsStore, Some("jenkins"), key)
  {
    if Named(sec) then Ref(CredentialsStore, sec, key) else Ref(SettingsStore, Some("jenkins"), key)
  }

  /** The settings describe a Jenkins host reached without certificate
      checks: a host not on plain HTTP and no `verify` option. */
  predicate SettingsUnsafe(settings: Doc) {
    && !Present(Get(settings, "jenkins", "verify"))
    && Get(settings, "jenkins", "host").Some?
    && !StartsWith(Get(settings, "jenkins", "host").value, "http://")
  }

  /** `jenkins_unsafe`: from the section's `unsafe_hosts`, or without a
      section from the `jenkins` settings. */
  function JenkinsUnsafe(settings: Doc, creds: Doc, sec: Option<string>): (r: Value)
    ensures r == Str("1") || r == Str("")
    ensures Named(sec) ==> (r == Str("1") <==> Filled(creds, sec, "unsafe_hosts"))
    ensures !Named(sec) ==> (r == Str("1") <==> SettingsUnsafe(settings))
  {
    if !Named(sec) then
      if SettingsUnsafe(settings) then Str("1") else Str("")
    else Flag(creds, sec, "unsafe_hosts")
  }

  /** The fields that have a rule in `form_options`. */
  const RuleNames: set<string> := {
    "jira_key", "quality_report_name", "version_control_type", "version_control_domain",
    "version_control_auth", "version_control_user", "version_control_token", "version_control_key",
    "version_control_group", "version_control_unsafe", "version_control_skip_stats",
    "version_control_source", "version_control_from_date", "version_control_tag",
    "jenkins_host", "jenkins_user", "jenkins_token", "jenkins_unsafe"}

  /** `form_options[name](config_form, settings, credentials)`: `None`
      for a field without a rule, a failure where the rule throws. */
  function Rule(name: string, inst: Instance, st: Stores, w: World): (r: Option<Result<Derived>>)
    ensures r.Some? <==> name in RuleNames
    ensures r.Some? && r.value.Failure? ==> name == "version_control_source"
  {
    var creds := st.credentials;
    var sec := CredentialsSection(inst, creds, None);
    match name
    case "jira_key" => Some(Success(Direct(JiraKey(st.settings))))
    case "quality_report_name" => Some(Success(Columns(QualityReportName(st.settings))))
    case "version_control_type" => Some(Success(Direct(VcsType(creds, sec))))
    case "version_control_domain" => Some(Success(Direct(FromOption(sec))))
    case "version_control_auth" => Some(Success(Direct(VcsAuth(creds, sec))))
    case "version_control_user" => Some(Success(Lookup(VcsUser(creds, sec))))
    case "version_control_token" =>
      Some(Success(Lookup(VcsToken(creds, CredentialsSection(inst, creds, Some("version_control_domain"))))))
    case "version_control_key" =>
      Some(Success(Direct(VcsKey(w, CredentialsSection(inst, creds, Some("version_control_domain"))))))
    case "version_control_group" => Some(Success(Lookup(VcsGroup(creds, sec))))
    case "version_control_unsafe" => Some(Success(Direct(Flag(creds, sec, "unsafe_hosts"))))
    case "version_control_skip_stats" => Some(Success(Direct(Flag(creds, sec, "skip_stats"))))
    case "version_control_source" =>
      Some(match VcsSource(st.settings, w, sec)
           case Success(m) => Success(Columns(m))
           case Failure(e) => Failure(e))
    case "version_control_from_date" => Some(Success(Lookup(Ref(CredentialsStore, sec, "from_date"))))
    case "version_control_tag" => Some(Success(Lookup(Ref(CredentialsStore, sec, "tag"))))
    case "jenkins_host" => Some(Success(Direct(JenkinsHostRule(w.parseHost, st.settings, sec))))
    case "jenkins_user" => Some(Success(Lookup(JenkinsRef(sec, "username"))))
    case "jenkins_token" =>
      Some(Success(Lookup(JenkinsRef(CredentialsSection(inst, creds, Some("jenkins_host")), "password"))))
    case "jenkins_unsafe" => Some(Success(Direct(JenkinsUnsafe(st.settings, creds, sec))))
    case _ => None
  }
}
