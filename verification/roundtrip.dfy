/** The configuration round trip: what `set_credentials`
    (lib/config.js:79-128) stores for a version-control instance is what the
    `form_options` rules (lib/form.js:295-494) show for it when the edit
    page is opened again. Each lemma fixes one submitted field and names
    the conditions under which it comes back unchanged; the cases where
    the stored form cannot tell values apart are stated as what they are. */
module RoundTrip {
  import opened Wrappers
  import opened Js
  import opened Presence
  import opened Store
  import opened Writer
  import opened Credentials
  import opened Readback
  import opened Derive
  import opened Forms

  /** The document `set_credentials` leaves behind. */
  function WrittenDoc(opts: Options, creds: Doc, data: Data, index: nat, sources: seq<Source>): Doc
    requires SetCredentials(opts, creds, data, index, sources).Success?
  {
    SetCredentials(opts, creds, data, index, sources).value.credentials
  }

  /** An instance before binding that sits at the position of section `s`,
      as the edit page derives its initial values. */
  predicate ReadsSection(inst: Instance, d: Doc, s: string) {
    inst.bound.None? && Positional(d, inst.cloneIndex) == Some(s)
  }

  /** A submitted string that the presence policy keeps: a real token. */
  predicate Kept(v: Value) {
    v.Str? && HasValue(v)
  }

  /** A submitted string that reads back as itself: a real token or the
      empty string (both show as themselves once collapsed). */
  predicate Shown(v: Value) {
    v == Str("") || Kept(v)
  }

  /** The variable name stored in `env` is never a falsy token. */
  lemma EnvNamePresent(index: nat)
    ensures EnvName(index) !in FalsyTokens
  {
    assert EnvName(index)[0] == 'S';
  }

  /** The marker `true` is a real token and the placeholder `-` is not. */
  lemma MarkersTokens()
    ensures "true" !in FalsyTokens && "-" in FalsyTokens
  {
    assert "true"[0] == 't';
  }

  // ---------------------------------------------------------------------
  // Where the written section is read from

  /** The written section is the last one, so the instance at the last
      position reads it. */
  lemma WrittenSectionLast(opts: Options, creds: Doc, data: Data, index: nat, sources: seq<Source>)
    requires SetCredentials(opts, creds, data, index, sources).Success?
    ensures var d := WrittenDoc(opts, creds, data, index, sources);
            ReadsSection(Instance(|Sections(d)|, None), d, VcsSection(VcsAt(data, index)))
  {
  }

  /** A bound instance whose submitted domain is the written section
      reads that section, wherever it sits. */
  lemma BoundDomainReadsSection(opts: Options, creds: Doc, data: Data, index: nat, sources: seq<Source>, inst: Instance)
    requires SetCredentials(opts, creds, data, index, sources).Success?
    requires inst.bound.Some?
    requires Field(inst.bound.value, "version_control_domain") == Str(VcsSection(VcsAt(data, index)))
    ensures CredentialsSection(inst, WrittenDoc(opts, creds, data, index, sources), Some("version_control_domain"))
            == Some(VcsSection(VcsAt(data, index)))
  {
    var e := VcsAt(data, index);
    RewriteHas(creds, VcsSection(e), VcsOptions(e, CredentialsEnv(e.auth, index)), VcsSection(e));
  }

  // ---------------------------------------------------------------------
  // The rules an instance at the written section applies

  /** The section every rule of an unbound instance reads. */
  lemma RuleSections(inst: Instance, creds: Doc, s: string)
    requires ReadsSection(inst, creds, s)
    ensures CredentialsSection(inst, creds, None) == Some(s)
    ensures CredentialsSection(inst, creds, Some("version_control_domain")) == Some(s)
  {
  }

  lemma RuleType(inst: Instance, st: Stores, w: World, s: string)
    requires ReadsSection(inst, st.credentials, s)
    ensures Rule("version_control_type", inst, st, w) == Some(Success(Direct(VcsType(st.credentials, Some(s)))))
  {
    RuleSections(inst, st.credentials, s);
  }

  lemma RuleDomain(inst: Instance, st: Stores, w: World, s: string)
    requires ReadsSection(inst, st.credentials, s)
    ensures Rule("version_control_domain", inst, st, w) == Some(Success(Direct(Str(s))))
  {
    RuleSections(inst, st.credentials, s);
  }

  lemma RuleAuth(inst: Instance, st: Stores, w: World, s: string)
    requires ReadsSection(inst, st.credentials, s)
    ensures Rule("version_control_auth", inst, st, w) == Some(Success(Direct(VcsAuth(st.credentials, Some(s)))))
  {
    RuleSections(inst, st.credentials, s);
  }

  lemma RuleUser(inst: Instance, st: Stores, w: World, s: string)
    requires ReadsSection(inst, st.credentials, s)
    ensures Rule("version_control_user", inst, st, w) == Some(Success(Lookup(VcsUser(st.credentials, Some(s)))))
  {
    RuleSections(inst, st.credentials, s);
  }

  lemma RuleToken(inst: Instance, st: Stores, w: World, s: string)
    requires ReadsSection(inst, st.credentials, s)
    ensures Rule("version_control_token", inst, st, w) == Some(Success(Lookup(VcsToken(st.credentials, Some(s)))))
  {
    RuleSections(inst, st.credentials, s);
  }

  lemma RuleGroup(inst: Instance, st: Stores, w: World, s: string)
    requires ReadsSection(inst, st.credentials, s)
    ensures Rule("version_control_group", inst, st, w) == Some(Success(Lookup(VcsGroup(st.credentials, Some(s)))))
  {
    RuleSections(inst, st.credentials, s);
  }

  lemma RuleUnsafe(inst: Instance, st: Stores, w: World, s: string)
    requires ReadsSection(inst, st.credentials, s)
    ensures Rule("version_control_unsafe", inst, st, w) == Some(Success(Direct(Flag(st.credentials, Some(s), "unsafe_hosts"))))
  {
    RuleSections(inst, st.credentials, s);
  }

  lemma RuleSkipStats(inst: Instance, st: Stores, w: World, s: string)
    requires ReadsSection(inst, st.credentials, s)
    ensures Rule("version_control_skip_stats", inst, st, w) == Some(Success(Direct(Flag(st.credentials, Some(s), "skip_stats"))))
  {
    RuleSections(inst, st.credentials, s);
  }

  lemma RuleFromDate(inst: Instance, st: Stores, w: World, s: string)
    requires ReadsSection(inst, st.credentials, s)
    ensures Rule("version_control_from_date", inst, st, w) == Some(Success(Lookup(Ref(CredentialsStore, Some(s), "from_date"))))
  {
    RuleSections(inst, st.credentials, s);
  }

  lemma RuleTag(inst: Instance, st: Stores, w: World, s: string)
    requires ReadsSection(inst, st.credentials, s)
    ensures Rule("version_control_tag", inst, st, w) == Some(Success(Lookup(Ref(CredentialsStore, Some(s), "tag"))))
  {
    RuleSections(inst, st.credentials, s);
  }

  // ---------------------------------------------------------------------
  // Field by field

  /** The options `set_credentials` writes for the instance. */
  function WrittenOptions(data: Data, index: nat): seq<Opt> {
    var e := VcsAt(data, index);
    VcsOptions(e, CredentialsEnv(e.auth, index))
  }

  lemma Written(opts: Options, creds: Doc, data: Data, index: nat, sources: seq<Source>)
    requires SetCredentials(opts, creds, data, index, sources).Success?
    ensures WrittenDoc(opts, creds, data, index, sources)
            == Rewrite(creds, VcsSection(VcsAt(data, index)), WrittenOptions(data, index))
  {
  }

  /** The stored type is the submitted one when that is a real token. */
  lemma TypeStored(opts: Options, creds: Doc, data: Data, index: nat, sources: seq<Source>)
    requires SetCredentials(opts, creds, data, index, sources).Success?
    requires Kept(VcsAt(data, index).vcsType)
    ensures VcsType(WrittenDoc(opts, creds, data, index, sources), Some(VcsSection(VcsAt(data, index)))) == VcsAt(data, index).vcsType
  {
    var e := VcsAt(data, index);
    Written(opts, creds, data, index, sources);
    VcsReadType(creds, e, CredentialsEnv(e.auth, index), VcsSection(e), WrittenOptions(data, index));
  }

  /** The submitted type comes back when it is a real token. */
  lemma TypeReadBack(opts: Options, creds: Doc, data: Data, index: nat, sources: seq<Source>, inst: Instance, settings: Doc, w: World)
    requires SetCredentials(opts, creds, data, index, sources).Success?
    requires ReadsSection(inst, WrittenDoc(opts, creds, data, index, sources), VcsSection(VcsAt(data, index)))
    requires Kept(VcsAt(data, index).vcsType)
    ensures Rule("version_control_type", inst, Stores(settings, WrittenDoc(opts, creds, data, index, sources)), w)
            == Some(Success(Direct(VcsAt(data, index).vcsType)))
  {
    TypeStored(opts, creds, data, index, sources);
    RuleType(inst, Stores(settings, WrittenDoc(opts, creds, data, index, sources)), w, VcsSection(VcsAt(data, index)));
  }

  /** The submitted domain comes back when it is a string. */
  lemma DomainReadBack(opts: Options, creds: Doc, data: Data, index: nat, sources: seq<Source>, inst: Instance, settings: Doc, w: World)
    requires SetCredentials(opts, creds, data, index, sources).Success?
    requires ReadsSection(inst, WrittenDoc(opts, creds, data, index, sources), VcsSection(VcsAt(data, index)))
    requires VcsAt(data, index).domain.Str?
    ensures Rule("version_control_domain", inst, Stores(settings, WrittenDoc(opts, creds, data, index, sources)), w)
            == Some(Success(Direct(VcsAt(data, index).domain)))
  {
    RuleDomain(inst, Stores(settings, WrittenDoc(opts, creds, data, index, sources)), w, VcsSection(VcsAt(data, index)));
  }

  /** The options that decide the authentication method, as stored:
      each API token is filled only for its own API, the password only
      for username/password and deploy keys, `env` for every method but
      username/password. */
  lemma TokensStored(opts: Options, creds: Doc, data: Data, index: nat, sources: seq<Source>)
    requires SetCredentials(opts, creds, data, index, sources).Success?
    ensures var e, d := VcsAt(data, index), WrittenDoc(opts, creds, data, index, sources);
            var sec := Some(VcsSection(e));
            && (Filled(d, sec, "github_token") <==> e.auth == Str("github_api") && HasValue(Str(ToStr(e.token))))
            && (Filled(d, sec, "gitlab_token") <==> e.auth == Str("gitlab_api") && HasValue(Str(ToStr(e.token))))
            && (Filled(d, sec, "password")
                <==> (e.auth == Str("user_pass") || e.auth == Str("deploy_key")) && HasValue(Str(ToStr(e.token))))
            && (Filled(d, sec, "env") <==> e.auth != Str("user_pass"))
            && (Filled(d, sec, "username") <==> e.user != Str("") && HasValue(Str(ToStr(e.user))))
  {
    SecretsStored(opts, creds, data, index, sources);
    AccountStored(opts, creds, data, index, sources);
  }

  /** The three secret options of `TokensStored`. */
  lemma SecretsStored(opts: Options, creds: Doc, data: Data, index: nat, sources: seq<Source>)
    requires SetCredentials(opts, creds, data, index, sources).Success?
    ensures var e, d := VcsAt(data, index), WrittenDoc(opts, creds, data, index, sources);
            var sec := Some(VcsSection(e));
            && (Filled(d, sec, "github_token") <==> e.auth == Str("github_api") && HasValue(Str(ToStr(e.token))))
            && (Filled(d, sec, "gitlab_token") <==> e.auth == Str("gitlab_api") && HasValue(Str(ToStr(e.token))))
            && (Filled(d, sec, "password")
                <==> (e.auth == Str("user_pass") || e.auth == Str("deploy_key")) && HasValue(Str(ToStr(e.token))))
  {
    var e := VcsAt(data, index);
    var env, sec, os := CredentialsEnv(e.auth, index), VcsSection(e), WrittenOptions(data, index);
    Written(opts, creds, data, index, sources);
    VcsReadGithubToken(creds, e, env, sec, os);
    VcsReadGitlabToken(creds, e, env, sec, os);
    VcsReadPassword(creds, e, env, sec, os);
  }

  /** The `env` and `username` options of `TokensStored`. */
  lemma AccountStored(opts: Options, creds: Doc, data: Data, index: nat, sources: seq<Source>)
    requires SetCredentials(opts, creds, data, index, sources).Success?
    ensures var e, d := VcsAt(data, index), WrittenDoc(opts, creds, data, index, sources);
            var sec := Some(VcsSection(e));
            && (Filled(d, sec, "env") <==> e.auth != Str("user_pass"))
            && (Filled(d, sec, "username") <==> e.user != Str("") && HasValue(Str(ToStr(e.user))))
  {
    var e := VcsAt(data, index);
    var env, sec, os := CredentialsEnv(e.auth, index), VcsSection(e), WrittenOptions(data, index);
    Written(opts, creds, data, index, sources);
    VcsReadEnv(creds, e, env, sec, os);
    VcsReadUsername(creds, e, env, sec, os);
    EnvNamePresent(index);
  }

  /** The stored options name the submitted authentication method for an
      API with a real token, for a deploy key, and for username/password
      with a real username; `none` is stored like a deploy key. */
  lemma AuthStored(opts: Options, creds: Doc, data: Data, index: nat, sources: seq<Source>)
    requires SetCredentials(opts, creds, data, index, sources).Success?
    ensures var e := VcsAt(data, index);
            var a := VcsAuth(WrittenDoc(opts, creds, data, index, sources), Some(VcsSection(e)));
            && (((e.auth == Str("github_api") || e.auth == Str("gitlab_api")) && Kept(e.token)) ==> a == e.auth)
            && (e.auth == Str("deploy_key") ==> a == e.auth)
            && (e.auth == Str("user_pass") && Kept(e.user) ==> a == e.auth)
            && (e.auth == Str("none") ==> a == Str("deploy_key"))
  {
    TokensStored(opts, creds, data, index, sources);
  }

  /** The submitted authentication method comes back for an API with a
      real token, for a deploy key, and for username/password with a real
      username. */
  lemma AuthReadBack(opts: Options, creds: Doc, data: Data, index: nat, sources: seq<Source>, inst: Instance, settings: Doc, w: World)
    requires SetCredentials(opts, creds, data, index, sources).Success?
    requires ReadsSection(inst, WrittenDoc(opts, creds, data, index, sources), VcsSection(VcsAt(data, index)))
    requires var e := VcsAt(data, index);
             || ((e.auth == Str("github_api") || e.auth == Str("gitlab_api")) && Kept(e.token))
             || e.auth == Str("deploy_key")
             || (e.auth == Str("user_pass") && Kept(e.user))
    ensures Rule("version_control_auth", inst, Stores(settings, WrittenDoc(opts, creds, data, index, sources)), w)
            == Some(Success(Direct(VcsAt(data, index).auth)))
  {
    AuthStored(opts, creds, data, index, sources);
    RuleAuth(inst, Stores(settings, WrittenDoc(opts, creds, data, index, sources)), w, VcsSection(VcsAt(data, index)));
  }

  /** `none` is stored like a deploy key (an `env` variable and no
      token), so it comes back as `deploy_key`. */
  lemma AuthNoneReadsDeployKey(opts: Options, creds: Doc, data: Data, index: nat, sources: seq<Source>, inst: Instance, settings: Doc, w: World)
    requires SetCredentials(opts, creds, data, index, sources).Success?
    requires ReadsSection(inst, WrittenDoc(opts, creds, data, index, sources), VcsSection(VcsAt(data, index)))
    requires VcsAt(data, index).auth == Str("none")
    ensures Rule("version_control_auth", inst, Stores(settings, WrittenDoc(opts, creds, data, index, sources)), w)
            == Some(Success(Direct(Str("deploy_key"))))
  {
    AuthStored(opts, creds, data, index, sources);
    RuleAuth(inst, Stores(settings, WrittenDoc(opts, creds, data, index, sources)), w, VcsSection(VcsAt(data, index)));
  }

  /** The stored username resolves to the submitted one when that is a
      real token or empty. */
  lemma UserStored(opts: Options, creds: Doc, data: Data, index: nat, sources: seq<Source>, settings: Doc)
    requires SetCredentials(opts, creds, data, index, sources).Success?
    requires Shown(VcsAt(data, index).user)
    ensures var d := WrittenDoc(opts, creds, data, index, sources);
            OptionValue(VcsUser(d, Some(VcsSection(VcsAt(data, index)))), Stores(settings, d)) == VcsAt(data, index).user
  {
    var e := VcsAt(data, index);
    Written(opts, creds, data, index, sources);
    VcsReadUsername(creds, e, CredentialsEnv(e.auth, index), VcsSection(e), WrittenOptions(data, index));
  }

  /** The submitted username comes back when it is a real token or
      empty. */
  lemma UserReadBack(opts: Options, creds: Doc, data: Data, index: nat, sources: seq<Source>, inst: Instance, settings: Doc, w: World)
    requires SetCredentials(opts, creds, data, index, sources).Success?
    requires ReadsSection(inst, WrittenDoc(opts, creds, data, index, sources), VcsSection(VcsAt(data, index)))
    requires Shown(VcsAt(data, index).user)
    ensures var st := Stores(settings, WrittenDoc(opts, creds, data, index, sources));
            exists o :: Rule("version_control_user", inst, st, w) == Some(Success(Lookup(o)))
                        && OptionValue(o, st) == VcsAt(data, index).user
  {
    var d := WrittenDoc(opts, creds, data, index, sources);
    UserStored(opts, creds, data, index, sources, settings);
    RuleUser(inst, Stores(settings, d), w, VcsSection(VcsAt(data, index)));
    var o := VcsUser(d, Some(VcsSection(VcsAt(data, index))));
    assert Rule("version_control_user", inst, Stores(settings, d), w) == Some(Success(Lookup(o)));
  }

  /** The stored token option resolves to the submitted token, from
      whichever option the authentication method put it in, when it is a
      real token. */
  lemma TokenStored(opts: Options, creds: Doc, data: Data, index: nat, sources: seq<Source>, settings: Doc)
    requires SetCredentials(opts, creds, data, index, sources).Success?
    requires var e := VcsAt(data, index);
             && (e.auth == Str("github_api") || e.auth == Str("gitlab_api")
                 || e.auth == Str("deploy_key") || e.auth == Str("user_pass"))
             && Kept(e.token)
    ensures var d := WrittenDoc(opts, creds, data, index, sources);
            OptionValue(VcsToken(d, Some(VcsSection(VcsAt(data, index)))), Stores(settings, d)) == VcsAt(data, index).token
  {
    var e := VcsAt(data, index);
    var env, sec, os := CredentialsEnv(e.auth, index), VcsSection(e), WrittenOptions(data, index);
    Written(opts, creds, data, index, sources);
    VcsReadGithubToken(creds, e, env, sec, os);
    VcsReadGitlabToken(creds, e, env, sec, os);
    VcsReadPassword(creds, e, env, sec, os);
    MarkersTokens();
  }

  /** The submitted token comes back when it is a real token. */
  lemma TokenReadBack(opts: Options, creds: Doc, data: Data, index: nat, sources: seq<Source>, inst: Instance, settings: Doc, w: World)
    requires SetCredentials(opts, creds, data, index, sources).Success?
    requires ReadsSection(inst, WrittenDoc(opts, creds, data, index, sources), VcsSection(VcsAt(data, index)))
    requires var e := VcsAt(data, index);
             && (e.auth == Str("github_api") || e.auth == Str("gitlab_api")
                 || e.auth == Str("deploy_key") || e.auth == Str("user_pass"))
             && Kept(e.token)
    ensures var st := Stores(settings, WrittenDoc(opts, creds, data, index, sources));
            exists o :: Rule("version_control_token", inst, st, w) == Some(Success(Lookup(o)))
                        && OptionValue(o, st) == VcsAt(data, index).token
  {
    var d := WrittenDoc(opts, creds, data, index, sources);
    TokenStored(opts, creds, data, index, sources, settings);
    RuleToken(inst, Stores(settings, d), w, VcsSection(VcsAt(data, index)));
    var o := VcsToken(d, Some(VcsSection(VcsAt(data, index))));
    assert Rule("version_control_token", inst, Stores(settings, d), w) == Some(Success(Lookup(o)));
  }

  /** The stored GitLab group or TFS collection resolves to the submitted
      one when that is a real token or empty, except a TFS collection
      named `true`, which is the marker for no collection and resolves to
      nothing. */
  lemma GroupStored(opts: Options, creds: Doc, data: Data, index: nat, sources: seq<Source>, settings: Doc)
    requires SetCredentials(opts, creds, data, index, sources).Success?
    requires var e := VcsAt(data, index);
             && (e.vcsType == Str("gitlab") || e.vcsType == Str("tfs"))
             && Shown(e.group)
    ensures var e, d := VcsAt(data, index), WrittenDoc(opts, creds, data, index, sources);
            var g := VcsGroup(d, Some(VcsSection(e)));
            && (e.vcsType == Str("tfs") && e.group == Str("true") ==> g == NoRef)
            && (!(e.vcsType == Str("tfs") && e.group == Str("true")) ==> OptionValue(g, Stores(settings, d)) == e.group)
  {
    if VcsAt(data, index).vcsType == Str("tfs") {
      CollectionStored(opts, creds, data, index, sources, settings);
    } else {
      GitlabGroupStored(opts, creds, data, index, sources, settings);
    }
  }

  /** The TFS half of `GroupStored`: the collection, or the marker `true`
      for none. */
  lemma CollectionStored(opts: Options, creds: Doc, data: Data, index: nat, sources: seq<Source>, settings: Doc)
    requires SetCredentials(opts, creds, data, index, sources).Success?
    requires var e := VcsAt(data, index); e.vcsType == Str("tfs") && Shown(e.group)
    ensures var e, d := VcsAt(data, index), WrittenDoc(opts, creds, data, index, sources);
            var g := VcsGroup(d, Some(VcsSection(e)));
            && (e.group == Str("true") ==> g == NoRef)
            && (e.group != Str("true") ==> OptionValue(g, Stores(settings, d)) == e.group)
  {
    var e, d := VcsAt(data, index), WrittenDoc(opts, creds, data, index, sources);
    var env, sec, os := CredentialsEnv(e.auth, index), VcsSection(e), WrittenOptions(data, index);
    Written(opts, creds, data, index, sources);
    VcsReadTfs(creds, e, env, sec, os);
    var t := if e.group != Str("") then ToStr(e.group) else "true";
    assert GetIn(d, Some(sec), "tfs") == Some(t);
    MarkersTokens();
    if e.group == Str("") || e.group == Str("true") {
      assert t == "true";
      assert VcsGroup(d, Some(sec)) == NoRef;
    } else {
      assert Str(t) == e.group;
      assert VcsGroup(d, Some(sec)) == Ref(CredentialsStore, Some(sec), "tfs");
    }
  }

  /** The GitLab half of `GroupStored`: the group, read from `group` since
      the `tfs` option holds the placeholder. */
  lemma GitlabGroupStored(opts: Options, creds: Doc, data: Data, index: nat, sources: seq<Source>, settings: Doc)
    requires SetCredentials(opts, creds, data, index, sources).Success?
    requires var e := VcsAt(data, index); e.vcsType == Str("gitlab") && Shown(e.group)
    ensures var e, d := VcsAt(data, index), WrittenDoc(opts, creds, data, index, sources);
            OptionValue(VcsGroup(d, Some(VcsSection(e))), Stores(settings, d)) == e.group
  {
    var e := VcsAt(data, index);
    var env, sec, os := CredentialsEnv(e.auth, index), VcsSection(e), WrittenOptions(data, index);
    Written(opts, creds, data, index, sources);
    VcsReadTfs(creds, e, env, sec, os);
    VcsReadGroup(creds, e, env, sec, os);
    MarkersTokens();
  }

  /** The GitLab group or TFS collection comes back when it is a real
      token or empty, except a TFS collection named `true`. */
  lemma GroupReadBack(opts: Options, creds: Doc, data: Data, index: nat, sources: seq<Source>, inst: Instance, settings: Doc, w: World)
    requires SetCredentials(opts, creds, data, index, sources).Success?
    requires ReadsSection(inst, WrittenDoc(opts, creds, data, index, sources), VcsSection(VcsAt(data, index)))
    requires var e := VcsAt(data, index);
             && (e.vcsType == Str("gitlab") || e.vcsType == Str("tfs"))
             && Shown(e.group)
             && (e.vcsType == Str("tfs") ==> e.group != Str("true"))
    ensures var st := Stores(settings, WrittenDoc(opts, creds, data, index, sources));
            exists o :: Rule("version_control_group", inst, st, w) == Some(Success(Lookup(o)))
                        && OptionValue(o, st) == VcsAt(data, index).group
  {
    var d := WrittenDoc(opts, creds, data, index, sources);
    GroupStored(opts, creds, data, index, sources, settings);
    RuleGroup(inst, Stores(settings, d), w, VcsSection(VcsAt(data, index)));
    var o := VcsGroup(d, Some(VcsSection(VcsAt(data, index))));
    assert Rule("version_control_group", inst, Stores(settings, d), w) == Some(Success(Lookup(o)));
  }

  /** A TFS collection named `true` comes back empty. */
  lemma TfsTrueCollectionLost(opts: Options, creds: Doc, data: Data, index: nat, sources: seq<Source>, inst: Instance, settings: Doc, w: World)
    requires SetCredentials(opts, creds, data, index, sources).Success?
    requires ReadsSection(inst, WrittenDoc(opts, creds, data, index, sources), VcsSection(VcsAt(data, index)))
    requires VcsAt(data, index).vcsType == Str("tfs") && VcsAt(data, index).group == Str("true")
    ensures Rule("version_control_group", inst, Stores(settings, WrittenDoc(opts, creds, data, index, sources)), w) == Some(Success(Lookup(NoRef)))
  {
    GroupStored(opts, creds, data, index, sources, settings);
    RuleGroup(inst, Stores(settings, WrittenDoc(opts, creds, data, index, sources)), w, VcsSection(VcsAt(data, index)));
  }

  /** Both check boxes are stored filled exactly when they were ticked. */
  lemma FlagsStored(opts: Options, creds: Doc, data: Data, index: nat, sources: seq<Source>)
    requires SetCredentials(opts, creds, data, index, sources).Success?
    ensures var e, d := VcsAt(data, index), WrittenDoc(opts, creds, data, index, sources);
            && Flag(d, Some(VcsSection(e)), "unsafe_hosts") == (if Truthy(e.unsafe) then Str("1") else Str(""))
            && Flag(d, Some(VcsSection(e)), "skip_stats") == (if Truthy(e.skipStats) then Str("1") else Str(""))
  {
    var e := VcsAt(data, index);
    var env, sec, os := CredentialsEnv(e.auth, index), VcsSection(e), WrittenOptions(data, index);
    Written(opts, creds, data, index, sources);
    VcsReadUnsafeHosts(creds, e, env, sec, os);
    VcsReadSkipStats(creds, e, env, sec, os);
    MarkersTokens();
  }

  /** Both check boxes come back as `'1'` exactly when they were ticked. */
  lemma FlagsReadBack(opts: Options, creds: Doc, data: Data, index: nat, sources: seq<Source>, inst: Instance, settings: Doc, w: World)
    requires SetCredentials(opts, creds, data, index, sources).Success?
    requires ReadsSection(inst, WrittenDoc(opts, creds, data, index, sources), VcsSection(VcsAt(data, index)))
    ensures var st := Stores(settings, WrittenDoc(opts, creds, data, index, sources));
            && Rule("version_control_unsafe", inst, st, w)
               == Some(Success(Direct(if Truthy(VcsAt(data, index).unsafe) then Str("1") else Str(""))))
            && Rule("version_control_skip_stats", inst, st, w)
               == Some(Success(Direct(if Truthy(VcsAt(data, index).skipStats) then Str("1") else Str(""))))
  {
    var st := Stores(settings, WrittenDoc(opts, creds, data, index, sources));
    FlagsStored(opts, creds, data, index, sources);
    RuleUnsafe(inst, st, w, VcsSection(VcsAt(data, index)));
    RuleSkipStats(inst, st, w, VcsSection(VcsAt(data, index)));
  }

  /** The stored start date and tag resolve to the submitted strings. */
  lemma DateTagStored(opts: Options, creds: Doc, data: Data, index: nat, sources: seq<Source>, settings: Doc)
    requires SetCredentials(opts, creds, data, index, sources).Success?
    requires VcsAt(data, index).fromDate.Str? && VcsAt(data, index).tag.Str?
    ensures var e, d := VcsAt(data, index), WrittenDoc(opts, creds, data, index, sources);
            && OptionValue(Ref(CredentialsStore, Some(VcsSection(e)), "from_date"), Stores(settings, d)) == e.fromDate
            && OptionValue(Ref(CredentialsStore, Some(VcsSection(e)), "tag"), Stores(settings, d)) == e.tag
  {
    var e := VcsAt(data, index);
    var env, sec, os := CredentialsEnv(e.auth, index), VcsSection(e), WrittenOptions(data, index);
    Written(opts, creds, data, index, sources);
    VcsReadFromDate(creds, e, env, sec, os);
    VcsReadTag(creds, e, env, sec, os);
  }

  /** The start date and tag come back as submitted strings. */
  lemma DateTagReadBack(opts: Options, creds: Doc, data: Data, index: nat, sources: seq<Source>, inst: Instance, settings: Doc, w: World)
    requires SetCredentials(opts, creds, data, index, sources).Success?
    requires ReadsSection(inst, WrittenDoc(opts, creds, data, index, sources), VcsSection(VcsAt(data, index)))
    requires VcsAt(data, index).fromDate.Str? && VcsAt(data, index).tag.Str?
    ensures var st := Stores(settings, WrittenDoc(opts, creds, data, index, sources));
            && Rule("version_control_from_date", inst, st, w)
               == Some(Success(Lookup(Ref(CredentialsStore, Some(VcsSection(VcsAt(data, index))), "from_date"))))
            && OptionValue(Ref(CredentialsStore, Some(VcsSection(VcsAt(data, index))), "from_date"), st)
               == VcsAt(data, index).fromDate
            && Rule("version_control_tag", inst, st, w)
               == Some(Success(Lookup(Ref(CredentialsStore, Some(VcsSection(VcsAt(data, index))), "tag"))))
            && OptionValue(Ref(CredentialsStore, Some(VcsSection(VcsAt(data, index))), "tag"), st)
               == VcsAt(data, index).tag
  {
    var st := Stores(settings, WrittenDoc(opts, creds, data, index, sources));
    DateTagStored(opts, creds, data, index, sources, settings);
    RuleFromDate(inst, st, w, VcsSection(VcsAt(data, index)));
    RuleTag(inst, st, w, VcsSection(VcsAt(data, index)));
  }

  // ---------------------------------------------------------------------
  // A Jenkins row read back

  /** The section a Jenkins row with a non-empty host writes. */
  predicate HostWritten(data: Data, k: nat, h: string) {
    JenkinsHost(data, k) == Str(h) && h != ""
  }

  /** An unbound instance at the host's section reads it for every
      Jenkins rule, the token's lookup field included. */
  lemma RuleJenkinsSections(inst: Instance, d: Doc, h: string)
    requires ReadsSection(inst, d, h) && h != ""
    ensures CredentialsSection(inst, d, None) == Some(h)
    ensures CredentialsSection(inst, d, Some("jenkins_host")) == Some(h)
    ensures Named(Some(h))
  {
    UnboundIsPositional(inst, d, Some("jenkins_host"));
  }

  lemma RuleJenkinsHost(inst: Instance, st: Stores, w: World, h: string)
    requires ReadsSection(inst, st.credentials, h) && h != ""
    ensures Rule("jenkins_host", inst, st, w) == Some(Success(Direct(Str(h))))
  {
    RuleJenkinsSections(inst, st.credentials, h);
  }

  lemma RuleJenkinsUser(inst: Instance, st: Stores, w: World, h: string)
    requires ReadsSection(inst, st.credentials, h) && h != ""
    ensures Rule("jenkins_user", inst, st, w) == Some(Success(Lookup(Ref(CredentialsStore, Some(h), "username"))))
  {
    RuleJenkinsSections(inst, st.credentials, h);
  }

  lemma RuleJenkinsToken(inst: Instance, st: Stores, w: World, h: string)
    requires ReadsSection(inst, st.credentials, h) && h != ""
    ensures Rule("jenkins_token", inst, st, w) == Some(Success(Lookup(Ref(CredentialsStore, Some(h), "password"))))
  {
    RuleJenkinsSections(inst, st.credentials, h);
  }

  lemma RuleJenkinsUnsafe(inst: Instance, st: Stores, w: World, h: string)
    requires ReadsSection(inst, st.credentials, h) && h != ""
    ensures Rule("jenkins_unsafe", inst, st, w) == Some(Success(Direct(Flag(st.credentials, Some(h), "unsafe_hosts"))))
  {
    RuleJenkinsSections(inst, st.credentials, h);
  }

  /** A credentials option resolves to what the file holds for it. */
  lemma CredentialsRef(st: Stores, s: string, key: string)
    ensures OptionValue(Ref(CredentialsStore, Some(s), key), st) == FromOption(Get(st.credentials, s, key))
  {
  }

  /** The host's section, as the store reads it: the row's user and
      token as text. */
  lemma JenkinsStored(creds: Doc, data: Data, k: nat, settings: Doc)
    ensures var h, st := ToStr(JenkinsHost(data, k)), Stores(settings, SetJenkinsCredentials(creds, data, k));
            && OptionValue(Ref(CredentialsStore, Some(h), "username"), st) == Str(ToStr(At(Field(data, "jenkins_user"), k)))
            && OptionValue(Ref(CredentialsStore, Some(h), "password"), st) == Str(ToStr(At(Field(data, "jenkins_token"), k)))
  {
    var h, d := ToStr(JenkinsHost(data, k)), SetJenkinsCredentials(creds, data, k);
    JenkinsSectionReads(creds, data, k);
    CredentialsRef(Stores(settings, d), h, "username");
    CredentialsRef(Stores(settings, d), h, "password");
  }

  /** The host's `unsafe_hosts` counts as set exactly when the row's
      flag was truthy. */
  lemma JenkinsUnsafeStored(creds: Doc, data: Data, k: nat)
    ensures Flag(SetJenkinsCredentials(creds, data, k), Some(ToStr(JenkinsHost(data, k))), "unsafe_hosts")
            == if Truthy(At(Field(data, "jenkins_unsafe"), k)) then Str("1") else Str("")
  {
    JenkinsSectionReads(creds, data, k);
    MarkersTokens();
  }

  /** The host field shows the submitted host. */
  lemma JenkinsHostReadBack(creds: Doc, data: Data, k: nat, h: string, inst: Instance, settings: Doc, w: World)
    requires HostWritten(data, k, h)
    requires ReadsSection(inst, SetJenkinsCredentials(creds, data, k), h)
    ensures Rule("jenkins_host", inst, Stores(settings, SetJenkinsCredentials(creds, data, k)), w)
            == Some(Success(Direct(JenkinsHost(data, k))))
  {
    RuleJenkinsHost(inst, Stores(settings, SetJenkinsCredentials(creds, data, k)), w, h);
  }

  /** The user field looks up the `username` the row's user was written
      to, and it resolves to that user as text. */
  lemma JenkinsUserReadBack(creds: Doc, data: Data, k: nat, h: string, inst: Instance, settings: Doc, w: World)
    requires HostWritten(data, k, h)
    requires ReadsSection(inst, SetJenkinsCredentials(creds, data, k), h)
    ensures var st := Stores(settings, SetJenkinsCredentials(creds, data, k));
            exists o :: Rule("jenkins_user", inst, st, w) == Some(Success(Lookup(o)))
                        && OptionValue(o, st) == Str(ToStr(At(Field(data, "jenkins_user"), k)))
  {
    var d := SetJenkinsCredentials(creds, data, k);
    RuleJenkinsUser(inst, Stores(settings, d), w, h);
    JenkinsStored(creds, data, k, settings);
    var o := Ref(CredentialsStore, Some(h), "username");
    assert Rule("jenkins_user", inst, Stores(settings, d), w) == Some(Success(Lookup(o)));
  }

  /** The token field looks up the `password` the row's token was
      written to, and it resolves to that token as text. */
  lemma JenkinsTokenReadBack(creds: Doc, data: Data, k: nat, h: string, inst: Instance, settings: Doc, w: World)
    requires HostWritten(data, k, h)
    requires ReadsSection(inst, SetJenkinsCredentials(creds, data, k), h)
    ensures var st := Stores(settings, SetJenkinsCredentials(creds, data, k));
            exists o :: Rule("jenkins_token", inst, st, w) == Some(Success(Lookup(o)))
                        && OptionValue(o, st) == Str(ToStr(At(Field(data, "jenkins_token"), k)))
  {
    var d := SetJenkinsCredentials(creds, data, k);
    RuleJenkinsToken(inst, Stores(settings, d), w, h);
    JenkinsStored(creds, data, k, settings);
    var o := Ref(CredentialsStore, Some(h), "password");
    assert Rule("jenkins_token", inst, Stores(settings, d), w) == Some(Success(Lookup(o)));
  }

  /** The unsafe checkbox is ticked exactly when the row's flag was
      truthy, and empty otherwise. */
  lemma JenkinsUnsafeReadBack(creds: Doc, data: Data, k: nat, h: string, inst: Instance, settings: Doc, w: World)
    requires HostWritten(data, k, h)
    requires ReadsSection(inst, SetJenkinsCredentials(creds, data, k), h)
    ensures var st := Stores(settings, SetJenkinsCredentials(creds, data, k));
            Rule("jenkins_unsafe", inst, st, w)
            == Some(Success(Direct(if Truthy(At(Field(data, "jenkins_unsafe"), k)) then Str("1") else Str(""))))
  {
    var d := SetJenkinsCredentials(creds, data, k);
    RuleJenkinsUnsafe(inst, Stores(settings, d), w, h);
    JenkinsUnsafeStored(creds, data, k);
  }

  // ---------------------------------------------------------------------
  // The deploy key

  /** Resubmitting the sentinel keeps the stored key: nothing is written,
      and the key file still there makes the field show the sentinel
      again. */
  lemma KeySentinelKept(opts: Options, creds: Doc, data: Data, index: nat, sources: seq<Source>, w: World)
    requires SetCredentials(opts, creds, data, index, sources).Success?
    requires VcsAt(data, index).auth == Str("deploy_key") && VcsAt(data, index).key == Str(Existing)
    requires w.opts == opts
    requires PathJoin(opts.keyPath, "source_" + VcsSection(VcsAt(data, index))) in w.files
    ensures SetCredentials(opts, creds, data, index, sources).value.keyWrite.None?
    ensures VcsKey(w, Some(VcsSection(VcsAt(data, index)))) == Str(Existing)
  {
  }

  /** A submitted key is written to the file the field checks, so once it
      is on disk the field shows the sentinel, never the key. */
  lemma KeyWrittenShowsSentinel(opts: Options, creds: Doc, data: Data, index: nat, sources: seq<Source>, w: World)
    requires SetCredentials(opts, creds, data, index, sources).Success?
    requires var e := VcsAt(data, index);
             e.auth == Str("deploy_key") && e.key.Str? && e.key != Str("") && e.key != Str(Existing)
    requires w.opts == opts
    requires var kw := SetCredentials(opts, creds, data, index, sources).value.keyWrite;
             kw.Some? && kw.value.path in w.files
    ensures SetCredentials(opts, creds, data, index, sources).value.keyWrite
            == Some(KeyWrite(PathJoin(opts.keyPath, "source_" + VcsSection(VcsAt(data, index))), VcsAt(data, index).key.s))
    ensures VcsKey(w, Some(VcsSection(VcsAt(data, index)))) == Str(Existing)
  {
  }

  // ---------------------------------------------------------------------
  // Checkouts through the collected sources

  /** The checkout caption comes back from a `dummy` name, the generated
      `repository on` caption as the empty key. */
  lemma {:induction false} DecodeLabel(k: string, domain: string)
    requires k != "repository on"
    ensures DecodeKey(DummyName(if k == "" then "repository on" else k, domain), domain) == k
  {
    var caption := if k == "" then "repository on" else k;
    var name := DummyName(caption, domain);
    assert name == "dummy " + caption + " " + domain;
    assert |name| - |domain| - 1 == 6 + |caption|;
    assert name[6..6 + |caption|] == caption;
  }

  /** A checkout whose key is literally `repository on` comes back with
      an empty key. */
  lemma RepositoryOnLabelLost(domain: string)
    ensures DecodeKey(DummyName("repository on", domain), domain) == ""
  {
    var name := DummyName("repository on", domain);
    assert name == "dummy " + "repository on" + " " + domain;
    assert name[6..6 + |"repository on"|] == "repository on";
  }

  /** The suffix test also claims the entries of a longer domain that
      ends with this one. */
  lemma SuffixDomainOwned()
    ensures var other := Source(Str("git"), Str("u"), DummyName("a", "xexample.org"));
            Owned([other], "example.org") == [other]
  {
    var other := Source(Str("git"), Str("u"), DummyName("a", "xexample.org"));
    assert other.name == "dummy a xexample.org";
    assert other.name[..5] == "dummy";
    assert other.name[|other.name| - |"example.org"|..] == "example.org";
  }

  lemma {:induction false} OwnedAppend(a: seq<Source>, b: seq<Source>, domain: string)
    ensures Owned(a + b, domain) == Owned(a, domain) + Owned(b, domain)
    decreases |a|
  {
    if |a| > 0 {
      assert (a + b)[1..] == a[1..] + b;
      OwnedAppend(a[1..], b, domain);
    } else {
      assert a + b == b;
    }
  }

  /** A dummy name passes the suffix test of its own domain. */
  lemma DummyNameOwned(caption: string, domain: string)
    ensures StartsWith(DummyName(caption, domain), "dummy")
    ensures EndsWith(DummyName(caption, domain), domain)
  {
    var name := DummyName(caption, domain);
    assert name == "dummy " + caption + " " + domain;
    assert name[..5] == "dummy";
    assert name[|name| - |domain|..] == domain;
  }

  /** Every `dummy` entry written for a domain is owned by it. */
  lemma {:induction false} OwnedDummies(vcsType: Value, domain: string, cs: seq<Value>)
    requires forall c :: c in cs ==> !Nullish(c)
    ensures Owned(DummySources(vcsType, domain, cs), domain) == DummySources(vcsType, domain, cs)
    decreases |cs|
  {
    var ds := DummySources(vcsType, domain, cs);
    if |cs| > 0 {
      OwnedDummies(vcsType, domain, cs[1..]);
      DummyNameOwned(Label(cs[0]), domain);
      assert ds[1..] == DummySources(vcsType, domain, cs[1..]);
    }
  }

  /** The checkouts as the source rule shows them: the key of each
      filled checkout in order, and its URL. */
  predicate PlainKeys(cs: seq<Value>)
    requires forall c :: c in cs ==> !Nullish(c)
  {
    forall i :: 0 <= i < |cs| ==> Read(cs[i], "key").Str? && Read(cs[i], "key") != Str("repository on")
  }

  /** The `dummy` entries written for a domain decode, in order, to the
      keys and URLs of the checkouts they were made from. */
  lemma DummiesDecode(vcsType: Value, domain: string, cs: seq<Value>)
    requires forall c :: c in cs ==> !Nullish(c)
    requires PlainKeys(cs)
    ensures var ds := DummySources(vcsType, domain, cs);
            && (forall i :: 0 <= i < |cs| ==> DecodeKeys(ds, domain)[i] == Read(cs[i], "key"))
            && (forall i :: 0 <= i < |cs| ==> Urls(ds)[i] == Read(cs[i], "value"))
  {
    var ds := DummySources(vcsType, domain, cs);
    forall i | 0 <= i < |cs|
      ensures DecodeKeys(ds, domain)[i] == Read(cs[i], "key")
    {
      var k := Read(cs[i], "key").s;
      assert Label(cs[i]) == if k == "" then "repository on" else k;
      DecodeLabel(k, domain);
    }
  }

  /** With checkouts, `createSources` appends exactly their dummy entries. */
  lemma DummiesAppended(sources: seq<Source>, vcsType: Value, domain: string, group: Value, checkouts: Value)
    requires CreateSources(sources, vcsType, Str(domain), group, checkouts).Success?
    requires |Checkouts(checkouts).value| > 0
    ensures CreateSources(sources, vcsType, Str(domain), group, checkouts).value
            == sources + DummySources(vcsType, domain, Checkouts(checkouts).value)
  {
    assert ToStr(Str(domain)) == domain;
  }

  /** Appending a domain's dummy entries to sources it owns none of gives
      it exactly those entries. */
  lemma OwnedAdded(sources: seq<Source>, vcsType: Value, domain: string, cs: seq<Value>)
    requires forall c :: c in cs ==> !Nullish(c)
    requires Owned(sources, domain) == []
    ensures Owned(sources + DummySources(vcsType, domain, cs), domain) == DummySources(vcsType, domain, cs)
  {
    OwnedAppend(sources, DummySources(vcsType, domain, cs), domain);
    OwnedDummies(vcsType, domain, cs);
  }

  /** The entries a domain owns decode, in order, to the given
      checkouts' keys and URLs. */
  predicate DecodesTo(owned: seq<Source>, domain: string, cs: seq<Value>)
    requires forall c :: c in cs ==> !Nullish(c)
  {
    && |owned| == |cs|
    && (forall i :: 0 <= i < |cs| ==> DecodeKeys(owned, domain)[i] == Read(cs[i], "key"))
    && (forall i :: 0 <= i < |cs| ==> Urls(owned)[i] == Read(cs[i], "value"))
  }

  /** The filled checkouts of an instance come back, keys and URLs in
      order, from the sources `createSources` collects for its domain,
      when no earlier entry is owned by that domain. */
  lemma SourcesReadBack(sources: seq<Source>, vcsType: Value, domain: string, group: Value, checkouts: Value)
    requires CreateSources(sources, vcsType, Str(domain), group, checkouts).Success?
    requires |Checkouts(checkouts).value| > 0
    requires Owned(sources, domain) == []
    requires PlainKeys(Checkouts(checkouts).value)
    ensures DecodesTo(Owned(CreateSources(sources, vcsType, Str(domain), group, checkouts).value, domain), domain,
                      Checkouts(checkouts).value)
  {
    var cs := Checkouts(checkouts).value;
    var added := DummySources(vcsType, domain, cs);
    DummiesAppended(sources, vcsType, domain, group, checkouts);
    OwnedAdded(sources, vcsType, domain, cs);
    DummiesDecode(vcsType, domain, cs);
    assert Owned(CreateSources(sources, vcsType, Str(domain), group, checkouts).value, domain) == added;
  }

  // ---------------------------------------------------------------------
  // How many instances the page shows

  /** A section the edit page counts as a version-control source. */
  predicate VcsTyped(creds: Doc, s: string, choices: set<string>) {
    s != "" && (Get(creds, s, "type").None? || Get(creds, s, "type").value in choices)
  }

  /** Without a submission, the first version-control instance is always
      shown and instance `k + 1` follows while section `k` is a
      version-control source: `n` instances for `n - 1` such sections
      after the first. */
  lemma VcsSectionsCount(creds: Doc, choices: set<string>, n: nat)
    requires n >= 1
    requires n == 1 || n <= |Sections(creds)|
    requires forall k :: 1 <= k < n ==> VcsTyped(creds, Sections(creds)[k], choices)
    requires n >= |Sections(creds)| || !VcsTyped(creds, Sections(creds)[n], choices)
    ensures |Clones("version_control", 1, 1, None, creds, choices)| == n
  {
    forall k | 1 <= k < n
      ensures Continues("version_control", 1, 1, k, None, creds, choices)
    {
      assert Positional(creds, 1 + k) == Some(Sections(creds)[k]);
    }
    if n < |Sections(creds)| {
      assert Positional(creds, 1 + n) == Some(Sections(creds)[n]);
    }
    StoredCount("version_control", 1, creds, choices, n);
  }
}
