/** The credentials file: one section per version-control domain and per
    Jenkins host, as `set_credentials` and `set_jenkins_credentials` in
    lib/config.js write them. */
module Credentials {
  import opened Wrappers
  import opened Js
  import opened Presence
  import opened Store
  import opened Writer

  // ---------------------------------------------------------------------
  // set_credentials (lib/config.js:79-128)

  /** The fields of the `index`-th version-control instance, each read as
      `[].concat(data.<field>)[index]`. */
  datatype VcsEntry = VcsEntry(
    domain: Value, auth: Value, vcsType: Value, user: Value, token: Value, key: Value,
    group: Value, checkouts: Value, unsafe: Value, skipStats: Value, fromDate: Value, tag: Value)

  function VcsAt(data: Data, i: nat): VcsEntry {
    VcsEntry(
      At(Field(data, "version_control_domain"), i),
      At(Field(data, "version_control_auth"), i),
      At(Field(data, "version_control_type"), i),
      At(Field(data, "version_control_user"), i),
      At(Field(data, "version_control_token"), i),
      At(Field(data, "version_control_key"), i),
      At(Field(data, "version_control_group"), i),
      At(Field(data, "version_control_source"), i),
      At(Field(data, "version_control_unsafe"), i),
      At(Field(data, "version_control_skip_stats"), i),
      At(Field(data, "version_control_from_date"), i),
      At(Field(data, "version_control_tag"), i))
  }

  /** The environment variable that points the agent at a source's key. */
  function EnvName(index: nat): string {
    "SOURCE_" + NatToString(index) + "_CREDENTIALS_ENV"
  }

  /** The `env` option: the variable name for every auth method except
      username/password, which stores the placeholder. */
  function CredentialsEnv(auth: Value, index: nat): string {
    if auth != Str("user_pass") then EnvName(index) else "-"
  }

  /** The path `createKey` settles on for an entry (its success case). */
  function KeyPath(opts: Options, e: VcsEntry): string {
    if UsesDeployKey(e.auth, e.key) then PathJoin(opts.keyPath, "source_" + ToStr(e.domain))
    else PathJoin(opts.keyPath, "id_rsa")
  }

  /** The `env` text line `set_credentials` returns for an entry. */
  function EnvAssign(opts: Options, e: VcsEntry, index: nat): string {
    if e.auth != Str("user_pass") then EnvName(index) + "=" + KeyPath(opts, e) else ""
  }

  /** The `setOption` calls that fill a version-control section. */
  function VcsOptions(e: VcsEntry, env: string): seq<Opt> {
    [ Opt("type", e.vcsType, true),
      Opt("env", Str(env), true),
      Opt("username", e.user, e.user != Str("")),
      Opt("password", e.token, e.auth == Str("user_pass") || e.auth == Str("deploy_key")),
      Opt("github_api_url", Str("-"), true),
      Opt("github_token", e.token, e.auth == Str("github_api")),
      Opt("github_bots", Str("-"), true),
      Opt("tfs", if e.group != Str("") then e.group else Str("true"), e.vcsType == Str("tfs")),
      Opt("gitlab_token", e.token, e.auth == Str("gitlab_api")),
      Opt("group", e.group, e.vcsType == Str("gitlab")),
      Opt("unsafe_hosts", Str("true"), Truthy(e.unsafe)),
      Opt("skip_stats", Str("true"), Truthy(e.skipStats)),
      Opt("from_date", e.fromDate, true),
      Opt("tag", e.tag, true) ]
  }

  /** The `index`-th instance makes `set_credentials` throw: its deploy
      key cannot be written or one of its checkout rows is missing. */
  predicate InstanceFails(data: Data, index: nat) {
    || KeyRejected(At(Field(data, "version_control_auth"), index), At(Field(data, "version_control_key"), index))
    || CheckoutsRejected(At(Field(data, "version_control_source"), index))
  }

  /** What one call of `set_credentials` produces. */
  datatype VcsWrite = VcsWrite(credentials: Doc, assign: string, sources: seq<Source>, keyWrite: Option<KeyWrite>)

  /** The section a version-control entry is written under. */
  function VcsSection(e: VcsEntry): string {
    ToStr(e.domain)
  }

  /** `set_credentials(credentials, data, index, sources)`: picks the key
      file, extends the sources, then rewrites the entry's domain section
      at the end of the document; returns the `env` assignment, empty for
      username/password sources. */
  function SetCredentials(opts: Options, creds: Doc, data: Data, index: nat, sources: seq<Source>): (r: Result<VcsWrite>)
    ensures r.Failure? <==> InstanceFails(data, index)
    ensures var e := VcsAt(data, index);
            r.Success? ==>
              && r.value.assign == EnvAssign(opts, e, index)
              && (r.value.assign == "" <==> e.auth == Str("user_pass"))
              && r.value.credentials
                 == Rewrite(creds, VcsSection(e), VcsOptions(e, CredentialsEnv(e.auth, index)))
              && r.value.sources == CreateSources(sources, e.vcsType, e.domain, e.group, e.checkouts).value
              && r.value.keyWrite == CreateKey(opts, e.auth, e.domain, e.key).value.write
  {
    var e := VcsAt(data, index);
    var keyFile :- CreateKey(opts, e.auth, e.domain, e.key);
    var sources' :- CreateSources(sources, e.vcsType, e.domain, e.group, e.checkouts);
    var env := CredentialsEnv(e.auth, index);
    var assign := if e.auth != Str("user_pass") then env + "=" + keyFile.path else "";
    assert e.auth != Str("user_pass") ==> |assign| > 0 && assign == EnvAssign(opts, e, index);
    Success(VcsWrite(Rewrite(creds, VcsSection(e), VcsOptions(e, env)), assign, sources', keyFile.write))
  }

  // ---------------------------------------------------------------------
  // set_jenkins_credentials (lib/config.js:130-140)

  function JenkinsOptions(user: Value, token: Value, unsafe: Value): seq<Opt> {
    [ Opt("type", Str("jenkins"), true),
      Opt("username", user, true),
      Opt("password", token, true),
      Opt("unsafe_hosts", Str("true"), Truthy(unsafe)) ]
  }

  function JenkinsHost(data: Data, index: nat): Value {
    At(Field(data, "jenkins_host"), index)
  }

  /** `set_jenkins_credentials`: the host's section, rewritten at the end
      of the document with the Jenkins options. */
  function SetJenkinsCredentials(creds: Doc, data: Data, index: nat): (r: Doc)
    ensures Sections(r) == Erase(Sections(creds), ToStr(JenkinsHost(data, index))) + [ToStr(JenkinsHost(data, index))]
  {
    Rewrite(creds, ToStr(JenkinsHost(data, index)),
            JenkinsOptions(At(Field(data, "jenkins_user"), index),
                           At(Field(data, "jenkins_token"), index),
                           At(Field(data, "jenkins_unsafe"), index)))
  }

  // ---------------------------------------------------------------------
  // writeCredentialsSources (lib/config.js:181-222)


  /** A `data_sources.json` write into a project's export directory. */
  datatype Sidecar = Sidecar(path: string, sources: seq<Source>)

  /** What `writeCredentialsSources` leaves behind: the rewritten
      credentials, the `env` text, the deploy keys written, every source
      collected and the sidecar, when it is written. */
  datatype CredWrite = CredWrite(
    credentials: Doc, env: string, keyWrites: seq<KeyWrite>, sources: seq<Source>, sidecar: Option<Sidecar>)

  /** The state the version-control loop threads through its calls. */
  datatype Progress = Progress(credentials: Doc, env: string, sources: seq<Source>, keyWrites: seq<KeyWrite>)


  /** Whether one of the first `k` instances throws. */
  predicate FailsBefore(data: Data, k: nat) {
    k > 0 && (FailsBefore(data, k - 1) || InstanceFails(data, k - 1))
  }

  lemma {:induction false} FailsBeforeSome(data: Data, k: nat)
    ensures FailsBefore(data, k) <==> exists j :: 0 <= j < k && InstanceFails(data, j)
  {
    if k > 0 {
      FailsBeforeSome(data, k - 1);
      if FailsBefore(data, k - 1) {
        var j :| 0 <= j < k - 1 && InstanceFails(data, j);
        assert 0 <= j < k;
      }
    }
  }

  /** A failure among the first `k` instances is one among the first
      `n`, for `k <= n`. */
  lemma {:induction false} FailsAfter(data: Data, k: nat, n: nat)
    requires k <= n
    requires FailsBefore(data, k)
    ensures FailsBefore(data, n)
    decreases n - k
  {
    if k < n {
      FailsAfter(data, k + 1, n);
    }
  }

  /** The section names of instances `k` up to `n`. */
  function VcsNames(data: Data, k: nat, n: nat): seq<string>
    decreases n - k
  {
    if k >= n then [] else [VcsSection(VcsAt(data, k))] + VcsNames(data, k + 1, n)
  }

  /** The `env` lines of instances `k` up to `n`: a newline, then the
      instance's assignment (empty for username/password). */
  function EnvLines(opts: Options, data: Data, k: nat, n: nat): string
    decreases n - k
  {
    if k >= n then "" else EnvLine(opts, data, k) + EnvLines(opts, data, k + 1, n)
  }

  /** The `env` line of instance `k`. */
  function EnvLine(opts: Options, data: Data, k: nat): string {
    "\n" + EnvAssign(opts, VcsAt(data, k), k)
  }

  /** Instance `k` heads the section names from `k` on. */
  lemma VcsStep(data: Data, k: nat, n: nat)
    requires k < n
    ensures VcsNames(data, k, n) == [VcsSection(VcsAt(data, k))] + VcsNames(data, k + 1, n)
  {
  }

  /** Instance `k` closes the section names up to `k + 1`. */
  lemma VcsNamesSnoc(data: Data, a: nat, k: nat)
    requires a <= k
    ensures VcsNames(data, a, k + 1) == VcsNames(data, a, k) + [VcsSection(VcsAt(data, k))]
    decreases k - a
  {
    if a < k {
      VcsNamesSnoc(data, a + 1, k);
    }
  }

  /** Appending instance `k`'s line to the `env` text leaves the lines
      from `k + 1` on still to come. */
  lemma EnvStep(opts: Options, data: Data, k: nat, n: nat, before: string, after: string)
    requires k < n
    requires after == before + EnvLine(opts, data, k)
    ensures before + EnvLines(opts, data, k, n) == after + EnvLines(opts, data, k + 1, n)
  {
    var line, rest := EnvLine(opts, data, k), EnvLines(opts, data, k + 1, n);
    assert EnvLines(opts, data, k, n) == line + rest;
    AppendAssoc(before, line, rest);
  }

  function KeyWrites(w: Option<KeyWrite>): seq<KeyWrite> {
    if w.Some? then [w.value] else []
  }

  // ---------------------------------------------------------------------
  // What the version-control loop collects

  /** The sources the first `k` instances collect onto `initial`: one
      `createSources` call per instance, in order; the first call that
      throws ends the collection. */
  function CollectSources(data: Data, k: nat, initial: seq<Source>): Result<seq<Source>> {
    if k == 0 then Success(initial)
    else
      var before :- CollectSources(data, k - 1, initial);
      var e := VcsAt(data, k - 1);
      CreateSources(before, e.vcsType, e.domain, e.group, e.checkouts)
  }

  /** The deploy-key writes of the first `k` instances, in order: the
      write each `createKey` call asks for, if any. */
  function CollectKeyWrites(opts: Options, data: Data, k: nat): Result<seq<KeyWrite>> {
    if k == 0 then Success([])
    else
      var before :- CollectKeyWrites(opts, data, k - 1);
      var e := VcsAt(data, k - 1);
      var key :- CreateKey(opts, e.auth, e.domain, e.key);
      Success(before + KeyWrites(key.write))
  }

  /** Collecting only ever appends: the initial sources stay a prefix. */
  lemma {:induction false} CollectSourcesPrefix(data: Data, k: nat, initial: seq<Source>)
    requires CollectSources(data, k, initial).Success?
    ensures var r := CollectSources(data, k, initial).value;
            |initial| <= |r| && r[..|initial|] == initial
  {
    if k > 0 {
      CollectSourcesPrefix(data, k - 1, initial);
      var before := CollectSources(data, k - 1, initial).value;
      var r := CollectSources(data, k, initial).value;
      assert r[..|initial|] == r[..|before|][..|initial|];
    }
  }

  /** No collected key write carries the sentinel as key material. */
  lemma {:induction false} CollectKeyWritesReal(opts: Options, data: Data, k: nat)
    requires CollectKeyWrites(opts, data, k).Success?
    ensures forall w :: w in CollectKeyWrites(opts, data, k).value ==> w.content != Existing
  {
    if k > 0 {
      CollectKeyWritesReal(opts, data, k - 1);
      var e := VcsAt(data, k - 1);
      var key := CreateKey(opts, e.auth, e.domain, e.key).value;
      assert CollectKeyWrites(opts, data, k).value == CollectKeyWrites(opts, data, k - 1).value + KeyWrites(key.write);
    }
  }

  /** The section instance `j` writes: its domain, holding its fourteen
      options in call order. */
  function InstanceSection(data: Data, j: nat): Section {
    var e := VcsAt(data, j);
    Section(VcsSection(e), UpsertAll([], VcsOptions(e, CredentialsEnv(e.auth, j))))
  }

  /** Instance `j` is the last of the instances before `k` to name its
      domain. */
  predicate LastInstance(data: Data, j: nat, k: nat) {
    VcsSection(VcsAt(data, j)) !in VcsNames(data, j + 1, k)
  }

  /** `d` holds instance `j`'s section under its domain. */
  predicate HoldsInstance(d: Doc, data: Data, j: nat) {
    Find(d.sections, VcsSection(VcsAt(data, j))) == Some(InstanceSection(data, j))
  }

  /** The sections of `d` as the first `k` instances leave them, starting
      from `d0`: a name none of them writes is as in `d0`, and a name some
      of them write holds the section of the last one. */
  ghost predicate LastWriters(d0: Doc, data: Data, k: nat, d: Doc) {
    && (forall m :: m !in VcsNames(data, 0, k) ==> Find(d.sections, m) == Find(d0.sections, m))
    && (forall j :: 0 <= j < k && LastInstance(data, j, k) ==> HoldsInstance(d, data, j))
  }

  /** Rewriting instance `k`'s section leaves every name no instance up
      to `k` writes as it was. */
  lemma UntouchedStep(d0: Doc, data: Data, k: nat, d: Doc)
    requires forall m :: m !in VcsNames(data, 0, k) ==> Find(d.sections, m) == Find(d0.sections, m)
    ensures var e := VcsAt(data, k);
            var d' := Rewrite(d, VcsSection(e), VcsOptions(e, CredentialsEnv(e.auth, k)));
            forall m :: m !in VcsNames(data, 0, k + 1) ==> Find(d'.sections, m) == Find(d0.sections, m)
  {
    var e := VcsAt(data, k);
    var name, os := VcsSection(e), VcsOptions(e, CredentialsEnv(e.auth, k));
    VcsNamesSnoc(data, 0, k);
    forall m | m !in VcsNames(data, 0, k + 1)
      ensures Find(Rewrite(d, name, os).sections, m) == Find(d0.sections, m)
    {
      FindRewriteOther(d, name, os, m);
    }
  }

  /** After rewriting instance `k`'s section, instance `j` is still, or
      now, the last writer of its name. */
  lemma WrittenStepAt(data: Data, k: nat, d: Doc, j: nat)
    requires j < k + 1 && LastInstance(data, j, k + 1)
    requires j < k && LastInstance(data, j, k) ==> HoldsInstance(d, data, j)
    ensures var e := VcsAt(data, k);
            HoldsInstance(Rewrite(d, VcsSection(e), VcsOptions(e, CredentialsEnv(e.auth, k))), data, j)
  {
    var e := VcsAt(data, k);
    var name, os := VcsSection(e), VcsOptions(e, CredentialsEnv(e.auth, k));
    if j < k {
      var m := VcsSection(VcsAt(data, j));
      VcsNamesSnoc(data, j + 1, k);
      assert m != name && LastInstance(data, j, k);
      FindRewriteOther(d, name, os, m);
    } else {
      FindRewritten(d, name, os);
    }
  }

  /** Rewriting instance `k`'s section makes it the last writer of its
      name, and every earlier last writer of another name stays one. */
  lemma WrittenStep(data: Data, k: nat, d: Doc)
    requires forall j :: 0 <= j < k && LastInstance(data, j, k) ==> HoldsInstance(d, data, j)
    ensures var e := VcsAt(data, k);
            var d' := Rewrite(d, VcsSection(e), VcsOptions(e, CredentialsEnv(e.auth, k)));
            forall j :: 0 <= j < k + 1 && LastInstance(data, j, k + 1) ==> HoldsInstance(d', data, j)
  {
    var e := VcsAt(data, k);
    var d' := Rewrite(d, VcsSection(e), VcsOptions(e, CredentialsEnv(e.auth, k)));
    forall j | 0 <= j < k + 1 && LastInstance(data, j, k + 1)
      ensures HoldsInstance(d', data, j)
    {
      WrittenStepAt(data, k, d, j);
    }
  }

  /** Rewriting instance `k`'s section extends the last-writer picture by
      one instance. */
  lemma LastWritersStep(d0: Doc, data: Data, k: nat, d: Doc)
    requires LastWriters(d0, data, k, d)
    ensures var e := VcsAt(data, k);
            LastWriters(d0, data, k + 1, Rewrite(d, VcsSection(e), VcsOptions(e, CredentialsEnv(e.auth, k))))
  {
    UntouchedStep(d0, data, k, d);
    WrittenStep(data, k, d);
  }

  // ---------------------------------------------------------------------
  // The version-control loop

  /** What one successful `set_credentials` call inside the loop does to
      the loop's state: the instance's section is rewritten, the `env`
      text gains the instance's line, the sources are extended by the
      instance's `createSources` call and the key writes by its
      `createKey` call. */
  predicate Stepped(opts: Options, data: Data, k: nat, p: Progress, q: Progress) {
    var e := VcsAt(data, k);
    && q.credentials == Rewrite(p.credentials, VcsSection(e), VcsOptions(e, CredentialsEnv(e.auth, k)))
    && q.env == p.env + EnvLine(opts, data, k)
    && CreateSources(p.sources, e.vcsType, e.domain, e.group, e.checkouts) == Success(q.sources)
    && CreateKey(opts, e.auth, e.domain, e.key).Success?
    && q.keyWrites == p.keyWrites + KeyWrites(CreateKey(opts, e.auth, e.domain, e.key).value.write)
  }

  /** The loop state after a successful call for instance `k`. */
  function Next(p: Progress, w: VcsWrite): Progress {
    Progress(w.credentials, p.env + "\n" + w.assign, w.sources, p.keyWrites + KeyWrites(w.keyWrite))
  }

  lemma StepEnv(opts: Options, creds: Doc, data: Data, k: nat, sources: seq<Source>)
    requires SetCredentials(opts, creds, data, k, sources).Success?
    ensures "\n" + SetCredentials(opts, creds, data, k, sources).value.assign == EnvLine(opts, data, k)
  {
  }

  lemma SetCredentialsStepped(opts: Options, p: Progress, data: Data, k: nat)
    requires SetCredentials(opts, p.credentials, data, k, p.sources).Success?
    ensures Stepped(opts, data, k, p, Next(p, SetCredentials(opts, p.credentials, data, k, p.sources).value))
  {
    var w := SetCredentials(opts, p.credentials, data, k, p.sources).value;
    StepEnv(opts, p.credentials, data, k, p.sources);
    AppendAssoc(p.env, "\n", w.assign);
  }

  /** One `set_credentials` call inside the loop. */
  method ApplyInstance(opts: Options, p: Progress, data: Data, k: nat) returns (r: Result<Progress>)
    ensures r.Failure? <==> InstanceFails(data, k)
    ensures r.Success? ==> Stepped(opts, data, k, p, r.value)
  {
    var w := SetCredentials(opts, p.credentials, data, k, p.sources);
    if w.Failure? {
      return Failure(w.error);
    }
    SetCredentialsStepped(opts, p, data, k);
    r := Success(Next(p, w.value));
  }

  /** What the loop has done after instances `0` up to `k`: the section
      order and `env` text stated as what remains to be done for
      instances `k` up to `n`, the sources and key writes as collected so
      far, the sections' contents by their last writers. */
  ghost predicate Reached(opts: Options, p0: Progress, data: Data, n: nat, k: nat, p: Progress) {
    && Arrange(Sections(p.credentials), VcsNames(data, k, n)) == Arrange(Sections(p0.credentials), VcsNames(data, 0, n))
    && p.env + EnvLines(opts, data, k, n) == p0.env + EnvLines(opts, data, 0, n)
    && CollectSources(data, k, p0.sources) == Success(p.sources)
    && CollectKeyWrites(opts, data, k).Success? && p.keyWrites == p0.keyWrites + CollectKeyWrites(opts, data, k).value
    && LastWriters(p0.credentials, data, k, p.credentials)
  }

  lemma AdvanceOrder(data: Data, n: nat, k: nat, before: Doc, after: Doc, target: seq<string>)
    requires k < n
    requires Arrange(Sections(before), VcsNames(data, k, n)) == target
    requires Sections(after) == Erase(Sections(before), VcsSection(VcsAt(data, k))) + [VcsSection(VcsAt(data, k))]
    ensures Arrange(Sections(after), VcsNames(data, k + 1, n)) == target
  {
    VcsStep(data, k, n);
    ArrangeCons(Sections(before), VcsSection(VcsAt(data, k)), VcsNames(data, k + 1, n));
  }

  lemma AdvanceKeys(opts: Options, p0: Progress, data: Data, k: nat, p: Progress, q: Progress)
    requires CollectKeyWrites(opts, data, k).Success? && p.keyWrites == p0.keyWrites + CollectKeyWrites(opts, data, k).value
    requires var e := VcsAt(data, k);
             && CreateKey(opts, e.auth, e.domain, e.key).Success?
             && q.keyWrites == p.keyWrites + KeyWrites(CreateKey(opts, e.auth, e.domain, e.key).value.write)
    ensures CollectKeyWrites(opts, data, k + 1).Success? && q.keyWrites == p0.keyWrites + CollectKeyWrites(opts, data, k + 1).value
  {
    var e := VcsAt(data, k);
    var w := KeyWrites(CreateKey(opts, e.auth, e.domain, e.key).value.write);
    assert CollectKeyWrites(opts, data, k + 1) == Success(CollectKeyWrites(opts, data, k).value + w);
    AppendAssoc(p0.keyWrites, CollectKeyWrites(opts, data, k).value, w);
  }

  /** A successful call for instance `k` advances the loop by one. */
  lemma Advance(opts: Options, p0: Progress, data: Data, n: nat, k: nat, p: Progress, q: Progress)
    requires k < n && Reached(opts, p0, data, n, k, p) && Stepped(opts, data, k, p, q)
    ensures Reached(opts, p0, data, n, k + 1, q)
  {
    AdvanceOrder(data, n, k, p.credentials, q.credentials, Arrange(Sections(p0.credentials), VcsNames(data, 0, n)));
    EnvStep(opts, data, k, n, p.env, q.env);
    AdvanceKeys(opts, p0, data, k, p, q);
    LastWritersStep(p0.credentials, data, k, p.credentials);
  }

  /** `[].concat(data.version_control_domain).forEach(...)` over the
      first `n` instances: each rewrites its section, extends the sources
      and adds one line to the `env` text; the first throwing instance
      stops the loop. */
  method VcsLoop(opts: Options, p0: Progress, data: Data, n: nat) returns (r: Result<Progress>)
    ensures r.Failure? <==> FailsBefore(data, n)
    ensures r.Success? ==> Sections(r.value.credentials) == Arrange(Sections(p0.credentials), VcsNames(data, 0, n))
    ensures r.Success? ==> LastWriters(p0.credentials, data, n, r.value.credentials)
    ensures r.Success? ==> r.value.env == p0.env + EnvLines(opts, data, 0, n)
    ensures r.Success? ==> CollectSources(data, n, p0.sources) == Success(r.value.sources)
    ensures r.Success? ==>
              CollectKeyWrites(opts, data, n).Success? && r.value.keyWrites == p0.keyWrites + CollectKeyWrites(opts, data, n).value
  {
    var p := p0;
    var k := 0;
    assert p0.keyWrites + [] == p0.keyWrites;
    while k < n
      invariant k <= n && !FailsBefore(data, k) && Reached(opts, p0, data, n, k, p)
    {
      var step := ApplyInstance(opts, p, data, k);
      if step.Failure? {
        FailsAfter(data, k + 1, n);
        return Failure(step.error);
      }
      Advance(opts, p0, data, n, k, p, step.value);
      p := step.value;
      k := k + 1;
    }
    ReachedEnd(opts, p0, data, n, p);
    return Success(p);
  }

  /** Once every instance is done, nothing remains to be done. */
  lemma ReachedEnd(opts: Options, p0: Progress, data: Data, n: nat, p: Progress)
    requires Reached(opts, p0, data, n, n, p)
    ensures Sections(p.credentials) == Arrange(Sections(p0.credentials), VcsNames(data, 0, n))
    ensures p.env == p0.env + EnvLines(opts, data, 0, n)
    ensures LastWriters(p0.credentials, data, n, p.credentials)
    ensures CollectSources(data, n, p0.sources) == Success(p.sources)
    ensures CollectKeyWrites(opts, data, n).Success? && p.keyWrites == p0.keyWrites + CollectKeyWrites(opts, data, n).value
  {
    assert VcsNames(data, n, n) == [] && EnvLines(opts, data, n, n) == [];
    assert p.env + [] == p.env;
  }

  // ---------------------------------------------------------------------
  // The Jenkins loop

  /** The Jenkins hosts among rows `k` up to `n` that get a section: the
      non-empty ones. */
  function HostNames(data: Data, k: nat, n: nat): seq<string>
    decreases n - k
  {
    if k >= n then []
    else (if JenkinsHost(data, k) != Str("") then [ToStr(JenkinsHost(data, k))] else []) + HostNames(data, k + 1, n)
  }

  /** The section Jenkins row `j` writes: its host, holding the four
      Jenkins options in call order. */
  function HostSection(data: Data, j: nat): Section {
    Section(ToStr(JenkinsHost(data, j)),
            UpsertAll([], JenkinsOptions(At(Field(data, "jenkins_user"), j),
                                         At(Field(data, "jenkins_token"), j),
                                         At(Field(data, "jenkins_unsafe"), j))))
  }

  /** Row `j` has a non-empty host and is the last row before `n` to name
      it. */
  predicate LastHost(data: Data, j: nat, n: nat) {
    JenkinsHost(data, j) != Str("") && ToStr(JenkinsHost(data, j)) !in HostNames(data, j + 1, n)
  }

  /** `d` holds Jenkins row `j`'s section under its host. */
  predicate HoldsHost(d: Doc, data: Data, j: nat) {
    Find(d.sections, ToStr(JenkinsHost(data, j))) == Some(HostSection(data, j))
  }

  /** `set_jenkins_credentials` for row `k` as `Find` sees it: the host's
      section is the row's, every other section is as before. */
  lemma JenkinsFinds(creds: Doc, data: Data, k: nat)
    ensures Find(SetJenkinsCredentials(creds, data, k).sections, ToStr(JenkinsHost(data, k))) == Some(HostSection(data, k))
    ensures forall m :: m != ToStr(JenkinsHost(data, k)) ==>
              Find(SetJenkinsCredentials(creds, data, k).sections, m) == Find(creds.sections, m)
  {
    var os := JenkinsOptions(At(Field(data, "jenkins_user"), k), At(Field(data, "jenkins_token"), k),
                             At(Field(data, "jenkins_unsafe"), k));
    FindRewritten(creds, ToStr(JenkinsHost(data, k)), os);
    forall m | m != ToStr(JenkinsHost(data, k))
      ensures Find(SetJenkinsCredentials(creds, data, k).sections, m) == Find(creds.sections, m)
    {
      FindRewriteOther(creds, ToStr(JenkinsHost(data, k)), os, m);
    }
  }

  /** The sections of `d` as Jenkins rows `k` up to `n` leave them,
      starting from `d0`: a name no non-empty row writes is as in `d0`,
      and a host holds the section of the last row naming it. */
  ghost predicate HostsWritten(d0: Doc, data: Data, k: nat, n: nat, d: Doc) {
    && (forall m :: m !in HostNames(data, k, n) ==> Find(d.sections, m) == Find(d0.sections, m))
    && (forall j :: k <= j < n && LastHost(data, j, n) ==> HoldsHost(d, data, j))
  }

  /** A non-empty row `k` in front of rows already written. */
  lemma HostsWrittenStep(creds: Doc, data: Data, k: nat, n: nat, d: Doc)
    requires k < n && JenkinsHost(data, k) != Str("")
    requires HostsWritten(SetJenkinsCredentials(creds, data, k), data, k + 1, n, d)
    ensures HostsWritten(creds, data, k, n, d)
  {
    var host, mid := ToStr(JenkinsHost(data, k)), SetJenkinsCredentials(creds, data, k);
    assert HostNames(data, k, n) == [host] + HostNames(data, k + 1, n);
    JenkinsFinds(creds, data, k);
    forall m | m !in HostNames(data, k, n)
      ensures Find(d.sections, m) == Find(creds.sections, m)
    {
      assert Find(d.sections, m) == Find(mid.sections, m);
    }
    forall j | k <= j < n && LastHost(data, j, n)
      ensures HoldsHost(d, data, j)
    {
      if j == k {
        assert Find(d.sections, host) == Find(mid.sections, host);
      } else {
        assert k + 1 <= j && LastHost(data, j, n);
      }
    }
  }

  /** A skipped empty row `k` in front of rows already written. */
  lemma HostsWrittenSkip(creds: Doc, data: Data, k: nat, n: nat, d: Doc)
    requires k < n && JenkinsHost(data, k) == Str("")
    requires HostsWritten(creds, data, k + 1, n, d)
    ensures HostsWritten(creds, data, k, n, d)
  {
    assert HostNames(data, k, n) == HostNames(data, k + 1, n);
  }

  /** `[].concat(data.jenkins_host).forEach(...)` from row `k` on: each
      non-empty host rewrites its section, moving it to the end; an empty
      host is skipped. A section no row writes is untouched, and a host's
      section is that of the last row naming it. */
  function JenkinsLoop(creds: Doc, data: Data, k: nat, n: nat): (r: Doc)
    ensures Sections(r) == Arrange(Sections(creds), HostNames(data, k, n))
    ensures HostsWritten(creds, data, k, n, r)
    decreases n - k
  {
    if k >= n then creds
    else
      var names := HostNames(data, k, n);
      if JenkinsHost(data, k) != Str("") then
        assert names[0] == ToStr(JenkinsHost(data, k)) && names[1..] == HostNames(data, k + 1, n);
        var rest := JenkinsLoop(SetJenkinsCredentials(creds, data, k), data, k + 1, n);
        HostsWrittenStep(creds, data, k, n, rest);
        rest
      else
        assert names == HostNames(data, k + 1, n);
        var rest := JenkinsLoop(creds, data, k + 1, n);
        HostsWrittenSkip(creds, data, k, n, rest);
        rest
  }

  /** A Jenkins row's options open with `type=jenkins` and set no other
      `type`. */
  lemma JenkinsOptionsTyped(user: Value, token: Value, unsafe: Value)
    ensures var os := JenkinsOptions(user, token, unsafe);
            && |os| > 0 && os[0] == Opt("type", Str("jenkins"), true)
            && forall j :: 0 < j < |os| ==> os[j].key != "type"
  {
  }

  /** A section whose options open with `type=jenkins` and set no other
      `type`, as a Jenkins row's do, reads `type` as `jenkins`. */
  lemma JenkinsFoundType(d: Doc, name: string, os: seq<Opt>)
    requires |os| > 0 && os[0] == Opt("type", Str("jenkins"), true)
    requires forall j :: 0 < j < |os| ==> os[j].key != "type"
    requires Find(d.sections, name) == Some(Section(name, UpsertAll([], os)))
    ensures Get(d, name, "type") == Some("jenkins")
  {
    StoredStr("jenkins");
    FoundReads(d, name, os, 0, Opt("type", Str("jenkins"), true));
  }

  /** A host holding Jenkins row `j`'s section reads `type=jenkins`. */
  lemma HostTyped(d: Doc, data: Data, j: nat)
    requires HoldsHost(d, data, j)
    ensures Get(d, ToStr(JenkinsHost(data, j)), "type") == Some("jenkins")
  {
    var user, token, unsafe := At(Field(data, "jenkins_user"), j), At(Field(data, "jenkins_token"), j),
                                At(Field(data, "jenkins_unsafe"), j);
    JenkinsOptionsTyped(user, token, unsafe);
    JenkinsFoundType(d, ToStr(JenkinsHost(data, j)), JenkinsOptions(user, token, unsafe));
  }

  // ---------------------------------------------------------------------
  // writeCredentialsSources (lib/config.js:181-222)

  /** The space-joined project keys of the `JIRA_KEY` line. */
  function ProjectKeys(projects: seq<Project>): string {
    Join(seq(|projects|, i requires 0 <= i < |projects| => JoinElem(projects[i].key)), " ")
  }

  /** A single project's key line is its key. */
  lemma ProjectKeysSingle(p: Project)
    requires p.key.Str?
    ensures ProjectKeys([p]) == p.key.s
  {
    assert seq(1, i requires 0 <= i < 1 => JoinElem([p][i].key)) == [p.key.s];
  }

  /** The `JIRA_KEY` and `SSH_USERNAME` lines that open the `env` text. */
  function HeaderLines(jira: Value, projects: seq<Project>): string {
    "\nJIRA_KEY=\"" + ProjectKeys(projects) + "\"\nSSH_USERNAME=agent-" + ToStr(jira) + "\n"
  }

  /** The `env` text before the per-instance lines: the space-joined
      project keys, the agent's SSH user and, when the first project has no
      report name, the drop-in switch. */
  function EnvHeader(jira: Value, projects: seq<Project>): (r: string)
    requires |projects| > 0
    ensures StartsWith(r, HeaderLines(jira, projects))
    ensures EndsWith(r, "skip_dropin=0") <==> projects[0].value == Str("")
    ensures EndsWith(r, "\n") <==> projects[0].value != Str("")
  {
    var lead := HeaderLines(jira, projects);
    var tail := if projects[0].value == Str("") then "skip_dropin=0" else "";
    assert (lead + tail)[..|lead|] == lead;
    assert (lead + tail)[|lead + tail| - |tail|..] == tail;
    assert |lead| > 0 && (lead + tail)[|lead + tail| - 1] == if tail == "" then '\n' else '0';
    lead + tail
  }

  /** Whether `data_sources.json` is written: sources were collected, the
      only project has no report name and the JIRA key has a value. */
  predicate SidecarGate(sources: seq<Source>, projects: seq<Project>, jira: Value) {
    |sources| > 0 && |projects| == 1 && projects[0].value == Str("") && HasValue(jira)
  }

  function VcsCount(data: Data): nat {
    |Concat(Field(data, "version_control_domain"))|
  }

  function HostCount(data: Data): nat {
    |Concat(Field(data, "jenkins_host"))|
  }

  /** Some version-control instance makes `set_credentials` throw. */
  predicate SomeInstanceFails(data: Data) {
    exists j :: 0 <= j < VcsCount(data) && InstanceFails(data, j)
  }

  /** What `writeCredentialsSources(data, projects)` promises:
      - it throws with no projects, with a throwing instance, and
        otherwise only for a JIRA key that has a value but is no string;
      - the credentials hold exactly the version-control domains and the
        non-empty Jenkins hosts, in loop order; a domain no later row
        reclaims holds the section of the last instance naming it, a host
        the section of the last row naming it, tagged `type=jenkins`;
      - the `env` text is the header and one line per instance;
      - the sources are those the instances' `createSources` calls
        collect, the key writes those their `createKey` calls ask for,
        and none carries the sentinel;
      - the sidecar holds the sources, at the JIRA key's export path,
        exactly when the gate holds. */
  ghost predicate CredentialsOutcome(opts: Options, creds: Doc, data: Data, projects: seq<Project>, r: Result<CredWrite>) {
    var n, h, jira := VcsCount(data), HostCount(data), Field(data, "jira_key");
    && (|projects| == 0 || SomeInstanceFails(data) ==> r.Failure?)
    && (r.Failure? && |projects| > 0 && !SomeInstanceFails(data) ==> HasValue(jira) && !jira.Str?)
    && (r.Success? ==>
          && |projects| > 0
          && (forall m :: Has(r.value.credentials, m) <==> m in VcsNames(data, 0, n) || m in HostNames(data, 0, h))
          && Sections(r.value.credentials) == Arrange(Arrange([], VcsNames(data, 0, n)), HostNames(data, 0, h))
          && (forall j :: 0 <= j < n && LastInstance(data, j, n)
                          && VcsSection(VcsAt(data, j)) !in HostNames(data, 0, h) ==>
                HoldsInstance(r.value.credentials, data, j))
          && (forall j :: 0 <= j < h && LastHost(data, j, h) ==>
                && HoldsHost(r.value.credentials, data, j)
                && Get(r.value.credentials, ToStr(JenkinsHost(data, j)), "type") == Some("jenkins"))
          && r.value.env == EnvHeader(jira, projects) + EnvLines(opts, data, 0, n)
          && CollectSources(data, n, []) == Success(r.value.sources)
          && CollectKeyWrites(opts, data, n) == Success(r.value.keyWrites)
          && (forall w :: w in r.value.keyWrites ==> w.content != Existing)
          && (r.value.sidecar.Some? <==> SidecarGate(r.value.sources, projects, jira))
          && (r.value.sidecar.Some? ==>
                jira.Str? && r.value.sidecar.value == Sidecar(SidecarPath(opts, jira.s), r.value.sources)))
  }

  /** The credentials as the two loops leave them, starting from the
      emptied document. */
  lemma LoopsContents(data: Data, d: Doc)
    requires LastWriters(Empty, data, VcsCount(data), d)
    ensures var r := JenkinsLoop(d, data, 0, HostCount(data));
            var n, h := VcsCount(data), HostCount(data);
            && (forall j :: 0 <= j < n && LastInstance(data, j, n)
                            && VcsSection(VcsAt(data, j)) !in HostNames(data, 0, h) ==>
                  HoldsInstance(r, data, j))
            && (forall j :: 0 <= j < h && LastHost(data, j, h) ==>
                  && HoldsHost(r, data, j)
                  && Get(r, ToStr(JenkinsHost(data, j)), "type") == Some("jenkins"))
  {
    var r := JenkinsLoop(d, data, 0, HostCount(data));
    forall j | 0 <= j < HostCount(data) && LastHost(data, j, HostCount(data))
      ensures Get(r, ToStr(JenkinsHost(data, j)), "type") == Some("jenkins")
    {
      HostTyped(r, data, j);
    }
  }

  /** The section names the two loops leave, starting from the emptied
      document. */
  lemma LoopsNames(data: Data, d: Doc)
    requires Sections(d) == Arrange(Sections(Empty), VcsNames(data, 0, VcsCount(data)))
    ensures var r := JenkinsLoop(d, data, 0, HostCount(data));
            && Sections(r) == Arrange(Arrange([], VcsNames(data, 0, VcsCount(data))), HostNames(data, 0, HostCount(data)))
            && forall m :: Has(r, m) <==> m in VcsNames(data, 0, VcsCount(data)) || m in HostNames(data, 0, HostCount(data))
  {
    assert Sections(Empty) == [];
  }

  /** `writeCredentialsSources(data, projects)`: empties the credentials,
      writes one section per version-control instance and per non-empty
      Jenkins host, builds the `env` text and writes the sidecar when the
      gate holds. Joining the export path with a JIRA key that is not a
      string throws. */
  method WriteCredentialsSources(opts: Options, creds: Doc, data: Data, projects: seq<Project>) returns (r: Result<CredWrite>)
    ensures CredentialsOutcome(opts, creds, data, projects, r)
  {
    if |projects| == 0 {
      return Failure("TypeError: cannot read property 'value'");
    }
    var jira := Field(data, "jira_key");
    var cleared := RemoveEach(creds, Sections(creds));
    Cleared(creds);
    var vcs := VcsLoop(opts, Progress(cleared, EnvHeader(jira, projects), [], []), data, VcsCount(data));
    FailsBeforeSome(data, VcsCount(data));
    if vcs.Failure? {
      return Failure(vcs.error);
    }
    var p := vcs.value;
    assert [] + CollectKeyWrites(opts, data, VcsCount(data)).value == CollectKeyWrites(opts, data, VcsCount(data)).value;
    CollectKeyWritesReal(opts, data, VcsCount(data));
    var credentials := JenkinsLoop(p.credentials, data, 0, HostCount(data));
    LoopsContents(data, p.credentials);
    LoopsNames(data, p.credentials);
    var gate := SidecarGate(p.sources, projects, jira);
    if gate && !jira.Str? {
      return Failure("TypeError: path must be a string");
    }
    var sidecar := if gate then Some(Sidecar(SidecarPath(opts, jira.s), p.sources)) else None;
    return Success(CredWrite(credentials, p.env, p.keyWrites, p.sources, sidecar));
  }
}
