/** The configuration writer (lib/config.js): turns the merged, validated
    submission into rewritten `settings` and `credentials` documents, the
    `env` text, deploy-key file writes and the `data_sources.json` sidecar.
    Every file effect is returned as a value. */
module Writer {
  import opened Wrappers
  import opened Js
  import opened Presence
  import opened Store

  /** The directories and host the writer takes from the process options. */
  datatype Options = Options(keyPath: string, exportPath: string, sshHost: string)

  /** `path.join(dir, name)` for a plain file name (normalisation of `..`
      and duplicate separators is not modelled). */
  function PathJoin(dir: string, name: string): string {
    dir + "/" + name
  }

  /** The `data_sources.json` file in the export directory of project
      `key`. */
  function SidecarPath(opts: Options, key: string): string {
    PathJoin(PathJoin(opts.exportPath, key), "data_sources.json")
  }

  /** The merged submission: field name to (possibly list-valued) data. */
  type Data = map<string, Value>

  /** `data.<name>`: a field nobody submitted reads as `undefined`. */
  function Field(data: Data, name: string): Value {
    if name in data then data[name] else Undefined
  }

  /** One `projects` entry: a project key and its quality report name. */
  datatype Project = Project(key: Value, value: Value)

  // ---------------------------------------------------------------------
  // setOption (lib/config.js:28-30)

  /** What `setOption` stores: the value when its condition holds and the
      placeholder `-` otherwise (the store keeps the value's string form). */
  function Stored(value: Value, condition: bool): (r: string)
    ensures condition ==> r == ToStr(value)
    ensures !condition ==> r == "-"
  {
    if condition then ToStr(value) else "-"
  }

  /** A string written under a true condition is stored as itself. */
  lemma StoredStr(s: string)
    ensures Stored(Str(s), true) == s
  {
  }

  /** `setOption(config, section, option, value, condition = true)`: the
      option reads as the value when the condition holds and as the
      placeholder otherwise; a missing section is left missing. */
  function SetOption(d: Doc, section: string, option: string, value: Value, condition: bool := true): (r: Doc)
    ensures Has(d, section) ==> Get(r, section, option) == Some(if condition then ToStr(value) else "-")
    ensures Sections(r) == Sections(d)
    ensures !Has(d, section) ==> r == d
  {
    var r := Set(d, section, option, Stored(value, condition));
    GetSet(d, section, option, Stored(value, condition), section, option);
    r
  }

  /** A `setOption` call leaves every other option of every section as it
      was. */
  lemma SetOptionOther(d: Doc, section: string, option: string, value: Value, condition: bool, n: string, k: string)
    requires n != section || k != option
    ensures Get(SetOption(d, section, option, value, condition), n, k) == Get(d, n, k)
  {
    GetSet(d, section, option, Stored(value, condition), n, k);
  }

  /** One `setOption` call of a sequence writing the same section. */
  datatype Opt = Opt(key: string, value: Value, condition: bool)

  /** Consecutive `setOption` calls on one section, in source order. */
  function SetAll(d: Doc, section: string, opts: seq<Opt>): Doc
    decreases |opts|
  {
    if |opts| == 0 then d
    else SetAll(SetOption(d, section, opts[0].key, opts[0].value, opts[0].condition), section, opts[1..])
  }

  /** The options a sequence of `setOption` calls leaves in a section that
      already holds `items`. */
  function UpsertAll(items: seq<Item>, opts: seq<Opt>): seq<Item>
    decreases |opts|
  {
    if |opts| == 0 then items
    else UpsertAll(Upsert(items, opts[0].key, Stored(opts[0].value, opts[0].condition)), opts[1..])
  }

  /** The stored options, one per call, when no option name repeats. */
  function Rendered(opts: seq<Opt>): (r: seq<Item>)
    ensures |r| == |opts|
    ensures forall i :: 0 <= i < |opts| ==> r[i] == Item(opts[i].key, Stored(opts[i].value, opts[i].condition))
  {
    if |opts| == 0 then [] else [Item(opts[0].key, Stored(opts[0].value, opts[0].condition))] + Rendered(opts[1..])
  }

  predicate DistinctKeys(opts: seq<Opt>) {
    forall i, j :: 0 <= i < j < |opts| ==> opts[i].key != opts[j].key
  }

  lemma DistinctPair(a: Opt, b: Opt)
    requires a.key != b.key
    ensures DistinctKeys([a, b])
  {
  }

  lemma {:induction false} UpsertFresh(items: seq<Item>, key: string, value: string)
    requires key !in ItemKeys(items)
    ensures Upsert(items, key, value) == items + [Item(key, value)]
  {
    if |items| > 0 {
      UpsertFresh(items[1..], key, value);
      assert [items[0]] + items[1..] == items;
      AppendAssoc([items[0]], items[1..], [Item(key, value)]);
    }
  }

  lemma {:induction false} UpsertAllFresh(items: seq<Item>, opts: seq<Opt>)
    requires DistinctKeys(opts)
    requires forall i :: 0 <= i < |opts| ==> opts[i].key !in ItemKeys(items)
    ensures UpsertAll(items, opts) == items + Rendered(opts)
    decreases |opts|
  {
    if |opts| > 0 {
      var it := Item(opts[0].key, Stored(opts[0].value, opts[0].condition));
      UpsertFresh(items, opts[0].key, it.value);
      var items' := items + [it];
      ItemKeysAppend(items, [it]);
      forall i | 0 <= i < |opts[1..]|
        ensures opts[1..][i].key !in ItemKeys(items')
      {
        assert opts[1..][i] == opts[i + 1];
      }
      UpsertAllFresh(items', opts[1..]);
      AppendAssoc(items, [it], Rendered(opts[1..]));
    }
  }

  /** A sequence of `setOption` calls on the last section only edits that
      section. */
  lemma {:induction false} SetAllLast(pre: seq<Section>, s: Section, opts: seq<Opt>)
    requires s.name !in Names(pre)
    ensures SetAll(Doc(pre + [s]), s.name, opts) == Doc(pre + [Section(s.name, UpsertAll(s.items, opts))])
    decreases |opts|
  {
    if |opts| > 0 {
      var d := Doc(pre + [s]);
      assert Names(pre + [s]) == Names(pre) + [s.name];
      assert Has(d, s.name);
      SetInLast(pre, s, opts[0].key, Stored(opts[0].value, opts[0].condition));
      var s' := Section(s.name, Upsert(s.items, opts[0].key, Stored(opts[0].value, opts[0].condition)));
      SetAllLast(pre, s', opts[1..]);
    }
  }

  /** `replaceSection` followed by `setOption` calls on it: the section
      moves to the end and holds exactly the options written. */
  function Rewrite(d: Doc, section: string, opts: seq<Opt>): (r: Doc)
    ensures Sections(r) == Erase(Sections(d), section) + [section]
  {
    RewriteShape(d, section, opts);
    NamesWithout(d.sections, section);
    SetAll(ReplaceSection(d, section), section, opts)
  }

  lemma RewriteShape(d: Doc, section: string, opts: seq<Opt>)
    ensures SetAll(ReplaceSection(d, section), section, opts)
            == Doc(Without(d.sections, section) + [Section(section, UpsertAll([], opts))])
  {
    SetAllLast(Without(d.sections, section), Section(section, []), opts);
  }

  /** Rewriting one section leaves the others where `Find` sees them. */
  lemma FindRewriteOther(d: Doc, section: string, opts: seq<Opt>, m: string)
    requires m != section
    ensures Find(Rewrite(d, section, opts).sections, m) == Find(d.sections, m)
  {
    RewriteShape(d, section, opts);
    FindAppend(Without(d.sections, section), Section(section, UpsertAll([], opts)), m);
    FindWithout(d.sections, section, m);
  }

  /** The rewritten section as `Find` sees it. */
  lemma FindRewritten(d: Doc, section: string, opts: seq<Opt>)
    ensures Find(Rewrite(d, section, opts).sections, section) == Some(Section(section, UpsertAll([], opts)))
  {
    RewriteShape(d, section, opts);
    NamesWithout(d.sections, section);
    FindAppend(Without(d.sections, section), Section(section, UpsertAll([], opts)), section);
  }

  /** With distinct option names the rewritten section holds exactly the
      options written, in call order, at the end of the document. */
  lemma RewriteContents(d: Doc, section: string, opts: seq<Opt>)
    requires DistinctKeys(opts)
    ensures Rewrite(d, section, opts) == Doc(Without(d.sections, section) + [Section(section, Rendered(opts))])
  {
    RewriteShape(d, section, opts);
    assert ItemKeys([]) == [];
    UpsertAllFresh([], opts);
    assert [] + Rendered(opts) == Rendered(opts);
  }

  /** Options written later under other names leave a read untouched. */
  lemma {:induction false} UpsertAllOther(items: seq<Item>, opts: seq<Opt>, k: string)
    requires forall j :: 0 <= j < |opts| ==> opts[j].key != k
    ensures ValueOf(UpsertAll(items, opts), k) == ValueOf(items, k)
    decreases |opts|
  {
    if |opts| > 0 {
      UpsertOther(items, opts[0].key, Stored(opts[0].value, opts[0].condition), k);
      UpsertAllOther(Upsert(items, opts[0].key, Stored(opts[0].value, opts[0].condition)), opts[1..], k);
    }
  }

  /** The last `setOption` call under a name decides what it reads as. */
  lemma {:induction false} UpsertAllLast(items: seq<Item>, opts: seq<Opt>, i: nat)
    requires i < |opts|
    requires forall j :: i < j < |opts| ==> opts[j].key != opts[i].key
    ensures ValueOf(UpsertAll(items, opts), opts[i].key) == Some(Stored(opts[i].value, opts[i].condition))
    decreases |opts|
  {
    var items' := Upsert(items, opts[0].key, Stored(opts[0].value, opts[0].condition));
    if i == 0 {
      UpsertAllOther(items', opts[1..], opts[0].key);
    } else {
      UpsertAllLast(items', opts[1..], i - 1);
    }
  }

  /** Reading one option back from a section written by `Rewrite`: the
      option `o` written at position `i` and under no later name. */
  lemma ReadAt(d: Doc, section: string, opts: seq<Opt>, i: nat, o: Opt)
    requires i < |opts| && opts[i] == o
    requires forall j :: i < j < |opts| ==> opts[j].key != o.key
    ensures Get(Rewrite(d, section, opts), section, o.key) == Some(Stored(o.value, o.condition))
  {
    RewriteShape(d, section, opts);
    FindAppend(Without(d.sections, section), Section(section, UpsertAll([], opts)), section);
    UpsertAllLast([], opts, i);
  }

  /** Reading one option from any document whose section `section` holds
      what `Rewrite` writes there: the option `o` written at position `i`
      and under no later name. */
  lemma FoundReads(d: Doc, section: string, opts: seq<Opt>, i: nat, o: Opt)
    requires Find(d.sections, section) == Some(Section(section, UpsertAll([], opts)))
    requires i < |opts| && opts[i] == o
    requires forall j :: i < j < |opts| ==> opts[j].key != o.key
    ensures Get(d, section, o.key) == Some(Stored(o.value, o.condition))
  {
    UpsertAllLast([], opts, i);
  }

  /** Every option of a two-call section with distinct names reads back. */
  lemma ReadPair(d: Doc, section: string, a: Opt, b: Opt)
    requires a.key != b.key
    ensures Get(Rewrite(d, section, [a, b]), section, a.key) == Some(Stored(a.value, a.condition))
    ensures Get(Rewrite(d, section, [a, b]), section, b.key) == Some(Stored(b.value, b.condition))
  {
    ReadAt(d, section, [a, b], 0, a);
    ReadAt(d, section, [a, b], 1, b);
  }

  /** Every option of a three-call section with distinct names reads back. */
  lemma ReadTriple(d: Doc, section: string, a: Opt, b: Opt, c: Opt)
    requires a.key != b.key && a.key != c.key && b.key != c.key
    ensures Get(Rewrite(d, section, [a, b, c]), section, a.key) == Some(Stored(a.value, a.condition))
    ensures Get(Rewrite(d, section, [a, b, c]), section, b.key) == Some(Stored(b.value, b.condition))
    ensures Get(Rewrite(d, section, [a, b, c]), section, c.key) == Some(Stored(c.value, c.condition))
  {
    ReadAt(d, section, [a, b, c], 0, a);
    ReadAt(d, section, [a, b, c], 1, b);
    ReadAt(d, section, [a, b, c], 2, c);
  }

  /** Every option of a four-call section with distinct names reads back. */
  lemma ReadQuad(d: Doc, section: string, a: Opt, b: Opt, c: Opt, e: Opt)
    requires a.key != b.key && a.key != c.key && a.key != e.key && b.key != c.key && b.key != e.key && c.key != e.key
    ensures Get(Rewrite(d, section, [a, b, c, e]), section, a.key) == Some(Stored(a.value, a.condition))
    ensures Get(Rewrite(d, section, [a, b, c, e]), section, b.key) == Some(Stored(b.value, b.condition))
    ensures Get(Rewrite(d, section, [a, b, c, e]), section, c.key) == Some(Stored(c.value, c.condition))
    ensures Get(Rewrite(d, section, [a, b, c, e]), section, e.key) == Some(Stored(e.value, e.condition))
  {
    ReadAt(d, section, [a, b, c, e], 0, a);
    ReadAt(d, section, [a, b, c, e], 1, b);
    ReadAt(d, section, [a, b, c, e], 2, c);
    ReadAt(d, section, [a, b, c, e], 3, e);
  }

  /** With distinct option names every option reads back as stored. */
  lemma RewriteReads(d: Doc, section: string, opts: seq<Opt>)
    requires DistinctKeys(opts)
    ensures forall i :: 0 <= i < |opts| ==>
              Get(Rewrite(d, section, opts), section, opts[i].key) == Some(Stored(opts[i].value, opts[i].condition))
  {
    forall i | 0 <= i < |opts|
      ensures Get(Rewrite(d, section, opts), section, opts[i].key) == Some(Stored(opts[i].value, opts[i].condition))
    {
      ReadAt(d, section, opts, i, opts[i]);
    }
  }

  /** A rewrite adds its own section and leaves the presence of every
      other section as it was. */
  lemma RewriteHas(d: Doc, section: string, opts: seq<Opt>, n: string)
    ensures Has(Rewrite(d, section, opts), n) <==> n == section || Has(d, n)
  {
    var s := Erase(Sections(d), section);
    assert Sections(Rewrite(d, section, opts)) == s + [section];
    assert n in s + [section] <==> n in s || n == section;
  }

  /** With distinct option names the rewritten section lists exactly the
      names written, in call order. */
  lemma RewriteKeys(d: Doc, section: string, opts: seq<Opt>)
    requires DistinctKeys(opts)
    ensures Has(Rewrite(d, section, opts), section)
    ensures Keys(Rewrite(d, section, opts), section) == ItemKeys(Rendered(opts))
  {
    RewriteContents(d, section, opts);
    FindAppend(Without(d.sections, section), Section(section, Rendered(opts)), section);
  }

  /** An option no call writes is absent from the rewritten section,
      whatever the section held before. */
  lemma ReadAbsent(d: Doc, section: string, opts: seq<Opt>, k: string)
    requires forall j :: 0 <= j < |opts| ==> opts[j].key != k
    ensures Get(Rewrite(d, section, opts), section, k) == None
  {
    RewriteShape(d, section, opts);
    FindAppend(Without(d.sections, section), Section(section, UpsertAll([], opts)), section);
    UpsertAllOther([], opts, k);
  }

  /** Sections other than the rewritten one read as before. */
  lemma ReadOther(d: Doc, section: string, opts: seq<Opt>, n: string, k: string)
    requires n != section
    ensures Get(Rewrite(d, section, opts), n, k) == Get(d, n, k)
  {
    RewriteShape(d, section, opts);
    FindAppend(Without(d.sections, section), Section(section, UpsertAll([], opts)), n);
    FindWithout(d.sections, section, n);
  }

  // ---------------------------------------------------------------------
  // createKey (lib/config.js:36-45)

  /** A file the writer asks to be written. */
  datatype KeyWrite = KeyWrite(path: string, content: string)

  /** The key file a source uses, and the write it needs, if any. */
  datatype KeyFile = KeyFile(path: string, write: Option<KeyWrite>)

  predicate UsesDeployKey(auth: Value, key: Value) {
    auth == Str("deploy_key") && key != Str("")
  }

  /** A deploy key `createKey` cannot write: neither the sentinel nor a
      string. */
  predicate KeyRejected(auth: Value, key: Value) {
    UsesDeployKey(auth, key) && key != Str(Existing) && !key.Str?
  }

  /** `createKey`: a source with a submitted deploy key uses its own key
      file `source_<domain>`, every other source the shared `id_rsa`; the
      key is written only when it is not the sentinel, so the sentinel
      never becomes key material. Writing anything but a string throws. */
  function CreateKey(opts: Options, auth: Value, domain: Value, key: Value): (r: Result<KeyFile>)
    ensures r.Failure? <==> KeyRejected(auth, key)
    ensures r.Success? && UsesDeployKey(auth, key) ==>
              r.value.path == PathJoin(opts.keyPath, "source_" + ToStr(domain))
    ensures r.Success? && !UsesDeployKey(auth, key) ==> r.value.path == PathJoin(opts.keyPath, "id_rsa")
    ensures r.Success? ==> (r.value.write.Some? <==> UsesDeployKey(auth, key) && key != Str(Existing))
    ensures r.Success? && r.value.write.Some? ==>
              && r.value.write.value.path == r.value.path
              && Str(r.value.write.value.content) == key
              && r.value.write.value.content != Existing
  {
    if UsesDeployKey(auth, key) then
      var path := PathJoin(opts.keyPath, "source_" + ToStr(domain));
      if key == Str(Existing) then Success(KeyFile(path, None))
      else if key.Str? then Success(KeyFile(path, Some(KeyWrite(path, key.s))))
      else Failure("TypeError: key file data must be a string")
    else
      Success(KeyFile(PathJoin(opts.keyPath, "id_rsa"), None))
  }

  // ---------------------------------------------------------------------
  // createSources (lib/config.js:47-77)

  /** One entry of `data_sources.json`. */
  datatype Source = Source(kind: Value, url: Value, name: string)

  /** `checkouts.filter(source => source.value !== '')`; reading `value`
      of `null` or `undefined` throws. */
  function KeepFilled(xs: seq<Value>): (r: Result<seq<Value>>)
    ensures r.Failure? <==> exists i :: 0 <= i < |xs| && Nullish(xs[i])
    ensures r.Success? ==> forall c :: c in r.value ==> c in xs && !Nullish(c) && Read(c, "value") != Str("")
    ensures r.Success? ==> forall c :: c in xs ==> !Nullish(c) && (Read(c, "value") != Str("") ==> c in r.value)
  {
    if |xs| == 0 then Success([])
    else if Nullish(xs[0]) then Failure("TypeError: cannot read property 'value'")
    else
      var rest :- KeepFilled(xs[1..]);
      assert forall c :: c in xs ==> c == xs[0] || c in xs[1..];
      Success(if Read(xs[0], "value") != Str("") then [xs[0]] + rest else rest)
  }

  /** A submitted checkout list with a missing row, which makes reading
      its `value` throw. */
  predicate CheckoutsRejected(checkouts: Value) {
    checkouts != Undefined && exists i :: 0 <= i < |Concat(checkouts)| && Nullish(Concat(checkouts)[i])
  }

  /** The submitted checkouts of one source: none when the field is
      missing, otherwise the filled ones. */
  function Checkouts(checkouts: Value): (r: Result<seq<Value>>)
    ensures r.Failure? <==> CheckoutsRejected(checkouts)
    ensures r.Success? ==> forall c :: c in r.value ==> !Nullish(c) && Read(c, "value") != Str("")
  {
    if checkouts == Undefined then Success([]) else KeepFilled(Concat(checkouts))
  }

  /** The label part of a dummy source name: the checkout's key, or
      `repository on` for an empty key. */
  function Label(c: Value): string
    requires !Nullish(c)
  {
    var key := Read(c, "key");
    if key == Str("") then "repository on" else ToStr(key)
  }

  /** The name convention `dummy <caption> <domain>`. */
  function DummyName(caption: string, domain: string): string {
    "dummy " + caption + " " + domain
  }

  function DummySources(vcsType: Value, domain: string, cs: seq<Value>): (r: seq<Source>)
    requires forall c :: c in cs ==> !Nullish(c)
    ensures |r| == |cs|
    ensures forall i :: 0 <= i < |cs| ==>
              r[i] == Source(vcsType, Read(cs[i], "value"), DummyName(Label(cs[i]), domain))
  {
    seq(|cs|, i requires 0 <= i < |cs| =>
      Source(vcsType, Read(cs[i], "value"), DummyName(Label(cs[i]), domain)))
  }

  /** The templated entry synthesised from a GitLab group or TFS
      collection when no checkout was submitted. */
  function GroupSource(vcsType: Value, domain: string, group: Value): (r: seq<Source>)
    ensures |r| <= 1
    ensures |r| == 1 <==> vcsType == Str("gitlab") || vcsType == Str("tfs")
    ensures |r| == 1 ==> r[0].kind == vcsType && r[0].name == ToStr(vcsType) + " repository on " + domain
    ensures |r| == 1 && vcsType == Str("gitlab") ==>
              r[0].url == Str("http://" + domain + "/" + ToStr(group) + "/" + ToStr(group) + ".git")
    ensures |r| == 1 && vcsType == Str("tfs") ==> r[0].url == Str("http://" + domain + "/" + ToStr(group) + "/_git/Dummy")
  {
    var g := ToStr(group);
    if vcsType == Str("gitlab") then
      assert ToStr(Str("gitlab")) == "gitlab" && "gitlab repository on " == "gitlab" + " repository on ";
      [Source(Str("gitlab"), Str("http://" + domain + "/" + g + "/" + g + ".git"), "gitlab repository on " + domain)]
    else if vcsType == Str("tfs") then
      assert ToStr(Str("tfs")) == "tfs" && "tfs repository on " == "tfs" + " repository on ";
      [Source(Str("tfs"), Str("http://" + domain + "/" + g + "/_git/Dummy"), "tfs repository on " + domain)]
    else []
  }

  predicate EndsWith(s: string, suffix: string) {
    |suffix| <= |s| && s[|s| - |suffix|..] == suffix
  }

  /** `createSources`: appends to the collected sources, never removes or
      reorders. Each filled checkout gives one `dummy` entry; with none, a
      non-empty group gives at most one templated entry. Every added name
      ends with a space and the owning domain. */
  function CreateSources(sources: seq<Source>, vcsType: Value, domain: Value, group: Value, checkouts: Value): (r: Result<seq<Source>>)
    ensures r.Failure? <==> CheckoutsRejected(checkouts)
    ensures r.Success? <==> Checkouts(checkouts).Success?
    ensures r.Success? ==> |sources| <= |r.value| && r.value[..|sources|] == sources
    ensures r.Success? && |Checkouts(checkouts).value| > 0 ==>
              r.value == sources + DummySources(vcsType, ToStr(domain), Checkouts(checkouts).value)
    ensures r.Success? && |Checkouts(checkouts).value| == 0 ==>
              |r.value| == |sources| + (if group != Str("") && (vcsType == Str("gitlab") || vcsType == Str("tfs")) then 1 else 0)
    ensures r.Success? && |Checkouts(checkouts).value| == 0 ==>
              r.value == sources + (if group != Str("") then GroupSource(vcsType, ToStr(domain), group) else [])
    ensures r.Success? ==> forall i :: |sources| <= i < |r.value| ==>
              EndsWith(r.value[i].name, " " + ToStr(domain))
  {
    var cs :- Checkouts(checkouts);
    var d := ToStr(domain);
    var added := if |cs| > 0 then DummySources(vcsType, d, cs)
                 else if group != Str("") then GroupSource(vcsType, d, group)
                 else [];
    assert forall i :: 0 <= i < |added| ==> EndsWith(added[i].name, " " + d) by {
      forall i | 0 <= i < |added|
        ensures EndsWith(added[i].name, " " + d)
      {
        if |cs| > 0 {
          assert added[i].name == "dummy " + Label(cs[i]) + (" " + d);
        } else {
          assert added[i].name == ToStr(vcsType) + " repository on" + (" " + d);
        }
      }
    }
    assert (sources + added)[..|sources|] == sources;
    Success(sources + added)
  }
}
