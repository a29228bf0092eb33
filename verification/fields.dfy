/** The field types of the form (lib/form.js:77-281): string and host
    fields that take their value from a rule, the map field whose items
    follow the data it is given, the secret widgets and the validator that
    puts the stored secret back where the sentinel was submitted
    (lib/form.js:543-554). */
module Fields {
  import opened Wrappers
  import opened Js
  import opened Presence
  import opened Store
  import opened Writer
  import opened Derive

  /** How a field parses what is submitted: as a string, as a host, or as
      a map of the named sub-fields. */
  datatype Kind = Text | Host | Map(subfields: seq<string>)

  /** The sub-fields of a map field, as a set. */
  function SubfieldSet(k: Kind): (r: set<string>)
    requires k.Map?
    ensures forall n :: n in r <==> n in k.subfields
  {
    set n | n in k.subfields
  }

  /** One field of the form schema: its name, kind and the static
      `option` it is read from when no rule exists for it (`undefined`
      when the schema gives none). */
  datatype FieldSpec = FieldSpec(name: string, kind: Kind, option: Derived)

  // ---------------------------------------------------------------------
  // String and host fields (lib/form.js:77-133)

  /** The value a string field is given by `getOptionValue` or directly. */
  function Resolve(d: Derived, st: Stores): (r: Value)
    ensures d.Direct? ==> r == d.v
    ensures d.Lookup? ==> r == OptionValue(d.o, st)
    ensures d.Columns? && d.m.Obj? ==> r == Undefined
  {
    match d
    case Direct(v) => v
    case Lookup(o) => OptionValue(o, st)
    case Columns(m) => if m.Obj? then OptionValue(NotAList, st) else m
  }

  /** What a field's `setValue` starts from: its rule when it has one,
      otherwise its static option. */
  function Origin(spec: FieldSpec, inst: Instance, st: Stores, w: World): (r: Result<Derived>)
    ensures spec.name !in RuleNames ==> r == Success(spec.option)
    ensures spec.name in RuleNames ==> r == Rule(spec.name, inst, st, w).value
  {
    match Rule(spec.name, inst, st, w)
    case Some(res) => res
    case None => Success(spec.option)
  }

  /** A string field's `setValue`: the value the rule or option yields,
      with every absent token shown as `''`. A rule that throws leaves the
      current value as it was. */
  function SetValue(spec: FieldSpec, inst: Instance, st: Stores, w: World, current: Value): (r: Value)
    ensures Origin(spec, inst, st, w).Failure? ==> r == current
    ensures Origin(spec, inst, st, w).Success? ==> r == Collapse(Resolve(Origin(spec, inst, st, w).value, st))
    ensures Origin(spec, inst, st, w).Success? ==> r == Str("") || HasValue(r)
  {
    match Origin(spec, inst, st, w)
    case Failure(_) => current
    case Success(d) => Collapse(Resolve(d, st))
  }

  /** A derived string value never shows a placeholder such as `'-'`. */
  lemma DerivedNeverPlaceholder(spec: FieldSpec, inst: Instance, st: Stores, w: World, current: Value)
    requires spec.name != "version_control_source"
    ensures SetValue(spec, inst, st, w, current) !in Absent - {Str("")}
  {
  }

  /** The form library's string parsing: `null` and `undefined` become
      `''`, anything else its string form. */
  function ParseText(raw: Value): (r: Value)
    ensures r.Str?
    ensures raw.Str? ==> r == raw
  {
    if Nullish(raw) then Str("") else Str(ToStr(raw))
  }

  /** The parse step of a string or host field: a host field keeps only
      the host of a submitted URL. */
  function Parse(parseHost: string -> Option<string>, kind: Kind, raw: Value): (r: Value)
    ensures kind.Text? ==> r == ParseText(raw)
    ensures kind.Host? ==> r == GetDomain(parseHost, ParseText(raw))
  {
    if kind.Host? then GetDomain(parseHost, ParseText(raw)) else ParseText(raw)
  }

  /** A string field after `bind`: the value it held before binding is
      kept as `original_value`; the submitted value is parsed. */
  datatype Bound = Bound(original: Value, raw: Value, data: Value)

  function Bind(parseHost: string -> Option<string>, kind: Kind, value: Value, raw: Value): (r: Bound)
    ensures r.original == value
    ensures r.data == Parse(parseHost, kind, raw)
  {
    Bound(value, raw, Parse(parseHost, kind, raw))
  }

  // ---------------------------------------------------------------------
  // Secret widgets (lib/form.js:257-281)

  /** The password widget's `formatValue`: the sentinel for any present
      value, `null` (an empty input) otherwise. */
  function PasswordShown(v: Value): (r: Value)
    ensures r == Str(Existing) <==> Truthy(v)
    ensures r == Null <==> !Truthy(v)
  {
    if Truthy(v) then Str(Existing) else Null
  }

  /** The text a textarea renders: the sentinel for any present value,
      empty otherwise. */
  function TextareaShown(v: Value): (r: string)
    ensures r == Existing <==> Truthy(v)
    ensures r == "" <==> !Truthy(v)
  {
    if Truthy(v) then Existing else ""
  }

  /** No secret is ever rendered: whatever the stored secret, a secret
      widget shows only the sentinel or nothing. */
  lemma SecretNeverShown(secret: string)
    requires secret != ""
    ensures PasswordShown(Str(secret)) == Str(Existing)
    ensures TextareaShown(Str(secret)) == Existing
    ensures PasswordShown(Str(secret)) != Str(secret) || secret == Existing
  {
  }

  // ---------------------------------------------------------------------
  // The map field (lib/form.js:134-256)

  /** One item of a map field: a value per sub-field. */
  type Row = map<string, Value>

  /** The item a freshly built map form contributes: every sub-field
      still without a value. */
  function FreshRow(fields: set<string>): (r: Row)
    ensures r.Keys == fields
  {
    map k | k in fields :: Undefined
  }

  /** The number of items `setData` wants for some data: none for empty
      data, one for a string, the length of a list. Reading the length of
      `null` or `undefined` throws; any other value has no numeric length
      and asks for none. */
  function NeededItems(data: Value): (r: Result<nat>)
    ensures |Entries(data)| == 0 ==> r == Success(0)
    ensures |Entries(data)| > 0 ==>
              var first := Entries(data)[0].val;
              && (r.Failure? <==> Nullish(first))
              && (first.Str? ==> r == Success(1))
              && (first.Arr? ==> r == Success(|first.elems|))
  {
    if |Entries(data)| == 0 then Success(0)
    else
      var first := Entries(data)[0].val;
      match first
      case Str(_) => Success(1)
      case Arr(es) => Success(|es|)
      case Undefined => Result<nat>.Failure("TypeError: cannot read property 'length' of undefined")
      case Null => Result<nat>.Failure("TypeError: cannot read property 'length' of null")
      case _ => Success(0)
  }

  /** `setData`: grows the items to the number the data wants, never
      removing one. */
  function SetData(fields: set<string>, rows: seq<Row>, data: Value): (r: Result<seq<Row>>)
    ensures r.Failure? <==> NeededItems(data).Failure?
    ensures r.Success? ==> |r.value| == Max(|rows|, NeededItems(data).value)
    ensures r.Success? ==> r.value[..|rows|] == rows
    ensures r.Success? ==> forall i :: |rows| <= i < |r.value| ==> r.value[i] == FreshRow(fields)
  {
    var n :- NeededItems(data);
    if n <= |rows| then Success(rows)
    else Success(rows + seq(n - |rows|, _ => FreshRow(fields)))
  }

  function Max(a: nat, b: nat): nat {
    if a < b then b else a
  }

  /** One column of the data copied into the items:
      `items[k].value = item[index]` for every item. */
  function Column(rows: seq<Row>, k: string, item: Value): (r: seq<Row>)
    requires !Nullish(item)
    ensures |r| == |rows|
    ensures forall i :: 0 <= i < |rows| ==> r[i] == rows[i][k := Index(item, i).value]
  {
    seq(|rows|, i requires 0 <= i < |rows| => rows[i][k := Index(item, i).value])
  }

  /** Every column of the data copied into the items, in order. A column
      named after no sub-field, or holding `null` or `undefined`, throws
      on the first item; the exception is caught, so the columns before it
      stay copied and the rest are skipped. */
  function CopyColumns(fields: set<string>, rows: seq<Row>, entries: seq<Member>): (r: seq<Row>)
    requires Uniform(fields, rows)
    ensures |r| == |rows|
    ensures Uniform(fields, r)
    decreases |entries|
  {
    if |entries| == 0 then rows
    else if entries[0].name !in fields || Nullish(entries[0].val) then rows
    else CopyColumns(fields, Column(rows, entries[0].name, entries[0].val), entries[1..])
  }

  /** Every item has exactly the map's sub-fields. */
  predicate Uniform(fields: set<string>, rows: seq<Row>) {
    forall i :: 0 <= i < |rows| ==> rows[i].Keys == fields
  }

  /** Growing the items and copying the columns of `data` into them; when
      `setData` throws the items stay as they were. */
  function Fill(fields: set<string>, rows: seq<Row>, data: Value): (r: seq<Row>)
    requires Uniform(fields, rows)
    ensures Uniform(fields, r)
    ensures NeededItems(data).Failure? ==> r == rows
    ensures NeededItems(data).Success? ==> |r| == Max(|rows|, NeededItems(data).value)
  {
    match SetData(fields, rows, data)
    case Failure(_) => rows
    case Success(grown) =>
      assert Uniform(fields, grown) by {
        forall i | 0 <= i < |grown|
          ensures grown[i].Keys == fields
        {
          if i < |rows| {
            assert grown[i] == grown[..|rows|][i] == rows[i];
          }
        }
      }
      CopyColumns(fields, grown, Entries(data))
  }

  /** The map field's `setValue`: with a rule, the items are grown to its
      data and filled from it column by column; a rule or `setData` that
      throws leaves the items as they were. */
  function MapSetValue(spec: FieldSpec, inst: Instance, st: Stores, w: World, rows: seq<Row>): (r: seq<Row>)
    requires spec.kind.Map? && Uniform(SubfieldSet(spec.kind), rows)
    ensures |r| >= |rows|
    ensures spec.name !in RuleNames ==> r == rows
    ensures Rule(spec.name, inst, st, w).Some? && Rule(spec.name, inst, st, w).value.Success? ==>
              r == Fill(SubfieldSet(spec.kind), rows, MapData(Rule(spec.name, inst, st, w).value.value))
  {
    match Rule(spec.name, inst, st, w)
    case None => rows
    case Some(Failure(_)) => rows
    case Some(Success(d)) => Fill(SubfieldSet(spec.kind), rows, MapData(d))
  }

  /** The data a map field's rule hands to `setData`. Both map rules
      yield columns; a plain value is used as it is. */
  function MapData(d: Derived): Value {
    match d
    case Columns(m) => m
    case Direct(v) => v
    case Lookup(_) => Obj([])
  }

  /** Filling a map field from `{key, value}` columns: as many items as
      rows (at least the ones already there), item `i` holding row `i`. */
  lemma {:induction false} ColumnsFill(fields: set<string>, rows: seq<Row>, keys: seq<Value>, values: seq<Value>)
    requires "key" in fields && "value" in fields
    requires |keys| == |values|
    requires Uniform(fields, rows)
    ensures var r := CopyColumns(fields, rows, [Member("key", Arr(keys)), Member("value", Arr(values))]);
            forall i :: 0 <= i < |rows| ==>
              && r[i]["key"] == (if i < |keys| then keys[i] else Undefined)
              && r[i]["value"] == (if i < |values| then values[i] else Undefined)
  {
    var entries := [Member("key", Arr(keys)), Member("value", Arr(values))];
    var once := Column(rows, "key", Arr(keys));
    var twice := Column(once, "value", Arr(values));
    assert entries[1..] == [Member("value", Arr(values))];
    assert CopyColumns(fields, rows, entries) == CopyColumns(fields, once, entries[1..]);
    assert CopyColumns(fields, once, entries[1..]) == CopyColumns(fields, twice, entries[2..]);
    assert entries[2..] == [];
  }

  /** A map field whose rule yields columns is filled from them. */
  lemma RuleFills(spec: FieldSpec, inst: Instance, st: Stores, w: World, rows: seq<Row>, m: Value)
    requires spec.kind.Map? && Uniform(SubfieldSet(spec.kind), rows)
    requires Rule(spec.name, inst, st, w) == Some(Success(Columns(m)))
    ensures MapSetValue(spec, inst, st, w, rows) == Fill(SubfieldSet(spec.kind), rows, m)
  {
  }

  /** The rule behind the quality report names hands the map its
      columns. */
  lemma QualityReportRule(inst: Instance, st: Stores, w: World)
    ensures Rule("quality_report_name", inst, st, w) == Some(Success(Columns(QualityReportName(st.settings))))
  {
  }

  /** Filling a map field from the `projects` section: one item per
      project (never fewer than before), item `i` holding project key `i`
      and its report name. */
  lemma ProjectItems(fields: set<string>, settings: Doc, rows: seq<Row>)
    requires "key" in fields && "value" in fields
    requires Uniform(fields, rows)
    requires Has(settings, "projects")
    ensures var ks := Keys(settings, "projects");
            var r := Fill(fields, rows, QualityReportName(settings));
            && |r| == Max(|rows|, |ks|)
            && forall i :: 0 <= i < |ks| ==>
                 r[i]["key"] == Str(ks[i]) && r[i]["value"] == FromOption(Get(settings, "projects", ks[i]))
  {
    var ks := Keys(settings, "projects");
    var m := QualityReportName(settings);
    var keys := StrList(ks);
    var values := ProjectValues(settings, ks);
    assert m == ColumnsOf(Arr(keys), Arr(values));
    assert Entries(m) == [Member("key", Arr(keys)), Member("value", Arr(values))];
    assert NeededItems(m) == Success(|ks|);
    var grown := SetData(fields, rows, m).value;
    assert Fill(fields, rows, m) == CopyColumns(fields, grown, Entries(m));
    assert Uniform(fields, grown);
    ColumnsFill(fields, grown, keys, values);
  }

  /** The quality report map field after `setValue`: one item per
      project, item `i` holding project key `i` and its report name. */
  lemma QualityReportItems(spec: FieldSpec, inst: Instance, st: Stores, w: World, rows: seq<Row>)
    requires spec.name == "quality_report_name" && spec.kind.Map?
    requires "key" in spec.kind.subfields && "value" in spec.kind.subfields
    requires Uniform(SubfieldSet(spec.kind), rows)
    requires Has(st.settings, "projects")
    ensures var ks := Keys(st.settings, "projects");
            var r := MapSetValue(spec, inst, st, w, rows);
            && |r| == Max(|rows|, |ks|)
            && forall i :: 0 <= i < |ks| ==>
                 r[i]["key"] == Str(ks[i]) && r[i]["value"] == FromOption(Get(st.settings, "projects", ks[i]))
  {
    QualityReportRule(inst, st, w);
    RuleFills(spec, inst, st, w, rows, QualityReportName(st.settings));
    ProjectItems(SubfieldSet(spec.kind), st.settings, rows);
  }

  // ---------------------------------------------------------------------
  // The sentinel validator (lib/form.js:543-554)

  /** The validator run on a bound field: a submitted sentinel is
      replaced by the value re-derived against the bound data (which now
      tells the rules the submitted domain), or by `original_value` when
      re-derivation itself gives the sentinel. Any other data stays. */
  function Substitute(spec: FieldSpec, cloneIndex: nat, st: Stores, w: World, data: Data, b: Bound): (r: Data)
    ensures Field(data, spec.name) != Str(Existing) ==> r == data
    ensures Field(data, spec.name) == Str(Existing) ==>
              var again := SetValue(spec, Instance(cloneIndex, Some(data)), st, w, b.raw);
              r == data[spec.name := if again == Str(Existing) then b.original else again]
  {
    if Field(data, spec.name) != Str(Existing) then data
    else
      var again := SetValue(spec, Instance(cloneIndex, Some(data)), st, w, b.raw);
      data[spec.name := if again == Str(Existing) then b.original else again]
  }

  /** A submitted sentinel for a token that the submitted domain's
      section holds becomes that stored token: the secret is kept, not
      overwritten with the sentinel. */
  lemma TokenSentinelKeepsSecret(spec: FieldSpec, cloneIndex: nat, st: Stores, w: World, data: Data, b: Bound)
    requires spec.name == "version_control_token"
    requires Field(data, spec.name) == Str(Existing)
    requires Field(data, "version_control_domain").Str?
    requires var domain := Field(data, "version_control_domain").s;
             Has(st.credentials, domain) && Present(Get(st.credentials, domain, "password"))
    requires Get(st.credentials, Field(data, "version_control_domain").s, "password") != Some(Existing)
    ensures Field(Substitute(spec, cloneIndex, st, w, data, b), spec.name)
            == Str(Get(st.credentials, Field(data, "version_control_domain").s, "password").value)
  {
    var inst := Instance(cloneIndex, Some(data));
    var domain := Field(data, "version_control_domain").s;
    assert NamesSection(inst, st.credentials, Some("version_control_domain"));
    assert CredentialsSection(inst, st.credentials, Some("version_control_domain")) == Some(domain);
    assert Rule(spec.name, inst, st, w) == Some(Success(Lookup(Ref(CredentialsStore, Some(domain), "password"))));
  }

  /** A submitted sentinel for a token no section holds becomes `''`
      (unless the value before binding was itself the sentinel). */
  lemma TokenSentinelEmpty(spec: FieldSpec, cloneIndex: nat, st: Stores, w: World, data: Data, b: Bound)
    requires spec.name == "version_control_token"
    requires Field(data, spec.name) == Str(Existing)
    requires var sec := CredentialsSection(Instance(cloneIndex, Some(data)), st.credentials, Some("version_control_domain"));
             !Filled(st.credentials, sec, "password") && !Filled(st.credentials, sec, "github_token")
             && !Filled(st.credentials, sec, "gitlab_token")
    ensures Field(Substitute(spec, cloneIndex, st, w, data, b), spec.name) == Str("")
  {
    var inst := Instance(cloneIndex, Some(data));
    var sec := CredentialsSection(inst, st.credentials, Some("version_control_domain"));
    assert Rule(spec.name, inst, st, w) == Some(Success(Lookup(NoRef)));
  }

  /** A submitted sentinel for the deploy key stays the sentinel when the
      shared key file exists and the key field held the sentinel before
      binding, so no key is written over the stored one. */
  lemma KeySentinelKept(spec: FieldSpec, cloneIndex: nat, st: Stores, w: World, data: Data, b: Bound)
    requires spec.name == "version_control_key"
    requires Field(data, spec.name) == Str(Existing)
    requires PathJoin(w.opts.keyPath, "id_rsa") in w.files
    requires b.original == Str(Existing)
    ensures Field(Substitute(spec, cloneIndex, st, w, data, b), spec.name) == Str(Existing)
  {
    var inst := Instance(cloneIndex, Some(data));
    var sec := CredentialsSection(inst, st.credentials, Some("version_control_domain"));
    assert Rule(spec.name, inst, st, w) == Some(Success(Direct(VcsKey(w, sec))));
    assert HasValue(Str(Existing));
  }
}
