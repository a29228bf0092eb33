/** The `/edit` route (lib/routes/edit.js:20-83): every form instance is
    given its stored values, bound to its part of the submission and
    validated; only when every instance is valid are their data merged
    and handed to `update`. */
module Edit {
  import opened Wrappers
  import opened Js
  import opened Presence
  import opened Store
  import opened Writer
  import opened Derive
  import opened Fields
  import opened Forms
  import opened ConfigUpdate

  // ---------------------------------------------------------------------
  // The pass before binding (lib/routes/edit.js:25-32)

  /** What a string or host field holds after `setValue` on the unbound
      instance: this is the `original_value` its `bind` keeps. */
  function Displayed(spec: FieldSpec, cloneIndex: nat, st: Stores, w: World): (r: Value)
    requires !spec.kind.Map?
    ensures Origin(spec, Instance(cloneIndex, None), st, w).Success? ==> r == Str("") || HasValue(r)
    ensures Origin(spec, Instance(cloneIndex, None), st, w).Failure? ==> r == Undefined
  {
    SetValue(spec, Instance(cloneIndex, None), st, w, Undefined)
  }

  /** The items a map field holds after `setValue` on the unbound
      instance, starting from the single item a fresh map field has. */
  function DisplayedItems(spec: FieldSpec, cloneIndex: nat, st: Stores, w: World): (r: seq<Row>)
    requires spec.kind.Map?
    ensures |r| >= 1
    ensures Uniform(SubfieldSet(spec.kind), r)
  {
    MapSetValue(spec, Instance(cloneIndex, None), st, w, [FreshRow(SubfieldSet(spec.kind))])
  }

  // ---------------------------------------------------------------------
  // Binding (lib/form.js:88-91, 128-131, 140-159)

  /** `_.isArray(fieldData) ? fieldData[index] : fieldData`. */
  function Pick(column: Value, i: nat): (r: Value)
    ensures !column.Arr? ==> r == column
  {
    if column.Arr? then (if i < |column.elems| then column.elems[i] else Undefined) else column
  }

  /** The submitted column for one sub-field; nothing is submitted for a
      map field absent from the body. */
  function ColumnOf(data: Value, name: string): Value {
    if Nullish(data) then Undefined else Read(data, name)
  }

  /** The data of item `i` of a bound map field: each sub-field, in
      order, parsed from its column's `i`-th entry. */
  function ItemData(sub: seq<string>, data: Value, i: nat): (r: Value)
    ensures r.Obj? && |r.members| == |sub|
    ensures forall j :: 0 <= j < |sub| ==> r.members[j] == Member(sub[j], ParseText(Pick(ColumnOf(data, sub[j]), i)))
  {
    Obj(seq(|sub|, j requires 0 <= j < |sub| => Member(sub[j], ParseText(Pick(ColumnOf(data, sub[j]), i)))))
  }

  /** The map field's `bind`: `setData` first grows the items to what the
      submission asks for (never fewer than `setValue` left), then every
      item is bound. `setData` throws when the first column is `null` or
      `undefined`. */
  function MapBind(spec: FieldSpec, shown: nat, data: Value): (r: Result<Value>)
    requires spec.kind.Map?
    ensures r.Failure? <==> NeededItems(data).Failure?
    ensures r.Success? ==> r.value.Arr? && |r.value.elems| == Max(shown, NeededItems(data).value)
    ensures r.Success? ==> forall i :: 0 <= i < |r.value.elems| ==> r.value.elems[i] == ItemData(spec.kind.subfields, data, i)
  {
    var needed :- NeededItems(data);
    var n := Max(shown, needed);
    Success(Arr(seq(n, i requires 0 <= i < n => ItemData(spec.kind.subfields, data, i))))
  }

  /** Binding one field to its submitted value `raw`. A string or host
      field keeps what `setValue` left as its original value. */
  function BindField(spec: FieldSpec, cloneIndex: nat, st: Stores, w: World, raw: Value): (r: Result<Bound>)
    ensures !spec.kind.Map? ==> r == Success(Bind(w.parseHost, spec.kind, Displayed(spec, cloneIndex, st, w), raw))
    ensures spec.kind.Map? ==> (r.Failure? <==> NeededItems(raw).Failure?)
    ensures spec.kind.Map? && r.Success? ==>
              r.value.data == MapBind(spec, |DisplayedItems(spec, cloneIndex, st, w)|, raw).value
  {
    if !spec.kind.Map? then Success(Bind(w.parseHost, spec.kind, Displayed(spec, cloneIndex, st, w), raw))
    else
      var data :- MapBind(spec, |DisplayedItems(spec, cloneIndex, st, w)|, raw);
      Success(Bound(Undefined, raw, data))
  }

  /** Every field bound to its member of the instance's body, in order;
      the first map field whose `setData` throws ends the binding. */
  function BindAll(specs: seq<FieldSpec>, cloneIndex: nat, st: Stores, w: World, formBody: Value): (r: Result<seq<Bound>>)
    requires !Nullish(formBody)
    ensures r.Success? ==> |r.value| == |specs|
    ensures r.Success? ==> forall i :: 0 <= i < |specs| ==>
              BindField(specs[i], cloneIndex, st, w, Read(formBody, specs[i].name)) == Success(r.value[i])
    ensures r.Failure? ==> exists i :: 0 <= i < |specs| && BindField(specs[i], cloneIndex, st, w, Read(formBody, specs[i].name)).Failure?
    decreases |specs|
  {
    if |specs| == 0 then Success([])
    else
      var first := BindField(specs[0], cloneIndex, st, w, Read(formBody, specs[0].name));
      if first.Failure? then Failure(first.error)
      else
        var rest := BindAll(specs[1..], cloneIndex, st, w, formBody);
        if rest.Failure? then
          assert exists i :: 0 <= i < |specs| && BindField(specs[i], cloneIndex, st, w, Read(formBody, specs[i].name)).Failure? by {
            var j :| 0 <= j < |specs| - 1 && BindField(specs[1..][j], cloneIndex, st, w, Read(formBody, specs[1..][j].name)).Failure?;
            assert specs[1..][j] == specs[j + 1];
          }
          Failure(rest.error)
        else
          assert forall i :: 1 <= i < |specs| ==> specs[1..][i - 1] == specs[i];
          Success([first.value] + rest.value)
  }

  /** The bound form's `data`: each field's parsed data under its name. */
  function DataOf(specs: seq<FieldSpec>, bounds: seq<Bound>): (r: Data)
    requires |bounds| == |specs|
    ensures r.Keys == set i | 0 <= i < |specs| :: specs[i].name
    decreases |specs|
  {
    if |specs| == 0 then map[]
    else
      var n := |specs| - 1;
      var r := DataOf(specs[..n], bounds[..n])[specs[n].name := bounds[n].data];
      assert forall i :: 0 <= i < n ==> specs[..n][i] == specs[i];
      r
  }

  /** A field's data sits under its name unless a later field has the
      same name. */
  lemma {:induction false} DataOfAt(specs: seq<FieldSpec>, bounds: seq<Bound>, i: nat)
    requires |bounds| == |specs| && i < |specs|
    requires forall j :: i < j < |specs| ==> specs[j].name != specs[i].name
    ensures DataOf(specs, bounds)[specs[i].name] == bounds[i].data
    decreases |specs|
  {
    var n := |specs| - 1;
    if i < n {
      assert specs[..n][i] == specs[i] && bounds[..n][i] == bounds[i];
      assert forall j :: i < j < n ==> specs[..n][j] == specs[j];
      DataOfAt(specs[..n], bounds[..n], i);
    }
  }

  // ---------------------------------------------------------------------
  // Validation (lib/form.js:543-554)

  /** The sentinel validator run on every string and host field in order,
      each one seeing the data as the previous ones left it. */
  function Validate(specs: seq<FieldSpec>, bounds: seq<Bound>, cloneIndex: nat, st: Stores, w: World, data: Data): (r: Data)
    requires |bounds| == |specs|
    ensures r.Keys == data.Keys
    ensures forall k :: k in data && data[k] != Str(Existing) ==> r[k] == data[k]
    decreases |specs|
  {
    if |specs| == 0 then data
    else
      var next := if specs[0].kind.Map? then data else Substitute(specs[0], cloneIndex, st, w, data, bounds[0]);
      Validate(specs[1..], bounds[1..], cloneIndex, st, w, next)
  }

  // ---------------------------------------------------------------------
  // One instance (lib/routes/edit.js:35-45)

  /** What the forms library's `handle` reports for an instance. */
  datatype Handled = Valid(data: Data) | Other

  /** The part of the submission an instance is handled with: its own
      member `body[id]` for a clone, the whole body otherwise, and `null`
      on a GET. */
  function FormBody(f: Form, body: Option<seq<Member>>): (r: Value)
    ensures body.None? ==> r == Null
    ensures body.Some? && f.cloneable ==> r == Read(Obj(body.value), f.id)
    ensures body.Some? && !f.cloneable ==> r == Obj(body.value)
  {
    match body
    case None => Null
    case Some(ms) => if f.cloneable then Read(Obj(ms), f.id) else Obj(ms)
  }

  /** `handle(formBody, ...)`: an instance with nothing submitted goes to
      `other`; otherwise it is bound, validated, and goes to `success`
      with its data exactly when `valid` accepts it. A body that is
      neither an object nor an array cannot be handled and throws. */
  function Handle(f: Form, specs: seq<FieldSpec>, formBody: Value, st: Stores, w: World, valid: (Form, Data) -> bool): (r: Result<Handled>)
    ensures Nullish(formBody) || formBody == Obj([]) ==> r == Success(Other)
    ensures r.Success? && r.value.Valid? ==> valid(f, r.value.data)
    ensures r.Success? && r.value.Valid? ==> r.value.data.Keys == set i | 0 <= i < |specs| :: specs[i].name
  {
    if Nullish(formBody) || formBody == Obj([]) then Success(Other)
    else if !formBody.Obj? && !formBody.Arr? then Failure("Error: cannot handle type")
    else
      var bounds :- BindAll(specs, f.cloneIndex, st, w, formBody);
      var data := Validate(specs, bounds, f.cloneIndex, st, w, DataOf(specs, bounds));
      if valid(f, data) then Success(Valid(data)) else Success(Other)
  }

  /** The fields of the schema group an instance belongs to. */
  function GroupFields(groups: seq<Group>, name: string): (r: seq<FieldSpec>)
    ensures (forall i :: 0 <= i < |groups| ==> groups[i].name != name) ==> r == []
    ensures |groups| > 0 && groups[0].name == name ==> r == groups[0].fields
  {
    if |groups| == 0 then []
    else if groups[0].name == name then groups[0].fields
    else GroupFields(groups[1..], name)
  }

  /** Handling one instance of the schema. */
  function HandleForm(groups: seq<Group>, f: Form, body: Option<seq<Member>>, st: Stores, w: World, valid: (Form, Data) -> bool): Result<Handled> {
    Handle(f, GroupFields(groups, f.group), FormBody(f, body), st, w, valid)
  }

  /** The `async.reduce` over the instances, in order: the first instance
      that throws ends it. */
  function Outcomes(groups: seq<Group>, fs: seq<Form>, body: Option<seq<Member>>, st: Stores, w: World, valid: (Form, Data) -> bool): (r: Result<seq<Handled>>)
    ensures r.Success? ==> |r.value| == |fs|
    decreases |fs|
  {
    if |fs| == 0 then Success([])
    else
      var n := |fs| - 1;
      var before :- Outcomes(groups, fs[..n], body, st, w, valid);
      var last :- HandleForm(groups, fs[n], body, st, w, valid);
      assert forall i :: 0 <= i < n ==> fs[..n][i] == fs[i];
      Success(before + [last])
  }

  predicate AllValid(hs: seq<Handled>) {
    forall i :: 0 <= i < |hs| ==> hs[i].Valid?
  }

  /** The data of the valid instances, in order. */
  function DataList(hs: seq<Handled>): (r: seq<Data>)
    requires AllValid(hs)
    ensures |r| == |hs|
    ensures forall i :: 0 <= i < |hs| ==> r[i] == hs[i].data
  {
    seq(|hs|, i requires 0 <= i < |hs| => hs[i].data)
  }

  // ---------------------------------------------------------------------
  // The merge (lib/routes/edit.js:49-59)

  /** The `mergeWith` customiser for one key: a first value is taken as
      it is, a list is extended with `[].concat`, and a plain value is
      paired with the new one. `null` and plain objects have no `concat`
      and throw. */
  function Combine(obj: Value, src: Value): (r: Result<Value>)
    ensures obj == Undefined ==> r == Success(src)
    ensures obj.Arr? ==> r == Success(Arr(obj.elems + Concat(src)))
    ensures obj.Str? || obj.Bool? ==> r == Success(Arr([obj, src]))
    ensures r.Failure? <==> obj.Null? || obj.Obj?
  {
    match obj
    case Undefined => Success(src)
    case Arr(es) => Success(Arr(es + Concat(src)))
    case Null => Failure("TypeError: cannot read property 'concat' of null")
    case Obj(_) => Failure("TypeError: obj.concat is not a function")
    case _ => Success(Arr([obj, src]))
  }

  predicate MergeFails(acc: Data, src: Data) {
    exists k :: k in src && Combine(Field(acc, k), src[k]).Failure?
  }

  /** `_.mergeWith(acc, src, customiser)`: every key of `src` combined
      into `acc`; the other keys of `acc` stay. */
  function MergeInto(acc: Data, src: Data): (r: Result<Data>)
    ensures r.Failure? <==> MergeFails(acc, src)
    ensures r.Success? ==> r.value.Keys == acc.Keys + src.Keys
    ensures r.Success? ==> forall k :: k in src ==> Combine(Field(acc, k), src[k]) == Success(r.value[k])
    ensures r.Success? ==> forall k :: k in acc && k !in src ==> r.value[k] == acc[k]
  {
    if MergeFails(acc, src) then Failure("TypeError: concat")
    else Success(map k | k in acc.Keys + src.Keys :: if k in src then Combine(Field(acc, k), src[k]).value else acc[k])
  }

  /** The reduction of the valid instances' data with `mergeWith`,
      starting from `acc`. */
  function MergeAll(acc: Data, ds: seq<Data>): (r: Result<Data>)
    decreases |ds|
  {
    if |ds| == 0 then Success(acc)
    else
      var next :- MergeInto(acc, ds[0]);
      MergeAll(next, ds[1..])
  }

  /** The values the instances contribute to one key, in order. */
  function Contribs(ds: seq<Data>, k: string): (r: seq<Value>)
    ensures |r| <= |ds|
    decreases |ds|
  {
    if |ds| == 0 then []
    else (if k in ds[0] then [ds[0][k]] else []) + Contribs(ds[1..], k)
  }

  /** The customiser applied to one key's contributions in order. */
  function Fold(acc: Value, vs: seq<Value>): Result<Value>
    decreases |vs|
  {
    if |vs| == 0 then Success(acc)
    else
      var next :- Combine(acc, vs[0]);
      Fold(next, vs[1..])
  }

  /** One merge step, seen from a single key. */
  lemma FoldStep(acc: Data, d: Data, next: Data, ds: seq<Data>, k: string)
    requires MergeInto(acc, d) == Success(next)
    ensures Fold(Field(acc, k), Contribs([d] + ds, k)) == Fold(Field(next, k), Contribs(ds, k))
  {
    assert ([d] + ds)[1..] == ds;
    if k in d {
      assert Contribs([d] + ds, k) == [d[k]] + Contribs(ds, k);
      assert ([d[k]] + Contribs(ds, k))[1..] == Contribs(ds, k);
    } else {
      assert Contribs([d] + ds, k) == Contribs(ds, k);
    }
  }

  /** One failing merge step: the key it fails on fails alone too. */
  lemma FoldFails(acc: Data, d: Data, ds: seq<Data>, k: string)
    requires k in d && Combine(Field(acc, k), d[k]).Failure?
    ensures Fold(Field(acc, k), Contribs([d] + ds, k)).Failure?
  {
    assert ([d] + ds)[1..] == ds;
    assert Contribs([d] + ds, k) == [d[k]] + Contribs(ds, k);
  }

  /** The merge works key by key: it succeeds exactly when every key's
      contributions combine, and each key then holds their combination. */
  lemma {:induction false} MergePerKey(acc: Data, ds: seq<Data>)
    ensures MergeAll(acc, ds).Success? <==> forall k :: Fold(Field(acc, k), Contribs(ds, k)).Success?
    ensures MergeAll(acc, ds).Success? ==>
              forall k :: Field(MergeAll(acc, ds).value, k) == Fold(Field(acc, k), Contribs(ds, k)).value
    decreases |ds|
  {
    if |ds| == 0 {
    } else {
      var d, rest := ds[0], ds[1..];
      assert ds == [d] + rest;
      match MergeInto(acc, d)
      case Failure(_) =>
        var k :| k in d && Combine(Field(acc, k), d[k]).Failure?;
        FoldFails(acc, d, rest, k);
      case Success(next) =>
        MergePerKey(next, rest);
        forall k
          ensures Fold(Field(acc, k), Contribs(ds, k)) == Fold(Field(next, k), Contribs(rest, k))
        {
          FoldStep(acc, d, next, rest, k);
        }
    }
  }

  /** A value that `mergeWith` pairs up rather than extends. */
  predicate Scalar(v: Value) {
    v.Str? || v.Bool?
  }

  lemma {:induction false} FoldScalarsFromList(prefix: seq<Value>, vs: seq<Value>)
    requires forall i :: 0 <= i < |vs| ==> Scalar(vs[i])
    ensures Fold(Arr(prefix), vs) == Success(Arr(prefix + vs))
    decreases |vs|
  {
    if |vs| == 0 {
      assert prefix + vs == prefix;
    } else {
      assert Combine(Arr(prefix), vs[0]) == Success(Arr(prefix + [vs[0]]));
      FoldScalarsFromList(prefix + [vs[0]], vs[1..]);
      assert prefix + [vs[0]] + vs[1..] == prefix + vs;
    }
  }

  /** Plain values from several instances become the list of them, in
      instance order; a value from a single instance stays as it is. */
  lemma MergeScalars(vs: seq<Value>)
    requires |vs| >= 1
    requires forall i :: 0 <= i < |vs| ==> Scalar(vs[i])
    ensures Fold(Undefined, vs) == Success(if |vs| == 1 then vs[0] else Arr(vs))
  {
    if |vs| >= 2 {
      assert Combine(vs[0], vs[1]) == Success(Arr([vs[0], vs[1]]));
      FoldScalarsFromList([vs[0], vs[1]], vs[2..]);
      assert [vs[0], vs[1]] + vs[2..] == vs;
    }
  }

  /** Whatever the number of instances, `[].concat(merged)[i]` is the
      value the `i`-th contributing instance submitted. */
  lemma MergedPositions(vs: seq<Value>)
    requires |vs| >= 1
    requires forall i :: 0 <= i < |vs| ==> Scalar(vs[i])
    ensures Fold(Undefined, vs).Success?
    ensures |Concat(Fold(Undefined, vs).value)| == |vs|
    ensures forall i :: 0 <= i < |vs| ==> At(Fold(Undefined, vs).value, i) == vs[i]
  {
    MergeScalars(vs);
  }

  /** The elements of a sequence of lists, concatenated. */
  function Flatten(vs: seq<Value>): seq<Value>
    requires forall i :: 0 <= i < |vs| ==> vs[i].Arr?
    decreases |vs|
  {
    if |vs| == 0 then [] else vs[0].elems + Flatten(vs[1..])
  }

  lemma {:induction false} FoldListsFrom(prefix: seq<Value>, vs: seq<Value>)
    requires forall i :: 0 <= i < |vs| ==> vs[i].Arr?
    ensures Fold(Arr(prefix), vs) == Success(Arr(prefix + Flatten(vs)))
    decreases |vs|
  {
    if |vs| == 0 {
      assert prefix + [] == prefix;
    } else {
      FoldListsFrom(prefix + vs[0].elems, vs[1..]);
      assert prefix + vs[0].elems + Flatten(vs[1..]) == prefix + Flatten(vs);
    }
  }

  /** Lists from several instances (the items of a map field) are
      concatenated, not kept apart: which instance an item came from is
      lost. */
  lemma MergeFlattens(vs: seq<Value>)
    requires |vs| >= 1
    requires forall i :: 0 <= i < |vs| ==> vs[i].Arr?
    ensures Fold(Undefined, vs) == Success(Arr(Flatten(vs)))
  {
    FoldListsFrom(vs[0].elems, vs[1..]);
    assert vs[0].elems + Flatten(vs[1..]) == Flatten(vs);
  }

  /** A single valid instance is merged into exactly its own data. */
  lemma MergeSingle(d: Data)
    ensures MergeAll(map[], [d]) == Success(d)
  {
    var r := MergeInto(map[], d);
    assert !MergeFails(map[], d);
    assert r.value == d;
  }

  // ---------------------------------------------------------------------
  // The route (lib/routes/edit.js:20-83)

  /** What the route ends with: the merged data handed to `update` (whose
      own outcome may still be a thrown error), the form shown again, or
      an error thrown before `update`. */
  datatype Page = Submitted(data: Data, outcome: Result<Updated>) | Reshown(forms: seq<Form>) | Crashed(error: string)

  /** `handleBody(body)`: builds the instances, handles each in order,
      and calls `update` only when every one of them succeeded. */
  method HandleBody(opts: Options, groups: seq<Group>, body: Option<seq<Member>>, st: Stores, w: World,
                    choices: set<string>, valid: (Form, Data) -> bool) returns (p: Page)
    ensures var hs := Outcomes(groups, CreateForms(groups, body, st.credentials, choices), body, st, w, valid);
            && (hs.Failure? ==> p == Crashed(hs.error))
            && (hs.Success? && !AllValid(hs.value) ==> p == Reshown(CreateForms(groups, body, st.credentials, choices)))
            && (hs.Success? && AllValid(hs.value) ==>
                  match MergeAll(map[], DataList(hs.value))
                  case Failure(e) => p == Crashed(e)
                  case Success(d) => p.Submitted? && p.data == d
                                     && (p.outcome.Failure? <==> ProjectsRejected(Field(d, "quality_report_name")))
                                     && UpdateOutcome(opts, st.settings, st.credentials, d, p.outcome))
  {
    var fs := CreateForms(groups, body, st.credentials, choices);
    var hs := HandleAll(groups, fs, body, st, w, valid);
    if hs.Failure? {
      return Crashed(hs.error);
    }
    if !AllValid(hs.value) {
      return Reshown(fs);
    }
    p := Submit(opts, st, hs.value);
  }

  /** The reduction over the instances as a loop: each instance is
      handled in order and the first one that throws ends it. */
  method HandleAll(groups: seq<Group>, fs: seq<Form>, body: Option<seq<Member>>, st: Stores, w: World,
                   valid: (Form, Data) -> bool) returns (r: Result<seq<Handled>>)
    ensures r == Outcomes(groups, fs, body, st, w, valid)
  {
    var hs: seq<Handled> := [];
    var i := 0;
    while i < |fs|
      invariant 0 <= i <= |fs|
      invariant Outcomes(groups, fs[..i], body, st, w, valid) == Success(hs)
    {
      var h := HandleForm(groups, fs[i], body, st, w, valid);
      assert fs[..i + 1][..i] == fs[..i];
      if h.Failure? {
        OutcomesFailFrom(groups, fs, i, body, st, w, valid);
        return Failure(h.error);
      }
      hs := hs + [h.value];
      i := i + 1;
    }
    assert fs[..|fs|] == fs;
    return Success(hs);
  }

  /** The success callback: the valid instances' data merged and handed
      to `update`. */
  method Submit(opts: Options, st: Stores, hs: seq<Handled>) returns (p: Page)
    requires AllValid(hs)
    ensures match MergeAll(map[], DataList(hs))
            case Failure(e) => p == Crashed(e)
            case Success(d) => p.Submitted? && p.data == d
                               && (p.outcome.Failure? <==> ProjectsRejected(Field(d, "quality_report_name")))
                               && UpdateOutcome(opts, st.settings, st.credentials, d, p.outcome)
  {
    var merged := MergeAll(map[], DataList(hs));
    if merged.Failure? {
      return Crashed(merged.error);
    }
    var outcome := Update(opts, st.settings, st.credentials, merged.value);
    return Submitted(merged.value, outcome);
  }

  /** An instance that throws ends the reduction with its own error,
      given that every earlier instance was handled. */
  lemma {:induction false} OutcomesFailFrom(groups: seq<Group>, fs: seq<Form>, i: nat, body: Option<seq<Member>>, st: Stores, w: World, valid: (Form, Data) -> bool)
    requires i < |fs|
    requires Outcomes(groups, fs[..i], body, st, w, valid).Success?
    requires HandleForm(groups, fs[i], body, st, w, valid).Failure?
    ensures Outcomes(groups, fs, body, st, w, valid) == Failure(HandleForm(groups, fs[i], body, st, w, valid).error)
    decreases |fs| - i
  {
    assert fs[..i + 1][..i] == fs[..i];
    if i + 1 == |fs| {
      assert fs[..i + 1] == fs;
    } else {
      OutcomesFailPrefix(groups, fs, i + 1, body, st, w, valid);
    }
  }

  /** Once a prefix of the instances has thrown, the whole reduction
      fails the same way. */
  lemma {:induction false} OutcomesFailPrefix(groups: seq<Group>, fs: seq<Form>, j: nat, body: Option<seq<Member>>, st: Stores, w: World, valid: (Form, Data) -> bool)
    requires j <= |fs|
    requires Outcomes(groups, fs[..j], body, st, w, valid).Failure?
    ensures Outcomes(groups, fs, body, st, w, valid) == Outcomes(groups, fs[..j], body, st, w, valid)
    decreases |fs| - j
  {
    if j == |fs| {
      assert fs[..j] == fs;
    } else {
      assert fs[..j + 1][..j] == fs[..j];
      OutcomesFailPrefix(groups, fs, j + 1, body, st, w, valid);
    }
  }
}
