/** Instance expansion in `create_forms` (lib/form.js:520-586): every
    group of the schema becomes one form instance, or, when cloneable, as
    many instances as the submission or the credentials store calls for. */
module Forms {
  import opened Wrappers
  import opened Js
  import opened Store
  import opened Derive
  import opened Fields

  /** One group of the form schema, with its fields in order. */
  datatype Group = Group(name: string, cloneable: bool, fields: seq<FieldSpec>)

  /** One form instance: its group, its id (the group name, or
      `<group>_<sequence>` for a cloneable group), its sequence number
      within the group and its `cloneIndex`. */
  datatype Form = Form(group: string, id: string, sequence: nat, cloneIndex: nat, cloneable: bool)

  /** The id of the `sequence`-th instance of a cloneable group. */
  function CloneId(group: string, sequence: nat): string {
    group + "_" + NatToString(sequence)
  }

  lemma CloneIdInjective(group: string, a: nat, b: nat)
    requires CloneId(group, a) == CloneId(group, b)
    ensures a == b
  {
    var n := |group| + 1;
    assert NatToString(a) == CloneId(group, a)[n..] == CloneId(group, b)[n..] == NatToString(b);
    NatToStringInjective(a, b);
  }

  /** `hasForm(formName, sequence, index)`: with a submission, whether it
      has a part for that instance; without one, whether the credentials
      section at `index` exists and is of the group's kind. A section
      without a `type` counts as a version-control source. */
  predicate HasForm(group: string, sequence: nat, index: nat, body: Option<seq<Member>>, creds: Doc, choices: set<string>) {
    if body.Some? then HasMember(body.value, CloneId(group, sequence))
    else if group == "version_control" then
      var sec := Positional(creds, index);
      Named(sec) && (GetIn(creds, sec, "type").None? || GetIn(creds, sec, "type").value in choices)
    else if group == "jenkins" then
      var sec := Positional(creds, index);
      Named(sec) && GetIn(creds, sec, "type") == Some("jenkins")
    else false
  }

  /** The members of the submission that name an instance of `group`
      from `sequence` on. */
  ghost function Pending(ms: seq<Member>, group: string, sequence: nat): set<nat> {
    set i: nat | i < |ms| && Claimed(ms[i].name, group, sequence)
  }

  ghost predicate Claimed(name: string, group: string, sequence: nat) {
    exists j: nat :: j >= sequence && name == CloneId(group, j)
  }

  /** Moving past an instance that the submission has drops its member
      from the pending ones. */
  lemma PendingShrinks(ms: seq<Member>, group: string, sequence: nat)
    requires HasMember(ms, CloneId(group, sequence))
    ensures |Pending(ms, group, sequence + 1)| < |Pending(ms, group, sequence)|
  {
    var i0 :| 0 <= i0 < |ms| && ms[i0].name == CloneId(group, sequence);
    var later, now := Pending(ms, group, sequence + 1), Pending(ms, group, sequence);
    assert i0 in now;
    assert i0 !in later by {
      if i0 in later {
        var j: nat :| j >= sequence + 1 && ms[i0].name == CloneId(group, j);
        CloneIdInjective(group, sequence, j);
      }
    }
    assert now == later + (now - later);
    assert i0 in now - later;
    assert |now - later| >= 1;
  }

  /** How many more instances the loop can emit at most. */
  ghost function Budget(group: string, sequence: nat, index: nat, body: Option<seq<Member>>, creds: Doc): nat {
    if body.Some? then |Pending(body.value, group, sequence + 1)|
    else if index <= |Sections(creds)| then |Sections(creds)| - index
    else 0
  }

  /** Each further instance uses up some of the budget. */
  lemma BudgetShrinks(group: string, sequence: nat, index: nat, body: Option<seq<Member>>, creds: Doc, choices: set<string>)
    requires HasForm(group, sequence + 1, index + 1, body, creds, choices)
    ensures Budget(group, sequence + 1, index + 1, body, creds) < Budget(group, sequence, index, body, creds)
  {
    if body.Some? {
      PendingShrinks(body.value, group, sequence + 1);
    }
  }

  /** Whether `hasForm` calls for the instance `k` places after the one
      at (`sequence`, `index`). */
  predicate Continues(group: string, sequence: nat, index: nat, k: nat, body: Option<seq<Member>>, creds: Doc, choices: set<string>) {
    HasForm(group, sequence + k, index + k, body, creds, choices)
  }

  lemma ContinuesShift(group: string, sequence: nat, index: nat, k: nat, body: Option<seq<Member>>, creds: Doc, choices: set<string>)
    ensures Continues(group, sequence + 1, index + 1, k, body, creds, choices) == Continues(group, sequence, index, k + 1, body, creds, choices)
  {
    assert sequence + 1 + k == sequence + (k + 1);
    assert index + 1 + k == index + (k + 1);
  }

  /** The instances of a cloneable group from `sequence` on: this one
      always, then the next while `hasForm` holds. */
  function Clones(group: string, sequence: nat, index: nat, body: Option<seq<Member>>, creds: Doc, choices: set<string>): (r: seq<Form>)
    ensures |r| >= 1
    ensures r[0] == Form(group, CloneId(group, sequence), sequence, index, true)
    decreases Budget(group, sequence, index, body, creds)
  {
    var here := Form(group, CloneId(group, sequence), sequence, index, true);
    if Continues(group, sequence, index, 1, body, creds, choices) then
      BudgetShrinks(group, sequence, index, body, creds, choices);
      [here] + Clones(group, sequence + 1, index + 1, body, creds, choices)
    else [here]
  }

  /** Instances numbered on consecutively from (`sequence`, `index`), in
      `sequence` and in `cloneIndex` alike. */
  predicate Numbered(r: seq<Form>, group: string, sequence: nat, index: nat) {
    forall k :: 0 <= k < |r| ==> r[k] == Form(group, CloneId(group, sequence + k), sequence + k, index + k, true)
  }

  /** One instance in front of instances numbered on from the next one. */
  lemma NumberedCons(r: seq<Form>, tail: seq<Form>, group: string, sequence: nat, index: nat)
    requires r == [Form(group, CloneId(group, sequence), sequence, index, true)] + tail
    requires Numbered(tail, group, sequence + 1, index + 1)
    ensures Numbered(r, group, sequence, index)
  {
    forall k | 1 <= k < |r|
      ensures r[k] == Form(group, CloneId(group, sequence + k), sequence + k, index + k, true)
    {
      var j := k - 1;
      assert r[k] == tail[j];
      assert sequence + 1 + j == sequence + k && index + 1 + j == index + k;
    }
  }

  /** The instances from one that `hasForm` continues: this one, then the
      rest from the next. */
  lemma ClonesCons(group: string, sequence: nat, index: nat, body: Option<seq<Member>>, creds: Doc, choices: set<string>)
    requires Continues(group, sequence, index, 1, body, creds, choices)
    ensures Clones(group, sequence, index, body, creds, choices)
            == [Form(group, CloneId(group, sequence), sequence, index, true)] + Clones(group, sequence + 1, index + 1, body, creds, choices)
  {
  }

  /** The instances from one that `hasForm` does not continue: just it. */
  lemma ClonesLast(group: string, sequence: nat, index: nat, body: Option<seq<Member>>, creds: Doc, choices: set<string>)
    requires !Continues(group, sequence, index, 1, body, creds, choices)
    ensures Clones(group, sequence, index, body, creds, choices) == [Form(group, CloneId(group, sequence), sequence, index, true)]
  {
  }

  lemma {:induction false} ClonesNumbered(group: string, sequence: nat, index: nat, body: Option<seq<Member>>, creds: Doc, choices: set<string>)
    ensures Numbered(Clones(group, sequence, index, body, creds, choices), group, sequence, index)
    decreases Budget(group, sequence, index, body, creds)
  {
    if Continues(group, sequence, index, 1, body, creds, choices) {
      BudgetShrinks(group, sequence, index, body, creds, choices);
      ClonesNumbered(group, sequence + 1, index + 1, body, creds, choices);
      ClonesCons(group, sequence, index, body, creds, choices);
      NumberedCons(Clones(group, sequence, index, body, creds, choices), Clones(group, sequence + 1, index + 1, body, creds, choices),
                   group, sequence, index);
    } else {
      ClonesLast(group, sequence, index, body, creds, choices);
    }
  }

  /** `n` instances are exactly what `hasForm` calls for: each one after
      the first, and not the one after the last. */
  predicate CalledFor(n: nat, group: string, sequence: nat, index: nat, body: Option<seq<Member>>, creds: Doc, choices: set<string>) {
    && (forall k :: 1 <= k < n ==> Continues(group, sequence, index, k, body, creds, choices))
    && !Continues(group, sequence, index, n, body, creds, choices)
  }

  /** A stop position read one place further on, for any continuation
      test: if the test holds at 1 and `next` is `more` shifted by one,
      `next` stopping after `n` means `more` stops after `n + 1`. */
  lemma ShiftStop(n: nat, more: nat -> bool, next: nat -> bool)
    requires more(1)
    requires forall k: nat :: next(k) == more(k + 1)
    requires forall k: nat :: 1 <= k < n ==> next(k)
    requires !next(n)
    ensures forall k: nat :: 1 <= k < n + 1 ==> more(k)
    ensures !more(n + 1)
  {
    forall k: nat | 2 <= k < n + 1
      ensures more(k)
    {
      assert next(k - 1);
    }
  }

  /** One more instance in front extends what `hasForm` called for. */
  lemma CalledForStep(n: nat, group: string, sequence: nat, index: nat, body: Option<seq<Member>>, creds: Doc, choices: set<string>)
    requires Continues(group, sequence, index, 1, body, creds, choices)
    requires CalledFor(n, group, sequence + 1, index + 1, body, creds, choices)
    ensures CalledFor(n + 1, group, sequence, index, body, creds, choices)
  {
    var more := (k: nat) => Continues(group, sequence, index, k, body, creds, choices);
    var next := (k: nat) => Continues(group, sequence + 1, index + 1, k, body, creds, choices);
    forall k: nat
      ensures next(k) == more(k + 1)
    {
      ContinuesShift(group, sequence, index, k, body, creds, choices);
    }
    ShiftStop(n, more, next);
    forall k | 1 <= k < n + 1
      ensures Continues(group, sequence, index, k, body, creds, choices)
    {
      assert more(k);
    }
    assert !more(n + 1);
  }

  /** Where the loop stops is determined by `hasForm` alone. */
  lemma CalledForUnique(m: nat, n: nat, group: string, sequence: nat, index: nat, body: Option<seq<Member>>, creds: Doc, choices: set<string>)
    requires m >= 1 && n >= 1
    requires CalledFor(m, group, sequence, index, body, creds, choices)
    requires CalledFor(n, group, sequence, index, body, creds, choices)
    ensures m == n
  {
  }

  /** The stop position carries over from the next instance's clones to
      this one's. */
  lemma ClonesCalledForCons(group: string, sequence: nat, index: nat, body: Option<seq<Member>>, creds: Doc, choices: set<string>)
    requires Continues(group, sequence, index, 1, body, creds, choices)
    requires CalledFor(|Clones(group, sequence + 1, index + 1, body, creds, choices)|, group, sequence + 1, index + 1, body, creds, choices)
    ensures CalledFor(|Clones(group, sequence, index, body, creds, choices)|, group, sequence, index, body, creds, choices)
  {
    var tail := Clones(group, sequence + 1, index + 1, body, creds, choices);
    ClonesCons(group, sequence, index, body, creds, choices);
    assert |Clones(group, sequence, index, body, creds, choices)| == |tail| + 1;
    CalledForStep(|tail|, group, sequence, index, body, creds, choices);
  }

  lemma {:induction false} ClonesCalledFor(group: string, sequence: nat, index: nat, body: Option<seq<Member>>, creds: Doc, choices: set<string>)
    ensures CalledFor(|Clones(group, sequence, index, body, creds, choices)|, group, sequence, index, body, creds, choices)
    decreases Budget(group, sequence, index, body, creds)
  {
    if Continues(group, sequence, index, 1, body, creds, choices) {
      BudgetShrinks(group, sequence, index, body, creds, choices);
      ClonesCalledFor(group, sequence + 1, index + 1, body, creds, choices);
      ClonesCalledForCons(group, sequence, index, body, creds, choices);
    } else {
      ClonesLast(group, sequence, index, body, creds, choices);
    }
  }

  /** The instances of the groups from `index` on: one per plain group
      (sequence 1, `cloneIndex` 1), the clones of each cloneable group
      numbered on from where the previous cloneable group stopped. */
  function Expand(groups: seq<Group>, index: nat, body: Option<seq<Member>>, creds: Doc, choices: set<string>): (r: seq<Form>)
    ensures |r| >= |groups|
    decreases |groups|
  {
    if |groups| == 0 then []
    else
      var g := groups[0];
      if !g.cloneable then [Form(g.name, g.name, 1, 1, false)] + Expand(groups[1..], index, body, creds, choices)
      else
        var cs := Clones(g.name, 1, index, body, creds, choices);
        cs + Expand(groups[1..], index + |cs|, body, creds, choices)
  }

  /** `create_forms(body, settings, credentials)`: the instances of every
      group of the schema, `cloneIndex` starting at 1. */
  function CreateForms(groups: seq<Group>, body: Option<seq<Member>>, creds: Doc, choices: set<string>): (r: seq<Form>)
    ensures |r| >= |groups|
  {
    Expand(groups, 1, body, creds, choices)
  }

  /** The cloneable instances in order. */
  function CloneableOf(fs: seq<Form>): (r: seq<Form>)
    ensures forall f :: f in r ==> f in fs && f.cloneable
  {
    if |fs| == 0 then []
    else (if fs[0].cloneable then [fs[0]] else []) + CloneableOf(fs[1..])
  }

  lemma {:induction false} CloneableOfAppend(a: seq<Form>, b: seq<Form>)
    ensures CloneableOf(a + b) == CloneableOf(a) + CloneableOf(b)
    decreases |a|
  {
    if |a| == 0 {
      assert a + b == b;
    } else {
      assert (a + b)[1..] == a[1..] + b;
      CloneableOfAppend(a[1..], b);
    }
  }

  lemma {:induction false} ClonesCloneable(cs: seq<Form>)
    requires forall k :: 0 <= k < |cs| ==> cs[k].cloneable
    ensures CloneableOf(cs) == cs
    decreases |cs|
  {
    if |cs| > 0 {
      ClonesCloneable(cs[1..]);
    }
  }

  /** Instances whose `cloneIndex` counts up from `index`. */
  predicate IndexedFrom(fs: seq<Form>, index: nat) {
    forall k :: 0 <= k < |fs| ==> fs[k].cloneIndex == index + k
  }

  lemma IndexedAppend(a: seq<Form>, b: seq<Form>, index: nat)
    requires IndexedFrom(a, index) && IndexedFrom(b, index + |a|)
    ensures IndexedFrom(a + b, index)
  {
    forall k | |a| <= k < |a + b|
      ensures (a + b)[k].cloneIndex == index + k
    {
      assert (a + b)[k] == b[k - |a|];
    }
  }

  lemma NumberedIndexed(r: seq<Form>, group: string, sequence: nat, index: nat)
    requires Numbered(r, group, sequence, index)
    ensures IndexedFrom(r, index)
    ensures forall k :: 0 <= k < |r| ==> r[k].cloneable
  {
    forall k | 0 <= k < |r|
      ensures r[k].cloneIndex == index + k && r[k].cloneable
    {
      assert r[k] == Form(group, CloneId(group, sequence + k), sequence + k, index + k, true);
    }
  }

  /** `cloneIndex` is shared by all cloneable groups: taken in order, the
      cloneable instances are numbered consecutively from the start
      index, whichever group they belong to. */
  lemma {:induction false} CloneIndexConsecutive(groups: seq<Group>, index: nat, body: Option<seq<Member>>, creds: Doc, choices: set<string>)
    ensures IndexedFrom(CloneableOf(Expand(groups, index, body, creds, choices)), index)
    decreases |groups|
  {
    if |groups| > 0 {
      var g := groups[0];
      if !g.cloneable {
        var rest := Expand(groups[1..], index, body, creds, choices);
        var one := [Form(g.name, g.name, 1, 1, false)];
        assert Expand(groups, index, body, creds, choices) == one + rest;
        CloneableOfAppend(one, rest);
        assert CloneableOf(one) == [];
        assert CloneableOf(one + rest) == CloneableOf(rest);
        CloneIndexConsecutive(groups[1..], index, body, creds, choices);
      } else {
        var cs := Clones(g.name, 1, index, body, creds, choices);
        var next := index + |cs|;
        var after := Expand(groups[1..], next, body, creds, choices);
        CloneIndexConsecutive(groups[1..], next, body, creds, choices);
        assert IndexedFrom(CloneableOf(after), next);
        assert Expand(groups, index, body, creds, choices) == cs + after;
        CloneableOfAppend(cs, after);
        ClonesNumbered(g.name, 1, index, body, creds, choices);
        NumberedIndexed(cs, g.name, 1, index);
        ClonesCloneable(cs);
        IndexedAppend(cs, CloneableOf(after), index);
      }
    }
  }

  /** A plain group yields exactly one instance, with the group's name as
      its id and sequence 1. */
  lemma PlainGroupOnce(g: Group, rest: seq<Group>, index: nat, body: Option<seq<Member>>, creds: Doc, choices: set<string>)
    requires !g.cloneable
    ensures var r := Expand([g] + rest, index, body, creds, choices);
            r[0] == Form(g.name, g.name, 1, 1, false)
            && r[1..] == Expand(rest, index, body, creds, choices)
  {
    assert ([g] + rest)[1..] == rest;
  }

  /** A cloneable group always yields `<group>_1` and continues exactly
      while `hasForm` holds. */
  lemma CloneableGroup(g: Group, rest: seq<Group>, index: nat, body: Option<seq<Member>>, creds: Doc, choices: set<string>)
    requires g.cloneable
    ensures var cs := Clones(g.name, 1, index, body, creds, choices);
            var r := Expand([g] + rest, index, body, creds, choices);
            && r[..|cs|] == cs
            && r[0] == Form(g.name, CloneId(g.name, 1), 1, index, true)
            && r[|cs|..] == Expand(rest, index + |cs|, body, creds, choices)
  {
    var cs := Clones(g.name, 1, index, body, creds, choices);
    var after := Expand(rest, index + |cs|, body, creds, choices);
    ExpandCloneable(g, rest, index, body, creds, choices);
    assert (cs + after)[..|cs|] == cs;
    assert (cs + after)[|cs|..] == after;
  }

  /** A cloneable group contributes its clones ahead of the rest. */
  lemma ExpandCloneable(g: Group, rest: seq<Group>, index: nat, body: Option<seq<Member>>, creds: Doc, choices: set<string>)
    requires g.cloneable
    ensures var cs := Clones(g.name, 1, index, body, creds, choices);
            Expand([g] + rest, index, body, creds, choices) == cs + Expand(rest, index + |cs|, body, creds, choices)
  {
    var gs := [g] + rest;
    assert gs[0] == g && gs[1..] == rest;
  }

  /** With a submission, the instances of a cloneable group are exactly
      `<group>_1` and the consecutive `<group>_2`, `<group>_3`, ... that
      the submission has parts for. */
  lemma SubmittedCount(group: string, index: nat, ms: seq<Member>, creds: Doc, choices: set<string>, n: nat)
    requires n >= 1
    requires forall s :: 2 <= s <= n ==> HasMember(ms, CloneId(group, s))
    requires !HasMember(ms, CloneId(group, n + 1))
    ensures |Clones(group, 1, index, Some(ms), creds, choices)| == n
  {
    forall k | 1 <= k < n
      ensures Continues(group, 1, index, k, Some(ms), creds, choices)
    {
      assert HasMember(ms, CloneId(group, 1 + k));
    }
    assert !Continues(group, 1, index, n, Some(ms), creds, choices) by {
      assert 1 + n == n + 1;
    }
    ClonesCalledFor(group, 1, index, Some(ms), creds, choices);
    CalledForUnique(|Clones(group, 1, index, Some(ms), creds, choices)|, n, group, 1, index, Some(ms), creds, choices);
  }

  /** Without a submission, a cloneable group has one instance per
      consecutive credentials section of its kind, from its first
      `cloneIndex` on. */
  lemma StoredCount(group: string, index: nat, creds: Doc, choices: set<string>, n: nat)
    requires n >= 1
    requires forall k :: 1 <= k < n ==> Continues(group, 1, index, k, None, creds, choices)
    requires !Continues(group, 1, index, n, None, creds, choices)
    ensures |Clones(group, 1, index, None, creds, choices)| == n
  {
    ClonesCalledFor(group, 1, index, None, creds, choices);
    CalledForUnique(|Clones(group, 1, index, None, creds, choices)|, n, group, 1, index, None, creds, choices);
  }
}
