/** An INI document as the configuration engine sees it: an ordered list
    of sections, each an ordered list of option/value pairs. This stands
    for the `configparser` package, with the behaviour the program relies
    on: `addSection` appends, `removeSection` drops, `set` updates an
    option in place or appends it and does nothing on a missing section,
    `get` reads `undefined` for a missing section or option. */
module Store {
  import opened Wrappers

  datatype Item = Item(key: string, value: string)
  datatype Section = Section(name: string, items: seq<Item>)
  datatype Doc = Doc(sections: seq<Section>)

  const Empty: Doc := Doc([])

  function Names(ss: seq<Section>): (r: seq<string>)
    ensures |r| == |ss|
    ensures forall i :: 0 <= i < |ss| ==> r[i] == ss[i].name
  {
    if |ss| == 0 then [] else [ss[0].name] + Names(ss[1..])
  }

  function ItemKeys(items: seq<Item>): (r: seq<string>)
    ensures |r| == |items|
    ensures forall i :: 0 <= i < |items| ==> r[i] == items[i].key
  {
    if |items| == 0 then [] else [items[0].key] + ItemKeys(items[1..])
  }

  lemma ItemKeysAppend(a: seq<Item>, b: seq<Item>)
    ensures ItemKeys(a + b) == ItemKeys(a) + ItemKeys(b)
  {
  }

  /** Concatenation regroups freely. */
  lemma AppendAssoc<T>(a: seq<T>, b: seq<T>, c: seq<T>)
    ensures a + (b + c) == (a + b) + c
  {
  }

  /** `sections()`: section names in document order. */
  function Sections(d: Doc): seq<string> {
    Names(d.sections)
  }

  /** `hasSection(name)`. */
  predicate Has(d: Doc, name: string) {
    name in Sections(d)
  }

  /** The first section called `name`. */
  function Find(ss: seq<Section>, name: string): (r: Option<Section>)
    ensures r.Some? <==> name in Names(ss)
    ensures r.Some? ==> r.value in ss && r.value.name == name
  {
    if |ss| == 0 then None
    else if ss[0].name == name then Some(ss[0])
    else Find(ss[1..], name)
  }

  /** The first value stored under `key`. */
  function ValueOf(items: seq<Item>, key: string): (r: Option<string>)
    ensures r.Some? <==> key in ItemKeys(items)
  {
    if |items| == 0 then None
    else if items[0].key == key then Some(items[0].value)
    else ValueOf(items[1..], key)
  }

  /** `keys(name)`; the library throws on a missing section and every
      caller checks `hasSection` first. */
  function Keys(d: Doc, name: string): seq<string>
    requires Has(d, name)
  {
    ItemKeys(Find(d.sections, name).value.items)
  }

  /** `get(section, key)`; `undefined` when either is missing. */
  function Get(d: Doc, name: string, key: string): Option<string> {
    match Find(d.sections, name)
    case None => None
    case Some(s) => ValueOf(s.items, key)
  }

  /** Every section not called `name`, in order. */
  function Without(ss: seq<Section>, name: string): (r: seq<Section>)
    ensures name !in Names(r)
    ensures forall s :: s in r ==> s in ss
    ensures forall s :: s in ss && s.name != name ==> s in r
    ensures |r| <= |ss|
  {
    if |ss| == 0 then []
    else if ss[0].name == name then Without(ss[1..], name)
    else [ss[0]] + Without(ss[1..], name)
  }

  /** `removeSection(name)`. */
  function RemoveSection(d: Doc, name: string): (r: Doc)
    ensures !Has(r, name)
  {
    Doc(Without(d.sections, name))
  }

  /** `addSection(name)`: a new empty section at the end. The library
      refuses a duplicate name. */
  function AddSection(d: Doc, name: string): (r: Doc)
    requires !Has(d, name)
    ensures Sections(r) == Sections(d) + [name]
  {
    Doc(d.sections + [Section(name, [])])
  }

  /** `replaceSection` (lib/config.js:24-27): drop the section wherever it
      was and start it again, empty, at the end. */
  function ReplaceSection(d: Doc, name: string): (r: Doc)
    ensures r == Doc(Without(d.sections, name) + [Section(name, [])])
  {
    AddSection(RemoveSection(d, name), name)
  }

  /** Sets `key` in a section's options: in place when present, appended
      otherwise. */
  function Upsert(items: seq<Item>, key: string, value: string): (r: seq<Item>)
    ensures ValueOf(r, key) == Some(value)
    ensures key in ItemKeys(items) ==> ItemKeys(r) == ItemKeys(items)
    ensures key !in ItemKeys(items) ==> ItemKeys(r) == ItemKeys(items) + [key]
  {
    if |items| == 0 then [Item(key, value)]
    else if items[0].key == key then
      assert ([Item(key, value)] + items[1..])[1..] == items[1..];
      [Item(key, value)] + items[1..]
    else
      var rest := Upsert(items[1..], key, value);
      assert ([items[0]] + rest)[1..] == rest;
      AppendAssoc([items[0].key], ItemKeys(items[1..]), [key]);
      [items[0]] + rest
  }

  /** Setting one option leaves every other option as it was. */
  lemma UpsertOther(items: seq<Item>, key: string, value: string, k: string)
    requires k != key
    ensures ValueOf(Upsert(items, key, value), k) == ValueOf(items, k)
  {
    if |items| > 0 && items[0].key != key {
      UpsertOther(items[1..], key, value, k);
    }
  }

  function SetIn(ss: seq<Section>, name: string, key: string, value: string): (r: seq<Section>)
    ensures Names(r) == Names(ss)
  {
    if |ss| == 0 then []
    else if ss[0].name == name then [Section(name, Upsert(ss[0].items, key, value))] + ss[1..]
    else [ss[0]] + SetIn(ss[1..], name, key, value)
  }

  /** `set(section, key, value)`. */
  function Set(d: Doc, name: string, key: string, value: string): (r: Doc)
    ensures Sections(r) == Sections(d)
    ensures !Has(d, name) ==> r == d
  {
    if !Has(d, name) then d else Doc(SetIn(d.sections, name, key, value))
  }

  function RemoveKeyIn(ss: seq<Section>, name: string, key: string): (r: seq<Section>)
    ensures Names(r) == Names(ss)
  {
    if |ss| == 0 then []
    else if ss[0].name == name then [Section(name, DropKey(ss[0].items, key))] + ss[1..]
    else [ss[0]] + RemoveKeyIn(ss[1..], name, key)
  }

  function DropKey(items: seq<Item>, key: string): (r: seq<Item>)
    ensures ValueOf(r, key) == None
  {
    if |items| == 0 then []
    else if items[0].key == key then DropKey(items[1..], key)
    else [items[0]] + DropKey(items[1..], key)
  }

  /** `removeKey(section, key)`. */
  function RemoveKey(d: Doc, name: string, key: string): (r: Doc)
    ensures Sections(r) == Sections(d)
  {
    Doc(RemoveKeyIn(d.sections, name, key))
  }

  /** `sections().forEach(removeSection)`: drops the listed sections one
      by one. */
  function RemoveEach(d: Doc, names: seq<string>): (r: Doc)
    ensures forall n :: Has(r, n) <==> Has(d, n) && n !in names
    decreases |names|
  {
    if |names| == 0 then d else RemoveEach(RemoveSection(d, names[0]), names[1..])
  }

  /** Removing every section listed by `sections()` leaves an empty
      document, whatever it held. */
  lemma Cleared(d: Doc)
    ensures RemoveEach(d, Sections(d)) == Empty
  {
    var r := RemoveEach(d, Sections(d));
    if |r.sections| > 0 {
      assert Has(r, r.sections[0].name);
    }
  }

  // ---------------------------------------------------------------------
  // Section order

  /** `xs` without any occurrence of `x`, in order. */
  function Erase(xs: seq<string>, x: string): (r: seq<string>)
    ensures forall y :: y in r <==> y in xs && y != x
  {
    if |xs| == 0 then []
    else if xs[0] == x then Erase(xs[1..], x)
    else [xs[0]] + Erase(xs[1..], x)
  }

  /** The section order after each name of `names` in turn is removed and
      added again at the end, starting from `order`. */
  function Arrange(order: seq<string>, names: seq<string>): (r: seq<string>)
    ensures forall y :: y in r <==> y in order || y in names
    decreases |names|
  {
    if |names| == 0 then order else Arrange(Erase(order, names[0]) + [names[0]], names[1..])
  }

  /** One step of `Arrange`: the first name moves to the end. */
  lemma ArrangeCons(order: seq<string>, x: string, rest: seq<string>)
    ensures Arrange(order, [x] + rest) == Arrange(Erase(order, x) + [x], rest)
  {
    assert ([x] + rest)[0] == x && ([x] + rest)[1..] == rest;
  }

  predicate Distinct(xs: seq<string>) {
    forall i, j :: 0 <= i < j < |xs| ==> xs[i] != xs[j]
  }

  lemma {:induction false} EraseAbsent(xs: seq<string>, x: string)
    requires x !in xs
    ensures Erase(xs, x) == xs
  {
    if |xs| > 0 {
      EraseAbsent(xs[1..], x);
      assert [xs[0]] + xs[1..] == xs;
    }
  }

  /** Rewriting fresh, distinct sections one after another lists them in
      the order written, after the sections already there. */
  lemma {:induction false} ArrangeFresh(order: seq<string>, names: seq<string>)
    requires Distinct(names)
    requires forall i :: 0 <= i < |names| ==> names[i] !in order
    ensures Arrange(order, names) == order + names
    decreases |names|
  {
    if |names| > 0 {
      var x, rest := names[0], names[1..];
      assert names == [x] + rest;
      EraseAbsent(order, x);
      ArrangeCons(order, x, rest);
      forall i | 0 <= i < |rest|
        ensures rest[i] !in order + [x]
      {
        assert rest[i] == names[i + 1];
      }
      ArrangeFresh(order + [x], rest);
      AppendAssoc(order, [x], rest);
    }
  }

  lemma {:induction false} NamesWithout(ss: seq<Section>, name: string)
    ensures Names(Without(ss, name)) == Erase(Names(ss), name)
  {
    if |ss| > 0 {
      assert Names(ss)[1..] == Names(ss[1..]);
      NamesWithout(ss[1..], name);
      if ss[0].name != name {
        assert Names([ss[0]] + Without(ss[1..], name)) == [ss[0].name] + Names(Without(ss[1..], name));
      }
    }
  }

  // ---------------------------------------------------------------------
  // Reading back what was written

  lemma FindSetIn(ss: seq<Section>, name: string, key: string, value: string, m: string)
    ensures m != name ==> Find(SetIn(ss, name, key, value), m) == Find(ss, m)
    ensures name in Names(ss) ==>
              && Find(SetIn(ss, name, key, value), name).Some?
              && Find(SetIn(ss, name, key, value), name).value.items
                 == Upsert(Find(ss, name).value.items, key, value)
  {
    if |ss| > 0 && ss[0].name != name {
      assert Names(ss) == [ss[0].name] + Names(ss[1..]);
      FindSetIn(ss[1..], name, key, value, m);
    }
  }

  /** `get` after `set`: the written option reads back, and nothing else
      changes. */
  lemma GetSet(d: Doc, name: string, key: string, value: string, n: string, k: string)
    ensures Has(d, name) ==> Get(Set(d, name, key, value), name, key) == Some(value)
    ensures n != name || k != key ==> Get(Set(d, name, key, value), n, k) == Get(d, n, k)
  {
    if Has(d, name) {
      FindSetIn(d.sections, name, key, value, n);
      FindSetIn(d.sections, name, key, value, name);
      if n == name && k != key {
        UpsertOther(Find(d.sections, name).value.items, key, value, k);
      }
    }
  }

  lemma FindWithout(ss: seq<Section>, name: string, m: string)
    ensures m != name ==> Find(Without(ss, name), m) == Find(ss, m)
  {
    if |ss| > 0 {
      FindWithout(ss[1..], name, m);
    }
  }

  lemma FindAppend(pre: seq<Section>, s: Section, m: string)
    ensures m != s.name ==> Find(pre + [s], m) == Find(pre, m)
    ensures s.name !in Names(pre) ==> Find(pre + [s], s.name) == Some(s)
  {
    if |pre| > 0 {
      assert (pre + [s])[1..] == pre[1..] + [s];
      assert Names(pre) == [pre[0].name] + Names(pre[1..]);
      FindAppend(pre[1..], s, m);
    }
  }

  /** `removeSection`: the section is gone, every other section reads as
      before. */
  lemma GetRemoveSection(d: Doc, name: string, n: string, k: string)
    ensures Get(RemoveSection(d, name), name, k) == None
    ensures n != name ==> Get(RemoveSection(d, name), n, k) == Get(d, n, k)
  {
    FindWithout(d.sections, name, n);
  }

  /** Setting an option of the last section only touches that section. */
  lemma {:induction false} SetInLast(pre: seq<Section>, s: Section, key: string, value: string)
    requires s.name !in Names(pre)
    ensures SetIn(pre + [s], s.name, key, value) == pre + [Section(s.name, Upsert(s.items, key, value))]
  {
    if |pre| == 0 {
    } else {
      assert (pre + [s])[1..] == pre[1..] + [s];
      assert Names(pre) == [pre[0].name] + Names(pre[1..]);
      SetInLast(pre[1..], s, key, value);
    }
  }

  lemma DropKeyOther(items: seq<Item>, key: string, k: string)
    requires k != key
    ensures ValueOf(DropKey(items, key), k) == ValueOf(items, k)
  {
    if |items| > 0 {
      DropKeyOther(items[1..], key, k);
    }
  }

  lemma FindRemoveKeyIn(ss: seq<Section>, name: string, key: string, m: string)
    ensures m != name ==> Find(RemoveKeyIn(ss, name, key), m) == Find(ss, m)
    ensures name in Names(ss) ==>
              Find(RemoveKeyIn(ss, name, key), name) == Some(Section(name, DropKey(Find(ss, name).value.items, key)))
  {
    if |ss| > 0 && ss[0].name != name {
      assert Names(ss) == [ss[0].name] + Names(ss[1..]);
      FindRemoveKeyIn(ss[1..], name, key, m);
    }
  }

  /** `removeKey`: the option is gone, every other option reads as
      before. */
  lemma GetRemoveKey(d: Doc, name: string, key: string, n: string, k: string)
    ensures Get(RemoveKey(d, name, key), name, key) == None
    ensures n != name || k != key ==> Get(RemoveKey(d, name, key), n, k) == Get(d, n, k)
  {
    FindRemoveKeyIn(d.sections, name, key, n);
    FindRemoveKeyIn(d.sections, name, key, name);
    if Has(d, name) && n == name && k != key {
      DropKeyOther(Find(d.sections, name).value.items, key, k);
    }
  }
}
