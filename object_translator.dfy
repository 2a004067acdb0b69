/**
 * `translateObjectArray` and `translateObject` of src/utils/translationHelpers.ts:
 * collect the non-blank strings found at the requested fields of every record
 * (one level into arrays), translate them in one batch, and write each
 * translation back where its text was found in a copy of the records.
 *
 * Records are values, so the deep copy the source makes before writing back
 * is implicit: the input sequence is never changed.
 */
module ObjectTranslator {
  import opened Common
  import opened Text
  import opened JsonPath
  import opened LibreTranslate

  // ---------------------------------------------------------------------
  // Where a text was found
  // ---------------------------------------------------------------------

  /** A dotted field path, or one element of the array found at a dotted field path. */
  datatype Address = Field(path: string) | Index(path: string, index: nat)

  /** The location an address denotes inside a record. */
  function AddrLoc(a: Address): (loc: Loc)
    ensures |loc| >= 1
    ensures loc[|loc| - 1].Pos? <==> a.Index?
  {
    match a
    case Field(p) => KeyLocAt(Split(p, '.'), |Split(p, '.')| - 1); KeyLoc(Split(p, '.'))
    case Index(p, i) => KeyLoc(Split(p, '.')) + [Pos(i)]
  }

  lemma {:induction false} KeyLocInjective(x: seq<string>, y: seq<string>)
    requires KeyLoc(x) == KeyLoc(y)
    ensures x == y
  {
    assert |x| == |y|;
    forall i | 0 <= i < |x| ensures x[i] == y[i] {
      KeyLocAt(x, i);
      KeyLocAt(y, i);
    }
  }

  /** Different addresses denote different locations. */
  lemma {:induction false} AddrLocInjective(a: Address, b: Address)
    requires AddrLoc(a) == AddrLoc(b)
    ensures a == b
  {
    var loc := AddrLoc(a);
    assert a.Index? == b.Index?;
    if a.Field? {
      KeyLocInjective(Split(a.path, '.'), Split(b.path, '.'));
      SplitInjective(a.path, b.path, '.');
    } else {
      var n := |loc| - 1;
      assert loc[..n] == KeyLoc(Split(a.path, '.')) && loc[..n] == KeyLoc(Split(b.path, '.'));
      assert loc[n] == Pos(a.index) && loc[n] == Pos(b.index);
      KeyLocInjective(Split(a.path, '.'), Split(b.path, '.'));
      SplitInjective(a.path, b.path, '.');
    }
  }

  // ---------------------------------------------------------------------
  // Extraction: what lands in `textsToTranslate` and `textMap`
  // ---------------------------------------------------------------------

  /** One collected text: its record, the position of its field in the field list, where it is, and the text. */
  datatype Item = Item(objIndex: nat, fieldIndex: nat, address: Address, text: string)

  /** A `textMap` record: the record, where in it, and the position of its text in the batch. */
  datatype Entry = Entry(objIndex: nat, address: Address, textIndex: nat)

  /** `typeof v === 'string' && v.trim()`. */
  predicate Translatable(j: Json) {
    j.Str? && !IsBlank(j.s)
  }

  /** The array position of an element's text; 0 for a field's own string. */
  function ElementOf(it: Item): nat {
    if it.address.Index? then it.address.index else 0
  }

  /** Traversal order: by record, then by field, then by array element. */
  predicate Before(x: Item, y: Item) {
    x.objIndex < y.objIndex
    || (x.objIndex == y.objIndex
        && (x.fieldIndex < y.fieldIndex || (x.fieldIndex == y.fieldIndex && ElementOf(x) < ElementOf(y))))
  }

  predicate Ordered(items: seq<Item>) {
    forall a, b :: 0 <= a < b < |items| ==> Before(items[a], items[b])
  }

  lemma {:induction false} OrderedConcat(x: seq<Item>, y: seq<Item>)
    requires Ordered(x) && Ordered(y)
    requires forall p, q :: p in x && q in y ==> Before(p, q)
    ensures Ordered(x + y)
  {
    var z := x + y;
    forall a, b | 0 <= a < b < |z| ensures Before(z[a], z[b]) {
      if b < |x| {
        assert z[a] == x[a] && z[b] == x[b];
      } else if a >= |x| {
        assert z[a] == y[a - |x|] && z[b] == y[b - |x|];
      } else {
        assert z[a] in x && z[b] in y;
      }
    }
  }

  /** The value `getNestedProperty` finds in one record at each requested field. */
  function RecordLookups(obj: Json, fields: seq<string>): (vals: seq<Option<Json>>)
    ensures |vals| == |fields|
    ensures forall f :: 0 <= f < |fields| ==> vals[f] == GetNested(obj, fields[f])
  {
    seq(|fields|, f requires 0 <= f < |fields| => GetNested(obj, fields[f]))
  }

  /** The values looked up in every record. */
  function Lookups(objects: seq<Json>, fields: seq<string>): (table: seq<seq<Option<Json>>>)
    ensures |table| == |objects| && Rectangular(table, fields)
    ensures forall i :: 0 <= i < |objects| ==> table[i] == RecordLookups(objects[i], fields)
  {
    seq(|objects|, i requires 0 <= i < |objects| => RecordLookups(objects[i], fields))
  }

  /** Every record has one looked-up value per requested field. */
  predicate Rectangular(table: seq<seq<Option<Json>>>, fields: seq<string>) {
    forall i :: 0 <= i < |table| ==> |table[i]| == |fields|
  }

  /** The blocks one after the other. */
  function Flatten<T>(bs: seq<seq<T>>): seq<T>
    decreases |bs|
  {
    if bs == [] then [] else Flatten(bs[..|bs| - 1]) + bs[|bs| - 1]
  }

  /** Taking one more block appends it. */
  lemma {:induction false} FlattenStep<T>(bs: seq<seq<T>>, i: nat)
    requires i < |bs|
    ensures Flatten(bs[..i + 1]) == Flatten(bs[..i]) + bs[i]
  {
    assert bs[..i + 1][..i] == bs[..i];
  }

  /** An element of the flattened blocks is an element of one of them. */
  lemma {:induction false} FlattenMember<T>(bs: seq<seq<T>>, x: T)
    ensures x in Flatten(bs) <==> exists i :: 0 <= i < |bs| && x in bs[i]
    decreases |bs|
  {
    if bs != [] {
      var n := |bs| - 1;
      FlattenMember(bs[..n], x);
      if x in Flatten(bs) && x !in bs[n] {
        var i :| 0 <= i < n && x in bs[..n][i];
        assert x in bs[i];
      }
      if i :| 0 <= i < |bs| && x in bs[i] {
        if i < n {
          assert x in bs[..n][i];
        }
      }
    }
  }

  /** Blocks in order, each in order, give an ordered whole. */
  lemma {:induction false} FlattenOrdered(bs: seq<seq<Item>>)
    requires forall i :: 0 <= i < |bs| ==> Ordered(bs[i])
    requires forall i, j, p, q :: 0 <= i < j < |bs| && p in bs[i] && q in bs[j] ==> Before(p, q)
    ensures Ordered(Flatten(bs))
    decreases |bs|
  {
    if bs != [] {
      var n := |bs| - 1;
      var prefix := bs[..n];
      FlattenOrdered(prefix);
      forall p, q | p in Flatten(prefix) && q in bs[n] ensures Before(p, q) {
        FlattenMember(prefix, p);
        var i :| 0 <= i < n && p in prefix[i];
        assert p in bs[i];
      }
      OrderedConcat(Flatten(prefix), bs[n]);
    }
  }

  /** The texts collected from the first `n` elements of the array found at field `field`. */
  function ArrayItems(objIndex: nat, fieldIndex: nat, field: string, xs: seq<Json>, n: nat): (r: seq<Item>)
    requires n <= |xs|
    ensures forall it :: it in r ==>
              it.objIndex == objIndex && it.fieldIndex == fieldIndex && it.address.Index? && it.address.path == field
              && it.address.index < n && xs[it.address.index] == Str(it.text) && !IsBlank(it.text)
    decreases n
  {
    if n == 0 then []
    else
      ArrayItems(objIndex, fieldIndex, field, xs, n - 1)
      + (if Translatable(xs[n - 1]) then [Item(objIndex, fieldIndex, Index(field, n - 1), xs[n - 1].s)] else [])
  }

  /** The texts one looked-up field value contributes: the string itself, or the strings of the array. */
  function ValueItems(v: Option<Json>, objIndex: nat, fieldIndex: nat, field: string): (r: seq<Item>)
    ensures forall it :: it in r ==>
              it.objIndex == objIndex && it.fieldIndex == fieldIndex && it.address.path == field && !IsBlank(it.text)
  {
    match v
    case Some(Str(s)) => if IsBlank(s) then [] else [Item(objIndex, fieldIndex, Field(field), s)]
    case Some(Arr(xs)) => ArrayItems(objIndex, fieldIndex, field, xs, |xs|)
    case _ => []
  }

  /** What each requested field of one record contributes, in field order. */
  function FieldBlocks(vals: seq<Option<Json>>, objIndex: nat, fields: seq<string>): (bs: seq<seq<Item>>)
    requires |vals| == |fields|
    ensures |bs| == |fields|
    ensures forall f :: 0 <= f < |fields| ==> bs[f] == ValueItems(vals[f], objIndex, f, fields[f])
  {
    seq(|fields|, f requires 0 <= f < |fields| => ValueItems(vals[f], objIndex, f, fields[f]))
  }

  /** The texts collected from one record, given its looked-up values. */
  function RecordItems(vals: seq<Option<Json>>, objIndex: nat, fields: seq<string>): seq<Item>
    requires |vals| == |fields|
  {
    Flatten(FieldBlocks(vals, objIndex, fields))
  }

  /** What each record contributes, in record order. */
  function RecordBlocks(table: seq<seq<Option<Json>>>, fields: seq<string>): (bs: seq<seq<Item>>)
    requires Rectangular(table, fields)
    ensures |bs| == |table|
    ensures forall i :: 0 <= i < |table| ==> bs[i] == RecordItems(table[i], i, fields)
  {
    seq(|table|, i requires 0 <= i < |table| => RecordItems(table[i], i, fields))
  }

  /** The texts collected from all records, given the looked-up values. */
  function Items(table: seq<seq<Option<Json>>>, fields: seq<string>): seq<Item>
    requires Rectangular(table, fields)
  {
    Flatten(RecordBlocks(table, fields))
  }

  /** Everything `translateObjectArray` collects from `objects` for `fields`. */
  function AllItems(objects: seq<Json>, fields: seq<string>): (r: seq<Item>)
    ensures forall it :: it in r ==> it.objIndex < |objects|
  {
    ItemsSound(Lookups(objects, fields), fields);
    Items(Lookups(objects, fields), fields)
  }

  /** The looked-up value shows the text: it is that string, or an array holding it at the element's position. */
  predicate Shows(v: Option<Json>, it: Item) {
    match it.address
    case Field(_) => v == Some(Str(it.text))
    case Index(_, j) => v.Some? && v.value.Arr? && j < |v.value.items| && v.value.items[j] == Str(it.text)
  }

  lemma {:induction false} ValueItemsSound(v: Option<Json>, objIndex: nat, fieldIndex: nat, field: string)
    ensures forall it :: it in ValueItems(v, objIndex, fieldIndex, field) ==> Shows(v, it)
  {
  }

  /** Each text collected from a record is a non-blank string its field's value shows. */
  lemma {:induction false} RecordItemsSound(vals: seq<Option<Json>>, objIndex: nat, fields: seq<string>)
    requires |vals| == |fields|
    ensures forall it :: it in RecordItems(vals, objIndex, fields) ==>
              it.objIndex == objIndex && it.fieldIndex < |fields| && it.address.path == fields[it.fieldIndex]
              && !IsBlank(it.text) && Shows(vals[it.fieldIndex], it)
  {
    var bs := FieldBlocks(vals, objIndex, fields);
    forall it | it in RecordItems(vals, objIndex, fields)
      ensures it.objIndex == objIndex && it.fieldIndex < |fields| && it.address.path == fields[it.fieldIndex]
      ensures !IsBlank(it.text) && Shows(vals[it.fieldIndex], it)
    {
      FlattenMember(bs, it);
      var f :| 0 <= f < |bs| && it in bs[f];
      ValueItemsSound(vals[f], objIndex, f, fields[f]);
    }
  }

  /** Each collected text is a non-blank string its record's field value shows. */
  lemma {:induction false} ItemsSound(table: seq<seq<Option<Json>>>, fields: seq<string>)
    requires Rectangular(table, fields)
    ensures forall it :: it in Items(table, fields) ==>
              it.objIndex < |table| && it.fieldIndex < |fields| && it.address.path == fields[it.fieldIndex]
              && !IsBlank(it.text) && Shows(table[it.objIndex][it.fieldIndex], it)
  {
    var bs := RecordBlocks(table, fields);
    forall it | it in Items(table, fields)
      ensures it.objIndex < |table| && it.fieldIndex < |fields| && it.address.path == fields[it.fieldIndex]
      ensures !IsBlank(it.text) && Shows(table[it.objIndex][it.fieldIndex], it)
    {
      FlattenMember(bs, it);
      var i :| 0 <= i < |bs| && it in bs[i];
      RecordItemsSound(table[i], i, fields);
    }
  }

  /** Soundness: each collected text is a non-blank string of its record, found at its address. */
  lemma {:induction false} AllItemsSound(objects: seq<Json>, fields: seq<string>)
    ensures forall it :: it in AllItems(objects, fields) ==>
              it.objIndex < |objects| && !IsBlank(it.text) && At(objects[it.objIndex], AddrLoc(it.address)) == Some(Str(it.text))
  {
    var table := Lookups(objects, fields);
    ItemsSound(table, fields);
    forall it | it in AllItems(objects, fields)
      ensures At(objects[it.objIndex], AddrLoc(it.address)) == Some(Str(it.text))
    {
      var o := objects[it.objIndex];
      var keys := Split(it.address.path, '.');
      assert table[it.objIndex][it.fieldIndex] == GetNested(o, it.address.path) by {
        assert table[it.objIndex] == RecordLookups(o, fields);
      }
      GetPathAt(o, keys);
      if it.address.Index? {
        AtAppend(o, KeyLoc(keys), [Pos(it.address.index)]);
      }
    }
  }

  lemma {:induction false} ArrayItemsOrdered(objIndex: nat, fieldIndex: nat, field: string, xs: seq<Json>, n: nat)
    requires n <= |xs|
    ensures Ordered(ArrayItems(objIndex, fieldIndex, field, xs, n))
    decreases n
  {
    if n > 0 {
      ArrayItemsOrdered(objIndex, fieldIndex, field, xs, n - 1);
      var last := if Translatable(xs[n - 1]) then [Item(objIndex, fieldIndex, Index(field, n - 1), xs[n - 1].s)] else [];
      OrderedConcat(ArrayItems(objIndex, fieldIndex, field, xs, n - 1), last);
    }
  }

  lemma {:induction false} ValueItemsOrdered(v: Option<Json>, objIndex: nat, fieldIndex: nat, field: string)
    ensures Ordered(ValueItems(v, objIndex, fieldIndex, field))
  {
    match v
    case Some(Arr(xs)) => ArrayItemsOrdered(objIndex, fieldIndex, field, xs, |xs|);
    case _ =>
  }

  lemma {:induction false} RecordItemsOrdered(vals: seq<Option<Json>>, objIndex: nat, fields: seq<string>)
    requires |vals| == |fields|
    ensures Ordered(RecordItems(vals, objIndex, fields))
  {
    var bs := FieldBlocks(vals, objIndex, fields);
    forall f | 0 <= f < |bs| ensures Ordered(bs[f]) {
      ValueItemsOrdered(vals[f], objIndex, f, fields[f]);
    }
    FlattenOrdered(bs);
  }

  /** Texts are collected record by record, field by field in list order, then element by element. */
  lemma {:induction false} ItemsOrdered(table: seq<seq<Option<Json>>>, fields: seq<string>)
    requires Rectangular(table, fields)
    ensures Ordered(Items(table, fields))
  {
    var bs := RecordBlocks(table, fields);
    forall i | 0 <= i < |bs| ensures Ordered(bs[i]) && forall p: Item :: p in bs[i] ==> p.objIndex == i {
      RecordItemsOrdered(table[i], i, fields);
      RecordItemsSound(table[i], i, fields);
    }
    FlattenOrdered(bs);
  }

  /** `textsToTranslate`. */
  function TextsOf(items: seq<Item>): (r: seq<string>)
    ensures |r| == |items|
    ensures forall k :: 0 <= k < |items| ==> r[k] == items[k].text
  {
    seq(|items|, k requires 0 <= k < |items| => items[k].text)
  }

  /** `textMap`: each text's position in the batch is its position in the list. */
  function EntriesOf(items: seq<Item>): (r: seq<Entry>)
    ensures |r| == |items|
    ensures forall k :: 0 <= k < |items| ==> r[k] == Entry(items[k].objIndex, items[k].address, k)
  {
    seq(|items|, k requires 0 <= k < |items| => Entry(items[k].objIndex, items[k].address, k))
  }

  lemma {:induction false} AppendItem(items: seq<Item>, it: Item)
    ensures TextsOf(items + [it]) == TextsOf(items) + [it.text]
    ensures EntriesOf(items + [it]) == EntriesOf(items) + [Entry(it.objIndex, it.address, |items|)]
  {
    assert TextsOf(items + [it]) == TextsOf(items) + [it.text];
  }

  /** Completeness for array elements: every non-blank string element of a requested array field is collected. */
  lemma {:induction false} ArrayItemsComplete(objIndex: nat, fieldIndex: nat, field: string, xs: seq<Json>, n: nat, j: nat)
    requires j < n <= |xs| && Translatable(xs[j])
    ensures Item(objIndex, fieldIndex, Index(field, j), xs[j].s) in ArrayItems(objIndex, fieldIndex, field, xs, n)
    decreases n
  {
    if j < n - 1 {
      ArrayItemsComplete(objIndex, fieldIndex, field, xs, n - 1, j);
    }
  }

  /** What one field's value contributes ends up in the whole collection. */
  lemma {:induction false} ValueItemsIncluded(objects: seq<Json>, fields: seq<string>, i: nat, f: nat, it: Item)
    requires i < |objects| && f < |fields|
    requires it in ValueItems(GetNested(objects[i], fields[f]), i, f, fields[f])
    ensures it in AllItems(objects, fields)
  {
    var table := Lookups(objects, fields);
    assert table[i] == RecordLookups(objects[i], fields);
    var fbs := FieldBlocks(table[i], i, fields);
    assert it in fbs[f];
    FlattenMember(fbs, it);
    var rbs := RecordBlocks(table, fields);
    assert it in rbs[i];
    FlattenMember(rbs, it);
  }

  /** Completeness: a requested field holding a non-blank string has its text collected. */
  lemma {:induction false} FieldTextCollected(objects: seq<Json>, fields: seq<string>, i: nat, f: nat, s: string)
    requires i < |objects| && f < |fields|
    requires GetNested(objects[i], fields[f]) == Some(Str(s)) && !IsBlank(s)
    ensures Item(i, f, Field(fields[f]), s) in AllItems(objects, fields)
  {
    ValueItemsIncluded(objects, fields, i, f, Item(i, f, Field(fields[f]), s));
  }

  /** Completeness: a requested field holding an array has each non-blank string element collected. */
  lemma {:induction false} ElementTextCollected(objects: seq<Json>, fields: seq<string>, i: nat, f: nat, xs: seq<Json>, j: nat)
    requires i < |objects| && f < |fields|
    requires GetNested(objects[i], fields[f]) == Some(Arr(xs))
    requires j < |xs| && Translatable(xs[j])
    ensures Item(i, f, Index(fields[f], j), xs[j].s) in AllItems(objects, fields)
  {
    ArrayItemsComplete(i, f, fields[f], xs, |xs|, j);
    ValueItemsIncluded(objects, fields, i, f, Item(i, f, Index(fields[f], j), xs[j].s));
  }

  predicate NoDuplicates(fields: seq<string>) {
    forall a, b :: 0 <= a < b < |fields| ==> fields[a] != fields[b]
  }

  /** No two collected texts share a record and an address. */
  predicate DistinctTargets(items: seq<Item>) {
    forall a, b :: 0 <= a < b < |items| ==> items[a].objIndex != items[b].objIndex || items[a].address != items[b].address
  }

  /** With no field requested twice, every collected text has its own target. */
  lemma {:induction false} ItemsDistinct(objects: seq<Json>, fields: seq<string>)
    requires NoDuplicates(fields)
    ensures DistinctTargets(AllItems(objects, fields))
  {
    var table := Lookups(objects, fields);
    var r := AllItems(objects, fields);
    ItemsOrdered(table, fields);
    ItemsSound(table, fields);
    forall a, b | 0 <= a < b < |r| ensures r[a].objIndex != r[b].objIndex || r[a].address != r[b].address {
      var x, y := r[a], r[b];
      assert x in r && y in r;
      assert Before(x, y);
      if x.fieldIndex < y.fieldIndex {
        assert fields[x.fieldIndex] != fields[y.fieldIndex];
      } else if y.fieldIndex < x.fieldIndex {
        assert fields[y.fieldIndex] != fields[x.fieldIndex];
      }
    }
  }

  /** Looking at one more array element appends its text when it is a non-blank string. */
  lemma {:induction false} ElementStep(objIndex: nat, f: nat, field: string, xs: seq<Json>, done: seq<Item>, a: nat)
    requires a < |xs|
    ensures done + ArrayItems(objIndex, f, field, xs, a + 1)
         == done + ArrayItems(objIndex, f, field, xs, a)
            + (if xs[a].Str? && !IsBlank(xs[a].s) then [Item(objIndex, f, Index(field, a), xs[a].s)] else [])
  {
  }

  /** `value.forEach((item, index) => ...)`: append each non-blank string element of an array field. */
  method CollectElements(objIndex: nat, f: nat, field: string, xs: seq<Json>,
                         textsBefore: seq<string>, mapBefore: seq<Entry>, ghost done: seq<Item>)
    returns (texts: seq<string>, textMap: seq<Entry>)
    requires textsBefore == TextsOf(done) && mapBefore == EntriesOf(done)
    ensures texts == TextsOf(done + ArrayItems(objIndex, f, field, xs, |xs|))
    ensures textMap == EntriesOf(done + ArrayItems(objIndex, f, field, xs, |xs|))
  {
    texts, textMap := textsBefore, mapBefore;
    ghost var cur := done;
    var a := 0;
    while a < |xs|
      invariant a <= |xs|
      invariant cur == done + ArrayItems(objIndex, f, field, xs, a)
      invariant texts == TextsOf(cur) && textMap == EntriesOf(cur)
    {
      ElementStep(objIndex, f, field, xs, done, a);
      if xs[a].Str? && !IsBlank(xs[a].s) {
        var it := Item(objIndex, f, Index(field, a), xs[a].s);
        AppendItem(cur, it);
        textMap := textMap + [Entry(objIndex, Index(field, a), |texts|)];
        texts := texts + [xs[a].s];
        cur := cur + [it];
      }
      a := a + 1;
    }
  }

  /** One field path of one record: its string, or the strings of its array. */
  method CollectValue(value: Option<Json>, objIndex: nat, f: nat, field: string,
                      textsBefore: seq<string>, mapBefore: seq<Entry>, ghost done: seq<Item>)
    returns (texts: seq<string>, textMap: seq<Entry>)
    requires textsBefore == TextsOf(done) && mapBefore == EntriesOf(done)
    ensures texts == TextsOf(done + ValueItems(value, objIndex, f, field))
    ensures textMap == EntriesOf(done + ValueItems(value, objIndex, f, field))
  {
    if value.Some? && value.value.Str? && !IsBlank(value.value.s) {
      var it := Item(objIndex, f, Field(field), value.value.s);
      AppendItem(done, it);
      textMap := mapBefore + [Entry(objIndex, Field(field), |textsBefore|)];
      texts := textsBefore + [value.value.s];
    } else if value.Some? && value.value.Arr? {
      texts, textMap := CollectElements(objIndex, f, field, value.value.items, textsBefore, mapBefore, done);
    } else {
      assert done + ValueItems(value, objIndex, f, field) == done;
      texts, textMap := textsBefore, mapBefore;
    }
  }

  /** Collecting one more field of a record appends what its value contributes. */
  lemma {:induction false} RecordStep(obj: Json, objIndex: nat, fields: seq<string>, done: seq<Item>, f: nat)
    requires f < |fields|
    ensures var blocks := FieldBlocks(RecordLookups(obj, fields), objIndex, fields);
            done + Flatten(blocks[..f + 1]) == done + Flatten(blocks[..f]) + ValueItems(GetNested(obj, fields[f]), objIndex, f, fields[f])
  {
    var blocks := FieldBlocks(RecordLookups(obj, fields), objIndex, fields);
    FlattenStep(blocks, f);
  }

  /** `fieldPaths.forEach(fieldPath => ...)` for one record. */
  method CollectRecord(obj: Json, objIndex: nat, fields: seq<string>,
                       textsBefore: seq<string>, mapBefore: seq<Entry>, ghost done: seq<Item>)
    returns (texts: seq<string>, textMap: seq<Entry>)
    requires textsBefore == TextsOf(done) && mapBefore == EntriesOf(done)
    ensures texts == TextsOf(done + RecordItems(RecordLookups(obj, fields), objIndex, fields))
    ensures textMap == EntriesOf(done + RecordItems(RecordLookups(obj, fields), objIndex, fields))
  {
    texts, textMap := textsBefore, mapBefore;
    ghost var blocks := FieldBlocks(RecordLookups(obj, fields), objIndex, fields);
    ghost var cur := done;
    var f: nat := 0;
    while f < |fields|
      invariant f <= |fields|
      invariant cur == done + Flatten(blocks[..f])
      invariant texts == TextsOf(cur) && textMap == EntriesOf(cur)
    {
      var value := GetNested(obj, fields[f]);
      texts, textMap := CollectValue(value, objIndex, f, fields[f], texts, textMap, cur);
      RecordStep(obj, objIndex, fields, done, f);
      cur := cur + ValueItems(value, objIndex, f, fields[f]);
      f := f + 1;
    }
    assert blocks[..|fields|] == blocks;
  }

  /** The extraction loops of `translateObjectArray`: `textsToTranslate` and `textMap`. */
  method ExtractTexts(objects: seq<Json>, fields: seq<string>) returns (texts: seq<string>, textMap: seq<Entry>)
    ensures texts == TextsOf(AllItems(objects, fields))
    ensures textMap == EntriesOf(AllItems(objects, fields))
  {
    texts, textMap := [], [];
    ghost var records := RecordBlocks(Lookups(objects, fields), fields);
    ghost var done: seq<Item> := [];
    var objIndex: nat := 0;
    while objIndex < |objects|
      invariant objIndex <= |objects|
      invariant done == Flatten(records[..objIndex])
      invariant texts == TextsOf(done) && textMap == EntriesOf(done)
    {
      texts, textMap := CollectRecord(objects[objIndex], objIndex, fields, texts, textMap, done);
      done := done + RecordItems(RecordLookups(objects[objIndex], fields), objIndex, fields);
      FlattenStep(records, objIndex);
      objIndex := objIndex + 1;
    }
    assert records[..|objects|] == records;
  }

  // ---------------------------------------------------------------------
  // Write-back
  // ---------------------------------------------------------------------

  /**
   * `currentArray[i] = v`: replace or append an element of an array (with
   * `null` in any gap), set the property named by the decimal index on an
   * object; any other value is left as it is.
   */
  function SetElement(base: Json, i: nat, v: Json): Json {
    match base
    case Arr(xs) =>
      if i < |xs| then Arr(xs[i := v])
      else Arr(xs + seq(i - |xs|, _ => Null) + [v])
    case Obj(m) => Obj(m[NatToString(i) := v])
    case _ => base
  }

  /**
   * Writing one translation back: a field is set with `setNestedProperty`; an
   * element is written into the value at the base path (or into `[]` when that
   * value is missing or falsy), which is then stored back at the base path.
   */
  function WriteAt(o: Json, addr: Address, t: string): Json {
    match addr
    case Field(p) => SetNested(o, p, Str(t))
    case Index(p, i) =>
      var found := GetNested(o, p);
      var base := if found.Some? && Truthy(found.value) then found.value else Arr([]);
      SetNested(o, p, SetElement(base, i, Str(t)))
  }

  /** Writing at an address that holds a string replaces exactly that string. */
  lemma {:induction false} WriteAtIsPut(o: Json, addr: Address, t: string)
    requires At(o, AddrLoc(addr)).Some? && At(o, AddrLoc(addr)).value.Str?
    ensures WriteAt(o, addr, t) == Put(o, AddrLoc(addr), Str(t))
  {
    var keys := Split(addr.path, '.');
    GetPathAt(o, keys);
    match addr
    case Field(p) =>
      SetExistingIsPut(o, keys, Str(t));
    case Index(p, i) =>
      AtAppend(o, KeyLoc(keys), [Pos(i)]);
      var v := At(o, KeyLoc(keys)).value;
      assert v.Arr? && i < |v.items|;
      assert Put(v, [Pos(i)], Str(t)) == Arr(v.items[i := Str(t)]);
      SetExistingIsPut(o, keys, Arr(v.items[i := Str(t)]));
      PutAppend(o, KeyLoc(keys), [Pos(i)], Str(t));
  }

  /** One write into a record shaped like `o`, at a string of `o`, keeps the shape. */
  lemma {:induction false} WriteKeepsShape(o: Json, cur: Json, addr: Address, t: string)
    requires Shape(cur) == Shape(o)
    requires IsStringLeaf(o, AddrLoc(addr))
    ensures Shape(WriteAt(cur, addr, t)) == Shape(o)
  {
    var target := AddrLoc(addr);
    SameShapeSameStrings(o, cur, target);
    WriteAtIsPut(cur, addr, t);
    PutStringKeepsShape(cur, target, t);
  }

  /**
   * One write into a record whose shape is that of `o`, at an address where
   * `o` has a string: the shape stays, the address gets the text, and every
   * other string leaf is left as it was.
   */
  lemma {:induction false} WriteOneLeaf(o: Json, cur: Json, addr: Address, t: string)
    requires Shape(cur) == Shape(o)
    requires At(o, AddrLoc(addr)).Some? && At(o, AddrLoc(addr)).value.Str?
    ensures Shape(WriteAt(cur, addr, t)) == Shape(o)
    ensures At(WriteAt(cur, addr, t), AddrLoc(addr)) == Some(Str(t))
    ensures forall loc :: At(o, loc).Some? && At(o, loc).value.Str? && loc != AddrLoc(addr) ==>
              At(WriteAt(cur, addr, t), loc) == At(cur, loc)
  {
    var target := AddrLoc(addr);
    SameShapeSameStrings(o, cur, target);
    WriteAtIsPut(cur, addr, t);
    PutStringKeepsShape(cur, target, t);
    PutAt(cur, target, Str(t));
    forall loc | At(o, loc).Some? && At(o, loc).value.Str? && loc != target
      ensures At(WriteAt(cur, addr, t), loc) == At(cur, loc)
    {
      StringLeavesDiverge(o, target, loc);
      PutElsewhere(cur, target, Str(t), loc);
    }
  }

  /** Every entry names an existing translation. */
  predicate TextIndexed(entries: seq<Entry>, texts: nat) {
    forall k :: 0 <= k < |entries| ==> entries[k].textIndex < texts
  }

  /** Every entry names an existing record and an existing translation. */
  predicate WellIndexed(entries: seq<Entry>, records: nat, texts: nat) {
    TextIndexed(entries, texts) && forall k :: 0 <= k < |entries| ==> entries[k].objIndex < records
  }

  /** The records after the first `n` entries of `textMap` have been written back. */
  function ApplyEntries(objs: seq<Json>, entries: seq<Entry>, tr: seq<string>, n: nat): (r: seq<Json>)
    requires n <= |entries| && WellIndexed(entries, |objs|, |tr|)
    ensures |r| == |objs|
    decreases n
  {
    if n == 0 then objs
    else
      var prev := ApplyEntries(objs, entries, tr, n - 1);
      var e := entries[n - 1];
      prev[e.objIndex := WriteAt(prev[e.objIndex], e.address, tr[e.textIndex])]
  }

  /** The write-back loop of `translateObjectArray`. */
  method WriteBack(objects: seq<Json>, textMap: seq<Entry>, translated: seq<string>) returns (result: seq<Json>)
    requires WellIndexed(textMap, |objects|, |translated|)
    ensures result == ApplyEntries(objects, textMap, translated, |textMap|)
  {
    result := objects;
    var k := 0;
    while k < |textMap|
      invariant k <= |textMap|
      invariant result == ApplyEntries(objects, textMap, translated, k)
    {
      var e := textMap[k];
      result := result[e.objIndex := WriteAt(result[e.objIndex], e.address, translated[e.textIndex])];
      k := k + 1;
    }
  }

  /** The record and the location in it that each entry writes to. */
  function Targets(entries: seq<Entry>): (ts: seq<(nat, Loc)>)
    ensures |ts| == |entries|
    decreases |entries|
  {
    if entries == [] then []
    else Targets(entries[..|entries| - 1]) + [(entries[|entries| - 1].objIndex, AddrLoc(entries[|entries| - 1].address))]
  }

  /** Entry `k` writes into its own record at the location its address names. */
  lemma {:induction false} TargetsAt(entries: seq<Entry>, k: nat)
    requires k < |entries|
    ensures Targets(entries)[k] == (entries[k].objIndex, AddrLoc(entries[k].address))
    decreases |entries|
  {
    if k < |entries| - 1 {
      TargetsAt(entries[..|entries| - 1], k);
    }
  }

  /** The last index below `n` at which `xs` holds `x`, if any. */
  function LastIndex<T(==)>(xs: seq<T>, n: nat, x: T): (r: Option<nat>)
    requires n <= |xs|
    ensures r.Some? ==> r.value < n && xs[r.value] == x
    decreases n
  {
    if n == 0 then None
    else if xs[n - 1] == x then Some(n - 1)
    else LastIndex(xs, n - 1, x)
  }

  /** `LastIndex` finds the last occurrence, and finds nothing only when there is none. */
  lemma {:induction false} LastIndexIsLast<T>(xs: seq<T>, n: nat, x: T)
    requires n <= |xs|
    ensures LastIndex(xs, n, x).Some? ==> forall k :: LastIndex(xs, n, x).value < k < n ==> xs[k] != x
    ensures LastIndex(xs, n, x).None? ==> forall k :: 0 <= k < n ==> xs[k] != x
    decreases n
  {
    if n > 0 && xs[n - 1] != x {
      LastIndexIsLast(xs, n - 1, x);
    }
  }

  /**
   * The string at `loc` of record `i` after the first `n` writes, when it was
   * `original` before; `ts` holds the place each entry writes to.
   */
  function LeafAfter(ts: seq<(nat, Loc)>, entries: seq<Entry>, tr: seq<string>, n: nat, i: nat, loc: Loc, original: string): string
    requires n <= |ts| && n <= |entries| && TextIndexed(entries, |tr|)
  {
    match LastIndex(ts, n, (i, loc))
    case None => original
    case Some(k) => tr[entries[k].textIndex]
  }

  /** Every entry targets a string of its record. */
  predicate TargetsStrings(objs: seq<Json>, entries: seq<Entry>) {
    var ts := Targets(entries);
    forall k :: 0 <= k < |ts| ==> ts[k].0 < |objs| && IsStringLeaf(objs[ts[k].0], ts[k].1)
  }

  /** Entry `k` of entries that target strings targets a string of its record. */
  lemma {:induction false} TargetIsString(objs: seq<Json>, entries: seq<Entry>, k: nat)
    requires k < |entries| && TargetsStrings(objs, entries)
    ensures entries[k].objIndex < |objs| && IsStringLeaf(objs[entries[k].objIndex], AddrLoc(entries[k].address))
  {
    TargetsAt(entries, k);
    var t := Targets(entries)[k];
    assert t.0 < |objs| && IsStringLeaf(objs[t.0], t.1);
  }

  /** The string leaf at `loc` of `o`. */
  predicate IsStringLeaf(o: Json, loc: Loc) {
    At(o, loc).Some? && At(o, loc).value.Str?
  }

  /** Write-back keeps the shape of each record. */
  lemma {:induction false} WriteBackShape(objs: seq<Json>, entries: seq<Entry>, tr: seq<string>, n: nat, i: nat)
    requires n <= |entries| && WellIndexed(entries, |objs|, |tr|) && TargetsStrings(objs, entries)
    requires i < |objs|
    ensures Shape(ApplyEntries(objs, entries, tr, n)[i]) == Shape(objs[i])
    decreases n
  {
    if n > 0 {
      WriteBackShape(objs, entries, tr, n - 1, i);
      var prev := ApplyEntries(objs, entries, tr, n - 1);
      var e := entries[n - 1];
      TargetIsString(objs, entries, n - 1);
      assert ApplyEntries(objs, entries, tr, n) == prev[e.objIndex := WriteAt(prev[e.objIndex], e.address, tr[e.textIndex])];
      ShapeAfterWrite(objs, prev, i, e.objIndex, e.address, tr[e.textIndex], ApplyEntries(objs, entries, tr, n));
    }
  }

  /**
   * Record `i`, shaped like the original, keeps its shape when record `j` gets
   * a write at one of its original strings.
   */
  lemma {:induction false} ShapeAfterWrite(objs: seq<Json>, prev: seq<Json>, i: nat, j: nat, addr: Address, t: string, r: seq<Json>)
    requires |prev| == |objs| && i < |objs| && j < |objs|
    requires r == prev[j := WriteAt(prev[j], addr, t)]
    ensures Shape(prev[i]) == Shape(objs[i]) && IsStringLeaf(objs[j], AddrLoc(addr)) ==> Shape(r[i]) == Shape(objs[i])
  {
    if Shape(prev[i]) == Shape(objs[i]) && IsStringLeaf(objs[j], AddrLoc(addr)) && i == j {
      WriteKeepsShape(objs[i], prev[i], addr, t);
    }
  }

  /**
   * Every string leaf of every record of `objs` holds in `rs` the translation of
   * the last of the first `n` entries that targets it, or its own text.
   */
  ghost predicate LeavesAfter(objs: seq<Json>, ts: seq<(nat, Loc)>, entries: seq<Entry>, tr: seq<string>, n: nat, rs: seq<Json>)
    requires n <= |ts| && n <= |entries| && TextIndexed(entries, |tr|)
  {
    |rs| == |objs| &&
    forall i, loc :: 0 <= i < |objs| && IsStringLeaf(objs[i], loc) ==>
      At(rs[i], loc) == Some(Str(LeafAfter(ts, entries, tr, n, i, loc, At(objs[i], loc).value.s)))
  }

  /**
   * One string leaf after entry `n - 1`, which writes `t` at `target` of record
   * `j`, has put `w` in place of that record: the leaf holds `t` when it is the
   * target, and what it held before otherwise.
   */
  lemma {:induction false} StepLeaf(objs: seq<Json>, ts: seq<(nat, Loc)>, entries: seq<Entry>, tr: seq<string>, n: nat,
                 prev: seq<Json>, j: nat, target: Loc, w: Json, i: nat, loc: Loc, original: string)
    requires 0 < n <= |ts| && n <= |entries| && TextIndexed(entries, |tr|)
    requires ts[n - 1] == (j, target) && j < |prev| && i < |prev|
    requires At(prev[i], loc) == Some(Str(LeafAfter(ts, entries, tr, n - 1, i, loc, original)))
    requires At(w, target) == Some(Str(tr[entries[n - 1].textIndex]))
    requires i == j && loc != target ==> At(w, loc) == At(prev[i], loc)
    ensures At(prev[j := w][i], loc) == Some(Str(LeafAfter(ts, entries, tr, n, i, loc, original)))
  {
    if i == j && loc == target {
      assert LastIndex(ts, n, (i, loc)) == Some(n - 1);
      assert prev[j := w][i] == w;
    } else {
      assert LastIndex(ts, n, (i, loc)) == LastIndex(ts, n - 1, (i, loc));
      if i == j {
        assert prev[j := w][i] == w;
      } else {
        assert prev[j := w][i] == prev[i];
      }
    }
  }

  /**
   * Entry `n - 1`, which writes at `target` of record `j`, advances
   * `LeavesAfter` from `n - 1` to `n` when the new record `w` holds the entry's
   * translation at the target and agrees with the old one on every other
   * string leaf of the original.
   */
  lemma {:induction false} StepLeaves(objs: seq<Json>, ts: seq<(nat, Loc)>, entries: seq<Entry>, tr: seq<string>, n: nat,
                   prev: seq<Json>, j: nat, target: Loc, w: Json)
    requires 0 < n <= |ts| && n <= |entries| && TextIndexed(entries, |tr|)
    requires ts[n - 1] == (j, target) && j < |objs|
    requires LeavesAfter(objs, ts, entries, tr, n - 1, prev)
    requires At(w, target) == Some(Str(tr[entries[n - 1].textIndex]))
    requires forall loc :: IsStringLeaf(objs[j], loc) && loc != target ==> At(w, loc) == At(prev[j], loc)
    ensures LeavesAfter(objs, ts, entries, tr, n, prev[j := w])
  {
    forall i, loc | 0 <= i < |objs| && IsStringLeaf(objs[i], loc)
      ensures At(prev[j := w][i], loc) == Some(Str(LeafAfter(ts, entries, tr, n, i, loc, At(objs[i], loc).value.s)))
    {
      StepLeaf(objs, ts, entries, tr, n, prev, j, target, w, i, loc, At(objs[i], loc).value.s);
    }
  }

  /**
   * Write-back puts at each string leaf the translation of the last entry
   * that targets it, or leaves its text.
   */
  lemma {:induction false} WriteBackLeaves(objs: seq<Json>, entries: seq<Entry>, tr: seq<string>, n: nat)
    requires n <= |entries| && WellIndexed(entries, |objs|, |tr|) && TargetsStrings(objs, entries)
    ensures LeavesAfter(objs, Targets(entries), entries, tr, n, ApplyEntries(objs, entries, tr, n))
    decreases n
  {
    if n > 0 {
      WriteBackLeaves(objs, entries, tr, n - 1);
      var prev := ApplyEntries(objs, entries, tr, n - 1);
      var e := entries[n - 1];
      WriteBackShape(objs, entries, tr, n - 1, e.objIndex);
      assert ApplyEntries(objs, entries, tr, n) == prev[e.objIndex := WriteAt(prev[e.objIndex], e.address, tr[e.textIndex])];
      StepWrite(objs, entries, tr, n, prev);
    }
  }

  /** Writing entry `n - 1` into records shaped like the originals advances `LeavesAfter` from `n - 1` to `n`. */
  lemma {:induction false} StepWrite(objs: seq<Json>, entries: seq<Entry>, tr: seq<string>, n: nat, prev: seq<Json>)
    requires 0 < n <= |entries| && WellIndexed(entries, |objs|, |tr|) && TargetsStrings(objs, entries)
    requires |prev| == |objs| && Shape(prev[entries[n - 1].objIndex]) == Shape(objs[entries[n - 1].objIndex])
    requires LeavesAfter(objs, Targets(entries), entries, tr, n - 1, prev)
    ensures var e := entries[n - 1];
            LeavesAfter(objs, Targets(entries), entries, tr, n, prev[e.objIndex := WriteAt(prev[e.objIndex], e.address, tr[e.textIndex])])
  {
    var e := entries[n - 1];
    TargetsAt(entries, n - 1);
    TargetIsString(objs, entries, n - 1);
    WriteOneLeaf(objs[e.objIndex], prev[e.objIndex], e.address, tr[e.textIndex]);
    StepLeaves(objs, Targets(entries), entries, tr, n, prev, e.objIndex, AddrLoc(e.address),
               WriteAt(prev[e.objIndex], e.address, tr[e.textIndex]));
  }

  /** The collected texts target strings of their records, and `textMap` indexes them correctly. */
  lemma {:induction false} EntriesTargetStrings(objects: seq<Json>, fields: seq<string>, tr: seq<string>)
    requires |tr| == |AllItems(objects, fields)|
    ensures WellIndexed(EntriesOf(AllItems(objects, fields)), |objects|, |tr|)
    ensures TargetsStrings(objects, EntriesOf(AllItems(objects, fields)))
  {
    var items := AllItems(objects, fields);
    var entries := EntriesOf(items);
    AllItemsSound(objects, fields);
    var ts := Targets(entries);
    forall k | 0 <= k < |ts|
      ensures ts[k].0 < |objects| && IsStringLeaf(objects[ts[k].0], ts[k].1)
    {
      assert items[k] in items;
      TargetsAt(entries, k);
    }
  }

  /** The records after the write-back of translations `tr` of the collected texts. */
  function Translated(objects: seq<Json>, fields: seq<string>, tr: seq<string>): (r: seq<Json>)
    requires |tr| == |AllItems(objects, fields)|
    ensures |r| == |objects|
  {
    EntriesTargetStrings(objects, fields, tr);
    ApplyEntries(objects, EntriesOf(AllItems(objects, fields)), tr, |tr|)
  }

  /** Translation changes strings only: every record keeps its shape. */
  lemma {:induction false} TranslatedKeepsShape(objects: seq<Json>, fields: seq<string>, tr: seq<string>)
    requires |tr| == |AllItems(objects, fields)|
    ensures forall i :: 0 <= i < |objects| ==> Shape(Translated(objects, fields, tr)[i]) == Shape(objects[i])
  {
    EntriesTargetStrings(objects, fields, tr);
    forall i | 0 <= i < |objects| ensures Shape(Translated(objects, fields, tr)[i]) == Shape(objects[i]) {
      WriteBackShape(objects, EntriesOf(AllItems(objects, fields)), tr, |tr|, i);
    }
  }

  /** A string that was not collected (blank, or not in a requested field) keeps its text. */
  lemma {:induction false} UncollectedUnchanged(objects: seq<Json>, fields: seq<string>, tr: seq<string>, i: nat, loc: Loc, s: string)
    requires |tr| == |AllItems(objects, fields)|
    requires i < |objects| && At(objects[i], loc) == Some(Str(s))
    requires forall it :: it in AllItems(objects, fields) ==> it.objIndex != i || AddrLoc(it.address) != loc
    ensures At(Translated(objects, fields, tr)[i], loc) == Some(Str(s))
  {
    var items := AllItems(objects, fields);
    var entries := EntriesOf(items);
    EntriesTargetStrings(objects, fields, tr);
    WriteBackLeaves(objects, entries, tr, |tr|);
    assert IsStringLeaf(objects[i], loc);
    var ts := Targets(entries);
    forall k | 0 <= k < |entries| ensures ts[k] != (i, loc) {
      assert items[k] in items;
      TargetsAt(entries, k);
    }
    var w := LastIndex(ts, |tr|, (i, loc));
    assert w.None?;
  }

  /** With no field requested twice, each collected text is replaced by its own translation. */
  lemma {:induction false} CollectedTranslated(objects: seq<Json>, fields: seq<string>, tr: seq<string>, k: nat)
    requires |tr| == |AllItems(objects, fields)| && k < |tr| && NoDuplicates(fields)
    ensures var it := AllItems(objects, fields)[k];
            At(Translated(objects, fields, tr)[it.objIndex], AddrLoc(it.address)) == Some(Str(tr[k]))
  {
    var items := AllItems(objects, fields);
    var entries := EntriesOf(items);
    var it := items[k];
    EntriesTargetStrings(objects, fields, tr);
    ItemsDistinct(objects, fields);
    WriteBackLeaves(objects, entries, tr, |tr|);
    var loc := AddrLoc(it.address);
    assert it in items;
    AllItemsSound(objects, fields);
    assert IsStringLeaf(objects[it.objIndex], loc);
    var ts := Targets(entries);
    var w := LastIndex(ts, |tr|, (it.objIndex, loc));
    assert entries[k].objIndex == it.objIndex && entries[k].address == it.address;
    TargetsAt(entries, k);
    LastIndexIsLast(ts, |tr|, (it.objIndex, loc));
    assert w.Some?;
    TargetsAt(entries, w.value);
    AddrLocInjective(items[w.value].address, it.address);
    assert w.value == k;
  }

  /** Under the identity translation, every string leaf ends with its own text. */
  lemma {:induction false} IdentityLeaf(objects: seq<Json>, fields: seq<string>, i: nat, loc: Loc, s: string)
    requires i < |objects| && At(objects[i], loc) == Some(Str(s))
    ensures var items := AllItems(objects, fields);
            var entries := EntriesOf(items);
            LeafAfter(Targets(entries), entries, TextsOf(items), |items|, i, loc, s) == s
  {
    var items := AllItems(objects, fields);
    var entries := EntriesOf(items);
    var w := LastIndex(Targets(entries), |items|, (i, loc));
    if w.Some? {
      var k := w.value;
      assert items[k] in items;
      AllItemsSound(objects, fields);
      TargetsAt(entries, k);
      assert entries[k] == Entry(items[k].objIndex, items[k].address, k);
      assert TextsOf(items)[k] == items[k].text;
    }
  }

  /** Translating every text to itself gives the records back. */
  lemma {:induction false} IdentityTranslation(objects: seq<Json>, fields: seq<string>)
    ensures Translated(objects, fields, TextsOf(AllItems(objects, fields))) == objects
  {
    var items := AllItems(objects, fields);
    var tr := TextsOf(items);
    var entries := EntriesOf(items);
    var r := Translated(objects, fields, tr);
    EntriesTargetStrings(objects, fields, tr);
    WriteBackLeaves(objects, entries, tr, |tr|);
    forall i | 0 <= i < |objects| ensures r[i] == objects[i] {
      WriteBackShape(objects, entries, tr, |tr|, i);
      forall loc, s | At(objects[i], loc) == Some(Str(s)) ensures At(r[i], loc) == Some(Str(s)) {
        assert IsStringLeaf(objects[i], loc);
        IdentityLeaf(objects, fields, i, loc, s);
      }
      SameShapeAndStrings(objects[i], r[i]);
    }
  }

  // ---------------------------------------------------------------------
  // translateObjectArray / translateObject
  // ---------------------------------------------------------------------

  /**
   * What `translateObjectArray` settles to: the records themselves when the
   * languages agree or there are none; otherwise the batch of collected texts
   * is translated, a rejection is passed on, and a success is written back.
   */
  function TranslateObjectArraySpec(objects: seq<Json>, fields: seq<string>, targetLang: string, sourceLang: string,
                                    service: ServiceState, now: int, responseOf: string -> Response): (r: Settled<seq<Json>>)
    ensures sourceLang == targetLang || |objects| == 0 ==> r == Fulfilled(objects)
    ensures r.Fulfilled? ==> |r.value| == |objects|
    ensures r.Fulfilled? ==> forall i :: 0 <= i < |objects| ==> Shape(r.value[i]) == Shape(objects[i])
    ensures r.Rejected? ==> TranslateBatch(service, TextsOf(AllItems(objects, fields)), sourceLang, targetLang, now, responseOf).Rejected?
  {
    if sourceLang == targetLang || |objects| == 0 then Fulfilled(objects)
    else
      match TranslateBatch(service, TextsOf(AllItems(objects, fields)), sourceLang, targetLang, now, responseOf)
      case Rejected(e) => Rejected(e)
      case Fulfilled(tr) =>
        TranslatedKeepsShape(objects, fields, tr);
        Fulfilled(Translated(objects, fields, tr))
  }

  /**
   * `translateObjectArray(objects, fieldsToTranslate, targetLang, sourceLang)`,
   * with the service in state `service` at time `now` and the network
   * answering `responseOf(key)` for each request.
   */
  method TranslateObjectArray(objects: seq<Json>, fields: seq<string>, targetLang: string, sourceLang: string,
                              service: ServiceState, now: int, responseOf: string -> Response)
    returns (r: Settled<seq<Json>>)
    ensures r == TranslateObjectArraySpec(objects, fields, targetLang, sourceLang, service, now, responseOf)
  {
    if sourceLang == targetLang || |objects| == 0 {
      return Fulfilled(objects);
    }
    var texts, textMap := ExtractTexts(objects, fields);
    var batch := TranslateBatch(service, texts, sourceLang, targetLang, now, responseOf);
    match batch
    case Rejected(e) =>
      r := Rejected(e);
    case Fulfilled(translated) =>
      EntriesTargetStrings(objects, fields, translated);
      var translatedObjects := WriteBack(objects, textMap, translated);
      r := Fulfilled(translatedObjects);
  }

  /** `translateObject`: a one-record `translateObjectArray`, unwrapped. */
  method TranslateObject(obj: Json, fields: seq<string>, targetLang: string, sourceLang: string,
                         service: ServiceState, now: int, responseOf: string -> Response)
    returns (r: Settled<Json>)
    ensures var whole := TranslateObjectArraySpec([obj], fields, targetLang, sourceLang, service, now, responseOf);
            r == if whole.Fulfilled? then Fulfilled(whole.value[0]) else Rejected(whole.reason)
    ensures sourceLang == targetLang ==> r == Fulfilled(obj)
    ensures r.Fulfilled? ==> Shape(r.value) == Shape(obj)
  {
    var result := TranslateObjectArray([obj], fields, targetLang, sourceLang, service, now, responseOf);
    match result
    case Rejected(e) => r := Rejected(e);
    case Fulfilled(records) => r := Fulfilled(records[0]);
  }

  /** Translating into the language of the text changes nothing and sends no request. */
  lemma {:induction false} SameLanguageIsIdentity(objects: seq<Json>, fields: seq<string>, lang: string,
                               service: ServiceState, now: int, responseOf: string -> Response)
    ensures TranslateObjectArraySpec(objects, fields, lang, lang, service, now, responseOf) == Fulfilled(objects)
  {
  }

  // ---------------------------------------------------------------------
  // The `field[index]` strings of `textMap`, as the source writes them
  // ---------------------------------------------------------------------

  /** The `field` a `textMap` record carries: the path, or `${path}[${index}]`. */
  function EncodeAddress(a: Address): string {
    match a
    case Field(p) => p
    case Index(p, i) => p + "[" + NatToString(i) + "]"
  }

  /**
   * How the write-back reads `field` back: a string containing `[` is split
   * on `[`, the first part is the base path and the second, with its first
   * `]` removed, goes through `parseInt`; `None` when that gives `NaN`.
   */
  function DecodeAddress(s: string): Option<Address> {
    ContainsChar(s, '[');
    if Contains(s, "[") then
      SplitAtSeparator(s, '[');
      var parts := Split(s, '[');
      match ParseInt(RemoveFirst(parts[1], ']'))
      case None => None
      case Some(i) => Some(Index(parts[0], i))
    else Some(Field(s))
  }

  /** The write-back of one `textMap` record as written, going through its `field` string. */
  function WriteEncoded(o: Json, field: string, t: string): Json {
    match DecodeAddress(field)
    case None => o
    case Some(a) => WriteAt(o, a, t)
  }

  /** For paths without `[`, decoding undoes encoding. */
  lemma {:induction false} DecodeEncode(a: Address)
    requires '[' !in a.path
    ensures DecodeAddress(EncodeAddress(a)) == Some(a)
  {
    var s := EncodeAddress(a);
    ContainsChar(s, '[');
    match a
    case Field(p) =>
    case Index(p, i) =>
      var d := NatToString(i);
      NatToStringDigits(i);
      assert '[' !in d && ']' !in d;
      assert s == p + (['['] + (d + "]"));
      SplitPrefixed(p, ['['] + (d + "]"), '[');
      assert (['['] + (d + "]"))[1..] == d + "]";
      SplitWithoutSeparator(d + "]", '[');
      assert Split(['['] + (d + "]"), '[') == ["", d + "]"];
      assert p + "" == p;
      assert Split(s, '[') == [p, d + "]"];
      RemoveFirstAfter(d, ']', "");
      assert d + "]" == d + [']'] + "" && d + "" == d;
      ParseIntNatToString(i);
  }

  /** For paths without `[`, the as-written write-back is the typed one. */
  lemma {:induction false} WriteEncodedAgrees(o: Json, a: Address, t: string)
    requires '[' !in a.path
    ensures WriteEncoded(o, EncodeAddress(a), t) == WriteAt(o, a, t)
  {
    DecodeEncode(a);
  }

  /** The field name `tags[0]` is read back as element 0 of `tags`. */
  lemma {:induction false} BracketFieldSplit()
    ensures Split("tags[0]", '[') == ["tags", "0]"]
  {
    var s := "tags[0]";
    assert s == "tags" + (['['] + "0]");
    SplitPrefixed("tags", ['['] + "0]", '[');
    SplitWithoutSeparator("0]", '[');
    assert (['['] + "0]")[1..] == "0]";
    assert "tags" + "" == "tags";
  }

  lemma {:induction false} BracketIndexParsed()
    ensures ParseInt(RemoveFirst("0]", ']')) == Some(0)
  {
    RemoveFirstAfter("0", ']', "");
    assert "0]" == "0" + [']'] + "" && "0" + "" == "0";
    assert NatToString(0) == "0";
    ParseIntNatToString(0);
  }

  lemma {:induction false} BracketFieldDecoded()
    ensures DecodeAddress(EncodeAddress(Field("tags[0]"))) == Some(Index("tags", 0))
  {
    ContainsChar("tags[0]", '[');
    BracketFieldSplit();
    BracketIndexParsed();
  }

  lemma {:induction false} BracketFieldLookedUp()
    ensures Lookups([Obj(map["tags[0]" := Str("hello")])], ["tags[0]"]) == [[Some(Str("hello"))]]
  {
    var s := "tags[0]";
    var o := Obj(map[s := Str("hello")]);
    SplitWithoutSeparator(s, '.');
    assert [s][1..] == [];
    assert GetPath(o, [s]) == GetPath(Str("hello"), []);
    assert RecordLookups(o, [s]) == [Some(Str("hello"))];
  }

  lemma {:induction false} BracketRecordItems()
    ensures RecordItems([Some(Str("hello"))], 0, ["tags[0]"]) == [Item(0, 0, Field("tags[0]"), "hello")]
  {
    var s := "tags[0]";
    var it := Item(0, 0, Field(s), "hello");
    assert ValueItems(Some(Str("hello")), 0, 0, s) == [it] by {
      assert !IsBlank("hello") by { assert !IsWhitespace("hello"[0]); }
    }
    assert FieldBlocks([Some(Str("hello"))], 0, [s]) == [[it]];
    assert Flatten([[it]]) == [it] by { assert [[it]][..0] == []; }
  }

  /** From `{"tags[0]": "hello"}` the field `tags[0]` yields its one text. */
  lemma {:induction false} BracketFieldCollected()
    ensures AllItems([Obj(map["tags[0]" := Str("hello")])], ["tags[0]"]) == [Item(0, 0, Field("tags[0]"), "hello")]
  {
    var s := "tags[0]";
    var table := [[Some(Str("hello"))]];
    var it := Item(0, 0, Field(s), "hello");
    BracketFieldLookedUp();
    BracketRecordItems();
    assert RecordBlocks(table, [s]) == [[it]];
    assert Flatten([[it]]) == [it] by { assert [[it]][..0] == []; }
  }

  /** As written, the translation of `tags[0]` goes into a new array under `tags`. */
  lemma {:induction false} BracketFieldWrittenAsElement(t: string)
    ensures WriteEncoded(Obj(map["tags[0]" := Str("hello")]), "tags[0]", t)
         == Obj(map["tags[0]" := Str("hello"), "tags" := Arr([Str(t)])])
  {
    BracketFieldDecoded();
    BracketElementWrite(t);
  }

  lemma {:induction false} BracketElementWrite(t: string)
    ensures WriteAt(Obj(map["tags[0]" := Str("hello")]), Index("tags", 0), t)
         == Obj(map["tags[0]" := Str("hello"), "tags" := Arr([Str(t)])])
  {
    var o := Obj(map["tags[0]" := Str("hello")]);
    var v := Arr([Str(t)]);
    SplitWithoutSeparator("tags", '.');
    assert GetNested(o, "tags") == None;
    assert SetElement(Arr([]), 0, Str(t)) == v;
    assert WriteAt(o, Index("tags", 0), t) == SetPath(o, ["tags"], v);
  }

  /** Writing at a top-level key without `.` sets that key. */
  lemma {:induction false} WriteAtKey(m: map<string, Json>, key: string, t: string)
    requires '.' !in key
    ensures WriteAt(Obj(m), Field(key), t) == Obj(m[key := Str(t)])
  {
    SplitWithoutSeparator(key, '.');
  }

  /** Written at its field, the translation of `tags[0]` replaces that key's text. */
  lemma {:induction false} BracketFieldWrittenAtField(t: string)
    ensures WriteAt(Obj(map["tags[0]" := Str("hello")]), Field("tags[0]"), t) == Obj(map["tags[0]" := Str(t)])
  {
    var m := map["tags[0]" := Str("hello")];
    WriteAtKey(m, "tags[0]", t);
    assert m["tags[0]" := Str(t)] == map["tags[0]" := Str(t)];
  }

  /**
   * A field whose name contains `[` is read back as an array element: for the
   * record `{"tags[0]": "hello"}` and the field `tags[0]`, the text is
   * collected from that key, but its translation is written into a new array
   * under `tags` and the original key keeps its text.
   */
  lemma {:induction false} BracketFieldMisdecoded(t: string)
    ensures DecodeAddress(EncodeAddress(Field("tags[0]"))) == Some(Index("tags", 0))
    ensures var o := Obj(map["tags[0]" := Str("hello")]);
            AllItems([o], ["tags[0]"]) == [Item(0, 0, Field("tags[0]"), "hello")]
            && WriteEncoded(o, "tags[0]", t) == Obj(map["tags[0]" := Str("hello"), "tags" := Arr([Str(t)])])
            && WriteAt(o, Field("tags[0]"), t) == Obj(map["tags[0]" := Str(t)])
  {
    BracketFieldDecoded();
    BracketFieldCollected();
    BracketFieldWrittenAsElement(t);
    BracketFieldWrittenAtField(t);
  }
}
