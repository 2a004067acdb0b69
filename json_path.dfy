/**
 * Plain data records and dotted-path access to them: `getNestedProperty` and
 * `setNestedProperty` of src/utils/translationHelpers.ts (repeated verbatim as
 * `getNestedValue` and `setNestedValue` in src/hooks/useTranslatedContent.ts).
 */
module JsonPath {
  import opened Common
  import opened Text

  /** The JSON-like values the translated records are made of. */
  datatype Json =
    | Null
    | Bool(b: bool)
    | Num(n: int)
    | Str(s: string)
    | Arr(items: seq<Json>)
    | Obj(fields: map<string, Json>)

  /** JavaScript truthiness: `null`, `false`, `0` and `""` are falsy; arrays and objects are truthy. */
  predicate Truthy(j: Json) {
    match j
    case Null => false
    case Bool(b) => b
    case Num(n) => n != 0
    case Str(s) => s != ""
    case Arr(_) => true
    case Obj(_) => true
  }

  // ---------------------------------------------------------------------
  // Locations: one step is an object key or an array position
  // ---------------------------------------------------------------------

  datatype Step = Key(key: string) | Pos(index: nat)
  type Loc = seq<Step>

  /** The value one step below `j`, if there is one. */
  function Child(j: Json, s: Step): Option<Json> {
    match s
    case Key(k) => if j.Obj? && k in j.fields then Some(j.fields[k]) else None
    case Pos(i) => if j.Arr? && i < |j.items| then Some(j.items[i]) else None
  }

  /** `j` with the existing child at step `s` replaced by `c`. */
  function WithChild(j: Json, s: Step, c: Json): (r: Json)
    requires Child(j, s).Some?
    ensures Child(r, s) == Some(c)
    ensures forall t :: t != s ==> Child(r, t) == Child(j, t)
  {
    match s
    case Key(k) => Obj(j.fields[k := c])
    case Pos(i) => Arr(j.items[i := c])
  }

  /** The value found by following `loc` from `j`, or `None` when some step is missing. */
  function At(j: Json, loc: Loc): Option<Json>
    decreases |loc|
  {
    if loc == [] then Some(j)
    else match Child(j, loc[0])
      case None => None
      case Some(c) => At(c, loc[1..])
  }

  /** `j` with the value at the existing location `loc` replaced by `v`; `j` itself when `loc` is missing. */
  function Put(j: Json, loc: Loc, v: Json): Json
    decreases |loc|
  {
    if loc == [] then v
    else match Child(j, loc[0])
      case None => j
      case Some(c) => WithChild(j, loc[0], Put(c, loc[1..], v))
  }

  /** Neither location is a prefix of the other: they part at some step. */
  predicate Diverges(a: Loc, b: Loc)
    decreases |a|
  {
    |a| > 0 && |b| > 0 && (a[0] != b[0] || Diverges(a[1..], b[1..]))
  }

  /** Following `a + b` is following `a`, then `b`. */
  lemma {:induction false} AtAppend(j: Json, a: Loc, b: Loc)
    ensures At(j, a + b) == if At(j, a).Some? then At(At(j, a).value, b) else None
    decreases |a|
  {
    if a == [] {
      assert a + b == b;
    } else {
      assert (a + b)[0] == a[0] && (a + b)[1..] == a[1..] + b;
      if Child(j, a[0]).Some? {
        AtAppend(Child(j, a[0]).value, a[1..], b);
      }
    }
  }

  /** After `Put` at an existing location, that location holds the new value. */
  lemma {:induction false} PutAt(j: Json, loc: Loc, v: Json)
    requires At(j, loc).Some?
    ensures At(Put(j, loc, v), loc) == Some(v)
    decreases |loc|
  {
    if loc != [] {
      PutAt(Child(j, loc[0]).value, loc[1..], v);
    }
  }

  /** `Put` changes nothing at a location that parts from the written one. */
  lemma {:induction false} PutElsewhere(j: Json, loc: Loc, v: Json, other: Loc)
    requires Diverges(loc, other)
    ensures At(Put(j, loc, v), other) == At(j, other)
    decreases |loc|
  {
    if Child(j, loc[0]).Some? && loc[0] == other[0] {
      PutElsewhere(Child(j, loc[0]).value, loc[1..], v, other[1..]);
    }
  }

  /** Writing at `a + b` is writing inside the value found at `a`. */
  lemma {:induction false} PutAppend(j: Json, a: Loc, b: Loc, v: Json)
    requires At(j, a).Some?
    ensures Put(j, a + b, v) == Put(j, a, Put(At(j, a).value, b, v))
    decreases |a|
  {
    if a == [] {
      assert a + b == b;
    } else {
      assert (a + b)[0] == a[0] && (a + b)[1..] == a[1..] + b;
      PutAppend(Child(j, a[0]).value, a[1..], b, v);
    }
  }

  /** Two locations that do not part are prefix-related. */
  lemma {:induction false} NotDivergingIsPrefix(a: Loc, b: Loc)
    requires !Diverges(a, b)
    ensures (|a| <= |b| && b[..|a|] == a) || (|b| <= |a| && a[..|b|] == b)
    decreases |a|
  {
    if |a| > 0 && |b| > 0 {
      NotDivergingIsPrefix(a[1..], b[1..]);
      assert a == [a[0]] + a[1..] && b == [b[0]] + b[1..];
    }
  }

  /** Nothing lies below a string. */
  lemma {:induction false} StringHasNoChildren(j: Json, a: Loc, b: Loc)
    requires At(j, a).Some? && At(j, a).value.Str? && |b| > 0
    ensures At(j, a + b) == None
  {
    AtAppend(j, a, b);
  }

  /** Two different string leaves of one value sit at parting locations. */
  lemma {:induction false} StringLeavesDiverge(j: Json, a: Loc, b: Loc)
    requires At(j, a).Some? && At(j, a).value.Str?
    requires At(j, b).Some? && At(j, b).value.Str?
    requires a != b
    ensures Diverges(a, b)
  {
    if !Diverges(a, b) {
      NotDivergingIsPrefix(a, b);
      if |a| <= |b| && b[..|a|] == a {
        assert b == a + b[|a|..];
        StringHasNoChildren(j, a, b[|a|..]);
      } else {
        assert a == b + a[|b|..];
        StringHasNoChildren(j, b, a[|b|..]);
      }
    }
  }

  // ---------------------------------------------------------------------
  // Shape: a value with every string emptied
  // ---------------------------------------------------------------------

  /**
   * What translation must preserve: the value with every string replaced by
   * `""`. Two values with the same shape differ at most in string contents.
   */
  function Shape(j: Json): (r: Json)
    ensures r.Str? <==> j.Str?
  {
    match j
    case Str(_) => Str("")
    case Arr(xs) => Arr(seq(|xs|, i requires 0 <= i < |xs| => Shape(xs[i])))
    case Obj(m) => Obj(map k | k in m :: Shape(m[k]))
    case _ => j
  }

  /** The shape of what lies at a location is what lies there in the shape. */
  lemma {:induction false} ShapeAt(j: Json, loc: Loc)
    ensures At(Shape(j), loc) == if At(j, loc).Some? then Some(Shape(At(j, loc).value)) else None
    decreases |loc|
  {
    if loc != [] {
      var c := Child(j, loc[0]);
      assert Child(Shape(j), loc[0]) == if c.Some? then Some(Shape(c.value)) else None;
      if c.Some? {
        ShapeAt(c.value, loc[1..]);
      }
    }
  }

  /** Values of equal shape have their strings at the same locations. */
  lemma {:induction false} SameShapeSameStrings(x: Json, y: Json, loc: Loc)
    requires Shape(x) == Shape(y)
    ensures At(x, loc).Some? <==> At(y, loc).Some?
    ensures At(x, loc).Some? ==> (At(x, loc).value.Str? <==> At(y, loc).value.Str?)
  {
    ShapeAt(x, loc);
    ShapeAt(y, loc);
  }

  /** Replacing one string by another keeps the shape. */
  lemma {:induction false} PutStringKeepsShape(j: Json, loc: Loc, t: string)
    requires At(j, loc).Some? && At(j, loc).value.Str?
    ensures Shape(Put(j, loc, Str(t))) == Shape(j)
    decreases |loc|
  {
    if loc != [] {
      var c := Child(j, loc[0]).value;
      PutStringKeepsShape(c, loc[1..], t);
      var r := Put(j, loc, Str(t));
      match loc[0]
      case Key(k) =>
        assert r == Obj(j.fields[k := Put(c, loc[1..], Str(t))]);
        assert Shape(r).fields == Shape(j).fields;
      case Pos(i) =>
        assert r == Arr(j.items[i := Put(c, loc[1..], Str(t))]);
        assert Shape(r).items == Shape(j).items;
    }
  }

  /** A value is determined by its shape and the strings at its string leaves. */
  lemma {:induction false} SameShapeAndStrings(x: Json, y: Json)
    requires Shape(x) == Shape(y)
    requires forall loc, s :: At(x, loc) == Some(Str(s)) ==> At(y, loc) == Some(Str(s))
    ensures x == y
    decreases x
  {
    match x
    case Str(s) =>
      assert At(x, []) == Some(Str(s));
    case Arr(xs) =>
      var ys := y.items;
      assert |xs| == |Shape(x).items| == |Shape(y).items| == |ys|;
      forall i | 0 <= i < |xs| ensures xs[i] == ys[i] {
        assert Shape(xs[i]) == Shape(x).items[i] == Shape(y).items[i] == Shape(ys[i]);
        forall loc, s | At(xs[i], loc) == Some(Str(s)) ensures At(ys[i], loc) == Some(Str(s)) {
          assert At(x, [Pos(i)] + loc) == At(xs[i], loc);
          assert At(y, [Pos(i)] + loc) == At(ys[i], loc);
        }
        SameShapeAndStrings(xs[i], ys[i]);
      }
    case Obj(m) =>
      var n := y.fields;
      assert m.Keys == Shape(x).fields.Keys == Shape(y).fields.Keys == n.Keys;
      forall k | k in m ensures m[k] == n[k] {
        assert Shape(m[k]) == Shape(x).fields[k] == Shape(y).fields[k] == Shape(n[k]);
        forall loc, s | At(m[k], loc) == Some(Str(s)) ensures At(n[k], loc) == Some(Str(s)) {
          assert At(x, [Key(k)] + loc) == At(m[k], loc);
          assert At(y, [Key(k)] + loc) == At(n[k], loc);
        }
        SameShapeAndStrings(m[k], n[k]);
      }
    case _ =>
  }

  // ---------------------------------------------------------------------
  // getNestedProperty / setNestedProperty
  // ---------------------------------------------------------------------

  /** The location a list of object keys denotes. */
  function KeyLoc(keys: seq<string>): (loc: Loc)
    ensures |loc| == |keys|
    decreases |keys|
  {
    if keys == [] then [] else [Key(keys[0])] + KeyLoc(keys[1..])
  }

  /** Step `i` of the location is key `i`. */
  lemma {:induction false} KeyLocAt(keys: seq<string>, i: nat)
    requires i < |keys|
    ensures KeyLoc(keys)[i] == Key(keys[i])
    decreases |keys|
  {
    if i > 0 {
      KeyLocAt(keys[1..], i - 1);
    }
  }

  /**
   * `keys.reduce((current, key) => current?.[key], obj)`: descend through
   * object keys; `undefined` (`None`) as soon as a key is missing or the
   * current value is not an object.
   */
  function GetPath(j: Json, keys: seq<string>): Option<Json>
    decreases |keys|
  {
    if keys == [] then Some(j)
    else if j.Obj? && keys[0] in j.fields then GetPath(j.fields[keys[0]], keys[1..])
    else None
  }

  /** `getNestedProperty(obj, path)`: split the path on dots, then descend. */
  function GetNested(j: Json, path: string): Option<Json> {
    GetPath(j, Split(path, '.'))
  }

  /** Descending through keys is following their location. */
  lemma {:induction false} GetPathAt(j: Json, keys: seq<string>)
    ensures GetPath(j, keys) == At(j, KeyLoc(keys))
    decreases |keys|
  {
    if keys != [] {
      assert KeyLoc(keys)[1..] == KeyLoc(keys[1..]);
      if j.Obj? && keys[0] in j.fields {
        GetPathAt(j.fields[keys[0]], keys[1..]);
      }
    }
  }

  /** Once a prefix of the path is missing, the whole path is missing. */
  lemma {:induction false} GetPathMissingPrefix(j: Json, keys: seq<string>, n: nat)
    requires n <= |keys| && GetPath(j, keys[..n]) == None
    ensures GetPath(j, keys) == None
    decreases n
  {
    assert n > 0;
    if j.Obj? && keys[0] in j.fields {
      assert keys[..n][1..] == keys[1..][..n - 1];
      GetPathMissingPrefix(j.fields[keys[0]], keys[1..], n - 1);
    }
  }

  /**
   * The intermediate value `setNestedProperty` descends into:
   * `if (!current[key]) current[key] = {}; return current[key]`.
   */
  function ChildForWrite(m: map<string, Json>, key: string): Json {
    if key in m && Truthy(m[key]) then m[key] else Obj(map[])
  }

  /**
   * `setNestedProperty` on a split path: walk the leading keys, replacing a
   * missing or falsy intermediate by a new empty object, then assign the last
   * key. Where the walk meets a truthy value that is not an object, the value
   * is left as it is.
   */
  function SetPath(j: Json, keys: seq<string>, v: Json): Json
    requires |keys| >= 1
    decreases |keys|
  {
    if !j.Obj? then j
    else if |keys| == 1 then Obj(j.fields[keys[0] := v])
    else Obj(j.fields[keys[0] := SetPath(ChildForWrite(j.fields, keys[0]), keys[1..], v)])
  }

  /** `setNestedProperty(obj, path, value)`. */
  function SetNested(j: Json, path: string, v: Json): Json {
    SetPath(j, Split(path, '.'), v)
  }

  /** The walk of `setNestedProperty` meets only objects, missing keys and falsy values. */
  predicate Settable(j: Json, keys: seq<string>)
    requires |keys| >= 1
    decreases |keys|
  {
    j.Obj? && (|keys| > 1 ==> Settable(ChildForWrite(j.fields, keys[0]), keys[1..]))
  }

  /** Get after set: the path then holds the value written. */
  lemma {:induction false} GetAfterSet(j: Json, keys: seq<string>, v: Json)
    requires |keys| >= 1 && Settable(j, keys)
    ensures GetPath(SetPath(j, keys, v), keys) == Some(v)
    decreases |keys|
  {
    if |keys| > 1 {
      GetAfterSet(ChildForWrite(j.fields, keys[0]), keys[1..], v);
    }
  }

  /** The nested singleton objects that spell out `keys`, holding `v` at the end. */
  function Chain(keys: seq<string>, v: Json): Json
    requires |keys| >= 1
    decreases |keys|
  {
    if |keys| == 1 then Obj(map[keys[0] := v]) else Obj(map[keys[0] := Chain(keys[1..], v)])
  }

  /** Missing intermediates are created as empty objects: a write into `{}` builds the chain. */
  lemma {:induction false} SetIntoEmpty(keys: seq<string>, v: Json)
    requires |keys| >= 1
    ensures SetPath(Obj(map[]), keys, v) == Chain(keys, v)
    ensures Settable(Obj(map[]), keys)
    decreases |keys|
  {
    if |keys| > 1 {
      SetIntoEmpty(keys[1..], v);
      assert ChildForWrite(map[], keys[0]) == Obj(map[]);
    }
  }

  /** A write leaves every path that parts from the written one as it was. */
  lemma {:induction false} SetElsewhere(j: Json, keys: seq<string>, v: Json, other: seq<string>)
    requires |keys| >= 1 && Diverges(KeyLoc(keys), KeyLoc(other))
    ensures GetPath(SetPath(j, keys, v), other) == GetPath(j, other)
    decreases |keys|
  {
    if j.Obj? && keys[0] == other[0] {
      assert KeyLoc(keys)[1..] == KeyLoc(keys[1..]) && KeyLoc(other)[1..] == KeyLoc(other[1..]);
      var c := ChildForWrite(j.fields, keys[0]);
      SetElsewhere(c, keys[1..], v, other[1..]);
      if !(keys[0] in j.fields && Truthy(j.fields[keys[0]])) && |other| > 1 {
        // The write replaced a missing or falsy value by a new object: the
        // other path found nothing before and finds nothing in the fresh one.
        SetIntoEmpty(keys[1..], v);
        ChainElsewhere(keys[1..], v, other[1..]);
        if keys[0] in j.fields {
          assert !j.fields[keys[0]].Obj?;
        }
      }
    }
  }

  /** A chain holds nothing at paths that part from it. */
  lemma {:induction false} ChainElsewhere(keys: seq<string>, v: Json, other: seq<string>)
    requires |keys| >= 1 && Diverges(KeyLoc(keys), KeyLoc(other))
    ensures GetPath(Chain(keys, v), other) == GetPath(Obj(map[]), other)
    decreases |keys|
  {
    if keys[0] == other[0] {
      assert KeyLoc(keys)[1..] == KeyLoc(keys[1..]) && KeyLoc(other)[1..] == KeyLoc(other[1..]);
      assert |keys| > 1 && |other| > 1;
      ChainElsewhere(keys[1..], v, other[1..]);
    }
  }

  /** On a path that already exists, `setNestedProperty` is a plain replacement. */
  lemma {:induction false} SetExistingIsPut(j: Json, keys: seq<string>, v: Json)
    requires |keys| >= 1 && GetPath(j, keys).Some?
    ensures SetPath(j, keys, v) == Put(j, KeyLoc(keys), v)
    decreases |keys|
  {
    assert KeyLoc(keys)[0] == Key(keys[0]) && KeyLoc(keys)[1..] == KeyLoc(keys[1..]);
    if |keys| > 1 {
      var c := j.fields[keys[0]];
      assert c.Obj? && Truthy(c);
      SetExistingIsPut(c, keys[1..], v);
    } else {
      assert KeyLoc(keys)[1..] == [];
    }
  }
}
