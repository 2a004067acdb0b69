/**
 * `extractTranslatableText` of src/utils/translationHelpers.ts: walk a value,
 * report every non-blank string together with the path at which it was found
 * (`a.b` below object keys, `a[0]` below array positions), and keep only the
 * strings whose path contains one of the requested fields, if any are given.
 *
 * The walk is specified against locations (`Loc`): the records reported are
 * exactly the extracted strings, each once, in depth-first order; only the
 * order of an object's keys is left open.
 */
module TextExtraction {
  import opened Common
  import opened Text
  import opened JsonPath

  /** One `{ text, path }` record. */
  datatype Found = Found(text: string, path: string)

  /** `${currentPath}[${index}]`. */
  function IndexPath(path: string, i: nat): string {
    path + "[" + NatToString(i) + "]"
  }

  /** `currentPath ? `${currentPath}.${key}` : key`. */
  function KeyPath(path: string, key: string): string {
    if path == "" then key else path + "." + key
  }

  /** The path reported one step below a value reported at `path`. */
  function StepPath(path: string, s: Step): string {
    match s
    case Key(k) => KeyPath(path, k)
    case Pos(i) => IndexPath(path, i)
  }

  /** The path reported for the value at `loc` below a value reported at `path`. */
  function PathOf(path: string, loc: Loc): string
    decreases |loc|
  {
    if loc == [] then path else PathOf(StepPath(path, loc[0]), loc[1..])
  }

  /** `fieldsToExtract.length === 0 || fieldsToExtract.some(field => currentPath.includes(field))`. */
  predicate Wanted(path: string, fields: seq<string>) {
    |fields| == 0 || exists f :: f in fields && Contains(path, f)
  }

  /** The string at `loc`, if the value there is one. */
  function TextAt(j: Json, loc: Loc): Option<string> {
    match At(j, loc)
    case Some(Str(s)) => Some(s)
    case _ => None
  }

  /** The string at `loc` below a value reported at `path` is reported: it is not blank and its path is wanted. */
  predicate Extracted(j: Json, path: string, fields: seq<string>, loc: Loc) {
    TextAt(j, loc).Some? && !IsBlank(TextAt(j, loc).value) && Wanted(PathOf(path, loc), fields)
  }

  /** The record reported for the string at `loc`. */
  function Record(j: Json, path: string, loc: Loc): Found {
    Found(if TextAt(j, loc).Some? then TextAt(j, loc).value else "", PathOf(path, loc))
  }

  /** `out` holds, in order, the records of the reported strings at the distinct locations `found`. */
  ghost predicate Records(j: Json, path: string, fields: seq<string>, found: seq<Loc>, out: seq<Found>) {
    |out| == |found|
    && (forall i :: 0 <= i < |found| ==> Extracted(j, path, fields, found[i]) && out[i] == Record(j, path, found[i]))
    && (forall a, b :: 0 <= a < b < |found| ==> found[a] != found[b])
  }

  /** Every reported string is at one of `found`. */
  ghost predicate Covers(j: Json, path: string, fields: seq<string>, found: seq<Loc>) {
    forall loc :: Extracted(j, path, fields, loc) ==> loc in found
  }

  /** Every reported string below one of the child steps `done` is at one of `found`. */
  ghost predicate CoversBelow(j: Json, path: string, fields: seq<string>, found: seq<Loc>, done: set<Step>) {
    forall loc :: Extracted(j, path, fields, loc) && |loc| > 0 && loc[0] in done ==> loc in found
  }

  /** Each of `found` starts with one of the steps `steps`. */
  ghost predicate StartIn(found: seq<Loc>, steps: set<Step>) {
    forall i :: 0 <= i < |found| ==> |found[i]| > 0 && found[i][0] in steps
  }

  /** The locations `locs` moved one step `s` down. */
  function Under(s: Step, locs: seq<Loc>): (r: seq<Loc>)
    ensures |r| == |locs|
    decreases |locs|
  {
    if locs == [] then [] else Under(s, locs[..|locs| - 1]) + [[s] + locs[|locs| - 1]]
  }

  lemma {:induction false} UnderAt(s: Step, locs: seq<Loc>, i: nat)
    requires i < |locs|
    ensures Under(s, locs)[i] == [s] + locs[i]
    decreases |locs|
  {
    if i < |locs| - 1 {
      UnderAt(s, locs[..|locs| - 1], i);
      assert locs[..|locs| - 1][i] == locs[i];
    }
  }

  // ---------------------------------------------------------------------
  // Facts about one step of the walk
  // ---------------------------------------------------------------------

  /** Below a child, what is reported and at which path continues from the child. */
  lemma {:induction false} BelowChild(j: Json, s: Step, path: string, fields: seq<string>, loc: Loc)
    requires Child(j, s).Some?
    ensures Extracted(j, path, fields, [s] + loc) <==> Extracted(Child(j, s).value, StepPath(path, s), fields, loc)
    ensures Record(j, path, [s] + loc) == Record(Child(j, s).value, StepPath(path, s), loc)
  {
    assert ([s] + loc)[0] == s && ([s] + loc)[1..] == loc;
  }

  /** The records of a child are records of the parent, one step down. */
  lemma {:induction false} RecordsUnder(j: Json, s: Step, path: string, fields: seq<string>, sub: seq<Loc>, out: seq<Found>)
    requires Child(j, s).Some?
    requires Records(Child(j, s).value, StepPath(path, s), fields, sub, out)
    ensures Records(j, path, fields, Under(s, sub), out)
    ensures StartIn(Under(s, sub), {s})
  {
    var found := Under(s, sub);
    forall i | 0 <= i < |found|
      ensures Extracted(j, path, fields, found[i]) && out[i] == Record(j, path, found[i])
      ensures |found[i]| > 0 && found[i][0] in {s}
    {
      UnderAt(s, sub, i);
      BelowChild(j, s, path, fields, sub[i]);
    }
    forall a, b | 0 <= a < b < |found| ensures found[a] != found[b] {
      UnderAt(s, sub, a);
      UnderAt(s, sub, b);
      assert found[a][1..] == sub[a] && found[b][1..] == sub[b];
    }
  }

  /** A child that covers its own reported strings covers those of the parent below it. */
  lemma {:induction false} CoversUnder(j: Json, s: Step, path: string, fields: seq<string>, sub: seq<Loc>)
    requires Child(j, s).Some?
    requires Covers(Child(j, s).value, StepPath(path, s), fields, sub)
    ensures CoversBelow(j, path, fields, Under(s, sub), {s})
  {
    forall loc | Extracted(j, path, fields, loc) && |loc| > 0 && loc[0] in {s} ensures loc in Under(s, sub) {
      var rest := loc[1..];
      assert loc == [s] + rest;
      BelowChild(j, s, path, fields, rest);
      var i :| 0 <= i < |sub| && sub[i] == rest;
      UnderAt(s, sub, i);
    }
  }

  /** Records below disjoint sets of child steps can be put one after the other. */
  lemma {:induction false} RecordsAppend(j: Json, path: string, fields: seq<string>,
                                         f1: seq<Loc>, o1: seq<Found>, a1: set<Step>,
                                         f2: seq<Loc>, o2: seq<Found>, a2: set<Step>)
    requires Records(j, path, fields, f1, o1) && StartIn(f1, a1)
    requires Records(j, path, fields, f2, o2) && StartIn(f2, a2)
    requires a1 !! a2
    ensures Records(j, path, fields, f1 + f2, o1 + o2) && StartIn(f1 + f2, a1 + a2)
  {
    var f := f1 + f2;
    var o := o1 + o2;
    forall i | 0 <= i < |f|
      ensures Extracted(j, path, fields, f[i]) && o[i] == Record(j, path, f[i])
      ensures |f[i]| > 0 && f[i][0] in a1 + a2
    {
      if i < |f1| {
        assert f[i] == f1[i] && o[i] == o1[i];
      } else {
        assert f[i] == f2[i - |f1|] && o[i] == o2[i - |f1|];
      }
    }
    forall a, b | 0 <= a < b < |f| ensures f[a] != f[b] {
      if b < |f1| {
        assert f[a] == f1[a] && f[b] == f1[b];
      } else if a >= |f1| {
        assert f[a] == f2[a - |f1|] && f[b] == f2[b - |f1|];
      } else {
        assert f[a] == f1[a] && f[b] == f2[b - |f1|];
        assert f[a][0] in a1 && f[b][0] in a2;
      }
    }
  }

  // ---------------------------------------------------------------------
  // Traversal order
  // ---------------------------------------------------------------------

  /** `p` and `q` both have at least `n` steps and agree on the first `n`. */
  predicate SharePrefix(p: Loc, q: Loc, n: nat) {
    n <= |p| && n <= |q| && p[..n] == q[..n]
  }

  /**
   * `found` lists locations in the order of a depth-first walk: whatever lies
   * below one place comes in one contiguous run, and the positions of an
   * array come in index order.
   */
  ghost predicate DepthFirst(found: seq<Loc>) {
    (forall a, b, c, n: nat :: 0 <= a < b < c < |found| && SharePrefix(found[a], found[c], n)
       ==> SharePrefix(found[a], found[b], n))
    && (forall a, b, n: nat :: 0 <= a < b < |found| && SharePrefix(found[a], found[b], n)
          && n < |found[a]| && n < |found[b]| && found[a][n].Pos? && found[b][n].Pos?
          ==> found[a][n].index <= found[b][n].index)
  }

  /** Two locations one step `s` down agree on `n + 1` steps iff they agreed on `n`. */
  lemma {:induction false} ConsSharePrefix(s: Step, x: Loc, y: Loc, n: nat)
    ensures SharePrefix([s] + x, [s] + y, n + 1) <==> SharePrefix(x, y, n)
  {
    if n <= |x| && n <= |y| {
      assert ([s] + x)[..n + 1] == [s] + x[..n];
      assert ([s] + y)[..n + 1] == [s] + y[..n];
      if ([s] + x)[..n + 1] == ([s] + y)[..n + 1] {
        assert x[..n] == ([s] + x)[..n + 1][1..];
      }
    }
  }

  /** Locations that agree on at least one step start with the same step. */
  lemma {:induction false} SharePrefixHead(p: Loc, q: Loc, n: nat)
    requires n > 0 && SharePrefix(p, q, n)
    ensures |p| > 0 && |q| > 0 && p[0] == q[0]
  {
    assert p[0] == p[..n][0] && q[0] == q[..n][0];
  }

  /**
   * A child's depth-first run, moved below the step `s`, can follow the runs
   * of the children `done` when `s` is new and, for an array, comes after
   * every position already walked.
   */
  lemma {:induction false} DepthFirstAppend(found: seq<Loc>, done: set<Step>, s: Step, sub: seq<Loc>)
    requires DepthFirst(found) && StartIn(found, done) && s !in done
    requires forall t :: t in done && t.Pos? && s.Pos? ==> t.index < s.index
    requires DepthFirst(sub)
    ensures DepthFirst(found + Under(s, sub))
  {
    var g := found + Under(s, sub);
    var k := |found|;
    forall i | k <= i < |g| ensures g[i] == [s] + sub[i - k] {
      UnderAt(s, sub, i - k);
    }
    forall a, b, c, n: nat | 0 <= a < b < c < |g| && SharePrefix(g[a], g[c], n)
      ensures SharePrefix(g[a], g[b], n)
    {
      if n == 0 {
      } else if c < k {
        assert g[a] == found[a] && g[b] == found[b] && g[c] == found[c];
      } else if a < k {
        assert g[a] == found[a] && found[a][0] in done;
        SharePrefixHead(g[a], g[c], n);
        assert false;
      } else {
        ConsSharePrefix(s, sub[a - k], sub[c - k], n - 1);
        ConsSharePrefix(s, sub[a - k], sub[b - k], n - 1);
      }
    }
    forall a, b, n: nat | 0 <= a < b < |g| && SharePrefix(g[a], g[b], n)
        && n < |g[a]| && n < |g[b]| && g[a][n].Pos? && g[b][n].Pos?
      ensures g[a][n].index <= g[b][n].index
    {
      if b < k {
        assert g[a] == found[a] && g[b] == found[b];
      } else if a < k {
        if n == 0 {
          assert g[a][0] == found[a][0] && found[a][0] in done && g[b][0] == s;
        } else {
          assert g[a] == found[a] && found[a][0] in done;
          SharePrefixHead(g[a], g[b], n);
          assert false;
        }
      } else if n > 0 {
        ConsSharePrefix(s, sub[a - k], sub[b - k], n - 1);
        assert g[a][n] == sub[a - k][n - 1] && g[b][n] == sub[b - k][n - 1];
      }
    }
  }

  /** In a list of distinct positions in increasing order, the position at `k` is at least `k`. */
  lemma {:induction false} IncreasingFromZero(found: seq<Loc>, k: nat)
    requires forall i :: 0 <= i < |found| ==> |found[i]| == 1 && found[i][0].Pos?
    requires forall a, b :: 0 <= a < b < |found| ==> found[a][0].index < found[b][0].index
    requires k < |found|
    ensures found[k][0].index >= k
    decreases k
  {
    if k > 0 {
      IncreasingFromZero(found, k - 1);
    }
  }

  /**
   * Distinct positions below `n`, in increasing order, with every position
   * below `n` present, are the positions `0 .. n - 1` in turn.
   */
  lemma {:induction false} AllPositionsInTurn(found: seq<Loc>, n: nat, k: nat)
    requires forall i :: 0 <= i < |found| ==> |found[i]| == 1 && found[i][0].Pos? && found[i][0].index < n
    requires forall a, b :: 0 <= a < b < |found| ==> found[a][0].index < found[b][0].index
    requires forall i :: 0 <= i < n ==> [Pos(i)] in found
    requires k < n
    ensures k < |found| && found[k] == [Pos(k)]
    decreases k
  {
    if k > 0 {
      AllPositionsInTurn(found, n, k - 1);
    }
    var p :| 0 <= p < |found| && found[p] == [Pos(k)];
    if p < k {
      AllPositionsInTurn(found, n, p);
      assert false;
    }
    IncreasingFromZero(found, k);
    assert found[k] == [found[k][0]];
  }

  /** In an array of strings, a reported string sits one position down. */
  lemma {:induction false} StringArrayLoc(ys: seq<Json>, path: string, fields: seq<string>, loc: Loc)
    requires forall i :: 0 <= i < |ys| ==> ys[i].Str?
    requires Extracted(Arr(ys), path, fields, loc)
    ensures |loc| == 1 && loc[0].Pos? && loc[0].index < |ys|
  {
    assert loc != [];
    var c := Child(Arr(ys), loc[0]).value;
    assert At(Arr(ys), loc) == At(c, loc[1..]);
  }

  /** With no field filter, every non-blank string of an array is reported, at `path[k]`. */
  lemma {:induction false} StringArrayElement(ys: seq<Json>, path: string, k: nat)
    requires k < |ys| && ys[k].Str? && !IsBlank(ys[k].s)
    ensures Extracted(Arr(ys), path, [], [Pos(k)])
    ensures Record(Arr(ys), path, [Pos(k)]) == Found(ys[k].s, IndexPath(path, k))
  {
    assert [Pos(k)][1..] == [];
    assert At(Arr(ys), [Pos(k)]) == Some(ys[k]);
    assert PathOf(path, [Pos(k)]) == PathOf(IndexPath(path, k), []);
  }

  /** Distinct one-step positions listed depth-first are in increasing order. */
  lemma {:induction false} DepthFirstPositions(found: seq<Loc>)
    requires forall i :: 0 <= i < |found| ==> |found[i]| == 1 && found[i][0].Pos?
    requires forall a, b :: 0 <= a < b < |found| ==> found[a] != found[b]
    requires DepthFirst(found)
    ensures forall a, b :: 0 <= a < b < |found| ==> found[a][0].index < found[b][0].index
  {
    forall a, b | 0 <= a < b < |found| ensures found[a][0].index < found[b][0].index {
      assert SharePrefix(found[a], found[b], 0);
      assert found[a] == [found[a][0]] && found[b] == [found[b][0]];
    }
  }

  /**
   * For an array of non-blank strings and no field filter, the records of a
   * depth-first walk are the elements in index order, each at `path[i]`.
   */
  lemma {:induction false} StringArrayInOrder(ys: seq<Json>, path: string, found: seq<Loc>, out: seq<Found>)
    requires forall i :: 0 <= i < |ys| ==> ys[i].Str? && !IsBlank(ys[i].s)
    requires Records(Arr(ys), path, [], found, out) && Covers(Arr(ys), path, [], found) && DepthFirst(found)
    ensures |out| == |ys|
    ensures forall k :: 0 <= k < |ys| ==> out[k] == Found(ys[k].s, IndexPath(path, k))
  {
    assert |out| == |found|;
    forall i | 0 <= i < |found|
      ensures |found[i]| == 1 && found[i][0].Pos? && found[i][0].index < |ys|
    {
      StringArrayLoc(ys, path, [], found[i]);
    }
    forall k | 0 <= k < |ys| ensures [Pos(k)] in found {
      StringArrayElement(ys, path, k);
    }
    DepthFirstPositions(found);
    forall k | 0 <= k < |ys| ensures k < |found| && found[k] == [Pos(k)] {
      AllPositionsInTurn(found, |ys|, k);
    }
    if |found| > |ys| {
      IncreasingFromZero(found, |ys|);
      assert false;
    }
    if |ys| > 0 {
      AllPositionsInTurn(found, |ys|, |ys| - 1);
    }
    forall k | 0 <= k < |ys| ensures out[k] == Found(ys[k].s, IndexPath(path, k)) {
      StringArrayElement(ys, path, k);
    }
  }

  /**
   * Walking one more child `s` of `j`: from records `out[|texts|..]` at
   * `found`, covering the children `done`, to records `out2[|texts|..]` at
   * `found + Under(s, sub)`, covering `done + {s}`.
   */
  lemma {:induction false} ChildStep(j: Json, s: Step, path: string, fields: seq<string>,
                                     texts: seq<Found>, out: seq<Found>, found: seq<Loc>, done: set<Step>,
                                     c: Json, cpath: string, out2: seq<Found>, sub: seq<Loc>)
    requires Child(j, s) == Some(c) && StepPath(path, s) == cpath && s !in done
    requires |texts| <= |out| && out[..|texts|] == texts
    requires Records(j, path, fields, found, out[|texts|..]) && StartIn(found, done)
    requires CoversBelow(j, path, fields, found, done)
    requires |out| <= |out2| && out2[..|out|] == out
    requires Records(c, cpath, fields, sub, out2[|out|..])
    requires Covers(c, cpath, fields, sub)
    ensures out2[..|texts|] == texts
    ensures Records(j, path, fields, found + Under(s, sub), out2[|texts|..])
    ensures StartIn(found + Under(s, sub), done + {s})
    ensures CoversBelow(j, path, fields, found + Under(s, sub), done + {s})
  {
    RecordsUnder(j, s, path, fields, sub, out2[|out|..]);
    RecordsAppend(j, path, fields, found, out[|texts|..], done, Under(s, sub), out2[|out|..], {s});
    SuffixAfterPush(texts, out, out2);
    CoversUnder(j, s, path, fields, sub);
    CoversJoin(j, path, fields, found, done, Under(s, sub), {s});
  }

  /** What a walk appends after `texts` is what it appended before plus what the last child appended. */
  lemma {:induction false} SuffixAfterPush(texts: seq<Found>, out: seq<Found>, out2: seq<Found>)
    requires |texts| <= |out| && out[..|texts|] == texts
    requires |out| <= |out2| && out2[..|out|] == out
    ensures out2[..|texts|] == texts
    ensures out2[|texts|..] == out[|texts|..] + out2[|out|..]
  {
    assert out2[..|texts|] == out2[..|out|][..|texts|];
  }

  /** Coverage below disjoint sets of child steps adds up. */
  lemma {:induction false} CoversJoin(j: Json, path: string, fields: seq<string>,
                                      f1: seq<Loc>, a1: set<Step>, f2: seq<Loc>, a2: set<Step>)
    requires CoversBelow(j, path, fields, f1, a1) && CoversBelow(j, path, fields, f2, a2)
    ensures CoversBelow(j, path, fields, f1 + f2, a1 + a2)
  {
    forall loc | Extracted(j, path, fields, loc) && |loc| > 0 && loc[0] in a1 + a2 ensures loc in f1 + f2 {
      if loc[0] in a1 {
        assert loc in f1;
      } else {
        assert loc in f2;
      }
    }
  }

  /** Once every child has been walked, every reported string is covered. */
  lemma {:induction false} CoversAll(j: Json, path: string, fields: seq<string>, found: seq<Loc>, done: set<Step>)
    requires j.Arr? || j.Obj?
    requires CoversBelow(j, path, fields, found, done)
    requires forall s :: Child(j, s).Some? ==> s in done
    ensures Covers(j, path, fields, found)
  {
    forall loc | Extracted(j, path, fields, loc) ensures loc in found {
      assert loc != [];
      assert Child(j, loc[0]).Some?;
    }
  }

  /** A string reports itself, at its own path, when it is not blank and the path is wanted. */
  lemma {:induction false} StringReports(s: string, path: string, fields: seq<string>)
    ensures forall loc :: Extracted(Str(s), path, fields, loc) <==> loc == [] && !IsBlank(s) && Wanted(path, fields)
    ensures Record(Str(s), path, []) == Found(s, path)
  {
    forall loc | loc != [] ensures At(Str(s), loc) == None {
    }
  }

  /** `null`, booleans and numbers report nothing. */
  lemma {:induction false} ScalarReportsNothing(j: Json, path: string, fields: seq<string>)
    requires j.Null? || j.Bool? || j.Num?
    ensures Covers(j, path, fields, [])
  {
    forall loc | Extracted(j, path, fields, loc) ensures false {
    }
  }

  // ---------------------------------------------------------------------
  // The walk
  // ---------------------------------------------------------------------

  /** `extractFromObject(current, currentPath)`, pushing onto `texts`. */
  method ExtractFrom(current: Json, path: string, fields: seq<string>, texts: seq<Found>)
    returns (out: seq<Found>, ghost found: seq<Loc>)
    ensures |texts| <= |out| && out[..|texts|] == texts
    ensures Records(current, path, fields, found, out[|texts|..])
    ensures Covers(current, path, fields, found)
    ensures DepthFirst(found)
    decreases current, 1
  {
    match current {
      case Str(s) =>
        StringReports(s, path, fields);
        if !IsBlank(s) && Wanted(path, fields) {
          out, found := texts + [Found(s, path)], [[]];
          assert out[|texts|..] == [Found(s, path)];
        } else {
          out, found := texts, [];
        }
      case Arr(xs) =>
        out, found := ExtractItems(xs, path, fields, texts);
      case Obj(m) =>
        out, found := ExtractFields(m, path, fields, texts);
      case _ =>
        ScalarReportsNothing(current, path, fields);
        out, found := texts, [];
    }
  }

  /** The steps to the first `n` array positions. */
  function Positions(n: nat): (r: set<Step>)
    ensures forall s :: s in r <==> s.Pos? && s.index < n
  {
    set i | 0 <= i < n :: Pos(i)
  }

  lemma {:induction false} PositionsNext(n: nat)
    ensures Positions(n) + {Pos(n)} == Positions(n + 1)
  {
    assert forall s :: s in Positions(n + 1) ==> s in Positions(n) + {Pos(n)};
  }

  /** One more array position walked. */
  lemma {:induction false} ItemStep(xs: seq<Json>, path: string, fields: seq<string>, texts: seq<Found>,
                                    out: seq<Found>, found: seq<Loc>, index: nat, out2: seq<Found>, sub: seq<Loc>)
    requires index < |xs|
    requires |texts| <= |out| && out[..|texts|] == texts
    requires Records(Arr(xs), path, fields, found, out[|texts|..]) && StartIn(found, Positions(index))
    requires CoversBelow(Arr(xs), path, fields, found, Positions(index))
    requires |out| <= |out2| && out2[..|out|] == out
    requires Records(xs[index], IndexPath(path, index), fields, sub, out2[|out|..])
    requires Covers(xs[index], IndexPath(path, index), fields, sub)
    requires DepthFirst(found) && DepthFirst(sub)
    ensures out2[..|texts|] == texts
    ensures Records(Arr(xs), path, fields, found + Under(Pos(index), sub), out2[|texts|..])
    ensures StartIn(found + Under(Pos(index), sub), Positions(index + 1))
    ensures CoversBelow(Arr(xs), path, fields, found + Under(Pos(index), sub), Positions(index + 1))
    ensures DepthFirst(found + Under(Pos(index), sub))
  {
    DepthFirstAppend(found, Positions(index), Pos(index), sub);
    PositionsNext(index);
    ChildStep(Arr(xs), Pos(index), path, fields, texts, out, found, Positions(index),
              xs[index], IndexPath(path, index), out2, sub);
  }

  /** Every array position walked, every string in the array is covered. */
  lemma {:induction false} ItemsDone(xs: seq<Json>, path: string, fields: seq<string>, found: seq<Loc>)
    requires CoversBelow(Arr(xs), path, fields, found, Positions(|xs|))
    ensures Covers(Arr(xs), path, fields, found)
  {
    CoversAll(Arr(xs), path, fields, found, Positions(|xs|));
  }

  /** `current.forEach((item, index) => extractFromObject(item, `${currentPath}[${index}]`))`. */
  method ExtractItems(xs: seq<Json>, path: string, fields: seq<string>, texts: seq<Found>)
    returns (out: seq<Found>, ghost found: seq<Loc>)
    ensures |texts| <= |out| && out[..|texts|] == texts
    ensures Records(Arr(xs), path, fields, found, out[|texts|..])
    ensures Covers(Arr(xs), path, fields, found)
    ensures DepthFirst(found)
    decreases Arr(xs), 0
  {
    out, found := texts, [];
    var index := 0;
    while index < |xs|
      invariant index <= |xs|
      invariant |texts| <= |out| && out[..|texts|] == texts
      invariant Records(Arr(xs), path, fields, found, out[|texts|..]) && StartIn(found, Positions(index))
      invariant CoversBelow(Arr(xs), path, fields, found, Positions(index))
      invariant DepthFirst(found)
    {
      var out2;
      ghost var sub;
      out2, sub := ExtractFrom(xs[index], IndexPath(path, index), fields, out);
      ItemStep(xs, path, fields, texts, out, found, index, out2, sub);
      out, found := out2, found + Under(Pos(index), sub);
      index := index + 1;
    }
    ItemsDone(xs, path, fields, found);
  }

  /** The steps to the keys of `m` outside `remaining`. */
  function KeysWalked(m: map<string, Json>, remaining: set<string>): (r: set<Step>)
    ensures forall s :: s in r <==> s.Key? && s.key in m && s.key !in remaining
  {
    set k | k in m && k !in remaining :: Key(k)
  }

  lemma {:induction false} KeysWalkedNext(m: map<string, Json>, remaining: set<string>, key: string)
    requires key in remaining && key in m
    ensures KeysWalked(m, remaining) + {Key(key)} == KeysWalked(m, remaining - {key})
  {
    assert forall s :: s in KeysWalked(m, remaining - {key}) ==> s in KeysWalked(m, remaining) + {Key(key)};
  }

  /** One more key walked. */
  lemma {:induction false} FieldStep(m: map<string, Json>, path: string, fields: seq<string>, texts: seq<Found>,
                                     out: seq<Found>, found: seq<Loc>, remaining: set<string>, key: string,
                                     out2: seq<Found>, sub: seq<Loc>)
    requires key in remaining && remaining <= m.Keys
    requires |texts| <= |out| && out[..|texts|] == texts
    requires Records(Obj(m), path, fields, found, out[|texts|..]) && StartIn(found, KeysWalked(m, remaining))
    requires CoversBelow(Obj(m), path, fields, found, KeysWalked(m, remaining))
    requires |out| <= |out2| && out2[..|out|] == out
    requires Records(m[key], KeyPath(path, key), fields, sub, out2[|out|..])
    requires Covers(m[key], KeyPath(path, key), fields, sub)
    requires DepthFirst(found) && DepthFirst(sub)
    ensures out2[..|texts|] == texts
    ensures Records(Obj(m), path, fields, found + Under(Key(key), sub), out2[|texts|..])
    ensures StartIn(found + Under(Key(key), sub), KeysWalked(m, remaining - {key}))
    ensures CoversBelow(Obj(m), path, fields, found + Under(Key(key), sub), KeysWalked(m, remaining - {key}))
    ensures DepthFirst(found + Under(Key(key), sub))
  {
    DepthFirstAppend(found, KeysWalked(m, remaining), Key(key), sub);
    KeysWalkedNext(m, remaining, key);
    ChildStep(Obj(m), Key(key), path, fields, texts, out, found, KeysWalked(m, remaining),
              m[key], KeyPath(path, key), out2, sub);
  }

  /** Every key walked, every string in the object is covered. */
  lemma {:induction false} FieldsDone(m: map<string, Json>, path: string, fields: seq<string>, found: seq<Loc>)
    requires CoversBelow(Obj(m), path, fields, found, KeysWalked(m, {}))
    ensures Covers(Obj(m), path, fields, found)
  {
    CoversAll(Obj(m), path, fields, found, KeysWalked(m, {}));
  }

  /** `Object.entries(current).forEach(([key, value]) => extractFromObject(value, newPath))`. */
  method ExtractFields(m: map<string, Json>, path: string, fields: seq<string>, texts: seq<Found>)
    returns (out: seq<Found>, ghost found: seq<Loc>)
    ensures |texts| <= |out| && out[..|texts|] == texts
    ensures Records(Obj(m), path, fields, found, out[|texts|..])
    ensures Covers(Obj(m), path, fields, found)
    ensures DepthFirst(found)
    decreases Obj(m), 0
  {
    out, found := texts, [];
    var remaining := m.Keys;
    assert KeysWalked(m, remaining) == {};
    while remaining != {}
      invariant remaining <= m.Keys
      invariant |texts| <= |out| && out[..|texts|] == texts
      invariant Records(Obj(m), path, fields, found, out[|texts|..]) && StartIn(found, KeysWalked(m, remaining))
      invariant CoversBelow(Obj(m), path, fields, found, KeysWalked(m, remaining))
      invariant DepthFirst(found)
      decreases remaining
    {
      var key :| key in remaining;
      var out2;
      ghost var sub;
      out2, sub := ExtractFrom(m[key], KeyPath(path, key), fields, out);
      FieldStep(m, path, fields, texts, out, found, remaining, key, out2, sub);
      out, found := out2, found + Under(Key(key), sub);
      remaining := remaining - {key};
    }
    FieldsDone(m, path, fields, found);
  }

  /** `r` is the record of some string of `j` that is reported, paths starting from the empty path. */
  ghost predicate Reported(j: Json, fields: seq<string>, r: Found) {
    exists loc :: Extracted(j, "", fields, loc) && r == Record(j, "", loc)
  }

  /**
   * `extractTranslatableText(obj, fieldsToExtract)`: the records of exactly
   * the reported strings of `obj`, each once, paths starting from the empty
   * path.
   */
  method ExtractTranslatableText(obj: Json, fields: seq<string>) returns (texts: seq<Found>, ghost found: seq<Loc>)
    ensures Records(obj, "", fields, found, texts)
    ensures Covers(obj, "", fields, found)
    ensures DepthFirst(found)
    ensures forall k :: 0 <= k < |texts| ==> Reported(obj, fields, texts[k])
    ensures forall loc :: Extracted(obj, "", fields, loc) ==> Record(obj, "", loc) in texts
  {
    texts, found := ExtractFrom(obj, "", fields, []);
    assert texts[0..] == texts;
    forall k | 0 <= k < |texts|
      ensures Reported(obj, fields, texts[k])
    {
      assert Extracted(obj, "", fields, found[k]) && texts[k] == Record(obj, "", found[k]);
    }
    forall loc | Extracted(obj, "", fields, loc)
      ensures Record(obj, "", loc) in texts
    {
      var i :| 0 <= i < |found| && found[i] == loc;
      assert texts[i] == Record(obj, "", loc);
    }
  }

  // ---------------------------------------------------------------------
  // Reported paths and `getNestedProperty`
  // ---------------------------------------------------------------------

  /** Below object keys only, the reported path is the keys joined with `.`. */
  lemma {:induction false} PathOfKeys(path: string, keys: seq<string>)
    requires |keys| >= 1 && (path != "" || keys[0] != "")
    ensures PathOf(path, KeyLoc(keys)) == KeyPath(path, Join(keys, '.'))
    decreases |keys|
  {
    var loc := KeyLoc(keys);
    KeyLocAt(keys, 0);
    assert loc[1..] == KeyLoc(keys[1..]);
    var next := KeyPath(path, keys[0]);
    if |keys| > 1 {
      PathOfKeys(next, keys[1..]);
      var rest := Join(keys[1..], '.');
      if path != "" {
        assert next + "." + rest == path + "." + (keys[0] + "." + rest);
      }
    }
  }

  /**
   * A path reported below object keys that are free of `.` (the first one not
   * empty) leads `getNestedProperty` back to the value it was reported for.
   */
  lemma {:induction false} ReportedPathLeadsBack(j: Json, keys: seq<string>)
    requires |keys| >= 1 && keys[0] != "" && NoSeparator(keys, '.')
    ensures GetNested(j, PathOf("", KeyLoc(keys))) == At(j, KeyLoc(keys))
  {
    PathOfKeys("", keys);
    SplitJoin(keys, '.');
    GetPathAt(j, keys);
  }
}
