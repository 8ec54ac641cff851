/**
 * The path codec of the tracker (tracker.py:65-93): `__flatten` turns a nested
 * dict into a flat dict keyed by '.'-joined key paths, and `__deflatten`
 * rebuilds the nesting from such paths.
 */
module PathCodec {
  import opened Values
  import opened Strings

  // ---------------------------------------------------------------------------
  // Paths into a nested dict
  // ---------------------------------------------------------------------------

  /** The value reached by following the key path `p` from `d`, if any. */
  function Lookup(d: Dict, p: seq<string>): Option<Value>
    decreases |p|
  {
    if p == [] || p[0] !in d then None
    else if |p| == 1 then Some(d[p[0]])
    else match d[p[0]]
      case Obj(c) => Lookup(c, p[1..])
      case _ => None
  }

  /** `p` leads from `d` to a value that is not a dict. */
  predicate IsLeafPath(d: Dict, p: seq<string>)
  {
    Lookup(d, p).Some? && !Lookup(d, p).value.Obj?
  }

  /** `p` is an initial segment of `q`. */
  predicate IsPrefix(p: seq<string>, q: seq<string>)
  {
    |p| <= |q| && q[..|p|] == p
  }

  // ---------------------------------------------------------------------------
  // __flatten (tracker.py:70-78)
  // ---------------------------------------------------------------------------

  /** `parent_key + sep + key if parent_key else key` (tracker.py:73). */
  function Join(parent: string, key: string): string
  {
    if parent != "" then parent + [Sep] + key else key
  }

  /** The flat key that tracker.py:73 builds for the path `p` below `parent`. */
  function Key(parent: string, p: seq<string>): string
    requires |p| >= 1
    decreases |p|
  {
    if |p| == 1 then Join(parent, p[0]) else Key(Join(parent, p[0]), p[1..])
  }

  /**
   * The items the loop of tracker.py:72-77 collects for the keys `ks` of `d`:
   * a dict value is flattened below its new key, any other value is kept
   * under it, and a later item overrides an earlier one with the same key.
   * Every value of the result is a non-dict.
   */
  function FlattenKeys(d: Dict, ks: set<string>, parent: string): (r: Dict)
    requires ks <= d.Keys
    ensures forall k :: k in r ==> !r[k].Obj?
    decreases Obj(d), |ks|
  {
    if ks == {} then map[]
    else
      var k := Least(ks);
      var here := match d[k]
        case Obj(c) => FlattenKeys(c, c.Keys, Join(parent, k))
        case _ => map[Join(parent, k) := d[k]];
      here + FlattenKeys(d, ks - {k}, parent)
  }

  /** `__flatten(d)` with the default empty parent key. */
  function Flatten(d: Dict): Dict
  {
    FlattenKeys(d, d.Keys, "")
  }

  /**
   * Every flat key comes from a path to a non-dict leaf, and holds that leaf;
   * so an empty nested dict contributes no key.
   */
  lemma {:induction false} FlattenSound(d: Dict, ks: set<string>, parent: string, k: string)
    requires ks <= d.Keys
    requires k in FlattenKeys(d, ks, parent)
    ensures exists p :: |p| >= 1 && p[0] in ks && IsLeafPath(d, p) && Key(parent, p) == k
                        && Lookup(d, p) == Some(FlattenKeys(d, ks, parent)[k])
    decreases Obj(d), |ks|
  {
    var kk := Least(ks);
    var rest := FlattenKeys(d, ks - {kk}, parent);
    var r := FlattenKeys(d, ks, parent);
    if k in rest {
      FlattenSound(d, ks - {kk}, parent, k);
      var p :| |p| >= 1 && p[0] in ks - {kk} && IsLeafPath(d, p) && Key(parent, p) == k
               && Lookup(d, p) == Some(rest[k]);
      assert r[k] == rest[k];
    } else {
      match d[kk]
      case Obj(c) =>
        var nk := Join(parent, kk);
        var inner := FlattenKeys(c, c.Keys, nk);
        assert k in inner && r[k] == inner[k];
        FlattenSound(c, c.Keys, nk, k);
        var q :| |q| >= 1 && q[0] in c.Keys && IsLeafPath(c, q) && Key(nk, q) == k
                 && Lookup(c, q) == Some(inner[k]);
        var p := [kk] + q;
        assert p[1..] == q;
        assert Lookup(d, p) == Lookup(c, q);
        assert Key(parent, p) == k;
      case _ =>
        var p := [kk];
        assert Lookup(d, p) == Some(d[kk]);
        assert Key(parent, p) == k;
    }
  }

  /** Every path to a non-dict leaf gives a flat key. */
  lemma {:induction false} FlattenComplete(d: Dict, ks: set<string>, parent: string, p: seq<string>)
    requires ks <= d.Keys
    requires |p| >= 1 && p[0] in ks && IsLeafPath(d, p)
    ensures Key(parent, p) in FlattenKeys(d, ks, parent)
    decreases Obj(d), |ks|
  {
    var kk := Least(ks);
    if p[0] == kk {
      if |p| > 1 {
        match d[kk]
        case Obj(c) =>
          assert Lookup(d, p) == Lookup(c, p[1..]);
          FlattenComplete(c, c.Keys, Join(parent, kk), p[1..]);
      }
    } else {
      FlattenComplete(d, ks - {kk}, parent, p);
    }
  }

  // ---------------------------------------------------------------------------
  // Records the codec inverts
  // ---------------------------------------------------------------------------

  /** A value that is not an empty dict and has no empty dict inside. */
  predicate DenseValue(v: Value)
    decreases v, 1
  {
    match v
    case Obj(c) => c != map[] && Dense(c)
    case _ => true
  }

  /** No dict nested inside `d` is empty. */
  predicate Dense(d: Dict)
    decreases Obj(d), 0
  {
    forall k :: k in d ==> DenseValue(d[k])
  }

  /** No key of `d`, at any depth, contains the separator. */
  predicate DotlessKeys(d: Dict)
    decreases Obj(d)
  {
    forall k :: k in d ==> Sep !in k && match d[k] case Obj(c) => DotlessKeys(c) case _ => true
  }

  /**
   * The records `__deflatten` rebuilds from their flattening: no key holds a
   * '.', no nested dict is empty, and a top-level key "" does not hold a dict
   * (tracker.py:73 treats an empty parent key as no parent at all).
   */
  predicate Plain(d: Dict)
  {
    Dense(d) && DotlessKeys(d) && ("" in d ==> !d[""].Obj?)
  }

  // ---------------------------------------------------------------------------
  // Facts about paths and flat keys
  // ---------------------------------------------------------------------------

  /** Below a non-empty parent, the flat key is the parent and the path joined by '.'. */
  lemma {:induction false} KeyBelow(parent: string, p: seq<string>)
    requires parent != "" && |p| >= 1
    ensures Key(parent, p) == parent + [Sep] + JoinPath(p)
    decreases |p|
  {
    if |p| > 1 {
      KeyBelow(parent + [Sep] + p[0], p[1..]);
      assert parent + [Sep] + p[0] + [Sep] + JoinPath(p[1..]) == parent + [Sep] + (p[0] + [Sep] + JoinPath(p[1..]));
    }
  }

  /** In a plain record, the flat key of a leaf path is the path joined by '.'. */
  lemma KeyTop(d: Dict, p: seq<string>)
    requires Plain(d) && |p| >= 1 && IsLeafPath(d, p)
    ensures Key("", p) == JoinPath(p)
  {
    if |p| > 1 {
      assert d[p[0]].Obj?;
      assert p[0] != "";
      KeyBelow(p[0], p[1..]);
    }
  }

  /** The keys along a path of a record without dotted keys have no '.'. */
  lemma {:induction false} PathDotless(d: Dict, p: seq<string>)
    requires DotlessKeys(d) && Lookup(d, p).Some?
    ensures Dotless(p)
    decreases |p|
  {
    if |p| > 1 {
      match d[p[0]]
      case Obj(c) =>
        PathDotless(c, p[1..]);
        forall i | 0 <= i < |p| ensures Sep !in p[i] {
          if i > 0 { assert p[i] == p[1..][i - 1]; }
        }
    }
  }

  /** Nothing lies below a leaf. */
  lemma {:induction false} BelowLeafNothing(d: Dict, p: seq<string>, q: seq<string>)
    requires IsLeafPath(d, p) && IsPrefix(p, q) && |p| < |q|
    ensures Lookup(d, q) == None
    decreases |p|
  {
    assert q[0] == p[0];
    if |p| > 1 {
      match d[p[0]]
      case Obj(c) =>
        assert q[1..][..|p| - 1] == p[1..];
        BelowLeafNothing(c, p[1..], q[1..]);
    }
  }

  // ---------------------------------------------------------------------------
  // __deflatten (tracker.py:65-68, 80-93)
  // ---------------------------------------------------------------------------

  /**
   * `__create_or_return_obj(o, h)` (tracker.py:65-68) as the dict it hands
   * back: the dict stored under `h`, or a new empty one when `h` is absent.
   * (Under `h` a non-dict is only met on inputs `Unflatten` excludes.)
   */
  function Child(o: Dict, h: string): Dict
  {
    if h in o && o[h].Obj? then o[h].m else map[]
  }

  /**
   * `reconstruct_flat_keys` (tracker.py:87-92) started from the top-level
   * dict: store `v` at the key path `p`, creating the intermediate dicts
   * on the way. Afterwards `p` leads to `v`.
   */
  function Place(o: Dict, p: seq<string>, v: Value): Dict
    requires |p| >= 1
    decreases |p|, 1
  {
    o[p[0] := Slot(o, p, v)]
  }

  /** What `Place(o, p, v)` stores under the top-level key `p[0]`. */
  function Slot(o: Dict, p: seq<string>, v: Value): Value
    requires |p| >= 1
    decreases |p|, 0
  {
    if |p| == 1 then v else Obj(Place(Child(o, p[0]), p[1..], v))
  }

  /** After `Place(o, p, v)` the path `p` leads to `v`. */
  lemma {:induction false} LookupPlaced(o: Dict, p: seq<string>, v: Value)
    requires |p| >= 1
    ensures Lookup(Place(o, p, v), p) == Some(v)
    decreases |p|
  {
    if |p| > 1 {
      LookupPlaced(Child(o, p[0]), p[1..], v);
    }
  }

  /** The loop of tracker.py:82-92 over the keys `ks`, visited in ascending order. */
  function PlaceAll(o: Dict, flat: Dict, ks: set<string>): Dict
    requires ks <= flat.Keys
    decreases |ks|
  {
    if ks == {} then o
    else
      var k := Least(ks);
      PlaceAll(Place(o, Split(k), flat[k]), flat, ks - {k})
  }

  /**
   * No flat key's split path is an initial segment of another's. On such
   * inputs tracker.py:84 would overwrite a dict with a scalar, or line 66
   * would test membership in a scalar; `__deflatten` is only defined without
   * them.
   */
  predicate PrefixFree(flat: Dict)
  {
    forall a, b :: a in flat && b in flat && a != b ==> !IsPrefix(Split(a), Split(b))
  }

  /** `__deflatten(flat)` (tracker.py:80-93). */
  function Unflatten(flat: Dict): Dict
    requires PrefixFree(flat)
  {
    PlaceAll(map[], flat, flat.Keys)
  }

  /** Storing below two different top-level keys can be done in either order. */
  lemma PlaceApart(o: Dict, p: seq<string>, v: Value, q: seq<string>, w: Value)
    requires |p| >= 1 && |q| >= 1 && p[0] != q[0]
    ensures Place(Place(o, p, v), q, w) == Place(Place(o, q, w), p, v)
  {
    var h, g := p[0], q[0];
    var x, y := Slot(o, p, v), Slot(o, q, w);
    assert Child(o[h := x], g) == Child(o, g);
    assert Slot(o[h := x], q, w) == y;
    assert Child(o[g := y], h) == Child(o, h);
    assert Slot(o[g := y], p, v) == x;
    assert o[h := x][g := y] == o[g := y][h := x];
  }

  /** Storing at two paths neither of which extends the other can be done in either order. */
  lemma {:induction false} PlaceCommute(o: Dict, p: seq<string>, v: Value, q: seq<string>, w: Value)
    requires |p| >= 1 && |q| >= 1 && !IsPrefix(p, q) && !IsPrefix(q, p)
    ensures Place(Place(o, p, v), q, w) == Place(Place(o, q, w), p, v)
    decreases |p|
  {
    var h := p[0];
    if h == q[0] {
      assert |p| > 1 && |q| > 1;
      var p', q' := p[1..], q[1..];
      assert !IsPrefix(p', q');
      assert !IsPrefix(q', p');
      var c := Child(o, h);
      PlaceCommute(c, p', v, q', w);
      PlaceSameHead(o, p, v, q, w);
      PlaceSameHead(o, q, w, p, v);
    } else {
      PlaceApart(o, p, v, q, w);
    }
  }

  /** Two stores below the same top-level key nest inside the dict under that key. */
  lemma PlaceSameHead(o: Dict, p: seq<string>, v: Value, q: seq<string>, w: Value)
    requires |p| > 1 && |q| > 1 && p[0] == q[0]
    ensures Place(Place(o, p, v), q, w)
         == o[p[0] := Obj(Place(Place(Child(o, p[0]), p[1..], v), q[1..], w))]
  {
    var h := p[0];
    var pv := Place(o, p, v);
    assert Slot(o, p, v) == Obj(Place(Child(o, h), p[1..], v));
    assert pv == o[h := Obj(Place(Child(o, h), p[1..], v))];
    assert Child(pv, h) == Place(Child(o, h), p[1..], v);
    assert Slot(pv, q, w) == Obj(Place(Place(Child(o, h), p[1..], v), q[1..], w));
  }

  /**
   * On prefix-free input the visiting order does not matter: the key `k` may
   * be stored first, whichever key the loop would pick.
   */
  lemma {:induction false} PlaceAllAnyFirst(o: Dict, flat: Dict, ks: set<string>, k: string)
    requires ks <= flat.Keys && PrefixFree(flat) && k in ks
    ensures PlaceAll(o, flat, ks) == PlaceAll(Place(o, Split(k), flat[k]), flat, ks - {k})
    decreases |ks|
  {
    var j := Least(ks);
    if j != k {
      var oj := Place(o, Split(j), flat[j]);
      var ok := Place(o, Split(k), flat[k]);
      PlaceAllAnyFirst(oj, flat, ks - {j}, k);
      PlaceCommute(o, Split(j), flat[j], Split(k), flat[k]);
      PlaceAllAnyFirst(ok, flat, ks - {k}, j);
      assert ks - {j} - {k} == ks - {k} - {j};
    }
  }

  /**
   * `__deflatten` (tracker.py:80-93): the loop visits the keys of `flat` in
   * whatever order they come; a key without '.' is stored directly (line
   * 84), a dotted one through the intermediate dicts (lines 86-92).
   */
  method Deflatten(flat: Dict) returns (obj: Dict)
    requires PrefixFree(flat)
    ensures obj == Unflatten(flat)
  {
    obj := map[];
    var todo := flat.Keys;
    while todo != {}
      invariant todo <= flat.Keys
      invariant PlaceAll(obj, flat, todo) == Unflatten(flat)
      decreases |todo|
    {
      var k :| k in todo;
      PlaceAllAnyFirst(obj, flat, todo, k);
      if Sep !in k {
        obj := obj[k := flat[k]];
      } else {
        var path := Split(k);
        obj := obj[path[0] := Obj(Place(Child(obj, path[0]), path[1..], flat[k]))];
      }
      todo := todo - {k};
    }
  }

  // ---------------------------------------------------------------------------
  // What Unflatten builds
  // ---------------------------------------------------------------------------

  /** A store at `q` leaves every path that neither extends `q` nor is extended by it. */
  lemma {:induction false} LookupPlaceOther(o: Dict, q: seq<string>, v: Value, p: seq<string>)
    requires |p| >= 1 && |q| >= 1 && !IsPrefix(p, q) && !IsPrefix(q, p)
    ensures Lookup(Place(o, q, v), p) == Lookup(o, p)
    decreases |q|
  {
    var h := q[0];
    if p[0] == h {
      assert |p| > 1 && |q| > 1;
      assert !IsPrefix(p[1..], q[1..]) && !IsPrefix(q[1..], p[1..]);
      var c := Child(o, h);
      LookupPlaceOther(c, q[1..], v, p[1..]);
      assert Slot(o, q, v) == Obj(Place(c, q[1..], v));
      assert Lookup(Place(o, q, v), p) == Lookup(Place(c, q[1..], v), p[1..]);
    }
  }

  /** Stores at paths unrelated to `p` leave `p` alone. */
  lemma {:induction false} PlaceAllKeeps(o: Dict, flat: Dict, ks: set<string>, p: seq<string>)
    requires ks <= flat.Keys && |p| >= 1
    requires forall k :: k in ks ==> !IsPrefix(Split(k), p) && !IsPrefix(p, Split(k))
    ensures Lookup(PlaceAll(o, flat, ks), p) == Lookup(o, p)
    decreases |ks|
  {
    if ks != {} {
      var k := Least(ks);
      LookupPlaceOther(o, Split(k), flat[k], p);
      PlaceAllKeeps(Place(o, Split(k), flat[k]), flat, ks - {k}, p);
    }
  }

  /** Each flat key's path leads to its value in the rebuilt record. */
  lemma UnflattenAt(flat: Dict, k: string)
    requires PrefixFree(flat) && k in flat
    ensures Lookup(Unflatten(flat), Split(k)) == Some(flat[k])
  {
    PlaceAllAnyFirst(map[], flat, flat.Keys, k);
    var o := Place(map[], Split(k), flat[k]);
    LookupPlaced(map[], Split(k), flat[k]);
    PlaceAllKeeps(o, flat, flat.Keys - {k}, Split(k));
  }

  /** A leaf after a store lies at or below the stored path, or was a leaf before. */
  lemma {:induction false} LeafAfterPlace(o: Dict, q: seq<string>, v: Value, p: seq<string>)
    requires |q| >= 1 && IsLeafPath(Place(o, q, v), p)
    ensures IsPrefix(q, p) || IsLeafPath(o, p)
    decreases |q|
  {
    var h := q[0];
    var c := Child(o, h);
    if p[0] == h && |q| > 1 {
      assert Slot(o, q, v) == Obj(Place(c, q[1..], v));
      assert |p| > 1;
      assert Lookup(Place(o, q, v), p) == Lookup(Place(c, q[1..], v), p[1..]);
      LeafAfterPlace(c, q[1..], v, p[1..]);
      if IsPrefix(q[1..], p[1..]) {
        assert p[..|q|] == [h] + p[1..][..|q| - 1];
        assert q == [h] + q[1..];
      } else {
        assert Lookup(o, p) == Lookup(c, p[1..]);
      }
    } else if p[0] != h {
      assert Lookup(Place(o, q, v), p) == Lookup(o, p);
    }
  }

  /** Every leaf path after a run of stores was there before or lies at or below a stored path. */
  lemma {:induction false} LeafAfterPlaceAll(o: Dict, flat: Dict, ks: set<string>, p: seq<string>)
    requires ks <= flat.Keys
    requires IsLeafPath(PlaceAll(o, flat, ks), p)
    ensures IsLeafPath(o, p) || exists k :: k in ks && IsPrefix(Split(k), p)
    decreases |ks|
  {
    if ks != {} {
      var k := Least(ks);
      var o' := Place(o, Split(k), flat[k]);
      LeafAfterPlaceAll(o', flat, ks - {k}, p);
      if IsLeafPath(o', p) {
        LeafAfterPlace(o, Split(k), flat[k], p);
      }
    }
  }

  /** Every leaf of the rebuilt record lies at or below the split path of a flat key. */
  lemma UnflattenBelow(flat: Dict, p: seq<string>)
    requires PrefixFree(flat) && IsLeafPath(Unflatten(flat), p)
    ensures exists k :: k in flat && IsPrefix(Split(k), p)
  {
    LeafAfterPlaceAll(map[], flat, flat.Keys, p);
  }

  /** When the flat values are non-dicts, the leaves of the rebuilt record are exactly at the split keys. */
  lemma UnflattenLeaves(flat: Dict, p: seq<string>)
    requires PrefixFree(flat) && (forall k :: k in flat ==> !flat[k].Obj?)
    requires IsLeafPath(Unflatten(flat), p)
    ensures exists k :: k in flat && Split(k) == p
  {
    UnflattenBelow(flat, p);
    var k :| k in flat && IsPrefix(Split(k), p);
    UnflattenAt(flat, k);
    if |Split(k)| < |p| {
      BelowLeafNothing(Unflatten(flat), Split(k), p);
    }
  }

  /** A store of a dense value keeps a record dense. */
  lemma {:induction false} DensePlace(o: Dict, p: seq<string>, v: Value)
    requires |p| >= 1 && Dense(o) && DenseValue(v)
    ensures Dense(Place(o, p, v))
    decreases |p|
  {
    if |p| > 1 {
      var c := Child(o, p[0]);
      assert Dense(c);
      DensePlace(c, p[1..], v);
      var c' := Place(c, p[1..], v);
      assert p[1] in c';
      assert DenseValue(Obj(c'));
    }
  }

  lemma {:induction false} DensePlaceAll(o: Dict, flat: Dict, ks: set<string>)
    requires ks <= flat.Keys && Dense(o) && (forall k :: k in flat ==> DenseValue(flat[k]))
    ensures Dense(PlaceAll(o, flat, ks))
    decreases |ks|
  {
    if ks != {} {
      var k := Least(ks);
      DensePlace(o, Split(k), flat[k]);
      DensePlaceAll(Place(o, Split(k), flat[k]), flat, ks - {k});
    }
  }

  /** `__deflatten` never creates an empty dict: each one it creates receives a key. */
  lemma UnflattenDense(flat: Dict)
    requires PrefixFree(flat) && (forall k :: k in flat ==> DenseValue(flat[k]))
    ensures Dense(Unflatten(flat))
  {
    DensePlaceAll(map[], flat, flat.Keys);
  }

  // ---------------------------------------------------------------------------
  // A dense record is determined by its leaves
  // ---------------------------------------------------------------------------

  /** Every leaf path of `a` leads to the same leaf in `b`. */
  ghost predicate LeavesIn(a: Dict, b: Dict)
  {
    forall p :: IsLeafPath(a, p) ==> Lookup(b, p) == Lookup(a, p)
  }

  /** A non-empty dense dict has a leaf. */
  lemma {:induction false} SomeLeaf(c: Dict) returns (p: seq<string>)
    requires Dense(c) && c != map[]
    ensures |p| >= 1 && IsLeafPath(c, p)
    decreases Obj(c)
  {
    var k :| k in c;
    match c[k]
    case Obj(c') =>
      var q := SomeLeaf(c');
      p := [k] + q;
      assert p[1..] == q;
    case _ =>
      p := [k];
  }

  /** A top-level key of `b` is a key of `a` when `b`'s leaves all lie in `a`. */
  lemma KeyPresent(a: Dict, b: Dict, h: string)
    requires Dense(b) && LeavesIn(b, a) && h in b
    ensures h in a
  {
    match b[h]
    case Obj(c) =>
      var q := SomeLeaf(c);
      var p := [h] + q;
      assert p[1..] == q;
      assert IsLeafPath(b, p);
    case _ =>
      assert IsLeafPath(b, [h]);
  }

  lemma {:induction false} KeyAgrees(a: Dict, b: Dict, h: string)
    requires Dense(a) && Dense(b) && LeavesIn(a, b) && LeavesIn(b, a) && h in a
    ensures h in b && b[h] == a[h]
    decreases Obj(a), 0
  {
    match a[h]
    case Obj(ca) =>
      var q := SomeLeaf(ca);
      var p := [h] + q;
      assert p[1..] == q;
      assert IsLeafPath(a, p);
      assert Lookup(b, p).Some?;
      var cb := b[h].m;
      forall r | IsLeafPath(ca, r) ensures Lookup(cb, r) == Lookup(ca, r) {
        var pr := [h] + r;
        assert pr[1..] == r;
        assert IsLeafPath(a, pr);
      }
      forall r | IsLeafPath(cb, r) ensures Lookup(ca, r) == Lookup(cb, r) {
        var pr := [h] + r;
        assert pr[1..] == r;
        assert IsLeafPath(b, pr);
      }
      SameLeavesEqual(ca, cb);
    case _ =>
      assert IsLeafPath(a, [h]);
  }

  /** Two dense records with the same leaves at the same paths are equal. */
  lemma {:induction false} SameLeavesEqual(a: Dict, b: Dict)
    requires Dense(a) && Dense(b) && LeavesIn(a, b) && LeavesIn(b, a)
    ensures a == b
    decreases Obj(a), 1
  {
    forall h | h in b ensures h in a { KeyPresent(a, b, h); }
    forall h | h in a ensures h in b && b[h] == a[h] { KeyAgrees(a, b, h); }
  }

  // ---------------------------------------------------------------------------
  // The round trip
  // ---------------------------------------------------------------------------

  /** The path behind a key of a plain record's flattening: its split, leading to its value. */
  lemma FlatKeyPath(d: Dict, k: string) returns (p: seq<string>)
    requires Plain(d) && k in Flatten(d)
    ensures |p| >= 1 && IsLeafPath(d, p) && Split(k) == p && Lookup(d, p) == Some(Flatten(d)[k])
  {
    FlattenSound(d, d.Keys, "", k);
    p :| |p| >= 1 && p[0] in d.Keys && IsLeafPath(d, p) && Key("", p) == k
         && Lookup(d, p) == Some(Flatten(d)[k]);
    KeyTop(d, p);
    PathDotless(d, p);
    SplitJoinPath(p);
  }

  /** The flattening of a plain record is prefix-free, so `__deflatten` accepts it. */
  lemma FlattenPrefixFree(d: Dict)
    requires Plain(d)
    ensures PrefixFree(Flatten(d))
  {
    var f := Flatten(d);
    forall a, b | a in f && b in f && a != b
      ensures !IsPrefix(Split(a), Split(b))
    {
      var pa := FlatKeyPath(d, a);
      var pb := FlatKeyPath(d, b);
      if IsPrefix(pa, pb) && |pa| < |pb| {
        BelowLeafNothing(d, pa, pb);
      }
      assert IsPrefix(pa, pb) && |pa| == |pb| ==> pa == pb;
      assert JoinPath(pa) == a && JoinPath(pb) == b;
    }
  }

  /**
   * `__deflatten(__flatten(d)) == d` for every record in which no key holds a
   * '.', no nested dict is empty and no top-level "" key holds a dict.
   */
  lemma RoundTrip(d: Dict)
    requires Plain(d)
    ensures PrefixFree(Flatten(d)) && Unflatten(Flatten(d)) == d
  {
    var f := Flatten(d);
    FlattenPrefixFree(d);
    var u := Unflatten(f);
    forall p | IsLeafPath(d, p) ensures Lookup(u, p) == Lookup(d, p) {
      KeyTop(d, p);
      PathDotless(d, p);
      SplitJoinPath(p);
      FlattenComplete(d, d.Keys, "", p);
      var k := JoinPath(p);
      var pk := FlatKeyPath(d, k);
      UnflattenAt(f, k);
    }
    forall p | IsLeafPath(u, p) ensures Lookup(d, p) == Lookup(u, p) {
      UnflattenLeaves(f, p);
      var k :| k in f && Split(k) == p;
      UnflattenAt(f, k);
      var pk := FlatKeyPath(d, k);
    }
    UnflattenDense(f);
    SameLeavesEqual(d, u);
  }

  // ---------------------------------------------------------------------------
  // Flattening a rebuilt delta map
  // ---------------------------------------------------------------------------

  /** The flat key of a path one segment longer is the old flat key joined with that segment. */
  lemma {:induction false} KeyAppend(parent: string, p: seq<string>, m: string)
    requires |p| >= 1
    ensures Key(parent, p + [m]) == Join(Key(parent, p), m)
    decreases |p|
  {
    if |p| > 1 {
      assert (p + [m])[1..] == p[1..] + [m];
      KeyAppend(Join(parent, p[0]), p[1..], m);
    }
  }

  /** A key whose first segment is not "" (or that has a single segment) is the flat key of its split. */
  lemma KeyOfSplit(k: string)
    requires Sep in k ==> Split(k)[0] != ""
    ensures Key("", Split(k)) == k
  {
    var p := Split(k);
    if |p| > 1 {
      KeyBelow(p[0], p[1..]);
    }
  }

  /** Following `p` and then `q` is following `q` inside the dict `p` leads to. */
  lemma {:induction false} LookupAppend(d: Dict, p: seq<string>, c: Dict, q: seq<string>)
    requires Lookup(d, p) == Some(Obj(c)) && |q| >= 1
    ensures Lookup(d, p + q) == Lookup(c, q)
    decreases |p|
  {
    if |p| > 1 {
      assert (p + q)[1..] == p[1..] + q;
      LookupAppend(d[p[0]].m, p[1..], c, q);
    }
  }

  /** A flat key of a plain record does not begin with an empty segment followed by more. */
  lemma FlatKeyTop(d: Dict, k: string)
    requires Plain(d) && k in Flatten(d)
    ensures Sep in k ==> Split(k)[0] != ""
  {
    var p := FlatKeyPath(d, k);
    if Sep in k {
      assert |p| > 1;
      assert d[p[0]].Obj?;
    }
  }

  /**
   * A flat map as the diff stores it: prefix-free, keyed like the flattening
   * of a plain record, with each value a dict of non-dicts (`{-from, +to}`,
   * `{+inserted_data}` or `{-data_was}`).
   */
  predicate Nested(f: Dict)
  {
    && PrefixFree(f)
    && forall k :: k in f ==>
         && (Sep in k ==> Split(k)[0] != "")
         && f[k].Obj?
         && forall m :: m in f[k].m ==> !f[k].m[m].Obj?
  }

  /** Each key joined with each key of its value is a key of the flattened rebuild. */
  lemma FlattenNestedHas(f: Dict, k: string, m: string)
    requires Nested(f) && k in f && m in f[k].m
    ensures Join(k, m) in Flatten(Unflatten(f))
  {
    var u := Unflatten(f);
    var c := f[k].m;
    UnflattenAt(f, k);
    LookupAppend(u, Split(k), c, [m]);
    var p := Split(k) + [m];
    assert p[0] == Split(k)[0];
    FlattenComplete(u, u.Keys, "", p);
    KeyAppend("", Split(k), m);
    KeyOfSplit(k);
  }

  /** A leaf at or below a path leading to a dict of non-dicts is one entry of that dict. */
  lemma LeafBelowFlatDict(d: Dict, s: seq<string>, c: Dict, p: seq<string>) returns (m: string)
    requires Lookup(d, s) == Some(Obj(c)) && (forall m :: m in c ==> !c[m].Obj?)
    requires IsPrefix(s, p) && IsLeafPath(d, p)
    ensures m in c && p == s + [m] && Lookup(d, p) == Some(c[m])
  {
    assert |s| == |p| ==> p == p[..|s|] == s;
    var q := p[|s|..];
    assert p == p[..|s|] + q;
    LookupAppend(d, s, c, q);
    assert |q| == 1 by {
      if |q| > 1 {
        assert !c[q[0]].Obj?;
      }
    }
    m := q[0];
    assert q == [m];
  }

  /** A leaf of the rebuilt map is one entry of the value stored under a flat key. */
  lemma NestedLeaf(f: Dict, p: seq<string>) returns (k: string, m: string)
    requires Nested(f) && IsLeafPath(Unflatten(f), p)
    ensures k in f && m in f[k].m && p == Split(k) + [m] && Lookup(Unflatten(f), p) == Some(f[k].m[m])
  {
    UnflattenBelow(f, p);
    k :| k in f && IsPrefix(Split(k), p);
    UnflattenAt(f, k);
    m := LeafBelowFlatDict(Unflatten(f), Split(k), f[k].m, p);
  }

  /** Each key of the flattened rebuild is a key joined with a key of its value, and holds that entry. */
  lemma FlattenNestedFrom(f: Dict, x: string) returns (k: string, m: string)
    requires Nested(f) && x in Flatten(Unflatten(f))
    ensures k in f && m in f[k].m && x == Join(k, m) && Flatten(Unflatten(f))[x] == f[k].m[m]
  {
    var u := Unflatten(f);
    var w := Flatten(u);
    FlattenSound(u, u.Keys, "", x);
    var p :| |p| >= 1 && p[0] in u.Keys && IsLeafPath(u, p) && Key("", p) == x && Lookup(u, p) == Some(w[x]);
    k, m := NestedLeaf(f, p);
    KeyAppend("", Split(k), m);
    KeyOfSplit(k);
  }

  /**
   * Flattening the rebuilt map gives each key joined with each of its value's
   * keys, holding that value's entry, and nothing else: `__flatten` undoes the
   * nesting `__deflatten` adds and keeps the inner level as one more segment.
   */
  lemma FlattenNested(f: Dict)
    requires Nested(f)
    ensures forall k, m :: k in f && m in f[k].m ==> Join(k, m) in Flatten(Unflatten(f))
    ensures forall x :: x in Flatten(Unflatten(f)) ==>
              exists k, m :: k in f && m in f[k].m && x == Join(k, m) && Flatten(Unflatten(f))[x] == f[k].m[m]
  {
    forall k, m | k in f && m in f[k].m ensures Join(k, m) in Flatten(Unflatten(f)) {
      FlattenNestedHas(f, k, m);
    }
    forall x | x in Flatten(Unflatten(f))
      ensures exists k, m :: k in f && m in f[k].m && x == Join(k, m) && Flatten(Unflatten(f))[x] == f[k].m[m]
    {
      var k, m := FlattenNestedFrom(f, x);
    }
  }
}
