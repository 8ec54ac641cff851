/**
 * Replaying one delta onto a flat snapshot: `__construct_obj_from_delta`
 * (tracker.py:204-229). The delta maps are flattened again, and every flat key
 * that contains a marker ("+to", "+inserted_data", "-data_was") is cut back by
 * the marker and its separator to name the snapshot path it writes or deletes.
 */
module Replay {
  import opened Values
  import opened Strings
  import opened PathCodec

  /**
   * `k[:-(len(marker) + len('.'))]`: the snapshot path a marked flat key
   * addresses (tracker.py:214, 220, 226).
   */
  function Target(k: string, marker: string): string
  {
    DropLast(k, |marker| + 1)
  }

  /**
   * Stripping the marker segment off the flat key `p` joined with the marker
   * gives back `p`; for the empty `p` the key is the marker alone and Python's
   * slice past the start gives "".
   */
  lemma TargetOfJoin(p: string, marker: string)
    ensures Contains(Join(p, marker), marker)
    ensures Target(Join(p, marker), marker) == p
  {
    if p == "" {
      assert OccursAt(marker, marker, 0);
    } else {
      assert Join(p, marker) == Marked(p, marker);
    }
  }

  /** A separator-free marker found in `a` joined with `b` lies within `a` or within `b`. */
  lemma ContainsJoin(a: string, b: string, m: string)
    requires Sep !in m
    ensures Contains(Join(a, b), m) ==> Contains(a, m) || Contains(b, m)
  {
    if a != "" && Contains(Join(a, b), m) {
      var s := a + [Sep] + b;
      var i :| 0 <= i <= |s| - |m| && OccursAt(s, m, i);
      assert s[|a|] == Sep;
      assert !(i <= |a| < i + |m|) by {
        assert forall q :: i <= q < i + |m| ==> s[q] == s[i..i + |m|][q - i];
      }
      if i + |m| <= |a| {
        assert s[i..i + |m|] == a[i..i + |m|];
        assert OccursAt(a, m, i);
      } else {
        var j := i - |a| - 1;
        assert s[|a| + 1..] == b;
        assert s[i..i + |m|] == s[|a| + 1..][j..j + |m|];
        assert OccursAt(b, m, j);
      }
    }
  }

  /** The snapshot paths the marked keys among `ks` address. */
  function Targets(ks: set<string>, marker: string): set<string>
    decreases |ks|
  {
    if ks == {} then {}
    else
      var k := Least(ks);
      Targets(ks - {k}, marker) + (if Contains(k, marker) then {Target(k, marker)} else {})
  }

  /** No two marked keys among `ks` address the same path. */
  predicate Injective(ks: set<string>, marker: string)
  {
    forall a, b :: a in ks && b in ks && a != b && Contains(a, marker) && Contains(b, marker) ==> Target(a, marker) != Target(b, marker)
  }

  /** All marked keys among `ks` that address the same path carry the same value. */
  predicate Agree(flat: Dict, ks: set<string>, marker: string)
    requires ks <= flat.Keys
  {
    forall a, b :: a in ks && b in ks && Contains(a, marker) && Contains(b, marker) && Target(a, marker) == Target(b, marker) ==> flat[a] == flat[b]
  }

  // ---------------------------------------------------------------------------
  // The write passes (tracker.py:211-221) and the delete pass (tracker.py:223-227)
  // ---------------------------------------------------------------------------

  /**
   * A write pass: visiting the keys `ks` of `flat` in order, each key that
   * contains `marker` writes its value at its target; a later key overwrites
   * an earlier one with the same target.
   */
  function WritePass(obj: Dict, flat: Dict, ks: set<string>, marker: string): Dict
    requires ks <= flat.Keys
    decreases |ks|
  {
    if ks == {} then obj
    else
      var k := Least(ks);
      var next := if Contains(k, marker) then obj[Target(k, marker) := flat[k]] else obj;
      WritePass(next, flat, ks - {k}, marker)
  }

  /**
   * The delete pass: visiting the keys `ks` in order, each key that contains
   * `marker` deletes its target; `None` is the KeyError `del` raises when the
   * target is absent.
   */
  function DeletePass(obj: Dict, ks: set<string>, marker: string): Option<Dict>
    decreases |ks|
  {
    if ks == {} then Some(obj)
    else
      var k := Least(ks);
      if !Contains(k, marker) then DeletePass(obj, ks - {k}, marker)
      else if Target(k, marker) in obj then DeletePass(obj - {Target(k, marker)}, ks - {k}, marker)
      else None
  }

  /** `Targets` holds the targets of the marked keys and nothing else. */
  lemma {:induction false} TargetsMembers(ks: set<string>, marker: string)
    ensures forall k :: k in ks && Contains(k, marker) ==> Target(k, marker) in Targets(ks, marker)
    ensures forall t :: t in Targets(ks, marker) ==> exists k :: k in ks && Contains(k, marker) && Target(k, marker) == t
    decreases |ks|
  {
    if ks != {} {
      TargetsMembers(ks - {Least(ks)}, marker);
    }
  }

  /** A write pass adds exactly its targets to the snapshot's paths. */
  lemma {:induction false} WritePassKeys(obj: Dict, flat: Dict, ks: set<string>, marker: string)
    requires ks <= flat.Keys
    ensures forall j :: j in WritePass(obj, flat, ks, marker) <==> j in obj || j in Targets(ks, marker)
    decreases |ks|
  {
    if ks != {} {
      var k := Least(ks);
      var next := if Contains(k, marker) then obj[Target(k, marker) := flat[k]] else obj;
      WritePassKeys(next, flat, ks - {k}, marker);
    }
  }

  /** A write pass leaves every path that is not one of its targets as it was. */
  lemma {:induction false} WritePassKeeps(obj: Dict, flat: Dict, ks: set<string>, marker: string, j: string)
    requires ks <= flat.Keys && j in obj && j !in Targets(ks, marker)
    ensures j in WritePass(obj, flat, ks, marker) && WritePass(obj, flat, ks, marker)[j] == obj[j]
    decreases |ks|
  {
    if ks != {} {
      var k := Least(ks);
      var next := if Contains(k, marker) then obj[Target(k, marker) := flat[k]] else obj;
      WritePassKeeps(next, flat, ks - {k}, marker, j);
    }
  }

  /** A write pass stores at each target the value of one of the keys that address it. */
  lemma {:induction false} WritePassSource(obj: Dict, flat: Dict, ks: set<string>, marker: string, t: string)
    returns (k: string)
    requires ks <= flat.Keys && t in Targets(ks, marker)
    ensures k in ks && Contains(k, marker) && Target(k, marker) == t
    ensures t in WritePass(obj, flat, ks, marker) && WritePass(obj, flat, ks, marker)[t] == flat[k]
    decreases |ks|
  {
    var first := Least(ks);
    var rest := ks - {first};
    var next := if Contains(first, marker) then obj[Target(first, marker) := flat[first]] else obj;
    if t in Targets(rest, marker) {
      k := WritePassSource(next, flat, rest, marker, t);
    } else {
      k := first;
      WritePassKeeps(next, flat, rest, marker, t);
    }
  }

  /** When the keys addressing one path agree, every target holds exactly the value of its keys. */
  lemma WritePassAgreeing(obj: Dict, flat: Dict, ks: set<string>, marker: string, k: string)
    requires ks <= flat.Keys && Agree(flat, ks, marker) && k in ks && Contains(k, marker)
    ensures Target(k, marker) in WritePass(obj, flat, ks, marker)
    ensures WritePass(obj, flat, ks, marker)[Target(k, marker)] == flat[k]
  {
    TargetsMembers(ks, marker);
    var k' := WritePassSource(obj, flat, ks, marker, Target(k, marker));
  }

  /**
   * The delete pass succeeds exactly when every target is present and no two
   * keys address the same target (a second `del` of one path raises), and
   * it then removes exactly the targets.
   */
  lemma {:induction false} DeletePassSucceeds(obj: Dict, ks: set<string>, marker: string)
    ensures DeletePass(obj, ks, marker).Some? <==> (forall t :: t in Targets(ks, marker) ==> t in obj) && Injective(ks, marker)
    decreases |ks|
  {
    if ks != {} {
      var k := Least(ks);
      var rest := ks - {k};
      InjectiveSplit(ks, k, marker);
      if !Contains(k, marker) {
        DeletePassSucceeds(obj, rest, marker);
      } else if Target(k, marker) in obj {
        DeletePassSucceeds(obj - {Target(k, marker)}, rest, marker);
      }
    }
  }

  lemma {:induction false} DeletePassRemoves(obj: Dict, ks: set<string>, marker: string)
    requires DeletePass(obj, ks, marker).Some?
    ensures forall j :: j in DeletePass(obj, ks, marker).value <==> j in obj && j !in Targets(ks, marker)
    ensures forall j :: j in DeletePass(obj, ks, marker).value ==> DeletePass(obj, ks, marker).value[j] == obj[j]
    decreases |ks|
  {
    if ks != {} {
      var k := Least(ks);
      var rest := ks - {k};
      if !Contains(k, marker) {
        DeletePassRemoves(obj, rest, marker);
      } else {
        DeletePassRemoves(obj - {Target(k, marker)}, rest, marker);
      }
    }
  }

  /** The delete pass, in one statement: success condition and result. */
  lemma DeletePassEffect(obj: Dict, ks: set<string>, marker: string)
    ensures DeletePass(obj, ks, marker) ==
              if Targets(ks, marker) <= obj.Keys && Injective(ks, marker) then Some(obj - Targets(ks, marker)) else None
  {
    DeletePassSucceeds(obj, ks, marker);
    if DeletePass(obj, ks, marker).Some? {
      DeletePassRemoves(obj, ks, marker);
      assert DeletePass(obj, ks, marker).value == obj - Targets(ks, marker);
    }
  }

  lemma {:induction false} InjectiveSplit(ks: set<string>, k: string, marker: string)
    requires k in ks
    ensures Injective(ks, marker) <==>
              Injective(ks - {k}, marker) && (Contains(k, marker) ==> Target(k, marker) !in Targets(ks - {k}, marker))
  {
    var rest := ks - {k};
    TargetsMembers(rest, marker);
    if Injective(rest, marker) && (Contains(k, marker) ==> Target(k, marker) !in Targets(rest, marker)) {
      forall a, b | a in ks && b in ks && a != b && Contains(a, marker) && Contains(b, marker)
        ensures Target(a, marker) != Target(b, marker)
      {
        if a == k {
          assert b in rest;
        } else if b == k {
          assert a in rest;
        }
      }
    }
  }

  /** A delete pass over keys none of which contains the marker deletes nothing. */
  lemma DeletePassUnmarked(obj: Dict, ks: set<string>, marker: string)
    requires forall k :: k in ks ==> !Contains(k, marker)
    ensures DeletePass(obj, ks, marker) == Some(obj)
  {
    DeletePassEffect(obj, ks, marker);
    assert Targets(ks, marker) == {};
  }

  // ---------------------------------------------------------------------------
  // The whole replay
  // ---------------------------------------------------------------------------

  /** The delta fields the replay reads: `delta['@updated']` and `delta['@inserted']` are dicts. */
  predicate Replayable(delta: Dict)
  {
    UpdatedField in delta && delta[UpdatedField].Obj? && CreatedField in delta && delta[CreatedField].Obj?
  }

  /** The snapshot after the two write passes, the part on which both replays agree. */
  function Written(obj: Dict, delta: Dict): Dict
    requires Replayable(delta)
  {
    var updateFlat := Flatten(delta[UpdatedField].m);
    var insertFlat := Flatten(delta[CreatedField].m);
    WritePass(WritePass(obj, updateFlat, updateFlat.Keys, ToKey), insertFlat, insertFlat.Keys, InsertedKey)
  }

  /**
   * `__construct_obj_from_delta` as written: the delete pass runs over the
   * flattened `@updated` map (tracker.py:207), not over `@deleted`.
   */
  function ReplayAsWritten(obj: Dict, delta: Dict): Option<Dict>
    requires Replayable(delta)
  {
    DeletePass(Written(obj, delta), Flatten(delta[UpdatedField].m).Keys, DeletedKey)
  }

  /** The replay with the delete pass over the flattened `@deleted` map. */
  function ReplayCorrected(obj: Dict, delta: Dict): Option<Dict>
    requires Replayable(delta) && DeletedField in delta && delta[DeletedField].Obj?
  {
    DeletePass(Written(obj, delta), Flatten(delta[DeletedField].m).Keys, DeletedKey)
  }

  /**
   * tracker.py:204-229: three loops over the flattened maps, writing into and
   * deleting from the snapshot, which Python does in place.
   */
  method ConstructObjFromDelta(obj: Dict, delta: Dict) returns (r: Option<Dict>)
    requires Replayable(delta)
    ensures r == ReplayAsWritten(obj, delta)
  {
    var updateFlat := Flatten(delta[UpdatedField].m);
    var insertFlat := Flatten(delta[CreatedField].m);
    var deleteFlat := Flatten(delta[UpdatedField].m);
    var cur := obj;

    var todo := updateFlat.Keys;
    while todo != {}
      invariant todo <= updateFlat.Keys
      invariant WritePass(cur, updateFlat, todo, ToKey) == WritePass(obj, updateFlat, updateFlat.Keys, ToKey)
      decreases |todo|
    {
      var k := Least(todo);
      if Contains(k, ToKey) {
        cur := cur[Target(k, ToKey) := updateFlat[k]];
      }
      todo := todo - {k};
    }

    var updated := cur;
    todo := insertFlat.Keys;
    while todo != {}
      invariant todo <= insertFlat.Keys
      invariant WritePass(cur, insertFlat, todo, InsertedKey) == WritePass(updated, insertFlat, insertFlat.Keys, InsertedKey)
      decreases |todo|
    {
      var k := Least(todo);
      if Contains(k, InsertedKey) {
        cur := cur[Target(k, InsertedKey) := insertFlat[k]];
      }
      todo := todo - {k};
    }

    var written := cur;
    todo := deleteFlat.Keys;
    while todo != {}
      invariant DeletePass(cur, todo, DeletedKey) == DeletePass(written, deleteFlat.Keys, DeletedKey)
      decreases |todo|
    {
      var k := Least(todo);
      if Contains(k, DeletedKey) {
        var t := Target(k, DeletedKey);
        if t !in cur {
          return None;
        }
        cur := cur - {t};
      }
      todo := todo - {k};
    }
    return Some(cur);
  }

  /**
   * The replay as written deletes nothing when no flat key of `@updated`
   * contains "-data_was": it then yields the snapshot after the write passes.
   */
  lemma AsWrittenDeletesNothing(obj: Dict, delta: Dict)
    requires Replayable(delta)
    requires forall k :: k in Flatten(delta[UpdatedField].m) ==> !Contains(k, DeletedKey)
    ensures ReplayAsWritten(obj, delta) == Some(Written(obj, delta))
  {
    DeletePassUnmarked(Written(obj, delta), Flatten(delta[UpdatedField].m).Keys, DeletedKey);
  }

  /**
   * The corrected replay removes exactly the paths the `@deleted` map names,
   * provided they are all present and named once, and fails otherwise.
   */
  lemma CorrectedDeletes(obj: Dict, delta: Dict)
    requires Replayable(delta) && DeletedField in delta && delta[DeletedField].Obj?
    ensures var ks := Flatten(delta[DeletedField].m).Keys;
            ReplayCorrected(obj, delta) ==
              if Targets(ks, DeletedKey) <= Written(obj, delta).Keys && Injective(ks, DeletedKey)
              then Some(Written(obj, delta) - Targets(ks, DeletedKey))
              else None
  {
    DeletePassEffect(Written(obj, delta), Flatten(delta[DeletedField].m).Keys, DeletedKey);
  }

  // ---------------------------------------------------------------------------
  // Replaying the delta maps the diff stores
  // ---------------------------------------------------------------------------

  /** Every value of `f` other than under `marker` yields a flat key without `marker`. */
  predicate OnlyMarker(f: Dict, marker: string)
    requires Nested(f)
  {
    forall k, m :: k in f && m in f[k].m && m != marker ==> !Contains(Join(k, m), marker)
  }

  /**
   * A key of the re-flattened delta map that holds `marker` is a key of
   * `f` joined with `marker`, addresses that key and holds its entry.
   */
  lemma NestedMarked(f: Dict, marker: string, x: string)
    requires Nested(f) && OnlyMarker(f, marker)
    requires x in Flatten(Unflatten(f)) && Contains(x, marker)
    ensures Target(x, marker) in f && marker in f[Target(x, marker)].m
    ensures x == Join(Target(x, marker), marker)
    ensures Flatten(Unflatten(f))[x] == f[Target(x, marker)].m[marker]
  {
    var k, m := FlattenNestedFrom(f, x);
    TargetOfJoin(k, marker);
  }

  /** The paths a pass over the re-flattened delta map addresses are the keys of `f`. */
  lemma NestedTargets(f: Dict, marker: string)
    requires Nested(f) && OnlyMarker(f, marker) && forall k :: k in f ==> marker in f[k].m
    ensures Targets(Flatten(Unflatten(f)).Keys, marker) == f.Keys
  {
    var w := Flatten(Unflatten(f));
    TargetsMembers(w.Keys, marker);
    forall t | t in Targets(w.Keys, marker) ensures t in f {
      var x :| x in w.Keys && Contains(x, marker) && Target(x, marker) == t;
      NestedMarked(f, marker, x);
    }
    forall k | k in f ensures k in Targets(w.Keys, marker) {
      FlattenNestedHas(f, k, marker);
      TargetOfJoin(k, marker);
    }
  }

  /**
   * A write pass over the re-flattened delta map writes, at each key of `f`,
   * the entry its value holds under `marker`, and leaves every other path.
   */
  lemma WritePassNested(obj: Dict, f: Dict, marker: string)
    requires Nested(f) && OnlyMarker(f, marker) && forall k :: k in f ==> marker in f[k].m
    ensures var w := Flatten(Unflatten(f));
            var r := WritePass(obj, w, w.Keys, marker);
            && (forall j :: j in r <==> j in obj || j in f)
            && (forall j :: j in r ==> r[j] == if j in f then f[j].m[marker] else obj[j])
  {
    var w := Flatten(Unflatten(f));
    var r := WritePass(obj, w, w.Keys, marker);
    NestedTargets(f, marker);
    assert Agree(w, w.Keys, marker) by {
      forall a, b | a in w.Keys && b in w.Keys && Contains(a, marker) && Contains(b, marker) && Target(a, marker) == Target(b, marker)
        ensures w[a] == w[b]
      {
        NestedMarked(f, marker, a);
        NestedMarked(f, marker, b);
      }
    }
    WritePassKeys(obj, w, w.Keys, marker);
    forall j | j in r ensures r[j] == if j in f then f[j].m[marker] else obj[j] {
      if j in f {
        var x := Join(j, marker);
        FlattenNestedHas(f, j, marker);
        TargetOfJoin(j, marker);
        WritePassAgreeing(obj, w, w.Keys, marker, x);
        NestedMarked(f, marker, x);
      } else {
        WritePassKeeps(obj, w, w.Keys, marker, j);
      }
    }
  }

  /** A delete pass over the re-flattened delta map removes exactly the keys of `f`, all present. */
  lemma DeletePassNested(obj: Dict, f: Dict, marker: string)
    requires Nested(f) && OnlyMarker(f, marker) && forall k :: k in f ==> marker in f[k].m
    requires f.Keys <= obj.Keys
    ensures DeletePass(obj, Flatten(Unflatten(f)).Keys, marker) == Some(obj - f.Keys)
  {
    var w := Flatten(Unflatten(f));
    NestedTargets(f, marker);
    assert Injective(w.Keys, marker) by {
      forall a, b | a in w.Keys && b in w.Keys && a != b && Contains(a, marker) && Contains(b, marker)
        ensures Target(a, marker) != Target(b, marker)
      {
        NestedMarked(f, marker, a);
        NestedMarked(f, marker, b);
      }
    }
    DeletePassEffect(obj, w.Keys, marker);
  }

  /** A delete pass over a re-flattened delta map none of whose keys holds `marker` deletes nothing. */
  lemma DeletePassNestedUnmarked(obj: Dict, f: Dict, marker: string)
    requires Nested(f) && forall k, m :: k in f && m in f[k].m ==> !Contains(Join(k, m), marker)
    ensures DeletePass(obj, Flatten(Unflatten(f)).Keys, marker) == Some(obj)
  {
    var w := Flatten(Unflatten(f));
    forall x | x in w.Keys ensures !Contains(x, marker) {
      var k, m := FlattenNestedFrom(f, x);
    }
    DeletePassUnmarked(obj, w.Keys, marker);
  }

  lemma FlattenOneLeaf(k: string, v: Value, parent: string)
    requires !v.Obj?
    ensures FlattenKeys(map[k := v], {k}, parent) == map[Join(parent, k) := v]
  {
    assert Least({k}) == k;
    assert {k} - {k} == {};
  }

  lemma FlattenOneDict(k: string, c: Dict, parent: string)
    ensures FlattenKeys(map[k := Obj(c)], {k}, parent) == FlattenKeys(c, c.Keys, Join(parent, k))
  {
    assert Least({k}) == k;
    assert {k} - {k} == {};
  }

  /** The snapshot of the counterexample below. */
  function SampleSnapshot(): Dict
  {
    map["a" := Num(1)]
  }

  /** The delta of the counterexample below: nothing updated or inserted, `a` deleted. */
  function SampleDelta(): (delta: Dict)
    ensures Replayable(delta) && DeletedField in delta && delta[DeletedField].Obj?
  {
    map[UpdatedField := Obj(map[]), CreatedField := Obj(map[]),
        DeletedField := Obj(map["a" := Obj(map[DeletedKey := Num(1)])])]
  }

  lemma SampleWritten()
    ensures Written(SampleSnapshot(), SampleDelta()) == SampleSnapshot()
  {
    assert Flatten(map[]) == map[];
  }

  lemma SampleDeletedFlat()
    ensures Flatten(SampleDelta()[DeletedField].m) == map[Marked("a", DeletedKey) := Num(1)]
  {
    var was := map[DeletedKey := Num(1)];
    var gone := map["a" := Obj(was)];
    assert SampleDelta()[DeletedField].m == gone;
    assert gone.Keys == {"a"} && was.Keys == {DeletedKey};
    FlattenOneDict("a", was, "");
    assert Join("", "a") == "a";
    FlattenOneLeaf(DeletedKey, Num(1), "a");
    assert Join("a", DeletedKey) == Marked("a", DeletedKey);
  }

  /**
   * A snapshot `{a: 1}` and a delta that records the deletion of `a`: the
   * replay as written keeps `a`, because its delete pass reads `@updated`,
   * while the corrected replay removes it.
   */
  lemma DeleteIgnoredAsWritten()
    ensures ReplayAsWritten(SampleSnapshot(), SampleDelta()) == Some(SampleSnapshot())
    ensures ReplayCorrected(SampleSnapshot(), SampleDelta()) == Some(map[])
  {
    SampleWritten();
    assert Flatten(map[]) == map[];
    SampleDeletedFlat();
    var k := Marked("a", DeletedKey);
    assert Flatten(SampleDelta()[DeletedField].m).Keys == {k};
    assert Least({k}) == k;
    assert {k} - {k} == {};
    assert Contains(k, DeletedKey) && Target(k, DeletedKey) == "a";
    assert SampleSnapshot() - {"a"} == map[];
    assert DeletePass(SampleSnapshot(), {k}, DeletedKey) == DeletePass(map[], {}, DeletedKey);
  }
}
