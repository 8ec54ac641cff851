/**
 * The decoded audit log: the entries `__fetch_audit_as_json` (tracker.py:157-185)
 * builds from the stored records, and the order-preserving filter that the
 * queries apply to them.
 */
module AuditLog {
  import opened Values
  import opened PathCodec
  import opened Strings

  /**
   * An entry as decoded at tracker.py:169-182: the clock fields, the id, and
   * the three delta maps, each a dict after `__deflatten`.
   */
  predicate LogEntry(r: Dict)
  {
    && UpdatedOnField in r
    && TimestampField in r && r[TimestampField].Num?
    && PkField in r
    && UpdatedField in r && r[UpdatedField].Obj?
    && DeletedField in r && r[DeletedField].Obj?
    && CreatedField in r && r[CreatedField].Obj?
  }

  /** An entry decoded with `old_snap = True` (tracker.py:175-176): it also carries the flat old snapshot. */
  predicate SnapEntry(r: Dict)
  {
    LogEntry(r) && SnapField in r && r[SnapField].Obj?
  }

  /** The flat old snapshot an entry carries. */
  function Snap(r: Dict): Dict
    requires SnapEntry(r)
  {
    r[SnapField].m
  }

  /** The timestamp of an entry. */
  function Stamp(r: Dict): int
    requires LogEntry(r)
  {
    r[TimestampField].n
  }

  /**
   * One stored record, its seven fields already parsed back from text: the
   * clock fields, the id, the three flat delta maps and the flat old snapshot.
   */
  datatype Row = Row(updatedOn: Value, timestamp: int, id: Value,
                     updated: Dict, deleted: Dict, inserted: Dict, snap: Dict)

  /** The three flat delta maps of a row can be rebuilt by `__deflatten`. */
  predicate Decodable(row: Row)
  {
    PrefixFree(row.updated) && PrefixFree(row.deleted) && PrefixFree(row.inserted)
  }

  /**
   * The entry tracker.py:169-182 builds from one row: the delta maps go
   * through `__deflatten` (line 154), and the snapshot is attached only when
   * `old_snap` is set.
   */
  function Decode(row: Row, oldSnap: bool): (r: Dict)
    requires Decodable(row)
    ensures LogEntry(r)
    ensures SnapEntry(r) <==> oldSnap
  {
    var base := map[UpdatedOnField := row.updatedOn, TimestampField := Num(row.timestamp), PkField := row.id,
                    UpdatedField := Obj(Unflatten(row.updated)),
                    DeletedField := Obj(Unflatten(row.deleted)),
                    CreatedField := Obj(Unflatten(row.inserted))];
    assert SnapField !in base by {
      assert SnapField[0] == 's';
      assert UpdatedOnField[0] == 'u' && TimestampField[0] == 't' && PkField[0] == 'i';
      assert UpdatedField[0] == '@' && DeletedField[0] == '@' && CreatedField[0] == '@';
    }
    if oldSnap then base[SnapField := Obj(row.snap)] else base
  }

  /**
   * A decoded entry carries the row's fields, its delta maps rebuilt so that
   * every flat path leads to the value stored under it, and, when asked for,
   * the old snapshot unchanged.
   */
  lemma DecodeFields(row: Row, oldSnap: bool)
    requires Decodable(row)
    ensures var r := Decode(row, oldSnap);
            && r[UpdatedOnField] == row.updatedOn && Stamp(r) == row.timestamp && r[PkField] == row.id
            && (oldSnap ==> Snap(r) == row.snap)
            && r[UpdatedField] == Obj(Unflatten(row.updated))
            && r[DeletedField] == Obj(Unflatten(row.deleted))
            && r[CreatedField] == Obj(Unflatten(row.inserted))
            && (forall k :: k in row.updated ==> Lookup(r[UpdatedField].m, Split(k)) == Some(row.updated[k]))
            && (forall k :: k in row.deleted ==> Lookup(r[DeletedField].m, Split(k)) == Some(row.deleted[k]))
            && (forall k :: k in row.inserted ==> Lookup(r[CreatedField].m, Split(k)) == Some(row.inserted[k]))
  {
    var r := Decode(row, oldSnap);
    assert UpdatedField != DeletedField by { assert UpdatedField[1] == 'u' && DeletedField[1] == 'd'; }
    assert UpdatedField != CreatedField by { assert UpdatedField[1] == 'u' && CreatedField[1] == 'i'; }
    assert DeletedField != CreatedField by { assert DeletedField[1] == 'd' && CreatedField[1] == 'i'; }
    assert r[UpdatedField] == Obj(Unflatten(row.updated));
    assert r[DeletedField] == Obj(Unflatten(row.deleted));
    assert r[CreatedField] == Obj(Unflatten(row.inserted));
    forall k | k in row.updated ensures Lookup(r[UpdatedField].m, Split(k)) == Some(row.updated[k]) {
      UnflattenAt(row.updated, k);
    }
    forall k | k in row.deleted ensures Lookup(r[DeletedField].m, Split(k)) == Some(row.deleted[k]) {
      UnflattenAt(row.deleted, k);
    }
    forall k | k in row.inserted ensures Lookup(r[CreatedField].m, Split(k)) == Some(row.inserted[k]) {
      UnflattenAt(row.inserted, k);
    }
  }

  /** `audit[pk_name] == id`. */
  predicate HasId(r: Dict, id: Value)
  {
    PkField in r && r[PkField] == id
  }

  /** `list(filter(p, s))`, built from the front of `s` to its end. */
  function Filter(s: seq<Dict>, p: Dict -> bool): seq<Dict>
    decreases |s|
  {
    if s == [] then []
    else Filter(s[..|s| - 1], p) + (if p(s[|s| - 1]) then [s[|s| - 1]] else [])
  }

  /**
   * The filter keeps the elements of `s` that satisfy `p`, each exactly as
   * often as it occurs in `s`, and nothing else.
   */
  lemma {:induction false} FilterCount(s: seq<Dict>, p: Dict -> bool)
    ensures forall x :: multiset(Filter(s, p))[x] == if p(x) then multiset(s)[x] else 0
    decreases |s|
  {
    if s != [] {
      var init := s[..|s| - 1];
      FilterCount(init, p);
      assert s == init + [s[|s| - 1]];
    }
  }

  /** Membership in the filter: exactly the elements of `s` that satisfy `p`. */
  lemma FilterMembers(s: seq<Dict>, p: Dict -> bool)
    ensures forall x :: x in Filter(s, p) <==> x in s && p(x)
  {
    FilterCount(s, p);
    forall x ensures x in Filter(s, p) <==> x in s && p(x) {
      assert x in Filter(s, p) <==> multiset(Filter(s, p))[x] > 0;
      assert x in s <==> multiset(s)[x] > 0;
    }
  }

  /** Filtering distributes over concatenation, so what it keeps stays in its relative order. */
  lemma {:induction false} FilterConcat(a: seq<Dict>, b: seq<Dict>, p: Dict -> bool)
    ensures Filter(a + b, p) == Filter(a, p) + Filter(b, p)
    decreases |b|
  {
    if b == [] {
      assert a + b == a;
    } else {
      var init := b[..|b| - 1];
      var last := b[|b| - 1];
      FilterConcat(a, init, p);
      assert (a + b)[..|a + b| - 1] == a + init;
      assert (a + b)[|a + b| - 1] == last;
      var tail: seq<Dict> := if p(last) then [last] else [];
      calc {
        Filter(a + b, p);
        Filter(a + init, p) + tail;
        Filter(a, p) + Filter(init, p) + tail;
        Filter(a, p) + (Filter(init, p) + tail);
      }
    }
  }

  /** Filtering keeps everything when every element satisfies the predicate, and nothing when none does. */
  lemma {:induction false} FilterAllOrNone(s: seq<Dict>, p: Dict -> bool)
    ensures (forall i :: 0 <= i < |s| ==> p(s[i])) ==> Filter(s, p) == s
    ensures (forall i :: 0 <= i < |s| ==> !p(s[i])) ==> Filter(s, p) == []
    decreases |s|
  {
    if s != [] {
      var init := s[..|s| - 1];
      FilterAllOrNone(init, p);
      assert s == init + [s[|s| - 1]];
      assert forall i :: 0 <= i < |init| ==> init[i] == s[i];
    }
  }

  /** The entries of `records` whose id is `id`, in log order. */
  function Group(records: seq<Dict>, id: Value): seq<Dict>
  {
    Filter(records, (r: Dict) => HasId(r, id))
  }
}
