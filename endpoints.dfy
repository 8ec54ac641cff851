/**
 * Endpoint reconstruction: `__calc_endpoints_delta` (tracker.py:232-260)
 * reduces the entries of each id to one delta between the first recorded
 * snapshot and the snapshot the last entry leads to; `__remove_keys`
 * (tracker.py:198-201) then strips the snapshot and the clock fields.
 */
module Endpoints {
  import opened Values
  import opened AuditLog
  import opened PathCodec
  import opened DiffEngine
  import opened Replay

  // ---------------------------------------------------------------------------
  // __remove_keys (tracker.py:198-201)
  // ---------------------------------------------------------------------------

  /** The keys `__calc_endpoints_delta` strips from every result (tracker.py:258). */
  const StrippedKeys: seq<string> := [SnapField, UpdatedOnField, TimestampField]

  /** A result entry: `d` without the snapshot and the clock fields. */
  function Strip(d: Dict): Dict
  {
    d - {SnapField, UpdatedOnField, TimestampField}
  }

  /** A delta without its clock fields: the id and the three delta maps, whatever the clock read. */
  lemma StripDelta(before: Dict, after: Dict, pk: string, clock: Clock)
    ensures Strip(Delta(before, after, pk, clock)) ==
              map[PkField := Get(before, pk),
                  UpdatedField := Obj(UpdatedPaths(before, after)),
                  DeletedField := Obj(DeletedPaths(before, after)),
                  CreatedField := Obj(CreatedPaths(before, after))]
  {
    var d := Delta(before, after, pk, clock);
    var kept := map[PkField := Get(before, pk),
                    UpdatedField := Obj(UpdatedPaths(before, after)),
                    DeletedField := Obj(DeletedPaths(before, after)),
                    CreatedField := Obj(CreatedPaths(before, after))];
    assert PkField[0] == 'i' && UpdatedField[1] == 'u' && DeletedField[1] == 'd' && CreatedField[1] == 'i';
    assert SnapField[0] == 's' && UpdatedOnField[0] == 'u' && TimestampField[0] == 't';
    assert UpdatedField[0] == DeletedField[0] == CreatedField[0] == '@';
    assert forall k :: k in Strip(d) <==> k in kept;
    assert forall k :: k in kept ==> Strip(d)[k] == kept[k];
  }

  /**
   * `__remove_keys(obj, keys)`: deletes each listed key that is present,
   * which Python does in place; every other key keeps its value.
   */
  method RemoveKeys(obj: Dict, keys: seq<string>) returns (r: Dict)
    ensures forall j :: j in r <==> j in obj && j !in keys
    ensures forall j :: j in r ==> r[j] == obj[j]
  {
    r := obj;
    for i := 0 to |keys|
      invariant forall j :: j in r <==> j in obj && j !in keys[..i]
      invariant forall j :: j in r ==> r[j] == obj[j]
    {
      if keys[i] in r {
        r := r - {keys[i]};
      }
      assert keys[..i + 1] == keys[..i] + [keys[i]];
    }
    assert keys[..|keys|] == keys;
  }

  // ---------------------------------------------------------------------------
  // What the endpoints are, group by group
  // ---------------------------------------------------------------------------

  /** The distinct ids of `records` in the order in which they first appear. */
  function Ids(records: seq<Dict>): seq<Value>
    requires forall i :: 0 <= i < |records| ==> PkField in records[i]
    decreases |records|
  {
    if records == [] then []
    else
      var ids := Ids(records[..|records| - 1]);
      var id := records[|records| - 1][PkField];
      if id in ids then ids else ids + [id]
  }

  /**
   * The endpoint of one group: a single entry stands for itself; a longer
   * group yields the delta from the first entry's snapshot to the result of
   * replaying the last entry onto its own snapshot. `None` is the KeyError
   * the replay can raise.
   */
  function GroupEndpoint(g: seq<Dict>, pk: string, clock: Clock): Option<Dict>
    requires |g| >= 1 && forall i :: 0 <= i < |g| ==> SnapEntry(g[i])
  {
    if |g| == 1 then Some(Strip(g[0]))
    else
      var last := g[|g| - 1];
      assert Replayable(last) by { assert SnapEntry(last); }
      match ReplayAsWritten(Snap(last), last)
      case None => None
      case Some(finish) => Some(Strip(Delta(Snap(g[0]), finish, pk, clock)))
  }

  /** Appends an endpoint to the endpoints so far; a failure on either side fails the whole. */
  function Append(done: Option<seq<Dict>>, d: Option<Dict>): Option<seq<Dict>>
  {
    if done.Some? && d.Some? then Some(done.value + [d.value]) else None
  }

  /** The endpoint of the group of `id` in `records`. */
  function EndpointFor(records: seq<Dict>, id: Value, pk: string, clock: Clock): Option<Dict>
    requires forall i :: 0 <= i < |records| ==> SnapEntry(records[i])
    requires |Group(records, id)| >= 1
  {
    GroupEntries(records, id);
    GroupEndpoint(Group(records, id), pk, clock)
  }

  /** The endpoint of each id's group, id by id. */
  function Ends(records: seq<Dict>, ids: seq<Value>, pk: string, clock: Clock): (r: seq<Option<Dict>>)
    requires forall i :: 0 <= i < |records| ==> SnapEntry(records[i])
    requires forall j :: 0 <= j < |ids| ==> |Group(records, ids[j])| >= 1
  {
    seq(|ids|, j requires 0 <= j < |ids| => EndpointFor(records, ids[j], pk, clock))
  }

  /** The list `_list` ends up holding: every endpoint in order, or `None` once one of them fails. */
  function Collect(ends: seq<Option<Dict>>): Option<seq<Dict>>
    decreases |ends|
  {
    if ends == [] then Some([])
    else Append(Collect(ends[..|ends| - 1]), ends[|ends| - 1])
  }

  /** The endpoints of the groups of `ids`, in that order. */
  function EndpointsOf(records: seq<Dict>, ids: seq<Value>, pk: string, clock: Clock): Option<seq<Dict>>
    requires forall i :: 0 <= i < |records| ==> SnapEntry(records[i])
    requires forall j :: 0 <= j < |ids| ==> |Group(records, ids[j])| >= 1
  {
    Collect(Ends(records, ids, pk, clock))
  }

  /** The result of `__calc_endpoints_delta(records)`: one endpoint per id, in order of first appearance. */
  function Endpoints(records: seq<Dict>, pk: string, clock: Clock): Option<seq<Dict>>
    requires forall i :: 0 <= i < |records| ==> SnapEntry(records[i])
  {
    assert forall i :: 0 <= i < |records| ==> PkField in records[i] by {
      forall i | 0 <= i < |records| ensures PkField in records[i] {
        assert SnapEntry(records[i]);
      }
    }
    IdsHaveGroups(records);
    EndpointsOf(records, Ids(records), pk, clock)
  }

  /** The entries of a group are entries of the log, and they carry its id. */
  lemma GroupEntries(records: seq<Dict>, id: Value)
    requires forall i :: 0 <= i < |records| ==> SnapEntry(records[i])
    ensures forall i :: 0 <= i < |Group(records, id)| ==> SnapEntry(Group(records, id)[i]) && Group(records, id)[i][PkField] == id
  {
    var g := Group(records, id);
    FilterMembers(records, (r: Dict) => HasId(r, id));
    forall i | 0 <= i < |g| ensures SnapEntry(g[i]) && g[i][PkField] == id {
      assert g[i] in g;
      var k :| 0 <= k < |records| && records[k] == g[i];
    }
  }

  // ---------------------------------------------------------------------------
  // The distinct ids
  // ---------------------------------------------------------------------------

  /** An id is listed exactly when some entry carries it, and no id is listed twice. */
  lemma {:induction false} IdsSpec(records: seq<Dict>)
    requires forall i :: 0 <= i < |records| ==> PkField in records[i]
    ensures forall id :: id in Ids(records) <==> exists i :: 0 <= i < |records| && records[i][PkField] == id
    ensures forall a, b :: 0 <= a < b < |Ids(records)| ==> Ids(records)[a] != Ids(records)[b]
    decreases |records|
  {
    if records != [] {
      var init := records[..|records| - 1];
      IdsSpec(init);
      forall id | (exists i :: 0 <= i < |records| && records[i][PkField] == id)
        ensures id in Ids(records)
      {
        var i :| 0 <= i < |records| && records[i][PkField] == id;
        if i < |init| {
          assert init[i] == records[i];
        }
      }
      forall id | id in Ids(records)
        ensures exists i :: 0 <= i < |records| && records[i][PkField] == id
      {
        if id in Ids(init) {
          var i :| 0 <= i < |init| && init[i][PkField] == id;
          assert records[i] == init[i];
        } else {
          assert records[|records| - 1][PkField] == id;
        }
      }
    }
  }

  /** Some entry carries `x` before (or without) any entry carrying `y`: `x` appears first. */
  predicate AppearsBefore(records: seq<Dict>, x: Value, y: Value)
    requires forall i :: 0 <= i < |records| ==> PkField in records[i]
  {
    exists i :: 0 <= i < |records| && records[i][PkField] == x &&
                forall j :: 0 <= j <= i ==> records[j][PkField] != y
  }

  /**
   * The ids come in order of first appearance: an earlier listed id occurs
   * in an entry before any entry that carries a later one.
   */
  lemma {:induction false} IdsOrder(records: seq<Dict>)
    requires forall i :: 0 <= i < |records| ==> PkField in records[i]
    ensures forall a, b :: 0 <= a < b < |Ids(records)| ==> AppearsBefore(records, Ids(records)[a], Ids(records)[b])
    decreases |records|
  {
    if records != [] {
      var init := records[..|records| - 1];
      IdsOrder(init);
      IdsSpec(init);
      var prev := Ids(init);
      assert forall k :: 0 <= k < |prev| ==> Ids(records)[k] == prev[k];
      forall a, b | 0 <= a < b < |Ids(records)|
        ensures AppearsBefore(records, Ids(records)[a], Ids(records)[b])
      {
        if b < |prev| {
          assert AppearsBefore(init, prev[a], prev[b]);
          var i :| 0 <= i < |init| && init[i][PkField] == prev[a] &&
                   forall j :: 0 <= j <= i ==> init[j][PkField] != prev[b];
          assert records[i] == init[i];
          assert forall j :: 0 <= j <= i ==> records[j] == init[j];
        } else {
          var last := records[|records| - 1][PkField];
          assert Ids(records) == prev + [last] && last !in prev;
          assert prev[a] in prev;
          var i :| 0 <= i < |init| && init[i][PkField] == prev[a];
          assert records[i] == init[i];
          forall j | 0 <= j <= i ensures records[j][PkField] != last {
            assert records[j] == init[j];
          }
        }
      }
    }
  }

  /** Every listed id has a non-empty group. */
  lemma IdsHaveGroups(records: seq<Dict>)
    requires forall i :: 0 <= i < |records| ==> PkField in records[i]
    ensures forall j :: 0 <= j < |Ids(records)| ==> |Group(records, Ids(records)[j])| >= 1
  {
    IdsSpec(records);
    forall j | 0 <= j < |Ids(records)|
      ensures |Group(records, Ids(records)[j])| >= 1
    {
      var id := Ids(records)[j];
      assert id in Ids(records);
      var i :| 0 <= i < |records| && records[i][PkField] == id;
      FilterMembers(records, (r: Dict) => HasId(r, id));
      assert records[i] in Group(records, id);
    }
  }

  // ---------------------------------------------------------------------------
  // The buffer of tracker.py:235-245
  // ---------------------------------------------------------------------------

  /** One entry of `buffer`: the first snapshot, the last snapshot, the last entry and whether there were several. */
  datatype Slot = Slot(start: Value, end: Value, delta: Dict, changed: bool)

  /** The buffer after the first loop has visited `records` (tracker.py:235-245). */
  ghost function BufferOf(records: seq<Dict>): map<Value, Slot>
    requires forall i :: 0 <= i < |records| ==> SnapEntry(records[i])
    decreases |records|
  {
    if records == [] then map[]
    else
      var buffer := BufferOf(records[..|records| - 1]);
      var record := records[|records| - 1];
      assert SnapEntry(record);
      var id := record[PkField];
      if id in buffer then buffer[id := buffer[id].(end := record[SnapField], delta := record, changed := true)]
      else buffer[id := Slot(record[SnapField], Null, record, false)]
  }

  /**
   * The buffer keeps, for each id, the snapshot of its first entry, its last
   * entry with that entry's snapshot, and whether the group has more than one
   * entry: the entries in between leave no trace.
   */
  lemma {:induction false} BufferSlot(records: seq<Dict>, id: Value)
    requires forall i :: 0 <= i < |records| ==> SnapEntry(records[i])
    ensures id in BufferOf(records) <==> |Group(records, id)| >= 1
    ensures id in BufferOf(records) ==> Summarises(BufferOf(records)[id], Group(records, id))
    decreases |records|
  {
    GroupEntries(records, id);
    if records != [] {
      var init := records[..|records| - 1];
      var record := records[|records| - 1];
      BufferSlot(init, id);
      GroupEntries(init, id);
      var g0 := Group(init, id);
      var g := Group(records, id);
      assert SnapEntry(record);
      if HasId(record, id) {
        assert g == g0 + [record];
        if id in BufferOf(init) {
          assert BufferOf(records)[id] == BufferOf(init)[id].(end := record[SnapField], delta := record, changed := true);
          assert g[0] == g0[0];
        } else {
          assert g == [record];
        }
      } else {
        assert g == g0;
        assert BufferOf(records) == BufferOf(init)[record[PkField] := BufferOf(records)[record[PkField]]];
      }
    }
  }

  /**
   * `slot` records the group `g`: the snapshot of its first entry, its last
   * entry with that entry's snapshot, and whether it has several entries.
   */
  predicate Summarises(slot: Slot, g: seq<Dict>)
  {
    && |g| >= 1 && (forall i :: 0 <= i < |g| ==> SnapEntry(g[i]))
    && slot.start == Obj(Snap(g[0]))
    && slot.delta == g[|g| - 1]
    && (slot.changed <==> |g| >= 2)
    && (slot.changed ==> slot.end == Obj(Snap(g[|g| - 1])))
  }

  /** The buffer's keys are the listed ids. */
  lemma {:induction false} BufferKeys(records: seq<Dict>)
    requires forall i :: 0 <= i < |records| ==> SnapEntry(records[i])
    ensures forall id :: id in BufferOf(records) <==> id in Ids(records)
    decreases |records|
  {
    if records != [] {
      BufferKeys(records[..|records| - 1]);
    }
  }

  // ---------------------------------------------------------------------------
  // __calc_endpoints_delta (tracker.py:232-260)
  // ---------------------------------------------------------------------------

  /**
   * tracker.py:232-260: the first loop fills `buffer`, the second replays and
   * diffs each group with several entries and strips every result.
   */
  method CalcEndpoints(records: seq<Dict>, pk: string, clock: Clock) returns (r: Option<seq<Dict>>)
    requires forall i :: 0 <= i < |records| ==> SnapEntry(records[i])
    ensures r == Endpoints(records, pk, clock)
  {
    var buffer, order := FillBuffer(records);
    BufferKeys(records);
    IdsHaveGroups(records);
    var out: seq<Dict> := [];
    for j := 0 to |order|
      invariant EndpointsOf(records, order[..j], pk, clock) == Some(out)
    {
      var id := order[j];
      BufferSlot(records, id);
      var d := SlotEndpoint(buffer[id], Group(records, id), pk, clock);
      assert order[..j + 1][..j] == order[..j];
      var ends := Ends(records, order[..j + 1], pk, clock);
      assert ends[..j] == Ends(records, order[..j], pk, clock);
      assert EndpointsOf(records, order[..j + 1], pk, clock) == Append(Some(out), EndpointFor(records, id, pk, clock));
      if d.None? {
        EndpointsOfEach(records, order, pk, clock);
        return None;
      }
      out := out + [d.value];
    }
    assert order[..|order|] == order;
    r := Some(out);
  }

  /**
   * The first loop of tracker.py:235-245, remembering in `order` the
   * insertion order in which Python's dict yields its keys at line 247.
   */
  method FillBuffer(records: seq<Dict>) returns (buffer: map<Value, Slot>, order: seq<Value>)
    requires forall i :: 0 <= i < |records| ==> SnapEntry(records[i])
    ensures buffer == BufferOf(records) && order == Ids(records)
  {
    buffer := map[];
    order := [];
    for i := 0 to |records|
      invariant buffer == BufferOf(records[..i])
      invariant order == Ids(records[..i])
    {
      assert records[..i + 1][..i] == records[..i];
      var record := records[i];
      var id := record[PkField];
      BufferKeys(records[..i]);
      if id in buffer {
        buffer := buffer[id := buffer[id].(end := record[SnapField], delta := record, changed := true)];
      } else {
        buffer := buffer[id := Slot(record[SnapField], Null, record, false)];
        order := order + [id];
      }
    }
    assert records[..|records|] == records;
  }

  /**
   * The body of the second loop (tracker.py:248-259) for one buffer entry:
   * what it computes is the endpoint of the group the entry summarises.
   */
  method SlotEndpoint(slot: Slot, ghost g: seq<Dict>, pk: string, clock: Clock) returns (d: Option<Dict>)
    requires Summarises(slot, g)
    ensures d == GroupEndpoint(g, pk, clock)
  {
    var delta: Dict;
    if slot.changed {
      var finish := ConstructObjFromDelta(slot.end.m, slot.delta);
      if finish.None? {
        return None;
      }
      delta := GenerateDelta(slot.start.m, finish.value, pk, clock);
    } else {
      delta := slot.delta;
    }
    var stripped := RemoveKeys(delta, StrippedKeys);
    assert stripped == Strip(delta);
    d := Some(stripped);
  }

  // ---------------------------------------------------------------------------
  // Properties of the endpoints
  // ---------------------------------------------------------------------------

  /** Collecting succeeds exactly when every endpoint does, and then keeps them all, in order. */
  lemma {:induction false} CollectAll(ends: seq<Option<Dict>>)
    ensures Collect(ends).Some? <==> forall j :: 0 <= j < |ends| ==> ends[j].Some?
    ensures Collect(ends).Some? ==>
              |Collect(ends).value| == |ends| && forall j :: 0 <= j < |ends| ==> Collect(ends).value[j] == ends[j].value
    decreases |ends|
  {
    if ends != [] {
      var init := ends[..|ends| - 1];
      CollectAll(init);
      assert forall j :: 0 <= j < |init| ==> init[j] == ends[j];
    }
  }

  /**
   * The endpoints succeed exactly when every group's endpoint does, and then
   * hold one entry per id, the endpoint of that id's group.
   */
  lemma EndpointsOfEach(records: seq<Dict>, ids: seq<Value>, pk: string, clock: Clock)
    requires forall i :: 0 <= i < |records| ==> SnapEntry(records[i])
    requires forall j :: 0 <= j < |ids| ==> |Group(records, ids[j])| >= 1
    ensures EndpointsOf(records, ids, pk, clock).Some? <==> forall j :: 0 <= j < |ids| ==> EndpointFor(records, ids[j], pk, clock).Some?
    ensures EndpointsOf(records, ids, pk, clock).Some? ==>
              var out := EndpointsOf(records, ids, pk, clock).value;
              |out| == |ids| && forall j :: 0 <= j < |ids| ==> Some(out[j]) == EndpointFor(records, ids[j], pk, clock)
  {
    var e := Ends(records, ids, pk, clock);
    CollectAll(e);
    assert |e| == |ids|;
    assert forall j :: 0 <= j < |ids| ==> e[j] == EndpointFor(records, ids[j], pk, clock);
  }

  /**
   * `__calc_endpoints_delta` yields one entry per distinct id, in order of
   * first appearance, each the endpoint of that id's group.
   */
  lemma EndpointsPerId(records: seq<Dict>, pk: string, clock: Clock)
    requires forall i :: 0 <= i < |records| ==> SnapEntry(records[i])
    requires Endpoints(records, pk, clock).Some?
    ensures forall i :: 0 <= i < |records| ==> PkField in records[i]
    ensures forall j :: 0 <= j < |Ids(records)| ==> |Group(records, Ids(records)[j])| >= 1
    ensures var out := Endpoints(records, pk, clock).value;
            |out| == |Ids(records)| && forall j :: 0 <= j < |out| ==> Some(out[j]) == EndpointFor(records, Ids(records)[j], pk, clock)
  {
    assert forall i :: 0 <= i < |records| ==> PkField in records[i] by {
      forall i | 0 <= i < |records| ensures PkField in records[i] {
        assert SnapEntry(records[i]);
      }
    }
    IdsHaveGroups(records);
    EndpointsOfEach(records, Ids(records), pk, clock);
  }

  /** The clock reading has no effect on one group's endpoint: the clock fields are stripped. */
  lemma EndpointForIgnoresClock(records: seq<Dict>, id: Value, pk: string, c1: Clock, c2: Clock)
    requires forall i :: 0 <= i < |records| ==> SnapEntry(records[i])
    requires |Group(records, id)| >= 1
    ensures EndpointFor(records, id, pk, c1) == EndpointFor(records, id, pk, c2)
  {
    GroupEntries(records, id);
    var g := Group(records, id);
    if |g| >= 2 {
      var last := g[|g| - 1];
      assert Replayable(last) by { assert SnapEntry(last); }
      if ReplayAsWritten(Snap(last), last).Some? {
        var finish := ReplayAsWritten(Snap(last), last).value;
        StripDelta(Snap(g[0]), finish, pk, c1);
        StripDelta(Snap(g[0]), finish, pk, c2);
      }
    }
  }

  /** `__calc_endpoints_delta` gives the same result whatever the clock reads. */
  lemma EndpointsIgnoreClock(records: seq<Dict>, pk: string, c1: Clock, c2: Clock)
    requires forall i :: 0 <= i < |records| ==> SnapEntry(records[i])
    ensures Endpoints(records, pk, c1) == Endpoints(records, pk, c2)
  {
    assert forall i :: 0 <= i < |records| ==> PkField in records[i] by {
      forall i | 0 <= i < |records| ensures PkField in records[i] {
        assert SnapEntry(records[i]);
      }
    }
    IdsHaveGroups(records);
    var ids := Ids(records);
    forall j | 0 <= j < |ids|
      ensures EndpointFor(records, ids[j], pk, c1) == EndpointFor(records, ids[j], pk, c2)
    {
      EndpointForIgnoresClock(records, ids[j], pk, c1, c2);
    }
    assert Ends(records, ids, pk, c1) == Ends(records, ids, pk, c2);
  }

  // ---------------------------------------------------------------------------
  // Entries between the first and the last of a group do not matter
  // ---------------------------------------------------------------------------

  /** Dropping an entry whose id has already appeared leaves the list of ids as it was. */
  lemma {:induction false} IdsSkip(a: seq<Dict>, x: Dict, b: seq<Dict>)
    requires forall i :: 0 <= i < |a| ==> PkField in a[i]
    requires PkField in x && x[PkField] in Ids(a)
    requires forall i :: 0 <= i < |b| ==> PkField in b[i]
    ensures Ids(a + [x] + b) == Ids(a + b)
    decreases |b|
  {
    if b == [] {
      assert a + [x] + b == a + [x];
      assert (a + [x])[..|a|] == a;
      assert a + b == a;
    } else {
      var init := b[..|b| - 1];
      IdsSkip(a, x, init);
      assert (a + [x] + b)[..|a + [x] + b| - 1] == a + [x] + init;
      assert (a + b)[..|a + b| - 1] == a + init;
    }
  }

  /** The group of the dropped entry's id loses just that entry; every other group is untouched. */
  lemma GroupSkip(a: seq<Dict>, x: Dict, b: seq<Dict>, id: Value)
    ensures HasId(x, id) ==> Group(a + [x] + b, id) == Group(a, id) + [x] + Group(b, id)
    ensures Group(a + b, id) == Group(a, id) + Group(b, id)
    ensures !HasId(x, id) ==> Group(a + [x] + b, id) == Group(a + b, id)
  {
    var p := (r: Dict) => HasId(r, id);
    FilterConcat(a + [x], b, p);
    FilterConcat(a, [x], p);
    FilterConcat(a, b, p);
    assert [x][..0] == [];
  }

  /**
   * When the dropped entry has an entry with its id before it and after it,
   * the group it belonged to keeps its first and its last entry and its
   * endpoint does not change.
   */
  lemma EndpointForSkip(a: seq<Dict>, x: Dict, b: seq<Dict>, id: Value, pk: string, clock: Clock)
    requires forall i :: 0 <= i < |a| ==> SnapEntry(a[i])
    requires SnapEntry(x)
    requires forall i :: 0 <= i < |b| ==> SnapEntry(b[i])
    requires exists i :: 0 <= i < |a| && HasId(a[i], x[PkField])
    requires exists i :: 0 <= i < |b| && HasId(b[i], x[PkField])
    requires |Group(a + [x] + b, id)| >= 1
    ensures |Group(a + b, id)| >= 1
    ensures EndpointFor(a + [x] + b, id, pk, clock) == EndpointFor(a + b, id, pk, clock)
  {
    GroupSkip(a, x, b, id);
    if HasId(x, id) {
      var i :| 0 <= i < |a| && HasId(a[i], x[PkField]);
      var k :| 0 <= k < |b| && HasId(b[k], x[PkField]);
      FilterMembers(a, (r: Dict) => HasId(r, id));
      FilterMembers(b, (r: Dict) => HasId(r, id));
      assert a[i] in Group(a, id);
      assert b[k] in Group(b, id);
      var g1 := Group(a + [x] + b, id);
      var g2 := Group(a + b, id);
      assert |g1| >= 2 && |g2| >= 2;
      assert g1[0] == g2[0];
      assert g1[|g1| - 1] == g2[|g2| - 1];
    }
  }

  /** The endpoints of a list of ids, entry by entry, are the same without the dropped entry. */
  lemma EndsSkip(a: seq<Dict>, x: Dict, b: seq<Dict>, ids: seq<Value>, pk: string, clock: Clock)
    requires forall i :: 0 <= i < |a| ==> SnapEntry(a[i])
    requires SnapEntry(x)
    requires forall i :: 0 <= i < |b| ==> SnapEntry(b[i])
    requires exists i :: 0 <= i < |a| && HasId(a[i], x[PkField])
    requires exists i :: 0 <= i < |b| && HasId(b[i], x[PkField])
    requires forall j :: 0 <= j < |ids| ==> |Group(a + [x] + b, ids[j])| >= 1
    ensures forall j :: 0 <= j < |ids| ==> |Group(a + b, ids[j])| >= 1
    ensures Ends(a + [x] + b, ids, pk, clock) == Ends(a + b, ids, pk, clock)
  {
    forall j | 0 <= j < |ids|
      ensures |Group(a + b, ids[j])| >= 1
      ensures EndpointFor(a + [x] + b, ids[j], pk, clock) == EndpointFor(a + b, ids[j], pk, clock)
    {
      EndpointForSkip(a, x, b, ids[j], pk, clock);
    }
  }

  /**
   * Only the first and the last entry of a group matter: dropping an entry
   * that has an entry with the same id before it and one after it leaves the
   * result of `__calc_endpoints_delta` unchanged.
   */
  lemma DropMiddle(a: seq<Dict>, x: Dict, b: seq<Dict>, pk: string, clock: Clock)
    requires forall i :: 0 <= i < |a| ==> SnapEntry(a[i])
    requires SnapEntry(x)
    requires forall i :: 0 <= i < |b| ==> SnapEntry(b[i])
    requires exists i :: 0 <= i < |a| && HasId(a[i], x[PkField])
    requires exists i :: 0 <= i < |b| && HasId(b[i], x[PkField])
    ensures Endpoints(a + [x] + b, pk, clock) == Endpoints(a + b, pk, clock)
  {
    var i :| 0 <= i < |a| && HasId(a[i], x[PkField]);
    assert forall j :: 0 <= j < |a| ==> PkField in a[j] by {
      forall j | 0 <= j < |a| ensures PkField in a[j] { assert SnapEntry(a[j]); }
    }
    assert forall j :: 0 <= j < |b| ==> PkField in b[j] by {
      forall j | 0 <= j < |b| ensures PkField in b[j] { assert SnapEntry(b[j]); }
    }
    IdsSpec(a);
    IdsSkip(a, x, b);
    var all := a + [x] + b;
    assert forall j :: 0 <= j < |all| ==> SnapEntry(all[j]);
    assert forall j :: 0 <= j < |all| ==> PkField in all[j] by {
      forall j | 0 <= j < |all| ensures PkField in all[j] { assert SnapEntry(all[j]); }
    }
    IdsHaveGroups(all);
    EndsSkip(a, x, b, Ids(all), pk, clock);
  }
}
