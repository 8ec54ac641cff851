/**
 * The diff engine: `__generate_delta_obj` (tracker.py:116-149) compares two
 * flat snapshots and records which paths were created, updated and deleted.
 */
module DiffEngine {
  import opened Values

  /** Paths of both snapshots whose values differ, each as a `{-from, +to}` pair (tracker.py:134-139). */
  function UpdatedPaths(before: Dict, after: Dict): Dict
  {
    map k | k in before && k in after && before[k] != after[k] :: Obj(map[FromKey := before[k], ToKey := after[k]])
  }

  /** Paths only the new snapshot has, each as `{+inserted_data}` (tracker.py:132, 142-143). */
  function CreatedPaths(before: Dict, after: Dict): Dict
  {
    map k | k in after && k !in before :: Obj(map[InsertedKey := after[k]])
  }

  /** Paths only the old snapshot has, each as `{-data_was}` (tracker.py:133, 146-147). */
  function DeletedPaths(before: Dict, after: Dict): Dict
  {
    map k | k in before && k !in after :: Obj(map[DeletedKey := before[k]])
  }

  /** Paths of both snapshots with equal values; no delta map mentions them. */
  function UnchangedPaths(before: Dict, after: Dict): set<string>
  {
    set k | k in before && k in after && before[k] == after[k]
  }

  /** The delta record `__generate_delta_obj(before, after)` (the old and the new snapshot) returns, with its clock reading passed in. */
  function Delta(before: Dict, after: Dict, pk: string, clock: Clock): Dict
  {
    map[
      UpdatedOnField := Str(clock.now),
      TimestampField := Num(clock.stamp),
      PkField := Get(before, pk),
      UpdatedField := Obj(UpdatedPaths(before, after)),
      DeletedField := Obj(DeletedPaths(before, after)),
      CreatedField := Obj(CreatedPaths(before, after))
    ]
  }

  /**
   * tracker.py:116-149: the record is built from the three loops below, each
   * visiting its key set in whatever order the set comes.
   */
  method GenerateDelta(before: Dict, after: Dict, pk: string, clock: Clock) returns (delta: Dict)
    ensures delta == Delta(before, after, pk, clock)
  {
    var updated := CollectUpdated(before, after);
    var created := CollectCreated(before, after);
    var deleted := CollectDeleted(before, after);
    delta := map[
      UpdatedOnField := Str(clock.now),
      TimestampField := Num(clock.stamp),
      PkField := Get(before, pk),
      UpdatedField := Obj(updated),
      DeletedField := Obj(deleted),
      CreatedField := Obj(created)
    ];
  }

  /** The loop of tracker.py:137-139 over the common keys (line 134). */
  method CollectUpdated(before: Dict, after: Dict) returns (updated: Dict)
    ensures updated == UpdatedPaths(before, after)
  {
    updated := map[];
    var commonKeys := before.Keys * after.Keys;
    var todo := commonKeys;
    while todo != {}
      invariant todo <= commonKeys
      invariant updated == map k | k in commonKeys - todo && before[k] != after[k] :: Obj(map[FromKey := before[k], ToKey := after[k]])
      decreases |todo|
    {
      var k :| k in todo;
      if before[k] != after[k] {
        updated := updated[k := Obj(map[FromKey := before[k], ToKey := after[k]])];
      }
      todo := todo - {k};
    }
    assert commonKeys - todo == commonKeys;
  }

  /** The loop of tracker.py:142-143 over the new keys (line 132): the new snapshot's keys the old one lacks. */
  method CollectCreated(before: Dict, after: Dict) returns (created: Dict)
    ensures created == CreatedPaths(before, after)
  {
    created := map[];
    var todo := after.Keys;
    while todo != {}
      invariant todo <= after.Keys
      invariant created == map k | k in after.Keys - todo && k !in before :: Obj(map[InsertedKey := after[k]])
      decreases |todo|
    {
      var k :| k in todo;
      if k !in before {
        created := created[k := Obj(map[InsertedKey := after[k]])];
      }
      todo := todo - {k};
    }
    assert after.Keys - todo == after.Keys;
  }

  /** The loop of tracker.py:146-147 over the removed keys (line 133): the old snapshot's keys the new one lacks. */
  method CollectDeleted(before: Dict, after: Dict) returns (deleted: Dict)
    ensures deleted == DeletedPaths(before, after)
  {
    deleted := map[];
    var todo := before.Keys;
    while todo != {}
      invariant todo <= before.Keys
      invariant deleted == map k | k in before.Keys - todo && k !in after :: Obj(map[DeletedKey := before[k]])
      decreases |todo|
    {
      var k :| k in todo;
      if k !in after {
        deleted := deleted[k := Obj(map[DeletedKey := before[k]])];
      }
      todo := todo - {k};
    }
    assert before.Keys - todo == before.Keys;
  }

  /**
   * The three delta maps and the unchanged paths partition the paths of the
   * two snapshots: created = new - old, deleted = old - new, updated = the
   * common paths whose values differ, pairwise disjoint.
   */
  lemma DiffPartition(before: Dict, after: Dict)
    ensures CreatedPaths(before, after).Keys == after.Keys - before.Keys
    ensures DeletedPaths(before, after).Keys == before.Keys - after.Keys
    ensures forall k :: k in UpdatedPaths(before, after) <==> k in before && k in after && before[k] != after[k]
    ensures UpdatedPaths(before, after).Keys !! CreatedPaths(before, after).Keys
    ensures UpdatedPaths(before, after).Keys !! DeletedPaths(before, after).Keys
    ensures CreatedPaths(before, after).Keys !! DeletedPaths(before, after).Keys
    ensures UnchangedPaths(before, after) !! UpdatedPaths(before, after).Keys + CreatedPaths(before, after).Keys + DeletedPaths(before, after).Keys
    ensures UpdatedPaths(before, after).Keys + CreatedPaths(before, after).Keys + DeletedPaths(before, after).Keys
            + UnchangedPaths(before, after) == before.Keys + after.Keys
  {
  }

  /**
   * Each delta map holds the values the source records: the old and new value
   * of an updated path, the new value of a created one, the old value of a
   * deleted one; the id is the old snapshot's primary key, or None.
   */
  lemma DiffPayloads(before: Dict, after: Dict, pk: string, clock: Clock)
    ensures forall k :: k in UpdatedPaths(before, after) ==>
              UpdatedPaths(before, after)[k] == Obj(map[FromKey := before[k], ToKey := after[k]])
    ensures forall k :: k in CreatedPaths(before, after) ==> CreatedPaths(before, after)[k] == Obj(map[InsertedKey := after[k]])
    ensures forall k :: k in DeletedPaths(before, after) ==> DeletedPaths(before, after)[k] == Obj(map[DeletedKey := before[k]])
    ensures Delta(before, after, pk, clock)[PkField] == if pk in before then before[pk] else Null
  {
  }

  /** Diffing a snapshot against itself records no change. */
  lemma DiffSelf(s: Dict)
    ensures UpdatedPaths(s, s) == map[] && CreatedPaths(s, s) == map[] && DeletedPaths(s, s) == map[]
  {
    assert forall k :: k !in UpdatedPaths(s, s);
  }
}
