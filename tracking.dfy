/**
 * `track(old_obj, new_obj)` (tracker.py:263-275): both versions of a record (`prior` and `latest`)
 * are flattened, diffed, and stored as one row together with the flat old
 * snapshot.
 */
module Tracking {
  import opened Values
  import opened Strings
  import opened PathCodec
  import opened DiffEngine
  import opened AuditLog
  import opened Replay

  /**
   * The row `track` appends to the log, before its fields are turned into
   * text (tracker.py:272-273).
   */
  function Track(prior: Dict, latest: Dict, pk: string, clock: Clock): Row
  {
    var before := Flatten(prior);
    var after := Flatten(latest);
    Row(Str(clock.now), clock.stamp, Get(before, pk),
        UpdatedPaths(before, after), DeletedPaths(before, after), CreatedPaths(before, after),
        before)
  }

  /** The three delta maps of a row are keyed by flat keys of one of the two snapshots. */
  lemma TrackKeys(prior: Dict, latest: Dict, pk: string, clock: Clock)
    ensures var row := Track(prior, latest, pk, clock);
            && row.updated.Keys <= Flatten(prior).Keys * Flatten(latest).Keys
            && row.deleted.Keys <= Flatten(prior).Keys
            && row.inserted.Keys <= Flatten(latest).Keys
  {
    DiffPartition(Flatten(prior), Flatten(latest));
  }

  /** A sub-map of a prefix-free flat map is prefix-free. */
  lemma PrefixFreeSub(flat: Dict, sub: Dict)
    requires PrefixFree(flat) && sub.Keys <= flat.Keys
    ensures PrefixFree(sub)
  {
  }

  /** For records `__deflatten` can rebuild, the delta maps `track` stores can be rebuilt too. */
  lemma TrackDecodable(prior: Dict, latest: Dict, pk: string, clock: Clock)
    requires Plain(prior) && Plain(latest)
    ensures Decodable(Track(prior, latest, pk, clock))
  {
    var row := Track(prior, latest, pk, clock);
    FlattenPrefixFree(prior);
    FlattenPrefixFree(latest);
    TrackKeys(prior, latest, pk, clock);
    PrefixFreeSub(Flatten(prior), row.updated);
    PrefixFreeSub(Flatten(prior), row.deleted);
    PrefixFreeSub(Flatten(latest), row.inserted);
  }

  /**
   * The row `track` stores decodes, with `old_snap`, to an entry carrying
   * the flat old snapshot, the old record's id and the clock reading.
   */
  lemma TrackDecode(prior: Dict, latest: Dict, pk: string, clock: Clock)
    requires Plain(prior) && Plain(latest)
    ensures Decodable(Track(prior, latest, pk, clock))
    ensures var e := Decode(Track(prior, latest, pk, clock), true);
            && SnapEntry(e) && Snap(e) == Flatten(prior) && e[PkField] == Get(Flatten(prior), pk)
            && Stamp(e) == clock.stamp && e[UpdatedOnField] == Str(clock.now)
  {
    TrackDecodable(prior, latest, pk, clock);
    DecodeFields(Track(prior, latest, pk, clock), true);
  }

  /**
   * In the decoded entry every changed path leads to its `{-from, +to}`
   * pair, every new path to its `{+inserted_data}` and every removed path to
   * its `{-data_was}`.
   */
  lemma TrackDecodeChanges(prior: Dict, latest: Dict, pk: string, clock: Clock)
    requires Plain(prior) && Plain(latest)
    ensures Decodable(Track(prior, latest, pk, clock))
    ensures var e := Decode(Track(prior, latest, pk, clock), true);
            var before := Flatten(prior);
            var after := Flatten(latest);
            && (forall k :: k in before && k in after && before[k] != after[k] ==>
                  Lookup(e[UpdatedField].m, Split(k)) == Some(Obj(map[FromKey := before[k], ToKey := after[k]])))
            && (forall k :: k in after && k !in before ==>
                  Lookup(e[CreatedField].m, Split(k)) == Some(Obj(map[InsertedKey := after[k]])))
            && (forall k :: k in before && k !in after ==>
                  Lookup(e[DeletedField].m, Split(k)) == Some(Obj(map[DeletedKey := before[k]])))
  {
    TrackDecodable(prior, latest, pk, clock);
    DecodeFields(Track(prior, latest, pk, clock), true);
  }

  // ---------------------------------------------------------------------------
  // Replaying what `track` stored
  // ---------------------------------------------------------------------------

  /** A flat key of a plain record keys a delta map as `Nested` demands. */
  lemma DeltaNested(d: Dict, f: Dict)
    requires Plain(d) && f.Keys <= Flatten(d).Keys && PrefixFree(f)
    requires forall k :: k in f ==> f[k].Obj? && forall m :: m in f[k].m ==> !f[k].m[m].Obj?
    ensures Nested(f)
  {
    forall k | k in f ensures Sep in k ==> Split(k)[0] != "" {
      FlatKeyTop(d, k);
    }
  }

  /** The three delta maps `track` stores for plain records have the shape the replay reads. */
  lemma TrackNested(prior: Dict, latest: Dict, pk: string, clock: Clock)
    requires Plain(prior) && Plain(latest)
    ensures var row := Track(prior, latest, pk, clock);
            Nested(row.updated) && Nested(row.inserted) && Nested(row.deleted)
  {
    var row := Track(prior, latest, pk, clock);
    TrackDecodable(prior, latest, pk, clock);
    TrackKeys(prior, latest, pk, clock);
    DeltaNested(prior, row.updated);
    DeltaNested(latest, row.inserted);
    DeltaNested(prior, row.deleted);
  }

  /** When no old flat key holds "+to", only the `+to` entries of the stored updates hold it. */
  lemma UpdatesOnlyTo(before: Dict, after: Dict)
    requires Nested(UpdatedPaths(before, after))
    requires forall k :: k in before ==> !Contains(k, ToKey)
    ensures OnlyMarker(UpdatedPaths(before, after), ToKey)
  {
    var upd := UpdatedPaths(before, after);
    MissingChar(FromKey, ToKey, 0);
    forall k, m | k in upd && m in upd[k].m && m != ToKey ensures !Contains(Join(k, m), ToKey) {
      assert m == FromKey;
      ContainsJoin(k, m, ToKey);
    }
  }

  /**
   * The `+to` pass over the stored updates gives every updated path its new
   * value; as the other common paths did not change, each old path then
   * holds its value in the new snapshot if it has one.
   */
  lemma UpdatePass(before: Dict, after: Dict)
    requires Nested(UpdatedPaths(before, after)) && OnlyMarker(UpdatedPaths(before, after), ToKey)
    ensures var w := Flatten(Unflatten(UpdatedPaths(before, after)));
            var r := WritePass(before, w, w.Keys, ToKey);
            && (forall j :: j in r <==> j in before)
            && (forall j :: j in r ==> r[j] == (before + after)[j])
  {
    var upd := UpdatedPaths(before, after);
    WritePassNested(before, upd, ToKey);
    var w := Flatten(Unflatten(upd));
    var r := WritePass(before, w, w.Keys, ToKey);
    forall j | j in r ensures r[j] == (before + after)[j] {
      if j in upd {
        assert upd[j] == Obj(map[FromKey := before[j], ToKey := after[j]]);
      }
    }
  }

  /** The `+inserted_data` pass over the stored insertions then adds the new paths with their values. */
  lemma InsertPass(before: Dict, after: Dict, obj: Dict)
    requires Nested(CreatedPaths(before, after))
    requires forall j :: j in obj <==> j in before
    requires forall j :: j in obj ==> obj[j] == (before + after)[j]
    ensures var w := Flatten(Unflatten(CreatedPaths(before, after)));
            WritePass(obj, w, w.Keys, InsertedKey) == before + after
  {
    var ins := CreatedPaths(before, after);
    assert OnlyMarker(ins, InsertedKey);
    WritePassNested(obj, ins, InsertedKey);
    var w := Flatten(Unflatten(ins));
    var r := WritePass(obj, w, w.Keys, InsertedKey);
    assert forall j :: j in r <==> j in before + after;
    forall j | j in r ensures r[j] == (before + after)[j] {
      if j in ins {
        assert ins[j] == Obj(map[InsertedKey := after[j]]);
      }
    }
  }

  /**
   * The two write passes of the replay, run on the flat old snapshot with the
   * entry `track` stored: every updated path gets its `+to` value and every
   * inserted path its `+inserted_data` value, so the flat new snapshot
   * overrides the old one, and the removed paths are still there.
   */
  lemma WrittenOfTrack(prior: Dict, latest: Dict, pk: string, clock: Clock)
    requires Plain(prior) && Plain(latest)
    requires forall k :: k in Flatten(prior) ==> !Contains(k, ToKey)
    ensures Decodable(Track(prior, latest, pk, clock))
    ensures var e := Decode(Track(prior, latest, pk, clock), true);
            Replayable(e) && Written(Flatten(prior), e) == Flatten(prior) + Flatten(latest)
  {
    var before, after := Flatten(prior), Flatten(latest);
    var row := Track(prior, latest, pk, clock);
    var upd := row.updated;
    TrackDecodable(prior, latest, pk, clock);
    TrackNested(prior, latest, pk, clock);
    DecodeFields(row, true);
    UpdatesOnlyTo(before, after);
    UpdatePass(before, after);
    var w := Flatten(Unflatten(upd));
    InsertPass(before, after, WritePass(before, w, w.Keys, ToKey));
  }

  /** The `-data_was` pass over the stored deletions removes exactly the paths the new snapshot lacks. */
  lemma DeleteRemoved(before: Dict, after: Dict)
    requires Nested(DeletedPaths(before, after))
    ensures var w := Flatten(Unflatten(DeletedPaths(before, after)));
            DeletePass(before + after, w.Keys, DeletedKey) == Some(after)
  {
    var del := DeletedPaths(before, after);
    assert OnlyMarker(del, DeletedKey);
    DeletePassNested(before + after, del, DeletedKey);
    assert (before + after) - del.Keys == after;
  }

  /** The `-data_was` pass run over the stored updates instead finds nothing to delete. */
  lemma DeleteOverUpdates(before: Dict, after: Dict)
    requires Nested(UpdatedPaths(before, after))
    requires forall k :: k in before ==> !Contains(k, DeletedKey)
    ensures var w := Flatten(Unflatten(UpdatedPaths(before, after)));
            DeletePass(before + after, w.Keys, DeletedKey) == Some(before + after)
  {
    var upd := UpdatedPaths(before, after);
    MissingChar(FromKey, DeletedKey, 1);
    MissingChar(ToKey, DeletedKey, 0);
    forall k, m | k in upd && m in upd[k].m ensures !Contains(Join(k, m), DeletedKey) {
      ContainsJoin(k, m, DeletedKey);
    }
    DeletePassNestedUnmarked(before + after, upd, DeletedKey);
  }

  /**
   * Replaying the entry `track` stored onto the flat old snapshot, with the
   * delete pass over `@deleted`, rebuilds the flat new snapshot exactly:
   * `track` followed by the corrected replay loses nothing and adds nothing.
   */
  lemma ReplayOfTrack(prior: Dict, latest: Dict, pk: string, clock: Clock)
    requires Plain(prior) && Plain(latest)
    requires forall k :: k in Flatten(prior) ==> !Contains(k, ToKey)
    ensures Decodable(Track(prior, latest, pk, clock))
    ensures var e := Decode(Track(prior, latest, pk, clock), true);
            && Replayable(e) && DeletedField in e && e[DeletedField].Obj?
            && ReplayCorrected(Flatten(prior), e) == Some(Flatten(latest))
  {
    var row := Track(prior, latest, pk, clock);
    WrittenOfTrack(prior, latest, pk, clock);
    TrackNested(prior, latest, pk, clock);
    DecodeFields(row, true);
    DeleteRemoved(Flatten(prior), Flatten(latest));
  }

  /**
   * The replay as written (its delete pass over `@updated`, tracker.py:207)
   * of the same entry deletes nothing when no old flat key holds "-data_was":
   * every removed path survives with its old value.
   */
  lemma ReplayOfTrackAsWritten(prior: Dict, latest: Dict, pk: string, clock: Clock)
    requires Plain(prior) && Plain(latest)
    requires forall k :: k in Flatten(prior) ==> !Contains(k, ToKey) && !Contains(k, DeletedKey)
    ensures Decodable(Track(prior, latest, pk, clock))
    ensures var e := Decode(Track(prior, latest, pk, clock), true);
            && Replayable(e)
            && ReplayAsWritten(Flatten(prior), e) == Some(Flatten(prior) + Flatten(latest))
  {
    var row := Track(prior, latest, pk, clock);
    WrittenOfTrack(prior, latest, pk, clock);
    TrackNested(prior, latest, pk, clock);
    DecodeFields(row, true);
    DeleteOverUpdates(Flatten(prior), Flatten(latest));
  }
}
