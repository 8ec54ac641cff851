# auditTracker core in Dafny

A Dafny model of the `Tracker` class of `tracker.py`, an audit trail for nested
key/value records. `track(old, new)` flattens both versions of a record into
dicts keyed by '.'-joined key paths, diffs them into a delta (updated, inserted
and deleted paths), and appends the delta together with the flat old snapshot
to a log. The queries read the log back: by date range, by id and by operation.
With `endpoints`, every id's run of entries is replayed and reduced to one
delta from its first snapshot to its final state.

The model is split by the parts of the class:

- `strings.dfy` (`Strings`): the separator, a total order on strings used to fix
  an iteration order, substring search, Python's `s[:-n]`, `str.split('.')`
  and the file stem of `__init__`.
- `values.dfy` (`Values`): JSON-like values (`Null | Num | Str | Obj`), dicts
  as `map<string, Value>`, Python truthiness, and the field names.
- `path_codec.dfy` (`PathCodec`): `__flatten` as a function, `__deflatten` as
  a method proved equal to the function `Unflatten`, and their round trip.
- `diff_engine.dfy` (`DiffEngine`): `__generate_delta_obj`, three loops proved
  equal to three map comprehensions, and the partition they form.
- `replay.dfy` (`Replay`): `__construct_obj_from_delta`, its three loops
  proved against the write pass and the delete pass; the replay as written
  and a corrected replay (see Findings).
- `audit_log.dfy` (`AuditLog`): the decoding of a stored row into a log entry
  and the order-preserving `filter`.
- `tracking.dfy` (`Tracking`): `track`, what its row decodes to, and what the
  replay of that entry rebuilds.
- `endpoints.dfy` (`Endpoints`): `__remove_keys` and `__calc_endpoints_delta`
  with its `buffer`, proved against a per-id specification.
- `queries.dfy` (`Queries`): `__filter_by_date_range`, `audit_between_date`,
  `audit_by_id` and `audit_by_operation`.

Python dicts iterate in insertion order. The model visits keys in ascending
string order instead (`Strings.Least`). The order matters in two places. In
`__flatten`, two key paths may give the same flat key (a dotted key `"a.b"`
beside a nested `{"a": {"b": ...}}`): the value met last wins. In the write
pass of the replay, two flat keys of a delta may name the same target path.
Neither can happen for the records the round trip covers (`PathCodec.Plain`:
no '.' in a key and no top-level "" key holding a dict), and neither for the
re-flattened delta maps of such records. `Deflatten` and the three diff loops
pick their keys in any order and are still proved exact.

## Model

| member | source | states |
|---|---|---|
| Strings.DropLast | tracker.py:213-227 | `s[:-n]`: the empty string when `n` is 0 or at least `len(s)`, otherwise the first `len(s) - n` characters |
| Strings.Marked | tracker.py:213-227 | a path followed by '.' and a marker contains the marker, and stripping `len(marker) + 1` characters gives the path back |
| Strings.Split | tracker.py:86 | `k.split('.')` yields at least one segment, and no segment contains '.'; joining the segments with '.' gives `k` back; the split is `[k]` exactly when `k` has no '.' |
| Strings.SplitJoinPath | tracker.py:86 | splitting the '.'-join of dotless segments gives the segments back |
| Strings.FileStem | tracker.py:23 | the stem is the part of the file name before its first '.', or the whole name if it has none |
| Strings.SplitHead | tracker.py:23 | the first segment of `split('.')` is a prefix of the name ending at its first '.' or at its end |
| Strings.Least | tracker.py:72 | the element from which a key set is iterated belongs to it and is below all of its elements |
| PathCodec.FlattenKeys | tracker.py:70-78 | no value of a flattening is a dict |
| PathCodec.FlattenSound | tracker.py:70-78 | every flat key is the '.'-join, below the parent key, of a key path that leads to a non-dict leaf; as a path into an empty dict leads to no leaf, an empty dict contributes no key |
| PathCodec.FlattenComplete | tracker.py:70-78 | every key path to a non-dict leaf yields a flat key |
| PathCodec.FlatKeyPath | tracker.py:70-78 | for a plain record each flat key splits into the path of a leaf, and the flat value is the value at that leaf |
| PathCodec.FlattenPrefixFree | tracker.py:70-93 | no flat key of a plain record is a path prefix of another, so `__deflatten` accepts the flattening |
| PathCodec.LookupPlaced | tracker.py:87-92 | after `reconstruct_flat_keys` stores a value at a path, that path leads to the value |
| PathCodec.LookupPlaceOther | tracker.py:87-92 | a store leaves every path that neither extends nor is extended by the stored path |
| PathCodec.PlaceCommute | tracker.py:82-92 | stores at two paths where neither is a prefix of the other can be done in either order |
| PathCodec.PlaceAllAnyFirst | tracker.py:82-92 | on prefix-free input the loop may take any key first without changing the result |
| PathCodec.Deflatten | tracker.py:65-93 | the loop over the keys in whatever order they come builds exactly `Unflatten(flat)` |
| PathCodec.UnflattenAt | tracker.py:80-93 | in the rebuilt dict the split of each flat key leads to its flat value |
| PathCodec.UnflattenBelow | tracker.py:80-93 | every leaf path of the rebuilt dict extends the split of some flat key |
| PathCodec.UnflattenLeaves | tracker.py:80-93 | every leaf of the rebuilt dict comes from a flat key |
| PathCodec.UnflattenDense | tracker.py:80-93 | rebuilding flat values that are not empty dicts creates no empty dict |
| PathCodec.SameLeavesEqual | tracker.py:80-93 | two dicts without empty sub-dicts and with the same leaves are equal |
| PathCodec.KeyAppend | tracker.py:73 | the flat key of a path with one more segment is the flat key of the path, '.', and that segment |
| PathCodec.KeyOfSplit | tracker.py:73-86 | joining the split of a key again gives the key, unless a dotted key starts with '.' |
| PathCodec.LookupAppend | tracker.py:74-75 | below a path that leads to a dict, a longer path leads where its rest leads in that dict |
| PathCodec.FlatKeyTop | tracker.py:70-78 | a dotted flat key of a plain record does not start with '.' |
| PathCodec.FlattenNestedHas | tracker.py:70-93 | flattening the rebuilt delta map yields `k.m` for each path `k` and each entry `m` (such as `+to`) it stores |
| PathCodec.NestedLeaf | tracker.py:70-93 | each leaf of a rebuilt delta map sits one segment below a stored path, and holds that path's entry |
| PathCodec.FlattenNestedFrom | tracker.py:70-93 | each key of the re-flattened delta map is `k.m` for a stored path `k` and entry `m`, and holds that entry's value |
| PathCodec.FlattenNested | tracker.py:70-93 | re-flattening a delta map keyed by flat paths yields exactly the keys `k.m` of its paths and entries, with their values |
| PathCodec.RoundTrip | tracker.py:70-93 | `__deflatten(__flatten(d)) == d` for every record with no '.' in a key, no empty nested dict and no top-level "" key holding a dict |
| DiffEngine.CollectUpdated | tracker.py:134-139 | the first loop collects `{-from, +to}` for exactly the common paths whose values differ |
| DiffEngine.CollectCreated | tracker.py:132-143 | the second loop collects `{+inserted_data}` for exactly the paths only the new snapshot has |
| DiffEngine.CollectDeleted | tracker.py:133-147 | the third loop collects `{-data_was}` for exactly the paths only the old snapshot has |
| DiffEngine.GenerateDelta | tracker.py:116-149 | the delta holds the clock fields, the old snapshot's id (None when absent) and the three maps |
| DiffEngine.DiffPartition | tracker.py:130-147 | created keys are new minus old, deleted keys are old minus new, updated keys are the common keys with different values; the three are pairwise disjoint, miss every unchanged key, and with it cover both key sets |
| DiffEngine.DiffPayloads | tracker.py:122-147 | each map entry carries the old and new values it records; the id is `old.get(pk)` |
| DiffEngine.DiffSelf | tracker.py:130-147 | diffing a snapshot against itself gives three empty maps |
| Replay.TargetOfJoin | tracker.py:211-227 | a flat key `p` joined with a marker contains the marker, and stripping `len(marker) + 1` characters gives `p` back, "" included |
| Replay.ContainsJoin | tracker.py:213-227 | a marker without '.' found in the join of two keys is found in one of them |
| Replay.TargetsMembers | tracker.py:213-227 | the target paths are exactly the stripped keys that contain the marker |
| Replay.WritePassKeys | tracker.py:213-221 | after a write pass the snapshot has its old keys plus the target paths |
| Replay.WritePassKeeps | tracker.py:213-221 | a write pass leaves every key that is not a target unchanged |
| Replay.WritePassSource | tracker.py:213-221 | each target ends up holding the value of a flat key that names it |
| Replay.WritePassAgreeing | tracker.py:213-221 | when all flat keys naming one target agree on its value, the target ends up holding that value |
| Replay.DeletePassSucceeds | tracker.py:224-227 | the delete pass raises no KeyError exactly when every target is present and no two keys name the same target |
| Replay.DeletePassRemoves | tracker.py:224-227 | a successful delete pass removes exactly the targets and leaves all other values unchanged |
| Replay.DeletePassEffect | tracker.py:224-227 | the delete pass is the snapshot minus its targets, or the KeyError |
| Replay.InjectiveSplit | tracker.py:224-227 | keys name distinct targets exactly when the rest do and the removed key's target is not among theirs |
| Replay.DeletePassUnmarked | tracker.py:224-227 | with no key containing `-data_was` the delete pass changes nothing |
| Replay.NestedMarked | tracker.py:205-227 | a marked key of a re-flattened delta map is a stored path joined with the marker, and holds that path's marker entry |
| Replay.NestedTargets | tracker.py:211-227 | when only the marker entries yield marked keys, the paths a pass addresses are exactly the stored paths |
| Replay.WritePassNested | tracker.py:205-221 | a write pass over a re-flattened delta map writes each stored path's marker entry and leaves every other key |
| Replay.DeletePassNested | tracker.py:207-227 | a delete pass over a re-flattened delta map whose paths are all present removes exactly those paths |
| Replay.DeletePassNestedUnmarked | tracker.py:207-227 | a delete pass over a re-flattened delta map none of whose keys holds the marker changes nothing |
| Replay.ConstructObjFromDelta | tracker.py:204-229 | the three loops compute the replay as written, failing on the KeyError of `del` |
| Replay.AsWrittenDeletesNothing | tracker.py:205-227 | as written, the replay deletes nothing when no flat `@updated` key contains `-data_was` |
| Replay.CorrectedDeletes | tracker.py:205-227 | the corrected replay removes exactly the paths `@deleted` names, when all are present and named once, and fails otherwise |
| Replay.DeleteIgnoredAsWritten | tracker.py:207 | on a snapshot `{a: 1}` and a delta deleting `a`, the replay as written keeps `a` while the corrected one removes it |
| AuditLog.Decode | tracker.py:169-182 | a decoded row is a log entry, and carries the old snapshot exactly when `old_snap` is set |
| AuditLog.DecodeFields | tracker.py:152-182 | the entry carries the row's clock fields, id and snapshot, its three delta fields are the rebuilt delta maps, and in each the split of every flat path leads to its stored value |
| AuditLog.FilterCount | tracker.py:194 | `filter` keeps each element satisfying the predicate as often as it occurs, and nothing else |
| AuditLog.FilterMembers | tracker.py:325 | an element is kept exactly when it occurs and satisfies the predicate |
| AuditLog.FilterConcat | tracker.py:194 | `filter` distributes over concatenation, so kept elements stay in their order |
| AuditLog.FilterAllOrNone | tracker.py:325 | `filter` keeps everything when all elements pass and nothing when none does |
| Tracking.TrackKeys | tracker.py:263-266 | the stored delta maps are keyed by flat keys of the old or new snapshot |
| Tracking.TrackDecodable | tracker.py:263-269 | for records without '.' in keys and without empty dicts, `__deflatten` accepts the stored delta maps |
| Tracking.TrackDecode | tracker.py:263-269 | the stored row decodes, with `old_snap`, to an entry with the flat old snapshot, the old record's id (`old.get(pk)`) and the clock reading |
| Tracking.TrackDecodeChanges | tracker.py:263-269 | in that entry every changed, inserted and removed path leads to its `{-from, +to}`, `{+inserted_data}` or `{-data_was}` |
| Tracking.TrackNested | tracker.py:263-266 | for plain records the three stored maps are keyed by prefix-free flat paths, each holding a dict of non-dict entries |
| Tracking.UpdatesOnlyTo | tracker.py:213-216 | when no old flat key contains "+to", only the `+to` entries of the stored updates yield keys containing it |
| Tracking.UpdatePass | tracker.py:213-216 | the `+to` pass over the stored updates keeps the old keys and gives each one its new value where the new snapshot has it |
| Tracking.InsertPass | tracker.py:219-221 | the `+inserted_data` pass then adds the inserted paths, giving the old snapshot overridden by the new one |
| Tracking.WrittenOfTrack | tracker.py:204-221 | the two write passes over the entry `track` stored turn the flat old snapshot into the old one overridden by the new one |
| Tracking.DeleteRemoved | tracker.py:224-227 | a `-data_was` pass over the stored deletions removes exactly the paths the new snapshot lacks |
| Tracking.DeleteOverUpdates | tracker.py:207 | a `-data_was` pass over the stored updates deletes nothing when no old flat key contains "-data_was" |
| Tracking.ReplayOfTrack | tracker.py:204-229 | replaying, with the corrected delete pass, the entry `track` stored onto the flat old snapshot gives exactly the flat new snapshot |
| Tracking.ReplayOfTrackAsWritten | tracker.py:204-229 | the replay as written of that entry gives the flat old snapshot overridden by the new one: every removed path survives with its old value |
| Endpoints.StripDelta | tracker.py:258 | a stripped delta is the id and the three maps, whatever the clock read |
| Endpoints.RemoveKeys | tracker.py:198-201 | `__remove_keys` deletes exactly the listed keys that are present and keeps every other value |
| Endpoints.GroupEntries | tracker.py:235-237 | the entries grouped under an id are entries of the log carrying that id |
| Endpoints.IdsSpec | tracker.py:235-247 | an id is listed exactly when some entry carries it, and none twice |
| Endpoints.IdsOrder | tracker.py:235-247 | the ids are listed in order of first appearance: of two listed ids, the earlier one is carried by an entry before any entry carrying the later one |
| Endpoints.IdsHaveGroups | tracker.py:235-247 | every listed id has at least one entry |
| Endpoints.BufferSlot | tracker.py:235-245 | after the first loop the buffer has an entry for an id exactly when the log has one; it holds the first entry's snapshot, the last entry, whether there were several and then the last snapshot |
| Endpoints.BufferKeys | tracker.py:235-247 | the buffer's keys are the listed ids |
| Endpoints.FillBuffer | tracker.py:235-245 | the first loop builds that buffer and meets the ids in order of first appearance |
| Endpoints.SlotEndpoint | tracker.py:248-259 | the loop body turns a buffer entry into the endpoint of its group: a single entry stripped, or the stripped delta from the first snapshot to the replay of the last entry onto its snapshot |
| Endpoints.CalcEndpoints | tracker.py:232-260 | the two loops compute the endpoints of all groups in order of first appearance, or fail on a replay KeyError |
| Endpoints.CollectAll | tracker.py:232-260 | the list succeeds exactly when every endpoint does, and then holds them all in order |
| Endpoints.EndpointsOfEach | tracker.py:247-260 | the endpoints of a list of ids succeed exactly when each does, and then the j-th output is the j-th id's endpoint |
| Endpoints.EndpointsPerId | tracker.py:232-260 | a successful result has one entry per distinct id, in order of first appearance, each the endpoint of that id's group |
| Endpoints.EndpointForIgnoresClock | tracker.py:248-258 | a group's endpoint does not depend on the clock reading |
| Endpoints.EndpointsIgnoreClock | tracker.py:232-260 | the endpoints do not depend on the clock reading |
| Endpoints.IdsSkip | tracker.py:235-247 | dropping an entry whose id has already appeared leaves the ids unchanged |
| Endpoints.GroupSkip | tracker.py:235-245 | dropping an entry removes it from its own group alone |
| Endpoints.EndpointForSkip | tracker.py:238-259 | a group keeps its endpoint when an entry strictly between its first and last is dropped |
| Endpoints.DropMiddle | tracker.py:232-260 | entries between the first and the last of a group do not affect the result |
| Queries.DateRangeSpec | tracker.py:188-195 | the date filter keeps exactly the entries with start <= timestamp <= end, as often as they occur, in log order |
| Queries.DatedSpec | tracker.py:321-323 | the log is date-filtered exactly when all six date parts are given |
| Queries.AuditBetweenDateEndpoints | tracker.py:302-311 | with endpoints, the result is the endpoints of the entries in range, one per distinct id |
| Queries.ByIdEntries | tracker.py:325 | the id filter keeps exactly the entries with the given id, as often as they occur |
| Queries.AuditByIdEntries | tracker.py:314-329 | without endpoints, `audit_by_id` returns the entries carrying the id that lie in the range when all dates are given |
| Queries.SingleId | tracker.py:235-247 | entries that all carry one id list just that id |
| Queries.EndpointsOneId | tracker.py:232-260 | the endpoints of entries all carrying one id are that id's endpoint alone, or the replay's KeyError |
| Queries.AuditByIdEndpoint | tracker.py:314-329 | with endpoints, `audit_by_id` yields no entry for an unknown id, and otherwise exactly the endpoint of the id's (dated) entries, or the replay's KeyError |
| Queries.OperationFields | tracker.py:334-338 | a known operation names one of the three delta maps, and not a clock or id field |
| Queries.ProjectionsSpec | tracker.py:340-357 | one projection per entry whose operation field is truthy, in log order, holding exactly `updated_on`, `timestamp`, `id` and that field, unchanged |
| Queries.AuditByOperationSpec | tracker.py:332-358 | an unknown operation gives None; a known one gives the projections of the (dated) entries touching it |

## Left out

- Cloud storage, local files, Avro, pandas and `parse_schema` (tracker.py:29-63, 95-113, 158-164, 184) are external I/O and foreign libraries. The log is a given `seq` of decoded entries, and a stored row is the `AuditLog.Row` of its seven parsed fields.
- `str(...)` and `ast.literal_eval` (tracker.py:153, 176, 272-273) use Python-literal syntax. The model stores and reads parsed values; `Tracking.Track` yields the row before it is turned into text.
- Stored fields are text, so a decoded entry's `timestamp` and `id` are strings in the source. The model keeps `timestamp` as the integer that `float(...)` (tracker.py:194) compares, and `id` as the value it stands for.
- `datetime.now()`, `strftime`, `timestamp()` and `timedelta` (tracker.py:117-120, 189-192, 282-299) are clock and calendar arithmetic. The clock reading is the `Clock` parameter. The date-to-timestamp conversion is the function parameter `toStamp`. `audit_of_today`, `audit_of_date` and `audit_from_date` only compute dates and call `audit_between_date`, so they are not modelled.
- `get_all_audits` (tracker.py:278-279) only decodes the whole log without snapshots: that is `AuditLog.Decode` with `oldSnap` false.
- The result wrapper of each query (a dict with one key built from the file stem and the arguments, tracker.py:303-304, 317-318, 349-350) is not modelled; the queries return the list itself.
- Concurrency: two `track` calls racing on the blob store (tracker.py:103-113) are not modelled.
- Floats: numbers are unbounded integers.
- Dict iteration order: keys are visited in ascending string order rather than insertion order. This matters when two key paths of a record flatten to the same flat key (a dotted key beside a nested one, where the value met last wins) and when two flat keys of a delta name the same target path; neither occurs for `PathCodec.Plain` records.
- Tracking.ReplayOfTrack: requires that no flat key of the old record contains "+to" (and `Tracking.ReplayOfTrackAsWritten` also "-data_was"), because the replay tests markers by substring and such a key would be taken for a marked one.
- In-place updates are modelled on values. The replay writes into the record's own `snap` dict and `__remove_keys` edits a single entry in place; here both return new maps. Aliasing between the buffer and the log is not modelled.
- `PathCodec.Unflatten` and `PathCodec.Deflatten`: they require prefix-free keys. A scalar key and a dotted key sharing a prefix (for example `a` and `a.b`) make the source crash or depend on order (tracker.py:65-68, 84).
- Ill-formed entries are excluded by preconditions. Queries and endpoints require entries as the decoder builds them (`AuditLog.LogEntry`/`SnapEntry`). A KeyError on a missing field is therefore not modelled; a KeyError of the replay's `del` is (`None`).
- Ids that are dicts would be unhashable in the `buffer` of `__calc_endpoints_delta` (tracker.py:238); the model accepts any id.
- The endpoint computation keeps the replay as written (line 207). Its effect is what the finding below describes, for all plain records in `Tracking.ReplayOfTrackAsWritten`; the corrected replay is modelled beside it, not merged into it.

## Findings

| source | as written | input that shows it | evidently intended | confidence | as-written member | corrected member |
|---|---|---|---|---|---|---|
| tracker.py:207 | `delete_delta_flat` flattens `delta['@updated']`, so the delete pass looks for `-data_was` among the updated paths | snapshot `{a: 1}`, delta `{@updated: {}, @inserted: {}, @deleted: {a: {-data_was: 1}}}`: the replay returns `{a: 1}` | flatten `delta['@deleted']`, so the replay returns `{}` | not executed | Replay.DeleteIgnoredAsWritten | Replay.CorrectedDeletes |
