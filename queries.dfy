/**
 * The queries of the tracker (tracker.py:188-195, 302-358): an inclusive
 * date-range filter, the id filter of `audit_by_id`, and the projection of
 * `audit_by_operation`. Each works on the decoded log, a sequence of entries.
 */
module Queries {
  import opened Values
  import opened AuditLog
  import opened Endpoints

  // ---------------------------------------------------------------------------
  // The date range (tracker.py:188-195)
  // ---------------------------------------------------------------------------

  /**
   * The six optional date arguments of `audit_by_id` and `audit_by_operation`:
   * start day, month, year and end day, month, year.
   */
  datatype DateArgs = DateArgs(sd: Option<int>, sm: Option<int>, sy: Option<int>,
                               ed: Option<int>, em: Option<int>, ey: Option<int>)

  /** `None not in dates`: the date filter applies only when all six parts are given. */
  predicate AllGiven(d: DateArgs)
  {
    d.sd.Some? && d.sm.Some? && d.sy.Some? && d.ed.Some? && d.em.Some? && d.ey.Some?
  }

  /** The lambda of tracker.py:194: the entry's timestamp lies between the two bounds, both included. */
  predicate InRange(r: Dict, start: int, end: int)
  {
    LogEntry(r) && start <= Stamp(r) <= end
  }

  /**
   * `__filter_by_date_range`: the entries whose timestamp lies between the
   * timestamps of the start date and the end date. `toStamp(y, m, d)` stands
   * for `datetime.datetime(y, m, d).timestamp()`.
   */
  function DateRange(log: seq<Dict>, sd: int, sm: int, sy: int, ed: int, em: int, ey: int,
                     toStamp: (int, int, int) -> int): seq<Dict>
  {
    var start := toStamp(sy, sm, sd);
    var end := toStamp(ey, em, ed);
    Filter(log, (r: Dict) => InRange(r, start, end))
  }

  /**
   * The date filter keeps exactly the entries within the bounds, both
   * inclusive, as often as they occur, and in log order: it distributes over
   * any split of the log.
   */
  lemma DateRangeSpec(log: seq<Dict>, sd: int, sm: int, sy: int, ed: int, em: int, ey: int,
                      toStamp: (int, int, int) -> int)
    requires forall i :: 0 <= i < |log| ==> LogEntry(log[i])
    ensures forall x :: x in DateRange(log, sd, sm, sy, ed, em, ey, toStamp) <==>
                        x in log && toStamp(sy, sm, sd) <= Stamp(x) <= toStamp(ey, em, ed)
    ensures forall x :: multiset(DateRange(log, sd, sm, sy, ed, em, ey, toStamp))[x] ==
                        if LogEntry(x) && toStamp(sy, sm, sd) <= Stamp(x) <= toStamp(ey, em, ed) then multiset(log)[x] else 0
    ensures forall k :: 0 <= k <= |log| ==>
              DateRange(log, sd, sm, sy, ed, em, ey, toStamp) ==
              DateRange(log[..k], sd, sm, sy, ed, em, ey, toStamp) + DateRange(log[k..], sd, sm, sy, ed, em, ey, toStamp)
  {
    var p := (r: Dict) => InRange(r, toStamp(sy, sm, sd), toStamp(ey, em, ed));
    FilterCount(log, p);
    FilterMembers(log, p);
    forall x | x in log ensures LogEntry(x) {
      var i :| 0 <= i < |log| && log[i] == x;
    }
    forall k | 0 <= k <= |log|
      ensures Filter(log, p) == Filter(log[..k], p) + Filter(log[k..], p)
    {
      assert log == log[..k] + log[k..];
      FilterConcat(log[..k], log[k..], p);
    }
  }

  /**
   * `audit_between_date` (tracker.py:302-311): the entries of the date range,
   * or their endpoints when `endpoints` is set.
   */
  function AuditBetweenDate(log: seq<Dict>, sd: int, sm: int, sy: int, ed: int, em: int, ey: int, endpoints: bool,
                            pk: string, clock: Clock, toStamp: (int, int, int) -> int): Option<seq<Dict>>
    requires forall i :: 0 <= i < |log| ==> LogEntry(log[i])
    requires endpoints ==> forall i :: 0 <= i < |log| ==> SnapEntry(log[i])
  {
    var range := DateRange(log, sd, sm, sy, ed, em, ey, toStamp);
    if endpoints then
      assert forall i :: 0 <= i < |range| ==> SnapEntry(range[i]) by {
        DateRangeSpec(log, sd, sm, sy, ed, em, ey, toStamp);
        forall i | 0 <= i < |range| ensures SnapEntry(range[i]) {
          assert range[i] in range;
          var k :| 0 <= k < |log| && log[k] == range[i];
        }
      }
      Endpoints.Endpoints(range, pk, clock)
    else Some(range)
  }

  /**
   * With endpoints, `audit_between_date` yields, when the replays succeed,
   * one endpoint per distinct id of the entries in the range, in order of
   * first appearance.
   */
  lemma AuditBetweenDateEndpoints(log: seq<Dict>, sd: int, sm: int, sy: int, ed: int, em: int, ey: int,
                                  pk: string, clock: Clock, toStamp: (int, int, int) -> int)
    requires forall i :: 0 <= i < |log| ==> SnapEntry(log[i])
    ensures forall i :: 0 <= i < |log| ==> LogEntry(log[i])
    ensures var range := DateRange(log, sd, sm, sy, ed, em, ey, toStamp);
            && (forall i :: 0 <= i < |range| ==> SnapEntry(range[i]))
            && AuditBetweenDate(log, sd, sm, sy, ed, em, ey, true, pk, clock, toStamp) == Endpoints.Endpoints(range, pk, clock)
            && (Endpoints.Endpoints(range, pk, clock).Some? ==>
                  |Endpoints.Endpoints(range, pk, clock).value| == |Ids(range)|)
  {
    assert forall i :: 0 <= i < |log| ==> LogEntry(log[i]) by {
      forall i | 0 <= i < |log| ensures LogEntry(log[i]) { assert SnapEntry(log[i]); }
    }
    var range := DateRange(log, sd, sm, sy, ed, em, ey, toStamp);
    DateRangeSpec(log, sd, sm, sy, ed, em, ey, toStamp);
    forall i | 0 <= i < |range| ensures SnapEntry(range[i]) {
      assert range[i] in range;
      var k :| 0 <= k < |log| && log[k] == range[i];
    }
    if Endpoints.Endpoints(range, pk, clock).Some? {
      EndpointsPerId(range, pk, clock);
    }
  }

  // ---------------------------------------------------------------------------
  // audit_by_id (tracker.py:314-329)
  // ---------------------------------------------------------------------------

  /** The log the id and operation queries work on: date-filtered only when all six parts are given. */
  function Dated(log: seq<Dict>, dates: DateArgs, toStamp: (int, int, int) -> int): seq<Dict>
  {
    if AllGiven(dates) then
      DateRange(log, dates.sd.value, dates.sm.value, dates.sy.value, dates.ed.value, dates.em.value, dates.ey.value, toStamp)
    else log
  }

  /** With missing date parts the log is used as it is; otherwise it is the date range. */
  lemma DatedSpec(log: seq<Dict>, dates: DateArgs, toStamp: (int, int, int) -> int)
    requires forall i :: 0 <= i < |log| ==> LogEntry(log[i])
    ensures !AllGiven(dates) ==> Dated(log, dates, toStamp) == log
    ensures AllGiven(dates) ==>
              forall x :: x in Dated(log, dates, toStamp) <==>
                x in log && toStamp(dates.sy.value, dates.sm.value, dates.sd.value) <= Stamp(x)
                         <= toStamp(dates.ey.value, dates.em.value, dates.ed.value)
    ensures forall x :: x in Dated(log, dates, toStamp) ==> x in log
  {
    if AllGiven(dates) {
      DateRangeSpec(log, dates.sd.value, dates.sm.value, dates.sy.value, dates.ed.value, dates.em.value, dates.ey.value, toStamp);
    }
  }

  /**
   * `audit_by_id` (tracker.py:314-329): the entries of the (possibly
   * date-filtered) log whose id is `id`, each as decoded, or their endpoint
   * when `endpoints` is set. `None` is the KeyError the endpoint replay can
   * raise.
   */
  function AuditById(log: seq<Dict>, id: Value, dates: DateArgs, endpoints: bool,
                     pk: string, clock: Clock, toStamp: (int, int, int) -> int): Option<seq<Dict>>
    requires forall i :: 0 <= i < |log| ==> LogEntry(log[i])
    requires endpoints ==> forall i :: 0 <= i < |log| ==> SnapEntry(log[i])
  {
    var selected := Group(Dated(log, dates, toStamp), id);
    if endpoints then
      assert forall i :: 0 <= i < |selected| ==> SnapEntry(selected[i]) by {
        ByIdEntries(log, id, dates, toStamp);
        forall i | 0 <= i < |selected| ensures SnapEntry(selected[i]) {
          assert selected[i] in selected;
          var k :| 0 <= k < |log| && log[k] == selected[i];
        }
      }
      Endpoints.Endpoints(selected, pk, clock)
    else Some(selected)
  }

  /**
   * The id filter keeps exactly the entries of the dated log whose id is
   * `id`, as often as they occur there, to the exclusion of all others.
   */
  lemma ByIdEntries(log: seq<Dict>, id: Value, dates: DateArgs, toStamp: (int, int, int) -> int)
    requires forall i :: 0 <= i < |log| ==> LogEntry(log[i])
    ensures forall i :: 0 <= i < |Dated(log, dates, toStamp)| ==> Dated(log, dates, toStamp)[i] in log
    ensures forall x :: x in Group(Dated(log, dates, toStamp), id) <==> x in Dated(log, dates, toStamp) && HasId(x, id)
    ensures forall x :: multiset(Group(Dated(log, dates, toStamp), id))[x] ==
                        if HasId(x, id) then multiset(Dated(log, dates, toStamp))[x] else 0
  {
    DatedSpec(log, dates, toStamp);
    var dated := Dated(log, dates, toStamp);
    forall i | 0 <= i < |dated| ensures dated[i] in log {
      assert dated[i] in dated;
    }
    FilterMembers(dated, (r: Dict) => HasId(r, id));
    FilterCount(dated, (r: Dict) => HasId(r, id));
  }

  /**
   * Without endpoints, `audit_by_id` returns the entries of the log carrying
   * `id` (and, with all date parts given, lying in the range), in log order.
   */
  lemma AuditByIdEntries(log: seq<Dict>, id: Value, dates: DateArgs, pk: string, clock: Clock,
                         toStamp: (int, int, int) -> int)
    requires forall i :: 0 <= i < |log| ==> LogEntry(log[i])
    ensures AuditById(log, id, dates, false, pk, clock, toStamp).Some?
    ensures forall x :: x in AuditById(log, id, dates, false, pk, clock, toStamp).value <==>
              x in log && HasId(x, id) &&
              (AllGiven(dates) ==> toStamp(dates.sy.value, dates.sm.value, dates.sd.value) <= Stamp(x)
                                   <= toStamp(dates.ey.value, dates.em.value, dates.ed.value))
  {
    DatedSpec(log, dates, toStamp);
    ByIdEntries(log, id, dates, toStamp);
  }

  /** The ids of entries that all carry `id`: just `id`, or none when there are no entries. */
  lemma {:induction false} SingleId(records: seq<Dict>, id: Value)
    requires forall i :: 0 <= i < |records| ==> HasId(records[i], id)
    ensures forall i :: 0 <= i < |records| ==> PkField in records[i]
    ensures Ids(records) == if records == [] then [] else [id]
    decreases |records|
  {
    if records != [] {
      var init := records[..|records| - 1];
      assert forall i :: 0 <= i < |init| ==> init[i] == records[i];
      SingleId(init, id);
    }
  }

  /**
   * With endpoints, `audit_by_id` yields the endpoint of the entries
   * carrying `id` as its one entry (or the replay's KeyError), and no
   * endpoint at all when there are none.
   */
  lemma AuditByIdEndpoint(log: seq<Dict>, id: Value, dates: DateArgs, pk: string, clock: Clock,
                          toStamp: (int, int, int) -> int)
    requires forall i :: 0 <= i < |log| ==> SnapEntry(log[i])
    ensures forall i :: 0 <= i < |log| ==> LogEntry(log[i])
    ensures var g := Group(Dated(log, dates, toStamp), id);
            forall i :: 0 <= i < |g| ==> SnapEntry(g[i])
    ensures var r := AuditById(log, id, dates, true, pk, clock, toStamp);
            var g := Group(Dated(log, dates, toStamp), id);
            && (g == [] ==> r == Some([]))
            && (g != [] ==> r == if GroupEndpoint(g, pk, clock).Some? then Some([GroupEndpoint(g, pk, clock).value]) else None)
  {
    assert forall i :: 0 <= i < |log| ==> LogEntry(log[i]) by {
      forall i | 0 <= i < |log| ensures LogEntry(log[i]) { assert SnapEntry(log[i]); }
    }
    DatedSpec(log, dates, toStamp);
    ByIdEntries(log, id, dates, toStamp);
    var g := Group(Dated(log, dates, toStamp), id);
    forall i | 0 <= i < |g| ensures HasId(g[i], id) && SnapEntry(g[i]) {
      assert g[i] in g;
    }
    if g != [] {
      EndpointsOneId(g, id, pk, clock);
    } else {
      SingleId(g, id);
    }
  }

  /** The endpoints of entries that all carry `id`: the endpoint of the whole sequence, alone. */
  lemma EndpointsOneId(g: seq<Dict>, id: Value, pk: string, clock: Clock)
    requires g != [] && forall i :: 0 <= i < |g| ==> HasId(g[i], id) && SnapEntry(g[i])
    ensures Endpoints.Endpoints(g, pk, clock) ==
              if GroupEndpoint(g, pk, clock).Some? then Some([GroupEndpoint(g, pk, clock).value]) else None
  {
    SingleId(g, id);
    FilterAllOrNone(g, (r: Dict) => HasId(r, id));
    assert Group(g, id) == g;
    var e := Ends(g, [id], pk, clock);
    assert e == [GroupEndpoint(g, pk, clock)];
    assert e[..0] == [];
    assert Collect(e) == Append(Some([]), e[0]);
    assert Ids(g) == [id];
    assert Endpoints.Endpoints(g, pk, clock) == EndpointsOf(g, [id], pk, clock) == Collect(e);
    if GroupEndpoint(g, pk, clock).Some? {
      assert [] + [GroupEndpoint(g, pk, clock).value] == [GroupEndpoint(g, pk, clock).value];
    }
  }

  // ---------------------------------------------------------------------------
  // audit_by_operation (tracker.py:332-358)
  // ---------------------------------------------------------------------------

  /** The operations `audit_by_operation` accepts (tracker.py:334). */
  const Operations: seq<string> := ["inserted", "updated", "deleted"]

  /** What `fetch_operation_obj` appends for one entry: its clock fields, its id and the operation's field. */
  function Projection(r: Dict, field: string): Dict
    requires LogEntry(r) && field in r
  {
    map[UpdatedOnField := r[UpdatedOnField], TimestampField := r[TimestampField],
        PkField := r[PkField], field := r[field]]
  }

  /** `audit.get(operation, None)` is truthy: the entry has something under the operation's field. */
  predicate Touches(r: Dict, field: string)
  {
    Truthy(Get(r, field))
  }

  /** The list `fetch_operation_obj` fills while mapped over `log`, in log order. */
  function Projections(log: seq<Dict>, field: string): seq<Dict>
    requires forall i :: 0 <= i < |log| ==> LogEntry(log[i])
    decreases |log|
  {
    if log == [] then []
    else
      var last := log[|log| - 1];
      Projections(log[..|log| - 1], field) + (if Touches(last, field) then [Projection(last, field)] else [])
  }

  /**
   * `audit_by_operation`: `None` for an operation it does not know;
   * otherwise the projections of the entries of the (possibly date-filtered)
   * log that touch `"@" + op`.
   */
  function AuditByOperation(log: seq<Dict>, op: string, dates: DateArgs, toStamp: (int, int, int) -> int): Option<seq<Dict>>
    requires forall i :: 0 <= i < |log| ==> LogEntry(log[i])
  {
    if op !in Operations then None
    else
      DatedSpec(log, dates, toStamp);
      assert forall i :: 0 <= i < |Dated(log, dates, toStamp)| ==> LogEntry(Dated(log, dates, toStamp)[i]) by {
        forall i | 0 <= i < |Dated(log, dates, toStamp)| ensures LogEntry(Dated(log, dates, toStamp)[i]) {
          assert Dated(log, dates, toStamp)[i] in Dated(log, dates, toStamp);
        }
      }
      Some(Projections(Dated(log, dates, toStamp), "@" + op))
  }

  /** The field an operation reads is one of the three delta maps of an entry. */
  lemma OperationFields(op: string)
    requires op in Operations
    ensures "@" + op in {CreatedField, UpdatedField, DeletedField}
    ensures "@" + op !in {UpdatedOnField, TimestampField, PkField}
  {
    if op == "inserted" {
      assert "@" + op == CreatedField;
    } else if op == "updated" {
      assert "@" + op == UpdatedField;
    } else {
      assert "@" + op == DeletedField;
    }
    assert "@" + op != UpdatedOnField && "@" + op != TimestampField && "@" + op != PkField by {
      assert ("@" + op)[0] == '@';
      assert UpdatedOnField[0] == 'u' && TimestampField[0] == 't' && PkField[0] == 'i';
    }
  }

  /**
   * The projections are the touching entries, filtered in log order and then
   * projected one by one; each holds exactly the clock fields, the id and
   * the operation's non-empty field, unchanged.
   */
  lemma {:induction false} ProjectionsSpec(log: seq<Dict>, field: string)
    requires forall i :: 0 <= i < |log| ==> LogEntry(log[i])
    requires field in {CreatedField, UpdatedField, DeletedField}
    ensures var out := Projections(log, field);
            var kept := Filter(log, (r: Dict) => Touches(r, field));
            && |out| == |kept|
            && forall i :: 0 <= i < |out| ==>
                 && kept[i] in log && Touches(kept[i], field)
                 && out[i].Keys == {UpdatedOnField, TimestampField, PkField, field}
                 && out[i][UpdatedOnField] == kept[i][UpdatedOnField]
                 && out[i][TimestampField] == kept[i][TimestampField]
                 && out[i][PkField] == kept[i][PkField]
                 && out[i][field] == kept[i][field]
    decreases |log|
  {
    if log != [] {
      var init := log[..|log| - 1];
      var last := log[|log| - 1];
      assert forall i :: 0 <= i < |init| ==> init[i] == log[i];
      ProjectionsSpec(init, field);
      var p := (r: Dict) => Touches(r, field);
      var out := Projections(log, field);
      var kept := Filter(log, p);
      assert kept == Filter(init, p) + (if p(last) then [last] else []);
      FilterMembers(init, p);
      forall i | 0 <= i < |Filter(init, p)| ensures Filter(init, p)[i] in log {
        assert Filter(init, p)[i] in Filter(init, p);
      }
    }
  }

  /**
   * `audit_by_operation` answers exactly for the three known operations, and
   * then with one projection per entry of the dated log that touches the
   * operation's field, in log order.
   */
  lemma AuditByOperationSpec(log: seq<Dict>, op: string, dates: DateArgs, toStamp: (int, int, int) -> int)
    requires forall i :: 0 <= i < |log| ==> LogEntry(log[i])
    ensures AuditByOperation(log, op, dates, toStamp).Some? <==> op in Operations
    ensures op in Operations ==>
              var out := AuditByOperation(log, op, dates, toStamp).value;
              var kept := Filter(Dated(log, dates, toStamp), (r: Dict) => Touches(r, "@" + op));
              && |out| == |kept|
              && forall i :: 0 <= i < |out| ==>
                   && kept[i] in log && Touches(kept[i], "@" + op)
                   && out[i].Keys == {UpdatedOnField, TimestampField, PkField, "@" + op}
                   && out[i][PkField] == kept[i][PkField] && out[i]["@" + op] == kept[i]["@" + op]
  {
    if op in Operations {
      OperationFields(op);
      DatedSpec(log, dates, toStamp);
      var dated := Dated(log, dates, toStamp);
      forall i | 0 <= i < |dated| ensures dated[i] in log && LogEntry(dated[i]) {
        assert dated[i] in dated;
      }
      ProjectionsSpec(dated, "@" + op);
      var p := (r: Dict) => Touches(r, "@" + op);
      FilterMembers(dated, p);
      forall i | 0 <= i < |Filter(dated, p)| ensures Filter(dated, p)[i] in log {
        assert Filter(dated, p)[i] in dated;
      }
    }
  }
}
