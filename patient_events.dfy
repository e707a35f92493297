/**
 * PatientEventConsumer: ties each change event to a patient and records, per patient, when its data
 * last changed and whether it is deleted.
 *
 * The key cache and the status store (RocksDB files) are maps, the dbevent_patient tracking table is a
 * map from patient id to its row, and the SQL lookup of a patient id is a function passed in.
 * Accepted and Handled say what one event does to all of it; the class runs the same steps in place.
 */
module PatientEvents {
  import opened Wrappers
  import opened Text
  import opened Schema
  import opened Graphs
  import opened Rows
  import opened PatientStatuses
  import opened PatientQueries

  /** A row of the tracking table: when the patient's data last changed, and whether it is deleted. */
  datatype Tracked = Tracked(lastUpdated: int, deleted: bool)

  /** The key cache, the status store, the tracking table and the watermark (maxEventTimestamp). */
  datatype State = State(
    keys: map<string, int>,
    status: map<string, int>,
    tracking: map<int, Tracked>,
    watermark: Option<int>)

  /** The state after one call and the exception it ended with, if any. */
  datatype Step = Step(state: State, error: Option<Exception>)

  const PATIENT_TABLE: string := "patient"
  const PATIENT_ID: string := "patient_id"
  const VOIDED: string := "voided"
  const CACHE_SUFFIX: string := ":patient_id"
  const SNAPSHOT_KEY: string := "snapshotTimestamp"

  /** An event older than the watermark is skipped; an event at the watermark is not. */
  predicate Skips(watermark: Option<int>, e: DbEvent) {
    watermark.Some? && e.timestamp < watermark.value
  }

  /** The cache key of an event's row: `table.key:patient_id`, with a missing table rendered as null. */
  function CacheKey(e: DbEvent): string {
    Render(e.table) + "." + e.key.ToString() + CACHE_SUFFIX
  }

  /**
   * The patient id found by the query of the event's table, when the table has a query and the row's
   * value for the query's column is not null; `lookup` runs the SQL with that value.
   */
  function Lookup(e: DbEvent, queries: map<string, PatientIdQuery>, lookup: (string, Value) -> Option<int>): Option<int> {
    var values := e.Values();
    if e.table.Some? && e.table.value in queries && !values.IsNull(queries[e.table.value].valueColumn) then
      lookup(queries[e.table.value].sql, values.values[queries[e.table.value].valueColumn])
    else None
  }

  /** The patient of an event: its own patient_id, else the cached one, else the one the query finds. */
  function PatientOf(s: State, e: DbEvent, queries: map<string, PatientIdQuery>, lookup: (string, Value) -> Option<int>): Result<Option<int>> {
    match e.Values().GetInteger(PATIENT_ID)
    case Err(x) => Err(x)
    case Ok(Some(id)) => Ok(Some(id))
    case Ok(None) =>
      if CacheKey(e) in s.keys then Ok(Some(s.keys[CacheKey(e)])) else Ok(Lookup(e, queries, lookup))
  }

  /** The cache after resolving an event: a patient id found by a query is stored under the row's key. */
  function Cached(s: State, e: DbEvent, queries: map<string, PatientIdQuery>, lookup: (string, Value) -> Option<int>): map<string, int> {
    var found := Lookup(e, queries, lookup);
    if e.Values().GetInteger(PATIENT_ID) == Ok(None) && CacheKey(e) !in s.keys && found.Some? then
      s.keys[CacheKey(e) := found.value]
    else s.keys
  }

  /**
   * The upsert: the row's last_updated becomes the timestamp; a new row starts not deleted, which
   * assumes the `deleted` column defaults to false (the insert names only patient_id and last_updated).
   */
  function Upserted(tracking: map<int, Tracked>, id: int, timestamp: int): map<int, Tracked> {
    tracking[id := Tracked(timestamp, id in tracking && tracking[id].deleted)]
  }

  function WithDeleted(tracking: map<int, Tracked>, id: int, deleted: bool): map<int, Tracked>
    requires id in tracking
  {
    tracking[id := tracking[id].(deleted := deleted)]
  }

  /**
   * handlePatientEvent: the upsert, then for the patient table the deleted flag (a delete or a voided
   * row sets it, a row not voided clears it, a null voided is a NullPointerException on unboxing), then
   * the watermark. A missing table is a NullPointerException after the upsert.
   */
  function Handled(s: State, id: int, e: DbEvent): Step {
    var upserted := s.(tracking := Upserted(s.tracking, id, e.timestamp));
    var done := upserted.(watermark := Some(e.timestamp));
    if e.table.None? then Step(upserted, Some(NullPointerException))
    else if e.table.value != PATIENT_TABLE then Step(done, None)
    else if e.operation == DELETE then Step(done.(tracking := WithDeleted(done.tracking, id, true)), None)
    else
      match e.Values().GetBoolean(VOIDED)
      case None => Step(upserted, Some(NullPointerException))
      case Some(voided) => Step(done.(tracking := WithDeleted(done.tracking, id, voided)), None)
  }

  /** accept: skip old events, find the patient, and track the event for it when there is one. */
  function Accepted(s: State, e: DbEvent, queries: map<string, PatientIdQuery>, lookup: (string, Value) -> Option<int>): Step {
    if Skips(s.watermark, e) then Step(s, None)
    else
      match PatientOf(s, e, queries, lookup)
      case Err(x) => Step(s, Some(x))
      case Ok(None) => Step(s, None)
      case Ok(Some(id)) => Handled(s.(keys := Cached(s, e, queries, lookup)), id, e)
  }

  /** No tracked row is later than the watermark, and a non-empty table has one. */
  ghost predicate Inv(s: State) {
    forall id :: id in s.tracking ==> s.watermark.Some? && s.tracking[id].lastUpdated <= s.watermark.value
  }

  /** getMaxEventTimestamp: the largest last_updated of the tracking table, null when it is empty. */
  ghost predicate IsMaxLastUpdated(w: Option<int>, tracking: map<int, Tracked>) {
    (w.None? <==> tracking.Values == {}) &&
    (w.Some? ==>
      (exists row :: row in tracking.Values && row.lastUpdated == w.value) &&
      (forall id :: id in tracking ==> tracking[id].lastUpdated <= w.value))
  }

  // ---------------------------------------------------------------------------------------------
  // Properties of one event

  /** An event older than the watermark changes nothing and raises nothing. */
  lemma SkippedEventChangesNothing(s: State, e: DbEvent, queries: map<string, PatientIdQuery>, lookup: (string, Value) -> Option<int>)
    requires Skips(s.watermark, e)
    ensures Accepted(s, e, queries, lookup) == Step(s, None)
  {
  }

  /** handlePatientEvent's outcomes, row by row. */
  lemma {:induction false} HandledOutcome(s: State, id: int, e: DbEvent)
    ensures var r := Handled(s, id, e); var t := r.state.tracking;
      var wasDeleted := id in s.tracking && s.tracking[id].deleted;
      var voided := e.Values().GetBoolean(VOIDED);
      id in t && t[id].lastUpdated == e.timestamp &&
      (forall other :: other != id ==> (other in t <==> other in s.tracking)) &&
      (forall other :: other != id && other in s.tracking ==> t[other] == s.tracking[other]) &&
      r.state.keys == s.keys && r.state.status == s.status &&
      (r.error.Some? <==> e.table.None? || (e.table == Some(PATIENT_TABLE) && e.operation != DELETE && voided.None?)) &&
      (r.error.Some? ==> r.error == Some(NullPointerException) && r.state.watermark == s.watermark) &&
      (r.error.None? ==> r.state.watermark == Some(e.timestamp)) &&
      (e.table != Some(PATIENT_TABLE) ==> t[id].deleted == wasDeleted) &&
      (e.table == Some(PATIENT_TABLE) && e.operation == DELETE ==> t[id].deleted) &&
      (e.table == Some(PATIENT_TABLE) && e.operation != DELETE && voided.Some? ==> t[id].deleted == voided.value)
  {
    var r := Handled(s, id, e);
    var upserted := Upserted(s.tracking, id, e.timestamp);
    assert forall other :: other != id && other in s.tracking ==> upserted[other] == s.tracking[other];
    if e.table.Some? && e.table.value == PATIENT_TABLE {
      if e.operation == DELETE {
        assert r.state.tracking == WithDeleted(upserted, id, true);
      } else if e.Values().GetBoolean(VOIDED).Some? {
        assert r.state.tracking == WithDeleted(upserted, id, e.Values().GetBoolean(VOIDED).value);
      }
    }
  }

  /** The watermark never moves back, and it moves only to the timestamp of an event not skipped. */
  lemma WatermarkNeverDecreases(s: State, e: DbEvent, queries: map<string, PatientIdQuery>, lookup: (string, Value) -> Option<int>)
    ensures var w := Accepted(s, e, queries, lookup).state.watermark;
      (s.watermark.Some? ==> w.Some? && s.watermark.value <= w.value) &&
      (w != s.watermark ==> w == Some(e.timestamp) && !Skips(s.watermark, e))
  {
  }

  /**
   * The cache only grows: cached ids stay as they are, and the one entry it may gain is the row's key,
   * holding the id a query found for an event without its own patient_id. The status store is untouched.
   */
  lemma CacheOnlyGrows(s: State, e: DbEvent, queries: map<string, PatientIdQuery>, lookup: (string, Value) -> Option<int>)
    ensures var r := Accepted(s, e, queries, lookup).state;
      r.status == s.status &&
      (forall k :: k in s.keys ==> k in r.keys && r.keys[k] == s.keys[k]) &&
      (forall k :: k in r.keys && k !in s.keys ==>
        k == CacheKey(e) && e.Values().GetInteger(PATIENT_ID) == Ok(None) && Lookup(e, queries, lookup) == Some(r.keys[k]))
  {
    var r := Accepted(s, e, queries, lookup);
    if !Skips(s.watermark, e) && PatientOf(s, e, queries, lookup).Ok? && PatientOf(s, e, queries, lookup).value.Some? {
      var id := PatientOf(s, e, queries, lookup).value.value;
      HandledOutcome(s.(keys := Cached(s, e, queries, lookup)), id, e);
    }
  }

  /** An event with its own patient_id, or whose row is cached, runs no query: lookup does not matter. */
  lemma ResolvedWithoutQuery(s: State, e: DbEvent, queries: map<string, PatientIdQuery>,
                             lookup1: (string, Value) -> Option<int>, lookup2: (string, Value) -> Option<int>)
    requires e.Values().GetInteger(PATIENT_ID) != Ok(None) || CacheKey(e) in s.keys
    ensures Accepted(s, e, queries, lookup1) == Accepted(s, e, queries, lookup2)
  {
  }

  /** An event whose patient cannot be found changes nothing and raises nothing. */
  lemma UnresolvedEventIsDropped(s: State, e: DbEvent, queries: map<string, PatientIdQuery>, lookup: (string, Value) -> Option<int>)
    requires e.Values().GetInteger(PATIENT_ID) == Ok(None) && CacheKey(e) !in s.keys
    requires Lookup(e, queries, lookup).None?
    ensures Accepted(s, e, queries, lookup) == Step(s, None)
  {
  }

  /** A patient_id that is not an Integer is a ClassCastException, and nothing changes. */
  lemma NonIntegerPatientIdFails(s: State, e: DbEvent, queries: map<string, PatientIdQuery>, lookup: (string, Value) -> Option<int>)
    requires !Skips(s.watermark, e) && !e.Values().IsNull(PATIENT_ID) && !e.Values().values[PATIENT_ID].Int?
    ensures Accepted(s, e, queries, lookup) == Step(s, Some(ClassCastException))
  {
  }

  /** Only the row of the event's patient changes, and it takes the event's timestamp. */
  lemma OnlyThePatientsRowChanges(s: State, e: DbEvent, queries: map<string, PatientIdQuery>, lookup: (string, Value) -> Option<int>)
    ensures var r := Accepted(s, e, queries, lookup).state; var p := PatientOf(s, e, queries, lookup);
      (Skips(s.watermark, e) || !(p.Ok? && p.value.Some?) ==> r.tracking == s.tracking) &&
      (!Skips(s.watermark, e) && p.Ok? && p.value.Some? ==>
        p.value.value in r.tracking && r.tracking[p.value.value].lastUpdated == e.timestamp &&
        forall id :: id != p.value.value ==>
          ((id in r.tracking <==> id in s.tracking) && (id in s.tracking ==> r.tracking[id] == s.tracking[id])))
  {
    var p := PatientOf(s, e, queries, lookup);
    if !Skips(s.watermark, e) && p.Ok? && p.value.Some? {
      HandledOutcome(s.(keys := Cached(s, e, queries, lookup)), p.value.value, e);
    }
  }

  /** An event that completes keeps every tracked row at or below the watermark. */
  lemma InvariantKept(s: State, e: DbEvent, queries: map<string, PatientIdQuery>, lookup: (string, Value) -> Option<int>)
    requires Inv(s)
    requires Accepted(s, e, queries, lookup).error.None?
    ensures Inv(Accepted(s, e, queries, lookup).state)
  {
    var r := Accepted(s, e, queries, lookup);
    var p := PatientOf(s, e, queries, lookup);
    if !Skips(s.watermark, e) && p.Ok? && p.value.Some? {
      var id := p.value.value;
      HandledOutcome(s.(keys := Cached(s, e, queries, lookup)), id, e);
      forall other | other in r.state.tracking
        ensures r.state.tracking[other].lastUpdated <= e.timestamp
      {
      }
    }
  }

  /**
   * Under the invariant the upsert, which overwrites last_updated, agrees with PatientStatus's
   * updateLastUpdatedIfLater: the event is not older than the watermark, so it is not older than the row.
   */
  lemma UpsertIsLater(s: State, e: DbEvent, queries: map<string, PatientIdQuery>, lookup: (string, Value) -> Option<int>, id: int)
    requires Inv(s) && !Skips(s.watermark, e)
    requires PatientOf(s, e, queries, lookup) == Ok(Some(id)) && id in s.tracking
    ensures id in Accepted(s, e, queries, lookup).state.tracking
    ensures Some(Accepted(s, e, queries, lookup).state.tracking[id].lastUpdated) ==
      Later(Some(s.tracking[id].lastUpdated), Some(e.timestamp))
  {
    HandledOutcome(s.(keys := Cached(s, e, queries, lookup)), id, e);
  }

  /** Handling the same patient event again changes nothing more and ends the same way. */
  lemma HandledIdempotent(s: State, id: int, e: DbEvent)
    ensures var r := Handled(s, id, e); Handled(r.state, id, e) == r
  {
    var r := Handled(s, id, e);
    var again := Handled(r.state, id, e);
    HandledOutcome(s, id, e);
    HandledOutcome(r.state, id, e);
    assert again.state.tracking == r.state.tracking;
  }

  /** Accepting the same event a second time changes nothing more and ends the same way. */
  lemma AcceptIdempotent(s: State, e: DbEvent, queries: map<string, PatientIdQuery>, lookup: (string, Value) -> Option<int>)
    ensures var r := Accepted(s, e, queries, lookup); Accepted(r.state, e, queries, lookup) == r
  {
    var r := Accepted(s, e, queries, lookup);
    var p := PatientOf(s, e, queries, lookup);
    if !Skips(s.watermark, e) && p.Ok? && p.value.Some? {
      var id := p.value.value;
      var s1 := s.(keys := Cached(s, e, queries, lookup));
      HandledOutcome(s1, id, e);
      assert r == Handled(s1, id, e);
      assert !Skips(r.state.watermark, e);
      assert PatientOf(r.state, e, queries, lookup) == Ok(Some(id));
      assert Cached(r.state, e, queries, lookup) == r.state.keys;
      assert r.state.(keys := r.state.keys) == r.state;
      HandledIdempotent(s1, id, e);
    }
  }

  // ---------------------------------------------------------------------------------------------
  // The consumer

  /** getMaxEventTimestamp over the tracking table. */
  method MaxLastUpdated(tracking: map<int, Tracked>) returns (w: Option<int>)
    ensures IsMaxLastUpdated(w, tracking)
  {
    w := None;
    var rest := tracking.Values;
    while rest != {}
      invariant rest <= tracking.Values
      invariant w.None? <==> rest == tracking.Values
      invariant w.Some? ==> exists row :: row in tracking.Values && row !in rest && row.lastUpdated == w.value
      invariant forall row :: row in tracking.Values && row !in rest ==> w.Some? && row.lastUpdated <= w.value
      decreases rest
    {
      var row :| row in rest;
      if w.None? || w.value < row.lastUpdated {
        w := Some(row.lastUpdated);
      }
      rest := rest - {row};
    }
    forall id | id in tracking
      ensures w.Some? && tracking[id].lastUpdated <= w.value
    {
      assert tracking[id] in tracking.Values;
    }
  }

  class PatientEventConsumer {
    const queries: map<string, PatientIdQuery>
    var keysDb: map<string, int>
    var statusDb: map<string, int>
    var tracking: map<int, Tracked>
    var maxEventTimestamp: Option<int>

    function Contents(): State
      reads this
    {
      State(keysDb, statusDb, tracking, maxEventTimestamp)
    }

    /** A consumer over the stored cache, status store and tracking table; no watermark yet. */
    constructor(queries: map<string, PatientIdQuery>, stored: State)
      ensures this.queries == queries && Contents() == stored.(watermark := None)
    {
      this.queries := queries;
      keysDb := stored.keys;
      statusDb := stored.status;
      tracking := stored.tracking;
      maxEventTimestamp := None;
    }

    /**
     * startup: when the status store has no snapshot marker, issue the snapshot statements (their
     * effect on the tracking table is `snapshotted`) and store the marker `now`, taken before the
     * snapshot; then read the watermark from the tracking table.
     */
    method Startup(now: int, tables: seq<TableInfo>, included: string -> bool, snapshotted: map<int, Tracked>)
      returns (issued: seq<string>)
      modifies this
      ensures SNAPSHOT_KEY in old(statusDb) ==>
        issued == [] && tracking == old(tracking) && statusDb == old(statusDb)
      ensures SNAPSHOT_KEY !in old(statusDb) ==>
        issued == SnapshotStatements(tables, included) && tracking == snapshotted &&
        statusDb == old(statusDb)[SNAPSHOT_KEY := now]
      ensures keysDb == old(keysDb) && SNAPSHOT_KEY in statusDb
      ensures IsMaxLastUpdated(maxEventTimestamp, tracking) && Inv(Contents())
    {
      issued := [];
      if SNAPSHOT_KEY !in statusDb {
        issued := InitialSnapshotStatements(tables, included);
        tracking := snapshotted;
        statusDb := statusDb[SNAPSHOT_KEY := now];
      }
      maxEventTimestamp := MaxLastUpdated(tracking);
    }

    method HandlePatientEvent(patientId: int, event: DbEvent) returns (error: Option<Exception>)
      modifies this
      ensures Step(Contents(), error) == Handled(old(Contents()), patientId, event)
    {
      var deleted := patientId in tracking && tracking[patientId].deleted;
      tracking := tracking[patientId := Tracked(event.timestamp, deleted)];
      if event.table.None? {
        return Some(NullPointerException);
      }
      if event.table.value == PATIENT_TABLE {
        if event.operation == DELETE {
          tracking := tracking[patientId := tracking[patientId].(deleted := true)];
        } else {
          var voided := event.Values().GetBoolean(VOIDED);
          if voided.None? {
            return Some(NullPointerException);
          }
          if voided.value {
            tracking := tracking[patientId := tracking[patientId].(deleted := true)];
          } else {
            tracking := tracking[patientId := tracking[patientId].(deleted := false)];
          }
        }
      }
      maxEventTimestamp := Some(event.timestamp);
      error := None;
    }

    method Accept(event: DbEvent, lookup: (string, Value) -> Option<int>) returns (error: Option<Exception>)
      modifies this
      ensures Step(Contents(), error) == Accepted(old(Contents()), event, queries, lookup)
    {
      if maxEventTimestamp.Some? && event.timestamp < maxEventTimestamp.value {
        return None;
      }
      var values := event.Values();
      var given := values.GetInteger(PATIENT_ID);
      if given.Err? {
        return Some(given.error);
      }
      var patientId := given.value;
      if patientId.None? {
        var rocksKey := CacheKey(event);
        if rocksKey in keysDb {
          patientId := Some(keysDb[rocksKey]);
        } else {
          if event.table.Some? && event.table.value in queries {
            var query := queries[event.table.value];
            if !values.IsNull(query.valueColumn) {
              patientId := lookup(query.sql, values.values[query.valueColumn]);
            }
          }
          if patientId.Some? {
            keysDb := keysDb[rocksKey := patientId.value];
          }
        }
      }
      if patientId.Some? {
        error := HandlePatientEvent(patientId.value, event);
      } else {
        error := None;
      }
    }
  }

  /** The constructor: the queries of getPatientIdQueries, whose NullPointerException it passes on. */
  method NewConsumer(g: Graph, monitored: seq<string>, stored: State) returns (r: Result<PatientEventConsumer>)
    requires WellFormed(g)
    ensures r.Err? <==> exists i :: 0 <= i < |monitored| && monitored[i] !in ExcludedFromPatientSearch && monitored[i] !in g
    ensures r.Ok? ==> fresh(r.value)
    ensures r.Ok? ==> r.value.queries == QueriesOf(g, monitored) && r.value.Contents() == stored.(watermark := None)
  {
    var queries := PatientIdQueries(g, monitored);
    if queries.Err? {
      return Err(queries.error);
    }
    var c := new PatientEventConsumer(queries.value, stored);
    return Ok(c);
  }

  /** A second startup finds the marker the first one stored, so it issues no snapshot. */
  method RestartSkipsSnapshot(c: PatientEventConsumer, now1: int, now2: int, tables: seq<TableInfo>,
                              included: string -> bool, snapshotted1: map<int, Tracked>, snapshotted2: map<int, Tracked>)
    returns (first: seq<string>, second: seq<string>)
    modifies c
    ensures SNAPSHOT_KEY !in old(c.statusDb) ==> first == SnapshotStatements(tables, included)
    ensures second == [] && SNAPSHOT_KEY in c.statusDb
    ensures c.statusDb[SNAPSHOT_KEY] == (if SNAPSHOT_KEY in old(c.statusDb) then old(c.statusDb)[SNAPSHOT_KEY] else now1)
  {
    first := c.Startup(now1, tables, included, snapshotted1);
    second := c.Startup(now2, tables, included, snapshotted2);
  }
}
