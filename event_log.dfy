/**
 * DbEventLog: per source, the latest event status and a count of the events logged for each table.
 *
 * Sources and tables are the event's server name and table, either of which may be null; the
 * HashMaps involved accept a null key, so both are keyed by Option<string>.
 */
module EventLog {
  import opened Wrappers
  import opened Rows

  /** DbEventStatus is not part of this model: a status stands for the event it was made from. */
  datatype EventStatus = EventStatus(event: DbEvent)

  /** Integer::sum: the sum of two Java ints, wrapping around at 32 bits. */
  function IntSum(a: int, b: int): int {
    IntValue(a + b)
  }

  /** The counters of every source and the latest status of each. */
  datatype LogState = LogState(
    latest: map<Option<string>, EventStatus>,
    counts: map<Option<string>, map<Option<string>, int>>)

  /** getTableCounts(source): the source's counters, an empty map for a source not seen before. */
  function TableCounts(counts: map<Option<string>, map<Option<string>, int>>, source: Option<string>): map<Option<string>, int> {
    if source in counts then counts[source] else map[]
  }

  /** merge(table, 1, Integer::sum): one more for the table, starting at 1. */
  function Merged(tableCounts: map<Option<string>, int>, table: Option<string>): map<Option<string>, int> {
    tableCounts[table := if table in tableCounts then IntSum(tableCounts[table], 1) else 1]
  }

  /** The state after log(e). */
  function Logged(st: LogState, e: DbEvent): LogState {
    LogState(
      st.latest[e.serverName := EventStatus(e)],
      st.counts[e.serverName := Merged(TableCounts(st.counts, e.serverName), e.table)])
  }

  /** The count of a table of a source, 0 when it has none. */
  function Count(st: LogState, source: Option<string>, table: Option<string>): int {
    var t := TableCounts(st.counts, source);
    if table in t then t[table] else 0
  }

  /** Logging the events one after another. */
  function Replay(st: LogState, events: seq<DbEvent>): LogState {
    if events == [] then st else Logged(Replay(st, events[..|events| - 1]), events[|events| - 1])
  }

  /** How many of the events came from the source and the table. */
  function Occurrences(events: seq<DbEvent>, source: Option<string>, table: Option<string>): nat {
    if events == [] then 0
    else
      var last := events[|events| - 1];
      Occurrences(events[..|events| - 1], source, table) + (if last.serverName == source && last.table == table then 1 else 0)
  }

  /** The last of the events that came from the source, if any. */
  function LastFrom(events: seq<DbEvent>, source: Option<string>): Option<DbEvent> {
    if events == [] then None
    else if events[|events| - 1].serverName == source then Some(events[|events| - 1])
    else LastFrom(events[..|events| - 1], source)
  }

  /** log adds one to the event's own counter (starting from 1, wrapping like an int) and touches no other. */
  lemma LogCountsOne(st: LogState, e: DbEvent, source: Option<string>, table: Option<string>)
    ensures Count(Logged(st, e), e.serverName, e.table) == IntSum(Count(st, e.serverName, e.table), 1)
    ensures (source, table) != (e.serverName, e.table) ==> Count(Logged(st, e), source, table) == Count(st, source, table)
    ensures -TWO_TO_31 <= Count(st, e.serverName, e.table) < TWO_TO_31 - 1 ==>
      Count(Logged(st, e), e.serverName, e.table) == Count(st, e.serverName, e.table) + 1
  {
  }

  /** After log(e), e's source reports e's status; every other source reports what it did before. */
  lemma LogSetsLatest(st: LogState, e: DbEvent, source: Option<string>)
    ensures Logged(st, e).latest[e.serverName] == EventStatus(e)
    ensures source != e.serverName ==> (source in Logged(st, e).latest <==> source in st.latest)
    ensures source != e.serverName && source in st.latest ==> Logged(st, e).latest[source] == st.latest[source]
  {
  }

  lemma IntSumShift(k: int)
    ensures IntSum(IntValue(k), 1) == IntValue(k + 1)
  {
    var v := IntValue(k);
    assert (v - k) % TWO_TO_32 == 0;
    var d := (v - k) / TWO_TO_32;
    assert v + 1 == k + 1 + d * TWO_TO_32;
    IntValueShift(k + 1, d);
  }

  lemma IntValueShift(x: int, d: int)
    ensures IntValue(x + d * TWO_TO_32) == IntValue(x)
  {
    assert (x + d * TWO_TO_32) % TWO_TO_32 == x % TWO_TO_32;
  }

  lemma IntValueOfInt(x: int)
    requires -TWO_TO_31 <= x < TWO_TO_31
    ensures IntValue(x) == x
  {
  }

  /**
   * From an empty log, each counter after a run of events is the number of that source's events on
   * that table, wrapped like an int.
   */
  lemma {:induction false} ReplayCounts(events: seq<DbEvent>, source: Option<string>, table: Option<string>)
    ensures Count(Replay(LogState(map[], map[]), events), source, table) == IntValue(Occurrences(events, source, table))
  {
    if events != [] {
      var init := events[..|events| - 1];
      var e := events[|events| - 1];
      ReplayCounts(init, source, table);
      var before := Replay(LogState(map[], map[]), init);
      LogCountsOne(before, e, source, table);
      if e.serverName == source && e.table == table {
        IntSumShift(Occurrences(init, source, table));
      }
    } else {
      IntValueOfInt(0);
    }
  }

  /** From an empty log, each source's latest status is that of its last event, none if it had none. */
  lemma {:induction false} ReplayLatest(events: seq<DbEvent>, source: Option<string>)
    ensures var latest := Replay(LogState(map[], map[]), events).latest;
      (source in latest <==> LastFrom(events, source).Some?) &&
      (source in latest ==> latest[source] == EventStatus(LastFrom(events, source).value))
  {
    if events != [] {
      ReplayLatest(events[..|events| - 1], source);
    }
  }

  class DbEventLog {
    var latestEvents: map<Option<string>, EventStatus>
    var tableCounts: map<Option<string>, map<Option<string>, int>>

    function Contents(): LogState
      reads this
    {
      LogState(latestEvents, tableCounts)
    }

    constructor()
      ensures Contents() == LogState(map[], map[])
    {
      latestEvents := map[];
      tableCounts := map[];
    }

    /** log: count the event for its source and table, and make its status the source's latest. */
    method Log(event: DbEvent) returns (status: EventStatus)
      modifies this
      ensures status == EventStatus(event)
      ensures Contents() == Logged(old(Contents()), event)
    {
      var counts := GetTableCounts(event.serverName);
      var table := event.table;
      counts := counts[table := if table in counts then IntSum(counts[table], 1) else 1];
      tableCounts := tableCounts[event.serverName := counts];
      status := EventStatus(event);
      latestEvents := latestEvents[event.serverName := status];
    }

    /** getLatestEventStatus: null for a source never logged. */
    function GetLatestEventStatus(source: Option<string>): (r: Option<EventStatus>)
      reads this
      ensures r.Some? <==> source in latestEvents
      ensures r.Some? ==> r.value == latestEvents[source]
    {
      if source in latestEvents then Some(latestEvents[source]) else None
    }

    /** getTableCounts(source): computeIfAbsent with an empty map. */
    method GetTableCounts(source: Option<string>) returns (counts: map<Option<string>, int>)
      modifies this
      ensures tableCounts == (if source in old(tableCounts) then old(tableCounts) else old(tableCounts)[source := map[]])
      ensures counts == TableCounts(old(tableCounts), source) && latestEvents == old(latestEvents)
    {
      if source !in tableCounts {
        tableCounts := tableCounts[source := map[]];
      }
      counts := tableCounts[source];
    }
  }
}
