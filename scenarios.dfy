/** End-to-end runs of `Processing.main` on small inputs for the target date
    2021-05-21 (epoch day 18768), whose seconds are 18768 * 86400 up to but
    excluding 18769 * 86400. */
module Scenarios {
  import opened Wrappers
  import opened Calendar
  import opened Records
  import opened Ingest
  import opened Joins
  import opened Processing

  const TargetDate: string := "2021-05-21"

  lemma TargetDay()
    ensures ParseDate(TargetDate) == Some(Date(2021, 5, 21))
    ensures EpochDay(Date(2021, 5, 21)) == 18768
  {
    ParseDateAccepts();
  }

  /** A row whose timestamp lies on the target day is kept by the date filter. */
  lemma ReadOneRow<R>(row: R, stamp: R -> int)
    requires 18768 * SecondsPerDay <= stamp(row) < 18769 * SecondsPerDay
    ensures DateFilter([row], stamp, 18768) == [row]
  {
    DayOfInstant(stamp(row), 18768);
    assert [row][1..] == [];
  }

  /** One client row and one server row with error id "7", and a ban of player
      42 far in the future: one result row, stamped with the server's time. */
  lemma FarFutureBan(t: int, eventId: int, jsonClient: string, jsonServer: string)
    requires 18768 * SecondsPerDay <= t && t + 5 < 18769 * SecondsPerDay
    ensures Pipeline(
      Some([ClientEvent(t, 42, "7", jsonClient)]),
      Some([ServerEvent(t + 5, eventId, "7", jsonServer)]),
      [BanRecord(42, Some(t + 1000000))],
      TargetDate)
      == Success([ResultRecord(t + 5, 42, eventId, "7", jsonClient, jsonServer)])
  {
    var c := ClientEvent(t, 42, "7", jsonClient);
    var s := ServerEvent(t + 5, eventId, "7", jsonServer);
    var registry := [BanRecord(42, Some(t + 1000000))];
    TargetDay();
    ReadOneRow(c, ClientStamp);
    ReadOneRow(s, ServerStamp);
    var j := Combine(c, s);
    assert [c][1..] == [] && [s][1..] == [];
    assert JoinRow(c, [s]) == [j];
    assert InnerJoin([c], [s]) == [j];
    assert PlayerIds([j]) == [42];
    assert Lookup(registry, [42]) == registry;
    assert Attach(j, registry) == [EnrichedEvent(j, Some(t + 1000000))];
    assert LeftJoin([j], registry) == [EnrichedEvent(j, Some(t + 1000000))];
    var e := EnrichedEvent(j, Some(t + 1000000));
    assert [e][1..] == [];
    assert FilterDf([e]) == [e];
    assert TransformData([e]) == [ToResult(e)];
    assert Reconcile([c], [s], registry) == [ResultRecord(t + 5, 42, eventId, "7", jsonClient, jsonServer)];
  }

  /** The same rows with the ban one hour after the server's timestamp, inside
      the 24-hour window: nothing is written. */
  lemma BanWithinWindow(t: int, eventId: int, jsonClient: string, jsonServer: string)
    requires 18768 * SecondsPerDay <= t && t + 5 < 18769 * SecondsPerDay
    ensures Pipeline(
      Some([ClientEvent(t, 42, "7", jsonClient)]),
      Some([ServerEvent(t + 5, eventId, "7", jsonServer)]),
      [BanRecord(42, Some(t + 5 + 3600))],
      TargetDate)
      == Success([])
  {
    var c := ClientEvent(t, 42, "7", jsonClient);
    var s := ServerEvent(t + 5, eventId, "7", jsonServer);
    var registry := [BanRecord(42, Some(t + 5 + 3600))];
    TargetDay();
    ReadOneRow(c, ClientStamp);
    ReadOneRow(s, ServerStamp);
    var j := Combine(c, s);
    assert [c][1..] == [] && [s][1..] == [];
    assert JoinRow(c, [s]) == [j];
    assert InnerJoin([c], [s]) == [j];
    assert PlayerIds([j]) == [42];
    assert Lookup(registry, [42]) == registry;
    assert Attach(j, registry) == [EnrichedEvent(j, Some(t + 5 + 3600))];
    assert LeftJoin([j], registry) == [EnrichedEvent(j, Some(t + 5 + 3600))];
    assert FilterDf([EnrichedEvent(j, Some(t + 5 + 3600))]) == [];
  }

  /** Logs whose target-day rows share no error id: the run completes and writes no rows. */
  lemma NoCommonErrorIds(clientRows: seq<ClientEvent>, serverRows: seq<ServerEvent>, registry: seq<BanRecord>)
    requires ClientErrorIds(DateFilter(clientRows, ClientStamp, 18768)) !! ServerErrorIds(DateFilter(serverRows, ServerStamp, 18768))
    ensures Pipeline(Some(clientRows), Some(serverRows), registry, TargetDate) == Success([])
  {
    TargetDay();
  }

  /** A missing log makes the concatenation raise, whatever the other inputs. */
  lemma MissingLog(clientRows: seq<ClientEvent>, registry: seq<BanRecord>, date: string)
    ensures Pipeline(None, None, registry, date) == Failure(NothingToConcatenate)
    ensures Pipeline(Some(clientRows), None, registry, TargetDate) == Failure(NothingToConcatenate)
  {
    TargetDay();
  }

  /** A malformed target date raises as soon as a chunk is processed. */
  lemma BadDate(clientRows: seq<ClientEvent>, serverRows: Option<seq<ServerEvent>>, registry: seq<BanRecord>)
    ensures Pipeline(Some(clientRows), serverRows, registry, "2021-02-29") == Failure(MalformedDate)
  {
    ParseDateRejects();
  }
}
