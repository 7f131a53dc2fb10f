/** `Processing` (main.py:89-136): the temporal exclusion filter, the schema
    transform, and `Processing.main`, which reads both logs, joins them,
    enriches the result with the ban registry, filters and transforms it. */
module Processing {
  import opened Wrappers
  import opened Seqs
  import opened Calendar
  import opened Records
  import opened Ingest
  import opened Joins

  /** `pd.to_timedelta(24, 'h')` in seconds. */
  const BanWindow: int := 24 * 3600

  // ---------------------------------------------------------------------
  // filter_df (main.py:96-99)

  /** The mask `ban_time - 24h < timestamp_server`; a NaT ban time compares false. */
  predicate TooCloseToBan(e: EnrichedEvent) {
    match e.banTime
    case None => false
    case Some(ban) => ban - BanWindow < e.row.timestampServer
  }

  /** `df[~condition]`: the rows the mask does not select, in order. */
  function FilterDf(rows: seq<EnrichedEvent>): (r: seq<EnrichedEvent>)
    ensures |r| <= |rows|
    ensures forall i :: 0 <= i < |r| ==>
      r[i].banTime.None? || r[i].row.timestampServer <= r[i].banTime.value - BanWindow
  {
    if rows == [] then []
    else if !TooCloseToBan(rows[0]) then [rows[0]] + FilterDf(rows[1..])
    else FilterDf(rows[1..])
  }

  /** A row with no ban time, or whose server timestamp is at least 24 hours
      before its ban time, is kept as often as it occurs; every other row is dropped. */
  lemma {:induction false} FilterDfCount(rows: seq<EnrichedEvent>, e: EnrichedEvent)
    ensures multiset(FilterDf(rows))[e] ==
      if e.banTime.None? || e.row.timestampServer <= e.banTime.value - BanWindow then multiset(rows)[e] else 0
  {
    if rows != [] {
      FilterDfCount(rows[1..], e);
      CountCons(rows, e);
      if !TooCloseToBan(rows[0]) {
        CountCons(FilterDf(rows), e);
      }
    }
  }

  /** Where the cut lies: the instant exactly 24 hours before the ban is
      kept, one second later is dropped, and so is everything at or after the ban. */
  lemma FilterDfBoundary(j: JoinedEvent, ban: int)
    ensures j.timestampServer == ban - BanWindow ==> FilterDf([EnrichedEvent(j, Some(ban))]) == [EnrichedEvent(j, Some(ban))]
    ensures j.timestampServer == ban - BanWindow + 1 ==> FilterDf([EnrichedEvent(j, Some(ban))]) == []
    ensures j.timestampServer >= ban ==> FilterDf([EnrichedEvent(j, Some(ban))]) == []
    ensures FilterDf([EnrichedEvent(j, None)]) == [EnrichedEvent(j, None)]
  {
    assert [EnrichedEvent(j, Some(ban))][1..] == [];
    assert [EnrichedEvent(j, None)][1..] == [];
  }

  /** The kept rows stay in order. */
  lemma {:induction false} FilterDfSubsequence(rows: seq<EnrichedEvent>)
    ensures IsSubsequence(FilterDf(rows), rows)
  {
    if rows != [] {
      FilterDfSubsequence(rows[1..]);
      var rest := FilterDf(rows[1..]);
      if !TooCloseToBan(rows[0]) {
        assert ([rows[0]] + rest)[1..] == rest;
      } else {
        SubsequenceOfTail(rest, rows[0], rows[1..]);
        assert [rows[0]] + rows[1..] == rows;
      }
    }
  }

  /** Filtering twice is filtering once. */
  lemma {:induction false} FilterDfIdempotent(rows: seq<EnrichedEvent>)
    ensures FilterDf(FilterDf(rows)) == FilterDf(rows)
  {
    if rows != [] {
      FilterDfIdempotent(rows[1..]);
      var rest := FilterDf(rows[1..]);
      if !TooCloseToBan(rows[0]) {
        assert ([rows[0]] + rest)[1..] == rest;
      }
    }
  }

  // ---------------------------------------------------------------------
  // transform_data (main.py:111-119): drop timestamp_client and ban_time,
  // rename timestamp_server, description_client and description_server

  /** One enriched row after `drop_columns` and `rename_columns`. */
  function ToResult(e: EnrichedEvent): ResultRecord {
    ResultRecord(
      timestamp := e.row.timestampServer,
      playerId := e.row.playerId,
      eventId := e.row.eventId,
      errorId := e.row.errorId,
      jsonClient := e.row.descriptionClient,
      jsonServer := e.row.descriptionServer)
  }

  /** The transform changes the columns of each row and nothing else: the same
      number of rows, in the same order, each carrying its own values. */
  function TransformData(rows: seq<EnrichedEvent>): (r: seq<ResultRecord>)
    ensures |r| == |rows|
    ensures forall i :: 0 <= i < |rows| ==>
      && r[i].timestamp == rows[i].row.timestampServer
      && r[i].jsonClient == rows[i].row.descriptionClient
      && r[i].jsonServer == rows[i].row.descriptionServer
      && r[i].playerId == rows[i].row.playerId
      && r[i].eventId == rows[i].row.eventId
      && r[i].errorId == rows[i].row.errorId
  {
    if rows == [] then [] else [ToResult(rows[0])] + TransformData(rows[1..])
  }

  /** The transform forgets exactly the client timestamp and the ban time: two
      rows transform alike iff they agree on every other column. */
  lemma ToResultForgets(a: EnrichedEvent, b: EnrichedEvent)
    ensures ToResult(a) == ToResult(b) <==> a.row.(timestampClient := 0) == b.row.(timestampClient := 0)
  {
    if ToResult(a) == ToResult(b) {
      assert a.row.timestampServer == ToResult(a).timestamp;
      assert a.row.descriptionClient == ToResult(a).jsonClient;
    }
  }

  lemma {:induction false} TransformMembers(rows: seq<EnrichedEvent>, x: ResultRecord)
    ensures x in TransformData(rows) <==> exists e :: e in rows && ToResult(e) == x
  {
    if rows != [] {
      TransformMembers(rows[1..], x);
      if ToResult(rows[0]) == x {
        assert rows[0] in rows;
      }
      forall e | e in rows[1..] ensures e in rows {}
      forall e | e in rows && e != rows[0] ensures e in rows[1..] {
        var i :| 0 <= i < |rows| && rows[i] == e;
        assert rows[1..][i - 1] == e;
      }
    }
  }

  // ---------------------------------------------------------------------
  // Processing.main (main.py:121-136)

  /** Lines 127-132: the correlation join, the lookup by the joined player ids,
      the left join, the temporal filter and the transform. Logs that share no
      error id, in particular an empty log, give no rows. */
  function Reconcile(clients: seq<ClientEvent>, servers: seq<ServerEvent>, registry: seq<BanRecord>): (r: seq<ResultRecord>)
    ensures |r| <= |Enrich(clients, servers, registry)|
    ensures ClientErrorIds(clients) !! ServerErrorIds(servers) ==> r == []
  {
    InnerJoinDisjoint(clients, servers);
    TransformData(FilterDf(Enrich(clients, servers, registry)))
  }

  /** Lines 127-130: the joined rows with the ban times of their players. Each
      comes from a client row and a server row of the logs, and carries NaT or
      the ban time of a registry record of its player. */
  function Enrich(clients: seq<ClientEvent>, servers: seq<ServerEvent>, registry: seq<BanRecord>): (r: seq<EnrichedEvent>)
    ensures forall e :: e in r ==> ClientPart(e.row) in clients && ServerPart(e.row) in servers
    ensures forall e :: e in r ==> e.banTime.None? || BanRecord(e.row.playerId, e.banTime) in registry
  {
    var merged := InnerJoin(clients, servers);
    LeftJoin(merged, Lookup(registry, PlayerIds(merged)))
  }

  /** Lines 125-132: read both logs for the target date (each raising on a
      missing file or a malformed date, client first) and reconcile them. The
      rows handed to `push_data_from_dataframe`; their number is the row count
      `to_sql` reports. */
  function Pipeline(
    clientFile: Option<seq<ClientEvent>>, serverFile: Option<seq<ServerEvent>>,
    registry: seq<BanRecord>, date: string): (r: Result<seq<ResultRecord>, Error>)
    ensures clientFile.None? ==> r == Failure(NothingToConcatenate)
    ensures clientFile.Some? && ParseDate(date).None? ==> r == Failure(MalformedDate)
    ensures clientFile.Some? && ParseDate(date).Some? && serverFile.None? ==> r == Failure(NothingToConcatenate)
    ensures r.Success? <==> ParseDate(date).Some? && clientFile.Some? && serverFile.Some?
    ensures r.Success? ==>
      var day := EpochDay(ParseDate(date).value);
      r.value == Reconcile(DateFilter(clientFile.value, ClientStamp, day), DateFilter(serverFile.value, ServerStamp, day), registry)
  {
    var c :- ReadEvents(clientFile, ClientStamp, date);
    var s :- ReadEvents(serverFile, ServerStamp, date);
    Success(Reconcile(c, s, registry))
  }

  /** A kept reconciled row is the joined row of a matching client/server pair
      whose player either has no ban record or has one whose ban time is NaT or
      at least 24 hours after the server timestamp. */
  predicate Admissible(registry: seq<BanRecord>, j: JoinedEvent, ban: Option<int>) {
    && (if BanCount(registry, j.playerId) == 0 then ban.None? else BanRecord(j.playerId, ban) in registry)
    && (ban.None? || j.timestampServer <= ban.value - BanWindow)
  }

  /** Enrichment loses no joined row: it is the left join of the whole
      correlation join with the whole registry, so `LeftJoinCount` and
      `LeftJoinComplete` give every joined row k times for k ban records and
      once with NaT for none. */
  lemma EnrichWhole(clients: seq<ClientEvent>, servers: seq<ServerEvent>, registry: seq<BanRecord>)
    ensures Enrich(clients, servers, registry) == LeftJoin(InnerJoin(clients, servers), registry)
  {
    LookupLossless(InnerJoin(clients, servers), registry);
  }

  /** Every reconciled row comes from a client row and a server row with the
      same error id and an admissible ban time, after the schema transform. */
  lemma ReconcileSound(clients: seq<ClientEvent>, servers: seq<ServerEvent>, registry: seq<BanRecord>, x: ResultRecord)
    requires x in Reconcile(clients, servers, registry)
    ensures exists e: EnrichedEvent ::
      && ClientPart(e.row) in clients && ServerPart(e.row) in servers
      && Admissible(registry, e.row, e.banTime) && ToResult(e) == x
  {
    var merged := InnerJoin(clients, servers);
    var joined := LeftJoin(merged, Lookup(registry, PlayerIds(merged)));
    LookupLossless(merged, registry);
    var kept := FilterDf(joined);
    TransformMembers(kept, x);
    var e :| e in kept && ToResult(e) == x;
    FilterDfCount(joined, e);
    assert e in joined;
    assert ClientPart(e.row) in clients && ServerPart(e.row) in servers;
    assert Admissible(registry, e.row, e.banTime);
  }

  /** Every matching pair with an admissible ban time reaches the result. */
  lemma ReconcileComplete(clients: seq<ClientEvent>, servers: seq<ServerEvent>, registry: seq<BanRecord>,
                          c: ClientEvent, s: ServerEvent, t: Option<int>)
    requires c in clients && s in servers && c.errorId == s.errorId
    requires Admissible(registry, Combine(c, s), t)
    ensures ToResult(EnrichedEvent(Combine(c, s), t)) in Reconcile(clients, servers, registry)
  {
    var merged := InnerJoin(clients, servers);
    var e := EnrichedEvent(Combine(c, s), t);
    InnerJoinComplete(clients, servers, c, s);
    var joined := LeftJoin(merged, Lookup(registry, PlayerIds(merged)));
    LookupLossless(merged, registry);
    LeftJoinComplete(merged, registry, Combine(c, s), t);
    FilterDfCount(joined, e);
    TransformMembers(FilterDf(joined), ToResult(e));
  }

  /** A matching pair whose player has no ban record reaches the result once
      for every time it was joined, with a NaT ban time that is never excluded. */
  lemma ReconcileKeepsUnbanned(clients: seq<ClientEvent>, servers: seq<ServerEvent>, registry: seq<BanRecord>,
                               c: ClientEvent, s: ServerEvent)
    requires c.errorId == s.errorId
    requires BanCount(registry, c.playerId) == 0
    ensures multiset(FilterDf(Enrich(clients, servers, registry)))[EnrichedEvent(Combine(c, s), None)]
            == multiset(clients)[c] * multiset(servers)[s]
  {
    var merged := InnerJoin(clients, servers);
    var j := Combine(c, s);
    var e := EnrichedEvent(j, None);
    var whole := LeftJoin(merged, registry);
    assert j.playerId == c.playerId;
    InnerJoinCount(clients, servers, c, s);
    assert multiset(merged)[j] == multiset(clients)[c] * multiset(servers)[s];
    LeftJoinUnbanned(merged, registry, j);
    assert multiset(whole)[e] == multiset(merged)[j];
    FilterDfCount(whole, e);
    assert multiset(FilterDf(whole))[e] == multiset(whole)[e];
    LookupLossless(merged, registry);
  }
}
