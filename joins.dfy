/** The two joins of `Processing.main`: the correlation join of client and
    server rows on `error_id` (main.py:127) and the enrichment with the ban
    registry, looked up by the joined rows' player ids and left-joined on
    `player_id` (main.py:128-130). Rows come out in pandas' order: the left
    rows in order, each followed by its matches in the order of the right side. */
module Joins {
  import opened Wrappers
  import opened Seqs
  import opened Records

  // ---------------------------------------------------------------------
  // Correlation join: pd.merge(df_client, df_server, how='inner', on='error_id',
  // suffixes=('_client', '_server'))

  /** The joined row of a client row and a server row: `timestamp` and
      `description` collide and are suffixed, the rest pass through, so the
      joined row splits back into the client row and, when the error ids
      match, the server row it was made from. */
  function Combine(c: ClientEvent, s: ServerEvent): (j: JoinedEvent)
    ensures ClientPart(j) == c
    ensures c.errorId == s.errorId ==> ServerPart(j) == s
  {
    JoinedEvent(c.timestamp, s.timestamp, c.playerId, s.eventId, c.errorId, c.description, s.description)
  }

  /** The client columns of a joined row. */
  function ClientPart(j: JoinedEvent): ClientEvent {
    ClientEvent(j.timestampClient, j.playerId, j.errorId, j.descriptionClient)
  }

  /** The server columns of a joined row. */
  function ServerPart(j: JoinedEvent): ServerEvent {
    ServerEvent(j.timestampServer, j.eventId, j.errorId, j.descriptionServer)
  }

  /** The rows one client row contributes: one per server row with its error id. */
  function JoinRow(c: ClientEvent, servers: seq<ServerEvent>): (r: seq<JoinedEvent>)
    ensures forall j :: j in r ==> ClientPart(j) == c && ServerPart(j) in servers
  {
    if servers == [] then []
    else (if servers[0].errorId == c.errorId then [Combine(c, servers[0])] else []) + JoinRow(c, servers[1..])
  }

  /** The inner join: every output row is made of a client row and a server
      row, and the two share the row's error id. */
  function InnerJoin(clients: seq<ClientEvent>, servers: seq<ServerEvent>): (r: seq<JoinedEvent>)
    ensures forall j :: j in r ==> ClientPart(j) in clients && ServerPart(j) in servers
  {
    if clients == [] then []
    else JoinRow(clients[0], servers) + InnerJoin(clients[1..], servers)
  }

  /** Two matching pairs combine to the same joined row only if they are the same pair. */
  lemma CombineInjective(c1: ClientEvent, s1: ServerEvent, c2: ClientEvent, s2: ServerEvent)
    requires c1.errorId == s1.errorId && c2.errorId == s2.errorId
    ensures Combine(c1, s1) == Combine(c2, s2) <==> c1 == c2 && s1 == s2
  {}

  /** A client row yields the joined row of a matching pair once per copy of its server row. */
  lemma {:induction false} JoinRowCount(c0: ClientEvent, servers: seq<ServerEvent>, c: ClientEvent, s: ServerEvent)
    requires c.errorId == s.errorId
    ensures multiset(JoinRow(c0, servers))[Combine(c, s)] == if c0 == c then multiset(servers)[s] else 0
  {
    if servers != [] {
      var x := Combine(c, s);
      var head := if servers[0].errorId == c0.errorId then [Combine(c0, servers[0])] else [];
      JoinRowCount(c0, servers[1..], c, s);
      assert JoinRow(c0, servers) == head + JoinRow(c0, servers[1..]);
      CountAppend(head, JoinRow(c0, servers[1..]), x);
      CountCons(servers, s);
      if servers[0].errorId == c0.errorId {
        CombineInjective(c0, servers[0], c, s);
      }
    }
  }

  lemma MulAddLeft(b: nat, k: nat, m: nat)
    ensures (b + k) * m == b * m + k * m
  {}

  /** Every matching pair yields exactly one joined row: `k` copies of the
      client row and `m` copies of the server row give `k * m` copies. */
  lemma {:induction false} InnerJoinCount(clients: seq<ClientEvent>, servers: seq<ServerEvent>, c: ClientEvent, s: ServerEvent)
    requires c.errorId == s.errorId
    ensures multiset(InnerJoin(clients, servers))[Combine(c, s)] == multiset(clients)[c] * multiset(servers)[s]
  {
    if clients != [] {
      var x := Combine(c, s);
      var head := JoinRow(clients[0], servers);
      var rest := InnerJoin(clients[1..], servers);
      assert InnerJoin(clients, servers) == head + rest;
      CountAppend(head, rest, x);
      InnerJoinCount(clients[1..], servers, c, s);
      JoinRowCount(clients[0], servers, c, s);
      CountCons(clients, c);
      MulAddLeft(if clients[0] == c then 1 else 0, multiset(clients[1..])[c], multiset(servers)[s]);
    }
  }

  function ClientErrorIds(clients: seq<ClientEvent>): set<string> {
    set c | c in clients :: c.errorId
  }

  function ServerErrorIds(servers: seq<ServerEvent>): set<string> {
    set s | s in servers :: s.errorId
  }

  /** Every joined row's error id occurs on both sides. */
  lemma InnerJoinErrorIds(clients: seq<ClientEvent>, servers: seq<ServerEvent>, j: JoinedEvent)
    requires j in InnerJoin(clients, servers)
    ensures j.errorId in ClientErrorIds(clients) && j.errorId in ServerErrorIds(servers)
  {
    assert ClientPart(j).errorId in ClientErrorIds(clients);
    assert ServerPart(j).errorId in ServerErrorIds(servers);
  }

  /** Logs that share no error id join to nothing. */
  lemma InnerJoinDisjoint(clients: seq<ClientEvent>, servers: seq<ServerEvent>)
    ensures ClientErrorIds(clients) !! ServerErrorIds(servers) ==> InnerJoin(clients, servers) == []
  {
    var r := InnerJoin(clients, servers);
    if ClientErrorIds(clients) !! ServerErrorIds(servers) && r != [] {
      InnerJoinErrorIds(clients, servers, r[0]);
    }
  }

  // ---------------------------------------------------------------------
  // Ban registry lookup: tuple(merged_df.player_id) and
  // SELECT * FROM cheaters WHERE player_id IN (...)

  /** `tuple(merged_df.player_id)` (main.py:128): the player id of every joined row, duplicates kept. */
  function PlayerIds(joined: seq<JoinedEvent>): (ids: seq<int>)
    ensures |ids| == |joined|
    ensures forall j :: j in joined ==> j.playerId in ids
    ensures forall p :: p in ids ==> exists j :: j in joined && j.playerId == p
  {
    if joined == [] then []
    else [joined[0].playerId] + PlayerIds(joined[1..])
  }

  /** The registry rows the lookup query selects (main.py:129), in registry order. */
  function Lookup(registry: seq<BanRecord>, ids: seq<int>): (r: seq<BanRecord>)
    ensures forall b :: b in r <==> b in registry && b.playerId in ids
  {
    if registry == [] then []
    else (if registry[0].playerId in ids then [registry[0]] else []) + Lookup(registry[1..], ids)
  }

  /** The selected rows keep the registry's order. */
  lemma {:induction false} LookupSubsequence(registry: seq<BanRecord>, ids: seq<int>)
    ensures IsSubsequence(Lookup(registry, ids), registry)
  {
    if registry != [] {
      LookupSubsequence(registry[1..], ids);
      var rest := Lookup(registry[1..], ids);
      if registry[0].playerId in ids {
        assert ([registry[0]] + rest)[1..] == rest;
      } else {
        assert Lookup(registry, ids) == rest;
        SubsequenceOfTail(rest, registry[0], registry[1..]);
        assert [registry[0]] + registry[1..] == registry;
      }
    }
  }

  // ---------------------------------------------------------------------
  // Enrichment: pd.merge(merged_df, db_data_df, how='left', on='player_id')

  /** How many registry rows a player has. */
  function BanCount(registry: seq<BanRecord>, player: int): nat {
    if registry == [] then 0
    else (if registry[0].playerId == player then 1 else 0) + BanCount(registry[1..], player)
  }

  /** How many rows a left join makes of one joined row: one per ban record, and one if there is none. */
  function Fanout(registry: seq<BanRecord>, player: int): nat {
    if BanCount(registry, player) == 0 then 1 else BanCount(registry, player)
  }

  /** A joined row paired with each ban record of its player, in registry order. */
  function Attach(j: JoinedEvent, registry: seq<BanRecord>): (r: seq<EnrichedEvent>)
    ensures |r| == BanCount(registry, j.playerId)
    ensures forall i :: 0 <= i < |r| ==> r[i].row == j
    ensures forall i :: 0 <= i < |r| ==> BanRecord(j.playerId, r[i].banTime) in registry
  {
    if registry == [] then []
    else (if registry[0].playerId == j.playerId then [EnrichedEvent(j, registry[0].banTime)] else []) + Attach(j, registry[1..])
  }

  /** The left-join rows of one joined row; an unmatched row keeps a NaT ban time. */
  function Expand(j: JoinedEvent, registry: seq<BanRecord>): (r: seq<EnrichedEvent>)
    ensures |r| == Fanout(registry, j.playerId)
    ensures forall i :: 0 <= i < |r| ==> r[i].row == j
    ensures BanCount(registry, j.playerId) == 0 ==> r == [EnrichedEvent(j, None)]
  {
    var a := Attach(j, registry);
    if a == [] then [EnrichedEvent(j, None)] else a
  }

  /** The left join: every row is a joined row with either NaT, when its player
      has no ban record, or the ban time of one of the player's records. */
  function LeftJoin(joined: seq<JoinedEvent>, registry: seq<BanRecord>): (r: seq<EnrichedEvent>)
    ensures forall e :: e in r ==> e.row in joined
    ensures forall e :: e in r ==>
      if BanCount(registry, e.row.playerId) == 0 then e.banTime.None?
      else BanRecord(e.row.playerId, e.banTime) in registry
  {
    if joined == [] then []
    else
      var head := Expand(joined[0], registry);
      assert forall e :: e in head ==> e.row == joined[0] && (BanCount(registry, e.row.playerId) != 0 ==> BanRecord(e.row.playerId, e.banTime) in registry) by {
        forall e | e in head
          ensures e.row == joined[0] && (BanCount(registry, e.row.playerId) != 0 ==> BanRecord(e.row.playerId, e.banTime) in registry)
        {
          var i :| 0 <= i < |head| && head[i] == e;
        }
      }
      head + LeftJoin(joined[1..], registry)
  }

  /** The joined row of each enriched row. */
  function Rows(enriched: seq<EnrichedEvent>): seq<JoinedEvent> {
    if enriched == [] then [] else [enriched[0].row] + Rows(enriched[1..])
  }

  lemma {:induction false} RowsAppend(a: seq<EnrichedEvent>, b: seq<EnrichedEvent>)
    ensures Rows(a + b) == Rows(a) + Rows(b)
  {
    if a == [] {
      assert a + b == b;
    } else {
      assert (a + b)[1..] == a[1..] + b;
      RowsAppend(a[1..], b);
    }
  }

  /** The rows of `Expand(j, ...)` all stand for `j`. */
  lemma {:induction false} RowsOfUniform(es: seq<EnrichedEvent>, j0: JoinedEvent, j: JoinedEvent)
    requires forall i :: 0 <= i < |es| ==> es[i].row == j0
    ensures multiset(Rows(es))[j] == if j0 == j then |es| else 0
  {
    if es != [] {
      RowsOfUniform(es[1..], j0, j);
    }
  }

  /** Every joined row survives the left join, as many times as its player
      has ban records, and once when the player has none. */
  lemma {:induction false} LeftJoinCount(joined: seq<JoinedEvent>, registry: seq<BanRecord>, j: JoinedEvent)
    ensures multiset(Rows(LeftJoin(joined, registry)))[j] == multiset(joined)[j] * Fanout(registry, j.playerId)
  {
    if joined != [] {
      var head := Expand(joined[0], registry);
      var rest := LeftJoin(joined[1..], registry);
      assert LeftJoin(joined, registry) == head + rest;
      RowsAppend(head, rest);
      CountAppend(Rows(head), Rows(rest), j);
      LeftJoinCount(joined[1..], registry, j);
      RowsOfUniform(head, joined[0], j);
      CountCons(joined, j);
      MulAddLeft(if joined[0] == j then 1 else 0, multiset(joined[1..])[j], Fanout(registry, j.playerId));
    }
  }

  /** A joined row whose player has no ban record appears with NaT exactly as often as it was joined. */
  lemma {:induction false} LeftJoinUnbanned(joined: seq<JoinedEvent>, registry: seq<BanRecord>, j: JoinedEvent)
    requires BanCount(registry, j.playerId) == 0
    ensures multiset(LeftJoin(joined, registry))[EnrichedEvent(j, None)] == multiset(joined)[j]
  {
    if joined != [] {
      var x := EnrichedEvent(j, None);
      var head := Expand(joined[0], registry);
      var rest := LeftJoin(joined[1..], registry);
      assert LeftJoin(joined, registry) == head + rest;
      CountAppend(head, rest, x);
      LeftJoinUnbanned(joined[1..], registry, j);
      CountCons(joined, j);
      if joined[0] == j {
        assert head == [x];
      } else {
        assert forall i :: 0 <= i < |head| ==> head[i] != x;
      }
    }
  }

  /** A joined row is paired with ban time `t` once per registry record of
      its player with that time. */
  lemma {:induction false} AttachCount(j: JoinedEvent, registry: seq<BanRecord>, t: Option<int>)
    ensures multiset(Attach(j, registry))[EnrichedEvent(j, t)] == multiset(registry)[BanRecord(j.playerId, t)]
  {
    if registry != [] {
      var head := if registry[0].playerId == j.playerId then [EnrichedEvent(j, registry[0].banTime)] else [];
      var rest := Attach(j, registry[1..]);
      assert Attach(j, registry) == head + rest;
      CountAppend(head, rest, EnrichedEvent(j, t));
      AttachCount(j, registry[1..], t);
      CountCons(registry, BanRecord(j.playerId, t));
    }
  }

  /** For a player with ban records, the left join holds a joined row with ban
      time `t` as often as the row was joined times the records with that time. */
  lemma {:induction false} LeftJoinPairCount(joined: seq<JoinedEvent>, registry: seq<BanRecord>, j: JoinedEvent, t: Option<int>)
    requires BanCount(registry, j.playerId) > 0
    ensures multiset(LeftJoin(joined, registry))[EnrichedEvent(j, t)] ==
      multiset(joined)[j] * multiset(registry)[BanRecord(j.playerId, t)]
  {
    if joined != [] {
      var x := EnrichedEvent(j, t);
      var head := Expand(joined[0], registry);
      var rest := LeftJoin(joined[1..], registry);
      assert LeftJoin(joined, registry) == head + rest;
      CountAppend(head, rest, x);
      LeftJoinPairCount(joined[1..], registry, j, t);
      CountCons(joined, j);
      if joined[0] == j {
        assert head == Attach(j, registry);
        AttachCount(j, registry, t);
      } else {
        assert forall i :: 0 <= i < |head| ==> head[i] != x;
      }
      MulAddLeft(if joined[0] == j then 1 else 0, multiset(joined[1..])[j], multiset(registry)[BanRecord(j.playerId, t)]);
    }
  }

  /** A registry restricted to rows of the given players pairs those players' rows as the whole registry does. */
  lemma {:induction false} AttachLookup(j: JoinedEvent, registry: seq<BanRecord>, ids: seq<int>)
    requires j.playerId in ids
    ensures Attach(j, Lookup(registry, ids)) == Attach(j, registry)
  {
    if registry != [] {
      AttachLookup(j, registry[1..], ids);
      var rest := Lookup(registry[1..], ids);
      if registry[0].playerId in ids {
        assert Lookup(registry, ids) == [registry[0]] + rest;
        assert ([registry[0]] + rest)[0] == registry[0];
        assert ([registry[0]] + rest)[1..] == rest;
      } else {
        assert Lookup(registry, ids) == rest;
        assert registry[0].playerId != j.playerId;
      }
    }
  }

  lemma {:induction false} LeftJoinLookup(joined: seq<JoinedEvent>, registry: seq<BanRecord>, ids: seq<int>)
    requires forall j :: j in joined ==> j.playerId in ids
    ensures LeftJoin(joined, Lookup(registry, ids)) == LeftJoin(joined, registry)
  {
    if joined != [] {
      AttachLookup(joined[0], registry, ids);
      LeftJoinLookup(joined[1..], registry, ids);
    }
  }

  /** Fetching only the ban records of the joined players loses nothing: the
      left join with the lookup equals the left join with the whole registry. */
  lemma LookupLossless(joined: seq<JoinedEvent>, registry: seq<BanRecord>)
    ensures LeftJoin(joined, Lookup(registry, PlayerIds(joined))) == LeftJoin(joined, registry)
  {
    LeftJoinLookup(joined, registry, PlayerIds(joined));
  }

  /** Each ban record of the row's player yields a left-join row with its ban time. */
  lemma {:induction false} AttachComplete(j: JoinedEvent, registry: seq<BanRecord>, t: Option<int>)
    requires BanRecord(j.playerId, t) in registry
    ensures EnrichedEvent(j, t) in Attach(j, registry)
  {
    if registry[0] != BanRecord(j.playerId, t) {
      AttachComplete(j, registry[1..], t);
    }
  }

  /** The left join holds every joined row with every ban time of its player, or with NaT when there is none. */
  lemma {:induction false} LeftJoinComplete(joined: seq<JoinedEvent>, registry: seq<BanRecord>, j: JoinedEvent, t: Option<int>)
    requires j in joined
    requires if BanCount(registry, j.playerId) == 0 then t.None? else BanRecord(j.playerId, t) in registry
    ensures EnrichedEvent(j, t) in LeftJoin(joined, registry)
  {
    if joined[0] == j {
      if BanCount(registry, j.playerId) != 0 {
        AttachComplete(j, registry, t);
      }
    } else {
      LeftJoinComplete(joined[1..], registry, j, t);
    }
  }

  /** Every matching pair of rows is in the inner join. */
  lemma InnerJoinComplete(clients: seq<ClientEvent>, servers: seq<ServerEvent>, c: ClientEvent, s: ServerEvent)
    requires c in clients && s in servers && c.errorId == s.errorId
    ensures Combine(c, s) in InnerJoin(clients, servers)
  {
    InnerJoinCount(clients, servers, c, s);
    assert multiset(clients)[c] > 0 && multiset(servers)[s] > 0;
  }
}
