/** The rows that flow through the reconciliation pipeline, one datatype per
    frame shape. Timestamps are integer epoch seconds; a ban time read from the
    registry may be NULL, which pandas turns into NaT (None here). */
module Records {
  import opened Wrappers

  /** A row of the client log: the columns the join leaves unsuffixed are `player_id` and `error_id`. */
  datatype ClientEvent = ClientEvent(timestamp: int, playerId: int, errorId: string, description: string)

  /** A row of the server log: it contributes `event_id` to the joined row. */
  datatype ServerEvent = ServerEvent(timestamp: int, eventId: int, errorId: string, description: string)

  function ClientStamp(e: ClientEvent): int { e.timestamp }

  function ServerStamp(e: ServerEvent): int { e.timestamp }

  /** A row of `pd.merge(client, server, on='error_id', suffixes=('_client', '_server'))`. */
  datatype JoinedEvent = JoinedEvent(
    timestampClient: int,
    timestampServer: int,
    playerId: int,
    eventId: int,
    errorId: string,
    descriptionClient: string,
    descriptionServer: string)

  /** A row of the `cheaters` registry. */
  datatype BanRecord = BanRecord(playerId: int, banTime: Option<int>)

  /** A joined row with the `ban_time` column the left join adds (None where NaT). */
  datatype EnrichedEvent = EnrichedEvent(row: JoinedEvent, banTime: Option<int>)

  /** A row of the `result_info` table. */
  datatype ResultRecord = ResultRecord(
    timestamp: int,
    playerId: int,
    eventId: int,
    errorId: string,
    jsonClient: string,
    jsonServer: string)

  /** The exceptions of the pipeline the model follows. */
  datatype Error =
    | MalformedDate        // strptime raises ValueError on the target date
    | NothingToConcatenate // pd.concat of an empty list of frames raises ValueError
}
