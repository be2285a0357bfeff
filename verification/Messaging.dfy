/** The shared outbox table, its polling query and the inbox claim (packages/messaging). */
module Messaging {
  /** The event names of the shared outbox that the relays tell apart; every other name is `Other`. */
  datatype EventType = RiskDecisionIssued | PaperPromotionCandidateRequested | Other(name: string)

  /** A value of a `jsonb` payload, as far as the payload parsers look at it. */
  datatype Json = JString(text: string) | JNumber(number: real) | JBool(flag: bool) | JNull | JArray | JObject

  type Payload = map<string, Json>

  /** A row of `outbox_events`. Its id is its position: ids are handed out in increasing order. */
  datatype OutboxRow = OutboxRow(
    messageId: nat,
    eventType: EventType,
    payload: Payload,
    processed: bool,
    deadLettered: bool,
    attempts: nat)

  /** Key of the unique constraint on `inbox_events`. */
  datatype InboxKey = InboxKey(consumerId: string, messageId: nat)

  predicate Open(row: OutboxRow)
  {
    !row.processed && !row.deadLettered
  }

  predicate Fetchable(row: OutboxRow, types: set<EventType>)
  {
    Open(row) && row.eventType in types
  }

  /** Ids of the fetchable rows from id `from` on: the WHERE and ORDER BY of the polling query. */
  function MatchingFrom(rows: seq<OutboxRow>, types: set<EventType>, from: nat): (ids: seq<nat>)
    requires from <= |rows|
    ensures forall k :: 0 <= k < |ids| ==> from <= ids[k] < |rows| && Fetchable(rows[ids[k]], types)
    ensures forall i :: from <= i < |rows| && Fetchable(rows[i], types) ==> i in ids
    ensures forall j, k :: 0 <= j < k < |ids| ==> ids[j] < ids[k]
    decreases |rows| - from
  {
    if from == |rows| then []
    else if Fetchable(rows[from], types) then [from] + MatchingFrom(rows, types, from + 1)
    else MatchingFrom(rows, types, from + 1)
  }

  /** The polling query with its LIMIT. */
  function FetchLockedOutboxBatch(rows: seq<OutboxRow>, limit: nat, types: set<EventType>): (ids: seq<nat>)
    ensures |ids| <= limit
    ensures forall j, k :: 0 <= j < k < |ids| ==> ids[j] < ids[k]
    ensures forall k :: 0 <= k < |ids| ==> ids[k] < |rows| && Fetchable(rows[ids[k]], types)
    ensures forall k, i :: 0 <= k < |ids| && 0 <= i < ids[k] && Fetchable(rows[i], types) ==> i in ids
    ensures |ids| < limit ==> forall i :: 0 <= i < |rows| && Fetchable(rows[i], types) ==> i in ids
  {
    var all := MatchingFrom(rows, types, 0);
    if |all| <= limit then all else all[..limit]
  }

  /** With LIMIT 1 the query returns the least fetchable id, or nothing when no row is fetchable. */
  lemma FetchOneIsHead(rows: seq<OutboxRow>, types: set<EventType>)
    ensures var ids := FetchLockedOutboxBatch(rows, 1, types);
            if ids == [] then
              forall i :: 0 <= i < |rows| ==> rows[i].processed || rows[i].deadLettered || rows[i].eventType !in types
            else
              && ids[0] < |rows|
              && !rows[ids[0]].processed && !rows[ids[0]].deadLettered && rows[ids[0]].eventType in types
              && forall i :: 0 <= i < ids[0] ==>
                   rows[i].processed || rows[i].deadLettered || rows[i].eventType !in types
  {
  }
}
