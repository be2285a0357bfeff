/** The opportunity-service outbox relay (apps/opportunity-service/src/outbox-relay.service.ts). */
module OutboxRelay {
  import opened Prelude
  import opened Messaging
  import opened Uuid

  const CONSUMER_ID := "opportunity-service"
  const RELAY_EVENT_TYPES: set<EventType> := {RiskDecisionIssued, PaperPromotionCandidateRequested}

  /** Attempt limits, read from the environment. */
  datatype Limits = Limits(maxOpportunityAttempts: int, maxPaperAttempts: int)

  datatype Opportunity = Opportunity(state: string, riskDecisionId: Option<Uuid>, entityVersion: int)

  /** A well-formed decision: its id as sent, and what the `uuid` columns make of it and of the plan
      reference, which is the key of the opportunity. */
  datatype RiskDecision = RiskDecision(decisionId: string, decisionKey: Option<Uuid>, planKey: Option<Uuid>)

  /** The tables the relay reads and writes, and the log of rows whose POST has succeeded once. */
  datatype Tables = Tables(
    rows: seq<OutboxRow>,
    inbox: set<InboxKey>,
    opportunities: map<Uuid, Opportunity>,
    posted: set<nat>)

  /** How a POST ends: answered with success, answered without, or thrown. */
  datatype Post = Accepted | Declined | Thrown

  /** What may happen to one iteration: does its first transaction commit, how does the POST end, does the
      finalizing transaction of a paper row commit. */
  datatype Fate = Fate(pollCommits: bool, post: Post, finalizeCommits: bool)

  // ----- payload parsers -----

  function NonEmptyString(payload: Payload, field: string): Option<string>
  {
    if field in payload && payload[field].JString? && payload[field].text != "" then Some(payload[field].text)
    else None
  }

  function ParseRiskDecision(payload: Payload): Option<RiskDecision>
  {
    var decisionId := NonEmptyString(payload, "decisionId");
    var planReference := NonEmptyString(payload, "planReference");
    if decisionId.None? || planReference.None? then None
    else Some(RiskDecision(decisionId.value, ParseUuid(decisionId.value), ParseUuid(planReference.value)))
  }

  predicate ParsesAsPaperPromotion(payload: Payload)
  {
    && NonEmptyString(payload, "opportunityId").Some?
    && NonEmptyString(payload, "instrumentKey").Some?
    && NonEmptyString(payload, "source").Some?
    && NonEmptyString(payload, "enqueueIdempotencyKey").Some?
    && "evidence" in payload && payload["evidence"].JObject?
  }

  // ----- one row -----

  function WithRow(t: Tables, id: nat, row: OutboxRow): Tables
    requires id < |t.rows|
  {
    t.(rows := t.rows[id := row])
  }

  function MarkDeadLetter(t: Tables, id: nat): Tables
    requires id < |t.rows|
  {
    WithRow(t, id, t.rows[id].(deadLettered := true))
  }

  function MarkProcessed(t: Tables, id: nat): Tables
    requires id < |t.rows|
  {
    WithRow(t, id, t.rows[id].(processed := true))
  }

  /** A failed attempt: one more is counted, and the row is dead-lettered at the limit. */
  function Bumped(row: OutboxRow, limit: int): OutboxRow
  {
    row.(attempts := row.attempts + 1, deadLettered := row.deadLettered || row.attempts + 1 >= limit)
  }

  function CountAttempt(t: Tables, id: nat, limit: int): Tables
    requires id < |t.rows|
  {
    WithRow(t, id, Bumped(t.rows[id], limit))
  }

  /** The stored id is compared in the form in which the column is read. */
  predicate AlreadyDecided(opportunity: Opportunity, decision: RiskDecision)
  {
    && opportunity.state == "risk_checked"
    && opportunity.riskDecisionId.Some? && opportunity.riskDecisionId == decision.decisionKey
    && Text(opportunity.riskDecisionId.value) == decision.decisionId
  }

  function Decide(opportunity: Opportunity, decision: RiskDecision): Opportunity
  {
    if AlreadyDecided(opportunity, decision) then opportunity
    else Opportunity("risk_checked", decision.decisionKey, opportunity.entityVersion + 1)
  }

  predicate Found(t: Tables, decision: RiskDecision)
  {
    decision.planKey.Some? && decision.planKey.value in t.opportunities
  }

  predicate IsClaimed(t: Tables, id: nat)
    requires id < |t.rows|
  {
    InboxKey(CONSUMER_ID, t.rows[id].messageId) in t.inbox
  }

  /** The row transaction throws: the lookup on a reference that is no UUID, or, for a message not claimed
      before, the save of a decision id that is none. */
  predicate DeliveryThrows(t: Tables, id: nat, decision: RiskDecision)
    requires id < |t.rows|
  {
    decision.planKey.None? || (!IsClaimed(t, id) && Found(t, decision) && decision.decisionKey.None?)
  }

  predicate DispatchThrows(t: Tables, id: nat)
    requires id < |t.rows|
  {
    && t.rows[id].eventType.RiskDecisionIssued?
    && ParseRiskDecision(t.rows[id].payload).Some?
    && DeliveryThrows(t, id, ParseRiskDecision(t.rows[id].payload).value)
  }

  /** `dispatchLockedRow`, followed by the `processed_at` update when it asks for it. A transaction that
      throws changes nothing. */
  function Dispatch(t: Tables, id: nat, limits: Limits): Tables
    requires id < |t.rows|
  {
    if !t.rows[id].eventType.RiskDecisionIssued? then MarkDeadLetter(t, id)
    else
      match ParseRiskDecision(t.rows[id].payload)
      case None => MarkDeadLetter(t, id)
      case Some(decision) => Deliver(t, id, decision, limits)
  }

  /** Delivery of a well-formed decision: claim the message, then apply the decision. */
  function Deliver(t: Tables, id: nat, decision: RiskDecision, limits: Limits): Tables
    requires id < |t.rows|
  {
    if DeliveryThrows(t, id, decision) then t
    else if IsClaimed(t, id) then FinishDuplicate(t, id, decision, limits)
    else if !Found(t, decision) then CountAttempt(t, id, limits.maxOpportunityAttempts)
    else
      var key := decision.planKey.value;
      MarkProcessed(
        t.(inbox := t.inbox + {InboxKey(CONSUMER_ID, t.rows[id].messageId)},
           opportunities := t.opportunities[key := Decide(t.opportunities[key], decision)]),
        id)
  }

  /** `finishDuplicateInboxDelivery`, for a reference that is a UUID: the message was claimed before. */
  function FinishDuplicate(t: Tables, id: nat, decision: RiskDecision, limits: Limits): Tables
    requires id < |t.rows|
  {
    if !Found(t, decision) then CountAttempt(t, id, limits.maxOpportunityAttempts)
    else if AlreadyDecided(t.opportunities[decision.planKey.value], decision) then MarkProcessed(t, id)
    else MarkDeadLetter(t, id)
  }

  /** `finalizePaperPromotionRelayAttempt`. Both UPDATEs are guarded by "still open"; the
      dead-letter UPDATE that may follow a failed POST is not. */
  function FinalizePaper(t: Tables, id: nat, httpOk: bool, limits: Limits): Tables
    requires id < |t.rows|
  {
    if httpOk then
      if Open(t.rows[id]) then MarkProcessed(t, id) else t
    else if Open(t.rows[id]) then CountAttempt(t, id, limits.maxPaperAttempts)
    else if 0 >= limits.maxPaperAttempts then MarkDeadLetter(t, id)
    else t
  }

  function Posted(t: Tables, id: nat, httpOk: bool): Tables
  {
    if httpOk then t.(posted := t.posted + {id}) else t
  }

  // ----- one iteration of a lone relay, and one tick -----

  function Head(rows: seq<OutboxRow>): (head: Option<nat>)
    ensures head.None? ==> forall i :: 0 <= i < |rows| ==> !Fetchable(rows[i], RELAY_EVENT_TYPES)
    ensures head.Some? ==> head.value < |rows| && Fetchable(rows[head.value], RELAY_EVENT_TYPES)
    ensures head.Some? ==> forall i :: 0 <= i < head.value ==> !Fetchable(rows[i], RELAY_EVENT_TYPES)
  {
    FetchOneIsHead(rows, RELAY_EVENT_TYPES);
    var batch := FetchLockedOutboxBatch(rows, 1, RELAY_EVENT_TYPES);
    if batch == [] then None else Some(batch[0])
  }

  predicate IsPaperWork(row: OutboxRow)
  {
    row.eventType.PaperPromotionCandidateRequested? && ParsesAsPaperPromotion(row.payload)
  }

  /** The first transaction of an iteration on a row that needs no HTTP call. */
  function Handle(t: Tables, id: nat, limits: Limits): Tables
    requires id < |t.rows|
  {
    if t.rows[id].eventType.PaperPromotionCandidateRequested? then MarkDeadLetter(t, id)
    else Dispatch(t, id, limits)
  }

  /** One pass of the `for` loop. A transaction that does not commit leaves the tables as they were. */
  function Iterate(t: Tables, limits: Limits, fate: Fate): Tables
  {
    match Head(t.rows)
    case None => t
    case Some(id) =>
      if !fate.pollCommits then t
      else if IsPaperWork(t.rows[id]) then
        var sent := Posted(t, id, fate.post.Accepted?);
        if !fate.post.Thrown? && fate.finalizeCommits then FinalizePaper(sent, id, fate.post.Accepted?, limits)
        else sent
      else Handle(t, id, limits)
  }

  /** The iteration on row `id` throws, ending the tick: a transaction fails, or the POST throws. */
  predicate ThrowsAt(t: Tables, id: nat, fate: Fate)
    requires id < |t.rows|
  {
    || !fate.pollCommits
    || (if IsPaperWork(t.rows[id]) then fate.post.Thrown? || !fate.finalizeCommits else DispatchThrows(t, id))
  }

  predicate Throws(t: Tables, fate: Fate)
  {
    Head(t.rows).Some? && ThrowsAt(t, Head(t.rows).value, fate)
  }

  /** `processBatchInner`: at most `|fates|` iterations, fewer when the queue is empty or one throws. */
  function Tick(t: Tables, limits: Limits, fates: seq<Fate>): Tables
    decreases |fates|
  {
    if fates == [] || Head(t.rows).None? then t
    else if Throws(t, fates[0]) then Iterate(t, limits, fates[0])
    else Tick(Iterate(t, limits, fates[0]), limits, fates[1..])
  }

  /** Whether the tick ends by an error. */
  predicate TickThrows(t: Tables, limits: Limits, fates: seq<Fate>)
    decreases |fates|
  {
    && fates != [] && Head(t.rows).Some?
    && (Throws(t, fates[0]) || TickThrows(Iterate(t, limits, fates[0]), limits, fates[1..]))
  }

  /** Any number of ticks, each with its own batch size and fates. */
  function Ticks(t: Tables, limits: Limits, ticks: seq<seq<Fate>>): Tables
    decreases |ticks|
  {
    if ticks == [] then t else Ticks(Tick(t, limits, ticks[0]), limits, ticks[1..])
  }

  /** Iterations in a row, with no tick boundaries. */
  function Iterations(t: Tables, limits: Limits, fates: seq<Fate>): Tables
    decreases |fates|
  {
    if fates == [] then t else Iterations(Iterate(t, limits, fates[0]), limits, fates[1..])
  }

  /** The transactions of the iteration commit unless what they do is refused. */
  predicate CrashFree(fate: Fate)
  {
    fate.pollCommits && fate.finalizeCommits
  }

  // ----- the reference: a plain left fold over the queued decisions -----

  /** A decision for an unknown opportunity, or one that cannot be stored, has no effect. */
  function ApplyDecision(opportunities: map<Uuid, Opportunity>, decision: RiskDecision): map<Uuid, Opportunity>
  {
    if decision.planKey.None? || decision.planKey.value !in opportunities || decision.decisionKey.None?
    then opportunities
    else
      var key := decision.planKey.value;
      opportunities[key := Decide(opportunities[key], decision)]
  }

  function FoldDecisions(opportunities: map<Uuid, Opportunity>, decisions: seq<RiskDecision>): map<Uuid, Opportunity>
  {
    if decisions == [] then opportunities
    else FoldDecisions(ApplyDecision(opportunities, decisions[0]), decisions[1..])
  }

  predicate IsQueuedDecision(row: OutboxRow)
  {
    Open(row) && row.eventType.RiskDecisionIssued? && ParseRiskDecision(row.payload).Some?
  }

  /** The well-formed RiskDecisionIssued rows still open, in id order. */
  function QueuedDecisions(rows: seq<OutboxRow>): seq<RiskDecision>
  {
    if rows == [] then []
    else if IsQueuedDecision(rows[0]) then [ParseRiskDecision(rows[0].payload).value] + QueuedDecisions(rows[1..])
    else QueuedDecisions(rows[1..])
  }

  /** What the opportunities become once the queue is drained in id order. */
  function Pending(t: Tables): map<Uuid, Opportunity>
  {
    FoldDecisions(t.opportunities, QueuedDecisions(t.rows))
  }

  /** Message ids are unique, and no queued message has been claimed by this consumer. */
  ghost predicate NoPriorClaims(t: Tables)
  {
    && (forall i, j :: 0 <= i < j < |t.rows| ==> t.rows[i].messageId != t.rows[j].messageId)
    && (forall i :: 0 <= i < |t.rows| && Fetchable(t.rows[i], {RiskDecisionIssued}) ==>
          InboxKey(CONSUMER_ID, t.rows[i].messageId) !in t.inbox)
  }

  /** Dropping the rows before the head drops no queued decision. */
  lemma {:induction false} QueueStartsAtHead(rows: seq<OutboxRow>, id: nat)
    requires id < |rows|
    requires forall i :: 0 <= i < id ==> !IsQueuedDecision(rows[i])
    ensures QueuedDecisions(rows) == QueuedDecisions(rows[id..])
  {
    if id == 0 {
      assert rows[0..] == rows;
    } else {
      QueueStartsAtHead(rows[1..], id - 1);
      assert rows[1..][id - 1..] == rows[id..];
    }
  }

  /** The queue after a change to the head row alone. */
  lemma QueueAfterHead(rows: seq<OutboxRow>, id: nat, row: OutboxRow)
    requires id < |rows|
    requires forall i :: 0 <= i < id ==> !IsQueuedDecision(rows[i])
    ensures QueuedDecisions(rows) ==
            (if IsQueuedDecision(rows[id]) then [ParseRiskDecision(rows[id].payload).value] else [])
            + QueuedDecisions(rows[id + 1..])
    ensures QueuedDecisions(rows[id := row]) ==
            (if IsQueuedDecision(row) then [ParseRiskDecision(row.payload).value] else [])
            + QueuedDecisions(rows[id + 1..])
  {
    QueueStartsAtHead(rows, id);
    assert rows[id..][1..] == rows[id + 1..];
    var changed := rows[id := row];
    QueueStartsAtHead(changed, id);
    assert changed[id..][1..] == rows[id + 1..];
  }

  lemma FoldCons(opportunities: map<Uuid, Opportunity>, decision: RiskDecision, rest: seq<RiskDecision>)
    ensures FoldDecisions(opportunities, [decision] + rest)
         == FoldDecisions(ApplyDecision(opportunities, decision), rest)
  {
  }

  /** `after` differs from `t` in row `id` only, and there neither in identity nor in content. */
  ghost predicate ChangesOnly(t: Tables, after: Tables, id: nat)
  {
    && id < |t.rows| == |after.rows|
    && after.rows == t.rows[id := after.rows[id]]
    && after.rows[id].messageId == t.rows[id].messageId
    && after.rows[id].eventType == t.rows[id].eventType
    && after.rows[id].payload == t.rows[id].payload
  }

  lemma DeliverChanges(t: Tables, id: nat, decision: RiskDecision, limits: Limits)
    requires id < |t.rows| && Open(t.rows[id])
    ensures var after := Deliver(t, id, decision, limits);
            var claim := InboxKey(CONSUMER_ID, t.rows[id].messageId);
            && ChangesOnly(t, after, id)
            && (!DeliveryThrows(t, id, decision) && Open(after.rows[id]) ==>
                  after.rows[id].attempts == t.rows[id].attempts + 1 < limits.maxOpportunityAttempts)
            && (claim !in t.inbox ==>
                  && after.inbox == (if after.rows[id].processed then t.inbox + {claim} else t.inbox)
                  && after.opportunities ==
                     (if Open(after.rows[id]) then t.opportunities else ApplyDecision(t.opportunities, decision)))
  {
  }

  lemma FinalizeChanges(t: Tables, id: nat, httpOk: bool, limits: Limits)
    requires id < |t.rows| && Open(t.rows[id])
    ensures var after := FinalizePaper(t, id, httpOk, limits);
            && ChangesOnly(t, after, id)
            && (Open(after.rows[id]) ==> after.rows[id].attempts == t.rows[id].attempts + 1 < limits.maxPaperAttempts)
            && after.inbox == t.inbox && after.opportunities == t.opportunities
  {
  }

  /** One iteration touches the head row only. A queued decision either stays queued, with nothing
      else changed, or leaves the queue with its decision applied; a row left open by an iteration that does
      not throw has used up one attempt. */
  lemma IterateAtHead(t: Tables, limits: Limits, fate: Fate, id: nat)
    requires Head(t.rows) == Some(id)
    ensures var after := Iterate(t, limits, fate);
            var row, changed := t.rows[id], after.rows[id];
            var claim := InboxKey(CONSUMER_ID, row.messageId);
            && ChangesOnly(t, after, id)
            && (!ThrowsAt(t, id, fate) && Open(changed) ==> changed.attempts == row.attempts + 1 < LimitOf(row, limits))
            && (claim !in t.inbox || !row.eventType.RiskDecisionIssued? ==>
                  && after.inbox == (if IsQueuedDecision(row) && changed.processed then t.inbox + {claim} else t.inbox)
                  && after.opportunities ==
                     if IsQueuedDecision(row) && !Open(changed)
                     then ApplyDecision(t.opportunities, ParseRiskDecision(row.payload).value)
                     else t.opportunities)
  {
    var row := t.rows[id];
    if fate.pollCommits {
      if row.eventType.PaperPromotionCandidateRequested? {
        FinalizeChanges(Posted(t, id, fate.post.Accepted?), id, fate.post.Accepted?, limits);
      } else if ParseRiskDecision(row.payload).Some? {
        DeliverChanges(t, id, ParseRiskDecision(row.payload).value, limits);
      }
    }
  }

  /** An iteration never changes what the queue will come to. */
  lemma IterateConserves(t: Tables, limits: Limits, fate: Fate)
    requires NoPriorClaims(t)
    ensures var after := Iterate(t, limits, fate);
            NoPriorClaims(after) && Pending(after) == Pending(t)
  {
    var after := Iterate(t, limits, fate);
    if Head(t.rows).Some? {
      var id := Head(t.rows).value;
      IterateAtHead(t, limits, fate, id);
      ConservedAtHead(t, after, id);
    }
  }

  lemma ConservedAtHead(t: Tables, after: Tables, id: nat)
    requires id < |t.rows| && |after.rows| == |t.rows|
    requires forall i :: 0 <= i < id ==> !IsQueuedDecision(t.rows[i])
    requires after.rows == t.rows[id := after.rows[id]]
    requires IsQueuedDecision(after.rows[id]) ==>
               IsQueuedDecision(t.rows[id]) && after.rows[id].payload == t.rows[id].payload
    requires after.opportunities ==
             if IsQueuedDecision(t.rows[id]) && !IsQueuedDecision(after.rows[id])
             then ApplyDecision(t.opportunities, ParseRiskDecision(t.rows[id].payload).value)
             else t.opportunities
    ensures Pending(after) == Pending(t)
  {
    var rest := QueuedDecisions(t.rows[id + 1..]);
    QueueAfterHead(t.rows, id, after.rows[id]);
    assert [] + rest == rest;
    if IsQueuedDecision(t.rows[id]) {
      FoldCons(t.opportunities, ParseRiskDecision(t.rows[id].payload).value, rest);
    }
  }

  lemma {:induction false} TickConserves(t: Tables, limits: Limits, fates: seq<Fate>)
    requires NoPriorClaims(t)
    ensures NoPriorClaims(Tick(t, limits, fates)) && Pending(Tick(t, limits, fates)) == Pending(t)
    decreases |fates|
  {
    if fates != [] && Head(t.rows).Some? {
      IterateConserves(t, limits, fates[0]);
      if !Throws(t, fates[0]) {
        TickConserves(Iterate(t, limits, fates[0]), limits, fates[1..]);
      }
    }
  }

  lemma {:induction false} TicksConserve(t: Tables, limits: Limits, ticks: seq<seq<Fate>>)
    requires NoPriorClaims(t)
    ensures NoPriorClaims(Ticks(t, limits, ticks)) && Pending(Ticks(t, limits, ticks)) == Pending(t)
    decreases |ticks|
  {
    if ticks != [] {
      TickConserves(t, limits, ticks[0]);
      TicksConserve(Tick(t, limits, ticks[0]), limits, ticks[1..]);
    }
  }

  lemma {:induction false} NothingQueued(rows: seq<OutboxRow>)
    requires forall i :: 0 <= i < |rows| ==> !Fetchable(rows[i], RELAY_EVENT_TYPES)
    ensures QueuedDecisions(rows) == []
  {
    if rows != [] {
      assert !Fetchable(rows[0], RELAY_EVENT_TYPES);
      NothingQueued(rows[1..]);
    }
  }

  /** The relay refines the fold. Whatever the batch sizes, the failed POSTs, the retries, the
      rolled-back transactions and the paper rows in between, once nothing is fetchable the
      opportunities are one left fold over the queued decisions in id order. */
  lemma RelayRefinesFold(t: Tables, limits: Limits, ticks: seq<seq<Fate>>)
    requires NoPriorClaims(t)
    requires Head(Ticks(t, limits, ticks).rows).None?
    ensures Ticks(t, limits, ticks).opportunities == FoldDecisions(t.opportunities, QueuedDecisions(t.rows))
  {
    TicksConserve(t, limits, ticks);
    NothingQueued(Ticks(t, limits, ticks).rows);
  }

  // ----- the queue drains -----

  function LimitOf(row: OutboxRow, limits: Limits): int
  {
    if row.eventType.PaperPromotionCandidateRequested? then limits.maxPaperAttempts
    else limits.maxOpportunityAttempts
  }

  /** How many more iterations the row can be head of the queue. */
  function Weight(row: OutboxRow, limits: Limits): nat
  {
    if !Fetchable(row, RELAY_EVENT_TYPES) then 0
    else if LimitOf(row, limits) - row.attempts > 1 then LimitOf(row, limits) - row.attempts
    else 1
  }

  function Measure(rows: seq<OutboxRow>, limits: Limits): nat
  {
    if rows == [] then 0 else Weight(rows[0], limits) + Measure(rows[1..], limits)
  }

  lemma {:induction false} MeasureUpdate(rows: seq<OutboxRow>, id: nat, row: OutboxRow, limits: Limits)
    requires id < |rows|
    ensures Measure(rows[id := row], limits)
         == Measure(rows, limits) - Weight(rows[id], limits) + Weight(row, limits)
  {
    var changed := rows[id := row];
    if id == 0 {
      assert changed[1..] == rows[1..];
    } else {
      MeasureUpdate(rows[1..], id - 1, row, limits);
      assert changed[1..] == rows[1..][id - 1 := row];
    }
  }

  lemma {:induction false} MeasureZero(rows: seq<OutboxRow>, limits: Limits)
    ensures Measure(rows, limits) == 0 <==> forall i :: 0 <= i < |rows| ==> !Fetchable(rows[i], RELAY_EVENT_TYPES)
  {
    if rows != [] {
      MeasureZero(rows[1..], limits);
      assert rows == [rows[0]] + rows[1..];
    }
  }

  /** An iteration that finds a row and does not throw brings the queue closer to empty, for any limits. */
  lemma IterateDecreases(t: Tables, limits: Limits, fate: Fate)
    requires Head(t.rows).Some? && !Throws(t, fate)
    ensures Measure(Iterate(t, limits, fate).rows, limits) < Measure(t.rows, limits)
  {
    var id := Head(t.rows).value;
    var after := Iterate(t, limits, fate);
    IterateAtHead(t, limits, fate, id);
    MeasureUpdate(t.rows, id, after.rows[id], limits);
  }

  // ----- rows close in id order -----

  /** The ids closed by a run of iterations, in the order in which they close. */
  function ClosedIds(t: Tables, limits: Limits, fates: seq<Fate>): seq<nat>
    decreases |fates|
  {
    if fates == [] || Head(t.rows).None? then []
    else
      var id := Head(t.rows).value;
      var after := Iterate(t, limits, fates[0]);
      (if id < |after.rows| && !Open(after.rows[id]) then [id] else []) + ClosedIds(after, limits, fates[1..])
  }

  ghost predicate Ascending(ids: seq<nat>)
  {
    forall j, k :: 0 <= j < k < |ids| ==> ids[j] < ids[k]
  }

  ghost predicate AllAtLeast(ids: seq<nat>, least: nat)
  {
    forall k :: 0 <= k < |ids| ==> least <= ids[k]
  }

  /** A lone relay closes rows in strictly increasing id order. */
  lemma {:induction false} ClosesInIdOrder(t: Tables, limits: Limits, fates: seq<Fate>)
    ensures Ascending(ClosedIds(t, limits, fates))
    ensures Head(t.rows).Some? ==> AllAtLeast(ClosedIds(t, limits, fates), Head(t.rows).value)
    ensures Head(t.rows).None? ==> ClosedIds(t, limits, fates) == []
    decreases |fates|
  {
    if fates != [] && Head(t.rows).Some? {
      var id := Head(t.rows).value;
      var after := Iterate(t, limits, fates[0]);
      HeadAdvances(t, limits, fates[0], id);
      ClosesInIdOrder(after, limits, fates[1..]);
      AscendingCons(id, Head(after.rows), !Open(after.rows[id]), ClosedIds(after, limits, fates[1..]));
    }
  }

  lemma AscendingCons(id: nat, head: Option<nat>, closed: bool, rest: seq<nat>)
    requires Ascending(rest)
    requires if head.None? then rest == [] else AllAtLeast(rest, head.value)
    requires head.Some? ==> id <= head.value && (closed ==> id < head.value)
    ensures var ids := (if closed then [id] else []) + rest; Ascending(ids) && AllAtLeast(ids, id)
  {
  }

  lemma HeadAdvances(t: Tables, limits: Limits, fate: Fate, id: nat)
    requires Head(t.rows) == Some(id)
    ensures var after := Iterate(t, limits, fate);
            && |after.rows| == |t.rows|
            && (Head(after.rows).Some? ==>
                  id <= Head(after.rows).value && (!Open(after.rows[id]) ==> id < Head(after.rows).value))
  {
    var after := Iterate(t, limits, fate);
    IterateAtHead(t, limits, fate, id);
    if Head(after.rows).Some? {
      assert Fetchable(after.rows[Head(after.rows).value], RELAY_EVENT_TYPES);
    }
  }

  /** Every row that is fetchable at the start and closed at the end is among the rows closed in between. */
  lemma {:induction false} ClosedIdsComplete(t: Tables, limits: Limits, fates: seq<Fate>, id: nat)
    requires id < |t.rows| && Fetchable(t.rows[id], RELAY_EVENT_TYPES)
    ensures var after := Iterations(t, limits, fates);
            |after.rows| == |t.rows| && (!Open(after.rows[id]) ==> id in ClosedIds(t, limits, fates))
    decreases |fates|
  {
    if fates != [] {
      var head := Head(t.rows).value;
      var after := Iterate(t, limits, fates[0]);
      IterateAtHead(t, limits, fates[0], head);
      if Open(after.rows[id]) {
        ClosedIdsComplete(after, limits, fates[1..], id);
      } else {
        IterationsKeepLength(after, limits, fates[1..]);
      }
    }
  }

  lemma {:induction false} IterationsKeepLength(t: Tables, limits: Limits, fates: seq<Fate>)
    ensures |Iterations(t, limits, fates).rows| == |t.rows|
    decreases |fates|
  {
    if fates != [] {
      if Head(t.rows).Some? {
        IterateAtHead(t, limits, fates[0], Head(t.rows).value);
      }
      IterationsKeepLength(Iterate(t, limits, fates[0]), limits, fates[1..]);
    }
  }
}
