/** What the relay does to opportunities and rows, said outright (outbox-relay.service.ts): of one delivery, and
    of a drained queue. Nothing here goes by the functions that make the change. */
module RelayOutcome {
  import opened Prelude
  import opened Messaging
  import opened OutboxRelay
  import opened Uuid

  /** The row that an iteration takes: the first that is open and asks for a decision or a paper promotion. */
  lemma HeadIff(rows: seq<OutboxRow>, id: nat)
    ensures Head(rows) == Some(id) <==>
              && id < |rows| && IsOurs(rows[id])
              && forall i :: 0 <= i < id ==> !IsOurs(rows[i])
  {
    if id < |rows| && IsOurs(rows[id]) {
      assert Fetchable(rows[id], RELAY_EVENT_TYPES);
    }
    if Head(rows).Some? {
      assert IsOurs(rows[Head(rows).value]);
    }
  }

  predicate IsOurs(row: OutboxRow)
  {
    && !row.processed && !row.deadLettered
    && (row.eventType == RiskDecisionIssued || row.eventType == PaperPromotionCandidateRequested)
  }

  // ----- one delivery -----

  /** The decision is the one in place: the opportunity is `risk_checked`, with its id as it was sent. */
  predicate IsInPlace(state: string, riskDecisionId: Option<Uuid>, decision: RiskDecision)
  {
    && state == "risk_checked"
    && riskDecisionId.Some? && riskDecisionId == decision.decisionKey
    && Text(riskDecisionId.value) == decision.decisionId
  }

  /** The row asks for the decision. */
  predicate AsksFor(row: OutboxRow, decision: RiskDecision)
  {
    row.eventType == RiskDecisionIssued && ParseRiskDecision(row.payload) == Some(decision)
  }

  predicate IsSeen(t: Tables, row: OutboxRow)
  {
    InboxKey("opportunity-service", row.messageId) in t.inbox
  }

  predicate IsKnown(t: Tables, decision: RiskDecision)
  {
    decision.planKey.Some? && decision.planKey.value in t.opportunities
  }

  predicate IsUnknown(t: Tables, decision: RiskDecision)
  {
    decision.planKey.Some? && decision.planKey.value !in t.opportunities
  }

  /** A message seen for the first time, whose decision can be stored and whose opportunity exists: the row is
      processed, the message claimed, and that one opportunity is `risk_checked` with the id of the decision and
      one more version, or as it was when the decision was in place. */
  lemma DeliveryChecksOpportunity(t: Tables, id: nat, limits: Limits, decision: RiskDecision)
    requires id < |t.rows|
    ensures AsksFor(t.rows[id], decision) && !IsSeen(t, t.rows[id]) && IsKnown(t, decision)
            && decision.decisionKey.Some? ==>
            var after := Dispatch(t, id, limits);
            var key := decision.planKey.value;
            var was := t.opportunities[key];
            && after.rows == t.rows[id := t.rows[id].(processed := true)]
            && after.inbox == t.inbox + {InboxKey("opportunity-service", t.rows[id].messageId)}
            && after.opportunities.Keys == t.opportunities.Keys
            && (forall k :: k in t.opportunities && k != key ==> after.opportunities[k] == t.opportunities[k])
            && after.opportunities[key].state == "risk_checked"
            && after.opportunities[key].riskDecisionId == decision.decisionKey
            && after.opportunities[key].entityVersion ==
               was.entityVersion + if IsInPlace(was.state, was.riskDecisionId, decision) then 0 else 1
  {
  }

  /** A failed attempt is counted, and dead-letters the row if and only if it reaches the limit; nothing else
      changes. */
  ghost predicate IsFailedAttempt(t: Tables, after: Tables, id: nat, limit: int)
    requires id < |t.rows|
  {
    && |after.rows| == |t.rows| && after.inbox == t.inbox && after.opportunities == t.opportunities
    && (forall i :: 0 <= i < |t.rows| && i != id ==> after.rows[i] == t.rows[i])
    && after.rows[id].processed == t.rows[id].processed
    && after.rows[id].messageId == t.rows[id].messageId
    && after.rows[id].eventType == t.rows[id].eventType && after.rows[id].payload == t.rows[id].payload
    && after.rows[id].attempts == t.rows[id].attempts + 1
    && (after.rows[id].deadLettered <==> t.rows[id].deadLettered || t.rows[id].attempts + 1 >= limit)
  }

  lemma MissingOpportunityCounts(t: Tables, id: nat, limits: Limits, decision: RiskDecision)
    requires id < |t.rows|
    ensures AsksFor(t.rows[id], decision) && IsUnknown(t, decision) ==>
              IsFailedAttempt(t, Dispatch(t, id, limits), id, limits.maxOpportunityAttempts)
  {
  }

  /** What is no well-formed decision is dead-lettered at once. */
  lemma MalformedIsDeadLettered(t: Tables, id: nat, limits: Limits)
    requires id < |t.rows|
    requires t.rows[id].eventType == RiskDecisionIssued ==> ParseRiskDecision(t.rows[id].payload).None?
    ensures Handle(t, id, limits) == t.(rows := t.rows[id := t.rows[id].(deadLettered := true)])
  {
  }

  /** A message claimed before is closed by what is in place: processed if that is its decision, and
      dead-lettered if it is another. */
  lemma DuplicateGoesByWhatIsInPlace(t: Tables, id: nat, limits: Limits, decision: RiskDecision)
    requires id < |t.rows|
    ensures AsksFor(t.rows[id], decision) && IsSeen(t, t.rows[id]) && IsKnown(t, decision) ==>
            var o := t.opportunities[decision.planKey.value];
            Dispatch(t, id, limits) ==
            t.(rows := t.rows[id := if IsInPlace(o.state, o.riskDecisionId, decision)
                                    then t.rows[id].(processed := true) else t.rows[id].(deadLettered := true)])
  {
  }

  /** A paper row after its POST: processed if that was accepted, one failed attempt otherwise. */
  lemma PaperGoesByPost(t: Tables, limits: Limits, fate: Fate, id: nat)
    requires Head(t.rows) == Some(id) && CrashFree(fate) && !fate.post.Thrown?
    requires t.rows[id].eventType == PaperPromotionCandidateRequested && ParsesAsPaperPromotion(t.rows[id].payload)
    ensures var after := Iterate(t, limits, fate);
            if fate.post == Accepted then
              after == t.(rows := t.rows[id := t.rows[id].(processed := true)], posted := t.posted + {id})
            else IsFailedAttempt(t, after, id, limits.maxPaperAttempts) && after.posted == t.posted
  {
  }

  /** What makes a payload well-formed: the two fields of a decision, the five of a paper promotion. */
  lemma WellFormedIff(payload: Payload)
    ensures ParseRiskDecision(payload).Some? <==> HasText(payload, "decisionId") && HasText(payload, "planReference")
    ensures ParseRiskDecision(payload).Some? ==>
              var decision := ParseRiskDecision(payload).value;
              && decision.decisionId == payload["decisionId"].text
              && decision.decisionKey == ParseUuid(payload["decisionId"].text)
              && decision.planKey == ParseUuid(payload["planReference"].text)
    ensures ParsesAsPaperPromotion(payload) <==>
              && HasText(payload, "opportunityId") && HasText(payload, "instrumentKey")
              && HasText(payload, "source") && HasText(payload, "enqueueIdempotencyKey")
              && "evidence" in payload && payload["evidence"] == JObject
  {
  }

  predicate HasText(payload: Payload, field: string)
  {
    field in payload && payload[field].JString? && payload[field].text != ""
  }

  // ----- errors, and the end of a tick -----

  /** When an iteration throws: a transaction fails; a POST throws; the plan reference of a decision is no UUID; or,
      for a message not claimed before, the opportunity is there and the decision id is no UUID. */
  lemma ThrowsIff(t: Tables, fate: Fate, id: nat)
    requires Head(t.rows) == Some(id)
    ensures var row := t.rows[id];
            var paper := row.eventType == PaperPromotionCandidateRequested && ParsesAsPaperPromotion(row.payload);
            var parsed := ParseRiskDecision(row.payload);
            var decides := row.eventType == RiskDecisionIssued && parsed.Some?;
            Throws(t, fate) <==>
              || !fate.pollCommits
              || (paper && (fate.post == Thrown || !fate.finalizeCommits))
              || (decides && parsed.value.planKey == None)
              || (decides && InboxKey("opportunity-service", row.messageId) !in t.inbox
                  && parsed.value.planKey.Some? && parsed.value.planKey.value in t.opportunities
                  && parsed.value.decisionKey == None)
  {
  }

  /** An iteration that throws leaves nothing behind, but that an accepted POST has been made. */
  lemma ThrownLeavesNothing(t: Tables, limits: Limits, fate: Fate)
    requires Throws(t, fate)
    ensures var after := Iterate(t, limits, fate);
            after == t || (fate.pollCommits && fate.post == Accepted
                           && after == t.(posted := t.posted + {Head(t.rows).value}))
  {
  }

  /** The state that the `k`-th iteration of a script finds. */
  function Found(t: Tables, limits: Limits, fates: seq<Fate>, k: nat): Tables
    requires k <= |fates|
  {
    Iterations(t, limits, fates[..k])
  }

  lemma FoundUnfolds(t: Tables, limits: Limits, fates: seq<Fate>, k: nat)
    requires 0 < k <= |fates|
    ensures Found(t, limits, fates, k) == Found(Iterate(t, limits, fates[0]), limits, fates[1..], k - 1)
  {
    assert fates[..k][0] == fates[0] && fates[..k][1..] == fates[1..][..k - 1];
  }

  lemma FoundFirst(t: Tables, limits: Limits, fates: seq<Fate>)
    ensures Found(t, limits, fates, 0) == t
    ensures fates != [] ==> Found(t, limits, fates, 1) == Iterate(t, limits, fates[0])
  {
    if fates != [] {
      FoundUnfolds(t, limits, fates, 1);
    }
  }

  /** The first `n` iterations find a row, and none before the last of them throws. */
  ghost predicate RunsOn(t: Tables, limits: Limits, fates: seq<Fate>, n: nat)
    requires n <= |fates|
  {
    && (forall k :: 0 <= k < n ==> Head(Found(t, limits, fates, k).rows).Some?)
    && (forall k :: 0 <= k < n - 1 ==> !Throws(Found(t, limits, fates, k), fates[k]))
  }

  ghost predicate LastThrows(t: Tables, limits: Limits, fates: seq<Fate>, n: nat)
    requires n <= |fates|
  {
    n > 0 && Throws(Found(t, limits, fates, n - 1), fates[n - 1])
  }

  lemma RunsOnCons(t: Tables, limits: Limits, fates: seq<Fate>, m: nat)
    requires m < |fates| && Head(t.rows).Some? && !Throws(t, fates[0])
    requires RunsOn(Iterate(t, limits, fates[0]), limits, fates[1..], m)
    ensures RunsOn(t, limits, fates, m + 1)
    ensures LastThrows(t, limits, fates, m + 1) <==> LastThrows(Iterate(t, limits, fates[0]), limits, fates[1..], m)
  {
    var after, rest := Iterate(t, limits, fates[0]), fates[1..];
    FoundFirst(t, limits, fates);
    forall k | 0 < k <= m
      ensures Found(t, limits, fates, k) == Found(after, limits, rest, k - 1) && fates[k] == rest[k - 1]
    {
      FoundUnfolds(t, limits, fates, k);
    }
  }

  /** A tick is the first iterations of its script: up to the first that throws, or until nothing is fetchable, or
      all of them. It ends by an error if and only if its last iteration throws. */
  lemma {:induction false} TickIsIterations(t: Tables, limits: Limits, fates: seq<Fate>) returns (n: nat)
    ensures n <= |fates| && Tick(t, limits, fates) == Found(t, limits, fates, n)
    ensures RunsOn(t, limits, fates, n)
    ensures TickThrows(t, limits, fates) <==> LastThrows(t, limits, fates, n)
    ensures n < |fates| ==> TickThrows(t, limits, fates) || Head(Tick(t, limits, fates).rows).None?
    decreases |fates|
  {
    FoundFirst(t, limits, fates);
    if fates == [] || Head(t.rows).None? {
      n := 0;
    } else if Throws(t, fates[0]) {
      n := 1;
    } else {
      var m := TickIsIterations(Iterate(t, limits, fates[0]), limits, fates[1..]);
      RunsOnCons(t, limits, fates, m);
      FoundUnfolds(t, limits, fates, m + 1);
      n := m + 1;
    }
  }

  // ----- a row whose opportunity is missing -----

  /** A decision whose opportunity does not come is retried until the limit, and not longer: with it at the head,
      after any number of crash-free iterations it is open if and only if there were none, or fewer failed
      attempts than the limit. */
  lemma {:induction false} MissingOpportunityRetries(t: Tables, limits: Limits, fates: seq<Fate>, id: nat,
                                                     decision: RiskDecision)
    requires Head(t.rows) == Some(id)
    requires forall k :: 0 <= k < |fates| ==> CrashFree(fates[k])
    ensures AsksFor(t.rows[id], decision) && IsUnknown(t, decision) ==>
            var after := Iterations(t, limits, fates);
            |after.rows| == |t.rows|
            && (Open(after.rows[id]) <==>
                  fates == [] || t.rows[id].attempts + |fates| < limits.maxOpportunityAttempts)
    decreases |fates|
  {
    if fates != [] && AsksFor(t.rows[id], decision) && IsUnknown(t, decision) {
      MissingOpportunityCounts(t, id, limits, decision);
      var after := Iterate(t, limits, fates[0]);
      if Open(after.rows[id]) {
        HeadStays(t, after, id);
        MissingOpportunityRetries(after, limits, fates[1..], id, decision);
      } else {
        ClosedStays(after, limits, fates[1..], id);
      }
    }
  }

  lemma {:induction false} ClosedStays(t: Tables, limits: Limits, fates: seq<Fate>, id: nat)
    requires id < |t.rows| && !Open(t.rows[id])
    ensures var after := Iterations(t, limits, fates); |after.rows| == |t.rows| && !Open(after.rows[id])
    decreases |fates|
  {
    if fates != [] {
      if Head(t.rows).Some? {
        IterateAtHead(t, limits, fates[0], Head(t.rows).value);
      }
      ClosedStays(Iterate(t, limits, fates[0]), limits, fates[1..], id);
    }
  }

  lemma HeadStays(t: Tables, after: Tables, id: nat)
    requires Head(t.rows) == Some(id) && |after.rows| == |t.rows|
    requires forall i :: 0 <= i < id ==> after.rows[i] == t.rows[i]
    requires Fetchable(after.rows[id], RELAY_EVENT_TYPES)
    ensures Head(after.rows) == Some(id)
  {
    assert Head(after.rows).Some?;
  }

  // ----- the drained queue -----

  /** The decisions that can be stored and name the opportunity, in order. */
  function Naming(decisions: seq<RiskDecision>, key: Uuid): seq<RiskDecision>
  {
    if decisions == [] then []
    else if decisions[0].decisionKey.Some? && decisions[0].planKey == Some(key)
    then [decisions[0]] + Naming(decisions[1..], key)
    else Naming(decisions[1..], key)
  }

  /** How many of the decisions differ from the one in place when their turn comes. */
  function Changes(state: string, riskDecisionId: Option<Uuid>, decisions: seq<RiskDecision>): nat
    decreases |decisions|
  {
    if decisions == [] then 0
    else (if IsInPlace(state, riskDecisionId, decisions[0]) then 0 else 1)
         + Changes("risk_checked", decisions[0].decisionKey, decisions[1..])
  }

  /** The opportunity after the decisions that name it: as it was without any, and otherwise `risk_checked` with
      the id of the last, one version higher for each that changed it. */
  ghost predicate IsOutcome(was: Opportunity, now: Opportunity, naming: seq<RiskDecision>)
  {
    if naming == [] then now == was
    else
      && now.state == "risk_checked"
      && now.riskDecisionId == naming[|naming| - 1].decisionKey
      && now.entityVersion == was.entityVersion + Changes(was.state, was.riskDecisionId, naming)
  }

  /** The fold, opportunity by opportunity. */
  lemma {:induction false} FoldOutcome(opportunities: map<Uuid, Opportunity>, decisions: seq<RiskDecision>, key: Uuid)
    requires key in opportunities
    ensures var folded := FoldDecisions(opportunities, decisions);
            key in folded && IsOutcome(opportunities[key], folded[key], Naming(decisions, key))
    decreases |decisions|
  {
    if decisions != [] {
      FoldOutcome(ApplyDecision(opportunities, decisions[0]), decisions[1..], key);
    }
  }

  lemma {:induction false} FoldKeepsKeys(opportunities: map<Uuid, Opportunity>, decisions: seq<RiskDecision>)
    ensures FoldDecisions(opportunities, decisions).Keys == opportunities.Keys
    decreases |decisions|
  {
    if decisions != [] {
      FoldKeepsKeys(ApplyDecision(opportunities, decisions[0]), decisions[1..]);
    }
  }

  /** What a drained queue has done. Whatever the batch sizes, retries, failed POSTs and rollbacks: every
      opportunity named by a queued decision that can be stored is `risk_checked` with the id of the last such
      decision, its version has grown by the number of them that were not in place, and all others are
      untouched. */
  lemma DrainedOutcome(t: Tables, limits: Limits, ticks: seq<seq<Fate>>)
    requires NoPriorClaims(t) && Head(Ticks(t, limits, ticks).rows).None?
    ensures var after := Ticks(t, limits, ticks).opportunities;
            && after.Keys == t.opportunities.Keys
            && forall key :: key in t.opportunities ==>
                 IsOutcome(t.opportunities[key], after[key], Naming(QueuedDecisions(t.rows), key))
  {
    var decisions := QueuedDecisions(t.rows);
    RelayRefinesFold(t, limits, ticks);
    FoldKeepsKeys(t.opportunities, decisions);
    forall key | key in t.opportunities
      ensures IsOutcome(t.opportunities[key], Ticks(t, limits, ticks).opportunities[key], Naming(decisions, key))
    {
      FoldOutcome(t.opportunities, decisions, key);
    }
  }

  /** Which decisions those are: those of the open, well-formed RiskDecisionIssued rows, in id order. */
  lemma {:induction false} QueuedIff(rows: seq<OutboxRow>, decision: RiskDecision)
    ensures decision in QueuedDecisions(rows)
            <==> exists i :: 0 <= i < |rows| && !rows[i].processed && !rows[i].deadLettered
                             && rows[i].eventType == RiskDecisionIssued
                             && ParseRiskDecision(rows[i].payload) == Some(decision)
  {
    if rows != [] {
      QueuedIff(rows[1..], decision);
      if i :| 0 <= i < |rows| && IsQueuedDecision(rows[i]) && ParseRiskDecision(rows[i].payload) == Some(decision) {
        assert i > 0 ==> rows[1..][i - 1] == rows[i];
      }
    }
  }
}
