/** The relay as the service runs it: an object whose tables are updated in place, row by row. */
module RelayService {
  import opened Prelude
  import opened Messaging
  import opened OutboxRelay
  import opened Uuid

  class OutboxRelayService {
    const limits: Limits
    var rows: seq<OutboxRow>
    var inbox: set<InboxKey>
    var opportunities: map<Uuid, Opportunity>
    ghost var posted: set<nat>

    constructor (limits: Limits, rows: seq<OutboxRow>, opportunities: map<Uuid, Opportunity>)
      ensures View() == Tables(rows, {}, opportunities, {}) && this.limits == limits
    {
      this.limits := limits;
      this.rows := rows;
      this.inbox := {};
      this.opportunities := opportunities;
      this.posted := {};
    }

    ghost function View(): Tables
      reads this
    {
      Tables(rows, inbox, opportunities, posted)
    }

    /** The unique constraint decides: the insert succeeds exactly when the key is new. */
    method TryClaimInboxMessage(messageId: nat) returns (claimed: bool)
      modifies this`inbox
      ensures claimed <==> InboxKey(CONSUMER_ID, messageId) !in old(inbox)
      ensures inbox == old(inbox) + {InboxKey(CONSUMER_ID, messageId)}
    {
      claimed := InboxKey(CONSUMER_ID, messageId) !in inbox;
      if claimed {
        inbox := inbox + {InboxKey(CONSUMER_ID, messageId)};
      }
    }

    method ReleaseInboxClaim(messageId: nat)
      modifies this`inbox
      ensures inbox == old(inbox) - {InboxKey(CONSUMER_ID, messageId)}
    {
      inbox := inbox - {InboxKey(CONSUMER_ID, messageId)};
    }

    method MarkRowDeadLetter(id: nat)
      requires id < |rows|
      modifies this`rows
      ensures View() == MarkDeadLetter(old(View()), id)
    {
      rows := rows[id := rows[id].(deadLettered := true)];
    }

    /** Counts one failed attempt and dead-letters the row at the limit. */
    method CountFailedAttempt(id: nat, limit: int)
      requires id < |rows|
      modifies this`rows
      ensures View() == CountAttempt(old(View()), id, limit)
    {
      var attempts := rows[id].attempts + 1;
      rows := rows[id := rows[id].(attempts := attempts)];
      if attempts >= limit {
        MarkRowDeadLetter(id);
      }
    }

    /** The row transaction for everything but a well-formed paper row. When it throws, what it has written so
        far is undone. */
    method DispatchLockedRow(id: nat) returns (markProcessed: bool, threw: bool)
      requires id < |rows|
      modifies this`rows, this`inbox, this`opportunities
      ensures |rows| == |old(rows)|
      ensures threw <==> DispatchThrows(old(View()), id)
      ensures threw ==> View() == old(View()) && !markProcessed
      ensures Dispatch(old(View()), id, limits) == if markProcessed then MarkProcessed(View(), id) else View()
    {
      var row := rows[id];
      if !row.eventType.RiskDecisionIssued? {
        MarkRowDeadLetter(id);
        return false, false;
      }
      var parsed := ParseRiskDecision(row.payload);
      if parsed.None? {
        MarkRowDeadLetter(id);
        return false, false;
      }
      markProcessed, threw := DeliverDecision(id, parsed.value);
    }

    method DeliverDecision(id: nat, decision: RiskDecision) returns (markProcessed: bool, threw: bool)
      requires id < |rows|
      modifies this`rows, this`inbox, this`opportunities
      ensures |rows| == |old(rows)|
      ensures threw <==> DeliveryThrows(old(View()), id, decision)
      ensures threw ==> View() == old(View()) && !markProcessed
      ensures Deliver(old(View()), id, decision, limits) == if markProcessed then MarkProcessed(View(), id) else View()
    {
      var row := rows[id];
      var before := inbox;
      var claimed := TryClaimInboxMessage(row.messageId);
      if !claimed {
        assert inbox == before;
        markProcessed, threw := FinishDuplicateInboxDelivery(id, decision);
        return;
      }
      if decision.planKey.None? {
        inbox := before;
        return false, true;
      }
      var key := decision.planKey.value;
      if key !in opportunities {
        ReleaseInboxClaim(row.messageId);
        assert inbox == before;
        CountFailedAttempt(id, limits.maxOpportunityAttempts);
        return false, false;
      }
      var opportunity := opportunities[key];
      if !AlreadyDecided(opportunity, decision) {
        if decision.decisionKey.None? {
          inbox := before;
          return false, true;
        }
        opportunities := opportunities[key :=
          opportunity.(state := "risk_checked", riskDecisionId := decision.decisionKey,
                       entityVersion := opportunity.entityVersion + 1)];
      } else {
        assert opportunities == opportunities[key := opportunity];
      }
      return true, false;
    }

    method FinishDuplicateInboxDelivery(id: nat, decision: RiskDecision) returns (markProcessed: bool, threw: bool)
      requires id < |rows|
      modifies this`rows
      ensures |rows| == |old(rows)|
      ensures threw <==> decision.planKey.None?
      ensures threw ==> View() == old(View()) && !markProcessed
      ensures !threw ==> FinishDuplicate(old(View()), id, decision, limits) ==
                         if markProcessed then MarkProcessed(View(), id) else View()
    {
      if decision.planKey.None? {
        return false, true;
      }
      if decision.planKey.value !in opportunities {
        CountFailedAttempt(id, limits.maxOpportunityAttempts);
        return false, false;
      }
      if AlreadyDecided(opportunities[decision.planKey.value], decision) {
        return true, false;
      }
      MarkRowDeadLetter(id);
      return false, false;
    }

    method FinalizePaperPromotionRelayAttempt(id: nat, httpOk: bool)
      requires id < |rows|
      modifies this`rows
      ensures View() == FinalizePaper(old(View()), id, httpOk, limits)
    {
      if httpOk {
        if Open(rows[id]) {
          rows := rows[id := rows[id].(processed := true)];
        }
        return;
      }
      var attempts := 0;
      if Open(rows[id]) {
        attempts := rows[id].attempts + 1;
        rows := rows[id := rows[id].(attempts := attempts)];
      }
      if attempts >= limits.maxPaperAttempts {
        MarkRowDeadLetter(id);
      }
    }

    /** One tick over `|fates|` iterations at most. A transaction that fails is rolled back; that and a POST
        that throws end the tick by an error. */
    method ProcessBatchInner(fates: seq<Fate>) returns (threw: bool)
      modifies this
      ensures View() == Tick(old(View()), limits, fates)
      ensures threw <==> TickThrows(old(View()), limits, fates)
    {
      threw := false;
      for i := 0 to |fates|
        invariant !threw && Tick(View(), limits, fates[i..]) == Tick(old(View()), limits, fates)
        invariant TickThrows(View(), limits, fates[i..]) == TickThrows(old(View()), limits, fates)
      {
        var batch := FetchLockedOutboxBatch(rows, 1, RELAY_EVENT_TYPES);
        if batch == [] {
          return;
        }
        var id := batch[0];
        assert Head(rows) == Some(id);
        var fate := fates[i];
        assert fates[i..][0] == fate && fates[i..][1..] == fates[i + 1..];
        if !fate.pollCommits {
          return true;
        }
        if IsPaperWork(rows[id]) {
          if fate.post.Thrown? {
            return true;
          }
          var ok := fate.post.Accepted?;
          if ok {
            posted := posted + {id};
          }
          if !fate.finalizeCommits {
            return true;
          }
          FinalizePaperPromotionRelayAttempt(id, ok);
        } else if rows[id].eventType.PaperPromotionCandidateRequested? {
          MarkRowDeadLetter(id);
        } else {
          var markProcessed, failed := DispatchLockedRow(id);
          if failed {
            return true;
          }
          if markProcessed {
            rows := rows[id := rows[id].(processed := true)];
          }
        }
      }
    }
  }
}
