/** When the relay gets past a row, and when a row keeps it for ever (outbox-relay.service.ts). An error of a
    row transaction, or of a POST, counts no attempt: the same row is the head of the next tick. */
module RelayLiveness {
  import opened Prelude
  import opened Messaging
  import opened OutboxRelay
  import Uuid

  // ----- rows that stop the relay -----

  /** A decision that no row transaction gets through: its plan reference is no UUID, or the opportunity is
      there and the decision id is none. */
  predicate IsUndeliverable(t: Tables, row: OutboxRow)
  {
    && IsQueuedDecision(row)
    && var decision := ParseRiskDecision(row.payload).value;
       decision.planKey.None? || (Found(t, decision) && decision.decisionKey.None?)
  }

  /** The row stops the relay: an undeliverable decision always does, a paper row while the paper service does
      not answer. */
  predicate Blocks(t: Tables, id: nat, answers: bool)
    requires id < |t.rows|
  {
    IsUndeliverable(t, t.rows[id]) || (!answers && Open(t.rows[id]) && IsPaperWork(t.rows[id]))
  }

  /** The paper service answers every POST, or none; and nothing crashes. */
  ghost predicate Uniform(ticks: seq<seq<Fate>>, answers: bool)
  {
    forall k :: 0 <= k < |ticks| ==> ticks[k] != [] && UniformTick(ticks[k], answers)
  }

  ghost predicate UniformTick(fates: seq<Fate>, answers: bool)
  {
    forall j :: 0 <= j < |fates| ==> CrashFree(fates[j]) && (fates[j].post.Thrown? <==> !answers)
  }

  lemma ThrowsIffBlocks(t: Tables, fate: Fate, id: nat, answers: bool)
    requires NoPriorClaims(t) && Head(t.rows) == Some(id)
    requires CrashFree(fate) && (fate.post.Thrown? <==> !answers)
    ensures Throws(t, fate) <==> Blocks(t, id, answers)
  {
  }

  /** An iteration on an undeliverable row throws, whatever else happens. */
  lemma UndeliverableThrows(t: Tables, limits: Limits, fate: Fate, id: nat)
    requires NoPriorClaims(t) && Head(t.rows) == Some(id) && IsUndeliverable(t, t.rows[id])
    ensures Throws(t, fate) && Iterate(t, limits, fate) == t
  {
  }

  lemma BlockedIterationIsIdle(t: Tables, limits: Limits, fate: Fate, id: nat, answers: bool)
    requires NoPriorClaims(t) && Head(t.rows) == Some(id) && Blocks(t, id, answers)
    requires CrashFree(fate) && (fate.post.Thrown? <==> !answers)
    ensures Throws(t, fate) && Iterate(t, limits, fate) == t
  {
    if IsUndeliverable(t, t.rows[id]) {
      UndeliverableThrows(t, limits, fate, id);
    }
  }

  // ----- what an iteration leaves alone -----

  /** The rows from `from` on, and which opportunities there are. */
  ghost predicate KeepsFrom(t: Tables, after: Tables, from: nat)
  {
    && |after.rows| == |t.rows| && from <= |t.rows| && after.rows[from..] == t.rows[from..]
    && after.opportunities.Keys == t.opportunities.Keys
  }

  lemma IterateKeepsAbove(t: Tables, limits: Limits, fate: Fate, id: nat, from: nat)
    requires NoPriorClaims(t) && Head(t.rows) == Some(id) && id < from <= |t.rows|
    ensures KeepsFrom(t, Iterate(t, limits, fate), from)
  {
    IterateAtHead(t, limits, fate, id);
  }

  lemma KeysStay(t: Tables, limits: Limits, fate: Fate)
    requires NoPriorClaims(t)
    ensures Iterate(t, limits, fate).opportunities.Keys == t.opportunities.Keys
    ensures |Iterate(t, limits, fate).rows| == |t.rows|
  {
    if Head(t.rows).Some? {
      IterateAtHead(t, limits, fate, Head(t.rows).value);
    }
  }

  // ----- a blocking row keeps the relay -----

  /** No fate of any iteration gets past an undeliverable row: it and every later row stay as they are. */
  lemma {:induction false} TickStopsAt(t: Tables, limits: Limits, fates: seq<Fate>, b: nat)
    requires NoPriorClaims(t) && b < |t.rows| && IsUndeliverable(t, t.rows[b])
    ensures KeepsFrom(t, Tick(t, limits, fates), b) && NoPriorClaims(Tick(t, limits, fates))
    decreases |fates|
  {
    TickConserves(t, limits, fates);
    if fates != [] && Head(t.rows).Some? {
      var id := Head(t.rows).value;
      assert Fetchable(t.rows[b], RELAY_EVENT_TYPES);
      if id == b {
        UndeliverableThrows(t, limits, fates[0], b);
      } else {
        IterateKeepsAbove(t, limits, fates[0], id, b);
        var after := Iterate(t, limits, fates[0]);
        assert after.rows[b] == after.rows[b..][0] == t.rows[b];
        if !Throws(t, fates[0]) {
          IterateConserves(t, limits, fates[0]);
          TickStopsAt(after, limits, fates[1..], b);
        }
      }
    }
  }

  /** An undeliverable decision stops the relay for ever, whatever the paper service does and whatever crashes:
      that row and all rows behind it keep their state and their attempts. */
  lemma {:induction false} UndeliverableStopsRelay(t: Tables, limits: Limits, ticks: seq<seq<Fate>>, b: nat)
    requires NoPriorClaims(t) && b < |t.rows| && IsUndeliverable(t, t.rows[b])
    ensures KeepsFrom(t, Ticks(t, limits, ticks), b)
    decreases |ticks|
  {
    if ticks != [] {
      var after := Tick(t, limits, ticks[0]);
      TickStopsAt(t, limits, ticks[0], b);
      assert after.rows[b] == after.rows[b..][0] == t.rows[b];
      UndeliverableStopsRelay(after, limits, ticks[1..], b);
    }
  }

  /** The plan reference `plan-phase0` is enough. */
  lemma PlanPhase0IsUndeliverable(t: Tables, row: OutboxRow, decisionId: string)
    requires Open(row) && row.eventType.RiskDecisionIssued? && decisionId != ""
    requires row.payload == map["decisionId" := JString(decisionId), "planReference" := JString("plan-phase0")]
    ensures IsUndeliverable(t, row)
  {
    Uuid.NotUuid("plan-phase0");
    assert NonEmptyString(row.payload, "planReference") == Some("plan-phase0");
    assert NonEmptyString(row.payload, "decisionId") == Some(decisionId);
  }

  lemma {:induction false} BlockedTick(t: Tables, limits: Limits, fates: seq<Fate>, b: nat, answers: bool)
    requires NoPriorClaims(t) && b < |t.rows| && Blocks(t, b, answers) && UniformTick(fates, answers)
    ensures KeepsFrom(t, Tick(t, limits, fates), b) && NoPriorClaims(Tick(t, limits, fates))
    decreases |fates|
  {
    TickConserves(t, limits, fates);
    if fates != [] && Head(t.rows).Some? {
      var id := Head(t.rows).value;
      assert Fetchable(t.rows[b], RELAY_EVENT_TYPES);
      if id == b {
        BlockedIterationIsIdle(t, limits, fates[0], b, answers);
      } else {
        IterateKeepsAbove(t, limits, fates[0], id, b);
        var after := Iterate(t, limits, fates[0]);
        assert after.rows[b] == after.rows[b..][0] == t.rows[b];
        if !Throws(t, fates[0]) {
          IterateConserves(t, limits, fates[0]);
          BlockedTick(after, limits, fates[1..], b, answers);
        }
      }
    }
  }

  lemma {:induction false} BlockedTicks(t: Tables, limits: Limits, ticks: seq<seq<Fate>>, b: nat, answers: bool)
    requires NoPriorClaims(t) && b < |t.rows| && Blocks(t, b, answers) && Uniform(ticks, answers)
    ensures KeepsFrom(t, Ticks(t, limits, ticks), b)
    decreases |ticks|
  {
    if ticks != [] {
      var after := Tick(t, limits, ticks[0]);
      BlockedTick(t, limits, ticks[0], b, answers);
      assert after.rows[b] == after.rows[b..][0] == t.rows[b];
      BlockedTicks(after, limits, ticks[1..], b, answers);
    }
  }

  // ----- without a blocking row in front, a row closes -----

  /** No row up to `id` blocks. */
  ghost predicate Clear(t: Tables, id: nat, answers: bool)
  {
    forall b :: 0 <= b <= id && b < |t.rows| ==> !Blocks(t, b, answers)
  }

  function MeasureUpTo(rows: seq<OutboxRow>, limits: Limits, id: nat): nat
    requires id < |rows|
  {
    Measure(rows[..id + 1], limits)
  }

  lemma {:induction false} MeasurePrefix(rows: seq<OutboxRow>, limits: Limits, n: nat)
    requires n <= |rows|
    ensures Measure(rows[..n], limits) <= Measure(rows, limits)
  {
    if n > 0 {
      assert rows[..n][1..] == rows[1..][..n - 1];
      MeasurePrefix(rows[1..], limits, n - 1);
    }
  }

  /** An iteration leaves no new blocking row behind. */
  lemma IterateStaysClear(t: Tables, limits: Limits, fate: Fate, id: nat, answers: bool)
    requires NoPriorClaims(t) && Clear(t, id, answers)
    ensures Clear(Iterate(t, limits, fate), id, answers)
  {
    KeysStay(t, limits, fate);
    if Head(t.rows).Some? {
      var h := Head(t.rows).value;
      var after := Iterate(t, limits, fate);
      IterateAtHead(t, limits, fate, h);
      forall b | 0 <= b <= id && b < |after.rows|
        ensures !Blocks(after, b, answers)
      {
        assert !Blocks(t, b, answers);
        assert after.rows[b].eventType == t.rows[b].eventType && after.rows[b].payload == t.rows[b].payload;
        assert Open(after.rows[b]) ==> Open(t.rows[b]);
      }
    }
  }

  lemma HeadLowersPrefix(t: Tables, limits: Limits, fate: Fate, id: nat, h: nat)
    requires Head(t.rows) == Some(h) && h <= id < |t.rows| && !Throws(t, fate)
    ensures var after := Iterate(t, limits, fate);
            |after.rows| == |t.rows| && MeasureUpTo(after.rows, limits, id) < MeasureUpTo(t.rows, limits, id)
  {
    var prefix := t.rows[..id + 1];
    var after := Iterate(t, limits, fate);
    IterateAtHead(t, limits, fate, h);
    assert after.rows[..id + 1] == prefix[h := after.rows[h]];
    MeasureUpdate(prefix, h, after.rows[h], limits);
  }

  lemma HeadBeyondPrefix(t: Tables, limits: Limits, fate: Fate, id: nat)
    requires id < |t.rows| && (Head(t.rows).Some? ==> id < Head(t.rows).value)
    ensures var after := Iterate(t, limits, fate);
            |after.rows| == |t.rows| && after.rows[..id + 1] == t.rows[..id + 1]
    ensures MeasureUpTo(t.rows, limits, id) == 0
  {
    MeasureZero(t.rows[..id + 1], limits);
    if Head(t.rows).Some? {
      IterateAtHead(t, limits, fate, Head(t.rows).value);
    }
  }

  /** An iteration works on the rows up to `id` as long as one of them is fetchable. */
  lemma IterateLowersPrefix(t: Tables, limits: Limits, fate: Fate, id: nat, answers: bool)
    requires NoPriorClaims(t) && id < |t.rows| && Clear(t, id, answers)
    requires CrashFree(fate) && (fate.post.Thrown? <==> !answers)
    ensures var after := Iterate(t, limits, fate);
            && |after.rows| == |t.rows|
            && MeasureUpTo(after.rows, limits, id) <= MeasureUpTo(t.rows, limits, id)
            && (MeasureUpTo(t.rows, limits, id) > 0 ==>
                  Head(t.rows).Some? && !Throws(t, fate)
                  && MeasureUpTo(after.rows, limits, id) < MeasureUpTo(t.rows, limits, id))
  {
    if Head(t.rows).Some? && Head(t.rows).value <= id {
      var h := Head(t.rows).value;
      assert !Blocks(t, h, answers);
      ThrowsIffBlocks(t, fate, h, answers);
      HeadLowersPrefix(t, limits, fate, id, h);
    } else {
      HeadBeyondPrefix(t, limits, fate, id);
    }
  }

  lemma {:induction false} ClearTick(t: Tables, limits: Limits, fates: seq<Fate>, id: nat, answers: bool)
    requires NoPriorClaims(t) && id < |t.rows| && Clear(t, id, answers) && UniformTick(fates, answers)
    ensures var after := Tick(t, limits, fates);
            && |after.rows| == |t.rows| && NoPriorClaims(after) && Clear(after, id, answers)
            && MeasureUpTo(after.rows, limits, id) <= MeasureUpTo(t.rows, limits, id)
            && (fates != [] && MeasureUpTo(t.rows, limits, id) > 0 ==>
                  MeasureUpTo(after.rows, limits, id) < MeasureUpTo(t.rows, limits, id))
    decreases |fates|
  {
    TickConserves(t, limits, fates);
    if fates != [] {
      IterateLowersPrefix(t, limits, fates[0], id, answers);
      IterateStaysClear(t, limits, fates[0], id, answers);
      IterateConserves(t, limits, fates[0]);
      if Head(t.rows).Some? && !Throws(t, fates[0]) {
        ClearTick(Iterate(t, limits, fates[0]), limits, fates[1..], id, answers);
      }
    }
  }

  lemma {:induction false} ClearTicks(t: Tables, limits: Limits, ticks: seq<seq<Fate>>, id: nat, answers: bool)
    requires NoPriorClaims(t) && id < |t.rows| && Clear(t, id, answers) && Uniform(ticks, answers)
    requires |ticks| >= MeasureUpTo(t.rows, limits, id)
    ensures var after := Ticks(t, limits, ticks);
            |after.rows| == |t.rows| && MeasureUpTo(after.rows, limits, id) == 0
    decreases |ticks|
  {
    if ticks != [] {
      ClearTick(t, limits, ticks[0], id, answers);
      ClearTicks(Tick(t, limits, ticks[0]), limits, ticks[1..], id, answers);
    }
  }

  /** Ticks close rows and change no identity and no content. */
  lemma {:induction false} TicksKeepContents(t: Tables, limits: Limits, ticks: seq<seq<Fate>>, id: nat)
    requires id < |t.rows|
    ensures var after := Ticks(t, limits, ticks);
            |after.rows| == |t.rows| && after.rows[id].eventType == t.rows[id].eventType
    decreases |ticks|
  {
    if ticks != [] {
      TickKeepsContents(t, limits, ticks[0], id);
      TicksKeepContents(Tick(t, limits, ticks[0]), limits, ticks[1..], id);
    }
  }

  lemma {:induction false} TickKeepsContents(t: Tables, limits: Limits, fates: seq<Fate>, id: nat)
    requires id < |t.rows|
    ensures var after := Tick(t, limits, fates);
            |after.rows| == |t.rows| && after.rows[id].eventType == t.rows[id].eventType
    decreases |fates|
  {
    if fates != [] && Head(t.rows).Some? {
      IterateAtHead(t, limits, fates[0], Head(t.rows).value);
      if !Throws(t, fates[0]) {
        TickKeepsContents(Iterate(t, limits, fates[0]), limits, fates[1..], id);
      }
    }
  }

  /** Which rows close. After enough crash-free ticks a fetchable row is closed if and only if neither it nor a
      fetchable row with a lower id blocks. With a paper service that answers, only undeliverable decisions
      block; with one that does not, every well-formed paper row does too. */
  lemma ClosedIff(t: Tables, limits: Limits, ticks: seq<seq<Fate>>, answers: bool, id: nat)
    requires NoPriorClaims(t) && id < |t.rows| && Fetchable(t.rows[id], RELAY_EVENT_TYPES)
    requires Uniform(ticks, answers) && |ticks| >= Measure(t.rows, limits)
    ensures |Ticks(t, limits, ticks).rows| == |t.rows|
    ensures !Open(Ticks(t, limits, ticks).rows[id]) <==> forall b :: 0 <= b <= id ==> !Blocks(t, b, answers)
  {
    var after := Ticks(t, limits, ticks);
    TicksKeepContents(t, limits, ticks, id);
    if b :| 0 <= b <= id && Blocks(t, b, answers) {
      BlockedTicks(t, limits, ticks, b, answers);
      assert after.rows[id] == after.rows[b..][id - b] == t.rows[b..][id - b];
    } else {
      MeasurePrefix(t.rows, limits, id + 1);
      ClearTicks(t, limits, ticks, id, answers);
      MeasureZero(after.rows[..id + 1], limits);
      assert after.rows[..id + 1][id] == after.rows[id];
    }
  }

  /** The queue drains, and the opportunities become the fold of the queued decisions, if and only if no row
      blocks. */
  lemma DrainsIff(t: Tables, limits: Limits, ticks: seq<seq<Fate>>, answers: bool)
    requires NoPriorClaims(t) && Uniform(ticks, answers) && |ticks| >= Measure(t.rows, limits)
    ensures Head(Ticks(t, limits, ticks).rows).None? <==> forall b :: 0 <= b < |t.rows| ==> !Blocks(t, b, answers)
    ensures (forall b :: 0 <= b < |t.rows| ==> !Blocks(t, b, answers)) ==>
              Ticks(t, limits, ticks).opportunities == FoldDecisions(t.opportunities, QueuedDecisions(t.rows))
  {
    var after := Ticks(t, limits, ticks);
    if b :| 0 <= b < |t.rows| && Blocks(t, b, answers) {
      BlockedTicks(t, limits, ticks, b, answers);
      assert after.rows[b] == after.rows[b..][0] == t.rows[b..][0];
      assert Fetchable(after.rows[b], RELAY_EVENT_TYPES);
    } else if t.rows != [] {
      var last := |t.rows| - 1;
      assert t.rows[..last + 1] == t.rows;
      ClearTicks(t, limits, ticks, last, answers);
      assert after.rows[..last + 1] == after.rows;
      MeasureZero(after.rows, limits);
      RelayRefinesFold(t, limits, ticks);
    } else {
      EmptyStaysEmpty(t, limits, ticks);
      RelayRefinesFold(t, limits, ticks);
    }
  }

  lemma {:induction false} EmptyStaysEmpty(t: Tables, limits: Limits, ticks: seq<seq<Fate>>)
    requires t.rows == []
    ensures Ticks(t, limits, ticks) == t
    decreases |ticks|
  {
    if ticks != [] {
      assert Tick(t, limits, ticks[0]) == t;
      EmptyStaysEmpty(t, limits, ticks[1..]);
    }
  }
}
