/** What the capital service records and answers, said outright (capital.service.ts,
    capital-reservation-expiry.ts, capital-reservation-sweeper.worker.ts), and what the active sum is made of.
    Nothing here goes by the functions that make the change. */
module CapitalOutcomes {
  import opened Prelude
  import opened CapitalLedger

  /** The row made for a request: its correlation id and amount, active, in version 1, and due after the time
      asked for, or after 300 seconds. */
  ghost predicate IsMadeFor(row: Reservation, request: ReserveRequest, now: int)
  {
    && row.correlationId == request.correlationId && row.amountUsd == request.amountUsd
    && row.state == Active && row.entityVersion == 1
    && (request.ttlSeconds.Some? ==> row.expiresAt == now + 1000 * request.ttlSeconds.value)
    && (request.ttlSeconds.None? ==> row.expiresAt == now + 300_000)
  }

  /** When a reserve is accepted, and all that it does: the row is made for the request, its event carries the
      same, and the total counted against the ceiling rises by exactly the amount. */
  lemma ReserveRecords(l: Ledger, request: ReserveRequest, ceiling: Option<real>, now: int)
    ensures var (m, reply) := AttemptReserve(l, request, ceiling, now);
            var roomFor := ceiling.Some? && ActiveSum(l.rows) + l.openPositionsUsd + request.amountUsd <= ceiling.value;
            var taken := exists i :: 0 <= i < |l.rows| && l.rows[i].state == Active
                                     && l.rows[i].correlationId == request.correlationId;
            && (reply.Row? <==> roomFor && !taken)
            && (ceiling.None? ==> reply == LimitUnavailable)
            && (ceiling.Some? && !roomFor ==> reply == CeilingExceeded)
            && (roomFor && taken ==> reply == UniqueViolation)
            && (!reply.Row? ==> m == l)
            && (reply.Row? ==>
                  && reply.id == |l.rows| && IsMadeFor(reply.row, request, now)
                  && m.rows == l.rows + [reply.row] && m.openPositionsUsd == l.openPositionsUsd
                  && m.outbox == l.outbox + [CapitalReserved(|l.rows|, request.correlationId, request.amountUsd,
                                                             reply.row.expiresAt, 1)]
                  && ActiveTotal(m) == ActiveTotal(l) + request.amountUsd)
  {
    assert FindActive(l.rows, request.correlationId).Some? <==>
           exists i :: 0 <= i < |l.rows| && IsActiveFor(l.rows[i], request.correlationId);
    var row := NewReservation(request, now);
    assert (l.rows + [row])[..|l.rows|] == l.rows;
  }

  /** A release frees an active reservation that is not due yet, and only that. It answers with a released row
      again and again, and refuses an expired one, or one that is due, without changing it. */
  lemma ReleaseFrees(l: Ledger, id: nat, now: int)
    requires id < |l.rows|
    ensures var (m, reply) := Release(l, id, now);
            var row := l.rows[id];
            if row.state == Active && now < row.expiresAt then
              && reply == Row(id, row.(state := Released, entityVersion := row.entityVersion + 1))
              && m == l.(rows := l.rows[id := reply.row])
            else m == l && reply == if row.state == Released then Row(id, row) else Conflict
  {
  }

  /** A release repeated at any later time answers as the first one did. */
  lemma RepeatedReleaseAnswersAlike(l: Ledger, id: nat, now: int, later: int)
    requires Release(l, id, now).1.Row?
    ensures Release(Release(l, id, now).0, id, later) == Release(l, id, now)
  {
  }

  /** A read shows and saves an active reservation that is due as expired; the sweep does so once it is past due;
      and neither changes any other. */
  lemma ExpiryOutcome(l: Ledger, id: nat, now: int)
    requires id < |l.rows|
    ensures var row := l.rows[id];
            var expired := row.(state := Expired, entityVersion := row.entityVersion + 1);
            var (m, reply) := GetById(l, id, now);
            var swept := Sweep(l, now);
            && reply == Row(id, if row.state == Active && row.expiresAt <= now then expired else row)
            && m == l.(rows := l.rows[id := reply.row])
            && |swept.rows| == |l.rows| && swept.outbox == l.outbox && swept.openPositionsUsd == l.openPositionsUsd
            && swept.rows[id] == if row.state == Active && row.expiresAt < now then expired else row
  {
  }

  lemma UnknownIsNotFound(l: Ledger, id: nat, now: int)
    requires id >= |l.rows|
    ensures Release(l, id, now) == (l, NotFound) && GetById(l, id, now) == (l, NotFound)
  {
  }

  /** Open positions count against the ceiling at the value last set, and setting it changes nothing else. */
  lemma PositionsCount(l: Ledger, usd: real, now: int)
    ensures var (m, reply) := Apply(l, Timed(now, OpPositions(usd)));
            m.rows == l.rows && m.outbox == l.outbox && ActiveTotal(m) == ActiveSum(l.rows) + usd && reply == None
  {
  }

  // ----- the active sum over a run -----

  /** The call makes a new reservation. */
  predicate Makes(l: Ledger, t: Timed)
  {
    t.op.OpReserve? && Apply(l, t).1.Some? && Apply(l, t).1.value.Row?
  }

  /** The accepted requests of a run, in order. */
  function Accepted(l: Ledger, run: seq<Timed>): seq<ReserveRequest>
    decreases |run|
  {
    if run == [] then []
    else (if Makes(l, run[0]) then [run[0].op.request] else []) + Accepted(Apply(l, run[0]).0, run[1..])
  }

  /** The amounts of those requests whose reservation, at the same position of `rows`, is still active. */
  function StandingSum(requests: seq<ReserveRequest>, rows: seq<Reservation>): real
    requires |requests| == |rows|
  {
    if requests == [] then 0.0
    else
      var n := |requests| - 1;
      StandingSum(requests[..n], rows[..n]) + if rows[n].state == Active then requests[n].amountUsd else 0.0
  }

  /** Each reservation is for its request. */
  ghost predicate AreFor(rows: seq<Reservation>, requests: seq<ReserveRequest>)
  {
    && |rows| == |requests|
    && forall i :: 0 <= i < |rows| ==>
         rows[i].correlationId == requests[i].correlationId && rows[i].amountUsd == requests[i].amountUsd
  }

  lemma StepFor(l: Ledger, t: Timed, requests: seq<ReserveRequest>)
    requires AreFor(l.rows, requests)
    ensures AreFor(Apply(l, t).0.rows, requests + if Makes(l, t) then [t.op.request] else [])
  {
    ApplySteps(l, t);
    if t.op.OpReserve? {
      ReserveRecords(l, t.op.request, t.op.ceiling, t.now);
    } else {
      var m := Apply(l, t).0;
      forall i | 0 <= i < |l.rows|
        ensures m.rows[i].correlationId == l.rows[i].correlationId && m.rows[i].amountUsd == l.rows[i].amountUsd
      {
        assert RowStep(l.rows[i], m.rows[i]);
      }
    }
  }

  lemma {:induction false} RunFor(l: Ledger, run: seq<Timed>, requests: seq<ReserveRequest>)
    requires AreFor(l.rows, requests)
    ensures AreFor(Run(l, run).rows, requests + Accepted(l, run))
    decreases |run|
  {
    if run == [] {
      assert requests + [] == requests;
    } else {
      var made := if Makes(l, run[0]) then [run[0].op.request] else [];
      StepFor(l, run[0], requests);
      RunFor(Apply(l, run[0]).0, run[1..], requests + made);
      assert requests + made + Accepted(Apply(l, run[0]).0, run[1..]) == requests + Accepted(l, run);
    }
  }

  lemma {:induction false} SumIsStanding(rows: seq<Reservation>, requests: seq<ReserveRequest>)
    requires AreFor(rows, requests)
    ensures ActiveSum(rows) == StandingSum(requests, rows)
  {
    if rows != [] {
      SumIsStanding(rows[..|rows| - 1], requests[..|rows| - 1]);
    }
  }

  /** The active sum after any run from an empty ledger is the sum of the requested amounts of the accepted
      reserves that are neither released nor expired. */
  lemma ActiveSumIsRequested(l: Ledger, run: seq<Timed>)
    requires l.rows == []
    ensures AreFor(Run(l, run).rows, Accepted(l, run))
    ensures ActiveSum(Run(l, run).rows) == StandingSum(Accepted(l, run), Run(l, run).rows)
  {
    RunFor(l, run, []);
    assert [] + Accepted(l, run) == Accepted(l, run);
    SumIsStanding(Run(l, run).rows, Accepted(l, run));
  }

  function AmountsOf(run: seq<Timed>): real
  {
    if run == [] then 0.0
    else (if run[0].op.OpReserve? then run[0].op.request.amountUsd else 0.0) + AmountsOf(run[1..])
  }

  lemma {:induction false} AllAcceptedAddUp(l: Ledger, run: seq<Timed>)
    requires forall i :: 0 <= i < |run| ==> run[i].op.OpReserve?
    requires |Accepted(l, run)| == |run|
    ensures ActiveTotal(Run(l, run)) == ActiveTotal(l) + AmountsOf(run)
    decreases |run|
  {
    if run != [] {
      AcceptedFits(Apply(l, run[0]).0, run[1..]);
      ReserveRecords(l, run[0].op.request, run[0].op.ceiling, run[0].now);
      AllAcceptedAddUp(Apply(l, run[0]).0, run[1..]);
    }
  }

  lemma {:induction false} AcceptedFits(l: Ledger, run: seq<Timed>)
    ensures |Accepted(l, run)| <= |run|
    decreases |run|
  {
    if run != [] {
      AcceptedFits(Apply(l, run[0]).0, run[1..]);
    }
  }

  /** Reserves whose amounts together do not fit under the ceiling, beside what it counts already, are not all
      accepted. */
  lemma NotAllAccepted(l: Ledger, run: seq<Timed>, ceiling: real)
    requires LedgerInv(l) && ActiveTotal(l) <= ceiling
    requires forall i :: 0 <= i < |run| ==> run[i].op.OpReserve? && run[i].op.request.amountUsd >= 0.0
                                            && (run[i].op.ceiling.Some? ==> run[i].op.ceiling.value == ceiling)
    requires ActiveTotal(l) + AmountsOf(run) > ceiling
    ensures |Accepted(l, run)| < |run|
  {
    AcceptedFits(l, run);
    ReservesAreDisciplined(l, run, ceiling);
    LedgerSafety(l, run, ceiling);
    if |Accepted(l, run)| == |run| {
      AllAcceptedAddUp(l, run);
    }
  }

  lemma {:induction false} ReservesAreDisciplined(l: Ledger, run: seq<Timed>, ceiling: real)
    requires forall i :: 0 <= i < |run| ==> run[i].op.OpReserve? && run[i].op.request.amountUsd >= 0.0
                                            && (run[i].op.ceiling.Some? ==> run[i].op.ceiling.value == ceiling)
    ensures DisciplinedRun(l, run, ceiling)
    decreases |run|
  {
    if run != [] {
      ReservesAreDisciplined(Apply(l, run[0]).0, run[1..], ceiling);
    }
  }
}
