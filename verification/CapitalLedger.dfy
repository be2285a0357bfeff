/** The capital ledger: reservations under an aggregate ceiling (capital.service.ts,
    capital-reservation-expiry.ts, capital-reservation-sweeper.worker.ts). Each operation is one atomic
    database transaction; one that throws changes nothing. Times are milliseconds of a monotone clock. */
module CapitalLedger {
  import opened Prelude

  datatype State = Active | Released | Expired

  datatype Reservation = Reservation(
    correlationId: nat,
    amountUsd: real,
    state: State,
    expiresAt: int,
    entityVersion: int)

  /** Payload of a CapitalReserved outbox row. */
  datatype CapitalReserved = CapitalReserved(
    reservationId: nat,
    correlationId: nat,
    amountUsd: real,
    expiresAt: int,
    entityVersion: int)

  /** A reservation's id is its position in `rows`. */
  datatype Ledger = Ledger(rows: seq<Reservation>, outbox: seq<CapitalReserved>, openPositionsUsd: real)

  datatype ReserveRequest = ReserveRequest(correlationId: nat, amountUsd: real, ttlSeconds: Option<int>)

  datatype Reply =
    | Row(id: nat, row: Reservation)
    | NotFound
    | Conflict
    | CeilingExceeded
    | LimitUnavailable
    | UniqueViolation

  function ActiveSum(rows: seq<Reservation>): real
  {
    if rows == [] then 0.0
    else ActiveSum(rows[..|rows| - 1]) + if rows[|rows| - 1].state.Active? then rows[|rows| - 1].amountUsd else 0.0
  }

  /** Capital counted against the ceiling. */
  function ActiveTotal(l: Ledger): real
  {
    ActiveSum(l.rows) + l.openPositionsUsd
  }

  /** The row of the partial unique index, if any. */
  function FindActive(rows: seq<Reservation>, correlationId: nat): (found: Option<nat>)
    ensures found.Some? ==> found.value < |rows| && IsActiveFor(rows[found.value], correlationId)
    ensures found.None? ==> forall i :: 0 <= i < |rows| ==> !IsActiveFor(rows[i], correlationId)
  {
    if rows == [] then None
    else
      var n := |rows| - 1;
      if IsActiveFor(rows[n], correlationId) then Some(n) else FindActive(rows[..n], correlationId)
  }

  predicate IsActiveFor(row: Reservation, correlationId: nat)
  {
    row.state.Active? && row.correlationId == correlationId
  }

  function NewReservation(request: ReserveRequest, now: int): Reservation
  {
    var ttl := if request.ttlSeconds.Some? then request.ttlSeconds.value else 300;
    Reservation(request.correlationId, request.amountUsd, Active, now + ttl * 1000, 1)
  }

  function EventOf(id: nat, row: Reservation): CapitalReserved
  {
    CapitalReserved(id, row.correlationId, row.amountUsd, row.expiresAt, 1)
  }

  /** `attemptReserve`: the ceiling gate comes first, the unique index second. */
  function AttemptReserve(l: Ledger, request: ReserveRequest, ceiling: Option<real>, now: int): (Ledger, Reply)
  {
    if ceiling.None? then (l, LimitUnavailable)
    else if ActiveTotal(l) + request.amountUsd > ceiling.value then (l, CeilingExceeded)
    else if FindActive(l.rows, request.correlationId).Some? then (l, UniqueViolation)
    else
      var row := NewReservation(request, now);
      (l.(rows := l.rows + [row], outbox := l.outbox + [EventOf(|l.rows|, row)]), Row(|l.rows|, row))
  }

  /** Lazy expiry: the row as it reads at `now`. */
  function Materialized(row: Reservation, now: int): Reservation
  {
    if row.state.Active? && row.expiresAt <= now
    then row.(state := Expired, entityVersion := row.entityVersion + 1)
    else row
  }

  function GetById(l: Ledger, id: nat, now: int): (Ledger, Reply)
  {
    if id >= |l.rows| then (l, NotFound)
    else
      var row := Materialized(l.rows[id], now);
      (l.(rows := l.rows[id := row]), Row(id, row))
  }

  /** An expired row makes the transaction throw, so its expiry is not saved. */
  function Release(l: Ledger, id: nat, now: int): (Ledger, Reply)
  {
    if id >= |l.rows| then (l, NotFound)
    else
      var row := l.rows[id];
      if row.state.Released? then (l, Row(id, row))
      else if !row.state.Active? then (l, Conflict)
      else if row.expiresAt <= now then (l, Conflict)
      else
        var released := row.(state := Released, entityVersion := row.entityVersion + 1);
        (l.(rows := l.rows[id := released]), Row(id, released))
  }

  /** The sweeper's test is strict where the lazy one is not. */
  function SweptRow(row: Reservation, now: int): Reservation
  {
    if row.state.Active? && row.expiresAt < now
    then row.(state := Expired, entityVersion := row.entityVersion + 1)
    else row
  }

  function Sweep(l: Ledger, now: int): Ledger
  {
    l.(rows := seq(|l.rows|, i requires 0 <= i < |l.rows| => SweptRow(l.rows[i], now)))
  }

  // ----- runs -----

  datatype Op =
    | OpReserve(request: ReserveRequest, ceiling: Option<real>)
    | OpGet(id: nat)
    | OpRelease(id: nat)
    | OpSweep
    | OpPositions(openPositionsUsd: real)

  /** An operation and the time at which it runs. */
  datatype Timed = Timed(now: int, op: Op)

  function Apply(l: Ledger, t: Timed): (Ledger, Option<Reply>)
  {
    match t.op
    case OpReserve(request, ceiling) => var (m, r) := AttemptReserve(l, request, ceiling, t.now); (m, Some(r))
    case OpGet(id) => var (m, r) := GetById(l, id, t.now); (m, Some(r))
    case OpRelease(id) => var (m, r) := Release(l, id, t.now); (m, Some(r))
    case OpSweep => (Sweep(l, t.now), None)
    case OpPositions(usd) => (l.(openPositionsUsd := usd), None)
  }

  function Run(l: Ledger, run: seq<Timed>): Ledger
    decreases |run|
  {
    if run == [] then l else Run(Apply(l, run[0]).0, run[1..])
  }

  ghost predicate Monotone(run: seq<Timed>)
  {
    forall i, j :: 0 <= i < j < |run| ==> run[i].now <= run[j].now
  }

  // ----- ledger invariants -----

  ghost predicate RowOk(row: Reservation)
  {
    && row.amountUsd >= 0.0
    && row.entityVersion == if row.state.Active? then 1 else 2
  }

  ghost predicate LedgerInv(l: Ledger)
  {
    && (forall i :: 0 <= i < |l.rows| ==> RowOk(l.rows[i]))
    && (forall i, j :: 0 <= i < j < |l.rows| && l.rows[i].state.Active? && l.rows[j].state.Active? ==>
          l.rows[i].correlationId != l.rows[j].correlationId)
    && |l.outbox| == |l.rows|
    && (forall i :: 0 <= i < |l.rows| ==> l.outbox[i] == EventOf(i, l.rows[i]))
  }

  /** Rows change at most from active to one of the two terminal states, and by one version. */
  ghost predicate RowStep(before: Reservation, after: Reservation)
  {
    || after == before
    || (before.state.Active? && !after.state.Active?
        && after == before.(state := after.state, entityVersion := before.entityVersion + 1))
  }

  ghost predicate RowsStep(l: Ledger, m: Ledger)
  {
    |l.rows| <= |m.rows| && forall i :: 0 <= i < |l.rows| ==> RowStep(l.rows[i], m.rows[i])
  }

  lemma {:induction false} ActiveSumFalls(rows: seq<Reservation>, after: seq<Reservation>)
    requires |rows| == |after|
    requires forall i :: 0 <= i < |rows| ==> RowStep(rows[i], after[i]) && rows[i].amountUsd >= 0.0
    ensures ActiveSum(after) <= ActiveSum(rows)
  {
    if rows != [] {
      var n := |rows| - 1;
      assert RowStep(rows[n], after[n]);
      ActiveSumFalls(rows[..n], after[..n]);
    }
  }

  lemma ApplySteps(l: Ledger, t: Timed)
    ensures RowsStep(l, Apply(l, t).0)
    ensures !t.op.OpReserve? ==> |Apply(l, t).0.rows| == |l.rows|
  {
  }

  predicate AmountNonNegative(t: Timed)
  {
    t.op.OpReserve? ==> t.op.request.amountUsd >= 0.0
  }

  lemma ApplyInv(l: Ledger, t: Timed)
    requires LedgerInv(l) && AmountNonNegative(t)
    ensures LedgerInv(Apply(l, t).0)
  {
    var m := Apply(l, t).0;
    ApplySteps(l, t);
    forall i | 0 <= i < |m.rows|
      ensures RowOk(m.rows[i]) && |m.outbox| == |m.rows| && m.outbox[i] == EventOf(i, m.rows[i])
    {
      if i < |l.rows| {
        assert RowOk(l.rows[i]) && RowStep(l.rows[i], m.rows[i]);
      }
    }
    forall i, j | 0 <= i < j < |m.rows| && m.rows[i].state.Active? && m.rows[j].state.Active?
      ensures m.rows[i].correlationId != m.rows[j].correlationId
    {
      assert RowStep(l.rows[i], m.rows[i]);
    }
  }

  /** Every reserve is checked against the same ceiling, and open-position notional never rises. */
  ghost predicate Disciplined(l: Ledger, t: Timed, ceiling: real)
  {
    && AmountNonNegative(t)
    && (t.op.OpReserve? && t.op.ceiling.Some? ==> t.op.ceiling.value == ceiling)
    && (t.op.OpPositions? ==> t.op.openPositionsUsd <= l.openPositionsUsd)
  }

  ghost predicate DisciplinedRun(l: Ledger, run: seq<Timed>, ceiling: real)
    decreases |run|
  {
    run != [] ==> Disciplined(l, run[0], ceiling) && DisciplinedRun(Apply(l, run[0]).0, run[1..], ceiling)
  }

  lemma ApplyUnderCeiling(l: Ledger, t: Timed, ceiling: real)
    requires LedgerInv(l) && Disciplined(l, t, ceiling) && ActiveTotal(l) <= ceiling
    ensures ActiveTotal(Apply(l, t).0) <= ceiling
  {
    var m := Apply(l, t).0;
    ApplySteps(l, t);
    if t.op.OpReserve? {
      if m != l {
        assert m.rows[..|m.rows| - 1] == l.rows;
      }
    } else {
      forall i | 0 <= i < |l.rows|
        ensures RowStep(l.rows[i], m.rows[i]) && l.rows[i].amountUsd >= 0.0
      {
        assert RowOk(l.rows[i]);
      }
      ActiveSumFalls(l.rows, m.rows);
    }
  }

  /** Ledger safety: active reservations and open positions together never exceed the ceiling; every
      reservation has its one CapitalReserved row, with the data it was made with; a version is 1 while
      the reservation is active and 2 from then on; and no correlation id is active twice. */
  lemma {:induction false} LedgerSafety(l: Ledger, run: seq<Timed>, ceiling: real)
    requires LedgerInv(l) && ActiveTotal(l) <= ceiling
    requires DisciplinedRun(l, run, ceiling)
    ensures LedgerInv(Run(l, run)) && ActiveTotal(Run(l, run)) <= ceiling
    ensures RowsStep(l, Run(l, run))
    decreases |run|
  {
    if run != [] {
      var m := Apply(l, run[0]).0;
      ApplyInv(l, run[0]);
      ApplySteps(l, run[0]);
      ApplyUnderCeiling(l, run[0], ceiling);
      LedgerSafety(m, run[1..], ceiling);
      RowsStepTrans(l, m, Run(l, run));
    }
  }

  lemma RowsStepTrans(l: Ledger, m: Ledger, n: Ledger)
    requires RowsStep(l, m) && RowsStep(m, n)
    ensures RowsStep(l, n)
  {
  }

  // ----- reserve with its retry -----

  /** `reserve`: on a unique violation, look the active row up and return it, or try once more.
      `between` is what other callers do between the failed attempt and the lookup, and `again` is the
      ceiling and time of the second attempt. */
  function Reserve(l: Ledger, request: ReserveRequest, ceiling: Option<real>, now: int, between: seq<Timed>,
                   againCeiling: Option<real>, againNow: int): (Ledger, Reply)
  {
    var (m, reply) := AttemptReserve(l, request, ceiling, now);
    if !reply.UniqueViolation? then (m, reply)
    else
      var later := Run(m, between);
      var existing := FindActive(later.rows, request.correlationId);
      if existing.Some? then (later, Row(existing.value, later.rows[existing.value]))
      else AttemptReserve(later, request, againCeiling, againNow)
  }

  /** A reserve that is repeated while its correlation id is active changes nothing. It returns the
      existing row if and only if the ceiling has room for the amount a second time; otherwise it is
      rejected at the ceiling (or by an unavailable limit), although the capital is already reserved. */
  lemma RetriedReserve(l: Ledger, request: ReserveRequest, ceiling: Option<real>, now: int, id: nat,
                       againCeiling: Option<real>, againNow: int)
    requires LedgerInv(l)
    requires id < |l.rows| && IsActiveFor(l.rows[id], request.correlationId)
    ensures var (m, reply) := Reserve(l, request, ceiling, now, [], againCeiling, againNow);
            && m == l
            && (reply == Row(id, l.rows[id]) <==> ceiling.Some? && ActiveTotal(l) + request.amountUsd <= ceiling.value)
            && (reply != Row(id, l.rows[id]) ==> reply == if ceiling.None? then LimitUnavailable else CeilingExceeded)
  {
  }

  /** With other callers in between, a reserve still returns a row that is active for its correlation id,
      or refuses. */
  lemma ReserveReturnsActiveRow(l: Ledger, request: ReserveRequest, ceiling: Option<real>, now: int,
                                between: seq<Timed>, againCeiling: Option<real>, againNow: int)
    ensures var (m, reply) := Reserve(l, request, ceiling, now, between, againCeiling, againNow);
            reply.Row? ==>
              && reply.id < |m.rows| && m.rows[reply.id] == reply.row
              && IsActiveFor(reply.row, request.correlationId)
  {
  }

  // ----- lazy expiry against the sweeper -----

  predicate IsQuery(t: Timed)
  {
    t.op.OpGet? || t.op.OpRelease?
  }

  function WithoutSweeps(run: seq<Timed>): seq<Timed>
  {
    if run == [] then []
    else if run[0].op.OpSweep? then WithoutSweeps(run[1..])
    else [run[0]] + WithoutSweeps(run[1..])
  }

  /** The answers to the queries of a run, in order. */
  function Answers(l: Ledger, run: seq<Timed>): seq<Reply>
    decreases |run|
  {
    if run == [] then []
    else
      var (m, reply) := Apply(l, run[0]);
      (if reply.Some? then [reply.value] else []) + Answers(m, run[1..])
  }

  /** `t` is `s` with some rows, all past their expiry before `now`, already materialized. */
  ghost predicate Ahead(s: Ledger, t: Ledger, now: int)
  {
    && |s.rows| == |t.rows|
    && forall i :: 0 <= i < |s.rows| ==>
         t.rows[i] == s.rows[i] || (s.rows[i].expiresAt < now && t.rows[i] == Materialized(s.rows[i], now))
  }

  lemma QueryAgrees(s: Ledger, t: Ledger, q: Timed, since: int)
    requires IsQuery(q) && since <= q.now && Ahead(s, t, since)
    ensures Apply(s, q).1 == Apply(t, q).1
    ensures Ahead(Apply(s, q).0, Apply(t, q).0, q.now)
  {
  }

  lemma SweepRunsAhead(s: Ledger, t: Ledger, now: int, since: int)
    requires since <= now && Ahead(s, t, since)
    ensures Ahead(s, Sweep(t, now), now)
  {
  }

  /** Lazy and swept expiry agree. Under a monotone clock, sweeps inserted anywhere into a run of reads and
      releases change none of the answers: not a state, not a version, not a success or a conflict. */
  lemma {:induction false} SweepsChangeNoAnswer(s: Ledger, t: Ledger, run: seq<Timed>, since: int)
    requires Monotone(run) && (run != [] ==> since <= run[0].now)
    requires forall i :: 0 <= i < |run| ==> IsQuery(run[i]) || run[i].op.OpSweep?
    requires Ahead(s, t, since)
    ensures Answers(t, run) == Answers(s, WithoutSweeps(run))
    ensures var end := if run == [] then since else run[|run| - 1].now;
            Ahead(Run(s, WithoutSweeps(run)), Run(t, run), end)
    decreases |run|
  {
    if run != [] {
      var q := run[0];
      assert IsQuery(q) || q.op.OpSweep?;
      if q.op.OpSweep? {
        SweepRunsAhead(s, t, q.now, since);
        SweepsChangeNoAnswer(s, Sweep(t, q.now), run[1..], q.now);
      } else {
        QueryAgrees(s, t, q, since);
        SweepsChangeNoAnswer(Apply(s, q).0, Apply(t, q).0, run[1..], q.now);
        var rest := WithoutSweeps(run[1..]);
        assert WithoutSweeps(run)[1..] == rest;
      }
    }
  }

  /** The swept and the unswept run from the same ledger: same answers, and the sum the reserve gate sees is
      never higher with sweeps. */
  lemma LazyAndSweptAgree(l: Ledger, run: seq<Timed>)
    requires LedgerInv(l) && Monotone(run)
    requires forall i :: 0 <= i < |run| ==> IsQuery(run[i]) || run[i].op.OpSweep?
    ensures Answers(l, run) == Answers(l, WithoutSweeps(run))
    ensures ActiveSum(Run(l, run).rows) <= ActiveSum(Run(l, WithoutSweeps(run)).rows)
  {
    var since := if run == [] then 0 else run[0].now;
    SweepsChangeNoAnswer(l, l, run, since);
    var lazy, swept := Run(l, WithoutSweeps(run)), Run(l, run);
    QueriesKeepInv(l, run);
    forall i | 0 <= i < |lazy.rows|
      ensures RowStep(lazy.rows[i], swept.rows[i]) && lazy.rows[i].amountUsd >= 0.0
    {
      assert RowOk(lazy.rows[i]);
    }
    ActiveSumFalls(lazy.rows, swept.rows);
  }

  lemma {:induction false} QueriesKeepInv(l: Ledger, run: seq<Timed>)
    requires LedgerInv(l)
    requires forall i :: 0 <= i < |run| ==> IsQuery(run[i]) || run[i].op.OpSweep?
    ensures LedgerInv(Run(l, WithoutSweeps(run)))
    decreases |run|
  {
    if run != [] {
      assert IsQuery(run[0]) || run[0].op.OpSweep?;
      if run[0].op.OpSweep? {
        QueriesKeepInv(l, run[1..]);
      } else {
        ApplyInv(l, run[0]);
        assert WithoutSweeps(run)[1..] == WithoutSweeps(run[1..]);
        QueriesKeepInv(Apply(l, run[0]).0, run[1..]);
      }
    }
  }

  // ----- repeated releases -----

  /** The reservation needs no release any more: it is terminal, or past its expiry. */
  predicate Settled(l: Ledger, id: nat, now: int)
  {
    id < |l.rows| && (!l.rows[id].state.Active? || l.rows[id].expiresAt <= now)
  }

  lemma ReleaseSettles(l: Ledger, id: nat, now: int)
    ensures Release(l, id, now).1 != NotFound ==> Settled(Release(l, id, now).0, id, now)
    ensures Settled(l, id, now) ==> Release(l, id, now).0 == l
  {
  }

  lemma SettledStays(l: Ledger, t: Timed, id: nat, since: int)
    requires Settled(l, id, since) && since <= t.now
    ensures Settled(Apply(l, t).0, id, t.now)
  {
  }

  /** A run in which some releases are marked as repeats. */
  datatype Tagged = Tagged(timed: Timed, isRepeat: bool)

  function AllOps(tagged: seq<Tagged>): seq<Timed>
  {
    if tagged == [] then [] else [tagged[0].timed] + AllOps(tagged[1..])
  }

  function Originals(tagged: seq<Tagged>): seq<Timed>
  {
    if tagged == [] then []
    else if tagged[0].isRepeat then Originals(tagged[1..])
    else [tagged[0].timed] + Originals(tagged[1..])
  }

  /** Every repeat is a release whose reservation an earlier original release has found. */
  ghost predicate RepeatsReleased(l: Ledger, tagged: seq<Tagged>, released: set<nat>)
    decreases |tagged|
  {
    if tagged == [] then true
    else
      var t := tagged[0].timed;
      if tagged[0].isRepeat then
        t.op.OpRelease? && t.op.id in released && RepeatsReleased(l, tagged[1..], released)
      else
        RepeatsReleased(Apply(l, t).0, tagged[1..],
                        released + if t.op.OpRelease? && t.op.id < |l.rows| then {t.op.id} else {})
  }

  ghost predicate MonotoneTagged(tagged: seq<Tagged>, since: int)
  {
    && (forall i :: 0 <= i < |tagged| ==> since <= tagged[i].timed.now)
    && (forall i, j :: 0 <= i < j < |tagged| ==> tagged[i].timed.now <= tagged[j].timed.now)
  }

  /** Delivering a release again, at any later times and in any number, leaves the ledger exactly as
      delivering it once does, whatever else runs in between. */
  lemma {:induction false} RepeatedReleasesChangeNothing(l: Ledger, tagged: seq<Tagged>, released: set<nat>, since: int)
    requires MonotoneTagged(tagged, since)
    requires forall id :: id in released ==> Settled(l, id, since)
    requires RepeatsReleased(l, tagged, released)
    ensures Run(l, AllOps(tagged)) == Run(l, Originals(tagged))
    decreases |tagged|
  {
    if tagged != [] {
      var t := tagged[0].timed;
      assert AllOps(tagged)[1..] == AllOps(tagged[1..]);
      assert since <= t.now;
      assert MonotoneTagged(tagged[1..], t.now);
      if tagged[0].isRepeat {
        assert Settled(l, t.op.id, since);
        ReleaseSettles(l, t.op.id, t.now);
        RepeatedReleasesChangeNothing(l, tagged[1..], released, t.now);
      } else {
        var m := Apply(l, t).0;
        var more := released + if t.op.OpRelease? && t.op.id < |l.rows| then {t.op.id} else {};
        forall id | id in more
          ensures Settled(m, id, t.now)
        {
          if id in released {
            SettledStays(l, t, id, since);
          } else {
            ReleaseSettles(l, id, t.now);
          }
        }
        assert Originals(tagged)[1..] == Originals(tagged[1..]);
        RepeatedReleasesChangeNothing(m, tagged[1..], more, t.now);
      }
    }
  }
}
