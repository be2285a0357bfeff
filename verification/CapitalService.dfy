/** The capital service as objects updated in place: the loaded entity, the tables, and the sweeper. */
module CapitalService {
  import opened Prelude
  import opened CapitalLedger

  /** A reservation row loaded into memory. Changes reach the table only when it is saved. */
  class ReservationEntity {
    const correlationId: nat
    const amountUsd: real
    const expiresAt: int
    var state: State
    var entityVersion: int

    constructor (row: Reservation)
      ensures View() == row
    {
      correlationId, amountUsd, expiresAt := row.correlationId, row.amountUsd, row.expiresAt;
      state, entityVersion := row.state, row.entityVersion;
    }

    function View(): Reservation
      reads this
    {
      Reservation(correlationId, amountUsd, state, expiresAt, entityVersion)
    }
  }

  /** Lazy expiry of a loaded row; says whether the caller has something to save. */
  method MaterializeCapitalReservationExpiryIfNeeded(row: ReservationEntity, now: int) returns (mutated: bool)
    modifies row
    ensures row.View() == Materialized(old(row.View()), now)
    ensures mutated <==> row.View() != old(row.View())
  {
    if row.state != Active {
      return false;
    }
    if row.expiresAt > now {
      return false;
    }
    row.state := Expired;
    row.entityVersion := row.entityVersion + 1;
    return true;
  }

  class CapitalService {
    var rows: seq<Reservation>
    var outbox: seq<CapitalReserved>
    var openPositionsUsd: real

    constructor (ledger: Ledger)
      ensures View() == ledger
    {
      rows, outbox, openPositionsUsd := ledger.rows, ledger.outbox, ledger.openPositionsUsd;
    }

    ghost function View(): Ledger
      reads this
    {
      Ledger(rows, outbox, openPositionsUsd)
    }

    method AttemptReserve(request: ReserveRequest, ceiling: Option<real>, now: int) returns (reply: Reply)
      modifies this
      ensures (View(), reply) == CapitalLedger.AttemptReserve(old(View()), request, ceiling, now)
    {
      if ceiling.None? {
        return LimitUnavailable;
      }
      var activeTotal := ActiveSum(rows) + openPositionsUsd;
      if activeTotal + request.amountUsd > ceiling.value {
        return CeilingExceeded;
      }
      if FindActive(rows, request.correlationId).Some? {
        return UniqueViolation;
      }
      var row := NewReservation(request, now);
      var id := |rows|;
      rows := rows + [row];
      outbox := outbox + [EventOf(id, row)];
      return Row(id, row);
    }

    /** Whatever other callers commit between the failed attempt and the lookup. */
    method OtherCallers(run: seq<Timed>)
      modifies this
      ensures View() == Run(old(View()), run)
    {
      for i := 0 to |run|
        invariant Run(View(), run[i..]) == Run(old(View()), run)
      {
        assert run[i..][0] == run[i] && run[i..][1..] == run[i + 1..];
        match run[i].op {
          case OpReserve(request, ceiling) => var _ := AttemptReserve(request, ceiling, run[i].now);
          case OpGet(id) => var _ := GetById(id, run[i].now);
          case OpRelease(id) => var _ := Release(id, run[i].now);
          case OpSweep => var _ := ExpireStale(run[i].now);
          case OpPositions(usd) => openPositionsUsd := usd;
        }
      }
      assert run[|run|..] == [];
    }

    method Reserve(request: ReserveRequest, ceiling: Option<real>, now: int, between: seq<Timed>,
                   againCeiling: Option<real>, againNow: int) returns (reply: Reply)
      modifies this
      ensures (View(), reply)
           == CapitalLedger.Reserve(old(View()), request, ceiling, now, between, againCeiling, againNow)
    {
      reply := AttemptReserve(request, ceiling, now);
      if reply.UniqueViolation? {
        OtherCallers(between);
        var existing := FindActive(rows, request.correlationId);
        if existing.Some? {
          return Row(existing.value, rows[existing.value]);
        }
        reply := AttemptReserve(request, againCeiling, againNow);
      }
    }

    method GetById(id: nat, now: int) returns (reply: Reply)
      modifies this`rows
      ensures (View(), reply) == CapitalLedger.GetById(old(View()), id, now)
    {
      if id >= |rows| {
        return NotFound;
      }
      var row := new ReservationEntity(rows[id]);
      var mutated := MaterializeCapitalReservationExpiryIfNeeded(row, now);
      if mutated {
        rows := rows[id := row.View()];
      } else {
        assert rows == rows[id := row.View()];
      }
      return Row(id, row.View());
    }

    /** The save of an expired row is undone by the exception that follows it. */
    method Release(id: nat, now: int) returns (reply: Reply)
      modifies this`rows
      ensures (View(), reply) == CapitalLedger.Release(old(View()), id, now)
    {
      if id >= |rows| {
        return NotFound;
      }
      var saved := rows;
      var row := new ReservationEntity(rows[id]);
      if row.state == Released {
        return Row(id, row.View());
      }
      if row.state != Active {
        return Conflict;
      }
      var mutated := MaterializeCapitalReservationExpiryIfNeeded(row, now);
      if mutated {
        rows := rows[id := row.View()];
        rows := saved;
        return Conflict;
      }
      row.state := Released;
      row.entityVersion := row.entityVersion + 1;
      rows := rows[id := row.View()];
      return Row(id, row.View());
    }

    /** The sweeper's UPDATE; returns how many rows it changed. */
    method ExpireStale(now: int) returns (changed: nat)
      modifies this`rows
      ensures View() == Sweep(old(View()), now)
      ensures changed == |set i | 0 <= i < |rows| && rows[i] != old(rows)[i]|
    {
      var before := rows;
      var stale := set i | 0 <= i < |before| && before[i].state.Active? && before[i].expiresAt < now;
      rows := seq(|before|, i requires 0 <= i < |before| => SweptRow(before[i], now));
      assert stale == set i | 0 <= i < |rows| && rows[i] != before[i];
      return |stale|;
    }
  }

  class CapitalReservationSweeperWorker {
    var isRunning: bool
    var isShuttingDown: bool

    constructor ()
      ensures !isRunning && !isShuttingDown
    {
      isRunning, isShuttingDown := false, false;
    }

    /** Does nothing while another sweep runs or the worker shuts down. `fails` says that the transaction
        throws, which is reported as no row changed. */
    method RunSweep(service: CapitalService, now: int, fails: bool) returns (expired: nat)
      modifies this, service
      ensures isRunning == old(isRunning) && isShuttingDown == old(isShuttingDown)
      ensures var sweeps := !old(isRunning) && !old(isShuttingDown) && !fails;
              service.View() == if sweeps then Sweep(old(service.View()), now) else old(service.View())
      ensures |service.rows| == |old(service.rows)|
              && expired == |set i | 0 <= i < |service.rows| && service.rows[i] != old(service.rows)[i]|
    {
      assert (set i | 0 <= i < |service.rows| && service.rows[i] != old(service.rows)[i]) == {};
      if isRunning {
        return 0;
      }
      if isShuttingDown {
        return 0;
      }
      isRunning := true;
      expired := 0;
      if !fails {
        expired := service.ExpireStale(now);
      }
      isRunning := false;
    }
  }
}
