/** The settlement relay as the worker runs it, against receivers that change in place. */
module SettlementRelay {
  import opened Prelude
  import opened Settlement
  import CapitalService

  class PositionsService {
    var positions: map<PositionKey, Position>
    var confirmations: set<Confirmation>

    constructor ()
      ensures View() == Portfolio(map[], {})
    {
      positions, confirmations := map[], {};
    }

    ghost function View(): Portfolio
      reads this
    {
      Portfolio(positions, confirmations)
    }

    /** Creates the position on its first fill, then adds to it; a fill confirmed before is skipped. When the
        quantity cannot be added, the position just created is undone with everything else. */
    method ConfirmFill(request: ConfirmFill) returns (threw: bool)
      modifies this
      ensures View() == ApplyConfirmFill(old(View()), request)
      ensures threw <==> ConfirmThrows(old(View()), request)
    {
      threw := false;
      var confirmation := Confirmation(request.legId, request.idempotencyKey);
      if confirmation in confirmations {
        return;
      }
      var undo := positions;
      var key := PositionKey(request.planId, request.instrumentKey);
      if key !in positions {
        positions := positions[key := NO_POSITION];
      }
      if !IsStorable(request.quantity) {
        positions := undo;
        return true;
      }
      var pos := positions[key];
      positions := positions[key := Position(pos.quantity + request.quantity,
                                             pos.notionalUsd + request.notionalUsd,
                                             pos.entityVersion + 1)];
      assert positions == undo[key := positions[key]];
      confirmations := confirmations + {confirmation};
    }
  }

  class SettlementRelayWorker {
    const capital: CapitalService.CapitalService
    const portfolio: PositionsService
    const validation: bool
    var rows: seq<Row>
    var now: int
    var isShuttingDown: bool

    constructor (capital: CapitalService.CapitalService, portfolio: PositionsService, validation: bool, now: int)
      ensures this.capital == capital && this.portfolio == portfolio && !isShuttingDown
      ensures View() == State([], capital.View(), portfolio.View(), validation, now)
    {
      this.capital, this.portfolio, this.validation := capital, portfolio, validation;
      this.rows, this.now, this.isShuttingDown := [], now, false;
    }

    ghost function View(): State
      reads this, capital, portfolio
    {
      State(rows, capital.View(), portfolio.View(), validation, now)
    }

    /** A request reaches its receiver. */
    method Send(content: Content, oracleUsd: real) returns (status: Status)
      modifies capital, portfolio
      ensures (View(), status) == Serve(old(View()), content, oracleUsd)
    {
      match content {
        case LegFilled(_, _, _, _, _) =>
          var request := RequestOf(content, oracleUsd);
          if validation && !ValidConfirmFill(request) {
            return BadRequest;
          }
          var threw := portfolio.ConfirmFill(request);
          return if threw then ServerError else Ok;
        case PlanEnded(reservationId) =>
          if reservationId.None? {
            return Ok;
          }
          var reply := capital.Release(reservationId.value, now);
          return CapitalStatus(reply);
      }
    }

    /** Up to four attempts; a transient answer is retried, anything else is final. */
    method FetchWithRetry(content: Content, attempts: seq<Attempt>) returns (reply: Reply)
      requires |attempts| == 4
      modifies this`now, capital, portfolio
      ensures (View(), reply) == Settlement.FetchWithRetry(old(View()), content, attempts)
    {
      reply := Transient;
      for i := 0 to RETRIES
        invariant reply == Transient
        invariant Settlement.FetchWithRetry(View(), content, attempts[i..])
               == Settlement.FetchWithRetry(old(View()), content, attempts)
      {
        ghost var before := View();
        var attempt := attempts[i];
        assert attempts[i..][0] == attempt && attempts[i..][1..] == attempts[i + 1..];
        now := now + attempt.wait;
        var status := BadRequest;
        if attempt.net.Answered? || attempt.net.served {
          status := Send(content, attempt.oracleUsd);
        }
        assert View() == Exchange(before, content, attempt);
        match attempt.net {
          case Answered => return Response(status);
          case Lost(_) => return Threw;
          case Busy(_) =>
        }
      }
      assert attempts[RETRIES..] == [];
    }

    method Deliver(content: Content, attempts: seq<Attempt>) returns (ok: bool)
      requires |attempts| == 4
      modifies this`now, capital, portfolio
      ensures (View(), ok) == Settlement.Deliver(old(View()), content, attempts)
    {
      if content == PlanEnded(None) {
        return true;
      }
      var reply := FetchWithRetry(content, attempts);
      return reply.Response? && Succeeds(content, reply.status);
    }

    /** One drain over at most `|fates|` rows. A row is marked in a transaction of its own, after its
        delivery; when that fails the drain ends. */
    method DrainBatch(fates: seq<Fate>) returns (delivered: nat)
      requires forall k :: 0 <= k < |fates| ==> |fates[k].attempts| == 4
      modifies this`rows, this`now, capital, portfolio
      ensures if old(isShuttingDown) then View() == old(View()) && delivered == 0
              else (View(), delivered) == Settlement.DrainBatch(old(View()), fates)
    {
      delivered := 0;
      if isShuttingDown {
        return;
      }
      var batch := Batch(rows, |fates|);
      ghost var result := Settlement.DrainBatch(View(), fates);
      for i := 0 to |batch|
        invariant |rows| == |old(rows)|
        invariant Rest(View(), batch, fates, i, delivered) == result
      {
        RestUnfolds(View(), batch, fates, i, delivered);
        var ok := DrainRow(batch[i], fates[i]);
        if ok {
          if !fates[i].markCommits {
            return;
          }
          delivered := delivered + 1;
        }
      }
    }

    /** Delivers one row and, if that works and the mark commits, marks it. */
    method DrainRow(id: nat, fate: Fate) returns (ok: bool)
      requires id < |rows| && |fate.attempts| == 4
      modifies this`rows, this`now, capital, portfolio
      ensures |rows| == |old(rows)|
      ensures var (t, done) := Settlement.Deliver(old(View()), old(rows)[id].content, fate.attempts);
              ok == done && View() == AfterRow(t, id, ok && fate.markCommits)
    {
      DeliverKeepsRows(View(), rows[id].content, fate.attempts);
      ok := Deliver(rows[id].content, fate.attempts);
      if ok && fate.markCommits {
        rows := rows[id := rows[id].(processed := true)];
      }
    }
  }

  ghost function AfterRow(t: State, id: nat, mark: bool): State
  {
    if mark && id < |t.rows| then Mark(t, id) else t
  }

  /** What a drain that has done the first `i` rows of its batch, `delivered` of them with success, still
      comes to. */
  ghost function Rest(s: State, batch: seq<nat>, fates: seq<Fate>, i: nat, delivered: nat): (State, nat)
    requires i <= |batch| <= |fates|
    requires forall k :: 0 <= k < |batch| ==> batch[k] < |s.rows|
  {
    var (end, n) := DrainRows(s, batch[i..], fates[i..]);
    (end, delivered + n)
  }

  lemma RestUnfolds(s: State, batch: seq<nat>, fates: seq<Fate>, i: nat, delivered: nat)
    requires i < |batch| <= |fates|
    requires forall k :: 0 <= k < |batch| ==> batch[k] < |s.rows|
    ensures var (t, ok) := Settlement.Deliver(s, s.rows[batch[i]].content, fates[i].attempts);
            var u := AfterRow(t, batch[i], ok && fates[i].markCommits);
            && |t.rows| == |s.rows| && |u.rows| == |s.rows|
            && Rest(s, batch, fates, i, delivered) ==
               if ok && !fates[i].markCommits then (u, delivered)
               else Rest(u, batch, fates, i + 1, if ok then delivered + 1 else delivered)
  {
    assert batch[i..][0] == batch[i] && batch[i..][1..] == batch[i + 1..];
    assert fates[i..][0] == fates[i] && fates[i..][1..] == fates[i + 1..];
    DeliverKeepsRows(s, s.rows[batch[i]].content, fates[i].attempts);
  }
}
