/** Delivery of settlement outbox rows to the capital and portfolio services
    (settlement-relay.worker.ts, fill-outbound.service.ts, positions.service.ts). This file says what one
    request, one row and one drain do; SettlementProtocol.dfy lets drains overlap and crash. */
module Settlement {
  import opened Prelude
  import Capital = CapitalLedger
  import opened Uuid

  /** The token that a fill is priced by. */
  datatype Token = Token(chainId: int, address: string)

  /** A settlement row: LegFilled, or PlanCompleted and PlanFailed, which are settled alike. A string that
      is absent from the payload is read as the empty string; a fill has a token only if its payload names
      chain and token at its top level. */
  datatype Content =
    | LegFilled(planId: nat, legId: string, instrumentKey: string, quantity: real, token: Option<Token>)
    | PlanEnded(reservationId: Option<nat>)

  datatype Row = Row(content: Content, processed: bool)

  datatype PositionKey = PositionKey(planId: nat, instrumentKey: string)
  datatype Position = Position(quantity: real, notionalUsd: real, entityVersion: nat)
  datatype Confirmation = Confirmation(legId: string, idempotencyKey: string)
  datatype Portfolio = Portfolio(positions: map<PositionKey, Position>, confirmations: set<Confirmation>)

  datatype ConfirmFill = ConfirmFill(
    planId: nat,
    legId: string,
    instrumentKey: string,
    quantity: real,
    notionalUsd: real,
    idempotencyKey: string)

  /** The settlement rows, both receivers and the clock. `validation` says whether the portfolio service
      validates request bodies, as its entry point sets it up to do. */
  datatype State = State(rows: seq<Row>, ledger: Capital.Ledger, portfolio: Portfolio, validation: bool, now: int)

  datatype Status = Ok | BadRequest | NotFound | Conflict | ServerError

  // ----- the portfolio service -----

  /** A version 4 UUID in its text form. */
  predicate IsUuid4(s: string)
  {
    && |s| == 36
    && (forall i :: 0 <= i < 36 ==> if i in {8, 13, 18, 23} then s[i] == '-' else IsHex(s[i]))
    && s[14] == '4' && s[19] in "89abAB"
  }

  /** The constraints on the body of a confirm-fill request that its sender may break. */
  predicate ValidConfirmFill(request: ConfirmFill)
  {
    1 <= |request.instrumentKey| <= 512 && IsUuid4(request.idempotencyKey)
  }

  /** The quantity can be added to a position: it is written without an exponent, and alone does not exceed
      the 20 digits before the point that the column has room for. */
  predicate IsStorable(quantity: real)
  {
    quantity == 0.0 || 0.000001 <= quantity < 100_000_000_000_000_000_000.0
  }

  const NO_POSITION := Position(0.0, 0.0, 1)

  function PositionAt(p: Portfolio, key: PositionKey): Position
  {
    if key in p.positions then p.positions[key] else NO_POSITION
  }

  predicate IsConfirmed(p: Portfolio, request: ConfirmFill)
  {
    Confirmation(request.legId, request.idempotencyKey) in p.confirmations
  }

  /** The transaction throws, on a quantity that was not confirmed before. */
  predicate ConfirmThrows(p: Portfolio, request: ConfirmFill)
  {
    !IsConfirmed(p, request) && !IsStorable(request.quantity)
  }

  function ApplyConfirmFill(p: Portfolio, request: ConfirmFill): Portfolio
  {
    if IsConfirmed(p, request) || ConfirmThrows(p, request) then p
    else
      var key := PositionKey(request.planId, request.instrumentKey);
      var was := PositionAt(p, key);
      Portfolio(
        p.positions[key := Position(was.quantity + request.quantity, was.notionalUsd + request.notionalUsd,
                                    was.entityVersion + 1)],
        p.confirmations + {Confirmation(request.legId, request.idempotencyKey)})
  }

  // ----- one request -----

  function IdempotencyKey(legId: string): string
  {
    "portfolio:fill:" + legId
  }

  function ConfirmationOf(legId: string): Confirmation
  {
    Confirmation(legId, IdempotencyKey(legId))
  }

  /** `priceFillNotional`: without a token nothing is priced, and a price that is not positive counts as
      none. */
  function FillNotional(token: Option<Token>, oracleUsd: real): real
  {
    if token.None? || oracleUsd <= 0.0 then 0.0 else oracleUsd
  }

  function RequestOf(content: Content, oracleUsd: real): ConfirmFill
    requires content.LegFilled?
  {
    ConfirmFill(content.planId, content.legId, content.instrumentKey, content.quantity,
                FillNotional(content.token, oracleUsd), IdempotencyKey(content.legId))
  }

  function CapitalStatus(reply: Capital.Reply): Status
  {
    match reply
    case NotFound => NotFound
    case Conflict => Conflict
    case _ => Ok
  }

  /** What a receiver does with the request for a row, and how it answers. */
  function Serve(s: State, content: Content, oracleUsd: real): (State, Status)
  {
    match content
    case LegFilled(_, _, _, _, _) =>
      var request := RequestOf(content, oracleUsd);
      if s.validation && !ValidConfirmFill(request) then (s, BadRequest)
      else if ConfirmThrows(s.portfolio, request) then (s, ServerError)
      else (s.(portfolio := ApplyConfirmFill(s.portfolio, request)), Ok)
    case PlanEnded(None) => (s, Ok)
    case PlanEnded(Some(id)) =>
      var (ledger, reply) := Capital.Release(s.ledger, id, s.now);
      (s.(ledger := ledger), CapitalStatus(reply))
  }

  /** 409 means that the reservation is terminal already, which is what a release is for. */
  predicate Succeeds(content: Content, status: Status)
  {
    status.Ok? || (content.PlanEnded? && status.Conflict?)
  }

  /** What a fill that is not validated does: nothing if it was confirmed before; an error, and nothing else, if its
      quantity cannot be added; and otherwise it adds to its one position, created empty if need be, under one more
      version, and is confirmed under the key of its leg. */
  lemma FillServed(s: State, content: Content, oracleUsd: real)
    requires content.LegFilled? && !s.validation
    ensures var (t, status) := Serve(s, content, oracleUsd);
            var key := PositionKey(content.planId, content.instrumentKey);
            var confirmation := Confirmation(content.legId, "portfolio:fill:" + content.legId);
            if confirmation in s.portfolio.confirmations then t == s && status == Ok
            else if !IsStorable(content.quantity) then t == s && status == ServerError
            else
              var was := if key in s.portfolio.positions then s.portfolio.positions[key] else Position(0.0, 0.0, 1);
              var usd := if content.token.Some? && oracleUsd > 0.0 then oracleUsd else 0.0;
              && status == Ok
              && t == s.(portfolio := Portfolio(
                   s.portfolio.positions[key := Position(was.quantity + content.quantity, was.notionalUsd + usd,
                                                         was.entityVersion + 1)],
                   s.portfolio.confirmations + {confirmation}))
  {
  }

  /** A validated fill changes nothing unless its key is a UUID and it names an instrument. */
  lemma ValidationRefuses(s: State, content: Content, oracleUsd: real)
    requires content.LegFilled? && s.validation
    ensures Serve(s, content, oracleUsd) == (s, BadRequest)
  {
    FillKeyIsNoUuid(content.legId);
  }

  /** A release frees the reservation, or is refused, as the capital service has it. */
  lemma ReleaseServed(s: State, id: nat, oracleUsd: real)
    ensures var (t, status) := Serve(s, PlanEnded(Some(id)), oracleUsd);
            var known := id < |s.ledger.rows|;
            && (!known ==> t == s && status == NotFound)
            && (known && s.ledger.rows[id].state == Capital.Active && s.now < s.ledger.rows[id].expiresAt ==>
                  && status == Ok && |t.ledger.rows| == |s.ledger.rows| && t.ledger.rows[id].state == Capital.Released
                  && t == s.(ledger := s.ledger.(rows := s.ledger.rows[id := t.ledger.rows[id]])))
            && (known && s.ledger.rows[id].state == Capital.Released ==> t == s && status == Ok)
            && (known && s.ledger.rows[id].state != Capital.Released
                && !(s.ledger.rows[id].state == Capital.Active && s.now < s.ledger.rows[id].expiresAt) ==>
                  t == s && status == Conflict)
  {
  }

  /** Where the bounds on a quantity lie. */
  lemma StorableBounds()
    ensures IsStorable(0.0) && IsStorable(0.000001) && IsStorable(10.0) && IsStorable(99_999_999_999_999_999_999.0)
    ensures !IsStorable(0.0000009) && !IsStorable(100_000_000_000_000_000_000.0) && !IsStorable(-1.0)
  {
  }

  /** A version 4 UUID has its hyphens, its version and its variant in place, and hexadecimal digits elsewhere. */
  lemma Uuid4Shape(s: string, i: nat)
    requires IsUuid4(s)
    ensures |s| == 36 && s[8] == '-' && s[13] == '-' && s[18] == '-' && s[23] == '-' && s[14] == '4'
    ensures s[19] == '8' || s[19] == '9' || s[19] == 'a' || s[19] == 'b' || s[19] == 'A' || s[19] == 'B'
    ensures i < 36 && s[i] != '-' ==> s[i] in "0123456789abcdefABCDEF"
  {
    if i < 36 {
      HexDigits(s[i]);
    }
  }

  /** A request with a version 4 UUID for its key is valid as soon as its instrument key has 1 to 512 characters. */
  lemma WellFormedFillIsValid(request: ConfirmFill)
    requires request.idempotencyKey == "123e4567-e89b-42d3-a456-426614174000"
    ensures ValidConfirmFill(request) <==> request.instrumentKey != "" && |request.instrumentKey| <= 512
  {
  }

  // ----- one row, with retries -----

  /** How a request fares on the network: answered, answered by a transient error, or failed; the latter
      two with or without having been served. */
  datatype Net = Answered | Busy(served: bool) | Lost(served: bool)

  /** One attempt: the time that passes before it, how it fares, and what the price oracle makes of the fill. */
  datatype Attempt = Attempt(wait: nat, net: Net, oracleUsd: real)

  datatype Reply = Response(status: Status) | Transient | Threw

  const RETRIES: nat := 4

  /** The state once the attempt is over, whatever the sender learns of it. */
  function Exchange(s: State, content: Content, attempt: Attempt): State
  {
    var later := s.(now := s.now + attempt.wait);
    if attempt.net.Answered? || attempt.net.served then Serve(later, content, attempt.oracleUsd).0 else later
  }

  /** `fetchWithRetry`: again while the answer is transient, up to the number of attempts. */
  function FetchWithRetry(s: State, content: Content, attempts: seq<Attempt>): (State, Reply)
    decreases |attempts|
  {
    if attempts == [] then (s, Transient)
    else
      var t := Exchange(s, content, attempts[0]);
      match attempts[0].net
      case Answered => (t, Response(Serve(s.(now := s.now + attempts[0].wait), content, attempts[0].oracleUsd).1))
      case Busy(_) => FetchWithRetry(t, content, attempts[1..])
      case Lost(_) => (t, Threw)
  }

  /** `deliver`: a plan without a reservation needs no request. */
  function Deliver(s: State, content: Content, attempts: seq<Attempt>): (State, bool)
  {
    if content == PlanEnded(None) then (s, true)
    else
      var (t, reply) := FetchWithRetry(s, content, attempts);
      (t, reply.Response? && Succeeds(content, reply.status))
  }

  /** A request is served whether its answer arrives or is lost on the way back, and not when it is lost on the way
      there; time passes in any case. */
  lemma ExchangeOutcome(s: State, content: Content, attempt: Attempt)
    ensures var later := s.(now := s.now + attempt.wait);
            var served := Serve(later, content, attempt.oracleUsd).0;
            Exchange(s, content, attempt) ==
            match attempt.net
            case Answered => served
            case Busy(wasServed) => if wasServed then served else later
            case Lost(wasServed) => if wasServed then served else later
  {
  }

  /** A row is delivered if and only if it needs no request, or the receiver answers with success, or, to a release,
      with a conflict. */
  lemma DeliveredIff(s: State, content: Content, attempts: seq<Attempt>)
    ensures var reply := FetchWithRetry(s, content, attempts).1;
            Deliver(s, content, attempts).1 <==>
              || content == PlanEnded(None)
              || reply == Response(Ok)
              || (content.PlanEnded? && reply == Response(Conflict))
    ensures content == PlanEnded(None) ==> Deliver(s, content, attempts).0 == s
    ensures content != PlanEnded(None) ==>
              Deliver(s, content, attempts).0 == FetchWithRetry(s, content, attempts).0
  {
    if attempts != [] && content == PlanEnded(None) {
      assert Serve(s, content, attempts[0].oracleUsd) == (s, Ok);
    }
  }

  // ----- one drain -----

  /** Ids of the rows from id `from` on that are not processed. */
  function OpenFrom(rows: seq<Row>, from: nat): (ids: seq<nat>)
    requires from <= |rows|
    ensures forall k :: 0 <= k < |ids| ==> from <= ids[k] < |rows| && !rows[ids[k]].processed
    ensures forall i :: from <= i < |rows| && !rows[i].processed ==> i in ids
    ensures forall j, k :: 0 <= j < k < |ids| ==> ids[j] < ids[k]
    decreases |rows| - from
  {
    if from == |rows| then []
    else if !rows[from].processed then [from] + OpenFrom(rows, from + 1)
    else OpenFrom(rows, from + 1)
  }

  /** The batch: the oldest rows that are not processed, up to the batch size. */
  function Batch(rows: seq<Row>, limit: nat): (ids: seq<nat>)
    ensures |ids| <= limit
    ensures forall k :: 0 <= k < |ids| ==> ids[k] < |rows| && !rows[ids[k]].processed
    ensures forall j, k :: 0 <= j < k < |ids| ==> ids[j] < ids[k]
    ensures forall k, i :: 0 <= k < |ids| && 0 <= i < ids[k] && !rows[i].processed ==> i in ids
    ensures |ids| < limit ==> forall i :: 0 <= i < |rows| && !rows[i].processed ==> i in ids
  {
    var all := OpenFrom(rows, 0);
    if |all| <= limit then all else all[..limit]
  }

  /** What may happen to the row at one place of the batch. */
  datatype Fate = Fate(attempts: seq<Attempt>, markCommits: bool)

  function Mark(s: State, id: nat): State
    requires id < |s.rows|
  {
    s.(rows := s.rows[id := s.rows[id].(processed := true)])
  }

  /** The rows of a batch in turn. A failed delivery leaves its row for a later drain; a failed mark ends
      the drain. Returns how many rows were delivered. */
  function DrainRows(s: State, ids: seq<nat>, fates: seq<Fate>): (State, nat)
    requires |ids| <= |fates|
    requires forall k :: 0 <= k < |ids| ==> ids[k] < |s.rows|
    decreases |ids|
  {
    if ids == [] then (s, 0)
    else
      var (t, ok) := Deliver(s, s.rows[ids[0]].content, fates[0].attempts);
      DeliverKeepsRows(s, s.rows[ids[0]].content, fates[0].attempts);
      if !ok then DrainRows(t, ids[1..], fates[1..])
      else if !fates[0].markCommits then (t, 0)
      else
        var (u, n) := DrainRows(Mark(t, ids[0]), ids[1..], fates[1..]);
        (u, n + 1)
  }

  /** `drainBatch`, with one fate for every place of the batch. */
  function DrainBatch(s: State, fates: seq<Fate>): (State, nat)
  {
    DrainRows(s, Batch(s.rows, |fates|), fates)
  }

  /** Requests change the receivers, never the rows; the clock never goes back. */
  lemma {:induction false} FetchKeepsRows(s: State, content: Content, attempts: seq<Attempt>)
    ensures var t := FetchWithRetry(s, content, attempts).0;
            t.rows == s.rows && t.validation == s.validation && t.now >= s.now
            && |t.ledger.rows| == |s.ledger.rows|
    decreases |attempts|
  {
    if attempts != [] && attempts[0].net.Busy? {
      FetchKeepsRows(Exchange(s, content, attempts[0]), content, attempts[1..]);
    }
  }

  lemma DeliverKeepsRows(s: State, content: Content, attempts: seq<Attempt>)
    ensures var t := Deliver(s, content, attempts).0;
            t.rows == s.rows && t.validation == s.validation && t.now >= s.now
            && |t.ledger.rows| == |s.ledger.rows|
  {
    FetchKeepsRows(s, content, attempts);
  }

  function ProcessedCount(rows: seq<Row>): nat
  {
    if rows == [] then 0
    else ProcessedCount(rows[..|rows| - 1]) + if rows[|rows| - 1].processed then 1 else 0
  }

  lemma {:induction false} MarkCounts(rows: seq<Row>, id: nat)
    requires id < |rows| && !rows[id].processed
    ensures ProcessedCount(rows[id := rows[id].(processed := true)]) == ProcessedCount(rows) + 1
  {
    var n := |rows| - 1;
    var marked := rows[id := rows[id].(processed := true)];
    if id < n {
      MarkCounts(rows[..n], id);
      assert marked[..n] == rows[..n][id := rows[..n][id].(processed := true)];
    } else {
      assert marked[..n] == rows[..n];
    }
  }

  lemma {:induction false} RowsCounted(s: State, ids: seq<nat>, fates: seq<Fate>)
    requires |ids| <= |fates|
    requires forall k :: 0 <= k < |ids| ==> ids[k] < |s.rows| && !s.rows[ids[k]].processed
    requires forall j, k :: 0 <= j < k < |ids| ==> ids[j] < ids[k]
    ensures var (t, n) := DrainRows(s, ids, fates); ProcessedCount(t.rows) == ProcessedCount(s.rows) + n
    decreases |ids|
  {
    if ids != [] {
      var (t, ok) := Deliver(s, s.rows[ids[0]].content, fates[0].attempts);
      DeliverKeepsRows(s, s.rows[ids[0]].content, fates[0].attempts);
      if ok && fates[0].markCommits {
        MarkCounts(s.rows, ids[0]);
        RowsCounted(Mark(t, ids[0]), ids[1..], fates[1..]);
      } else if !ok {
        RowsCounted(t, ids[1..], fates[1..]);
      }
    }
  }

  /** A drain returns the number of rows that it has marked as processed. */
  lemma DrainCounts(s: State, fates: seq<Fate>)
    ensures var (t, n) := DrainBatch(s, fates); ProcessedCount(t.rows) == ProcessedCount(s.rows) + n
  {
    RowsCounted(s, Batch(s.rows, |fates|), fates);
  }

  // ----- which rows are ever settled -----

  /** A row that every delivery fails on, however well the network does: a fill that the portfolio service
      rejects as malformed or fails to add up, or an ended plan whose reservation does not exist. */
  predicate Poison(s: State, content: Content)
  {
    match content
    case LegFilled(_, _, _, _, _) =>
      || (s.validation && !ValidConfirmFill(RequestOf(content, 0.0)))
      || ConfirmThrows(s.portfolio, RequestOf(content, 0.0))
    case PlanEnded(None) => false
    case PlanEnded(Some(id)) => id >= |s.ledger.rows|
  }

  /** One of the four attempts is answered, and only busy ones come before it. */
  predicate AnswersInTime(attempts: seq<Attempt>)
  {
    exists n :: 0 <= n < 4 && AnswersAt(attempts, n)
  }

  predicate AnswersAt(attempts: seq<Attempt>, n: nat)
  {
    && n < |attempts| && attempts[n].net.Answered?
    && forall i :: 0 <= i < n ==> attempts[i].net.Busy?
  }

  /** The receivers answer in time, and marks commit. */
  predicate Reliable(fates: seq<Fate>)
  {
    forall k :: 0 <= k < |fates| ==> AnswersInTime(fates[k].attempts) && fates[k].markCommits
  }

  /** Requests in a row, answered or not. */
  function Exchanges(s: State, content: Content, attempts: seq<Attempt>): State
    decreases |attempts|
  {
    if attempts == [] then s else Exchanges(Exchange(s, content, attempts[0]), content, attempts[1..])
  }

  /** A busy answer is tried again: after any number of them the reply is the status that the receiver gives to
      the first attempt that is answered, at the time and in the state of that attempt. */
  lemma {:induction false} AnsweredAfterBusy(s: State, content: Content, attempts: seq<Attempt>, n: nat)
    requires AnswersAt(attempts, n)
    ensures var at := Exchanges(s, content, attempts[..n]);
            var (t, status) := Serve(at.(now := at.now + attempts[n].wait), content, attempts[n].oracleUsd);
            FetchWithRetry(s, content, attempts) == (t, Response(status))
    decreases n
  {
    if n > 0 {
      assert attempts[0].net.Busy?;
      AnsweredAfterBusy(Exchange(s, content, attempts[0]), content, attempts[1..], n - 1);
      assert attempts[..n][1..] == attempts[1..][..n - 1];
    }
  }

  /** The reply is transient if and only if every attempt was busy, and an error if and only if one was lost with
      only busy ones before it. */
  lemma {:induction false} GivesUpIff(s: State, content: Content, attempts: seq<Attempt>)
    ensures FetchWithRetry(s, content, attempts).1 == Transient
            <==> forall i :: 0 <= i < |attempts| ==> attempts[i].net.Busy?
    ensures FetchWithRetry(s, content, attempts).1 == Threw
            <==> exists n :: 0 <= n < |attempts| && attempts[n].net.Lost?
                             && forall i :: 0 <= i < n ==> attempts[i].net.Busy?
    decreases |attempts|
  {
    if attempts != [] && attempts[0].net.Busy? {
      var rest := attempts[1..];
      GivesUpIff(Exchange(s, content, attempts[0]), content, rest);
      assert forall i :: 1 <= i < |attempts| ==> attempts[i] == rest[i - 1];
      assert forall i :: 0 <= i < |rest| ==> rest[i] == attempts[i + 1];
    }
  }

  lemma ExchangeKeepsOwnPoison(s: State, content: Content, attempt: Attempt)
    ensures Poison(Exchange(s, content, attempt), content) <==> Poison(s, content)
  {
  }

  lemma {:induction false} ReliableDelivery(s: State, content: Content, attempts: seq<Attempt>)
    requires AnswersInTime(attempts)
    ensures Deliver(s, content, attempts).1 <==> !Poison(s, content)
    decreases |attempts|
  {
    var n :| 0 <= n < 4 && AnswersAt(attempts, n);
    if n > 0 {
      assert attempts[0].net.Busy?;
      assert AnswersAt(attempts[1..], n - 1);
      ExchangeKeepsOwnPoison(s, content, attempts[0]);
      ReliableDelivery(Exchange(s, content, attempts[0]), content, attempts[1..]);
    }
  }

  /** Rows of one leg carry one quantity: a leg is filled once. */
  ghost predicate OneFillPerLeg(rows: seq<Row>)
  {
    forall i, j :: 0 <= i < |rows| && 0 <= j < |rows| && rows[i].content.LegFilled? && rows[j].content.LegFilled?
                   && rows[i].content.legId == rows[j].content.legId ==>
      rows[i].content.quantity == rows[j].content.quantity
  }

  /** No delivery turns a poison row into a good one, or the other way round. */
  ghost predicate Steady(s: State)
  {
    s.validation || OneFillPerLeg(s.rows)
  }

  lemma ExchangeKeepsPoison(s: State, i: nat, attempt: Attempt, j: nat)
    requires Steady(s) && i < |s.rows| && j < |s.rows|
    ensures var t := Exchange(s, s.rows[i].content, attempt);
            t.rows == s.rows && t.validation == s.validation
            && (Poison(t, s.rows[j].content) <==> Poison(s, s.rows[j].content))
  {
    if s.rows[j].content.LegFilled? {
      FillKeyIsNoUuid(s.rows[j].content.legId);
    }
    if s.rows[i].content.LegFilled? {
      FillKeyIsNoUuid(s.rows[i].content.legId);
    }
  }

  lemma {:induction false} DeliveryKeepsPoison(s: State, i: nat, attempts: seq<Attempt>, j: nat)
    requires Steady(s) && i < |s.rows| && j < |s.rows|
    ensures var t := Deliver(s, s.rows[i].content, attempts).0;
            Poison(t, s.rows[j].content) <==> Poison(s, s.rows[j].content)
    decreases |attempts|
  {
    if attempts != [] && s.rows[i].content != PlanEnded(None) {
      ExchangeKeepsPoison(s, i, attempts[0], j);
      DeliveryKeepsPoison(Exchange(s, s.rows[i].content, attempts[0]), i, attempts[1..], j);
    }
  }

  /** The rows after a reliable pass: those of the batch that are not poison are processed. */
  ghost predicate Passed(s: State, t: State, ids: seq<nat>)
  {
    && |t.rows| == |s.rows| && t.validation == s.validation && |t.ledger.rows| == |s.ledger.rows|
    && forall i :: 0 <= i < |s.rows| ==>
         && t.rows[i].content == s.rows[i].content
         && (t.rows[i].processed <==> s.rows[i].processed || (i in ids && !Poison(s, s.rows[i].content)))
         && (Poison(t, s.rows[i].content) <==> Poison(s, s.rows[i].content))
  }

  lemma {:induction false} ReliablePass(s: State, ids: seq<nat>, fates: seq<Fate>)
    requires |ids| <= |fates| && Reliable(fates) && Steady(s)
    requires forall k :: 0 <= k < |ids| ==> ids[k] < |s.rows|
    ensures Passed(s, DrainRows(s, ids, fates).0, ids)
    decreases |ids|
  {
    if ids != [] {
      var content := s.rows[ids[0]].content;
      var (t, ok) := Deliver(s, content, fates[0].attempts);
      DeliverKeepsRows(s, content, fates[0].attempts);
      ReliableDelivery(s, content, fates[0].attempts);
      var u := if ok then Mark(t, ids[0]) else t;
      forall j | 0 <= j < |s.rows|
        ensures Poison(t, s.rows[j].content) <==> Poison(s, s.rows[j].content)
      {
        DeliveryKeepsPoison(s, ids[0], fates[0].attempts, j);
      }
      ReliablePass(u, ids[1..], fates[1..]);
      assert ids == [ids[0]] + ids[1..];
    }
  }

  /** Drains in a row. */
  function Drains(s: State, drains: seq<seq<Fate>>): State
    decreases |drains|
  {
    if drains == [] then s else Drains(DrainBatch(s, drains[0]).0, drains[1..])
  }

  /** Open rows before row `k` that are poison. */
  function PoisonBefore(s: State, k: nat): set<nat>
    requires k <= |s.rows|
  {
    set i: nat | i < k && !s.rows[i].processed && Poison(s, s.rows[i].content)
  }

  /** Open rows before row `k` that are not poison. */
  function GoodBefore(s: State, k: nat): set<nat>
    requires k <= |s.rows|
  {
    set i: nat | i < k && !s.rows[i].processed && !Poison(s, s.rows[i].content)
  }

  function Elements(ids: seq<nat>): (r: set<nat>)
    requires forall j, k :: 0 <= j < k < |ids| ==> ids[j] < ids[k]
    ensures |r| == |ids|
    ensures forall i :: i in r <==> i in ids
  {
    if ids == [] then {}
    else
      assert ids == [ids[0]] + ids[1..];
      assert ids[0] !in ids[1..];
      {ids[0]} + Elements(ids[1..])
  }

  lemma SubsetSize<T>(a: set<T>, b: set<T>)
    requires a <= b
    ensures |a| <= |b|
    ensures a != b ==> |a| < |b|
  {
    assert b == a + (b - a);
    if a != b {
      assert b - a != {};
    }
  }

  lemma OlderIsInBatch(rows: seq<Row>, limit: nat, k: nat, i: nat)
    requires k in Batch(rows, limit) && i < k && i < |rows| && !rows[i].processed
    ensures i in Batch(rows, limit)
  {
  }

  /** A full batch of poison in front keeps the relay from ever looking at row `k`. */
  lemma StarvedByPoison(s: State, k: nat, limit: nat)
    requires k < |s.rows| && !s.rows[k].processed
    requires |PoisonBefore(s, k)| >= limit
    ensures k !in Batch(s.rows, limit)
  {
    var poison, inBatch := PoisonBefore(s, k), Elements(Batch(s.rows, limit));
    if k in inBatch {
      forall i | i in poison
        ensures i in inBatch - {k}
      {
        OlderIsInBatch(s.rows, limit, k, i);
      }
      SubsetSize(poison, inBatch - {k});
    }
  }

  /** With less poison in front, the batch holds row `k` or some good row before it. */
  lemma ReachesGood(s: State, k: nat, limit: nat) returns (i: nat)
    requires k < |s.rows| && !s.rows[k].processed && !Poison(s, s.rows[k].content)
    requires |PoisonBefore(s, k)| < limit
    ensures i <= k && i in Batch(s.rows, limit) && !Poison(s, s.rows[i].content)
  {
    var ids := Batch(s.rows, limit);
    if k in ids {
      return k;
    }
    assert |ids| == limit;
    if Elements(ids) <= PoisonBefore(s, k) {
      SubsetSize(Elements(ids), PoisonBefore(s, k));
      assert false;
    }
    i :| i in Elements(ids) && i !in PoisonBefore(s, k);
  }

  lemma PassKeepsPoison(s: State, t: State, ids: seq<nat>, k: nat)
    requires Passed(s, t, ids) && k <= |s.rows|
    ensures PoisonBefore(t, k) == PoisonBefore(s, k)
    ensures GoodBefore(t, k) <= GoodBefore(s, k)
    ensures forall i: nat :: i in GoodBefore(t, k) ==> i !in ids
  {
  }

  /** Which rows are settled in the end. Let each leg be filled once. When the receivers answer and at least as
      many drains run as there are rows, an open row is processed if and only if it is not poison and fewer
      poison rows than the batch holds are open before it. */
  lemma ProcessedIff(s: State, drains: seq<seq<Fate>>, limit: nat, k: nat)
    requires Steady(s) && k < |s.rows| && !s.rows[k].processed
    requires forall d :: 0 <= d < |drains| ==> |drains[d]| == limit && Reliable(drains[d])
    requires |drains| >= |s.rows|
    ensures |Drains(s, drains).rows| == |s.rows|
    ensures Drains(s, drains).rows[k].processed
            <==> !Poison(s, s.rows[k].content) && |PoisonBefore(s, k)| < limit
  {
    if !Poison(s, s.rows[k].content) && |PoisonBefore(s, k)| < limit {
      SubsetSize(GoodBefore(s, k + 1), UpTo(k + 1));
      EventuallyProcessed(s, drains, limit, k);
    } else {
      NeverProcessed(s, drains, limit, k);
    }
  }

  function UpTo(n: nat): (r: set<nat>)
    ensures |r| == n
    ensures forall i: nat :: i in r <==> i < n
  {
    if n == 0 then {} else UpTo(n - 1) + {n - 1}
  }

  lemma {:induction false} EventuallyProcessed(s: State, drains: seq<seq<Fate>>, limit: nat, k: nat)
    requires Steady(s) && k < |s.rows|
    requires forall d :: 0 <= d < |drains| ==> |drains[d]| == limit && Reliable(drains[d])
    requires s.rows[k].processed || (!Poison(s, s.rows[k].content) && |PoisonBefore(s, k)| < limit
                                     && |drains| >= |GoodBefore(s, k + 1)|)
    ensures |Drains(s, drains).rows| == |s.rows| && Drains(s, drains).rows[k].processed
    decreases |drains|
  {
    if !s.rows[k].processed {
      assert k in GoodBefore(s, k + 1);
    }
    if drains != [] {
      var ids := Batch(s.rows, limit);
      var t := DrainBatch(s, drains[0]).0;
      ReliablePass(s, ids, drains[0]);
      PassKeepsPoison(s, t, ids, k);
      PassKeepsPoison(s, t, ids, k + 1);
      if !s.rows[k].processed {
        var i := ReachesGood(s, k, limit);
        assert i in GoodBefore(s, k + 1) && i !in GoodBefore(t, k + 1);
        SubsetSize(GoodBefore(t, k + 1), GoodBefore(s, k + 1));
      }
      EventuallyProcessed(t, drains[1..], limit, k);
    }
  }

  lemma {:induction false} NeverProcessed(s: State, drains: seq<seq<Fate>>, limit: nat, k: nat)
    requires Steady(s) && k < |s.rows| && !s.rows[k].processed
    requires forall d :: 0 <= d < |drains| ==> |drains[d]| == limit && Reliable(drains[d])
    requires Poison(s, s.rows[k].content) || |PoisonBefore(s, k)| >= limit
    ensures |Drains(s, drains).rows| == |s.rows| && !Drains(s, drains).rows[k].processed
    decreases |drains|
  {
    if drains != [] {
      var ids := Batch(s.rows, limit);
      var t := DrainBatch(s, drains[0]).0;
      ReliablePass(s, ids, drains[0]);
      PassKeepsPoison(s, t, ids, k);
      if |PoisonBefore(s, k)| >= limit {
        StarvedByPoison(s, k, limit);
      }
      NeverProcessed(t, drains[1..], limit, k);
    }
  }

  // ----- which reservations are settled -----

  /** A row that asks for the release of the reservation. */
  predicate Names(row: Row, id: nat)
  {
    row.content == PlanEnded(Some(id))
  }

  ghost predicate SomeProcessedNames(s: State, id: nat)
  {
    exists k :: 0 <= k < |s.rows| && Names(s.rows[k], id) && s.rows[k].processed
  }

  /** What a delivery does to a reservation: nothing unless its row names it, and a delivery that succeeds
      settles the one it names. Expiry times never change. */
  lemma {:induction false} DeliverTouchesNamed(s: State, content: Content, attempts: seq<Attempt>, id: nat)
    requires AnswersInTime(attempts) && id < |s.ledger.rows|
    ensures var (t, ok) := Deliver(s, content, attempts);
            && |t.ledger.rows| == |s.ledger.rows| && t.now >= s.now
            && t.ledger.rows[id].expiresAt == s.ledger.rows[id].expiresAt
            && (content != PlanEnded(Some(id)) ==> t.ledger.rows[id] == s.ledger.rows[id])
            && (content == PlanEnded(Some(id)) ==> ok && Capital.Settled(t.ledger, id, t.now))
            && (!s.ledger.rows[id].state.Active? ==> !t.ledger.rows[id].state.Active?)
    decreases |attempts|
  {
    var n :| 0 <= n < 4 && AnswersAt(attempts, n);
    if n > 0 {
      assert attempts[0].net.Busy?;
      assert AnswersAt(attempts[1..], n - 1);
      DeliverTouchesNamed(Exchange(s, content, attempts[0]), content, attempts[1..], id);
    }
  }

  /** The reservation is settled by time or by itself, or a processed row names it. */
  ghost predicate Accounted(s: State, id: nat, was: Capital.Reservation)
    requires id < |s.ledger.rows|
  {
    && s.ledger.rows[id].expiresAt == was.expiresAt
    && (!was.state.Active? ==> !s.ledger.rows[id].state.Active?)
    && (SomeProcessedNames(s, id) ==> Capital.Settled(s.ledger, id, s.now))
    && (!SomeProcessedNames(s, id) ==> s.ledger.rows[id] == was)
  }

  lemma MarkNames(s: State, k: nat, id: nat)
    requires k < |s.rows|
    ensures SomeProcessedNames(Mark(s, k), id) <==> SomeProcessedNames(s, id) || Names(s.rows[k], id)
  {
    var t := Mark(s, k);
    if SomeProcessedNames(s, id) {
      var j :| 0 <= j < |s.rows| && Names(s.rows[j], id) && s.rows[j].processed;
      assert Names(t.rows[j], id) && t.rows[j].processed;
    }
    if Names(s.rows[k], id) {
      assert Names(t.rows[k], id) && t.rows[k].processed;
    }
    if SomeProcessedNames(t, id) {
      var j :| 0 <= j < |t.rows| && Names(t.rows[j], id) && t.rows[j].processed;
      assert j == k || (Names(s.rows[j], id) && s.rows[j].processed);
    }
  }

  lemma RowAccounted(s: State, k: nat, fate: Fate, id: nat, was: Capital.Reservation)
    requires k < |s.rows| && AnswersInTime(fate.attempts)
    requires id < |s.ledger.rows| && Accounted(s, id, was)
    ensures var (t, ok) := Deliver(s, s.rows[k].content, fate.attempts);
            && t.rows == s.rows && |t.ledger.rows| == |s.ledger.rows|
            && Accounted(if ok then Mark(t, k) else t, id, was)
  {
    var (t, ok) := Deliver(s, s.rows[k].content, fate.attempts);
    DeliverKeepsRows(s, s.rows[k].content, fate.attempts);
    DeliverTouchesNamed(s, s.rows[k].content, fate.attempts, id);
    assert SomeProcessedNames(t, id) == SomeProcessedNames(s, id);
    if ok {
      MarkNames(t, k, id);
    }
  }

  lemma {:induction false} RowsAccounted(s: State, ids: seq<nat>, fates: seq<Fate>, id: nat, was: Capital.Reservation)
    requires |ids| <= |fates| && Reliable(fates)
    requires forall k :: 0 <= k < |ids| ==> ids[k] < |s.rows|
    requires id < |s.ledger.rows| && Accounted(s, id, was)
    ensures var t := DrainRows(s, ids, fates).0; |t.ledger.rows| == |s.ledger.rows| && Accounted(t, id, was)
    decreases |ids|
  {
    if ids != [] {
      var (t, ok) := Deliver(s, s.rows[ids[0]].content, fates[0].attempts);
      RowAccounted(s, ids[0], fates[0], id, was);
      RowsAccounted(if ok then Mark(t, ids[0]) else t, ids[1..], fates[1..], id, was);
    }
  }

  lemma {:induction false} DrainsAccounted(s: State, drains: seq<seq<Fate>>, id: nat, was: Capital.Reservation)
    requires forall d :: 0 <= d < |drains| ==> Reliable(drains[d])
    requires id < |s.ledger.rows| && Accounted(s, id, was)
    ensures var t := Drains(s, drains); |t.ledger.rows| == |s.ledger.rows| && Accounted(t, id, was)
    decreases |drains|
  {
    if drains != [] {
      RowsAccounted(s, Batch(s.rows, |drains[0]|), drains[0], id, was);
      DrainsAccounted(DrainBatch(s, drains[0]).0, drains[1..], id, was);
    }
  }

  lemma {:induction false} DrainsKeepContents(s: State, drains: seq<seq<Fate>>)
    requires Steady(s)
    requires forall d :: 0 <= d < |drains| ==> Reliable(drains[d])
    ensures var t := Drains(s, drains);
            |t.rows| == |s.rows| && forall k :: 0 <= k < |s.rows| ==> t.rows[k].content == s.rows[k].content
    decreases |drains|
  {
    if drains != [] {
      ReliablePass(s, Batch(s.rows, |drains[0]|), drains[0]);
      DrainsKeepContents(DrainBatch(s, drains[0]).0, drains[1..]);
    }
  }

  /** A row that names the reservation and has fewer poison rows before it than the batch holds. */
  ghost predicate IsReached(s: State, id: nat, limit: nat)
  {
    exists k :: 0 <= k < |s.rows| && Names(s.rows[k], id) && |PoisonBefore(s, k)| < limit
  }

  /** Which reservations are settled in the end. When the receivers answer and at least as many drains run as
      there are rows, none of them processed before, an existing reservation is settled if and only if it was
      not active to begin with, its time is up, or one of its rows is reached. */
  lemma SettledIff(s: State, drains: seq<seq<Fate>>, limit: nat, id: nat)
    requires Steady(s) && forall k :: 0 <= k < |s.rows| ==> !s.rows[k].processed
    requires forall d :: 0 <= d < |drains| ==> |drains[d]| == limit && Reliable(drains[d])
    requires |drains| >= |s.rows| && id < |s.ledger.rows|
    ensures var t := Drains(s, drains);
            Capital.Settled(t.ledger, id, t.now)
            <==> !s.ledger.rows[id].state.Active? || s.ledger.rows[id].expiresAt <= t.now || IsReached(s, id, limit)
  {
    var t := Drains(s, drains);
    DrainsAccounted(s, drains, id, s.ledger.rows[id]);
    DrainsKeepContents(s, drains);
    if SomeProcessedNames(t, id) {
      var k :| 0 <= k < |t.rows| && Names(t.rows[k], id) && t.rows[k].processed;
      ProcessedIff(s, drains, limit, k);
      assert Names(s.rows[k], id);
    } else if IsReached(s, id, limit) {
      var k :| 0 <= k < |s.rows| && Names(s.rows[k], id) && |PoisonBefore(s, k)| < limit;
      ProcessedIff(s, drains, limit, k);
      assert Names(t.rows[k], id);
    }
  }

  /** The key sent for a leg is never a UUID, which is what the portfolio service asks for. */
  lemma FillKeyIsNoUuid(legId: string)
    ensures !IsUuid4(IdempotencyKey(legId))
  {
  }

  /** So with request validation on, every LegFilled row is poison: once as many of them as the batch holds
      are open before an ended plan, its reservation is not released by any number of drains. */
  lemma ValidationStarvesRelease(s: State, drains: seq<seq<Fate>>, limit: nat, k: nat)
    requires s.validation
    requires k < |s.rows| && !s.rows[k].processed && s.rows[k].content.PlanEnded?
    requires |set i: nat | i < k && !s.rows[i].processed && s.rows[i].content.LegFilled?| >= limit
    requires forall d :: 0 <= d < |drains| ==> |drains[d]| == limit && Reliable(drains[d])
    ensures |Drains(s, drains).rows| == |s.rows| && !Drains(s, drains).rows[k].processed
  {
    var fills := set i: nat | i < k && !s.rows[i].processed && s.rows[i].content.LegFilled?;
    forall i | i in fills
      ensures i in PoisonBefore(s, k)
    {
      FillKeyIsNoUuid(s.rows[i].content.legId);
    }
    SubsetSize(fills, PoisonBefore(s, k));
    NeverProcessed(s, drains, limit, k);
  }
}
