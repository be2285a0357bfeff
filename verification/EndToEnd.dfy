/** From the legs to the capital: the outbox rows that any run of the execution service writes, settled by any
    run of the settlement relay. */
module EndToEnd {
  import opened Prelude
  import Exec = ExecutionDb
  import LegInvariants
  import LegEvents
  import LegHistory
  import LegOutcomes
  import opened Settlement
  import Protocol = SettlementProtocol
  import Capital = CapitalLedger

  ghost predicate Injective(text: nat -> string)
  {
    forall a: nat, b: nat :: text(a) == text(b) ==> a == b
  }

  function PlanOf(db: Exec.Db, l: nat): nat
  {
    if l in db.legs then db.legs[l].planId else 0
  }

  /** The settlement row of an outbox event, if it is of a type the relay drains. The LegFilled payload has
      no instrument key, so that the relay reads an empty one, and names no chain and no token at its top
      level. */
  function RowOf(db: Exec.Db, e: Exec.OutboxEvent, text: nat -> string): (rows: seq<Row>)
    ensures Protocol.RowsUnpriced(rows)
  {
    match e.key
    case LegFilled(l) => [Row(LegFilled(PlanOf(db, l), text(l), "", e.quantity, None), false)]
    case PlanCompletion(_) => [Row(PlanEnded(e.reservationId), false)]
    case PlanFailure(_) => [Row(PlanEnded(e.reservationId), false)]
    case _ => []
  }

  function SettlementRows(db: Exec.Db, outbox: seq<Exec.OutboxEvent>, text: nat -> string): seq<Row>
  {
    if outbox == [] then []
    else SettlementRows(db, outbox[..|outbox| - 1], text) + RowOf(db, outbox[|outbox| - 1], text)
  }

  lemma {:induction false} RowHasEvent(db: Exec.Db, outbox: seq<Exec.OutboxEvent>, text: nat -> string, i: nat, l: nat)
    requires Injective(text)
    requires i < |SettlementRows(db, outbox, text)|
    requires SettlementRows(db, outbox, text)[i].content.LegFilled?
    requires SettlementRows(db, outbox, text)[i].content.legId == text(l)
    ensures Exec.CountKey(outbox, Exec.LegFilled(l)) > 0
  {
    var before := outbox[..|outbox| - 1];
    if i < |SettlementRows(db, before, text)| {
      RowHasEvent(db, before, text, i, l);
    }
  }

  lemma {:induction false} RowsOfDistinctLegs(db: Exec.Db, outbox: seq<Exec.OutboxEvent>, text: nat -> string)
    requires Injective(text)
    requires forall l: nat :: Exec.CountKey(outbox, Exec.LegFilled(l)) <= 1
    ensures Protocol.LegsDistinct(SettlementRows(db, outbox, text))
    ensures forall i :: 0 <= i < |SettlementRows(db, outbox, text)| ==> !SettlementRows(db, outbox, text)[i].processed
  {
    if outbox != [] {
      var n := |outbox| - 1;
      var before := outbox[..n];
      forall l: nat
        ensures Exec.CountKey(before, Exec.LegFilled(l)) <= 1
      {
        assert Exec.CountKey(before, Exec.LegFilled(l)) <= Exec.CountKey(outbox, Exec.LegFilled(l));
      }
      RowsOfDistinctLegs(db, before, text);
      if outbox[n].key.LegFilled? {
        var l := outbox[n].key.legId;
        var rows := SettlementRows(db, before, text);
        assert Exec.CountKey(outbox, Exec.LegFilled(l)) == Exec.CountKey(before, Exec.LegFilled(l)) + 1;
        forall i | 0 <= i < |rows| && rows[i].content.LegFilled?
          ensures rows[i].content.legId != text(l)
        {
          if rows[i].content.legId == text(l) {
            RowHasEvent(db, before, text, i, l);
          }
        }
      }
    }
  }

  lemma {:induction false} EventHasRow(db: Exec.Db, outbox: seq<Exec.OutboxEvent>, text: nat -> string, i: nat)
    returns (k: nat)
    requires i < |outbox| && (outbox[i].key.PlanCompletion? || outbox[i].key.PlanFailure?)
    ensures k < |SettlementRows(db, outbox, text)|
    ensures SettlementRows(db, outbox, text)[k].content == PlanEnded(outbox[i].reservationId)
  {
    var n := |outbox| - 1;
    if i < n {
      k := EventHasRow(db, outbox[..n], text, i);
    } else {
      k := |SettlementRows(db, outbox[..n], text)|;
    }
  }

  lemma {:induction false} CountedEventExists(outbox: seq<Exec.OutboxEvent>, key: Exec.EventKey) returns (i: nat)
    requires Exec.CountKey(outbox, key) > 0
    ensures i < |outbox| && outbox[i].key == key
  {
    var n := |outbox| - 1;
    if outbox[n].key == key {
      i := n;
    } else {
      i := CountedEventExists(outbox[..n], key);
    }
  }

  /** Rows are only appended, and keep their content. */
  lemma {:induction false} ContentsKept(w: Protocol.World, events: seq<Protocol.Event>)
    ensures var after := Protocol.Run(w, events).state.rows;
            |w.state.rows| <= |after|
            && forall k :: 0 <= k < |w.state.rows| ==> after[k].content == w.state.rows[k].content
    decreases |events|
  {
    if events != [] {
      StepKeepsContents(w, events[0]);
      ContentsKept(Protocol.Step(w, events[0]), events[1..]);
    }
  }

  lemma StepKeepsContents(w: Protocol.World, e: Protocol.Event)
    ensures var after := Protocol.Step(w, e).state.rows;
            |w.state.rows| <= |after|
            && forall k :: 0 <= k < |w.state.rows| ==> after[k].content == w.state.rows[k].content
  {
  }

  /** The settlement rows of an execution database, with nothing delivered yet. */
  function Published(db: Exec.Db, text: nat -> string, ledger: Capital.Ledger, validation: bool, now: int)
    : Protocol.World
  {
    Protocol.World(State(SettlementRows(db, db.outbox, text), ledger, Portfolio(map[], {}), validation, now), map[])
  }

  lemma PublishedInitial(db: Exec.Db, ops: seq<Exec.Op>, text: nat -> string, ledger: Capital.Ledger, validation: bool,
                         now: int)
    requires LegHistory.Fresh(db) && Injective(text)
    ensures Protocol.Initial(Published(Exec.Run(db, ops), text, ledger, validation, now))
  {
    LegHistory.ReachableStates(db, ops);
    var s := Exec.Run(db, ops);
    forall l: nat
      ensures Exec.CountKey(s.outbox, Exec.LegFilled(l)) <= 1
    {
      assert Exec.CountKey(s.outbox, Exec.LegFilled(l)) == LegEvents.One(LegEvents.IsFilled(s, l));
    }
    RowsOfDistinctLegs(s, s.outbox, text);
  }

  predicate HasEnded(db: Exec.Db, planId: nat)
  {
    planId in db.plans && (db.plans[planId].state == Exec.Completed || db.plans[planId].state == Exec.PlanFailed)
  }

  /** Exactly one link of an ended plan has succeeded; the plan has a settlement row, which names the reservation
      given to that link. */
  lemma EndedPlanHasRow(db: Exec.Db, ops: seq<Exec.Op>, planId: nat, text: nat -> string) returns (k: nat)
    requires LegHistory.Fresh(db) && HasEnded(Exec.Run(db, ops), planId)
    ensures var s := Exec.Run(db, ops);
            var rows := SettlementRows(s, s.outbox, text);
            var linked := LegOutcomes.LinkedReservations(db, ops, planId);
            |linked| == 1 && k < |rows| && Names(rows[k], linked[0])
  {
    var s := Exec.Run(db, ops);
    LegOutcomes.ReservationIsLinked(db, ops, planId);
    LegHistory.ReachableStates(db, ops);
    var completed := Exec.CountKey(s.outbox, Exec.PlanCompletion(planId));
    assert completed + Exec.CountKey(s.outbox, Exec.PlanFailure(planId)) == 1;
    var key := if completed > 0 then Exec.PlanCompletion(planId) else Exec.PlanFailure(planId);
    var i := CountedEventExists(s.outbox, key);
    assert LegHistory.PayloadTrue(s, s.outbox[i]);
    k := EventHasRow(s, s.outbox, text, i);
  }

  /** Whatever the relay does, a processed row has freed the capital. After any run of the execution service, an
      ended plan has a settlement row that names the reservation it was linked with; and after any run of the
      settlement relay on those rows, with overlapping drains, crashes, lost answers and other clients of both
      receivers, that row is processed only if the reservation is released, expired or past its expiry. */
  lemma ProcessedMeansFreed(db: Exec.Db, ops: seq<Exec.Op>, planId: nat, text: nat -> string, ledger: Capital.Ledger,
                            validation: bool, now: int, events: seq<Protocol.Event>)
    returns (k: nat)
    requires LegHistory.Fresh(db) && Injective(text) && HasEnded(Exec.Run(db, ops), planId)
    ensures var s := Exec.Run(db, ops);
            var w := Published(s, text, ledger, validation, now);
            var t := Protocol.Run(w, events).state;
            var linked := LegOutcomes.LinkedReservations(db, ops, planId);
            && |linked| == 1
            && var reservation := linked[0];
            && k < |w.state.rows| <= |t.rows|
            && Names(w.state.rows[k], reservation) && t.rows[k].content == w.state.rows[k].content
            && (t.rows[k].processed ==> Capital.Settled(t.ledger, reservation, t.now))
  {
    var w := Published(Exec.Run(db, ops), text, ledger, validation, now);
    k := EndedPlanHasRow(db, ops, planId, text);
    PublishedInitial(db, ops, text, ledger, validation, now);
    Protocol.EffectivelyOnce(w, events);
    ContentsKept(w, events);
  }

  /** A settlement row of a fill names a leg of the database and carries its target quantity, so that what
      EffectivelyOnce adds up in the positions are the targets of distinct filled legs. */
  lemma {:induction false} FillRowsCarryTargets(db: Exec.Db, outbox: seq<Exec.OutboxEvent>, text: nat -> string, i: nat)
    returns (l: nat)
    requires LegInvariants.Quantities(db)
    requires forall e :: e in outbox ==> LegHistory.PayloadTrue(db, e)
    requires i < |SettlementRows(db, outbox, text)| && SettlementRows(db, outbox, text)[i].content.LegFilled?
    ensures l in db.legs
    ensures SettlementRows(db, outbox, text)[i].content
         == LegFilled(db.legs[l].planId, text(l), "", db.legs[l].target, None)
  {
    var n := |outbox| - 1;
    if i < |SettlementRows(db, outbox[..n], text)| {
      l := FillRowsCarryTargets(db, outbox[..n], text, i);
    } else {
      l := outbox[n].key.legId;
      assert outbox[n] in outbox;
      assert LegHistory.PayloadTrue(db, outbox[n]);
      assert LegInvariants.QuantityOk(db.legs[l]);
    }
  }

  // ----- when an ended plan frees its capital -----

  /** The capital service knows the reservation of every ended plan. */
  ghost predicate ReservationsExist(db: Exec.Db, ledger: Capital.Ledger)
  {
    forall p :: HasEnded(db, p) && db.plans[p].reservationId.Some? ==> db.plans[p].reservationId.value < |ledger.rows|
  }

  lemma {:induction false} NamedReservationsExist(db: Exec.Db, outbox: seq<Exec.OutboxEvent>, text: nat -> string,
                                                  ledger: Capital.Ledger, i: nat)
    requires forall e :: e in outbox ==> LegHistory.PayloadTrue(db, e)
    requires ReservationsExist(db, ledger)
    requires i < |SettlementRows(db, outbox, text)| && SettlementRows(db, outbox, text)[i].content.PlanEnded?
    ensures var named := SettlementRows(db, outbox, text)[i].content.reservationId;
            named.Some? ==> named.value < |ledger.rows|
  {
    var n := |outbox| - 1;
    if i < |SettlementRows(db, outbox[..n], text)| {
      NamedReservationsExist(db, outbox[..n], text, ledger, i);
    } else {
      assert outbox[n] in outbox;
      assert LegHistory.PayloadTrue(db, outbox[n]);
      assert HasEnded(db, outbox[n].key.planId);
    }
  }

  /** A fill that is refused: any while requests are validated, and otherwise one whose quantity cannot be
      stored. */
  predicate IsRefused(s: State, content: Content)
  {
    content.LegFilled? && (s.validation || !IsStorable(content.quantity))
  }

  /** Refused fills before row `k`. */
  function RefusedBefore(s: State, k: nat): set<nat>
    requires k <= |s.rows|
  {
    set i: nat | i < k && IsRefused(s, s.rows[i].content)
  }

  /** While nothing is confirmed, and among rows that name existing reservations, exactly the refused fills are
      poison. */
  lemma PoisonIsRefused(s: State, k: nat)
    requires k <= |s.rows| && s.portfolio.confirmations == {}
    requires forall i :: 0 <= i < |s.rows| ==> !s.rows[i].processed
    requires forall i :: 0 <= i < |s.rows| && s.rows[i].content.PlanEnded? && s.rows[i].content.reservationId.Some? ==>
               s.rows[i].content.reservationId.value < |s.ledger.rows|
    ensures PoisonBefore(s, k) == RefusedBefore(s, k)
  {
    forall i: nat | i < k && s.rows[i].content.LegFilled?
      ensures Poison(s, s.rows[i].content) <==> IsRefused(s, s.rows[i].content)
    {
      FillKeyIsNoUuid(s.rows[i].content.legId);
    }
  }

  /** Row `k` names the reservation, and fewer refused fills than the batch holds stand before it. */
  ghost predicate StandsBeforeRefused(s: State, id: nat, limit: nat)
  {
    exists k :: 0 <= k < |s.rows| && Names(s.rows[k], id) && |RefusedBefore(s, k)| < limit
  }

  /** When an ended plan frees its capital. After any run of the execution service and enough drains with
      receivers that answer, the reservation of an ended plan is settled if and only if it was not active to
      begin with, its time is up, or fewer refused fills than a batch holds stand before one of its rows. */
  lemma EndedPlanFreesCapitalIff(db: Exec.Db, ops: seq<Exec.Op>, planId: nat, text: nat -> string,
                                 ledger: Capital.Ledger, validation: bool, now: int, drains: seq<seq<Fate>>,
                                 limit: nat)
    requires LegHistory.Fresh(db) && Injective(text) && HasEnded(Exec.Run(db, ops), planId)
    requires ReservationsExist(Exec.Run(db, ops), ledger)
    requires forall d :: 0 <= d < |drains| ==> |drains[d]| == limit && Reliable(drains[d])
    requires limit >= 1 && |drains| >= |Published(Exec.Run(db, ops), text, ledger, validation, now).state.rows|
    ensures var s := Exec.Run(db, ops);
            var w := Published(s, text, ledger, validation, now).state;
            var t := Drains(w, drains);
            var linked := LegOutcomes.LinkedReservations(db, ops, planId);
            && |linked| == 1 && linked[0] < |ledger.rows|
            && var id := linked[0];
            (Capital.Settled(t.ledger, id, t.now)
             <==> !ledger.rows[id].state.Active? || ledger.rows[id].expiresAt <= t.now
                  || StandsBeforeRefused(w, id, limit))
  {
    var s := Exec.Run(db, ops);
    var w := Published(s, text, ledger, validation, now).state;
    var k := EndedPlanHasRow(db, ops, planId, text);
    var id := LegOutcomes.LinkedReservations(db, ops, planId)[0];
    LegOutcomes.ReservationIsLinked(db, ops, planId);
    PublishedInitial(db, ops, text, ledger, validation, now);
    SettledIff(w, drains, limit, id);
    AllNamedExist(db, ops, text, ledger);
    forall j | 0 <= j < |w.rows|
      ensures PoisonBefore(w, j) == RefusedBefore(w, j)
    {
      PoisonIsRefused(w, j);
    }
    ReachedIff(w, id, limit);
  }

  /** So with validation off, and targets that can be stored, the capital of every ended plan is freed. */
  lemma StorableTargetsFreeCapital(db: Exec.Db, ops: seq<Exec.Op>, planId: nat, text: nat -> string,
                                   ledger: Capital.Ledger, now: int, drains: seq<seq<Fate>>, limit: nat)
    requires LegHistory.Fresh(db) && Injective(text) && HasEnded(Exec.Run(db, ops), planId)
    requires ReservationsExist(Exec.Run(db, ops), ledger)
    requires forall d :: 0 <= d < |drains| ==> |drains[d]| == limit && Reliable(drains[d])
    requires limit >= 1 && |drains| >= |Published(Exec.Run(db, ops), text, ledger, false, now).state.rows|
    requires forall l :: l in Exec.Run(db, ops).legs ==> IsStorable(Exec.Run(db, ops).legs[l].target)
    ensures var s := Exec.Run(db, ops);
            var t := Drains(Published(s, text, ledger, false, now).state, drains);
            var linked := LegOutcomes.LinkedReservations(db, ops, planId);
            |linked| == 1 && Capital.Settled(t.ledger, linked[0], t.now)
  {
    var s := Exec.Run(db, ops);
    var w := Published(s, text, ledger, false, now).state;
    EndedPlanFreesCapitalIff(db, ops, planId, text, ledger, false, now, drains, limit);
    var k := EndedPlanHasRow(db, ops, planId, text);
    NoneRefused(db, ops, text, ledger, now, k);
  }

  lemma NoneRefused(db: Exec.Db, ops: seq<Exec.Op>, text: nat -> string, ledger: Capital.Ledger, now: int, k: nat)
    requires LegHistory.Fresh(db)
    requires forall l :: l in Exec.Run(db, ops).legs ==> IsStorable(Exec.Run(db, ops).legs[l].target)
    requires k <= |Published(Exec.Run(db, ops), text, ledger, false, now).state.rows|
    ensures RefusedBefore(Published(Exec.Run(db, ops), text, ledger, false, now).state, k) == {}
  {
    var s := Exec.Run(db, ops);
    LegHistory.FreshInv(db);
    LegHistory.RunInv(db, ops);
    RowsAreStorable(s, text);
    var w := Published(s, text, ledger, false, now).state;
    assert w.rows == SettlementRows(s, s.outbox, text);
  }

  lemma RowsAreStorable(db: Exec.Db, text: nat -> string)
    requires LegInvariants.Quantities(db) && LegHistory.PayloadsTrue(db)
    requires forall l :: l in db.legs ==> IsStorable(db.legs[l].target)
    ensures var rows := SettlementRows(db, db.outbox, text);
            forall i :: 0 <= i < |rows| && rows[i].content.LegFilled? ==> IsStorable(rows[i].content.quantity)
  {
    var rows := SettlementRows(db, db.outbox, text);
    AllPayloadsTrue(db);
    forall i | 0 <= i < |rows| && rows[i].content.LegFilled?
      ensures IsStorable(rows[i].content.quantity)
    {
      var l := FillRowsCarryTargets(db, db.outbox, text, i);
    }
  }

  lemma AllPayloadsTrue(db: Exec.Db)
    requires LegHistory.PayloadsTrue(db)
    ensures forall e :: e in db.outbox ==> LegHistory.PayloadTrue(db, e)
  {
    forall e | e in db.outbox
      ensures LegHistory.PayloadTrue(db, e)
    {
      var i :| 0 <= i < |db.outbox| && db.outbox[i] == e;
      assert LegHistory.PayloadTrue(db, db.outbox[i]);
    }
  }

  lemma AllNamedExist(db: Exec.Db, ops: seq<Exec.Op>, text: nat -> string, ledger: Capital.Ledger)
    requires LegHistory.Fresh(db) && ReservationsExist(Exec.Run(db, ops), ledger)
    ensures var rows := SettlementRows(Exec.Run(db, ops), Exec.Run(db, ops).outbox, text);
            forall i :: 0 <= i < |rows| && rows[i].content.PlanEnded? && rows[i].content.reservationId.Some? ==>
              rows[i].content.reservationId.value < |ledger.rows|
  {
    var s := Exec.Run(db, ops);
    LegHistory.ReachableStates(db, ops);
    var rows := SettlementRows(s, s.outbox, text);
    AllPayloadsTrue(s);
    forall i | 0 <= i < |rows| && rows[i].content.PlanEnded? && rows[i].content.reservationId.Some?
      ensures rows[i].content.reservationId.value < |ledger.rows|
    {
      NamedReservationsExist(s, s.outbox, text, ledger, i);
    }
  }

  lemma ReachedIff(s: State, id: nat, limit: nat)
    requires forall j :: 0 <= j < |s.rows| ==> PoisonBefore(s, j) == RefusedBefore(s, j)
    ensures IsReached(s, id, limit) <==> StandsBeforeRefused(s, id, limit)
  {
    if IsReached(s, id, limit) {
      var j :| 0 <= j < |s.rows| && Names(s.rows[j], id) && |PoisonBefore(s, j)| < limit;
      assert |RefusedBefore(s, j)| < limit;
    }
    if StandsBeforeRefused(s, id, limit) {
      var j :| 0 <= j < |s.rows| && Names(s.rows[j], id) && |RefusedBefore(s, j)| < limit;
      assert |PoisonBefore(s, j)| < limit;
    }
  }

  // ----- what the fills count for -----

  lemma UnpricedAppend(rows: seq<Row>, more: seq<Row>)
    requires Protocol.RowsUnpriced(rows) && Protocol.RowsUnpriced(more)
    ensures Protocol.RowsUnpriced(rows + more)
  {
  }

  lemma {:induction false} RowsAreUnpriced(db: Exec.Db, outbox: seq<Exec.OutboxEvent>, text: nat -> string)
    ensures Protocol.RowsUnpriced(SettlementRows(db, outbox, text))
  {
    if outbox != [] {
      var init, last := outbox[..|outbox| - 1], outbox[|outbox| - 1];
      RowsAreUnpriced(db, init, text);
      UnpricedAppend(SettlementRows(db, init, text), RowOf(db, last, text));
    }
  }

  /** The content of the settlement row of some event of the execution service. */
  ghost predicate IsRowOfSome(content: Content, text: nat -> string)
  {
    exists db, e :: Row(content, false) in RowOf(db, e, text)
  }

  /** Fills count for nothing in the capital ceiling: after any run of the execution service, and any run of the
      relay on its rows and on those it adds meanwhile, every position has the notional zero, whatever the price
      oracle says. */
  lemma PositionsHaveNoNotional(db: Exec.Db, text: nat -> string, ledger: Capital.Ledger, validation: bool, now: int,
                                events: seq<Protocol.Event>, key: PositionKey)
    requires forall i :: 0 <= i < |events| && events[i].Publish? ==> IsRowOfSome(events[i].content, text)
    ensures PositionAt(Protocol.Run(Published(db, text, ledger, validation, now), events).state.portfolio, key)
              .notionalUsd == 0.0
  {
    var w := Published(db, text, ledger, validation, now);
    RowsAreUnpriced(db, db.outbox, text);
    forall i | 0 <= i < |events| && events[i].Publish?
      ensures Protocol.IsUnpriced(events[i].content)
    {
      var other, e :| Row(events[i].content, false) in RowOf(other, e, text);
    }
    Protocol.UnpricedAddsNothing(w, events, key);
  }
}
