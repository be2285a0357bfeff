/** Overlapping settlement drains. Nothing keeps two drains apart: their batches may overlap, requests may be
    served without being answered, and a drain may crash between a delivery and its mark. */
module SettlementProtocol {
  import opened Prelude
  import opened Settlement
  import Capital = CapitalLedger

  /** A drain under way: the rows of its batch still to do, and whether the first has been delivered and
      waits for its mark. */
  datatype Drain = Drain(batch: seq<nat>, delivered: bool)

  datatype World = World(state: State, drains: map<nat, Drain>)

  datatype Event =
    | Publish(content: Content)
    | Fetch(drain: nat, limit: nat)
    | Request(drain: nat, attempt: Attempt)   // one attempt for the first row
    | NoRequest(drain: nat)                   // the first row needs none
    | GiveUp(drain: nat)                      // out of retries
    | Commit(drain: nat)                      // the mark
    | Crash(drain: nat)
    | OtherClient(op: Capital.Op)             // anyone else using the capital service
    | Wait(time: nat)

  function Pop(drains: map<nat, Drain>, d: nat): map<nat, Drain>
    requires d in drains
  {
    if |drains[d].batch| <= 1 then drains - {d} else drains[d := Drain(drains[d].batch[1..], false)]
  }

  /** The drain has a first row that is not delivered yet. */
  predicate AtRow(w: World, d: nat)
  {
    d in w.drains && w.drains[d].batch != [] && !w.drains[d].delivered && w.drains[d].batch[0] < |w.state.rows|
  }

  function HeadContent(w: World, d: nat): Content
    requires AtRow(w, d)
  {
    w.state.rows[w.drains[d].batch[0]].content
  }

  function AfterRequest(w: World, d: nat, attempt: Attempt): World
    requires AtRow(w, d)
  {
    var content := HeadContent(w, d);
    var state := Exchange(w.state, content, attempt);
    match attempt.net
    case Busy(_) => World(state, w.drains)
    case Lost(_) => World(state, Pop(w.drains, d))
    case Answered =>
      var status := Serve(w.state.(now := w.state.now + attempt.wait), content, attempt.oracleUsd).1;
      World(state,
            if Succeeds(content, status) then w.drains[d := w.drains[d].(delivered := true)] else Pop(w.drains, d))
  }

  /** A leg gets one LegFilled row. */
  predicate MayPublish(rows: seq<Row>, content: Content)
  {
    content.LegFilled? ==>
      forall i :: 0 <= i < |rows| && rows[i].content.LegFilled? ==> rows[i].content.legId != content.legId
  }

  function Step(w: World, e: Event): World
  {
    match e
    case Publish(content) =>
      if !MayPublish(w.state.rows, content) then w
      else w.(state := w.state.(rows := w.state.rows + [Row(content, false)]))
    case Fetch(d, limit) =>
      var batch := Batch(w.state.rows, limit);
      if d in w.drains || batch == [] then w else w.(drains := w.drains[d := Drain(batch, false)])
    case Request(d, attempt) =>
      if AtRow(w, d) && HeadContent(w, d) != PlanEnded(None) then AfterRequest(w, d, attempt) else w
    case NoRequest(d) =>
      if AtRow(w, d) && HeadContent(w, d) == PlanEnded(None)
      then w.(drains := w.drains[d := w.drains[d].(delivered := true)]) else w
    case GiveUp(d) => if AtRow(w, d) then w.(drains := Pop(w.drains, d)) else w
    case Commit(d) =>
      if d in w.drains && w.drains[d].delivered && w.drains[d].batch != [] && w.drains[d].batch[0] < |w.state.rows|
      then World(Mark(w.state, w.drains[d].batch[0]), Pop(w.drains, d)) else w
    case Crash(d) => w.(drains := w.drains - {d})
    case OtherClient(op) =>
      w.(state := w.state.(ledger := Capital.Apply(w.state.ledger, Capital.Timed(w.state.now, op)).0))
    case Wait(time) => w.(state := w.state.(now := w.state.now + time))
  }

  function Run(w: World, events: seq<Event>): World
    decreases |events|
  {
    if events == [] then w else Run(Step(w, events[0]), events[1..])
  }

  lemma {:induction false} RunAppend(w: World, first: seq<Event>, later: seq<Event>)
    ensures Run(w, first + later) == Run(Run(w, first), later)
    decreases |first|
  {
    if first == [] {
      assert first + later == later;
    } else {
      assert (first + later)[1..] == first[1..] + later;
      RunAppend(Step(w, first[0]), first[1..], later);
    }
  }

  // ----- what a delivery achieves -----

  /** The row's effect is in place: the fill is confirmed, or the reservation needs no release any more. */
  predicate Done(s: State, content: Content)
  {
    match content
    case LegFilled(_, legId, _, _, _) => ConfirmationOf(legId) in s.portfolio.confirmations
    case PlanEnded(None) => true
    case PlanEnded(Some(id)) => Capital.Settled(s.ledger, id, s.now)
  }

  /** Confirmations and settled reservations stay. */
  ghost predicate Advances(s: State, t: State)
  {
    && s.now <= t.now
    && s.portfolio.confirmations <= t.portfolio.confirmations
    && Capital.RowsStep(s.ledger, t.ledger)
  }

  lemma ExchangeEffect(s: State, content: Content, attempt: Attempt)
    ensures var t := Exchange(s, content, attempt);
            && Advances(s, t) && t.rows == s.rows && t.validation == s.validation
            && (attempt.net.Answered?
                && Succeeds(content, Serve(s.(now := s.now + attempt.wait), content, attempt.oracleUsd).1)
                ==> Done(t, content))
  {
  }

  // ----- what the positions add up to -----

  predicate CountsFor(row: Row, confirmations: set<Confirmation>, key: PositionKey)
  {
    && row.content.LegFilled?
    && PositionKey(row.content.planId, row.content.instrumentKey) == key
    && ConfirmationOf(row.content.legId) in confirmations
  }

  /** The quantity of the confirmed fills of a position, each counted once. */
  function Total(rows: seq<Row>, confirmations: set<Confirmation>, key: PositionKey): real
  {
    if rows == [] then 0.0
    else
      var last := rows[|rows| - 1];
      Total(rows[..|rows| - 1], confirmations, key)
      + if CountsFor(last, confirmations, key) then last.content.quantity else 0.0
  }

  ghost predicate LegsDistinct(rows: seq<Row>)
  {
    forall i, j :: 0 <= i < j < |rows| && rows[i].content.LegFilled? && rows[j].content.LegFilled? ==>
      rows[i].content.legId != rows[j].content.legId
  }

  lemma {:induction false} TotalSame(rows: seq<Row>, other: seq<Row>, confirmations: set<Confirmation>,
                                     more: set<Confirmation>, key: PositionKey)
    requires |rows| == |other|
    requires forall i :: 0 <= i < |rows| ==>
               other[i].content == rows[i].content
               && CountsFor(rows[i], confirmations, key) == CountsFor(other[i], more, key)
    ensures Total(other, more, key) == Total(rows, confirmations, key)
  {
    if rows != [] {
      var n := |rows| - 1;
      TotalSame(rows[..n], other[..n], confirmations, more, key);
    }
  }

  /** A new confirmation of the fill in row `i` adds its quantity to its position, and to no other. */
  lemma {:induction false} TotalConfirm(rows: seq<Row>, confirmations: set<Confirmation>, i: nat, key: PositionKey)
    requires LegsDistinct(rows) && i < |rows| && rows[i].content.LegFilled?
    requires ConfirmationOf(rows[i].content.legId) !in confirmations
    ensures var c := rows[i].content;
            Total(rows, confirmations + {ConfirmationOf(c.legId)}, key)
            == Total(rows, confirmations, key)
               + if PositionKey(c.planId, c.instrumentKey) == key then c.quantity else 0.0
  {
    var n := |rows| - 1;
    var more := confirmations + {ConfirmationOf(rows[i].content.legId)};
    var before := rows[..n];
    if i < n {
      assert before[i] == rows[i];
      TotalConfirm(before, confirmations, i, key);
      assert CountsFor(rows[n], more, key) == CountsFor(rows[n], confirmations, key);
    } else {
      forall j | 0 <= j < n
        ensures CountsFor(before[j], confirmations, key) == CountsFor(before[j], more, key)
      {
        assert before[j] == rows[j];
      }
      TotalSame(before, before, confirmations, more, key);
    }
  }

  // ----- the invariant -----

  ghost predicate KnownConfirmations(s: State)
  {
    forall c :: c in s.portfolio.confirmations ==>
      exists i :: 0 <= i < |s.rows| && s.rows[i].content.LegFilled? && c == ConfirmationOf(s.rows[i].content.legId)
  }

  ghost predicate PositionsAddUp(s: State)
  {
    forall key :: PositionAt(s.portfolio, key).quantity == Total(s.rows, s.portfolio.confirmations, key)
  }

  ghost predicate Books(s: State)
  {
    LegsDistinct(s.rows) && KnownConfirmations(s) && PositionsAddUp(s)
  }

  ghost predicate ProcessedIsDone(s: State)
  {
    forall i :: 0 <= i < |s.rows| && s.rows[i].processed ==> Done(s, s.rows[i].content)
  }

  ghost predicate DeliveredIsDone(w: World)
  {
    forall d :: d in w.drains && w.drains[d].delivered ==>
      && w.drains[d].batch != [] && w.drains[d].batch[0] < |w.state.rows|
      && Done(w.state, w.state.rows[w.drains[d].batch[0]].content)
  }

  ghost predicate Inv(w: World)
  {
    Books(w.state) && ProcessedIsDone(w.state) && DeliveredIsDone(w)
  }

  lemma ServeBooks(s: State, i: nat, oracleUsd: real)
    requires Books(s) && i < |s.rows|
    ensures Books(Serve(s, s.rows[i].content, oracleUsd).0)
  {
    var content := s.rows[i].content;
    var t := Serve(s, content, oracleUsd).0;
    if content.LegFilled? && t != s && ConfirmationOf(content.legId) !in s.portfolio.confirmations {
      forall key
        ensures PositionAt(t.portfolio, key).quantity == Total(t.rows, t.portfolio.confirmations, key)
      {
        TotalConfirm(s.rows, s.portfolio.confirmations, i, key);
        assert PositionAt(s.portfolio, key).quantity == Total(s.rows, s.portfolio.confirmations, key);
      }
    }
  }

  /** The rest of the invariant follows once the state advances and drains hold no new deliveries. */
  lemma AdvanceKeeps(w: World, t: State, drains: map<nat, Drain>)
    requires Inv(w) && Advances(w.state, t) && Books(t) && t.rows == w.state.rows
    requires forall d :: d in drains && drains[d].delivered ==> d in w.drains && w.drains[d] == drains[d]
    ensures Inv(World(t, drains))
  {
  }

  lemma RequestInv(w: World, d: nat, attempt: Attempt)
    requires Inv(w) && AtRow(w, d)
    ensures Inv(AfterRequest(w, d, attempt))
    ensures Advances(w.state, AfterRequest(w, d, attempt).state)
  {
    var id := w.drains[d].batch[0];
    var content := HeadContent(w, d);
    var later := w.state.(now := w.state.now + attempt.wait);
    var after := AfterRequest(w, d, attempt);
    assert Books(later);
    ServeBooks(later, id, attempt.oracleUsd);
    ExchangeEffect(w.state, content, attempt);
    var idle := map e | e in after.drains && e != d :: after.drains[e];
    AdvanceKeeps(w, after.state, idle);
    forall e | e in after.drains && after.drains[e].delivered
      ensures && after.drains[e].batch != [] && after.drains[e].batch[0] < |after.state.rows|
              && Done(after.state, after.state.rows[after.drains[e].batch[0]].content)
    {
      if e != d {
        assert e in idle && idle[e] == after.drains[e];
      }
    }
  }

  lemma PublishInv(w: World, content: Content)
    requires Inv(w) && MayPublish(w.state.rows, content)
    ensures Inv(Step(w, Publish(content)))
  {
    var s := w.state;
    var t := Step(w, Publish(content)).state;
    assert t.rows[..|s.rows|] == s.rows;
    forall key
      ensures PositionAt(t.portfolio, key).quantity == Total(t.rows, t.portfolio.confirmations, key)
    {
      assert PositionAt(s.portfolio, key).quantity == Total(s.rows, s.portfolio.confirmations, key);
      if CountsFor(Row(content, false), s.portfolio.confirmations, key) {
        assert false;
      }
    }
    forall c | c in t.portfolio.confirmations
      ensures exists i :: 0 <= i < |t.rows| && t.rows[i].content.LegFilled?
                          && c == ConfirmationOf(t.rows[i].content.legId)
    {
      var i :| 0 <= i < |s.rows| && s.rows[i].content.LegFilled? && c == ConfirmationOf(s.rows[i].content.legId);
      assert t.rows[i] == s.rows[i];
    }
  }

  lemma CommitInv(w: World, d: nat)
    requires Inv(w)
    ensures Inv(Step(w, Commit(d)))
  {
    var after := Step(w, Commit(d));
    if after != w {
      forall key
        ensures PositionAt(after.state.portfolio, key).quantity
             == Total(after.state.rows, after.state.portfolio.confirmations, key)
      {
        assert PositionAt(w.state.portfolio, key).quantity == Total(w.state.rows, w.state.portfolio.confirmations, key);
        var confirmations := w.state.portfolio.confirmations;
        TotalSame(w.state.rows, after.state.rows, confirmations, confirmations, key);
      }
      assert KnownConfirmations(after.state) by {
        forall c | c in w.state.portfolio.confirmations
          ensures exists i :: 0 <= i < |after.state.rows| && after.state.rows[i].content.LegFilled?
                              && c == ConfirmationOf(after.state.rows[i].content.legId)
        {
          var i :| 0 <= i < |w.state.rows| && w.state.rows[i].content.LegFilled?
                   && c == ConfirmationOf(w.state.rows[i].content.legId);
          assert after.state.rows[i].content == w.state.rows[i].content;
        }
      }
    }
  }

  lemma StepInv(w: World, e: Event)
    requires Inv(w)
    ensures Inv(Step(w, e))
    ensures Advances(w.state, Step(w, e).state)
  {
    match e
    case Publish(content) =>
      if MayPublish(w.state.rows, content) {
        PublishInv(w, content);
      }
    case Fetch(d, limit) =>
    case Request(d, attempt) =>
      if AtRow(w, d) && HeadContent(w, d) != PlanEnded(None) {
        RequestInv(w, d, attempt);
      }
    case NoRequest(d) =>
    case GiveUp(d) =>
    case Commit(d) => CommitInv(w, d);
    case Crash(d) =>
    case OtherClient(op) =>
      Capital.ApplySteps(w.state.ledger, Capital.Timed(w.state.now, op));
      AdvanceKeeps(w, Step(w, e).state, w.drains);
    case Wait(time) => AdvanceKeeps(w, Step(w, e).state, w.drains);
  }

  lemma {:induction false} RunInv(w: World, events: seq<Event>)
    requires Inv(w)
    ensures Inv(Run(w, events))
    ensures Advances(w.state, Run(w, events).state)
    decreases |events|
  {
    if events != [] {
      var v := Step(w, events[0]);
      StepInv(w, events[0]);
      RunInv(v, events[1..]);
      Capital.RowsStepTrans(w.state.ledger, v.state.ledger, Run(w, events).state.ledger);
    }
  }

  /** No row processed, nothing under way, an empty portfolio, any ledger. */
  ghost predicate Initial(w: World)
  {
    && w.drains == map[]
    && w.state.portfolio == Portfolio(map[], {})
    && LegsDistinct(w.state.rows)
    && forall i :: 0 <= i < |w.state.rows| ==> !w.state.rows[i].processed
  }

  lemma {:induction false} NothingConfirmed(rows: seq<Row>, key: PositionKey)
    ensures Total(rows, {}, key) == 0.0
  {
    if rows != [] {
      NothingConfirmed(rows[..|rows| - 1], key);
    }
  }

  /** Effectively exactly once. In every state reached by overlapping drains, lost answers, crashes and other
      clients: a processed row has had its effect, so that the reservation of a processed ended plan is
      released, expired or past its expiry from then on; and every position holds the sum of its confirmed
      fills, each counted once however often it was delivered. */
  lemma EffectivelyOnce(w: World, events: seq<Event>)
    requires Initial(w)
    ensures var s := Run(w, events).state;
            && (forall i :: 0 <= i < |s.rows| && s.rows[i].processed ==> Done(s, s.rows[i].content))
            && (forall key :: PositionAt(s.portfolio, key).quantity == Total(s.rows, s.portfolio.confirmations, key))
            && LegsDistinct(s.rows)
  {
    forall key
      ensures Total(w.state.rows, {}, key) == 0.0
    {
      NothingConfirmed(w.state.rows, key);
    }
    RunInv(w, events);
  }

  // ----- the notional of a position -----

  /** What an event adds to the notional of a position: the notional of the attempt, if it is the first of its
      fill to be served. */
  function NotionalAdded(w: World, e: Event, key: PositionKey): real
  {
    if e.Request? && AtRow(w, e.drain) && CountsFor(w.state.rows[w.drains[e.drain].batch[0]],
                                                    Step(w, e).state.portfolio.confirmations, key)
       && Step(w, e).state.portfolio.confirmations != w.state.portfolio.confirmations
    then FillNotional(HeadContent(w, e.drain).token, e.attempt.oracleUsd) else 0.0
  }

  function NotionalOf(w: World, events: seq<Event>, key: PositionKey): real
    decreases |events|
  {
    if events == [] then 0.0 else NotionalAdded(w, events[0], key) + NotionalOf(Step(w, events[0]), events[1..], key)
  }

  lemma ExchangeNotional(s: State, content: Content, attempt: Attempt, key: PositionKey)
    ensures var t := Exchange(s, content, attempt);
            PositionAt(t.portfolio, key).notionalUsd
            == PositionAt(s.portfolio, key).notionalUsd
               + if content.LegFilled? && PositionKey(content.planId, content.instrumentKey) == key
                    && t.portfolio.confirmations != s.portfolio.confirmations
                 then FillNotional(content.token, attempt.oracleUsd) else 0.0
    ensures var t := Exchange(s, content, attempt);
            t.portfolio.confirmations != s.portfolio.confirmations ==>
              content.LegFilled? && ConfirmationOf(content.legId) in t.portfolio.confirmations
  {
  }

  lemma StepNotional(w: World, e: Event, key: PositionKey)
    ensures PositionAt(Step(w, e).state.portfolio, key).notionalUsd
         == PositionAt(w.state.portfolio, key).notionalUsd + NotionalAdded(w, e, key)
  {
    if e.Request? && AtRow(w, e.drain) && HeadContent(w, e.drain) != PlanEnded(None) {
      var t := Exchange(w.state, HeadContent(w, e.drain), e.attempt);
      assert Step(w, e).state == t;
      ExchangeNotional(w.state, HeadContent(w, e.drain), e.attempt, key);
    }
  }

  /** A position's notional is the sum of the notionals of those attempts that were the first of their fill to be
      served; repeats, with whatever notional, add nothing. */
  lemma {:induction false} NotionalIsFirstServed(w: World, events: seq<Event>, key: PositionKey)
    ensures PositionAt(Run(w, events).state.portfolio, key).notionalUsd
         == PositionAt(w.state.portfolio, key).notionalUsd + NotionalOf(w, events, key)
    decreases |events|
  {
    if events != [] {
      StepNotional(w, events[0], key);
      NotionalIsFirstServed(Step(w, events[0]), events[1..], key);
    }
  }

  predicate IsUnpriced(content: Content)
  {
    content.LegFilled? ==> content.token.None?
  }

  ghost predicate RowsUnpriced(rows: seq<Row>)
  {
    forall i :: 0 <= i < |rows| ==> IsUnpriced(rows[i].content)
  }

  ghost predicate AllUnpriced(w: World, events: seq<Event>)
  {
    && RowsUnpriced(w.state.rows)
    && (forall i :: 0 <= i < |events| && events[i].Publish? ==> IsUnpriced(events[i].content))
  }

  lemma StepStaysUnpriced(w: World, events: seq<Event>)
    requires events != [] && AllUnpriced(w, events)
    ensures AllUnpriced(Step(w, events[0]), events[1..])
  {
    var after := Step(w, events[0]).state.rows;
    forall i | 0 <= i < |after|
      ensures IsUnpriced(after[i].content)
    {
      assert i < |w.state.rows| ==> IsUnpriced(w.state.rows[i].content);
    }
  }

  /** A relay whose rows name no token adds no notional to any position, whatever the price oracle says. */
  lemma {:induction false} UnpricedAddsNothing(w: World, events: seq<Event>, key: PositionKey)
    requires AllUnpriced(w, events)
    ensures PositionAt(Run(w, events).state.portfolio, key).notionalUsd
         == PositionAt(w.state.portfolio, key).notionalUsd
    decreases |events|
  {
    if events != [] {
      StepNotional(w, events[0], key);
      StepStaysUnpriced(w, events);
      UnpricedAddsNothing(Step(w, events[0]), events[1..], key);
    }
  }

  // ----- a reservation is released at most once -----

  function One(b: bool): nat
  {
    if b then 1 else 0
  }

  predicate IsActive(s: State, id: nat)
  {
    id < |s.ledger.rows| && s.ledger.rows[id].state.Active?
  }

  /** How many events of the run take reservation `id` out of the active sum. */
  function Departures(w: World, events: seq<Event>, id: nat): nat
    decreases |events|
  {
    if events == [] then 0
    else
      var v := Step(w, events[0]);
      One(IsActive(w.state, id) && !IsActive(v.state, id)) + Departures(v, events[1..], id)
  }

  /** However often its row is delivered, the active sum drops by a reservation's amount at most once; and
      once it has, the reservation never counts again. */
  lemma {:induction false} LeavesSumOnce(w: World, events: seq<Event>, id: nat)
    requires Inv(w)
    ensures Departures(w, events, id) <= 1
    ensures id < |w.state.ledger.rows| && !IsActive(w.state, id) ==>
              && Departures(w, events, id) == 0
              && id < |Run(w, events).state.ledger.rows|
              && Run(w, events).state.ledger.rows[id] == w.state.ledger.rows[id]
    decreases |events|
  {
    if events != [] {
      var v := Step(w, events[0]);
      StepInv(w, events[0]);
      if id < |w.state.ledger.rows| {
        assert Capital.RowStep(w.state.ledger.rows[id], v.state.ledger.rows[id]);
      }
      RunInv(v, events[1..]);
      LeavesSumOnce(v, events[1..], id);
    }
  }

  // ----- a drain is a run -----

  /** The retries for one row, as events. */
  lemma {:induction false} RetriesAreRun(w: World, d: nat, attempts: seq<Attempt>) returns (events: seq<Event>)
    requires AtRow(w, d) && HeadContent(w, d) != PlanEnded(None)
    ensures var (t, ok) := Deliver(w.state, HeadContent(w, d), attempts);
            Run(w, events) == World(t, if ok then w.drains[d := w.drains[d].(delivered := true)] else Pop(w.drains, d))
    decreases |attempts|
  {
    if attempts == [] {
      events := [GiveUp(d)];
      assert Run(w, events) == Step(w, GiveUp(d));
    } else {
      var e := Request(d, attempts[0]);
      var v := Step(w, e);
      ExchangeEffect(w.state, HeadContent(w, d), attempts[0]);
      if attempts[0].net.Busy? {
        var rest := RetriesAreRun(v, d, attempts[1..]);
        events := [e] + rest;
        assert events[1..] == rest;
      } else {
        events := [e];
        assert Run(w, events) == v;
      }
    }
  }

  lemma DeliveryIsRun(w: World, d: nat, attempts: seq<Attempt>) returns (events: seq<Event>)
    requires AtRow(w, d)
    ensures var (t, ok) := Deliver(w.state, HeadContent(w, d), attempts);
            Run(w, events) == World(t, if ok then w.drains[d := w.drains[d].(delivered := true)] else Pop(w.drains, d))
  {
    if HeadContent(w, d) == PlanEnded(None) {
      events := [NoRequest(d)];
      assert Run(w, events) == Step(w, NoRequest(d));
    } else {
      events := RetriesAreRun(w, d, attempts);
    }
  }

  lemma {:induction false} RowsAreRun(w: World, d: nat, fates: seq<Fate>) returns (events: seq<Event>)
    requires d in w.drains && !w.drains[d].delivered && 0 < |w.drains[d].batch| <= |fates|
    requires forall k :: 0 <= k < |w.drains[d].batch| ==> w.drains[d].batch[k] < |w.state.rows|
    ensures Run(w, events) == World(DrainRows(w.state, w.drains[d].batch, fates).0, w.drains - {d})
    decreases |fates|
  {
    var ids := w.drains[d].batch;
    var content := w.state.rows[ids[0]].content;
    DeliverKeepsRows(w.state, content, fates[0].attempts);
    var (t, ok) := Deliver(w.state, content, fates[0].attempts);
    var first := DeliveryIsRun(w, d, fates[0].attempts);
    var delivered := w.drains[d].(delivered := true);
    if ok && !fates[0].markCommits {
      events := first + [Crash(d)];
      RunAppend(w, first, [Crash(d)]);
      var u := Run(w, first);
      assert Run(u, [Crash(d)]) == Step(u, Crash(d));
      assert w.drains[d := delivered] - {d} == w.drains - {d};
    } else {
      var mark := if ok then [Commit(d)] else [];
      var next := World(if ok then Mark(t, ids[0]) else t, Pop(w.drains, d));
      assert Run(w, first + mark) == next by {
        RunAppend(w, first, mark);
        if ok {
          assert Run(Run(w, first), mark) == Step(Run(w, first), Commit(d));
          assert Pop(w.drains[d := delivered], d) == Pop(w.drains, d);
        }
      }
      events := first + mark;
      if |ids| > 1 {
        var rest := RowsAreRun(next, d, fates[1..]);
        assert next.drains - {d} == w.drains - {d};
        RunAppend(w, first + mark, rest);
        events := first + mark + rest;
      } else {
        assert ids[1..] == [];
      }
    }
  }

  /** A drain with given fates is a run of the protocol, so what holds after every run holds after any
      number of drains, overlapping or not. */
  lemma DrainIsRun(w: World, d: nat, fates: seq<Fate>) returns (events: seq<Event>)
    requires d !in w.drains
    ensures Run(w, events) == World(DrainBatch(w.state, fates).0, w.drains)
  {
    var batch := Batch(w.state.rows, |fates|);
    if batch == [] {
      events := [];
    } else {
      var fetch := Fetch(d, |fates|);
      var v := Step(w, fetch);
      var rest := RowsAreRun(v, d, fates);
      assert v.drains - {d} == w.drains;
      events := [fetch] + rest;
      assert events[1..] == rest;
    }
  }
}
