/** Several relay processes over the same tables, with crashes and with other writers.
    `FOR UPDATE SKIP LOCKED` lets a process take any fetchable row, and the POST of a paper row runs
    between two transactions, with no lock held. */
module RelayReplicas {
  import opened Messaging
  import opened OutboxRelay
  import opened Uuid

  /** A process between its polling transaction and its finalizing transaction. */
  datatype Work =
    | Taken(id: nat)
    | Answered(id: nat, httpOk: bool)

  datatype World = World(tables: Tables, works: map<nat, Work>)

  datatype Event =
    | Poll(process: nat, id: nat)             // the polling transaction commits
    | Post(process: nat, httpOk: bool)        // the POST is answered
    | Finalize(process: nat)                  // the finalizing transaction commits
    | Crash(process: nat)                     // the process loses its work, as after a rollback or a POST that throws
    | Insert(row: OutboxRow)                  // a publisher appends a row
    | WriteOpportunity(key: Uuid, opportunity: Opportunity)
    | CloseForeign(id: nat)                   // another relay closes a row of its own types

  predicate Enabled(w: World, e: Event)
  {
    match e
    case Poll(p, id) => p !in w.works && id < |w.tables.rows| && Fetchable(w.tables.rows[id], RELAY_EVENT_TYPES)
    case Post(p, _) => p in w.works && w.works[p].Taken?
    case Finalize(p) => p in w.works && w.works[p].Answered? && w.works[p].id < |w.tables.rows|
    case Crash(p) => p in w.works
    case Insert(row) =>
      Open(row) && forall i :: 0 <= i < |w.tables.rows| ==> w.tables.rows[i].messageId != row.messageId
    case WriteOpportunity(_, _) => true
    case CloseForeign(id) =>
      id < |w.tables.rows| && Open(w.tables.rows[id]) && w.tables.rows[id].eventType !in RELAY_EVENT_TYPES
  }

  function Step(w: World, limits: Limits, e: Event): World
  {
    if !Enabled(w, e) then w
    else
      match e
      case Poll(p, id) =>
        if IsPaperWork(w.tables.rows[id]) then w.(works := w.works[p := Taken(id)])
        else w.(tables := Handle(w.tables, id, limits))
      case Post(p, httpOk) =>
        World(Posted(w.tables, w.works[p].id, httpOk), w.works[p := Answered(w.works[p].id, httpOk)])
      case Finalize(p) =>
        World(FinalizePaper(w.tables, w.works[p].id, w.works[p].httpOk, limits), w.works - {p})
      case Crash(p) => w.(works := w.works - {p})
      case Insert(row) => w.(tables := w.tables.(rows := w.tables.rows + [row]))
      case WriteOpportunity(key, opportunity) =>
        w.(tables := w.tables.(opportunities := w.tables.opportunities[key := opportunity]))
      case CloseForeign(id) => w.(tables := MarkProcessed(w.tables, id))
  }

  function Run(w: World, limits: Limits, events: seq<Event>): World
    decreases |events|
  {
    if events == [] then w else Run(Step(w, limits, events[0]), limits, events[1..])
  }

  /** Nothing claimed, nothing processed, nothing in flight; message ids are unique. */
  ghost predicate Initial(w: World)
  {
    && w.works == map[] && w.tables.inbox == {} && w.tables.posted == {}
    && (forall i :: 0 <= i < |w.tables.rows| ==> !w.tables.rows[i].processed)
    && UniqueMessages(w.tables.rows)
  }

  ghost predicate UniqueMessages(rows: seq<OutboxRow>)
  {
    forall i, j :: 0 <= i < j < |rows| ==> rows[i].messageId != rows[j].messageId
  }

  // ----- the claims are the processed decisions -----

  ghost predicate ClaimMatches(t: Tables, i: nat)
    requires i < |t.rows|
  {
    InboxKey(CONSUMER_ID, t.rows[i].messageId) in t.inbox
    <==> t.rows[i].eventType.RiskDecisionIssued? && t.rows[i].processed
  }

  /** This consumer has claimed exactly the messages of the processed RiskDecisionIssued rows. */
  ghost predicate ClaimsAreProcessed(t: Tables)
  {
    && UniqueMessages(t.rows)
    && (forall i :: 0 <= i < |t.rows| ==> ClaimMatches(t, i))
    && (forall key :: key in t.inbox ==>
          exists i :: 0 <= i < |t.rows| && key == InboxKey(CONSUMER_ID, t.rows[i].messageId))
  }

  predicate IsProcessedPaper(row: OutboxRow)
  {
    row.eventType.PaperPromotionCandidateRequested? && row.processed
  }

  /** A paper row is processed, or about to be, only once a POST of it has succeeded. */
  ghost predicate PaperNeedsPost(w: World)
  {
    && (forall i :: 0 <= i < |w.tables.rows| && IsProcessedPaper(w.tables.rows[i]) ==> i in w.tables.posted)
    && (forall p :: p in w.works ==>
          && w.works[p].id < |w.tables.rows|
          && w.tables.rows[w.works[p].id].eventType.PaperPromotionCandidateRequested?)
    && (forall p :: p in w.works && w.works[p].Answered? && w.works[p].httpOk ==> w.works[p].id in w.tables.posted)
  }

  ghost predicate NotBoth(t: Tables)
  {
    forall i :: 0 <= i < |t.rows| ==> !(t.rows[i].processed && t.rows[i].deadLettered)
  }

  /** Rows are only appended, keep their identity, and never lose a closing mark. */
  ghost predicate NeverReopens(before: seq<OutboxRow>, after: seq<OutboxRow>)
  {
    && |before| <= |after|
    && forall i :: 0 <= i < |before| ==>
         && after[i].messageId == before[i].messageId
         && after[i].eventType == before[i].eventType
         && (before[i].processed ==> after[i].processed)
         && (before[i].deadLettered ==> after[i].deadLettered)
  }

  /** What the polling transaction does to a row that needs no POST. */
  lemma HandleEffect(t: Tables, id: nat, limits: Limits)
    requires id < |t.rows| && Fetchable(t.rows[id], RELAY_EVENT_TYPES)
    requires InboxKey(CONSUMER_ID, t.rows[id].messageId) !in t.inbox
    requires !IsPaperWork(t.rows[id])
    ensures var after := Handle(t, id, limits);
            && ChangesOnly(t, after, id)
            && after.posted == t.posted
            && !(after.rows[id].processed && after.rows[id].deadLettered)
            && (after.rows[id].processed ==> t.rows[id].eventType.RiskDecisionIssued?)
            && after.inbox == (if after.rows[id].processed
                               then t.inbox + {InboxKey(CONSUMER_ID, t.rows[id].messageId)} else t.inbox)
  {
  }

  /** What the finalizing transaction does, to an open row and to a row closed in the meantime. */
  lemma FinalizeEffect(t: Tables, id: nat, httpOk: bool, limits: Limits)
    requires id < |t.rows|
    ensures var after := FinalizePaper(t, id, httpOk, limits);
            var row, changed := t.rows[id], after.rows[id];
            && ChangesOnly(t, after, id)
            && after.inbox == t.inbox && after.posted == t.posted
            && (row.processed ==> changed.processed) && (row.deadLettered ==> changed.deadLettered)
            && (changed.processed && !row.processed ==> httpOk)
            && (limits.maxPaperAttempts >= 1 && !(row.processed && row.deadLettered) ==>
                  !(changed.processed && changed.deadLettered))
  {
  }

  ghost predicate Safe(w: World)
  {
    ClaimsAreProcessed(w.tables) && PaperNeedsPost(w)
  }

  /** A change of one row that keeps the claims in step with it. */
  lemma ClaimsKept(t: Tables, after: Tables, id: nat)
    requires ClaimsAreProcessed(t) && ChangesOnly(t, after, id)
    requires after.inbox == (if t.rows[id].eventType.RiskDecisionIssued? && after.rows[id].processed
                             then t.inbox + {InboxKey(CONSUMER_ID, t.rows[id].messageId)} else t.inbox)
    requires t.rows[id].eventType.RiskDecisionIssued? && t.rows[id].processed ==> after.rows[id].processed
    ensures ClaimsAreProcessed(after)
  {
    assert ClaimMatches(t, id);
    forall i | 0 <= i < |after.rows|
      ensures ClaimMatches(after, i)
    {
      assert ClaimMatches(t, i);
      assert after.rows[i].messageId == t.rows[i].messageId;
    }
    forall key | key in after.inbox
      ensures exists i :: 0 <= i < |after.rows| && key == InboxKey(CONSUMER_ID, after.rows[i].messageId)
    {
      var i :| 0 <= i < |t.rows| && key == InboxKey(CONSUMER_ID, t.rows[i].messageId);
      assert after.rows[i].messageId == t.rows[i].messageId;
    }
  }

  lemma PollSafe(w: World, limits: Limits, p: nat, id: nat)
    requires Safe(w) && Enabled(w, Poll(p, id))
    ensures Safe(Step(w, limits, Poll(p, id)))
    ensures NeverReopens(w.tables.rows, Step(w, limits, Poll(p, id)).tables.rows)
  {
    if !IsPaperWork(w.tables.rows[id]) {
      var after := Handle(w.tables, id, limits);
      assert ClaimMatches(w.tables, id);
      HandleEffect(w.tables, id, limits);
      ClaimsKept(w.tables, after, id);
      assert Step(w, limits, Poll(p, id)) == w.(tables := after);
      RowChangeKeeps(w, w.(tables := after), id);
    }
  }

  lemma FinalizeSafe(w: World, limits: Limits, p: nat)
    requires Safe(w) && Enabled(w, Finalize(p))
    ensures Safe(Step(w, limits, Finalize(p)))
    ensures NeverReopens(w.tables.rows, Step(w, limits, Finalize(p)).tables.rows)
  {
    var id := w.works[p].id;
    var after := FinalizePaper(w.tables, id, w.works[p].httpOk, limits);
    FinalizeEffect(w.tables, id, w.works[p].httpOk, limits);
    ClaimsKept(w.tables, after, id);
    assert Step(w, limits, Finalize(p)) == World(after, w.works - {p});
    RowChangeKeeps(w, World(after, w.works - {p}), id);
  }

  /** One row changes, no work is added, and the row stays closed if it was. */
  lemma RowChangeKeeps(w: World, after: World, id: nat)
    requires PaperNeedsPost(w) && ChangesOnly(w.tables, after.tables, id)
    requires after.tables.posted == w.tables.posted
    requires w.tables.rows[id].processed ==> after.tables.rows[id].processed
    requires w.tables.rows[id].deadLettered ==> after.tables.rows[id].deadLettered
    requires IsProcessedPaper(after.tables.rows[id]) ==> id in w.tables.posted
    requires forall p :: p in after.works ==> p in w.works && after.works[p] == w.works[p]
    ensures PaperNeedsPost(after) && NeverReopens(w.tables.rows, after.tables.rows)
  {
  }

  lemma StepSafe(w: World, limits: Limits, e: Event)
    requires Safe(w)
    ensures Safe(Step(w, limits, e))
    ensures NeverReopens(w.tables.rows, Step(w, limits, e).tables.rows)
  {
    if Enabled(w, e) {
      match e
      case Poll(p, id) => PollSafe(w, limits, p, id);
      case Finalize(p) => FinalizeSafe(w, limits, p);
      case _ => OtherStepSafe(w, limits, e);
    }
  }

  lemma OtherStepSafe(w: World, limits: Limits, e: Event)
    requires Safe(w) && Enabled(w, e) && !e.Poll? && !e.Finalize?
    ensures Safe(Step(w, limits, e))
    ensures NeverReopens(w.tables.rows, Step(w, limits, e).tables.rows)
  {
    var after := Step(w, limits, e);
    match e
    case CloseForeign(id) => ClaimsKept(w.tables, after.tables, id);
    case Post(p, httpOk) => SameTables(w.tables, after.tables);
    case Insert(row) => InsertSafe(w, row);
    case WriteOpportunity(_, _) => SameTables(w.tables, after.tables);
    case Crash(p) =>
  }

  lemma SameTables(t: Tables, after: Tables)
    requires ClaimsAreProcessed(t) && after.rows == t.rows && after.inbox == t.inbox
    ensures ClaimsAreProcessed(after)
  {
    forall i | 0 <= i < |after.rows|
      ensures ClaimMatches(after, i)
    {
      assert ClaimMatches(t, i);
    }
  }

  lemma InsertSafe(w: World, row: OutboxRow)
    requires Safe(w) && Enabled(w, Insert(row))
    ensures Safe(w.(tables := w.tables.(rows := w.tables.rows + [row])))
  {
    var after := w.tables.(rows := w.tables.rows + [row]);
    forall i | 0 <= i < |after.rows|
      ensures ClaimMatches(after, i)
    {
      if i < |w.tables.rows| {
        assert ClaimMatches(w.tables, i);
      }
    }
    forall key | key in after.inbox
      ensures exists i :: 0 <= i < |after.rows| && key == InboxKey(CONSUMER_ID, after.rows[i].messageId)
    {
      var i :| 0 <= i < |w.tables.rows| && key == InboxKey(CONSUMER_ID, w.tables.rows[i].messageId);
      assert after.rows[i] == w.tables.rows[i];
    }
  }

  lemma {:induction false} RunSafe(w: World, limits: Limits, events: seq<Event>)
    requires Safe(w)
    ensures Safe(Run(w, limits, events))
    ensures NeverReopens(w.tables.rows, Run(w, limits, events).tables.rows)
    decreases |events|
  {
    if events != [] {
      StepSafe(w, limits, events[0]);
      RunSafe(Step(w, limits, events[0]), limits, events[1..]);
    }
  }

  /** Exactly-once effect: in every reachable state the claims of this consumer are exactly the
      processed decisions, and a paper row is processed only after one of its POSTs succeeded. */
  lemma ExactlyOnceEffect(w: World, limits: Limits, events: seq<Event>)
    requires Initial(w)
    ensures var t := Run(w, limits, events).tables;
            && t.inbox == (set i | 0 <= i < |t.rows| && t.rows[i].eventType.RiskDecisionIssued? && t.rows[i].processed
                             :: InboxKey(CONSUMER_ID, t.rows[i].messageId))
            && (forall i :: 0 <= i < |t.rows| && IsProcessedPaper(t.rows[i]) ==> i in t.posted)
  {
    assert forall i :: 0 <= i < |w.tables.rows| ==> ClaimMatches(w.tables, i);
    RunSafe(w, limits, events);
    var t := Run(w, limits, events).tables;
    var claims := set i | 0 <= i < |t.rows| && t.rows[i].eventType.RiskDecisionIssued? && t.rows[i].processed
                    :: InboxKey(CONSUMER_ID, t.rows[i].messageId);
    forall key | key in t.inbox
      ensures key in claims
    {
      var i :| 0 <= i < |t.rows| && key == InboxKey(CONSUMER_ID, t.rows[i].messageId);
      assert ClaimMatches(t, i);
    }
    forall key | key in claims
      ensures key in t.inbox
    {
      var i :| 0 <= i < |t.rows| && t.rows[i].eventType.RiskDecisionIssued? && t.rows[i].processed
               && key == InboxKey(CONSUMER_ID, t.rows[i].messageId);
      assert ClaimMatches(t, i);
    }
  }

  /** Hence no fetchable decision is ever found claimed: the duplicate branch is unreachable. */
  lemma DuplicateDeliveryUnreachable(w: World, limits: Limits, events: seq<Event>, id: nat)
    requires Initial(w)
    requires id < |Run(w, limits, events).tables.rows|
    requires Fetchable(Run(w, limits, events).tables.rows[id], RELAY_EVENT_TYPES)
    ensures InboxKey(CONSUMER_ID, Run(w, limits, events).tables.rows[id].messageId)
            !in Run(w, limits, events).tables.inbox
  {
    assert forall i :: 0 <= i < |w.tables.rows| ==> ClaimMatches(w.tables, i);
    RunSafe(w, limits, events);
    assert ClaimMatches(Run(w, limits, events).tables, id);
  }

  /** A closed row stays closed the same way, however the run goes on. */
  lemma ClosedStaysClosed(w: World, limits: Limits, first: seq<Event>, later: seq<Event>)
    requires Initial(w)
    ensures NeverReopens(Run(w, limits, first).tables.rows, Run(w, limits, first + later).tables.rows)
  {
    assert forall i :: 0 <= i < |w.tables.rows| ==> ClaimMatches(w.tables, i);
    RunSafe(w, limits, first);
    RunSafe(Run(w, limits, first), limits, later);
    RunAppend(w, limits, first, later);
  }

  lemma {:induction false} RunAppend(w: World, limits: Limits, first: seq<Event>, later: seq<Event>)
    ensures Run(w, limits, first + later) == Run(Run(w, limits, first), limits, later)
    decreases |first|
  {
    if first == [] {
      assert first + later == later;
    } else {
      assert (first + later)[1..] == first[1..] + later;
      RunAppend(Step(w, limits, first[0]), limits, first[1..], later);
    }
  }

  // ----- processed and dead-lettered at once -----

  lemma {:induction false} RunNotBoth(w: World, limits: Limits, events: seq<Event>)
    requires limits.maxPaperAttempts >= 1
    requires Safe(w) && NotBoth(w.tables)
    ensures NotBoth(Run(w, limits, events).tables)
    decreases |events|
  {
    if events != [] {
      var e := events[0];
      StepSafe(w, limits, e);
      if Enabled(w, e) {
        match e
        case Poll(p, id) =>
          if !IsPaperWork(w.tables.rows[id]) {
            assert ClaimMatches(w.tables, id);
            HandleEffect(w.tables, id, limits);
          }
        case Finalize(p) => FinalizeEffect(w.tables, w.works[p].id, w.works[p].httpOk, limits);
        case _ =>
      }
      assert NotBoth(Step(w, limits, e).tables);
      RunNotBoth(Step(w, limits, e), limits, events[1..]);
    }
  }

  ghost predicate NeverBoth(limits: Limits)
  {
    forall w, events :: Initial(w) ==> NotBoth(Run(w, limits, events).tables)
  }

  function PaperPayload(): Payload
  {
    map["opportunityId" := JString("o"), "instrumentKey" := JString("i"), "source" := JString("s"),
        "enqueueIdempotencyKey" := JString("k"), "evidence" := JObject]
  }

  /** Two processes POST the same paper row; one succeeds, the other fails and finalizes last. */
  function RaceEvents(): seq<Event>
  {
    [Poll(0, 0), Poll(1, 0), Post(0, true), Post(1, false), Finalize(0), Finalize(1)]
  }

  function RaceWorld(): World
  {
    var row := OutboxRow(0, PaperPromotionCandidateRequested, PaperPayload(), false, false, 0);
    World(Tables([row], {}, map[], {}), map[])
  }

  lemma RaceMarksBoth(limits: Limits)
    requires limits.maxPaperAttempts < 1
    ensures Initial(RaceWorld()) && !NotBoth(Run(RaceWorld(), limits, RaceEvents()).tables)
  {
    var w := RaceWorld();
    var e := RaceEvents();
    assert IsPaperWork(w.tables.rows[0]);
    var w1 := Step(w, limits, e[0]);
    var w2 := Step(w1, limits, e[1]);
    var w3 := Step(w2, limits, e[2]);
    var w4 := Step(w3, limits, e[3]);
    var w5 := Step(w4, limits, e[4]);
    var w6 := Step(w5, limits, e[5]);
    assert w6.tables.rows[0].processed && w6.tables.rows[0].deadLettered;
    assert Run(w, limits, e) == w6 by {
      assert e[1..][1..] == e[2..] && e[2..][1..] == e[3..] && e[3..][1..] == e[4..] && e[4..][1..] == e[5..];
      assert e[5..][1..] == [];
    }
  }

  /** No row is ever both processed and dead-lettered, in any run from a clean start, if and only if
      the paper attempt limit is at least one. */
  lemma NeverBothIff(limits: Limits)
    ensures NeverBoth(limits) <==> limits.maxPaperAttempts >= 1
  {
    if limits.maxPaperAttempts >= 1 {
      forall w, events | Initial(w)
        ensures NotBoth(Run(w, limits, events).tables)
      {
        assert forall i :: 0 <= i < |w.tables.rows| ==> ClaimMatches(w.tables, i);
        RunNotBoth(w, limits, events);
      }
    } else {
      RaceMarksBoth(limits);
    }
  }
}
