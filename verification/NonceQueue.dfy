/** The per-wallet nonce queue (nonce-manager.service.ts): calls for one address chain onto the tail promise
    of the call before, so that one task per address runs at a time. A task reads the pending nonce and
    broadcasts with it; a broadcast that times out releases the lock while it may still be accepted. */
module NonceQueue {
  import opened Prelude

  type Address = nat

  /** An address on a chain. Calls are queued by address alone, nonces belong to the account. */
  datatype Account = Account(chain: nat, address: Address)

  datatype Status = Waiting | Reading | Broadcasting(nonce: nat) | Settled(ok: bool)

  /** A call of `serialize`: the call whose stored tail it waits for, and whether its own stored tail has
      resolved. A call's id is its position. */
  datatype Call = Call(account: Account, prev: Option<nat>, status: Status, resolved: bool)

  /** The manager: all calls made, and the map from an address to the call whose tail is stored. */
  datatype Queue = Queue(calls: seq<Call>, tails: map<Address, nat>)

  datatype Accepted = Accepted(account: Account, nonce: nat)

  /** The manager and the chains: the pending count per account, the accepted transactions in order, and the
      broadcasts that have timed out without being rejected. */
  datatype World = World(queue: Queue, pending: map<Account, nat>, log: seq<Accepted>, late: map<nat, Accepted>)

  datatype Event =
    | Serialize(account: Account)
    | Start(call: nat)
    | ReadNonce(call: nat)
    | ReadFails(call: nat)                    // an error, or the read timeout
    | FnSettles(call: nat, accepted: bool, ok: bool)
    | FnTimesOut(call: nat)
    | LateAccept(call: nat)                   // the chain accepts a broadcast that has timed out
    | TailResolves(call: nat)

  function Pending(w: World, a: Account): nat
  {
    if a in w.pending then w.pending[a] else 0
  }

  /** `serialize`: wait for the stored tail of the address, and become it. */
  function Enqueue(q: Queue, account: Account): Queue
  {
    var prev := TailOf(q, account.address);
    Queue(q.calls + [Call(account, prev, Waiting, false)], q.tails[account.address := |q.calls|])
  }

  function WithStatus(q: Queue, i: nat, status: Status): Queue
    requires i < |q.calls|
  {
    q.(calls := q.calls[i := q.calls[i].(status := status)])
  }

  function Resolve(q: Queue, i: nat): Queue
    requires i < |q.calls|
  {
    q.(calls := q.calls[i := q.calls[i].(resolved := true)])
  }

  /** The chain takes a transaction; the pending count then covers its nonce. */
  function Accept(w: World, tx: Accepted): World
  {
    var count := if tx.nonce + 1 > Pending(w, tx.account) then tx.nonce + 1 else Pending(w, tx.account);
    w.(pending := w.pending[tx.account := count], log := w.log + [tx])
  }

  predicate HasStatus(w: World, i: nat, status: Status)
  {
    i < |w.queue.calls| && w.queue.calls[i].status == status
  }

  predicate IsBroadcasting(w: World, i: nat)
  {
    i < |w.queue.calls| && w.queue.calls[i].status.Broadcasting?
  }

  predicate TailDone(q: Queue, prev: Option<nat>)
  {
    prev.Some? ==> prev.value < |q.calls| && q.calls[prev.value].resolved
  }

  predicate Enabled(w: World, e: Event)
  {
    match e
    case Serialize(_) => true
    case Start(i) => HasStatus(w, i, Waiting) && TailDone(w.queue, w.queue.calls[i].prev)
    case ReadNonce(i) => HasStatus(w, i, Reading)
    case ReadFails(i) => HasStatus(w, i, Reading)
    case FnSettles(i, accepted, ok) => IsBroadcasting(w, i) && (ok ==> accepted)
    case FnTimesOut(i) => IsBroadcasting(w, i)
    case LateAccept(i) => i in w.late
    case TailResolves(i) => i < |w.queue.calls| && w.queue.calls[i].status.Settled? && !w.queue.calls[i].resolved
  }

  function Step(w: World, e: Event): World
  {
    if !Enabled(w, e) then w
    else
      match e
      case Serialize(a) => w.(queue := Enqueue(w.queue, a))
      case Start(i) => w.(queue := WithStatus(w.queue, i, Reading))
      case ReadNonce(i) =>
        w.(queue := WithStatus(w.queue, i, Broadcasting(Pending(w, w.queue.calls[i].account))))
      case ReadFails(i) => w.(queue := WithStatus(w.queue, i, Settled(false)))
      case FnSettles(i, accepted, ok) =>
        var call := w.queue.calls[i];
        var done := w.(queue := WithStatus(w.queue, i, Settled(ok)));
        if accepted then Accept(done, Accepted(call.account, call.status.nonce)) else done
      case FnTimesOut(i) =>
        var call := w.queue.calls[i];
        w.(queue := WithStatus(w.queue, i, Settled(false)),
           late := w.late[i := Accepted(call.account, call.status.nonce)])
      case LateAccept(i) => Accept(w.(late := w.late - {i}), w.late[i])
      case TailResolves(i) => w.(queue := Resolve(w.queue, i))
  }

  function Run(w: World, events: seq<Event>): World
    decreases |events|
  {
    if events == [] then w else Run(Step(w, events[0]), events[1..])
  }

  ghost predicate Initial(w: World)
  {
    w.queue == Queue([], map[]) && w.log == [] && w.late == map[]
  }

  // ----- the chain of tails -----

  /** `p` is the last call for address `a` before call `j`, if there is one. */
  ghost predicate IsLastBefore(calls: seq<Call>, a: Address, j: nat, p: Option<nat>)
    requires j <= |calls|
  {
    match p
    case None => forall i :: 0 <= i < j ==> calls[i].account.address != a
    case Some(k) => k < j && calls[k].account.address == a && forall i :: k < i < j ==> calls[i].account.address != a
  }

  function TailOf(q: Queue, a: Address): Option<nat>
  {
    if a in q.tails then Some(q.tails[a]) else None
  }

  ghost predicate CallOk(calls: seq<Call>, j: nat)
    requires j < |calls|
  {
    var call := calls[j];
    && IsLastBefore(calls, call.account.address, j, call.prev)
    && (call.resolved ==> call.status.Settled?)
    && (!call.status.Waiting? && call.prev.Some? ==> calls[call.prev.value].resolved)
  }

  ghost predicate Chained(q: Queue)
  {
    && (forall a :: IsLastBefore(q.calls, a, |q.calls|, TailOf(q, a)))
    && (forall j :: 0 <= j < |q.calls| ==> CallOk(q.calls, j))
  }

  lemma EnqueueChained(q: Queue, account: Account)
    requires Chained(q)
    ensures Chained(Enqueue(q, account))
  {
    var a := account.address;
    var r := Enqueue(q, account);
    assert IsLastBefore(q.calls, a, |q.calls|, TailOf(q, a));
    forall j | 0 <= j < |r.calls|
      ensures CallOk(r.calls, j)
    {
      if j < |q.calls| {
        assert CallOk(q.calls, j);
      }
    }
    forall b
      ensures IsLastBefore(r.calls, b, |r.calls|, TailOf(r, b))
    {
      assert IsLastBefore(q.calls, b, |q.calls|, TailOf(q, b));
    }
  }

  /** A call moves on without breaking the chain. */
  lemma CallMovesOn(q: Queue, i: nat, call: Call)
    requires Chained(q) && i < |q.calls|
    requires call.account == q.calls[i].account && call.prev == q.calls[i].prev
    requires q.calls[i].resolved ==> call.resolved
    requires call.resolved ==> call.status.Settled?
    requires !call.status.Waiting? ==> TailDone(q, call.prev)
    ensures Chained(q.(calls := q.calls[i := call]))
  {
    var r := q.(calls := q.calls[i := call]);
    assert forall j :: 0 <= j < |q.calls| ==> r.calls[j].account == q.calls[j].account;
    forall j | 0 <= j < |r.calls|
      ensures CallOk(r.calls, j)
    {
      assert CallOk(q.calls, j);
      assert IsLastBefore(r.calls, r.calls[j].account.address, j, r.calls[j].prev);
    }
    forall a
      ensures IsLastBefore(r.calls, a, |r.calls|, TailOf(r, a))
    {
      assert IsLastBefore(q.calls, a, |q.calls|, TailOf(q, a));
    }
  }

  lemma StepChained(w: World, e: Event)
    requires Chained(w.queue)
    ensures Chained(Step(w, e).queue)
  {
    if Enabled(w, e) {
      match e
      case Serialize(a) => EnqueueChained(w.queue, a);
      case LateAccept(_) =>
      case _ =>
        var i := e.call;
        assert CallOk(w.queue.calls, i);
        CallMovesOn(w.queue, i, Step(w, e).queue.calls[i]);
    }
  }

  /** Call order: once a call has started, every earlier call for its address is over. */
  lemma {:induction false} EarlierCallsAreOver(q: Queue, i: nat, j: nat)
    requires Chained(q) && i < j < |q.calls| && q.calls[i].account.address == q.calls[j].account.address
    requires !q.calls[j].status.Waiting?
    ensures q.calls[i].status.Settled? && q.calls[i].resolved
    decreases j
  {
    assert CallOk(q.calls, j);
    var p := q.calls[j].prev.value;
    assert CallOk(q.calls, p);
    if i < p {
      EarlierCallsAreOver(q, i, p);
    }
  }

  lemma {:induction false} RunChained(w: World, events: seq<Event>)
    requires Chained(w.queue)
    ensures Chained(Run(w, events).queue)
    decreases |events|
  {
    if events != [] {
      StepChained(w, events[0]);
      RunChained(Step(w, events[0]), events[1..]);
    }
  }

  predicate SameAddress(c: Call, d: Call)
  {
    c.account.address == d.account.address
  }

  /** One task per address at a time, in call order, in every reachable state: timeouts, failures and late
      acceptances included. */
  lemma OneAtATimeInOrder(w: World, events: seq<Event>)
    requires Initial(w)
    ensures var calls := Run(w, events).queue.calls;
            && (forall i, j ::
                  0 <= i < j < |calls| && SameAddress(calls[i], calls[j]) && !calls[j].status.Waiting? ==>
                  calls[i].status.Settled?)
            && (forall i, j :: 0 <= i < j < |calls| && SameAddress(calls[i], calls[j]) ==>
                  calls[i].status.Waiting? || calls[i].status.Settled?
                  || calls[j].status.Waiting? || calls[j].status.Settled?)
  {
    RunChained(w, events);
    var q := Run(w, events).queue;
    forall i, j | 0 <= i < j < |q.calls| && SameAddress(q.calls[i], q.calls[j]) && !q.calls[j].status.Waiting?
      ensures q.calls[i].status.Settled?
    {
      EarlierCallsAreOver(q, i, j);
    }
  }

  // ----- what a step does -----

  /** The call goes from the status to the other; no other call changes, and no stored tail. */
  ghost predicate Moves(w: World, after: World, i: nat, status: Status)
  {
    && i < |w.queue.calls|
    && after.queue == w.queue.(calls := w.queue.calls[i := w.queue.calls[i].(status := status)])
  }

  /** A task starts once the stored tail before it has resolved; it broadcasts with the pending count of its account;
      it fails on a failed read, and on a timeout, after which its broadcast may still land. */
  lemma TaskOutcome(w: World, i: nat)
    requires i < |w.queue.calls|
    ensures var call := w.queue.calls[i];
            && (Enabled(w, Start(i)) <==>
                  call.status == Waiting
                  && (call.prev.Some? ==> call.prev.value < |w.queue.calls| && w.queue.calls[call.prev.value].resolved))
            && (Enabled(w, Start(i)) ==> Moves(w, Step(w, Start(i)), i, Reading))
            && (call.status == Reading ==>
                  && Moves(w, Step(w, ReadNonce(i)), i, Broadcasting(Pending(w, call.account)))
                  && Moves(w, Step(w, ReadFails(i)), i, Settled(false)))
            && (call.status.Broadcasting? ==>
                  && Moves(w, Step(w, FnTimesOut(i)), i, Settled(false))
                  && Step(w, FnTimesOut(i)).late == w.late[i := Accepted(call.account, call.status.nonce)]
                  && Step(w, FnTimesOut(i)).log == w.log)
            && (call.status.Settled? && !call.resolved ==>
                  Step(w, TailResolves(i)).queue ==
                  w.queue.(calls := w.queue.calls[i := call.(resolved := true)]))
  {
  }

  /** A broadcast that ends in time settles its task as it ends, and counts if it was accepted; one that has timed
      out counts once at most. An accepted nonce raises the pending count of its account above it, and no other
      count. */
  lemma AcceptanceOutcome(w: World, i: nat, accepted: bool, ok: bool)
    ensures i < |w.queue.calls| && w.queue.calls[i].status.Broadcasting? && (ok ==> accepted) ==>
              var call := w.queue.calls[i];
              var after := Step(w, FnSettles(i, accepted, ok));
              && Moves(w, after, i, Settled(ok)) && after.late == w.late
              && if accepted then IsAccepted(w, after, Accepted(call.account, call.status.nonce))
                 else after.log == w.log && after.pending == w.pending
    ensures i in w.late ==>
              var after := Step(w, LateAccept(i));
              after.queue == w.queue && after.late == w.late - {i} && IsAccepted(w, after, w.late[i])
  {
  }

  ghost predicate IsAccepted(w: World, after: World, tx: Accepted)
  {
    && after.log == w.log + [tx]
    && Pending(after, tx.account) > tx.nonce && Pending(after, tx.account) >= Pending(w, tx.account)
    && (Pending(after, tx.account) == tx.nonce + 1 || Pending(after, tx.account) == Pending(w, tx.account))
    && forall a :: a != tx.account ==> Pending(after, a) == Pending(w, a)
  }

  // ----- a failed task stops no later one -----

  function Weight(call: Call): nat
  {
    match call.status
    case Waiting => 4
    case Reading => 3
    case Broadcasting(_) => 2
    case Settled(_) => if call.resolved then 0 else 1
  }

  function Work(calls: seq<Call>): nat
  {
    if calls == [] then 0 else Weight(calls[0]) + Work(calls[1..])
  }

  lemma {:induction false} WorkUpdate(calls: seq<Call>, i: nat, call: Call)
    requires i < |calls|
    ensures Work(calls[i := call]) == Work(calls) - Weight(calls[i]) + Weight(call)
  {
    var changed := calls[i := call];
    if i == 0 {
      assert changed[1..] == calls[1..];
    } else {
      WorkUpdate(calls[1..], i - 1, call);
      assert changed[1..] == calls[1..][i - 1 := call];
    }
  }

  /** Every step of a task, successful or not, uses up some of the work left. */
  lemma TaskStepsUseWork(w: World, e: Event)
    requires Enabled(w, e) && !e.Serialize? && !e.LateAccept?
    requires Chained(w.queue)
    ensures Work(Step(w, e).queue.calls) < Work(w.queue.calls)
  {
    assert CallOk(w.queue.calls, e.call);
    WorkUpdate(w.queue.calls, e.call, Step(w, e).queue.calls[e.call]);
  }

  /** A step that is a failure wherever a task could fail. */
  predicate IsPessimistic(e: Event)
  {
    e.Start? || e.ReadFails? || e.FnTimesOut? || e.TailResolves?
  }

  /** As long as a call is not over, some task can take a step, were it to fail. */
  lemma {:induction false} SomeStepEnabled(w: World, i: nat) returns (e: Event)
    requires Chained(w.queue) && i < |w.queue.calls| && !w.queue.calls[i].status.Settled?
    ensures Enabled(w, e) && IsPessimistic(e)
    decreases i
  {
    var call := w.queue.calls[i];
    assert CallOk(w.queue.calls, i);
    match call.status
    case Reading => e := ReadFails(i);
    case Broadcasting(_) => e := FnTimesOut(i);
    case Waiting =>
      if call.prev.None? || w.queue.calls[call.prev.value].resolved {
        e := Start(i);
      } else if w.queue.calls[call.prev.value].status.Settled? {
        e := TailResolves(call.prev.value);
      } else {
        e := SomeStepEnabled(w, call.prev.value);
      }
  }

  /** A failed task never poisons the queue: from every reachable state all calls can still finish, even if
      every task that is left fails. */
  lemma {:induction false} AllCallsFinish(w: World) returns (events: seq<Event>)
    requires Chained(w.queue)
    ensures forall k :: 0 <= k < |events| ==> IsPessimistic(events[k])
    ensures var calls := Run(w, events).queue.calls;
            |calls| == |w.queue.calls| && forall i :: 0 <= i < |calls| ==> calls[i].status.Settled?
    decreases Work(w.queue.calls)
  {
    if i :| 0 <= i < |w.queue.calls| && !w.queue.calls[i].status.Settled? {
      var e := SomeStepEnabled(w, i);
      TaskStepsUseWork(w, e);
      StepChained(w, e);
      var rest := AllCallsFinish(Step(w, e));
      events := [e] + rest;
      assert events[1..] == rest;
    } else {
      events := [];
    }
  }

  // ----- accepted nonces -----

  /** The accepted nonces of an account, in order. */
  function NoncesOf(log: seq<Accepted>, a: Account): seq<nat>
  {
    if log == [] then []
    else NoncesOf(log[..|log| - 1], a) + if log[|log| - 1].account == a then [log[|log| - 1].nonce] else []
  }

  /** Without a gap and without a repetition from `base` on. */
  ghost predicate Consecutive(nonces: seq<nat>, base: nat)
  {
    forall k :: 0 <= k < |nonces| ==> nonces[k] == base + k
  }

  /** The nonces so far are consecutive, the pending count is the next one, and a task that is broadcasting
      holds that one. */
  ghost predicate NoncesOk(w: World, start: World)
  {
    && (forall a :: Consecutive(NoncesOf(w.log, a), Pending(start, a))
                    && Pending(w, a) == Pending(start, a) + |NoncesOf(w.log, a)|)
    && (forall i :: 0 <= i < |w.queue.calls| && w.queue.calls[i].status.Broadcasting? ==>
          w.queue.calls[i].status.nonce == Pending(w, w.queue.calls[i].account))
  }

  lemma AcceptNext(w: World, start: World, tx: Accepted)
    requires forall a :: Consecutive(NoncesOf(w.log, a), Pending(start, a))
                         && Pending(w, a) == Pending(start, a) + |NoncesOf(w.log, a)|
    requires tx.nonce == Pending(w, tx.account)
    ensures var v := Accept(w, tx);
            forall a :: Consecutive(NoncesOf(v.log, a), Pending(start, a))
                        && Pending(v, a) == Pending(start, a) + |NoncesOf(v.log, a)|
  {
    var v := Accept(w, tx);
    assert v.log[..|w.log|] == w.log;
    forall a
      ensures Consecutive(NoncesOf(v.log, a), Pending(start, a))
              && Pending(v, a) == Pending(start, a) + |NoncesOf(v.log, a)|
    {
      assert Consecutive(NoncesOf(w.log, a), Pending(start, a));
    }
  }

  /** A broadcast that is accepted in time keeps the nonces consecutive. */
  lemma FnSettlesOk(w: World, start: World, i: nat, accepted: bool, ok: bool)
    requires Chained(w.queue) && NoncesOk(w, start) && Enabled(w, FnSettles(i, accepted, ok))
    ensures NoncesOk(Step(w, FnSettles(i, accepted, ok)), start)
  {
    var v := Step(w, FnSettles(i, accepted, ok));
    var call := w.queue.calls[i];
    if accepted {
      var done := w.(queue := WithStatus(w.queue, i, Settled(ok)));
      assert forall a :: Pending(done, a) == Pending(w, a);
      AcceptNext(done, start, Accepted(call.account, call.status.nonce));
      forall j | 0 <= j < |v.queue.calls| && v.queue.calls[j].status.Broadcasting?
        ensures v.queue.calls[j].status.nonce == Pending(v, v.queue.calls[j].account)
      {
        if SameAddress(w.queue.calls[j], call) && j != i {
          if i < j {
            EarlierCallsAreOver(w.queue, i, j);
          } else {
            EarlierCallsAreOver(w.queue, j, i);
          }
        }
      }
    } else {
      assert forall a :: Pending(v, a) == Pending(w, a);
    }
  }

  lemma StepNonces(w: World, start: World, e: Event)
    requires Chained(w.queue) && NoncesOk(w, start)
    requires !(e.LateAccept? && Enabled(w, e))
    ensures NoncesOk(Step(w, e), start)
  {
    if e.FnSettles? {
      if Enabled(w, e) {
        FnSettlesOk(w, start, e.call, e.accepted, e.ok);
      }
    } else {
      assert forall a :: Pending(Step(w, e), a) == Pending(w, a);
    }
  }

  /** No broadcast is accepted after its timeout. */
  ghost predicate NeverLate(w: World, events: seq<Event>)
    decreases |events|
  {
    events != [] ==> !(events[0].LateAccept? && Enabled(w, events[0])) && NeverLate(Step(w, events[0]), events[1..])
  }

  lemma {:induction false} RunNonces(w: World, start: World, events: seq<Event>)
    requires Chained(w.queue) && NoncesOk(w, start) && NeverLate(w, events)
    ensures NoncesOk(Run(w, events), start)
    decreases |events|
  {
    if events != [] {
      StepChained(w, events[0]);
      StepNonces(w, start, events[0]);
      RunNonces(Step(w, events[0]), start, events[1..]);
    }
  }

  ghost predicate NoTimeouts(events: seq<Event>)
  {
    forall k :: 0 <= k < |events| ==> !events[k].FnTimesOut?
  }

  lemma {:induction false} NoTimeoutsNeverLate(w: World, events: seq<Event>)
    requires w.late == map[] && NoTimeouts(events)
    ensures NeverLate(w, events)
    decreases |events|
  {
    if events != [] {
      assert Step(w, events[0]).late == map[];
      NoTimeoutsNeverLate(Step(w, events[0]), events[1..]);
    }
  }

  /** The accepted nonces of every account count up from the pending count at the start. */
  ghost predicate AllConsecutive(w: World, start: World)
  {
    forall a :: Consecutive(NoncesOf(w.log, a), Pending(start, a))
  }

  /** For any number of concurrent callers, failed reads, failed and lost broadcasts: if no broadcast is
      accepted after its timeout, the accepted nonces of every account are consecutive. */
  lemma AcceptedAreConsecutive(w: World, events: seq<Event>)
    requires Initial(w) && NeverLate(w, events)
    ensures AllConsecutive(Run(w, events), w)
  {
    RunNonces(w, w, events);
  }

  const A0 := Account(0, 0)

  /** A broadcast times out, the next call broadcasts, and the first broadcast is accepted after all: both
      transactions carry nonce 0. */
  lemma LateBroadcastRepeatsNonce() returns (w: World, events: seq<Event>)
    ensures Initial(w) && NoncesOf(Run(w, events).log, A0) == [0, 0]
    ensures |events| == 10 && events[4] == FnTimesOut(0) && events[9] == LateAccept(0)
  {
    w := World(Queue([], map[]), map[], [], map[]);
    var first, v := FirstTimesOut(w);
    var later := SecondThenLate(v);
    RunAppend(w, first, later);
    events := first + later;
  }

  lemma FirstTimesOut(w: World) returns (events: seq<Event>, v: World)
    requires w == World(Queue([], map[]), map[], [], map[])
    ensures |events| == 5 && events[4] == FnTimesOut(0) && v == Run(w, events)
    ensures v.queue.calls == [Call(A0, None, Settled(false), false), Call(A0, Some(0), Waiting, false)]
    ensures Pending(v, A0) == 0 && v.log == [] && v.late == map[0 := Accepted(A0, 0)]
  {
    events := [Serialize(A0), Serialize(A0), Start(0), ReadNonce(0), FnTimesOut(0)];
    var w1 := Step(w, Serialize(A0));
    var w2 := Step(w1, Serialize(A0));
    assert w2.queue.calls == [Call(A0, None, Waiting, false), Call(A0, Some(0), Waiting, false)];
    var w3 := Step(w2, Start(0));
    var w4 := Step(w3, ReadNonce(0));
    assert w4.queue.calls == [Call(A0, None, Broadcasting(0), false), Call(A0, Some(0), Waiting, false)];
    v := RunFive(w, Serialize(A0), Serialize(A0), Start(0), ReadNonce(0), FnTimesOut(0));
    assert v == Step(w4, FnTimesOut(0));
  }

  lemma SecondThenLate(v: World) returns (events: seq<Event>)
    requires v.queue.calls == [Call(A0, None, Settled(false), false), Call(A0, Some(0), Waiting, false)]
    requires Pending(v, A0) == 0 && v.log == [] && v.late == map[0 := Accepted(A0, 0)]
    ensures |events| == 5 && events[4] == LateAccept(0)
    ensures NoncesOf(Run(v, events).log, A0) == [0, 0]
  {
    events := [TailResolves(0), Start(1), ReadNonce(1), FnSettles(1, true, true), LateAccept(0)];
    var v1 := Step(v, TailResolves(0));
    var v2 := Step(v1, Start(1));
    assert v2.queue.calls == [Call(A0, None, Settled(false), true), Call(A0, Some(0), Reading, false)];
    var v3 := Step(v2, ReadNonce(1));
    assert v3.queue.calls[1] == Call(A0, Some(0), Broadcasting(0), false);
    var v4 := Step(v3, FnSettles(1, true, true));
    assert v4.log == [] + [Accepted(A0, 0)] && v4.late == v.late;
    var u := RunFive(v, TailResolves(0), Start(1), ReadNonce(1), FnSettles(1, true, true), LateAccept(0));
    assert u == Step(v4, LateAccept(0));
    assert u.log == [Accepted(A0, 0), Accepted(A0, 0)];
    TwiceNonceZero(A0);
  }

  lemma TwiceNonceZero(a: Account)
    ensures NoncesOf([Accepted(a, 0), Accepted(a, 0)], a) == [0, 0]
  {
    assert [Accepted(a, 0), Accepted(a, 0)][..1] == [Accepted(a, 0)] && [Accepted(a, 0)][..0] == [];
    assert NoncesOf([], a) == [] && NoncesOf([Accepted(a, 0)], a) == [0];
  }

  lemma RunFive(w: World, a: Event, b: Event, c: Event, d: Event, e: Event) returns (v: World)
    ensures v == Run(w, [a, b, c, d, e])
    ensures v == Step(Step(Step(Step(Step(w, a), b), c), d), e)
  {
    v := Run(w, [a, b, c, d, e]);
    var w1 := Step(w, a);
    var w2 := Step(w1, b);
    var w3 := Step(w2, c);
    assert [a, b, c, d, e][1..] == [b, c, d, e] && [b, c, d, e][1..] == [c, d, e] && [c, d, e][1..] == [d, e];
    assert Run(w3, [d, e]) == Run(Step(w3, d), [e]);
    assert Run(Step(w3, d), [e]) == Step(Step(w3, d), e);
    assert Run(w2, [c, d, e]) == Run(w3, [d, e]);
  }

  lemma {:induction false} RunAppend(w: World, first: seq<Event>, later: seq<Event>)
    ensures Run(w, first + later) == Run(Run(w, first), later)
    decreases |first|
  {
    if first == [] {
      assert first + later == later;
    } else {
      assert (first + later)[1..] == first[1..] + later;
      RunAppend(Step(w, first[0]), first[1..], later);
    }
  }

  /** The transaction that an event makes the chain accept, if any. */
  function Accepts(w: World, e: Event): Option<Accepted>
  {
    if !Enabled(w, e) then None
    else
      match e
      case FnSettles(i, true, _) => Some(Accepted(w.queue.calls[i].account, w.queue.calls[i].status.nonce))
      case LateAccept(i) => Some(w.late[i])
      case _ => None
  }

  /** Another transaction has taken the pending count past this one's nonce. */
  predicate IsStale(w: World, tx: Option<Accepted>)
  {
    tx.Some? && tx.value.nonce != Pending(w, tx.value.account)
  }

  /** Every transaction is accepted while its nonce is still the pending count of its account. */
  ghost predicate NeverStale(w: World, events: seq<Event>)
    decreases |events|
  {
    events != [] ==>
      && !IsStale(w, Accepts(w, events[0]))
      && NeverStale(Step(w, events[0]), events[1..])
  }

  /** So far the nonces are consecutive, and the pending counts cover exactly them. */
  ghost predicate CountsMatch(w: World, start: World)
  {
    forall a :: Consecutive(NoncesOf(w.log, a), Pending(start, a))
                && Pending(w, a) == Pending(start, a) + |NoncesOf(w.log, a)|
  }

  lemma StepAccepts(w: World, e: Event)
    ensures var tx, v := Accepts(w, e), Step(w, e);
            v.log == (if tx.Some? then w.log + [tx.value] else w.log)
            && v.pending == if tx.Some? then Accept(w, tx.value).pending else w.pending
  {
  }

  lemma FreshStepMatches(w: World, start: World, e: Event)
    requires CountsMatch(w, start)
    requires !IsStale(w, Accepts(w, e))
    ensures CountsMatch(Step(w, e), start)
  {
    var v := Step(w, e);
    StepAccepts(w, e);
    if Accepts(w, e).Some? {
      AcceptNext(w, start, Accepts(w, e).value);
      assert forall a :: Pending(v, a) == Pending(Accept(w, Accepts(w, e).value), a);
    } else {
      assert forall a :: Pending(v, a) == Pending(w, a);
    }
  }

  /** Nonces are only added at the end. */
  lemma {:induction false} NoncesGrow(w: World, events: seq<Event>, a: Account)
    ensures NoncesOf(w.log, a) <= NoncesOf(Run(w, events).log, a)
    decreases |events|
  {
    if events != [] {
      var v := Step(w, events[0]);
      StepAccepts(w, events[0]);
      if v.log != w.log {
        assert v.log[..|v.log| - 1] == w.log;
      }
      NoncesGrow(v, events[1..], a);
    }
  }

  /** Exactly when the accepted nonces are consecutive: if and only if no transaction, late or in time, is
      accepted after another has taken the pending count past its nonce. A late acceptance before the next
      read is harmless. */
  lemma {:induction false} ConsecutiveIffNeverStale(w: World, start: World, events: seq<Event>)
    requires CountsMatch(w, start)
    ensures AllConsecutive(Run(w, events), start) <==> NeverStale(w, events)
    decreases |events|
  {
    if events != [] {
      var e := events[0];
      var v := Step(w, e);
      var tx := Accepts(w, e);
      if IsStale(w, tx) {
        var a := tx.value.account;
        StepAccepts(w, e);
        assert v.log[..|v.log| - 1] == w.log;
        var n := |NoncesOf(w.log, a)|;
        assert NoncesOf(v.log, a)[n] == tx.value.nonce != Pending(start, a) + n;
        NoncesGrow(v, events[1..], a);
        assert NoncesOf(Run(w, events).log, a)[n] == tx.value.nonce;
        assert !Consecutive(NoncesOf(Run(w, events).log, a), Pending(start, a));
      } else {
        FreshStepMatches(w, start, e);
        ConsecutiveIffNeverStale(v, start, events[1..]);
      }
    }
  }

  ghost predicate AlwaysConsecutive(timeouts: bool)
  {
    forall w, events :: Initial(w) && (timeouts || NoTimeouts(events)) ==> AllConsecutive(Run(w, events), w)
  }

  /** Nonces are consecutive in every run if and only if broadcasts do not time out. */
  lemma ConsecutiveIffNoTimeouts(timeouts: bool)
    ensures AlwaysConsecutive(timeouts) <==> !timeouts
  {
    if timeouts {
      var w, events := LateBroadcastRepeatsNonce();
      assert NoncesOf(Run(w, events).log, A0)[1] != Pending(w, A0) + 1;
    } else {
      forall w, events | Initial(w) && NoTimeouts(events)
        ensures AllConsecutive(Run(w, events), w)
      {
        NoTimeoutsNeverLate(w, events);
        AcceptedAreConsecutive(w, events);
      }
    }
  }

  // ----- the manager object -----

  class NonceManagerService {
    var calls: seq<Call>
    var tails: map<Address, nat>

    constructor ()
      ensures View() == Queue([], map[])
    {
      calls, tails := [], map[];
    }

    ghost function View(): Queue
      reads this
    {
      Queue(calls, tails)
    }

    /** Chains a task onto the stored tail of the address and stores the new tail. */
    method Serialize(account: Account) returns (id: nat)
      modifies this
      ensures View() == Enqueue(old(View()), account) && id == |old(calls)|
    {
      var tail := None;
      if account.address in tails {
        tail := Some(tails[account.address]);
      }
      id := |calls|;
      calls := calls + [Call(account, tail, Waiting, false)];
      tails := tails[account.address := id];
    }
  }
}
