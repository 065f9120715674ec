/**
 * The in-process event bus and its completion ledger. `Publish` runs every subscribed handler that
 * is not recorded as done and reports the ones that failed; handlers are identified by event type
 * and registration order.
 */
module EventBus {
  import opened HandlerKeys
  import opened RetryBackoff

  /** A subscribed function, by identity. */
  type Handler = nat

  /** Completion records with their expiry times. */
  class HandlerLedger {
    var done: map<string, int>

    constructor ()
      ensures done == map[]
    {
      done := map[];
    }

    predicate IsDone(key: string, now: int)
      reads this
    {
      key in done && now < done[key]
    }

    method MarkDone(key: string, now: int)
      modifies this
      ensures done == old(done)[key := now + LEDGER_TTL_MS]
      ensures forall t :: IsDone(key, t) <==> t < now + LEDGER_TTL_MS
    {
      done := done[key := now + LEDGER_TTL_MS];
    }
  }

  datatype Recording = Recorded | NotRecorded | RecordedButErrored

  /** What the outside world does to one handler call. */
  datatype Outcome = Outcome(ledgerReplies: bool, handlerSucceeds: bool, recording: Recording)

  class InProcessEventBus {
    var handlers: map<string, seq<Handler>>
    const ledger: HandlerLedger

    constructor (ledger: HandlerLedger)
      ensures handlers == map[] && this.ledger == ledger
    {
      handlers := map[];
      this.ledger := ledger;
    }

    function HandlersFor(eventType: string): seq<Handler>
      reads this
    {
      if eventType in handlers then handlers[eventType] else []
    }

    method Subscribe(eventType: string, handler: Handler)
      modifies this
      ensures HandlersFor(eventType) == old(HandlersFor(eventType)) + [handler]
      ensures forall t :: t != eventType ==> HandlersFor(t) == old(HandlersFor(t))
    {
      if eventType !in handlers {
        handlers := handlers[eventType := []];
      }
      handlers := handlers[eventType := handlers[eventType] + [handler]];
    }

    method Unsubscribe(eventType: string, handler: Handler)
      modifies this
      ensures HandlersFor(eventType) == Without(old(HandlersFor(eventType)), handler)
      ensures forall t :: t != eventType ==> HandlersFor(t) == old(HandlersFor(t))
    {
      var filtered: seq<Handler> := [];
      var before := if eventType in handlers then handlers[eventType] else [];
      for k := 0 to |before|
        invariant filtered == Without(before[..k], handler)
      {
        if before[k] != handler {
          filtered := filtered + [before[k]];
        }
        assert before[..k + 1][..k] == before[..k];
      }
      assert before[..|before|] == before;
      handlers := handlers[eventType := filtered];
    }

    /**
     * Delivers an event to all its handlers. `outcomes[i]` is the fate of handler i at time `now`;
     * `failures` are the handlers whose promise rejected, `ran` those that completed in this delivery.
     */
    method Publish(eventId: string, eventType: string, outcomes: seq<Outcome>, now: int)
      returns (failures: seq<nat>, ran: set<nat>)
      requires |outcomes| == |HandlersFor(eventType)|
      modifies ledger
      ensures var keys := Keys(eventId, eventType, |outcomes|);
              && (forall i: nat :: i in ran <==> Completes(old(ledger.done), keys, outcomes, now, i))
              && (forall i: nat :: i in failures <==> Rejects(old(ledger.done), keys, outcomes, now, i))
      ensures forall i, j :: 0 <= i < j < |failures| ==> failures[i] < failures[j]
      // the delivery throws exactly when some handler rejects
      ensures failures == [] <==>
                forall i: nat :: !Rejects(old(ledger.done), Keys(eventId, eventType, |outcomes|), outcomes, now, i)
      // a delivery that does not throw leaves every handler done, now or before
      ensures failures == [] ==> forall i: nat :: i < |outcomes| ==>
                (i in ran || DoneIn(old(ledger.done), HandlerKey(eventId, eventType, i), now))
                && DoneIn(ledger.done, HandlerKey(eventId, eventType, i), now)
      // the ledger gains records of completed handlers only, and loses none
      ensures forall key :: key in ledger.done ==>
                Explained(old(ledger.done), ledger.done, key, Keys(eventId, eventType, |outcomes|), now, ran)
      ensures old(ledger.done).Keys <= ledger.done.Keys
    {
      failures, ran := [], {};
      ghost var keys := Keys(eventId, eventType, |outcomes|);
      KeysOfOneEvent(eventId, eventType);
      for index := 0 to |outcomes|
        invariant Reported(old(ledger.done), keys, outcomes, now, index, failures, ran)
        invariant Written(old(ledger.done), ledger.done, keys, now, index, failures, ran)
      {
        ghost var done := ledger.done;
        var ok, completed := RunOnce(eventId, eventType, index, outcomes[index], now);
        ReportedStep(old(ledger.done), done, ledger.done, keys, outcomes, now, index, failures, ran, ok, completed);
        WrittenStep(old(ledger.done), done, ledger.done, keys, outcomes[index], now, index, failures, ran, ok,
                    completed);
        ran := if completed then ran + {index} else ran;
        failures := if ok then failures else failures + [index];
      }
      assert failures == [] ==> forall i: nat :: i < |outcomes| ==> DoneIn(ledger.done, keys[i], now);
      assert failures != [] ==> failures[0] in failures && Rejects(old(ledger.done), keys, outcomes, now, failures[0]);
    }

    /** One handler: skipped when recorded as done, otherwise run and then recorded. */
    method RunOnce(eventId: string, eventType: string, index: nat, outcome: Outcome, now: int)
      returns (ok: bool, completed: bool)
      modifies ledger
      ensures HandledOnce(old(ledger.done), ledger.done, HandlerKey(eventId, eventType, index), outcome, now, ok,
                          completed)
    {
      var key := HandlerKey(eventId, eventType, index);
      if !outcome.ledgerReplies {
        return false, false;
      }
      if ledger.IsDone(key, now) {
        return true, false;
      }
      if !outcome.handlerSucceeds {
        return false, false;
      }
      match outcome.recording {
        case Recorded =>
          ledger.MarkDone(key, now);
          return true, true;
        case NotRecorded =>
          return false, true;
        case RecordedButErrored =>
          ledger.MarkDone(key, now);
          return false, true;
      }
    }
  }

  predicate DoneIn(done: map<string, int>, key: string, now: int) {
    key in done && now < done[key]
  }

  predicate KeptAt(before: map<string, int>, after: map<string, int>, key: string) {
    (key in before <==> key in after) && (key in before ==> before[key] == after[key])
  }

  /** The keys of an event's first `n` handlers. */
  function Keys(eventId: string, eventType: string, n: nat): (keys: seq<string>)
    ensures |keys| == n && forall i :: 0 <= i < n ==> keys[i] == HandlerKey(eventId, eventType, i)
  {
    seq(n, i requires 0 <= i < n => HandlerKey(eventId, eventType, i))
  }

  /** Handler i runs to completion in a delivery that starts with this ledger. */
  predicate Completes(done: map<string, int>, keys: seq<string>, outcomes: seq<Outcome>, now: int, i: nat)
    requires |keys| == |outcomes|
  {
    && i < |outcomes| && outcomes[i].ledgerReplies && outcomes[i].handlerSucceeds
    && !DoneIn(done, keys[i], now)
  }

  /** Handler i's promise rejects: no ledger reply, a failing handler, or a failing recording. */
  predicate Rejects(done: map<string, int>, keys: seq<string>, outcomes: seq<Outcome>, now: int, i: nat)
    requires |keys| == |outcomes|
  {
    && i < |outcomes|
    && (!outcomes[i].ledgerReplies
        || (!DoneIn(done, keys[i], now) && !(outcomes[i].handlerSucceeds && outcomes[i].recording.Recorded?)))
  }

  /** One handler call: skipped when recorded as done, else run, and recorded when it completed. */
  predicate HandledOnce(before: map<string, int>, after: map<string, int>, key: string, outcome: Outcome, now: int,
                        ok: bool, completed: bool) {
    var skipped := DoneIn(before, key, now);
    && completed == (outcome.ledgerReplies && !skipped && outcome.handlerSucceeds)
    && ok == (outcome.ledgerReplies && (skipped || (completed && outcome.recording.Recorded?)))
    && after == (if completed && !outcome.recording.NotRecorded? then before[key := now + LEDGER_TTL_MS] else before)
  }

  /** A ledger entry was there before, or records a completion of this delivery. */
  ghost predicate Explained(before: map<string, int>, done: map<string, int>, key: string, keys: seq<string>, now: int,
                            ran: set<nat>)
    requires key in done
  {
    || (key in before && done[key] == before[key])
    || (exists i :: 0 <= i < |keys| && i in ran && key == keys[i] && done[key] == now + LEDGER_TTL_MS)
  }

  /** A delivery after its first `index` handlers: what it reports. */
  ghost predicate Reported(before: map<string, int>, keys: seq<string>, outcomes: seq<Outcome>, now: int, index: nat,
                           failures: seq<nat>, ran: set<nat>)
    requires |keys| == |outcomes|
  {
    && index <= |outcomes|
    && (forall i: nat :: i in ran <==> i < index && Completes(before, keys, outcomes, now, i))
    && (forall i: nat :: i in failures <==> i < index && Rejects(before, keys, outcomes, now, i))
    && AscendingBelow(failures, index)
  }

  predicate AscendingBelow(xs: seq<nat>, n: nat) {
    && (forall i :: 0 <= i < |xs| ==> xs[i] < n)
    && (forall i, j :: 0 <= i < j < |xs| ==> xs[i] < xs[j])
  }

  lemma AppendNext(xs: seq<nat>, n: nat)
    requires AscendingBelow(xs, n)
    ensures AscendingBelow(xs, n + 1) && AscendingBelow(xs + [n], n + 1)
    ensures forall i: nat :: i in xs + [n] <==> i in xs || i == n
  {
  }

  /** A delivery after its first `index` handlers: the ledger. */
  ghost predicate Written(before: map<string, int>, done: map<string, int>, keys: seq<string>, now: int, index: nat,
                          failures: seq<nat>, ran: set<nat>)
  {
    && index <= |keys|
    && (forall i: nat :: i < index && i !in failures ==> DoneIn(done, keys[i], now))
    && (forall i: nat :: index <= i < |keys| ==> KeptAt(before, done, keys[i]))
    && (forall key :: key in done ==> Explained(before, done, key, keys, now, ran))
    && before.Keys <= done.Keys
  }

  lemma ReportedStep(before: map<string, int>, done: map<string, int>, done': map<string, int>, keys: seq<string>,
                     outcomes: seq<Outcome>, now: int, index: nat, failures: seq<nat>, ran: set<nat>,
                     ok: bool, completed: bool)
    requires |keys| == |outcomes| && index < |outcomes| && KeptAt(before, done, keys[index])
    requires Reported(before, keys, outcomes, now, index, failures, ran)
    requires HandledOnce(done, done', keys[index], outcomes[index], now, ok, completed)
    ensures Reported(before, keys, outcomes, now, index + 1,
                     if ok then failures else failures + [index], if completed then ran + {index} else ran)
  {
    assert ok <==> !Rejects(before, keys, outcomes, now, index);
    assert completed <==> Completes(before, keys, outcomes, now, index);
    AppendNext(failures, index);
  }

  lemma WrittenStep(before: map<string, int>, done: map<string, int>, done': map<string, int>, keys: seq<string>,
                    outcome: Outcome, now: int, index: nat, failures: seq<nat>, ran: set<nat>, ok: bool,
                    completed: bool)
    requires index < |keys| && forall i, j :: 0 <= i < j < |keys| ==> keys[i] != keys[j]
    requires Written(before, done, keys, now, index, failures, ran)
    requires HandledOnce(done, done', keys[index], outcome, now, ok, completed)
    ensures Written(before, done', keys, now, index + 1,
                    if ok then failures else failures + [index], if completed then ran + {index} else ran)
  {
    var failures' := if ok then failures else failures + [index];
    var ran' := if completed then ran + {index} else ran;
    forall i: nat | i < index + 1 && i !in failures'
      ensures DoneIn(done', keys[i], now)
    {
      assert i !in failures;
    }
    forall k | k in done'
      ensures Explained(before, done', k, keys, now, ran')
    {
      if k != keys[index] || done' == done {
        assert Explained(before, done, k, keys, now, ran);
      } else {
        assert index in ran';
      }
    }
  }

  /** Handlers of one event never share a key, whatever the event type is called. */
  lemma KeysOfOneEvent(eventId: string, eventType: string)
    ensures forall i: nat, j: nat :: HandlerKey(eventId, eventType, i) == HandlerKey(eventId, eventType, j) ==> i == j
  {
    forall i: nat, j: nat | HandlerKey(eventId, eventType, i) == HandlerKey(eventId, eventType, j)
      ensures i == j
    {
      HandlerKeyEqualIff(eventId, eventType, i, eventId, eventType, j);
    }
  }

  // ---------------------------------------------------------- stability of handler positions

  function Without(handlers: seq<Handler>, h: Handler): seq<Handler> {
    if handlers == [] then []
    else
      var last := |handlers| - 1;
      Without(handlers[..last], h) + (if handlers[last] == h then [] else [handlers[last]])
  }

  /** A completion record written for position i still means the same handler. */
  ghost predicate PositionsStable(before: seq<Handler>, after: seq<Handler>) {
    forall i :: 0 <= i < |before| && i < |after| ==> after[i] == before[i]
  }

  lemma {:induction false} WithoutFacts(handlers: seq<Handler>, h: Handler)
    ensures |Without(handlers, h)| <= |handlers|
    ensures h !in Without(handlers, h)
    ensures h !in handlers ==> Without(handlers, h) == handlers
  {
    if handlers != [] {
      WithoutFacts(handlers[..|handlers| - 1], h);
    }
  }

  lemma {:induction false} WithoutConcat(a: seq<Handler>, b: seq<Handler>, h: Handler)
    ensures Without(a + b, h) == Without(a, h) + Without(b, h)
  {
    if b == [] {
      assert a + b == a;
    } else {
      assert (a + b)[..|a + b| - 1] == a + b[..|b| - 1];
      WithoutConcat(a, b[..|b| - 1], h);
    }
  }

  /**
   * Whatever is registered afterwards, unsubscribing keeps the meaning of completion records exactly when
   * it removes nothing: the position it frees is taken over by the next handler, registered before or later.
   */
  lemma UnsubscribeStableIff(handlers: seq<Handler>, h: Handler)
    ensures (forall later: seq<Handler> :: PositionsStable(handlers, Without(handlers, h) + later)) <==> h !in handlers
  {
    WithoutFacts(handlers, h);
    if h in handlers {
      var first := FirstPosition(handlers, h);
      WithoutFrom(handlers, h, first);
      var later := [h + 1];
      assert (Without(handlers, h) + later)[first] != handlers[first];
      assert !PositionsStable(handlers, Without(handlers, h) + later);
    }
  }

  /** One successful delivery to a single handler that is not recorded yet. */
  method DeliverToOne(bus: InProcessEventBus, eventId: string, eventType: string, now: int)
    returns (failures: seq<nat>, ran: set<nat>)
    requires |bus.HandlersFor(eventType)| == 1
    modifies bus.ledger
    ensures failures == []
    ensures ran == if old(DoneIn(bus.ledger.done, HandlerKey(eventId, eventType, 0), now)) then {} else {0}
    ensures DoneIn(bus.ledger.done, HandlerKey(eventId, eventType, 0), now)
  {
    failures, ran := bus.Publish(eventId, eventType, [Outcome(true, true, Recorded)], now);
    assert forall i: nat :: i in ran ==> i == 0;
  }

  /** A handler that takes over a position is skipped, without ever having run, for events recorded before. */
  method TakenOverPositionIsSkipped(bus: InProcessEventBus, eventId: string, eventType: string, h: Handler, g: Handler,
                                    now: int)
    returns (first: set<nat>, failures: seq<nat>, ran: set<nat>)
    requires bus.HandlersFor(eventType) == [] && bus.ledger.done == map[] && g != h
    modifies bus, bus.ledger
    ensures first == {0}   // h ran
    ensures bus.HandlersFor(eventType) == [g] && failures == [] && ran == {}
  {
    bus.Subscribe(eventType, h);
    var none;
    none, first := DeliverToOne(bus, eventId, eventType, now);
    bus.Unsubscribe(eventType, h);
    assert [h][..0] == [];
    bus.Subscribe(eventType, g);
    failures, ran := DeliverToOne(bus, eventId, eventType, now);
  }

  ghost predicate AllAre(handlers: seq<Handler>, h: Handler) {
    forall j :: 0 <= j < |handlers| ==> handlers[j] == h
  }

  /** Removal keeps everything before the first occurrence; what follows moves up unless all of it goes. */
  lemma WithoutFrom(handlers: seq<Handler>, h: Handler, first: nat)
    requires first < |handlers| && handlers[first] == h && h !in handlers[..first]
    ensures var after := Without(handlers, h);
            if AllAre(handlers[first..], h) then after == handlers[..first]
            else |after| > first && after[first] != h && after[..first] == handlers[..first]
  {
    var before, rest := handlers[..first], handlers[first..];
    var moved := Without(rest, h);
    assert Without(handlers, h) == before + moved by {
      assert handlers == before + rest;
      WithoutConcat(before, rest, h);
      WithoutFacts(before, h);
    }
    OnlyThat(rest, h);
    if moved != [] {
      WithoutFacts(rest, h);
      assert moved[0] in moved;
    }
  }

  function FirstPosition(handlers: seq<Handler>, h: Handler): (first: nat)
    requires h in handlers
    ensures first < |handlers| && handlers[first] == h && h !in handlers[..first]
  {
    if handlers[0] == h then 0
    else
      var rest := handlers[1..];
      assert h in rest;
      var f := FirstPosition(rest, h);
      assert handlers[..f + 1] == [handlers[0]] + rest[..f];
      f + 1
  }

  lemma {:induction false} OnlyThat(handlers: seq<Handler>, h: Handler)
    ensures Without(handlers, h) == [] <==> AllAre(handlers, h)
  {
    if handlers != [] {
      OnlyThat(handlers[..|handlers| - 1], h);
    }
  }
}
