/**
 * Ticket numbering under a row lock. Creating a ticket is a transaction: take the next number (which
 * locks the tenant's sequence row until commit), count today's tickets, check the cap, insert.
 * Transactions of one tenant interleave at statement grain and may roll back at any point.
 */
module Tickets {
  import opened Prelude

  const DAY_MS: int := 86_400_000

  /** Start of the UTC day of an epoch time, as an index of days. */
  function DayOf(time: int): int { time / DAY_MS }

  function StartOfUtcDay(time: int): int { DayOf(time) * DAY_MS }

  datatype Ticket = Ticket(number: nat, createdAt: int)

  type TxId = string

  datatype Tx =
    | Numbered(number: nat)                          // holds the row lock
    | Counted(number: nat, readAt: int, allowed: bool)
    | Inserted(ticket: Ticket)

  datatype State = State(
    cap: int,                     // maxTicketsPerDay
    active: bool,                 // the tenant's status admits new tickets
    lastNumber: nat,              // committed value of the sequence row; 0 when the row is missing
    tickets: seq<Ticket>,         // committed tickets in commit order
    lock: Option<TxId>,
    txs: map<TxId, Tx>)

  datatype Action =
    | TakeNumber(tx: TxId)
    | Count(tx: TxId, now: int)
    | Insert(tx: TxId, createdAt: int)
    | Commit(tx: TxId)
    | Rollback(tx: TxId)

  /** `countCreatedSince`: committed tickets created at or after a time. */
  function CountSince(tickets: seq<Ticket>, since: int): nat {
    if tickets == [] then 0
    else
      var last := |tickets| - 1;
      CountSince(tickets[..last], since) + (if tickets[last].createdAt >= since then 1 else 0)
  }

  /** The positions of the tickets created at or after a time. */
  ghost function CreatedSince(tickets: seq<Ticket>, since: int): set<int> {
    set i | 0 <= i < |tickets| && tickets[i].createdAt >= since
  }

  lemma {:induction false} CountSinceCounts(tickets: seq<Ticket>, since: int)
    ensures CountSince(tickets, since) == |CreatedSince(tickets, since)|
  {
    if tickets != [] {
      var last := |tickets| - 1;
      CountSinceCounts(tickets[..last], since);
      var before := CreatedSince(tickets[..last], since);
      assert CreatedSince(tickets, since) == if tickets[last].createdAt >= since then before + {last} else before;
    }
  }

  predicate Enabled(s: State, a: Action) {
    match a
    // a second transaction waits for the row lock
    case TakeNumber(tx) => tx !in s.txs && s.lock.None?
    case Count(tx, _) => tx in s.txs && s.txs[tx].Numbered?
    case Insert(tx, _) => tx in s.txs && s.txs[tx].Counted? && s.txs[tx].allowed
    case Commit(tx) => tx in s.txs && s.txs[tx].Inserted?
    case Rollback(tx) => tx in s.txs
  }

  /** The tenant limits policy. */
  predicate CanCreateTicket(s: State, createdToday: nat) {
    s.active && createdToday < s.cap
  }

  /** The policy in terms of the columns: the tenant is active and has created fewer tickets than its cap today. */
  ghost predicate Admits(active: bool, cap: int, tickets: seq<Ticket>, now: int) {
    active && |CreatedSince(tickets, now - now % (24 * 60 * 60 * 1000))| < cap
  }

  lemma PolicyAdmits(s: State, tickets: seq<Ticket>, now: int)
    ensures CanCreateTicket(s, CountSince(tickets, StartOfUtcDay(now))) <==> Admits(s.active, s.cap, tickets, now)
  {
    CountSinceCounts(tickets, StartOfUtcDay(now));
    assert StartOfUtcDay(now) == now - now % (24 * 60 * 60 * 1000);
  }

  function Apply(s: State, a: Action): State
    requires Enabled(s, a)
  {
    match a
    case TakeNumber(tx) => s.(lock := Some(tx), txs := s.txs[tx := Numbered(s.lastNumber + 1)])
    case Count(tx, now) =>
      var allowed := CanCreateTicket(s, CountSince(s.tickets, StartOfUtcDay(now)));
      s.(txs := s.txs[tx := Counted(s.txs[tx].number, now, allowed)])
    case Insert(tx, createdAt) => s.(txs := s.txs[tx := Inserted(Ticket(s.txs[tx].number, createdAt))])
    case Commit(tx) =>
      State(s.cap, s.active, s.txs[tx].ticket.number, s.tickets + [s.txs[tx].ticket], None, s.txs - {tx})
    case Rollback(tx) => s.(lock := None, txs := s.txs - {tx})
  }

  predicate Initial(s: State) {
    s.lastNumber == 0 && s.tickets == [] && s.lock.None? && s.txs == map[]
  }

  ghost predicate Step(s: State, a: Action, t: State) {
    Enabled(s, a) && t == Apply(s, a)
  }

  ghost predicate IsRun(ss: seq<State>, acts: seq<Action>) {
    && |ss| == |acts| + 1
    && forall i :: 0 <= i < |acts| ==> Step(ss[i], acts[i], ss[i + 1])
  }

  // --------------------------------------------------------------------------- invariant

  function NumberOf(tx: Tx): nat {
    match tx
    case Numbered(n) => n
    case Counted(n, _, _) => n
    case Inserted(t) => t.number
  }

  /** Only the lock holder is in progress, with the next number; committed numbers run 1, 2, 3, ... */
  ghost predicate Inv(s: State) {
    && (forall tx :: tx in s.txs ==> s.lock == Some(tx) && NumberOf(s.txs[tx]) == s.lastNumber + 1)
    && |s.tickets| == s.lastNumber
    && (forall i :: 0 <= i < |s.tickets| ==> s.tickets[i].number == i + 1)
  }

  lemma StepKeepsInv(s: State, a: Action)
    requires Inv(s) && Enabled(s, a)
    ensures Inv(Apply(s, a))
  {
  }

  lemma {:induction false} ReachableInv(ss: seq<State>, acts: seq<Action>, n: nat)
    requires IsRun(ss, acts) && Initial(ss[0]) && n < |ss|
    ensures Inv(ss[n])
  {
    if n > 0 {
      ReachableInv(ss, acts, n - 1);
      assert Step(ss[n - 1], acts[n - 1], ss[n - 1 + 1]);
      StepKeepsInv(ss[n - 1], acts[n - 1]);
    }
  }

  /** Committed ticket numbers are exactly 1 .. lastNumber: every number once, no gap, despite rollbacks. */
  lemma NumbersAreConsecutive(ss: seq<State>, acts: seq<Action>, n: nat, number: nat)
    requires IsRun(ss, acts) && Initial(ss[0]) && n < |ss|
    ensures (exists i :: 0 <= i < |ss[n].tickets| && ss[n].tickets[i].number == number)
       <==> 1 <= number <= ss[n].lastNumber
    ensures forall i, j :: 0 <= i < j < |ss[n].tickets| ==> ss[n].tickets[i].number != ss[n].tickets[j].number
  {
    ReachableInv(ss, acts, n);
    if 1 <= number <= ss[n].lastNumber {
      assert ss[n].tickets[number - 1].number == number;
    }
  }

  // --------------------------------------------------------------------------- daily cap

  /** Tickets created on one UTC day. */
  function OnDay(tickets: seq<Ticket>, day: int): nat {
    if tickets == [] then 0
    else
      var last := |tickets| - 1;
      OnDay(tickets[..last], day) + (if DayOf(tickets[last].createdAt) == day then 1 else 0)
  }

  /** The count covers the day it was taken on and every later one. */
  lemma {:induction false} DayWithinCount(tickets: seq<Ticket>, now: int, day: int)
    requires day >= DayOf(now)
    ensures OnDay(tickets, day) <= CountSince(tickets, StartOfUtcDay(now))
  {
    if tickets != [] {
      DayWithinCount(tickets[..|tickets| - 1], now, day);
    }
  }

  ghost predicate DaysWithinCap(s: State) {
    forall day :: OnDay(s.tickets, day) <= Max(s.cap, 0)
  }

  function Max(a: int, b: int): int { if a >= b then a else b }

  /** An insert in progress leaves room for itself on its day. */
  ghost predicate InsertsFit(s: State) {
    && (forall tx, day :: tx in s.txs && s.txs[tx].Counted? && s.txs[tx].allowed && day >= DayOf(s.txs[tx].readAt) ==>
          OnDay(s.tickets, day) < s.cap)
    && (forall tx :: tx in s.txs && s.txs[tx].Inserted? ==> OnDay(s.tickets, DayOf(s.txs[tx].ticket.createdAt)) < s.cap)
  }

  /** The insert is not stamped with a day before the one that was counted. */
  predicate NotBackdated(s: State, a: Action)
    requires Enabled(s, a)
  {
    a.Insert? ==> DayOf(a.createdAt) >= DayOf(s.txs[a.tx].readAt)
  }

  lemma CommittedDay(tickets: seq<Ticket>, t: Ticket, day: int)
    ensures OnDay(tickets + [t], day) == OnDay(tickets, day) + (if DayOf(t.createdAt) == day then 1 else 0)
  {
    assert (tickets + [t])[..|tickets|] == tickets;
  }

  lemma StepKeepsCap(s: State, a: Action)
    requires Inv(s) && DaysWithinCap(s) && InsertsFit(s) && Enabled(s, a) && NotBackdated(s, a)
    ensures DaysWithinCap(Apply(s, a)) && InsertsFit(Apply(s, a))
  {
    match a
    case Count(tx, now) =>
      forall day | day >= DayOf(now)
        ensures OnDay(s.tickets, day) <= CountSince(s.tickets, StartOfUtcDay(now))
      {
        DayWithinCount(s.tickets, now, day);
      }
    case Commit(tx) =>
      forall day
        ensures OnDay(Apply(s, a).tickets, day) <= Max(s.cap, 0)
      {
        CommittedDay(s.tickets, s.txs[tx].ticket, day);
      }
    case _ =>
  }

  /** If no ticket is stamped with a day before the one it was counted for, no UTC day exceeds the cap. */
  lemma {:induction false} CapHolds(ss: seq<State>, acts: seq<Action>, n: nat)
    requires IsRun(ss, acts) && Initial(ss[0]) && n < |ss|
    requires forall i :: 0 <= i < n ==> Step(ss[i], acts[i], ss[i + 1]) && NotBackdated(ss[i], acts[i])
    ensures DaysWithinCap(ss[n]) && InsertsFit(ss[n])
  {
    if n > 0 {
      CapHolds(ss, acts, n - 1);
      ReachableInv(ss, acts, n - 1);
      assert Step(ss[n - 1], acts[n - 1], ss[n - 1 + 1]);
      StepKeepsCap(ss[n - 1], acts[n - 1]);
    }
  }

  /**
   * In general a commit keeps the cap exactly when the day the ticket is stamped with still had room;
   * the count that was checked may have been taken for a later day.
   */
  lemma CommitKeepsCapIff(s: State, tx: TxId)
    requires DaysWithinCap(s) && Enabled(s, Commit(tx))
    ensures DaysWithinCap(Apply(s, Commit(tx))) <==> OnDay(s.tickets, DayOf(s.txs[tx].ticket.createdAt)) < Max(s.cap, 0)
  {
    var t := s.txs[tx].ticket;
    var s' := Apply(s, Commit(tx));
    CommittedDay(s.tickets, t, DayOf(t.createdAt));
    if OnDay(s.tickets, DayOf(t.createdAt)) < Max(s.cap, 0) {
      forall day
        ensures OnDay(s'.tickets, day) <= Max(s.cap, 0)
      {
        CommittedDay(s.tickets, t, day);
      }
    }
  }

  // --------------------------------------------------------- exactly which stamps are safe

  /** The create transaction that counted at `readAt` inserts a ticket stamped `createdAt` and commits. */
  function Created(s: State, tx: TxId, readAt: int, createdAt: int): State
    requires Enabled(s, Count(tx, readAt)) && Apply(s, Count(tx, readAt)).txs[tx].allowed
  {
    Apply(Apply(Apply(s, Count(tx, readAt)), Insert(tx, createdAt)), Commit(tx))
  }

  /** From every state within a cap, an allowed count followed by this stamp stays within it. */
  ghost predicate StampSafe(cap: int, readAt: int, createdAt: int) {
    forall s: State, tx ::
      && s.cap == cap && Inv(s) && DaysWithinCap(s) && Enabled(s, Count(tx, readAt))
      && Apply(s, Count(tx, readAt)).txs[tx].allowed
      ==> DaysWithinCap(Created(s, tx, readAt, createdAt))
  }

  /**
   * A ticket's stamp is safe whatever the tenant's tickets are exactly when it does not fall on a UTC day before
   * the one that was counted, or when the cap admits nothing.
   */
  lemma StampSafeIff(cap: int, readAt: int, createdAt: int)
    ensures StampSafe(cap, readAt, createdAt) <==> DayOf(createdAt) >= DayOf(readAt) || cap <= 0
  {
    if cap <= 0 {
    } else if DayOf(createdAt) >= DayOf(readAt) {
      forall s: State, tx | s.cap == cap && Inv(s) && DaysWithinCap(s) && Enabled(s, Count(tx, readAt))
                            && Apply(s, Count(tx, readAt)).txs[tx].allowed
        ensures DaysWithinCap(Created(s, tx, readAt, createdAt))
      {
        DayWithinCount(s.tickets, readAt, DayOf(createdAt));
        CommitKeepsCapIff(Apply(Apply(s, Count(tx, readAt)), Insert(tx, createdAt)), tx);
      }
    } else {
      var s := FullDay(cap, createdAt);
      FullDayFacts(cap, createdAt, readAt);
      CommitKeepsCapIff(Apply(Apply(s, Count("tx", readAt)), Insert("tx", createdAt)), "tx");
      assert !DaysWithinCap(Created(s, "tx", readAt, createdAt));
    }
  }

  function SameStamp(n: nat, createdAt: int): seq<Ticket> {
    if n == 0 then [] else SameStamp(n - 1, createdAt) + [Ticket(n, createdAt)]
  }

  /** A tenant whose cap is used up on one day, with the next transaction holding the row lock. */
  function FullDay(cap: nat, createdAt: int): State {
    State(cap, true, cap, SameStamp(cap, createdAt), Some("tx"), map["tx" := Numbered(cap + 1)])
  }

  lemma {:induction false} SameStampFacts(n: nat, createdAt: int, since: int, day: int)
    requires since > createdAt
    ensures |SameStamp(n, createdAt)| == n && forall i :: 0 <= i < n ==> SameStamp(n, createdAt)[i].number == i + 1
    ensures CountSince(SameStamp(n, createdAt), since) == 0
    ensures OnDay(SameStamp(n, createdAt), day) == if day == DayOf(createdAt) then n else 0
  {
    if n > 0 {
      SameStampFacts(n - 1, createdAt, since, day);
      assert SameStamp(n, createdAt)[..n - 1] == SameStamp(n - 1, createdAt);
      CommittedDay(SameStamp(n - 1, createdAt), Ticket(n, createdAt), day);
    }
  }

  lemma FullDayFacts(cap: int, createdAt: int, readAt: int)
    requires cap >= 1 && DayOf(createdAt) < DayOf(readAt)
    ensures var s := FullDay(cap, createdAt);
            && Inv(s) && DaysWithinCap(s) && Enabled(s, Count("tx", readAt))
            && Apply(s, Count("tx", readAt)).txs["tx"].allowed && OnDay(s.tickets, DayOf(createdAt)) == cap
  {
    var s := FullDay(cap, createdAt);
    EarlierDay(createdAt, readAt);
    SameStampFacts(cap, createdAt, StartOfUtcDay(readAt), DayOf(createdAt));
    forall day
      ensures OnDay(s.tickets, day) <= Max(s.cap, 0)
    {
      SameStampFacts(cap, createdAt, StartOfUtcDay(readAt), day);
    }
  }

  lemma EarlierDay(a: int, b: int)
    requires DayOf(a) < DayOf(b)
    ensures a < StartOfUtcDay(b)
  {
  }

  // ------------------------------------------------------ a run that exceeds the cap at midnight

  /** One ticket before midnight; a second one counted after midnight and stamped before it. */
  function AcrossMidnight(): seq<Action> {
    [ TakeNumber("first"), Count("first", 0), Insert("first", 0), Commit("first"),
      TakeNumber("second"), Count("second", DAY_MS), Insert("second", DAY_MS - 1), Commit("second") ]
  }

  function MidnightState(k: nat): State {
    var tickets := if k <= 3 then [] else if k <= 7 then [Ticket(1, 0)] else [Ticket(1, 0), Ticket(2, DAY_MS - 1)];
    var tx := if k <= 4 then "first" else "second";
    var number := if k <= 4 then 1 else 2;
    var open := if k == 1 || k == 5 then Numbered(number)
                else if k == 2 || k == 6 then Counted(number, if k == 2 then 0 else DAY_MS, true)
                else Inserted(Ticket(number, if k == 3 then 0 else DAY_MS - 1));
    if k == 0 || k == 4 || k >= 8 then State(1, true, |tickets|, tickets, None, map[])
    else State(1, true, |tickets|, tickets, Some(tx), map[tx := open])
  }

  lemma MidnightCounts()
    ensures CountSince([], 0) == 0 && CountSince([Ticket(1, 0)], DAY_MS) == 0
    ensures OnDay([Ticket(1, 0), Ticket(2, DAY_MS - 1)], 0) == 2
  {
    assert [Ticket(1, 0)][..0] == [];
    assert [Ticket(1, 0), Ticket(2, DAY_MS - 1)] == [Ticket(1, 0)] + [Ticket(2, DAY_MS - 1)];
    assert [Ticket(1, 0)] == [] + [Ticket(1, 0)];
    CommittedDay([], Ticket(1, 0), 0);
    CommittedDay([Ticket(1, 0)], Ticket(2, DAY_MS - 1), 0);
  }

  lemma FirstTicket()
    ensures forall k :: 0 <= k < 4 ==> Step(MidnightState(k), AcrossMidnight()[k], MidnightState(k + 1))
  {
    var acts := AcrossMidnight();
    MidnightCounts();
    assert Apply(MidnightState(0), acts[0]) == MidnightState(1);
    assert Apply(MidnightState(1), acts[1]) == MidnightState(2);
    assert Apply(MidnightState(2), acts[2]) == MidnightState(3);
    assert [] + [Ticket(1, 0)] == [Ticket(1, 0)];
    assert Apply(MidnightState(3), acts[3]).txs == map[];
  }

  lemma SecondTicket()
    ensures forall k :: 4 <= k < 8 ==> Step(MidnightState(k), AcrossMidnight()[k], MidnightState(k + 1))
  {
    var acts := AcrossMidnight();
    MidnightCounts();
    assert Apply(MidnightState(4), acts[4]) == MidnightState(5);
    assert Apply(MidnightState(5), acts[5]) == MidnightState(6);
    assert Apply(MidnightState(6), acts[6]) == MidnightState(7);
    assert [Ticket(1, 0)] + [Ticket(2, DAY_MS - 1)] == [Ticket(1, 0), Ticket(2, DAY_MS - 1)];
    assert Apply(MidnightState(7), acts[7]).txs == map[];
  }

  /**
   * A run from an empty table after which a day holds more tickets than its cap. It assumes that a ticket may be
   * stamped earlier than the clock reading of its count, as a database default taken at the start of the
   * transaction would do; the service itself sets no creation time.
   */
  lemma BackdatedInsertExceedsCap()
    ensures exists ss: seq<State> ::
              IsRun(ss, AcrossMidnight()) && Initial(ss[0]) && |ss| == 9 && !DaysWithinCap(ss[8])
  {
    FirstTicket();
    SecondTicket();
    MidnightCounts();
    var ss := seq(9, k requires k >= 0 => MidnightState(k));
    forall k | 0 <= k < 8
      ensures Step(ss[k], AcrossMidnight()[k], ss[k + 1])
    {
      assert ss[k] == MidnightState(k) && ss[k + 1] == MidnightState(k + 1);
    }
    assert ss[8] == MidnightState(8) && OnDay(ss[8].tickets, 0) == 2;
  }

  lemma AppendStep(ss: seq<State>, acts: seq<Action>, a: Action)
    requires IsRun(ss, acts) && Enabled(ss[|acts|], a)
    ensures IsRun(ss + [Apply(ss[|acts|], a)], acts + [a])
  {
    var ss', acts' := ss + [Apply(ss[|acts|], a)], acts + [a];
    forall i | 0 <= i < |acts'|
      ensures Step(ss'[i], acts'[i], ss'[i + 1])
    {
      if i < |acts| {
        assert Step(ss[i], acts[i], ss[i + 1]);
      }
    }
  }
}
