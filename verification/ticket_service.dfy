/** Creating a ticket as imperative code; other transactions of the tenant act between its statements. */
module TicketCreation {
  import opened Prelude
  import opened Tickets

  /** The steps of one transaction in a run, oldest first. */
  function Mine(acts: seq<Action>, tx: TxId): Log<Action> {
    if acts == [] then NoSteps
    else
      var a := acts[|acts| - 1];
      var before := Mine(acts[..|acts| - 1], tx);
      if a.tx == tx then Then(before, a) else before
  }

  lemma MineAppend(acts: seq<Action>, a: Action, tx: TxId)
    ensures Mine(acts + [a], tx) == if a.tx == tx then Then(Mine(acts, tx), a) else Mine(acts, tx)
  {
    assert (acts + [a])[..|acts|] == acts;
  }

  class TicketSystem {
    ghost const initial: State
    var s: State
    ghost var states: seq<State>
    ghost var actions: seq<Action>

    ghost predicate Valid()
      reads this
    {
      IsRun(states, actions) && states[0] == initial && Initial(initial) && states[|actions|] == s && Inv(s)
    }

    constructor (cap: int, active: bool)
      ensures Valid() && Initial(s) && s.cap == cap && s.active == active && states == [s] && actions == []
    {
      initial := State(cap, active, 0, [], None, map[]);
      s := State(cap, active, 0, [], None, map[]);
      states, actions := [State(cap, active, 0, [], None, map[])], [];
    }

    method Do(a: Action)
      requires Valid() && Enabled(s, a)
      modifies this
      ensures Valid() && s == Apply(old(s), a)
      ensures states == old(states) + [s] && actions == old(actions) + [a]
      ensures Mine(actions, a.tx) == Then(Mine(old(actions), a.tx), a) && Extends(old(actions), actions)
    {
      AppendStep(states, actions, a);
      MineAppend(actions, a, a.tx);
      StepKeepsInv(s, a);
      s := Apply(s, a);
      states, actions := states + [s], actions + [a];
    }

    /** Others act. While `tx` holds the row lock nothing they do can commit. */
    method Others(tx: TxId, script: seq<Action>)
      requires Valid() && forall a :: a in script ==> a.tx != tx
      modifies this
      ensures Valid() && Extends(old(actions), actions) && s.cap == old(s.cap) && s.active == old(s.active)
      ensures Mine(actions, tx) == Mine(old(actions), tx)
      ensures tx in s.txs <==> tx in old(s.txs)
      ensures tx in s.txs ==> s == old(s)
    {
      for k := 0 to |script|
        invariant Valid() && Extends(old(actions), actions) && s.cap == old(s.cap) && s.active == old(s.active)
        invariant Mine(actions, tx) == Mine(old(actions), tx)
        invariant tx in s.txs <==> tx in old(s.txs)
        invariant tx in s.txs ==> s == old(s)
      {
        if Enabled(s, script[k]) {
          MineAppend(actions, script[k], tx);
          Do(script[k]);
        }
      }
    }
  }

  datatype CreateError = LockTimeout | LimitReached | RolledBack

  datatype Surroundings = Surroundings(before: nat -> seq<Action>, countedAt: int, createdAt: int, commits: bool)

  ghost predicate Foreign(env: Surroundings, tx: TxId) {
    forall k: nat, a :: a in env.before(k) ==> a.tx != tx
  }

  /** The statements of the create transaction, by how it ends. */
  function Statements(before: Log<Action>, tx: TxId, env: Surroundings, r: Result<nat, CreateError>): Log<Action> {
    var counted := Then(Then(before, TakeNumber(tx)), Count(tx, env.countedAt));
    match r
    case Err(LockTimeout) => before
    case Err(LimitReached) => Then(counted, Rollback(tx))
    case Err(RolledBack) => Then(Then(counted, Insert(tx, env.createdAt)), Rollback(tx))
    case Ok(_) => Then(Then(counted, Insert(tx, env.createdAt)), Commit(tx))
  }

  /** Waits for the sequence row and takes the next number; false when the wait ends without it. */
  method TakeNextNumber(system: TicketSystem, tx: TxId, env: Surroundings) returns (taken: bool)
    requires system.Valid() && tx !in system.s.txs && Foreign(env, tx)
    modifies system
    ensures system.Valid() && Extends(old(system.actions), system.actions)
    ensures Mine(system.actions, tx)
         == if taken then Then(Mine(old(system.actions), tx), TakeNumber(tx)) else Mine(old(system.actions), tx)
    ensures if taken then tx in system.s.txs && system.s.txs[tx] == Numbered(system.s.lastNumber + 1)
            else tx !in system.s.txs && system.s.lock.Some?
  {
    system.Others(tx, env.before(0));
    if system.s.lock.Some? {
      return false;
    }
    system.Do(TakeNumber(tx));
    return true;
  }

  /** Counts today's committed tickets and checks the cap; rolls back when it is reached. */
  method CheckCap(system: TicketSystem, tx: TxId, env: Surroundings) returns (allowed: bool)
    requires system.Valid() && tx in system.s.txs && system.s.txs[tx].Numbered? && Foreign(env, tx)
    modifies system
    ensures system.Valid() && Extends(old(system.actions), system.actions)
    ensures var counted := Then(Mine(old(system.actions), tx), Count(tx, env.countedAt));
            Mine(system.actions, tx) == if allowed then counted else Then(counted, Rollback(tx))
    ensures allowed <==> CanCreateTicket(system.s, CountSince(system.s.tickets, StartOfUtcDay(env.countedAt)))
    ensures allowed <==> Admits(system.s.active, system.s.cap, system.s.tickets, env.countedAt)
    ensures allowed ==> tx in system.s.txs
    ensures allowed ==> system.s.txs[tx] == Counted(old(system.s.txs[tx].number), env.countedAt, true)
    ensures !allowed ==> tx !in system.s.txs
  {
    system.Others(tx, env.before(1));
    system.Do(Count(tx, env.countedAt));
    allowed := system.s.txs[tx].allowed;
    PolicyAdmits(system.s, system.s.tickets, env.countedAt);
    if !allowed {
      system.Do(Rollback(tx));
    }
  }

  /** The first half of the transaction: the number and the permission to use it. */
  method TakeAndCount(system: TicketSystem, tx: TxId, env: Surroundings) returns (r: Result<nat, CreateError>)
    requires system.Valid() && tx !in system.s.txs && Foreign(env, tx)
    modifies system
    ensures system.Valid() && Extends(old(system.actions), system.actions)
    ensures r.Ok? ==> tx in system.s.txs && system.s.txs[tx] == Counted(r.value, env.countedAt, true)
    ensures r.Err? ==> tx !in system.s.txs && r.error != RolledBack
    ensures r.Ok? ==>
              var taken := Then(Mine(old(system.actions), tx), TakeNumber(tx));
              Mine(system.actions, tx) == Then(taken, Count(tx, env.countedAt))
    ensures r.Err? ==> Mine(system.actions, tx) == Statements(Mine(old(system.actions), tx), tx, env, r)
    ensures r == Err(LockTimeout) ==> system.s.lock.Some?
    ensures r != Err(LockTimeout) ==>
              (r.Ok? <==> CanCreateTicket(system.s, CountSince(system.s.tickets, StartOfUtcDay(env.countedAt))))
  {
    var taken := TakeNextNumber(system, tx, env);
    if !taken {
      return Err(LockTimeout);
    }
    var number := system.s.txs[tx].number;
    var allowed := CheckCap(system, tx, env);
    return if allowed then Ok(number) else Err(LimitReached);
  }

  /** Inserts the ticket and commits, or rolls back when a later statement of the transaction fails. */
  method InsertAndCommit(system: TicketSystem, tx: TxId, env: Surroundings) returns (committed: bool)
    requires system.Valid() && tx in system.s.txs && system.s.txs[tx].Counted? && system.s.txs[tx].allowed
    requires Foreign(env, tx)
    modifies system
    ensures system.Valid() && Extends(old(system.actions), system.actions) && tx !in system.s.txs
    ensures system.s.cap == old(system.s.cap) && system.s.active == old(system.s.active)
    ensures system.s.tickets == old(system.s.tickets) +
              if committed then [Ticket(old(system.s.txs[tx].number), env.createdAt)] else []
    ensures committed == env.commits
    ensures Mine(system.actions, tx)
         == Then(Then(Mine(old(system.actions), tx), Insert(tx, env.createdAt)),
                 if committed then Commit(tx) else Rollback(tx))
  {
    system.Others(tx, env.before(2));
    system.Do(Insert(tx, env.createdAt));
    system.Others(tx, env.before(3));
    if env.commits {
      system.Do(Commit(tx));
    } else {
      system.Do(Rollback(tx));
    }
    return env.commits;
  }

  /**
   * The create transaction, with exactly its statements. On success the ticket carries the number after
   * the last committed one and the count was below the cap; otherwise nothing of it was committed.
   */
  method CreateTicket(system: TicketSystem, tx: TxId, env: Surroundings) returns (r: Result<nat, CreateError>)
    requires system.Valid() && tx !in system.s.txs && Foreign(env, tx)
    modifies system
    ensures system.Valid() && Extends(old(system.actions), system.actions) && tx !in system.s.txs
    ensures Mine(system.actions, tx) == Statements(Mine(old(system.actions), tx), tx, env, r)
    ensures r.Ok? ==> env.commits
    ensures r == Err(RolledBack) ==> !env.commits
    ensures r == Err(LockTimeout) ==> system.s.lock.Some?
    ensures r.Ok? ==>
              && r.value == |system.s.tickets| == system.s.lastNumber && r.value > 0
              && system.s.tickets[r.value - 1] == Ticket(r.value, env.createdAt)
              && CanCreateTicket(system.s, CountSince(system.s.tickets[..r.value - 1], StartOfUtcDay(env.countedAt)))
    ensures r == Err(LimitReached) ==>
              !CanCreateTicket(system.s, CountSince(system.s.tickets, StartOfUtcDay(env.countedAt)))
    // in terms of the columns: an active tenant below its cap for the day, counted before this ticket
    ensures r.Ok? ==> Admits(system.s.active, system.s.cap, system.s.tickets[..r.value - 1], env.countedAt)
    ensures r == Err(LimitReached) ==> !Admits(system.s.active, system.s.cap, system.s.tickets, env.countedAt)
  {
    r := TakeAndCount(system, tx, env);
    PolicyAdmits(system.s, system.s.tickets, env.countedAt);
    if r.Err? {
      return r;
    }
    ghost var before := system.s.tickets;
    var committed := InsertAndCommit(system, tx, env);
    if !committed {
      return Err(RolledBack);
    }
    assert system.s.tickets[..r.value - 1] == before;
    return r;
  }
}
