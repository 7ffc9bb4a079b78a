/**
 The lease table as a value. The operations are the functions the class LeaseManager.Manager is
 proved against: an expired lease stays in the table until some operation looks at it.
 */
module Leases {
  import opened Flaps

  const SECOND: int := 1_000_000_000
  const DEFAULT_TTL: int := 30 * SECOND

  datatype Lease = Lease(nonce: string, owner: string, description: string, expiresAt: int)

  type Table = map<string, Lease>

  datatype LeaseError = Conflict | NotFound | NonceMismatch

  datatype Reply = Granted(lease: Lease) | Held(lease: Lease) | Rejected(error: LeaseError) | Done

  datatype Op =
    | Acquire(key: string, owner: string, description: string, ttl: int, nonce: string)
    | Get(key: string)
    | Refresh(key: string, nonce: string, ttl: int)
    | Release(key: string, nonce: string)
    | Check(key: string, nonce: string)
    | Clear(key: string)

  function Ttl(ttl: int): (r: int)
    ensures 0 < r
  {
    if ttl <= 0 then DEFAULT_TTL else ttl
  }

  /** The lease in force for a key at a clock reading. */
  function InForce(m: Table, key: string, now: int): Option<Lease> {
    if key in m && now < m[key].expiresAt then Some(m[key]) else None
  }

  /** What looking up a key's active lease leaves behind: an expired entry is dropped. */
  function Swept(m: Table, key: string, now: int): Table {
    if key in m && m[key].expiresAt <= now then m - {key} else m
  }

  datatype Outcome = Outcome(table: Table, reply: Reply)

  function Exec(m: Table, op: Op, now: int): Outcome {
    match op
    case Acquire(key, owner, description, ttl, nonce) =>
      (match InForce(m, key, now)
       case Some(l) => Outcome(m, Held(l))
       case None =>
         var l := Lease(nonce, owner, description, now + Ttl(ttl));
         Outcome(m[key := l], Granted(l)))
    case Get(key) =>
      (match InForce(m, key, now)
       case None => Outcome(Swept(m, key, now), Rejected(NotFound))
       case Some(l) => Outcome(m, Granted(l)))
    case Refresh(key, nonce, ttl) =>
      (match InForce(m, key, now)
       case None => Outcome(Swept(m, key, now), Rejected(NotFound))
       case Some(l) =>
         if l.nonce != nonce then Outcome(m, Rejected(NonceMismatch))
         else
           var l' := l.(expiresAt := now + Ttl(ttl));
           Outcome(m[key := l'], Granted(l')))
    case Release(key, nonce) =>
      (match InForce(m, key, now)
       case None => Outcome(Swept(m, key, now), Rejected(NotFound))
       case Some(l) => if l.nonce != nonce then Outcome(m, Rejected(NonceMismatch)) else Outcome(m - {key}, Done))
    case Check(key, nonce) =>
      (match InForce(m, key, now)
       case None => Outcome(Swept(m, key, now), Done)
       case Some(l) => Outcome(m, if l.nonce != nonce then Rejected(Conflict) else Done))
    case Clear(key) => Outcome(m - {key}, Done)
  }

  // ---- runs: operations interleaved with clock movement ----

  datatype Step = Call(op: Op) | Tick(to: int)

  datatype State = State(table: Table, now: int)

  function Apply(s: State, step: Step): State {
    match step
    case Call(op) => s.(table := Exec(s.table, op, s.now).table)
    case Tick(to) => s.(now := to)
  }

  /** Time never runs backwards. */
  predicate Monotone(now: int, steps: seq<Step>)
    decreases steps
  {
    steps == [] ||
    match steps[0]
    case Call(_) => Monotone(now, steps[1..])
    case Tick(to) => now <= to && Monotone(to, steps[1..])
  }

  /** The replies a sequence of steps produces, in order. */
  function Replies(s: State, steps: seq<Step>): seq<Reply>
    decreases steps
  {
    if steps == [] then []
    else
      (match steps[0]
       case Call(op) => [Exec(s.table, op, s.now).reply]
       case Tick(_) => [])
      + Replies(Apply(s, steps[0]), steps[1..])
  }

  function Run(s: State, steps: seq<Step>): State
    decreases steps
  {
    if steps == [] then s else Run(Apply(s, steps[0]), steps[1..])
  }
}

/**
 The reference manager: its table drops every lease the instant the clock reaches its expiry, and its
 operations never look at an expiry. The lazy manager is indistinguishable from it.
 */
module EagerLeases {
  import opened Leases

  /** The leases still in force. */
  function Purge(m: Table, now: int): Table {
    map key | key in m && now < m[key].expiresAt :: m[key]
  }

  function EagerExec(m: Table, op: Op, now: int): Outcome {
    match op
    case Acquire(key, owner, description, ttl, nonce) =>
      if key in m then Outcome(m, Held(m[key]))
      else
        var l := Lease(nonce, owner, description, now + Ttl(ttl));
        Outcome(m[key := l], Granted(l))
    case Get(key) => Outcome(m, if key in m then Granted(m[key]) else Rejected(NotFound))
    case Refresh(key, nonce, ttl) =>
      if key !in m then Outcome(m, Rejected(NotFound))
      else if m[key].nonce != nonce then Outcome(m, Rejected(NonceMismatch))
      else
        var l := m[key].(expiresAt := now + Ttl(ttl));
        Outcome(m[key := l], Granted(l))
    case Release(key, nonce) =>
      if key !in m then Outcome(m, Rejected(NotFound))
      else if m[key].nonce != nonce then Outcome(m, Rejected(NonceMismatch))
      else Outcome(m - {key}, Done)
    case Check(key, nonce) => Outcome(m, if key in m && m[key].nonce != nonce then Rejected(Conflict) else Done)
    case Clear(key) => Outcome(m - {key}, Done)
  }

  function EagerApply(s: State, step: Step): State {
    match step
    case Call(op) => s.(table := EagerExec(s.table, op, s.now).table)
    case Tick(to) => State(Purge(s.table, to), to)
  }

  function EagerReplies(s: State, steps: seq<Step>): seq<Reply>
    decreases steps
  {
    if steps == [] then []
    else
      (match steps[0]
       case Call(op) => [EagerExec(s.table, op, s.now).reply]
       case Tick(_) => [])
      + EagerReplies(EagerApply(s, steps[0]), steps[1..])
  }

  lemma CallRefines(m: Table, op: Op, now: int)
    ensures Exec(m, op, now).reply == EagerExec(Purge(m, now), op, now).reply
    ensures Purge(Exec(m, op, now).table, now) == EagerExec(Purge(m, now), op, now).table
  {
  }

  lemma TickRefines(m: Table, now: int, later: int)
    requires now <= later
    ensures Purge(Purge(m, now), later) == Purge(m, later)
  {
  }

  /** Over any interleaving of operations and clock movement the two managers answer alike. */
  lemma {:induction false} LazyRefinesEager(s: State, steps: seq<Step>)
    requires Monotone(s.now, steps)
    ensures Replies(s, steps) == EagerReplies(State(Purge(s.table, s.now), s.now), steps)
    decreases steps
  {
    if steps != [] {
      match steps[0] {
        case Call(op) => CallRefines(s.table, op, s.now);
        case Tick(to) => TickRefines(s.table, s.now, to);
      }
      LazyRefinesEager(Apply(s, steps[0]), steps[1..]);
    }
  }
}
