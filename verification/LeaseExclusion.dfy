/**
 Exclusion over whole runs of the lease manager. A book records every hold granted so far: a hold
 opens when Acquire grants it, moves its end when Refresh grants, and is cut short by Release and Clear.
 */
module LeaseExclusion {
  import opened Flaps
  import opened Leases

  /** A lease held on `key` during [start, finish). */
  datatype Hold = Hold(key: string, nonce: string, start: int, finish: int)

  datatype Book = Book(s: State, holds: seq<Hold>)

  /** Moves the end of whatever hold is open on the key. */
  function Amend(holds: seq<Hold>, key: string, now: int, finish: int): seq<Hold> {
    seq(|holds|, i requires 0 <= i < |holds| =>
      if holds[i].key == key && now < holds[i].finish then holds[i].(finish := finish) else holds[i])
  }

  function Record(b: Book, step: Step): Book {
    var s' := Apply(b.s, step);
    match step
    case Tick(_) => b.(s := s')
    case Call(op) =>
      var now, reply := b.s.now, Exec(b.s.table, op, b.s.now).reply;
      match op
      case Acquire(key, _, _, _, nonce) =>
        Book(s', if reply.Granted? then b.holds + [Hold(key, nonce, now, reply.lease.expiresAt)] else b.holds)
      case Refresh(key, _, _) =>
        Book(s', if reply.Granted? then Amend(b.holds, key, now, reply.lease.expiresAt) else b.holds)
      case Release(key, _) => Book(s', if reply.Done? then Amend(b.holds, key, now, now) else b.holds)
      case Clear(key) => Book(s', Amend(b.holds, key, now, now))
      case Get(_) => b.(s := s')
      case Check(_, _) => b.(s := s')
  }

  /** Time never runs backwards and Acquire is only ever given nonces not seen before. */
  ghost predicate Legal(b: Book, steps: seq<Step>)
    decreases steps
  {
    steps == [] ||
    (&& (steps[0].Tick? ==> b.s.now <= steps[0].to)
     && (steps[0].Call? && steps[0].op.Acquire? ==>
          forall i :: 0 <= i < |b.holds| ==> b.holds[i].nonce != steps[0].op.nonce)
     && Legal(Record(b, steps[0]), steps[1..]))
  }

  function RunBook(b: Book, steps: seq<Step>): Book
    decreases steps
  {
    if steps == [] then b else RunBook(Record(b, steps[0]), steps[1..])
  }

  ghost predicate Disjoint(holds: seq<Hold>) {
    forall i, j :: 0 <= i < j < |holds| && holds[i].key == holds[j].key ==> holds[i].finish <= holds[j].start
  }

  ghost predicate DistinctNonces(holds: seq<Hold>) {
    forall i, j :: 0 <= i < j < |holds| ==> holds[i].nonce != holds[j].nonce
  }

  /** An open hold is the lease in the table. */
  ghost predicate OpenIsInForce(s: State, h: Hold) {
    s.now < h.finish ==> h.key in s.table && s.table[h.key].nonce == h.nonce && s.table[h.key].expiresAt == h.finish
  }

  /** A lease in force is an open hold. */
  ghost predicate InForceIsOpen(b: Book, key: string) {
    InForce(b.s.table, key, b.s.now).Some? ==>
      exists i :: 0 <= i < |b.holds| && b.holds[i].key == key && b.holds[i].nonce == b.s.table[key].nonce
                  && b.holds[i].finish == b.s.table[key].expiresAt
  }

  ghost predicate Good(b: Book) {
    && Disjoint(b.holds) && DistinctNonces(b.holds)
    && (forall i :: 0 <= i < |b.holds| ==> b.holds[i].start <= b.s.now && b.holds[i].start <= b.holds[i].finish)
    && (forall i :: 0 <= i < |b.holds| ==> OpenIsInForce(b.s, b.holds[i]))
    && (forall key :: InForceIsOpen(b, key))
  }

  /** What an operation on one key leaves alone: the leases in force on every other key. */
  lemma OtherKeysUntouched(m: Table, op: Op, now: int, key: string)
    requires op.key != key
    ensures InForce(Exec(m, op, now).table, key, now) == InForce(m, key, now)
  {
  }

  lemma GoodAfterGrant(b: Book, op: Op)
    requires Good(b) && op.Acquire? && Exec(b.s.table, op, b.s.now).reply.Granted?
    requires forall i :: 0 <= i < |b.holds| ==> b.holds[i].nonce != op.nonce
    ensures Good(Record(b, Call(op)))
  {
    var b' := Record(b, Call(op));
    forall i | 0 <= i < |b'.holds|
      ensures OpenIsInForce(b'.s, b'.holds[i])
    {
      if i < |b.holds| {
        assert OpenIsInForce(b.s, b.holds[i]);
      }
    }
    forall key
      ensures InForceIsOpen(b', key)
    {
      if key == op.key {
        assert b'.holds[|b.holds|].key == key;
      } else {
        assert InForceIsOpen(b, key);
        OtherKeysUntouched(b.s.table, op, b.s.now, key);
        if InForce(b.s.table, key, b.s.now).Some? {
          var i :| 0 <= i < |b.holds| && b.holds[i].key == key && b.holds[i].nonce == b.s.table[key].nonce
                   && b.holds[i].finish == b.s.table[key].expiresAt;
          assert b'.holds[i] == b.holds[i];
        }
      }
    }
    forall i, j | 0 <= i < j < |b'.holds| && b'.holds[i].key == b'.holds[j].key
      ensures b'.holds[i].finish <= b'.holds[j].start
    {
      assert OpenIsInForce(b.s, b.holds[i]);
    }
  }

  lemma AmendKeepsOpen(b: Book, s': State, key: string, finish: int, i: nat)
    requires Good(b) && s'.now == b.s.now <= finish && i < |b.holds|
    requires b.holds[i].key != key ==>
      InForce(s'.table, b.holds[i].key, s'.now) == InForce(b.s.table, b.holds[i].key, b.s.now)
    requires
      if finish == b.s.now then InForce(s'.table, key, s'.now) == None
      else
        var l := InForce(b.s.table, key, b.s.now);
        l.Some? && InForce(s'.table, key, s'.now) == Some(l.value.(expiresAt := finish))
    ensures OpenIsInForce(s', Amend(b.holds, key, b.s.now, finish)[i])
  {
    assert OpenIsInForce(b.s, b.holds[i]);
  }

  /** Moving the end of the open hold on a key, in step with the table. */
  lemma GoodAfterAmend(b: Book, s': State, key: string, finish: int)
    requires Good(b) && s'.now == b.s.now <= finish
    requires forall k :: k != key ==> InForce(s'.table, k, s'.now) == InForce(b.s.table, k, b.s.now)
    requires
      if finish == b.s.now then InForce(s'.table, key, s'.now) == None
      else
        var l := InForce(b.s.table, key, b.s.now);
        l.Some? && InForce(s'.table, key, s'.now) == Some(l.value.(expiresAt := finish))
    ensures Good(Book(s', Amend(b.holds, key, b.s.now, finish)))
  {
    var holds' := Amend(b.holds, key, b.s.now, finish);
    var b' := Book(s', holds');
    forall i | 0 <= i < |holds'|
      ensures OpenIsInForce(s', holds'[i])
    {
      AmendKeepsOpen(b, s', key, finish, i);
    }
    forall k
      ensures InForceIsOpen(b', k)
    {
      assert InForceIsOpen(b, k);
      if InForce(s'.table, k, s'.now).Some? {
        assert InForce(b.s.table, k, b.s.now).Some?;
        var i :| 0 <= i < |b.holds| && b.holds[i].key == k && b.holds[i].nonce == b.s.table[k].nonce
                 && b.holds[i].finish == b.s.table[k].expiresAt;
        assert holds'[i].key == k;
      }
    }
    forall i, j | 0 <= i < j < |holds'| && holds'[i].key == holds'[j].key
      ensures holds'[i].finish <= holds'[j].start
    {
      assert b.holds[i].finish <= b.holds[j].start;
    }
  }

  lemma GoodAfterQuiet(b: Book, s': State)
    requires Good(b) && b.s.now <= s'.now
    requires forall k :: InForce(s'.table, k, s'.now).Some? ==>
      InForce(s'.table, k, s'.now) == InForce(b.s.table, k, b.s.now)
    requires forall k :: InForce(b.s.table, k, s'.now).Some? ==>
      InForce(s'.table, k, s'.now) == InForce(b.s.table, k, s'.now)
    ensures Good(b.(s := s'))
  {
    var b' := b.(s := s');
    forall i | 0 <= i < |b.holds|
      ensures OpenIsInForce(s', b.holds[i])
    {
      assert OpenIsInForce(b.s, b.holds[i]);
      if s'.now < b.holds[i].finish {
        assert InForce(b.s.table, b.holds[i].key, s'.now).Some?;
      }
    }
    forall k
      ensures InForceIsOpen(b', k)
    {
      assert InForceIsOpen(b, k);
    }
  }

  lemma GoodAfterStep(b: Book, step: Step)
    requires Good(b) && Legal(b, [step])
    ensures Good(Record(b, step))
  {
    var s' := Apply(b.s, step);
    if step.Tick? {
      GoodAfterQuiet(b, s');
    } else {
      var op, reply := step.op, Exec(b.s.table, step.op, b.s.now).reply;
      forall k | k != op.key
        ensures InForce(s'.table, k, s'.now) == InForce(b.s.table, k, b.s.now)
      {
        OtherKeysUntouched(b.s.table, op, b.s.now, k);
      }
      if op.Acquire? && reply.Granted? {
        GoodAfterGrant(b, op);
      } else if op.Refresh? && reply.Granted? {
        GoodAfterAmend(b, s', op.key, reply.lease.expiresAt);
      } else if (op.Release? && reply.Done?) || op.Clear? {
        GoodAfterAmend(b, s', op.key, b.s.now);
      } else {
        GoodAfterQuiet(b, s');
      }
    }
  }

  /** For each key the granted hold intervals of any run are pairwise disjoint. */
  lemma {:induction false} HoldsAreDisjoint(b: Book, steps: seq<Step>)
    requires Good(b) && Legal(b, steps)
    ensures Good(RunBook(b, steps)) && Disjoint(RunBook(b, steps).holds)
    decreases steps
  {
    if steps != [] {
      assert Legal(b, [steps[0]]);
      GoodAfterStep(b, steps[0]);
      HoldsAreDisjoint(Record(b, steps[0]), steps[1..]);
    }
  }

  /** A hold that has ended keeps its interval for the rest of the run. */
  lemma {:induction false} EndedStaysEnded(b: Book, steps: seq<Step>, i: nat)
    requires Good(b) && Legal(b, steps) && i < |b.holds| && b.holds[i].finish <= b.s.now
    ensures
      var b' := RunBook(b, steps);
      i < |b'.holds| && b'.holds[i] == b.holds[i] && b'.holds[i].finish <= b'.s.now
    decreases steps
  {
    if steps != [] {
      assert Legal(b, [steps[0]]);
      GoodAfterStep(b, steps[0]);
      EndedStaysEnded(Record(b, steps[0]), steps[1..], i);
    }
  }

  /** Once a nonce's hold has ended, no Refresh or Release presenting it succeeds again, on any key. */
  lemma EndedNonceIsPowerless(b: Book, steps: seq<Step>, i: nat, key: string, ttl: int)
    requires Good(b) && Legal(b, steps) && i < |b.holds| && b.holds[i].finish <= b.s.now
    ensures
      var s', nonce := RunBook(b, steps).s, b.holds[i].nonce;
      && Exec(s'.table, Refresh(key, nonce, ttl), s'.now).reply.Rejected?
      && Exec(s'.table, Release(key, nonce), s'.now).reply.Rejected?
  {
    HoldsAreDisjoint(b, steps);
    EndedStaysEnded(b, steps, i);
    assert InForceIsOpen(RunBook(b, steps), key);
  }
}
