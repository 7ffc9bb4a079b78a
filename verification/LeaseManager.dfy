/** The lease manager, as the object it is: a map of lease objects, refreshed in place. */
module LeaseManager {
  import opened Flaps
  import opened Clock
  import L = Leases

  class Lease {
    const nonce: string
    const owner: string
    const description: string
    var expiresAt: int

    constructor (nonce: string, owner: string, description: string, expiresAt: int)
      ensures Value() == L.Lease(nonce, owner, description, expiresAt)
    {
      this.nonce, this.owner, this.description, this.expiresAt := nonce, owner, description, expiresAt;
    }

    ghost function Value(): L.Lease
      reads this
    {
      L.Lease(nonce, owner, description, expiresAt)
    }
  }

  /** Callers only ever get a copy of a lease. */
  method CopyLease(l: Lease) returns (c: L.Lease)
    ensures c == l.Value()
  {
    c := L.Lease(l.nonce, l.owner, l.description, l.expiresAt);
  }

  class Manager {
    const clk: Fake
    var m: map<string, Lease>

    ghost predicate Valid()
      reads this
    {
      forall a, b :: a in m && b in m && a != b ==> m[a] != m[b]
    }

    ghost function Repr(): set<object>
      reads this
    {
      {this} + m.Values
    }

    ghost function Value(): L.Table
      reads this, m.Values
    {
      map key | key in m :: m[key].Value()
    }

    constructor (clk: Fake)
      ensures Valid() && this.clk == clk && Value() == map[] && Repr() == {this}
    {
      this.clk := clk;
      m := map[];
    }

    /** The live lease for a key; an expired one is deleted on sight. */
    method Active(key: string) returns (l: Lease?)
      requires Valid()
      modifies this`m
      ensures Valid() && m.Values <= old(m.Values)
      ensures Value() == L.Swept(old(Value()), key, clk.now)
      ensures l == null <==> L.InForce(old(Value()), key, clk.now) == None
      ensures l != null ==> key in m && m[key] == l && L.InForce(old(Value()), key, clk.now) == Some(l.Value())
    {
      l := null;
      if key in m {
        if m[key].expiresAt <= clk.now {
          m := m - {key};
        } else {
          l := m[key];
        }
      }
    }

    method Acquire(key: string, owner: string, description: string, ttl: int, nonce: string) returns (r: L.Reply)
      requires Valid()
      modifies this`m
      ensures Valid() && fresh(m.Values - old(m.Values))
      ensures L.Outcome(Value(), r) == L.Exec(old(Value()), L.Acquire(key, owner, description, ttl, nonce), clk.now)
    {
      var ttl := if ttl <= 0 then L.DEFAULT_TTL else ttl;
      if key in m && clk.now < m[key].expiresAt {
        var c := CopyLease(m[key]);
        return L.Held(c);
      }
      var l := new Lease(nonce, owner, description, clk.now + ttl);
      Put(key, l);
      var c := CopyLease(l);
      r := L.Granted(c);
    }

    /** mgr.m[key] = l, for a new lease object. */
    method Put(key: string, l: Lease)
      requires Valid() && l !in m.Values
      modifies this`m
      ensures Valid() && m.Values <= old(m.Values) + {l}
      ensures Value() == old(Value())[key := l.Value()]
    {
      hide Lease.Value;
      m := m[key := l];
      assert Value() == old(Value())[key := l.Value()];
    }

    method Get(key: string) returns (r: L.Reply)
      requires Valid()
      modifies this`m
      ensures Valid() && m.Values <= old(m.Values)
      ensures L.Outcome(Value(), r) == L.Exec(old(Value()), L.Get(key), clk.now)
    {
      var l := Active(key);
      if l == null {
        return L.Rejected(L.NotFound);
      }
      var c := CopyLease(l);
      r := L.Granted(c);
    }

    method Refresh(key: string, nonce: string, ttl: int) returns (r: L.Reply)
      requires Valid()
      modifies this`m, m.Values
      ensures Valid() && m.Values <= old(m.Values)
      ensures L.Outcome(Value(), r) == L.Exec(old(Value()), L.Refresh(key, nonce, ttl), clk.now)
    {
      var ttl := if ttl <= 0 then L.DEFAULT_TTL else ttl;
      var l := Active(key);
      if l == null {
        return L.Rejected(L.NotFound);
      }
      if l.nonce != nonce {
        return L.Rejected(L.NonceMismatch);
      }
      l.expiresAt := clk.now + ttl;
      var c := CopyLease(l);
      r := L.Granted(c);
    }

    method Release(key: string, nonce: string) returns (r: L.Reply)
      requires Valid()
      modifies this`m
      ensures Valid() && m.Values <= old(m.Values)
      ensures L.Outcome(Value(), r) == L.Exec(old(Value()), L.Release(key, nonce), clk.now)
    {
      var l := Active(key);
      if l == null {
        return L.Rejected(L.NotFound);
      }
      if l.nonce != nonce {
        return L.Rejected(L.NonceMismatch);
      }
      m := m - {key};
      r := L.Done;
    }

    method Check(key: string, nonce: string) returns (r: L.Reply)
      requires Valid()
      modifies this`m
      ensures Valid() && m.Values <= old(m.Values)
      ensures L.Outcome(Value(), r) == L.Exec(old(Value()), L.Check(key, nonce), clk.now)
    {
      var l := Active(key);
      if l == null {
        return L.Done;
      }
      if l.nonce != nonce {
        return L.Rejected(L.Conflict);
      }
      r := L.Done;
    }

    method Clear(key: string)
      requires Valid()
      modifies this`m
      ensures Valid() && m.Values <= old(m.Values)
      ensures Value() == L.Exec(old(Value()), L.Clear(key), clk.now).table
    {
      m := m - {key};
    }
  }
}
