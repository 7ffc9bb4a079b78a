/** What copying a machine does to its value: exactly, and as a client can tell. */
module Cloning {
  import opened Flaps
  import opened Emulator

  lemma ClonedServiceTwice(s: Service)
    ensures ClonedService(ClonedService(s)) == ClonedService(s)
  {
    if s.ports.Some? {
      var once := ClonedService(s).ports.value;
      assert ClonedService(ClonedService(s)).ports.value == once;
    }
  }

  lemma ClonedConfigTwice(c: Config)
    ensures ClonedConfig(ClonedConfig(c)) == ClonedConfig(c)
  {
    if c.services.Some? {
      var once, twice := ClonedConfig(c).services.value, ClonedConfig(ClonedConfig(c)).services.value;
      forall i | 0 <= i < |once|
        ensures twice[i] == once[i]
      {
        ClonedServiceTwice(c.services.value[i]);
      }
      assert twice == once;
    }
  }

  /** A copy of a copy is that copy. */
  lemma ClonedTwice(m: Machine)
    ensures Cloned(Cloned(m)) == Cloned(m)
  {
    if m.config.Some? {
      ClonedConfigTwice(m.config.value);
    }
  }

  /** No handler list of the service is present but empty. */
  predicate HandlersKept(s: Service) {
    s.ports.Some? ==> forall j :: 0 <= j < |s.ports.value| ==> s.ports.value[j].handlers != Some([])
  }

  /** ... and of the configuration. */
  predicate NoEmptyHandlers(c: Config) {
    c.services.Some? ==> forall i :: 0 <= i < |c.services.value| ==> HandlersKept(c.services.value[i])
  }

  lemma ServiceCopyIsExactIff(s: Service)
    ensures ClonedService(s) == s <==> HandlersKept(s)
  {
    if s.ports.Some? {
      var ports, copies := s.ports.value, ClonedService(s).ports.value;
      if ClonedService(s) == s {
        forall j | 0 <= j < |ports|
          ensures ports[j].handlers != Some([])
        {
          assert copies[j] == ClonedPort(ports[j]);
        }
      }
      assert (forall j :: 0 <= j < |ports| ==> ports[j].handlers != Some([])) ==> copies == ports;
    }
  }

  /**
   A copy equals its source exactly when no handler list is present but empty: appending nothing to a nil
   slice gives back a nil slice.
   */
  lemma CopyIsExactIff(m: Machine)
    ensures Cloned(m) == m <==> (m.config.Some? ==> NoEmptyHandlers(m.config.value))
  {
    if m.config.Some? && m.config.value.services.Some? {
      var svcs, copies := m.config.value.services.value, ClonedConfig(m.config.value).services.value;
      forall i | 0 <= i < |svcs|
        ensures copies[i] == svcs[i] <==> HandlersKept(svcs[i])
      {
        ServiceCopyIsExactIff(svcs[i]);
      }
      assert copies == svcs <==> forall i :: 0 <= i < |svcs| ==> copies[i] == svcs[i];
      assert Cloned(m) == m <==> copies == svcs;
    }
  }

  // ---- the wire: an empty list and a missing one are both left out of the encoding ----

  function Encoded<T>(list: Option<seq<T>>): seq<T> {
    if list.Some? then list.value else []
  }

  datatype WirePort = WirePort(port: int, handlers: seq<string>)
  datatype WireService = WireService(protocol: string, internalPort: int, ports: seq<WirePort>)

  function PortOnWire(p: Port): WirePort { WirePort(p.port, Encoded(p.handlers)) }

  function ServiceOnWire(s: Service): WireService {
    var ports := Encoded(s.ports);
    WireService(s.protocol, s.internalPort, seq(|ports|, j requires 0 <= j < |ports| => PortOnWire(ports[j])))
  }

  function OnWire(c: Config): seq<WireService> {
    var svcs := Encoded(c.services);
    seq(|svcs|, i requires 0 <= i < |svcs| => ServiceOnWire(svcs[i]))
  }

  lemma ServiceCopyIsFaithful(s: Service)
    ensures ServiceOnWire(ClonedService(s)) == ServiceOnWire(s)
  {
    assert |ServiceOnWire(ClonedService(s)).ports| == |ServiceOnWire(s).ports|;
  }

  /**
   No client can tell a copy from its source: every service encodes the same, with its protocol, ports and
   handlers, and everything outside the services is equal.
   */
  lemma CopyIsFaithful(c: Config)
    ensures OnWire(ClonedConfig(c)) == OnWire(c)
    ensures ClonedConfig(c).(services := c.services) == c
  {
    if c.services.Some? {
      var svcs := c.services.value;
      forall i | 0 <= i < |svcs|
        ensures OnWire(ClonedConfig(c))[i] == OnWire(c)[i]
      {
        ServiceCopyIsFaithful(svcs[i]);
      }
    }
  }

  /** The same machine to a client, and in all but its services the same value. */
  predicate ReadsAs(c: Machine, m: Machine) {
    && c.(config := m.config) == m && (c.config.Some? <==> m.config.Some?)
    && (m.config.Some? ==>
         && OnWire(c.config.value) == OnWire(m.config.value)
         && c.config.value.(services := m.config.value.services) == m.config.value)
  }

  lemma CopyReadsAs(m: Machine)
    ensures ReadsAs(Cloned(m), m)
  {
    hide ClonedConfig;
    if m.config.Some? {
      CopyIsFaithful(m.config.value);
    }
  }
}
