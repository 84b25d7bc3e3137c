/**
 External exposure of a Kafka instance through one NodePort service per replica
 (internal/app_kafka_exposure.go).
 */
module KafkaExposure {
  import opened Wrappers
  import opened GoStrings

  const MIN_PORT := 30000
  const MAX_PORT := 32767
  const LISTENER_PORT := 9094
  const HOST_VAR := "KAFKA_EXTERNAL_ADVERTISE_HOST"
  const PORTS_VAR := "KAFKA_EXTERNAL_NODE_PORTS"

  // The node ports of a service's ports (0 when unset), and the pod it selects.
  datatype Service = Service(nodePorts: seq<int>, pod: string)

  datatype EnvVar = EnvVar(name: string, value: string)

  datatype Error = BadPort(port: int) | ApiError | NoStatefulSet | NoHost | PortCount

  predicate InRange(p: int) { MIN_PORT <= p <= MAX_PORT }

  function ServiceName(base: string, i: nat): string {
    TrimSpace(base) + "-kafka-np-" + Itoa(i)
  }

  function PodName(base: string, i: nat): string {
    TrimSpace(base) + "-kafka-" + Itoa(i)
  }

  lemma ServiceNameInjective(base: string, i: nat, j: nat)
    requires ServiceName(base, i) == ServiceName(base, j)
    ensures i == j
  {
    hide TrimSpace, Itoa;
    var prefix := TrimSpace(base) + "-kafka-np-";
    assert ServiceName(base, i)[|prefix|..] == Itoa(i) && ServiceName(base, j)[|prefix|..] == Itoa(j);
    ItoaInjective(i, j);
  }

  lemma NamesInjective(base: string)
    ensures forall i: nat, j: nat :: ServiceName(base, i) == ServiceName(base, j) ==> i == j
  {
    forall i: nat, j: nat | ServiceName(base, i) == ServiceName(base, j) ensures i == j {
      ServiceNameInjective(base, i, j);
    }
  }

  // A name in two parts around its last dash, the second one a number
  ghost predicate NamedAs(name: string, prefix: string, i: int) {
    exists digits :: Numeral(digits) == Some(i) && '-' !in digits && name == prefix + ['-'] + digits
  }

  lemma {:induction false} DigitsHaveNoDash(n: nat)
    ensures '-' !in NatToString(n)
  {
  }

  lemma SpelledName(prefix: string, i: nat)
    ensures NamedAs(prefix + "-" + Itoa(i), prefix, i)
  {
    hide Numeral, NatToString;
    var name := prefix + "-" + Itoa(i);
    DigitsHaveNoDash(i);
    NumeralOfItoa(i);
    assert name == prefix + ['-'] + Itoa(i);
  }

  // Services are called <base>-kafka-np-<i> and select the pods <base>-kafka-<i>.
  lemma NamesAreSpelled(base: string, i: nat)
    ensures NamedAs(ServiceName(base, i), TrimSpace(base) + "-kafka-np", i)
    ensures NamedAs(PodName(base, i), TrimSpace(base) + "-kafka", i)
  {
    hide TrimSpace, Itoa, NamedAs;
    var b := TrimSpace(base);
    SpelledName(b + "-kafka-np", i);
    SpelledName(b + "-kafka", i);
    assert b + "-kafka-np-" + Itoa(i) == b + "-kafka-np" + "-" + Itoa(i);
    assert b + "-kafka-" + Itoa(i) == b + "-kafka" + "-" + Itoa(i);
  }

  // A name ends in one number only.
  lemma NamedOnce(name: string, prefix: string, i: int, prefix': string, j: int)
    requires NamedAs(name, prefix, i) && NamedAs(name, prefix', j)
    ensures i == j && prefix == prefix'
  {
    hide Numeral;
    var a :| Numeral(a) == Some(i) && '-' !in a && name == prefix + ['-'] + a;
    var b :| Numeral(b) == Some(j) && '-' !in b && name == prefix' + ['-'] + b;
    TailUnique(prefix, prefix', a, b, '-');
  }

  // What the code writes for replica i.
  function Desired(base: string, i: nat, port: int): Service {
    Service([port], PodName(base, i))
  }

  // The service exists and already has a node port.
  predicate HasPort(m: map<string, Service>, name: string) {
    name in m && m[name].nodePorts != [] && m[name].nodePorts[0] >= MIN_PORT
  }

  // Service i now has first node port p. When the port is left to the cluster, a service that has
  // one keeps it and is not touched; otherwise the service is written.
  predicate Upserted(before: map<string, Service>, after: map<string, Service>, base: string, i: nat, requested: int, p: int) {
    var name := ServiceName(base, i);
    InRange(p) && (requested != 0 ==> p == requested) &&
    if requested == 0 && HasPort(before, name) then
      after == before && p == before[name].nodePorts[0]
    else
      after == before[name := Desired(base, i, p)]
  }

  ghost predicate NoSharedPort(m: map<string, Service>) {
    forall n, n', p :: n in m && n' in m && p in m[n].nodePorts && p in m[n'].nodePorts && p != 0 ==> n == n'
  }

  // The services of a namespace and the kafka container of its StatefulSet.  The API server hands
  // out node ports of its default range and never gives one port to two services; any call may fail.
  class Cluster {
    var services: map<string, Service>
    var taken: set<int>  // node ports used in other namespaces
    var ready: bool      // the StatefulSet exists and has a kafka container
    var env: seq<EnvVar>
    var ports: seq<int>

    ghost predicate Valid()
      reads `services
    {
      (forall n, p :: n in services && p in services[n].nodePorts && p != 0 ==> InRange(p)) &&
      NoSharedPort(services)
    }

    predicate Free(p: int, name: string)
      reads this
    {
      InRange(p) && p !in taken && forall n :: n in services && n != name ==> p !in services[n].nodePorts
    }

    constructor (services: map<string, Service>, taken: set<int>, ready: bool, env: seq<EnvVar>, ports: seq<int>)
      ensures this.services == services && this.taken == taken && this.ready == ready
      ensures this.env == env && this.ports == ports
    {
      this.services, this.taken, this.ready, this.env, this.ports := services, taken, ready, env, ports;
    }

    // Create or replace a service; a requested port must be free, and 0 asks for any free port.
    method Put(name: string, requested: int, pod: string) returns (r: Option<Service>)
      requires Valid()
      modifies this`services
      ensures Valid()
      ensures r.None? ==> services == old(services)
      ensures r.Some? ==>
                services == old(services)[name := r.value] &&
                exists p :: r.value == Service([p], pod) && InRange(p) && (requested != 0 ==> p == requested)
    {
      var fails: bool := *;
      if fails {
        return None;
      }
      if requested != 0 {
        if !Free(requested, name) {
          return None;
        }
        r := Some(Service([requested], pod));
      } else {
        if !exists p | MIN_PORT <= p <= MAX_PORT :: Free(p, name) {
          return None;
        }
        var p: int :| MIN_PORT <= p <= MAX_PORT && Free(p, name);
        r := Some(Service([p], pod));
      }
      services := services[name := r.value];
    }

    method Delete(name: string) returns (ok: bool)
      requires Valid()
      modifies this`services
      ensures Valid()
      ensures services == if ok then old(services) - {name} else old(services)
    {
      ok := *;
      if ok {
        services := services - {name};
      }
    }

    // kafkaUpsertNodePortService
    method UpsertNodePortService(base: string, ordinal: nat, requested: int) returns (r: Result<int, Error>)
      requires Valid()
      modifies this`services
      ensures Valid()
      ensures r.Err? ==> services == old(services)
      ensures r.Err? && r.error.BadPort? <==> requested != 0 && (requested < 30000 || requested > 32767)
      ensures r.Ok? ==> Upserted(old(services), services, base, ordinal, requested, r.value)
      ensures r.Ok? && requested == 0 && HasPort(old(services), ServiceName(base, ordinal)) ==>
                services == old(services) && r.value == old(services)[ServiceName(base, ordinal)].nodePorts[0]
    {
      hide ServiceName, PodName;
      if requested != 0 && (requested < 30000 || requested > 32767) {
        return Err(BadPort(requested));
      }
      var name := ServiceName(base, ordinal);
      var failed: bool := *;
      if failed {
        return Err(ApiError);
      }
      if name in services {
        var ex := services[name];
        if requested == 0 {
          if |ex.nodePorts| > 0 {
            var np := ex.nodePorts[0];
            if np >= 30000 {
              assert np in ex.nodePorts;
              return Ok(np);
            }
          }
        }
        var ret := Put(name, requested, PodName(base, ordinal));
        if ret.None? {
          return Err(ApiError);
        }
        return Ok(ret.value.nodePorts[0]);
      }
      var ret := Put(name, requested, PodName(base, ordinal));
      if ret.None? {
        return Err(ApiError);
      }
      return Ok(ret.value.nodePorts[0]);
    }

    // kafkaDeleteNodePortServicesRange; failures are ignored, and the services that they leave behind
    // are reported here for the contract.
    method DeleteNodePortServicesRange(base: string, first: int, last: int) returns (ghost undeleted: set<string>)
      requires Valid()
      modifies this`services
      ensures Valid()
      ensures undeleted <= NamesBetween(base, first, last) && undeleted <= services.Keys
      ensures services == old(services) - (NamesBetween(base, first, last) - undeleted)
    {
      hide ServiceName;
      NamesInjective(base);
      var i := if first < 0 then 0 else first;
      undeleted := {};
      ghost var names: set<string> := {};
      while i <= last
        invariant names == NamesBetween(base, first, i - 1) && (first <= i || i == 0)
        invariant i <= last + 1 || names == {}
        invariant Valid() && undeleted <= names && undeleted <= services.Keys
        invariant services == old(services) - (names - undeleted)
      {
        var name := ServiceName(base, i);
        assert name !in names;
        var ok := Delete(name);
        if !ok && name in services {
          undeleted := undeleted + {name};
        }
        names := names + {name};
        i := i + 1;
      }
      assert names == NamesBetween(base, first, last);
    }
  }

  ghost function NamesBetween(base: string, first: int, last: int): set<string> {
    set i: nat | first <= i <= last :: ServiceName(base, i)
  }

  // The stored configuration of an instance.
  class Instance {
    var exposure: string
    var advertiseHost: string
    var nodePorts: seq<int>
    const baseName: string
    const replicas: int

    constructor (exposure: string, advertiseHost: string, nodePorts: seq<int>, baseName: string, replicas: int)
      ensures this.exposure == exposure && this.advertiseHost == advertiseHost && this.nodePorts == nodePorts
      ensures this.baseName == baseName && this.replicas == replicas
    {
      this.exposure, this.advertiseHost, this.nodePorts := exposure, advertiseHost, nodePorts;
      this.baseName, this.replicas := baseName, replicas;
    }

    function Replicas(): (rep: nat)
      ensures rep > 0
    {
      if replicas <= 0 then 3 else replicas
    }

    predicate NodePortMode()
      reads this
    {
      ToLower(TrimSpace(exposure)) == "nodeport"
    }
  }

  function Texts(ports: seq<int>): seq<string> {
    seq(|ports|, i requires 0 <= i < |ports| => Itoa(ports[i]))
  }

  function PortsCSV(ports: seq<int>): string { Join(Texts(ports), ',') }

  function BootstrapEntry(host: string, port: int): string { host + ":" + Itoa(port) }

  function BootstrapEntries(host: string, ports: seq<int>): seq<string> {
    seq(|ports|, i requires 0 <= i < |ports| => BootstrapEntry(host, ports[i]))
  }

  // Service i exists and its first node port is ports[i].
  ghost predicate Exposes(services: map<string, Service>, base: string, ports: seq<int>) {
    forall i: nat :: i < |ports| ==>
      InRange(ports[i]) && ServiceName(base, i) in services &&
      services[ServiceName(base, i)].nodePorts != [] && services[ServiceName(base, i)].nodePorts[0] == ports[i]
  }

  // The ports of the automatic branch: service i keeps its port, and stays as it was, when it had
  // one, and is written otherwise.
  ghost predicate Assigned(before: map<string, Service>, after: map<string, Service>, base: string, ports: seq<int>) {
    forall i: nat :: i < |ports| ==>
      var name := ServiceName(base, i);
      InRange(ports[i]) && name in after &&
      if HasPort(before, name) then after[name] == before[name] && ports[i] == before[name].nodePorts[0]
      else after[name] == Desired(base, i, ports[i])
  }

  // Service i is exactly what the code writes for port ports[i].
  ghost predicate Written(services: map<string, Service>, base: string, ports: seq<int>) {
    forall i: nat :: i < |ports| ==>
      InRange(ports[i]) && ServiceName(base, i) in services && services[ServiceName(base, i)] == Desired(base, i, ports[i])
  }

  // Some replica's service has a port but is not what the code would write for it.
  ghost predicate Foreign(m: map<string, Service>, base: string, rep: nat) {
    exists i: nat :: i < rep && IsForeign(m, base, i)
  }

  predicate IsForeign(m: map<string, Service>, base: string, i: nat) {
    var name := ServiceName(base, i);
    HasPort(m, name) && m[name] != Desired(base, i, m[name].nodePorts[0])
  }

  ghost predicate SameBut(before: map<string, Service>, after: map<string, Service>, names: set<string>) {
    forall n :: n !in names ==> (n in after <==> n in before) && (n in after ==> after[n] == before[n])
  }

  // One more replica done, in either branch.
  lemma UpsertTouchesOne(start: map<string, Service>, m: map<string, Service>, m': map<string, Service>, base: string,
                         i: nat, requested: int, p: int)
    requires Upserted(m, m', base, i, requested, p)
    requires SameBut(start, m, NamesBetween(base, 0, i - 1))
    ensures SameBut(start, m', NamesBetween(base, 0, i))
  {
    hide ServiceName, PodName;
    assert ServiceName(base, i) in NamesBetween(base, 0, i);
    assert NamesBetween(base, 0, i - 1) <= NamesBetween(base, 0, i);
  }

  lemma UpsertWrites(m: map<string, Service>, m': map<string, Service>, base: string, ports: seq<int>, requested: int, p: int)
    requires Upserted(m, m', base, |ports|, requested, p) && requested != 0 && Written(m, base, ports)
    ensures Written(m', base, ports + [p])
  {
    hide ServiceName, PodName;
    NamesInjective(base);
  }

  lemma UpsertAssigns(start: map<string, Service>, m: map<string, Service>, m': map<string, Service>, base: string,
                      ports: seq<int>, p: int)
    requires Upserted(m, m', base, |ports|, 0, p)
    requires Assigned(start, m, base, ports) && SameBut(start, m, NamesBetween(base, 0, |ports| - 1))
    ensures Assigned(start, m', base, ports + [p])
  {
    hide ServiceName, PodName;
    NamesInjective(base);
    assert ServiceName(base, |ports|) !in NamesBetween(base, 0, |ports| - 1);
  }

  // After the automatic branch every service is as the code writes it exactly when none was foreign.
  lemma AssignedIsWrittenIff(start: map<string, Service>, m: map<string, Service>, base: string, ports: seq<int>)
    requires Assigned(start, m, base, ports)
    ensures Exposes(m, base, ports)
    ensures Written(m, base, ports) <==> !Foreign(start, base, |ports|)
  {
    hide ServiceName, PodName;
    forall i: nat | i < |ports|
      ensures m[ServiceName(base, i)] == Desired(base, i, ports[i]) <==> !IsForeign(start, base, i)
    {
    }
    if i: nat :| i < |ports| && IsForeign(start, base, i) {
      assert m[ServiceName(base, i)] != Desired(base, i, ports[i]);
    }
  }

  // Writing what is there changes nothing.
  lemma RewriteIsNoop(m: map<string, Service>, m': map<string, Service>, base: string, ports: seq<int>, i: nat)
    requires i < |ports| && Written(m, base, ports) && ports[i] != 0
    requires Upserted(m, m', base, i, ports[i], ports[i])
    ensures m' == m
  {
    hide ServiceName, PodName;
  }

  lemma WidenSameBut(before: map<string, Service>, after: map<string, Service>, base: string, k: int, m: int)
    requires k <= m && SameBut(before, after, NamesBetween(base, 0, k))
    ensures SameBut(before, after, NamesBetween(base, 0, m))
  {
    hide ServiceName;
    assert NamesBetween(base, 0, k) <= NamesBetween(base, 0, m);
  }

  // The explicit branch.
  method ExposeGiven(c: Cluster, base: string, ports: seq<int>) returns (r: Result<string, Error>)
    requires c.Valid()
    modifies c`services
    ensures c.Valid()
    ensures SameBut(old(c.services), c.services, NamesBetween(base, 0, |ports| - 1))
    ensures r.Ok? ==> r.value == PortsCSV(ports) && Written(c.services, base, ports)
    ensures r.Err? && r.error.BadPort? <==> exists p :: p in ports && (p < 30000 || p > 32767)
    ensures Written(old(c.services), base, ports) ==> c.services == old(c.services)
  {
    hide Cluster.Valid, Upserted, NamesBetween, Itoa;
    var parts: seq<string> := [];
    for i := 0 to |ports|
      invariant parts == Texts(ports[..i])
      invariant forall j :: 0 <= j < i ==> InRange(ports[j])
    {
      var p := ports[i];
      assert p in ports;
      if p < 30000 || p > 32767 {
        WidenSameBut(c.services, c.services, base, -1, |ports| - 1);
        return Err(BadPort(p));
      }
      parts := parts + [Itoa(p)];
    }
    assert ports[..|ports|] == ports;
    hide SameBut, Written;
    NothingExposedYet(c.services, base);
    for i := 0 to |ports|
      invariant c.Valid() && forall p :: p in ports ==> 30000 <= p <= 32767
      invariant SameBut(old(c.services), c.services, NamesBetween(base, 0, i - 1))
      invariant Written(c.services, base, ports[..i])
      invariant Written(old(c.services), base, ports) ==> c.services == old(c.services)
    {
      ghost var before := c.services;
      assert ports[i] in ports;
      var np := c.UpsertNodePortService(base, i, ports[i]);
      if np.Err? {
        WidenSameBut(old(c.services), c.services, base, i - 1, |ports| - 1);
        return Err(np.error);
      }
      UpsertedPort(before, c.services, base, i, ports[i], np.value);
      UpsertTouchesOne(old(c.services), before, c.services, base, i, ports[i], np.value);
      UpsertWrites(before, c.services, base, ports[..i], ports[i], np.value);
      assert ports[..i] + [ports[i]] == ports[..i + 1];
      if Written(old(c.services), base, ports) {
        RewriteIsNoop(before, c.services, base, ports, i);
      }
    }
    r := Ok(Join(parts, ','));
  }

  lemma UpsertedPort(m: map<string, Service>, m': map<string, Service>, base: string, i: nat, requested: int, p: int)
    requires Upserted(m, m', base, i, requested, p)
    ensures requested != 0 ==> p == requested
  {
  }

  lemma NothingExposedYet(m: map<string, Service>, base: string)
    ensures SameBut(m, m, NamesBetween(base, 0, -1)) && Written(m, base, []) && Assigned(m, m, base, [])
  {
  }

  // The automatic branch: the ports the cluster assigned, replica by replica.
  method ExposeAuto(c: Cluster, base: string, rep: nat) returns (r: Result<seq<int>, Error>)
    requires c.Valid()
    modifies c`services
    ensures c.Valid()
    ensures SameBut(old(c.services), c.services, NamesBetween(base, 0, rep - 1))
    ensures r.Ok? ==> |r.value| == rep && Assigned(old(c.services), c.services, base, r.value)
    ensures r.Ok? ==> (Written(c.services, base, r.value) <==> !Foreign(old(c.services), base, rep))
  {
    hide Cluster.Valid, Upserted, NamesBetween, SameBut, Assigned, Written, Foreign;
    var alloc: seq<int> := [];
    NothingExposedYet(c.services, base);
    for i := 0 to rep
      invariant c.Valid() && |alloc| == i
      invariant SameBut(old(c.services), c.services, NamesBetween(base, 0, i - 1))
      invariant Assigned(old(c.services), c.services, base, alloc)
    {
      ghost var before := c.services;
      var np := c.UpsertNodePortService(base, i, 0);
      if np.Err? {
        WidenSameBut(old(c.services), c.services, base, i - 1, rep - 1);
        return Err(np.error);
      }
      UpsertTouchesOne(old(c.services), before, c.services, base, i, 0, np.value);
      UpsertAssigns(old(c.services), before, c.services, base, alloc, np.value);
      alloc := alloc + [np.value];
    }
    AssignedIsWrittenIff(old(c.services), c.services, base, alloc);
    r := Ok(alloc);
  }

  // ---------- the container's environment ----------

  function Without(env: seq<EnvVar>, name: string): seq<EnvVar> {
    if env == [] then []
    else
      var last := env[|env| - 1];
      Without(env[..|env| - 1], name) + if last.name == name then [] else [last]
  }

  function MergeEnv(env: seq<EnvVar>, name: string, value: string): seq<EnvVar> {
    Without(env, name) + [EnvVar(name, value)]
  }

  method MergeEnvVar(env: seq<EnvVar>, name: string, value: string) returns (out: seq<EnvVar>)
    ensures out == MergeEnv(env, name, value)
  {
    out := [];
    for i := 0 to |env|
      invariant out == Without(env[..i], name)
    {
      assert env[..i + 1][..i] == env[..i];
      if env[i].name == name {
        continue;
      }
      out := out + [env[i]];
    }
    assert env[..|env|] == env;
    out := out + [EnvVar(name, value)];
  }

  function ExposureEnv(env: seq<EnvVar>, host: string, ports: string): seq<EnvVar> {
    MergeEnv(MergeEnv(env, HOST_VAR, host), PORTS_VAR, ports)
  }

  lemma {:induction false} WithoutAppend(a: seq<EnvVar>, b: seq<EnvVar>, name: string)
    ensures Without(a + b, name) == Without(a, name) + Without(b, name)
  {
    if b == [] {
      assert a + b == a;
    } else {
      WithoutAppend(a, b[..|b| - 1], name);
      assert (a + b)[..|a + b| - 1] == a + b[..|b| - 1];
    }
  }

  lemma {:induction false} WithoutFree(env: seq<EnvVar>, name: string, other: string)
    ensures forall e :: e in Without(env, name) ==> e in env && e.name != name
    ensures (forall e :: e in env ==> e.name != other) ==> Without(env, other) == env
  {
    if env != [] {
      WithoutFree(env[..|env| - 1], name, other);
      assert env == env[..|env| - 1] + [env[|env| - 1]];
    }
  }

  // The two variables end up last, after everything else in its old order.
  lemma ExposureEnvShape(env: seq<EnvVar>, host: string, ports: string)
    ensures ExposureEnv(env, host, ports)
         == Without(Without(env, HOST_VAR), PORTS_VAR) + [EnvVar(HOST_VAR, host), EnvVar(PORTS_VAR, ports)]
    ensures forall e :: e in Without(Without(env, HOST_VAR), PORTS_VAR) ==> e.name != HOST_VAR && e.name != PORTS_VAR
  {
    hide Without;
    DistinctVars();
    var h := EnvVar(HOST_VAR, host);
    WithoutAppend(Without(env, HOST_VAR), [h], PORTS_VAR);
    WithoutFree([h], PORTS_VAR, PORTS_VAR);
    WithoutFree(env, HOST_VAR, HOST_VAR);
    WithoutFree(Without(env, HOST_VAR), PORTS_VAR, PORTS_VAR);
  }

  lemma DistinctVars()
    ensures HOST_VAR != PORTS_VAR
  {
    assert |HOST_VAR| != |PORTS_VAR|;
  }

  // Merging the same values again changes nothing, order included.
  lemma ExposureEnvStable(env: seq<EnvVar>, host: string, ports: string)
    ensures var e := ExposureEnv(env, host, ports); ExposureEnv(e, host, ports) == e
  {
    hide Without;
    DistinctVars();
    var e := ExposureEnv(env, host, ports);
    var rest := Without(Without(env, HOST_VAR), PORTS_VAR);
    var h, p := EnvVar(HOST_VAR, host), EnvVar(PORTS_VAR, ports);
    ExposureEnvShape(env, host, ports);
    ExposureEnvShape(e, host, ports);
    WithoutAppend(rest, [h, p], HOST_VAR);
    WithoutFree(rest, HOST_VAR, HOST_VAR);
    PairWithout(h, p);
    WithoutAppend(rest, [p], PORTS_VAR);
    WithoutFree(rest, PORTS_VAR, PORTS_VAR);
    assert rest + [] == rest;
  }

  lemma PairWithout(h: EnvVar, p: EnvVar)
    requires h.name == HOST_VAR && p.name == PORTS_VAR
    ensures Without([h, p], HOST_VAR) == [p] && Without([p], PORTS_VAR) == []
  {
    DistinctVars();
    assert [p][..0] == [] && [h][..0] == [];
    assert Without([h], HOST_VAR) == [];
    assert [h, p][..1] == [h];
  }

  function WithListener(ports: seq<int>): seq<int> {
    if LISTENER_PORT in ports then ports else ports + [LISTENER_PORT]
  }

  // Replica i has a service called <base>-kafka-np-<i> whose only port is p, and which reaches its own
  // broker, the pod <base>-kafka-<i>.
  ghost predicate ReachesBroker(m: map<string, Service>, base: string, i: nat, p: int) {
    exists name :: name in m && NamedAs(name, TrimSpace(base) + "-kafka-np", i) &&
      m[name].nodePorts == [p] && 30000 <= p <= 32767 && NamedAs(m[name].pod, TrimSpace(base) + "-kafka", i)
  }

  ghost predicate ReachesBrokers(m: map<string, Service>, base: string, ports: seq<int>) {
    forall i: nat :: i < |ports| ==> ReachesBroker(m, base, i, ports[i])
  }

  lemma WrittenReachesBrokers(m: map<string, Service>, base: string, ports: seq<int>)
    requires Written(m, base, ports)
    ensures ReachesBrokers(m, base, ports)
  {
    hide ServiceName, PodName, TrimSpace, NamedAs;
    forall i: nat | i < |ports| ensures ReachesBroker(m, base, i, ports[i]) {
      NamesAreSpelled(base, i);
      assert ServiceName(base, i) in m;
    }
  }

  // Services of different replicas reach different brokers.
  lemma BrokersDiffer(base: string, pod: string, i: nat, j: nat)
    requires NamedAs(pod, TrimSpace(base) + "-kafka", i) && NamedAs(pod, TrimSpace(base) + "-kafka", j)
    ensures i == j
  {
    hide NamedAs, TrimSpace;
    NamedOnce(pod, TrimSpace(base) + "-kafka", i, TrimSpace(base) + "-kafka", j);
  }

  // The listener port is there afterwards, once, and the other ports keep their order.
  lemma ListenerIsAdded(ports: seq<int>)
    ensures ports <= WithListener(ports) && 9094 in WithListener(ports)
    ensures multiset(WithListener(ports))[9094] == if 9094 in ports then multiset(ports)[9094] else 1
    ensures forall p :: p != 9094 ==> multiset(WithListener(ports))[p] == multiset(ports)[p]
  {
  }

  // The mode is node port for that word in any case and with any white space around it, and an
  // instance without a positive number of replicas has three.
  lemma SettingsAre(st: Instance)
    ensures var t := TrimSpace(st.exposure);
      st.NodePortMode() <==> |t| == 8 && forall i :: 0 <= i < 8 ==> t[i] == "nodeport"[i] || t[i] == "NODEPORT"[i]
    ensures st.Replicas() == if st.replicas > 0 then st.replicas else 3
  {
    hide TrimSpace;
    OnlyItsCases(TrimSpace(st.exposure));
  }

  lemma OnlyItsCases(t: string)
    ensures ToLower(t) == "nodeport" <==> |t| == 8 && forall i :: 0 <= i < 8 ==> t[i] == "nodeport"[i] || t[i] == "NODEPORT"[i]
  {
    var word, upper := "nodeport", "NODEPORT";
    assert word[0] == 'n' && word[1] == 'o' && word[2] == 'd' && word[3] == 'e' && word[4] == 'p' && word[5] == 'o' && word[6] == 'r' && word[7] == 't';
    assert upper[0] == 'N' && upper[1] == 'O' && upper[2] == 'D' && upper[3] == 'E' && upper[4] == 'P' && upper[5] == 'O' && upper[6] == 'R' && upper[7] == 'T';
    if |t| == 8 {
      forall i | 0 <= i < 8 ensures ToLowerChar(t[i]) == word[i] <==> t[i] == word[i] || t[i] == upper[i] {
      }
      assert ToLower(t) == word <==> forall i :: 0 <= i < 8 ==> ToLower(t)[i] == word[i];
    }
  }

  // ---------- the whole operation ----------

  // Services exist for exactly the replicas, up to those out of reach of the deletion.
  ghost predicate Converged(before: map<string, Service>, after: map<string, Service>, base: string, rep: nat,
                            ports: seq<int>, undeleted: set<string>)
  {
    |ports| == rep && Exposes(after, base, ports) &&
    (forall i: nat :: i >= rep ==>
      (ServiceName(base, i) in after <==>
        ServiceName(base, i) in before && (i > rep + 8 || ServiceName(base, i) in undeleted))) &&
    SameBut(before, after, NamesBetween(base, 0, rep + 8))
  }

  // Nothing is left to do: services, environment and ports are what the code would write.
  ghost predicate Settled(c: Cluster, st: Instance)
    reads c, st
  {
    LISTENER_PORT in c.ports &&
    if st.NodePortMode() then
      TrimSpace(st.advertiseHost) != "" && |st.nodePorts| == st.Replicas() &&
      Written(c.services, st.baseName, st.nodePorts) &&
      c.services.Keys !! NamesBetween(st.baseName, st.Replicas(), st.Replicas() + 8) &&
      c.env == ExposureEnv(c.env, TrimSpace(st.advertiseHost), PortsCSV(st.nodePorts))
    else
      c.services.Keys !! NamesBetween(st.baseName, 0, st.Replicas() + 8) &&
      c.env == ExposureEnv(c.env, "", "")
  }

  // What a caller can see before the first apply: it will not meet a foreign service.
  ghost predicate Clean(services: map<string, Service>, st: Instance)
    reads st
  {
    !st.NodePortMode() || st.nodePorts != [] || !Foreign(services, st.baseName, st.Replicas())
  }

  ghost predicate Distinct(ports: seq<int>) {
    forall i, j :: 0 <= i < j < |ports| ==> ports[i] != ports[j]
  }

  lemma BootstrapEntryInjective(host: string, p: int, q: int)
    requires BootstrapEntry(host, p) == BootstrapEntry(host, q)
    ensures p == q
  {
    hide Itoa;
    var n := |host + ":"|;
    assert BootstrapEntry(host, p)[n..] == Itoa(p) && BootstrapEntry(host, q)[n..] == Itoa(q);
    ItoaInjective(p, q);
  }

  // No two replicas are given the same port, so the entries handed to clients differ too.
  lemma PortsAreDistinct(m: map<string, Service>, base: string, ports: seq<int>, host: string)
    requires NoSharedPort(m) && Exposes(m, base, ports)
    ensures Distinct(ports)
    ensures forall i, j :: 0 <= i < j < |ports| ==> BootstrapEntries(host, ports)[i] != BootstrapEntries(host, ports)[j]
  {
    hide ServiceName, Itoa;
    forall i, j | 0 <= i < j < |ports|
      ensures ports[i] != ports[j] && BootstrapEntries(host, ports)[i] != BootstrapEntries(host, ports)[j]
    {
      if ServiceName(base, i) == ServiceName(base, j) { ServiceNameInjective(base, i, j); }
      assert ports[i] in m[ServiceName(base, i)].nodePorts && ports[j] in m[ServiceName(base, j)].nodePorts;
      if BootstrapEntry(host, ports[i]) == BootstrapEntry(host, ports[j]) {
        BootstrapEntryInjective(host, ports[i], ports[j]);
      }
    }
  }

  lemma StoredPortsAreDistinct(c: Cluster, base: string, ports: seq<int>)
    requires c.Valid() && Exposes(c.services, base, ports)
    ensures Distinct(ports)
  {
    hide Exposes, Distinct;
    PortsAreDistinct(c.services, base, ports, "");
  }

  lemma WrittenIsExposed(m: map<string, Service>, base: string, ports: seq<int>)
    requires Written(m, base, ports)
    ensures Exposes(m, base, ports)
  {
    hide ServiceName, PodName;
  }

  // Deleting past the last replica leaves the replicas' services alone ...
  lemma DeletionKeepsReplicas(m: map<string, Service>, m': map<string, Service>, base: string,
                              rep: nat, ports: seq<int>, undeleted: set<string>)
    requires |ports| == rep && m' == m - (NamesBetween(base, rep, rep + 8) - undeleted)
    ensures Exposes(m, base, ports) ==> Exposes(m', base, ports)
    ensures Written(m, base, ports) ==> Written(m', base, ports)
    ensures Written(m', base, ports) ==> Written(m, base, ports)
  {
    hide ServiceName, PodName;
    NamesInjective(base);
    forall i: nat | i < rep ensures ServiceName(base, i) !in NamesBetween(base, rep, rep + 8) { }
  }

  lemma DeletionKeepsAssigned(start: map<string, Service>, m: map<string, Service>, m': map<string, Service>, base: string,
                              ports: seq<int>, undeleted: set<string>)
    requires m' == m - (NamesBetween(base, |ports|, |ports| + 8) - undeleted) && Assigned(start, m, base, ports)
    ensures Assigned(start, m', base, ports)
  {
    hide ServiceName, PodName;
    NamesInjective(base);
    forall i: nat | i < |ports| ensures ServiceName(base, i) !in NamesBetween(base, |ports|, |ports| + 8) { }
  }

  lemma DeletedOrNot(base: string, rep: nat, i: nat)
    requires i >= rep
    ensures ServiceName(base, i) !in NamesBetween(base, 0, rep - 1)
    ensures ServiceName(base, i) in NamesBetween(base, rep, rep + 8) <==> i <= rep + 8
  {
    hide ServiceName;
    NamesInjective(base);
  }

  // ... and completes the convergence.
  lemma AfterDeletion(start: map<string, Service>, m: map<string, Service>, m': map<string, Service>, base: string,
                      rep: nat, ports: seq<int>, undeleted: set<string>)
    requires |ports| == rep && Exposes(m, base, ports) && SameBut(start, m, NamesBetween(base, 0, rep - 1))
    requires undeleted <= NamesBetween(base, rep, rep + 8)
    requires m' == m - (NamesBetween(base, rep, rep + 8) - undeleted)
    ensures Converged(start, m', base, rep, ports, undeleted)
    ensures undeleted == {} ==> m'.Keys !! NamesBetween(base, rep, rep + 8)
  {
    hide ServiceName, PodName, Exposes, Written;
    DeletionKeepsReplicas(m, m', base, rep, ports, undeleted);
    forall i: nat | i >= rep
      ensures ServiceName(base, i) in m' <==>
        ServiceName(base, i) in start && (i > rep + 8 || ServiceName(base, i) in undeleted)
    {
      DeletedOrNot(base, rep, i);
    }
    assert NamesBetween(base, rep, rep + 8) <= NamesBetween(base, 0, rep + 8);
    assert NamesBetween(base, 0, rep - 1) <= NamesBetween(base, 0, rep + 8);
  }

  // The nodeport branch up to the StatefulSet update.
  method ExposeReplicas(c: Cluster, st: Instance, rep: nat)
    returns (r: Result<string, Error>, ghost undeleted: set<string>)
    requires c.Valid() && rep == st.Replicas()
    modifies c`services, st`nodePorts
    ensures c.Valid() && undeleted <= c.services.Keys
    ensures r.Ok? ==> r.value == PortsCSV(st.nodePorts) && |st.nodePorts| == rep && Distinct(st.nodePorts)
    ensures r.Ok? ==> Converged(old(c.services), c.services, st.baseName, rep, st.nodePorts, undeleted)
    ensures old(st.nodePorts) != [] ==> st.nodePorts == old(st.nodePorts)
    ensures r.Ok? && old(st.nodePorts) == [] ==> Assigned(old(c.services), c.services, st.baseName, st.nodePorts)
    ensures r.Ok? ==>
              (Written(c.services, st.baseName, st.nodePorts) <==>
                old(st.nodePorts) != [] || !Foreign(old(c.services), st.baseName, rep))
    ensures r.Ok? && Written(c.services, st.baseName, st.nodePorts) ==> ReachesBrokers(c.services, st.baseName, st.nodePorts)
    ensures r.Ok? && undeleted == {} ==> c.services.Keys !! NamesBetween(st.baseName, rep, rep + 8)
    ensures (|old(st.nodePorts)| == rep && Written(old(c.services), st.baseName, st.nodePorts) &&
             old(c.services.Keys) !! NamesBetween(st.baseName, rep, rep + 8)) ==> c.services == old(c.services)
  {
    hide ServiceName, PodName, NamesBetween, SameBut, Written, Exposes, Assigned, Foreign, Cluster.Valid, Converged, Distinct, ReachesBrokers;
    var base, ports := st.baseName, st.nodePorts;
    undeleted := {};
    var csv;
    ghost var before := c.services;
    if |ports| == rep {
      r := ExposeGiven(c, base, ports);
      if r.Err? {
        return;
      }
      csv := r.value;
      WrittenIsExposed(c.services, base, ports);
    } else if |ports| == 0 {
      var alloc := ExposeAuto(c, base, rep);
      if alloc.Err? {
        return Err(alloc.error), {};
      }
      st.nodePorts := alloc.value;
      csv := Join(Texts(alloc.value), ',');
      AssignedIsWrittenIff(before, c.services, base, st.nodePorts);
    } else {
      return Err(PortCount), {};
    }
    ghost var exposed := c.services;
    undeleted := c.DeleteNodePortServicesRange(base, rep, rep + 8);
    DeletionKeepsReplicas(exposed, c.services, base, rep, st.nodePorts, undeleted);
    if |ports| == 0 {
      DeletionKeepsAssigned(before, exposed, c.services, base, st.nodePorts, undeleted);
    }
    AfterDeletion(before, exposed, c.services, base, rep, st.nodePorts, undeleted);
    StoredPortsAreDistinct(c, base, st.nodePorts);
    if Written(c.services, base, st.nodePorts) {
      WrittenReachesBrokers(c.services, base, st.nodePorts);
    }
    r := Ok(csv);
  }

  method HasListener(ports: seq<int>) returns (has: bool)
    ensures has <==> LISTENER_PORT in ports
  {
    has := false;
    for i := 0 to |ports|
      invariant LISTENER_PORT !in ports[..i]
    {
      if ports[i] == LISTENER_PORT {
        return true;
      }
    }
  }

  method ApplyKafkaInstanceExposure(c: Cluster, st: Instance, inferred: Option<string>)
    returns (r: Result<(), Error>, ghost undeleted: set<string>)
    requires c.Valid()
    requires inferred.Some? ==> inferred.value != "" && Trimmed(inferred.value)
    modifies c`services, c`env, c`ports, st`advertiseHost, st`nodePorts
    ensures c.Valid()
    // what a failed deletion left is still there
    ensures undeleted <= c.services.Keys
    // a successful node port apply converges, and the stored configuration agrees with the cluster
    ensures r.Ok? && st.NodePortMode() ==>
              Converged(old(c.services), c.services, st.baseName, st.Replicas(), st.nodePorts, undeleted) &&
              Distinct(st.nodePorts) && TrimSpace(st.advertiseHost) != "" &&
              c.env == ExposureEnv(old(c.env), TrimSpace(st.advertiseHost), PortsCSV(st.nodePorts))
    // given ports stay, and automatic ones are the old ones where there were any
    ensures old(st.nodePorts) != [] || !st.NodePortMode() ==> st.nodePorts == old(st.nodePorts)
    ensures r.Ok? && st.NodePortMode() && old(st.nodePorts) == [] ==>
              Assigned(old(c.services), c.services, st.baseName, st.nodePorts)
    // a successful internal apply withdraws every service in reach
    ensures r.Ok? && !st.NodePortMode() ==>
              c.services == old(c.services) - (NamesBetween(st.baseName, 0, st.Replicas() + 8) - undeleted) &&
              c.env == ExposureEnv(old(c.env), "", "")
    ensures r.Ok? ==> c.ports == WithListener(old(c.ports))
    // a failed apply leaves the StatefulSet alone
    ensures r.Err? ==> c.env == old(c.env) && c.ports == old(c.ports)
    // what is settled stays as it is, whether the calls succeed or not
    ensures old(Settled(c, st)) ==>
              c.services == old(c.services) && c.env == old(c.env) && c.ports == old(c.ports) &&
              st.advertiseHost == old(st.advertiseHost) && st.nodePorts == old(st.nodePorts)
    // and a success that leaves no service behind settles everything exactly when it met no foreign one
    ensures r.Ok? && undeleted == {} ==> (Settled(c, st) <==> old(Clean(c.services, st)))
    ensures r.Ok? && st.NodePortMode() ==>
              (Written(c.services, st.baseName, st.nodePorts) <==> old(Clean(c.services, st)))
    // then every replica's service leads to its own broker, through the stored port
    ensures r.Ok? && st.NodePortMode() && old(Clean(c.services, st)) ==>
              |st.nodePorts| == st.Replicas() && ReachesBrokers(c.services, st.baseName, st.nodePorts)
  {
    hide ServiceName, Written, Exposes, Assigned, Foreign, Converged, Distinct, Cluster.Valid, TrimSpace, ToLower,
      ExposureEnv, PortsCSV, NamesBetween, ReachesBrokers;
    var rep := st.Replicas();
    undeleted := {};
    if !c.ready {
      return Err(NoStatefulSet), {};
    }
    var host, csv := "", "";
    if st.NodePortMode() {
      host := TrimSpace(st.advertiseHost);
      if host == "" {
        if inferred.None? {
          return Err(NoHost), {};
        }
        host := inferred.value;
        st.advertiseHost := host;
      }
      var exposed;
      exposed, undeleted := ExposeReplicas(c, st, rep);
      if exposed.Err? {
        return Err(exposed.error), undeleted;
      }
      csv := exposed.value;
    } else {
      undeleted := c.DeleteNodePortServicesRange(st.baseName, 0, rep + 8);
    }
    assert ExposureEnv(c.env, host, csv) == MergeEnv(MergeEnv(c.env, HOST_VAR, host), PORTS_VAR, csv) by {
      ExposureEnvIs(c.env, host, csv);
    }
    ExposureEnvStable(c.env, host, csv);
    var env := MergeEnvVar(c.env, HOST_VAR, host);
    env := MergeEnvVar(env, PORTS_VAR, csv);
    var hasExt := HasListener(c.ports);
    var ports := if hasExt then c.ports else c.ports + [LISTENER_PORT];
    var failed: bool := *;
    if failed {
      return Err(ApiError), undeleted;
    }
    c.env, c.ports := env, ports;
    r := Ok(());
  }

  lemma ExposureEnvIs(env: seq<EnvVar>, host: string, ports: string)
    ensures ExposureEnv(env, host, ports) == MergeEnv(MergeEnv(env, HOST_VAR, host), PORTS_VAR, ports)
  {
  }

  // What an apply leaves behind.
  datatype Outcome = Outcome(services: map<string, Service>, env: seq<EnvVar>, ports: seq<int>, host: string, nodePorts: seq<int>)

  ghost function Observe(c: Cluster, st: Instance): Outcome
    reads c, st
  {
    Outcome(c.services, c.env, c.ports, st.advertiseHost, st.nodePorts)
  }

  // A second apply changes neither services, stored configuration nor StatefulSet, although it
  // takes the explicit branch where the first took the automatic one, and even if its calls fail.
  // The one exception can be seen beforehand: a service of another shape that the automatic branch
  // will keep. A complete second apply changes something exactly when there is one.
  method ApplyTwice(c: Cluster, st: Instance, inferred: Option<string>, inferredLater: Option<string>)
    returns (first: Result<(), Error>, second: Result<(), Error>, ghost undeleted: set<string>, ghost between: Outcome)
    requires c.Valid()
    requires inferred.Some? ==> inferred.value != "" && Trimmed(inferred.value)
    requires inferredLater.Some? ==> inferredLater.value != "" && Trimmed(inferredLater.value)
    modifies c`services, c`env, c`ports, st`advertiseHost, st`nodePorts
    ensures first.Ok? && undeleted == {} && old(Clean(c.services, st)) ==> Observe(c, st) == between
    ensures first.Ok? && second.Ok? && undeleted == {} ==> (Observe(c, st) == between <==> old(Clean(c.services, st)))
    // the automatic branch keeps the old ports and the services that had them; the second apply rewrites those
    ensures first.Ok? && st.NodePortMode() && old(st.nodePorts) == [] ==>
              Assigned(old(c.services), between.services, st.baseName, between.nodePorts)
    ensures first.Ok? && second.Ok? && st.NodePortMode() ==>
              st.nodePorts == between.nodePorts && |st.nodePorts| == st.Replicas() && Written(c.services, st.baseName, st.nodePorts)
  {
    hide ServiceName, NamesBetween, Written, Exposes, Assigned, Foreign, Cluster.Valid, TrimSpace, ToLower,
      ExposureEnv, PortsCSV, SameBut;
    first, undeleted := ApplyKafkaInstanceExposure(c, st, inferred);
    between := Observe(c, st);
    ghost var more;
    second, more := ApplyKafkaInstanceExposure(c, st, inferredLater);
  }

  lemma OnlyReplica(start: map<string, Service>, between: map<string, Service>, after: map<string, Service>,
                    base: string, ports: seq<int>)
    requires start == map[ServiceName(base, 0) := Service([30000], "other")]
    requires |ports| == 1 && Assigned(start, between, base, ports) && Written(after, base, ports)
    ensures ports == [30000]
    ensures ServiceName(base, 0) in between && between[ServiceName(base, 0)] == Service([30000], "other")
    ensures ServiceName(base, 0) in after && after[ServiceName(base, 0)] == Service([30000], PodName(base, 0))
    ensures between != after
  {
    hide ServiceName, TrimSpace, Itoa;
    var name := ServiceName(base, 0);
    assert name in between && name in after && HasPort(start, name);
    assert |PodName(base, 0)| > |"other"|;
    hide PodName;
  }

  lemma NodePortIsNodePort()
    ensures ToLower(TrimSpace("nodeport")) == "nodeport"
  {
    assert Trimmed("nodeport");
  }

  // A cluster where that happens: the service of the only replica selects another pod. The first
  // apply keeps it as it is and stores its port; the second one rewrites it.
  method ForeignServiceIsRewritten(base: string, host: string)
    returns (first: Result<(), Error>, second: Result<(), Error>, c: Cluster, st: Instance, ghost between: Outcome)
    requires host != "" && Trimmed(host)
    ensures first.Ok? && second.Ok? ==>
              ServiceName(base, 0) in between.services && between.nodePorts == [30000] &&
              between.services[ServiceName(base, 0)] == Service([30000], "other") &&
              ServiceName(base, 0) in c.services && st.nodePorts == [30000] &&
              c.services[ServiceName(base, 0)] == Service([30000], PodName(base, 0)) &&
              c.services != between.services
  {
    hide ServiceName, PodName, NamesBetween, TrimSpace, ToLower, ExposureEnv, PortsCSV, SameBut, Foreign, Assigned, Written, Exposes;
    c := new Cluster(map[ServiceName(base, 0) := Service([30000], "other")], {}, true, [], []);
    st := new Instance("nodeport", host, [], base, 1);
    ghost var undeleted;
    NodePortIsNodePort();
    assert st.NodePortMode();
    ghost var start := c.services;
    first, second, undeleted, between := ApplyTwice(c, st, None, None);
    if first.Ok? && second.Ok? {
      OnlyReplica(start, between.services, c.services, base, st.nodePorts);
    }
  }

  // ---------- what clients and brokers read from the result ----------

  method ExternalBootstrapCSV(rawHost: string, ports: seq<int>) returns (b: string)
    ensures b == if Blank(rawHost) then "" else Join(BootstrapEntries(TrimSpace(rawHost), ports), ',')
  {
    hide TrimSpace, BootstrapEntry;
    var host := TrimSpace(rawHost);
    if host == "" || |ports| == 0 {
      return "";
    }
    b := "";
    for i := 0 to |ports|
      invariant b == Join(BootstrapEntries(host, ports[..i]), ',')
    {
      if i > 0 {
        b := b + ",";
      }
      b := b + BootstrapEntry(host, ports[i]);
      JoinOneMore(BootstrapEntries(host, ports[..i]), BootstrapEntry(host, ports[i]));
      assert BootstrapEntries(host, ports[..i]) + [BootstrapEntry(host, ports[i])] == BootstrapEntries(host, ports[..i + 1]);
    }
    assert ports[..|ports|] == ports;
  }

  lemma {:induction false} JoinOneMore(parts: seq<string>, last: string)
    ensures Join(parts + [last], ',') == (if parts == [] then "" else Join(parts, ',') + ",") + last
  {
    if |parts| > 0 {
      JoinOneMore(parts[1..], last);
      assert (parts + [last])[1..] == parts[1..] + [last];
    } else {
      assert parts + [last] == [last];
    }
  }

  // The value of a variable, empty when it is not set; the last entry of a name wins.
  function Lookup(env: seq<EnvVar>, name: string): string {
    if env == [] then ""
    else if env[|env| - 1].name == name then env[|env| - 1].value else Lookup(env[..|env| - 1], name)
  }

  // The listener script of the container: the external address a broker announces, if any.
  function Advertised(env: seq<EnvVar>, ordinal: nat): Option<string> {
    var portsCSV, host := Lookup(env, "KAFKA_EXTERNAL_NODE_PORTS"), Lookup(env, "KAFKA_EXTERNAL_ADVERTISE_HOST");
    if portsCSV == "" || host == "" then None
    else
      var list := Split(portsCSV, ',');
      if ordinal >= |list| || list[ordinal] == "" then None else Some(host + ":" + list[ordinal])
  }

  lemma ScriptSees(env: seq<EnvVar>, host: string, ports: string)
    ensures Lookup(ExposureEnv(env, host, ports), "KAFKA_EXTERNAL_ADVERTISE_HOST") == host
    ensures Lookup(ExposureEnv(env, host, ports), "KAFKA_EXTERNAL_NODE_PORTS") == ports
  {
    hide Without;
    DistinctVars();
    ExposureEnvShape(env, host, ports);
    var e := ExposureEnv(env, host, ports);
    var h := EnvVar(HOST_VAR, host);
    var rest := Without(Without(env, HOST_VAR), PORTS_VAR);
    assert e[|e| - 1] == EnvVar(PORTS_VAR, ports) && e[..|e| - 1] == rest + [h];
    assert e[..|e| - 1][|e| - 2] == h;
  }

  lemma ItoaHasNoComma(n: int)
    ensures ',' !in Itoa(n)
  {
  }

  // Cutting the stored list at a broker's ordinal gives that broker's port.
  lemma PortsCSVAt(ports: seq<int>, i: nat)
    requires i < |ports|
    ensures |Split(PortsCSV(ports), ',')| == |ports| && Split(PortsCSV(ports), ',')[i] == Itoa(ports[i])
    ensures PortsCSV(ports) != ""
  {
    hide Itoa, Split, Join;
    var parts := Texts(ports);
    assert Texts(ports)[i] == Itoa(ports[i]);
    forall p | p in parts ensures ',' !in p {
      var k :| 0 <= k < |parts| && parts[k] == p;
      ItoaHasNoComma(ports[k]);
    }
    SplitJoin(parts, ',');
    SplitFree("", ',');
  }

  // After an apply broker i announces exactly the i-th entry of the bootstrap list handed to clients,
  // and nobody does once the exposure is withdrawn. The list splits back into its entries provided
  // the host has no comma; a host with a comma breaks it for every broker count.
  lemma BrokersMatchBootstrap(env: seq<EnvVar>, host: string, ports: seq<int>)
    requires ports != [] && host != "" && Trimmed(host)
    ensures forall i: nat :: i < |ports| ==>
              Advertised(ExposureEnv(env, host, PortsCSV(ports)), i) == Some(BootstrapEntry(host, ports[i]))
    ensures forall i: nat :: Advertised(ExposureEnv(env, "", ""), i) == None
    ensures Split(Join(BootstrapEntries(host, ports), ','), ',') == BootstrapEntries(host, ports) <==> ',' !in host
  {
    hide Itoa, Split, PortsCSV, Join, ExposureEnv, Lookup;
    ScriptSees(env, host, PortsCSV(ports));
    ScriptSees(env, "", "");
    forall i: nat | i < |ports|
      ensures Advertised(ExposureEnv(env, host, PortsCSV(ports)), i) == Some(BootstrapEntry(host, ports[i]))
    {
      PortsCSVAt(ports, i);
    }
    var entries := BootstrapEntries(host, ports);
    SplitJoinCount(entries, ',');
    assert BootstrapEntry(host, ports[0]) == entries[0] && entries[0] in entries;
    if ',' !in host {
      forall e | e in entries ensures ',' !in e {
        var k :| 0 <= k < |entries| && entries[k] == e;
        ItoaHasNoComma(ports[k]);
      }
      SplitJoin(entries, ',');
    } else {
      EntryHasComma(host, ports[0]);
    }
  }

  lemma EntryHasComma(host: string, port: int)
    requires ',' in host
    ensures ',' in BootstrapEntry(host, port)
  {
    var k :| 0 <= k < |host| && host[k] == ',';
    assert BootstrapEntry(host, port)[k] == ',';
  }
}
