/** Package `service`: deriving a Service from a Deployment, resolving a
    Service's port from its name, and the two store operations the
    Deployment handlers call, UpsertService and DeleteService. */
module Services {
  import opened Kube
  import opened GoLib
  import Cluster

  // ---- choosing the container and the port --------------------------------

  /** getSpecificContainer: the only container, else the first one named cn,
      else an empty container. */
  function GetSpecificContainer(cn: string, cs: seq<Container>): (c: Container)
    ensures |cs| == 1 ==> c == cs[0]
    ensures |cs| != 1 && (exists i :: 0 <= i < |cs| && cs[i].name == cn) ==>
      exists i :: 0 <= i < |cs| && c == cs[i] && c.name == cn && forall j :: 0 <= j < i ==> cs[j].name != cn
    ensures |cs| != 1 && (forall i :: 0 <= i < |cs| ==> cs[i].name != cn) ==> c == Container("", [])
  {
    if |cs| == 1 then cs[0]
    else
      var i := FirstWhere(cs, (x: Container) => x.name == cn);
      if i < |cs| then cs[i] else Container("", [])
  }

  /** getHttpContainerPort: the only port, else the first one named "http",
      else 0. */
  function GetHttpContainerPort(c: Container): (p: int)
    ensures |c.ports| == 1 ==> p == c.ports[0].containerPort
    ensures |c.ports| != 1 && (exists i :: 0 <= i < |c.ports| && c.ports[i].name == "http") ==>
      exists i :: 0 <= i < |c.ports| && c.ports[i].name == "http" && p == c.ports[i].containerPort &&
        forall j :: 0 <= j < i ==> c.ports[j].name != "http"
    ensures |c.ports| != 1 && (forall i :: 0 <= i < |c.ports| ==> c.ports[i].name != "http") ==> p == 0
  {
    if |c.ports| == 1 then c.ports[0].containerPort
    else
      var i := FirstWhere(c.ports, (x: ContainerPort) => x.name == "http");
      if i < |c.ports| then c.ports[i].containerPort else 0
  }

  /** The port newService gives the Service of a Deployment. */
  function ResolvedPort(d: Deployment): int {
    GetHttpContainerPort(GetSpecificContainer("main", d.containers))
  }

  // ---- names ---------------------------------------------------------------

  /** getServicePortName: the service prefix, "port-", then the local name;
      the local name can be read back from the port name. */
  function GetServicePortName(sp: string, n: string): (r: string)
    ensures HasPrefix(r, sp + "port-") && TrimPrefix(r, sp + "port-") == n
  {
    TrimPrefixOfConcat(sp + "port-", n);
    sp + "port-" + n
  }

  /** The port name GetServicePort looks for on a Service named sn. */
  function PortNameFor(cfg: Config, sn: string): string {
    GetServicePortName(cfg.servicePrefix, TrimPrefix(sn, cfg.servicePrefix))
  }

  /** GetServicePort: the port of the first entry whose name is exactly the
      port name derived from sn, else 0. */
  function GetServicePort(cfg: Config, sn: string, ports: seq<ServicePort>): (p: int)
    ensures (exists i :: 0 <= i < |ports| && ports[i].name == PortNameFor(cfg, sn)) ==>
      exists i :: 0 <= i < |ports| && ports[i].name == PortNameFor(cfg, sn) && p == ports[i].port &&
        forall j :: 0 <= j < i ==> ports[j].name != PortNameFor(cfg, sn)
    ensures (forall i :: 0 <= i < |ports| ==> ports[i].name != PortNameFor(cfg, sn)) ==> p == 0
  {
    var want := PortNameFor(cfg, sn);
    var i := FirstWhere(ports, (x: ServicePort) => x.name == want);
    if i < |ports| then ports[i].port else 0
  }

  // ---- the derived Service --------------------------------------------------

  /** newService: the Service a Deployment gets. */
  function NewService(cfg: Config, d: Deployment): (s: Service)
    ensures s.name == cfg.servicePrefix + d.name && s.namespace == d.namespace
    ensures s.labels == d.labels && s.selector == d.labels
    ensures |s.ports| == 1 && s.ports[0].protocol == ProtocolTCP
    ensures s.ports[0].port == ResolvedPort(d) && s.ports[0].targetPort == ResolvedPort(d)
    ensures s.ports[0].name == cfg.servicePrefix + "port-" + d.name
    ensures s.annotations.Keys == {PartOfKey, InternetAccessKey}
    ensures IsManaged(cfg, s.annotations)
    ensures Lookup(d.annotations, InternetAccessKey) != "" ==>
      s.annotations[InternetAccessKey] == Lookup(d.annotations, InternetAccessKey)
    ensures Lookup(d.annotations, InternetAccessKey) == "" ==> s.annotations[InternetAccessKey] == "false"
    ensures AllowsInternetAccess(s.annotations) <==> AllowsInternetAccess(d.annotations)
    ensures Lookup(s.annotations, InternetAccessKey) != ""
    ensures GetServicePort(cfg, s.name, s.ports) == ResolvedPort(d)
  {
    var port := ResolvedPort(d);
    var aia := if Lookup(d.annotations, InternetAccessKey) == "" then "false"
               else Lookup(d.annotations, InternetAccessKey);
    TrimPrefixOfConcat(cfg.servicePrefix, d.name);
    Service(
      cfg.servicePrefix + d.name,
      d.namespace,
      d.labels,
      map[PartOfKey := cfg.partOf, InternetAccessKey := aia],
      [ServicePort(GetServicePortName(cfg.servicePrefix, d.name), ProtocolTCP, port, port)],
      d.labels,
      ServiceTypeClusterIP)
  }

  // ---- the store operations, as functions of the store -----------------------

  /** The keys the Services of svcs have in namespace ns. */
  ghost function KeysIn(ns: string, svcs: seq<Service>): set<ObjectKey> {
    set i | 0 <= i < |svcs| :: ObjectKey(ns, svcs[i].name)
  }

  /** The update loop of UpsertService: each listed Service, with labels and
      selector set to l, replaces the stored one, in list order; the first
      failing update ends the loop and is returned. */
  function RelabelEffect(m: map<ObjectKey, Service>, ns: string, svcs: seq<Service>, l: Labels): Cluster.Applied<Service>
  {
    if |svcs| == 0 then Cluster.Applied(m, None)
    else
      var u := Cluster.Update(m, ObjectKey(ns, svcs[0].name), svcs[0].(labels := l, selector := l));
      if u.err.Some? then u else RelabelEffect(u.objects, ns, svcs[1..], l)
  }

  /** UpsertService on store m, listing from cache. */
  function UpsertServiceEffect(cfg: Config, m: map<ObjectKey, Service>, cache: Cluster.Cache, ns: string,
                               ol: Labels, newDeploy: Deployment, oldDeploy: Deployment): Cluster.Applied<Service>
  {
    if |ol| == 0 then Cluster.Applied(m, Some(InvalidArguments))
    else
      match Cluster.ListServices(cache, ns, ol)
      case Err(e) => Cluster.Applied(m, Some(e))
      case Ok(services) =>
        if |services| == 0 && newDeploy.availableReplicas > 0 then
          var svc := NewService(cfg, newDeploy);
          Cluster.Create(m, ServiceKey(svc), svc)
        else if oldDeploy.resourceVersion != newDeploy.resourceVersion && ol != newDeploy.labels then
          RelabelEffect(m, ns, services, newDeploy.labels)
        else Cluster.Applied(m, None)
  }

  /** The delete loop of DeleteService: each listed Service is deleted by
      name, in list order; the first failing delete ends the loop and is
      returned. */
  function DeleteEachEffect(m: map<ObjectKey, Service>, ns: string, svcs: seq<Service>): Cluster.Applied<Service>
  {
    if |svcs| == 0 then Cluster.Applied(m, None)
    else
      var d := Cluster.Delete(m, ObjectKey(ns, svcs[0].name));
      if d.err.Some? then d else DeleteEachEffect(d.objects, ns, svcs[1..])
  }

  /** DeleteService on store m, listing from cache. */
  function DeleteServiceEffect(m: map<ObjectKey, Service>, cache: Cluster.Cache, ns: string, l: Labels): Cluster.Applied<Service>
  {
    match Cluster.ListServices(cache, ns, l)
    case Err(e) => Cluster.Applied(m, Some(e))
    case Ok(ret) => DeleteEachEffect(m, ns, ret)
  }

  // ---- the store operations, as the source runs them ---------------------------

  /** UpsertService: ol are the old Deployment's labels, ns its namespace. */
  method UpsertService(cfg: Config, store: Cluster.Store, cache: Cluster.Cache, ns: string,
                       ol: Labels, newDeploy: Deployment, oldDeploy: Deployment)
    returns (err: Option<Error>)
    modifies store`services
    ensures Cluster.Applied(store.services, err) == UpsertServiceEffect(cfg, old(store.services), cache, ns, ol, newDeploy, oldDeploy)
  {
    if |ol| == 0 {
      return Some(InvalidArguments);
    }
    var listed := Cluster.ListServices(cache, ns, ol);
    if listed.Err? {
      return Some(listed.error);
    }
    var services := listed.value;
    if |services| == 0 && newDeploy.availableReplicas > 0 {
      var svc := NewService(cfg, newDeploy);
      // AlreadyExists only skips the error log: it is still the error returned
      err := store.CreateService(svc);
    } else if oldDeploy.resourceVersion != newDeploy.resourceVersion && ol != newDeploy.labels {
      var i := 0;
      while i < |services|
        invariant 0 <= i <= |services|
        invariant RelabelEffect(store.services, ns, services[i..], newDeploy.labels)
               == RelabelEffect(old(store.services), ns, services, newDeploy.labels)
      {
        var svc := services[i].(labels := newDeploy.labels, selector := newDeploy.labels);
        assert services[i..][1..] == services[i + 1..];
        err := store.UpdateService(ns, svc);
        if err.Some? {
          return;
        }
        i := i + 1;
      }
      err := None;
    } else {
      err := None;
    }
  }

  /** DeleteService: deletes the Services of namespace ns that carry every
      pair of l. */
  method DeleteService(store: Cluster.Store, cache: Cluster.Cache, ns: string, l: Labels)
    returns (err: Option<Error>)
    modifies store`services
    ensures Cluster.Applied(store.services, err) == DeleteServiceEffect(old(store.services), cache, ns, l)
  {
    var listed := Cluster.ListServices(cache, ns, l);
    if listed.Err? {
      return Some(listed.error);
    }
    var ret := listed.value;
    var i := 0;
    while i < |ret|
      invariant 0 <= i <= |ret|
      invariant DeleteEachEffect(store.services, ns, ret[i..]) == DeleteEachEffect(old(store.services), ns, ret)
    {
      assert ret[i..][1..] == ret[i + 1..];
      var e := store.DeleteService(ns, ret[i].name);
      if e.Some? {
        return e;
      }
      i := i + 1;
    }
    return None;
  }

  // ---- properties of the update and delete loops ------------------------------

  /** When every listed Service is still stored, the update loop succeeds,
      keeps the set of stored keys, gives each listed key its cached Service
      with labels and selector l, and leaves every other Service as it was. */
  lemma {:induction false} RelabelRewritesEvery(m: map<ObjectKey, Service>, ns: string, svcs: seq<Service>, l: Labels)
    requires forall i :: 0 <= i < |svcs| ==> ObjectKey(ns, svcs[i].name) in m
    ensures RelabelEffect(m, ns, svcs, l).err == None
    ensures RelabelEffect(m, ns, svcs, l).objects.Keys == m.Keys
    ensures forall k :: k in KeysIn(ns, svcs) ==>
      RelabelEffect(m, ns, svcs, l).objects[k].labels == l && RelabelEffect(m, ns, svcs, l).objects[k].selector == l &&
      exists i :: 0 <= i < |svcs| && RelabelEffect(m, ns, svcs, l).objects[k] == svcs[i].(labels := l, selector := l)
    ensures forall k :: k in m && k !in KeysIn(ns, svcs) ==> RelabelEffect(m, ns, svcs, l).objects[k] == m[k]
  {
    if |svcs| > 0 {
      var k0 := ObjectKey(ns, svcs[0].name);
      var m' := m[k0 := svcs[0].(labels := l, selector := l)];
      var rest := svcs[1..];
      RelabelRewritesEvery(m', ns, rest, l);
      var r := RelabelEffect(m, ns, svcs, l);
      assert r == RelabelEffect(m', ns, rest, l);
      assert KeysIn(ns, svcs) == {k0} + KeysIn(ns, rest) by {
        forall k | k in KeysIn(ns, svcs) ensures k in {k0} + KeysIn(ns, rest) {
          var i :| 0 <= i < |svcs| && k == ObjectKey(ns, svcs[i].name);
          if i > 0 { assert k == ObjectKey(ns, rest[i - 1].name); }
        }
        forall k | k in KeysIn(ns, rest) ensures k in KeysIn(ns, svcs) {
          var i :| 0 <= i < |rest| && k == ObjectKey(ns, rest[i].name);
          assert k == ObjectKey(ns, svcs[i + 1].name);
        }
      }
      forall k | k in KeysIn(ns, svcs)
        ensures exists i :: 0 <= i < |svcs| && r.objects[k] == svcs[i].(labels := l, selector := l)
      {
        if k in KeysIn(ns, rest) {
          var i :| 0 <= i < |rest| && r.objects[k] == rest[i].(labels := l, selector := l);
          assert rest[i] == svcs[i + 1];
        } else {
          assert k == k0 && r.objects[k] == m'[k0];
        }
      }
    }
  }

  /** The update loop stops at the first listed Service that is no longer
      stored: the ones before it are rewritten, the rest are not, and the
      error is NotFound. */
  lemma {:induction false} RelabelStopsAtFirstMissing(m: map<ObjectKey, Service>, ns: string, svcs: seq<Service>, l: Labels, j: nat)
    requires j < |svcs| && ObjectKey(ns, svcs[j].name) !in m
    requires forall i :: 0 <= i < j ==> ObjectKey(ns, svcs[i].name) in m
    ensures RelabelEffect(m, ns, svcs, l) == Cluster.Applied(RelabelEffect(m, ns, svcs[..j], l).objects, Some(NotFound))
  {
    if j > 0 {
      var k0 := ObjectKey(ns, svcs[0].name);
      var m' := m[k0 := svcs[0].(labels := l, selector := l)];
      RelabelStopsAtFirstMissing(m', ns, svcs[1..], l, j - 1);
      assert svcs[..j][1..] == svcs[1..][..j - 1];
    }
  }

  /** When the listed Services have distinct names and are all stored, the
      delete loop succeeds and removes exactly their keys. */
  lemma {:induction false} DeleteEachRemovesAll(m: map<ObjectKey, Service>, ns: string, svcs: seq<Service>)
    requires forall i :: 0 <= i < |svcs| ==> ObjectKey(ns, svcs[i].name) in m
    requires forall i, j :: 0 <= i < j < |svcs| ==> svcs[i].name != svcs[j].name
    ensures DeleteEachEffect(m, ns, svcs) == Cluster.Applied(m - KeysIn(ns, svcs), None)
  {
    if |svcs| > 0 {
      var k0 := ObjectKey(ns, svcs[0].name);
      var rest := svcs[1..];
      forall i | 0 <= i < |rest| ensures ObjectKey(ns, rest[i].name) in m - {k0} {
        assert rest[i] == svcs[i + 1];
      }
      DeleteEachRemovesAll(m - {k0}, ns, rest);
      assert KeysIn(ns, svcs) == {k0} + KeysIn(ns, rest) by {
        forall k | k in KeysIn(ns, svcs) ensures k in {k0} + KeysIn(ns, rest) {
          var i :| 0 <= i < |svcs| && k == ObjectKey(ns, svcs[i].name);
          if i > 0 { assert k == ObjectKey(ns, rest[i - 1].name); }
        }
        forall k | k in KeysIn(ns, rest) ensures k in KeysIn(ns, svcs) {
          var i :| 0 <= i < |rest| && k == ObjectKey(ns, rest[i].name);
          assert k == ObjectKey(ns, svcs[i + 1].name);
        }
      }
      assert (m - {k0}) - KeysIn(ns, rest) == m - KeysIn(ns, svcs);
    }
  }

  /** The delete loop stops at the first listed Service that is no longer
      stored: the ones before it are deleted, the rest are left in place. */
  lemma {:induction false} DeleteEachStopsAtFirstMissing(m: map<ObjectKey, Service>, ns: string, svcs: seq<Service>, j: nat)
    requires j < |svcs| && ObjectKey(ns, svcs[j].name) !in m
    requires forall i :: 0 <= i < j ==> ObjectKey(ns, svcs[i].name) in m
    requires forall i, i' :: 0 <= i < i' < |svcs| ==> svcs[i].name != svcs[i'].name
    ensures DeleteEachEffect(m, ns, svcs) == Cluster.Applied(m - KeysIn(ns, svcs[..j]), Some(NotFound))
  {
    var k0 := ObjectKey(ns, svcs[0].name);
    if j == 0 {
      assert KeysIn(ns, svcs[..0]) == {};
      assert m - {} == m;
    } else {
      var rest := svcs[1..];
      assert k0 != ObjectKey(ns, rest[j - 1].name) by { assert rest[j - 1] == svcs[j]; }
      forall i | 0 <= i < j - 1 ensures ObjectKey(ns, rest[i].name) in m - {k0} {
        assert rest[i] == svcs[i + 1];
      }
      DeleteEachStopsAtFirstMissing(m - {k0}, ns, rest, j - 1);
      assert KeysIn(ns, svcs[..j]) == {k0} + KeysIn(ns, rest[..j - 1]) by {
        forall k | k in KeysIn(ns, svcs[..j]) ensures k in {k0} + KeysIn(ns, rest[..j - 1]) {
          var i :| 0 <= i < j && k == ObjectKey(ns, svcs[..j][i].name);
          if i > 0 { assert k == ObjectKey(ns, rest[..j - 1][i - 1].name); }
        }
        forall k | k in KeysIn(ns, rest[..j - 1]) ensures k in KeysIn(ns, svcs[..j]) {
          var i :| 0 <= i < j - 1 && k == ObjectKey(ns, rest[..j - 1][i].name);
          assert k == ObjectKey(ns, svcs[..j][i + 1].name);
        }
      }
      assert (m - {k0}) - KeysIn(ns, rest[..j - 1]) == m - KeysIn(ns, svcs[..j]);
    }
  }

  // ---- properties of UpsertService and DeleteService ----------------------------

  /** k is the key of a cached Service of namespace ns that ol selects. */
  ghost predicate MatchedKey(cache: Cluster.Cache, ns: string, ol: Labels, k: ObjectKey) {
    exists s :: s in cache.services && s.namespace == ns && Selects(ol, s.labels) && k == ObjectKey(ns, s.name)
  }

  lemma ListedKeys(cache: Cluster.Cache, ns: string, ol: Labels)
    ensures forall k :: k in KeysIn(ns, Cluster.FilterServices(cache.services, ns, ol)) <==> MatchedKey(cache, ns, ol, k)
  {
    var ret := Cluster.FilterServices(cache.services, ns, ol);
    forall k | MatchedKey(cache, ns, ol, k) ensures k in KeysIn(ns, ret) {
      var s :| s in cache.services && s.namespace == ns && Selects(ol, s.labels) && k == ObjectKey(ns, s.name);
      var i :| 0 <= i < |ret| && ret[i] == s;
    }
    forall k | k in KeysIn(ns, ret) ensures MatchedKey(cache, ns, ol, k) {
      var i :| 0 <= i < |ret| && k == ObjectKey(ns, ret[i].name);
      assert ret[i] in ret;
    }
  }

  /** An empty label map is refused with InvalidArguments; nothing is written. */
  lemma UpsertRejectsEmptyLabels(cfg: Config, m: map<ObjectKey, Service>, cache: Cluster.Cache, ns: string,
                                 newDeploy: Deployment, oldDeploy: Deployment)
    ensures UpsertServiceEffect(cfg, m, cache, ns, map[], newDeploy, oldDeploy) == Cluster.Applied(m, Some(InvalidArguments))
  {
  }

  /** Nothing cached matches and a replica is available: the one Service
      derived from the new Deployment is created. If its key is taken the
      store is left alone and AlreadyExists comes back. */
  lemma UpsertCreatesWhenNothingMatches(cfg: Config, m: map<ObjectKey, Service>, cache: Cluster.Cache, ns: string,
                                        ol: Labels, newDeploy: Deployment, oldDeploy: Deployment)
    requires |ol| > 0 && cache.listable
    requires forall s :: s in cache.services ==> !(s.namespace == ns && Selects(ol, s.labels))
    requires newDeploy.availableReplicas > 0
    requires newDeploy.namespace != "" && newDeploy.name != ""
    ensures var svc := NewService(cfg, newDeploy);
      ServiceKey(svc) == ObjectKey(newDeploy.namespace, cfg.servicePrefix + newDeploy.name) &&
      UpsertServiceEffect(cfg, m, cache, ns, ol, newDeploy, oldDeploy) ==
        if ServiceKey(svc) in m then Cluster.Applied(m, Some(AlreadyExists))
        else Cluster.Applied(m[ServiceKey(svc) := svc], None)
  {
  }

  /** Something matches, the resource version moved and the labels changed:
      when every matched Service is still stored, each gets the new labels as
      labels and selector, nothing else changes, and no error comes back. */
  lemma UpsertRelabelsEveryMatch(cfg: Config, m: map<ObjectKey, Service>, cache: Cluster.Cache, ns: string,
                                 ol: Labels, newDeploy: Deployment, oldDeploy: Deployment)
    requires |ol| > 0 && cache.listable
    requires exists s :: s in cache.services && s.namespace == ns && Selects(ol, s.labels)
    requires oldDeploy.resourceVersion != newDeploy.resourceVersion && ol != newDeploy.labels
    requires forall k :: MatchedKey(cache, ns, ol, k) ==> k in m
    ensures UpsertServiceEffect(cfg, m, cache, ns, ol, newDeploy, oldDeploy).err == None
    ensures UpsertServiceEffect(cfg, m, cache, ns, ol, newDeploy, oldDeploy).objects.Keys == m.Keys
    ensures forall k :: MatchedKey(cache, ns, ol, k) ==>
      UpsertServiceEffect(cfg, m, cache, ns, ol, newDeploy, oldDeploy).objects[k].labels == newDeploy.labels &&
      UpsertServiceEffect(cfg, m, cache, ns, ol, newDeploy, oldDeploy).objects[k].selector == newDeploy.labels
    ensures forall k :: k in m && !MatchedKey(cache, ns, ol, k) ==>
      UpsertServiceEffect(cfg, m, cache, ns, ol, newDeploy, oldDeploy).objects[k] == m[k]
  {
    var ret := Cluster.FilterServices(cache.services, ns, ol);
    var s :| s in cache.services && s.namespace == ns && Selects(ol, s.labels);
    assert s in ret;
    ListedKeys(cache, ns, ol);
    forall i | 0 <= i < |ret| ensures ObjectKey(ns, ret[i].name) in m {
      assert ObjectKey(ns, ret[i].name) in KeysIn(ns, ret);
    }
    RelabelRewritesEvery(m, ns, ret, newDeploy.labels);
  }

  /** In every other case UpsertService writes nothing and returns nil:
      something matches but the version or the labels are unchanged, or
      nothing matches and no replica is available. */
  lemma UpsertWritesNothingOtherwise(cfg: Config, m: map<ObjectKey, Service>, cache: Cluster.Cache, ns: string,
                                     ol: Labels, newDeploy: Deployment, oldDeploy: Deployment)
    requires |ol| > 0 && cache.listable
    requires
      || ((exists s :: s in cache.services && s.namespace == ns && Selects(ol, s.labels)) &&
          (oldDeploy.resourceVersion == newDeploy.resourceVersion || ol == newDeploy.labels))
      || ((forall s :: s in cache.services ==> !(s.namespace == ns && Selects(ol, s.labels))) &&
          newDeploy.availableReplicas <= 0)
    ensures UpsertServiceEffect(cfg, m, cache, ns, ol, newDeploy, oldDeploy) == Cluster.Applied(m, None)
  {
    var ret := Cluster.FilterServices(cache.services, ns, ol);
    if exists s :: s in cache.services && s.namespace == ns && Selects(ol, s.labels) {
      var s :| s in cache.services && s.namespace == ns && Selects(ol, s.labels);
      assert s in ret;
    }
  }

  /** Upserting a Deployment a second time, after the first call created its
      Service and the cache caught up, finds that Service by its labels and
      writes nothing: the Deployment never gets two Services this way. */
  lemma UpsertIsIdempotent(cfg: Config, m: map<ObjectKey, Service>, cache1: Cluster.Cache, cache2: Cluster.Cache,
                           d: Deployment, od1: Deployment, od2: Deployment)
    requires |d.labels| > 0 && d.availableReplicas > 0
    requires cache1.listable
    requires forall s :: s in cache1.services ==> !(s.namespace == d.namespace && Selects(d.labels, s.labels))
    requires UpsertServiceEffect(cfg, m, cache1, d.namespace, d.labels, d, od1).err == None
    requires cache2.listable
    requires Cluster.Mirrors(cache2.services, UpsertServiceEffect(cfg, m, cache1, d.namespace, d.labels, d, od1).objects)
    ensures var m1 := UpsertServiceEffect(cfg, m, cache1, d.namespace, d.labels, d, od1).objects;
      UpsertServiceEffect(cfg, m1, cache2, d.namespace, d.labels, d, od2) == Cluster.Applied(m1, None)
  {
    var svc := NewService(cfg, d);
    var ret1 := Cluster.FilterServices(cache1.services, d.namespace, d.labels);
    Cluster.FilterNoMatch(cache1.services, d.namespace, d.labels);
    var m1 := UpsertServiceEffect(cfg, m, cache1, d.namespace, d.labels, d, od1).objects;
    assert ServiceKey(svc) in m1 && m1[ServiceKey(svc)] == svc;
    var i :| 0 <= i < |cache2.services| && ServiceKey(cache2.services[i]) == ServiceKey(svc);
    assert cache2.services[i] == svc;
    assert cache2.services[i] in cache2.services;
    UpsertWritesNothingOtherwise(cfg, m1, cache2, d.namespace, d.labels, d, od2);
  }

  /** With the cache caught up, DeleteService removes exactly the Services of
      namespace ns that carry every pair of l, leaves the others as they
      were, and returns nil. */
  lemma DeleteServiceRemovesMatches(m: map<ObjectKey, Service>, cache: Cluster.Cache, ns: string, l: Labels)
    requires cache.listable && Cluster.Mirrors(cache.services, m)
    ensures DeleteServiceEffect(m, cache, ns, l).err == None
    ensures forall k :: k in DeleteServiceEffect(m, cache, ns, l).objects <==>
      k in m && !(k.namespace == ns && Selects(l, m[k].labels))
    ensures forall k :: k in DeleteServiceEffect(m, cache, ns, l).objects ==>
      DeleteServiceEffect(m, cache, ns, l).objects[k] == m[k]
  {
    var ret := Cluster.FilterServices(cache.services, ns, l);
    Cluster.FilterKeepsDistinctKeys(cache.services, ns, l);
    forall i | 0 <= i < |ret| ensures ObjectKey(ns, ret[i].name) in m && m[ObjectKey(ns, ret[i].name)] == ret[i] {
      assert ret[i] in ret;
      var t :| 0 <= t < |cache.services| && cache.services[t] == ret[i];
    }
    forall i, j | 0 <= i < j < |ret| ensures ret[i].name != ret[j].name {
      assert ret[i] in ret && ret[j] in ret;
      assert ServiceKey(ret[i]) != ServiceKey(ret[j]);
    }
    DeleteEachRemovesAll(m, ns, ret);
    forall k | k in m ensures k in KeysIn(ns, ret) <==> k.namespace == ns && Selects(l, m[k].labels) {
      if k in KeysIn(ns, ret) {
        var i :| 0 <= i < |ret| && k == ObjectKey(ns, ret[i].name);
        assert ret[i] in ret;
      }
      if k.namespace == ns && Selects(l, m[k].labels) {
        var t :| 0 <= t < |cache.services| && ServiceKey(cache.services[t]) == k;
        assert cache.services[t] in cache.services;
        assert cache.services[t] in ret;
        var i :| 0 <= i < |ret| && ret[i] == cache.services[t];
        assert k == ObjectKey(ns, ret[i].name);
      }
    }
  }

  /** DeleteService with an empty label map selects everything: once the
      cache has caught up, no Service of the namespace is left. */
  lemma DeleteServiceWithNoLabelsEmptiesNamespace(m: map<ObjectKey, Service>, cache: Cluster.Cache, ns: string)
    requires cache.listable && Cluster.Mirrors(cache.services, m)
    ensures forall k :: k in DeleteServiceEffect(m, cache, ns, map[]).objects ==> k.namespace != ns
  {
    DeleteServiceRemovesMatches(m, cache, ns, map[]);
  }
}
