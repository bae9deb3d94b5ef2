/** Package `ingress`: the Ingress a managed Service gets, the search for an
    Ingress routing to a Service, the backend patch sent when a Service
    changes, and the four store operations the Service handlers call. */
module Ingresses {
  import opened Kube
  import opened GoLib
  import Cluster
  import Helper
  import Services

  // ---- the derived Ingress ---------------------------------------------------

  /** getIngressName: the ingress prefix, then the service name with one
      leading service prefix removed. */
  function IngressName(cfg: Config, sn: string): (r: string)
    ensures HasPrefix(r, cfg.ingressPrefix)
    ensures HasPrefix(sn, cfg.servicePrefix) ==> cfg.servicePrefix + r[|cfg.ingressPrefix|..] == sn
    ensures !HasPrefix(sn, cfg.servicePrefix) ==> r == cfg.ingressPrefix + sn
  {
    assert (cfg.ingressPrefix + TrimPrefix(sn, cfg.servicePrefix))[..|cfg.ingressPrefix|] == cfg.ingressPrefix;
    cfg.ingressPrefix + TrimPrefix(sn, cfg.servicePrefix)
  }

  /** The port getPaths puts in the backend: that of the first service port
      whose name starts with the service prefix and "port-", else 0. */
  function PathPort(cfg: Config, ports: seq<ServicePort>): (p: int)
    ensures (exists i :: 0 <= i < |ports| && HasPrefix(ports[i].name, cfg.servicePrefix + "port-")) ==>
      exists i :: 0 <= i < |ports| && HasPrefix(ports[i].name, cfg.servicePrefix + "port-") && p == ports[i].port &&
        forall j :: 0 <= j < i ==> !HasPrefix(ports[j].name, cfg.servicePrefix + "port-")
    ensures (forall i :: 0 <= i < |ports| ==> !HasPrefix(ports[i].name, cfg.servicePrefix + "port-")) ==> p == 0
  {
    var want := cfg.servicePrefix + "port-";
    var i := FirstWhere(ports, (x: ServicePort) => HasPrefix(x.name, want));
    if i < |ports| then ports[i].port else 0
  }

  /** getPaths: the single path "/" to service sn. */
  function Paths(cfg: Config, sn: string, ports: seq<ServicePort>): (r: seq<IngressPath>)
    ensures |r| == 1 && r[0].path == "/"
    ensures r[0].backend == Backend(sn, PathPort(cfg, ports))
  {
    [IngressPath("/", Backend(sn, PathPort(cfg, ports)))]
  }

  /** getRules: the single rule for host h. */
  function Rules(cfg: Config, sn: string, h: string, ports: seq<ServicePort>): (r: seq<IngressRule>)
    ensures |r| == 1 && r[0].host == h && r[0].paths == Paths(cfg, sn, ports)
  {
    [IngressRule(h, Paths(cfg, sn, ports))]
  }

  /** newIngress: named after the Service, in namespace ns, rewriting to "/",
      with one rule for hostname and one path to sn. */
  function NewIngress(cfg: Config, hostname: string, sn: string, ns: string, sp: seq<ServicePort>): (ing: Ingress)
    ensures ing.name == IngressName(cfg, sn) && ing.namespace == ns
    ensures ing.annotations == map[RewriteTargetKey := "/"]
    ensures |ing.rules| == 1 && ing.rules[0].host == hostname
    ensures |ing.rules[0].paths| == 1 && ing.rules[0].paths[0].path == "/"
    ensures ing.rules[0].paths[0].backend == Backend(sn, PathPort(cfg, sp))
  {
    Ingress(IngressName(cfg, sn), ns, map[RewriteTargetKey := "/"], Rules(cfg, sn, hostname, sp))
  }

  // ---- HasIngressExists --------------------------------------------------------

  /** Some path of paths routes to sn. */
  function PathsRouteTo(sn: string, paths: seq<IngressPath>): (r: bool)
    ensures r <==> exists k :: 0 <= k < |paths| && paths[k].backend.serviceName == sn
  {
    if |paths| == 0 then false
    else paths[0].backend.serviceName == sn || PathsRouteTo(sn, paths[1..])
  }

  /** Some path of some rule of rules routes to sn. */
  function RulesRouteTo(sn: string, rules: seq<IngressRule>): (r: bool)
    ensures r <==> exists j, k :: 0 <= j < |rules| && 0 <= k < |rules[j].paths| && rules[j].paths[k].backend.serviceName == sn
  {
    if |rules| == 0 then false
    else if PathsRouteTo(sn, rules[0].paths) then true
    else
      var rest := RulesRouteTo(sn, rules[1..]);
      assert rest ==> exists j, k :: 0 <= j < |rules| && 0 <= k < |rules[j].paths| && rules[j].paths[k].backend.serviceName == sn by {
        if rest {
          var j, k :| 0 <= j < |rules[1..]| && 0 <= k < |rules[1..][j].paths| && rules[1..][j].paths[k].backend.serviceName == sn;
          assert rules[j + 1] == rules[1..][j];
        }
      }
      rest
  }

  /** HasIngressExists: some path of some rule of some listed Ingress has
      sn as its backend Service. */
  function HasIngressExists(sn: string, ingresses: seq<Ingress>): (r: bool)
    ensures r <==> exists i, j, k :: (0 <= i < |ingresses| && 0 <= j < |ingresses[i].rules| &&
      0 <= k < |ingresses[i].rules[j].paths| && ingresses[i].rules[j].paths[k].backend.serviceName == sn)
  {
    if |ingresses| == 0 then false
    else if RulesRouteTo(sn, ingresses[0].rules) then true
    else
      var rest := HasIngressExists(sn, ingresses[1..]);
      assert rest ==> exists i, j, k :: (0 <= i < |ingresses| && 0 <= j < |ingresses[i].rules| &&
        0 <= k < |ingresses[i].rules[j].paths| && ingresses[i].rules[j].paths[k].backend.serviceName == sn) by {
        if rest {
          var i, j, k :| 0 <= i < |ingresses[1..]| && 0 <= j < |ingresses[1..][i].rules| &&
            0 <= k < |ingresses[1..][i].rules[j].paths| && ingresses[1..][i].rules[j].paths[k].backend.serviceName == sn;
          assert ingresses[i + 1] == ingresses[1..][i];
        }
      }
      rest
  }

  // ---- the backend patch of UpdateIngress ------------------------------------------

  /** The Ingress has a first rule with a first path, so that the source's
      `Rules[0].HTTP.Paths[0]` does not go out of range. */
  predicate HasFirstBackend(ing: Ingress) {
    |ing.rules| > 0 && |ing.rules[0].paths| > 0
  }

  function FirstBackend(ing: Ingress): Backend
    requires HasFirstBackend(ing)
  {
    ing.rules[0].paths[0].backend
  }

  /** The patch the loop of UpdateIngress builds from an empty backend: at
      the first listed Ingress whose first backend names osn, the name is
      set to nsn when it is not empty and the port to nsp when it is not 0,
      so the backend is (nsn, nsp); with no match it stays ("", 0). None is
      the panic of an Ingress reached with no rule or no path. */
  function PatchFor(ingresses: seq<Ingress>, osn: string, nsn: string, nsp: int): (r: Option<Cluster.BackendPatch>)
    ensures r.Some? ==> r.value == Cluster.BackendPatch(nsn, nsp) || r.value == Cluster.BackendPatch("", 0)
    ensures (forall i :: 0 <= i < |ingresses| ==> HasFirstBackend(ingresses[i])) ==> r.Some?
    ensures (forall i :: 0 <= i < |ingresses| ==> HasFirstBackend(ingresses[i]) && FirstBackend(ingresses[i]).serviceName != osn) ==>
      r == Some(Cluster.BackendPatch("", 0))
  {
    if |ingresses| == 0 then Some(Cluster.BackendPatch("", 0))
    else if !HasFirstBackend(ingresses[0]) then None
    else if FirstBackend(ingresses[0]).serviceName == osn then
      Some(Cluster.BackendPatch(if nsn != "" then nsn else "", if nsp != 0 then nsp else 0))
    else
      var rest := PatchFor(ingresses[1..], osn, nsn, nsp);
      assert (forall i :: 0 <= i < |ingresses| ==> HasFirstBackend(ingresses[i])) ==> rest.Some? by {
        if forall i :: 0 <= i < |ingresses| ==> HasFirstBackend(ingresses[i]) {
          forall i | 0 <= i < |ingresses[1..]| ensures HasFirstBackend(ingresses[1..][i]) {
            assert ingresses[1..][i] == ingresses[i + 1];
          }
        }
      }
      assert (forall i :: 0 <= i < |ingresses| ==> HasFirstBackend(ingresses[i]) && FirstBackend(ingresses[i]).serviceName != osn) ==>
        rest == Some(Cluster.BackendPatch("", 0)) by {
        if forall i :: 0 <= i < |ingresses| ==> HasFirstBackend(ingresses[i]) && FirstBackend(ingresses[i]).serviceName != osn {
          forall i | 0 <= i < |ingresses[1..]|
            ensures HasFirstBackend(ingresses[1..][i]) && FirstBackend(ingresses[1..][i]).serviceName != osn
          {
            assert ingresses[1..][i] == ingresses[i + 1];
          }
        }
      }
      rest
  }

  // ---- the store operations, as functions of the store ------------------------------

  /** A store of Ingresses after a call, and how the call ended. */
  datatype Outcome = Outcome(ingresses: map<ObjectKey, Ingress>, exit: Exit)

  /** getIngresses: lists the cached Ingresses of the namespace named sn (the
      Service's name, not its namespace ns, which only goes to the log). */
  function GetIngresses(cache: Cluster.Cache, sn: string, ns: string): (r: Result<seq<Ingress>>)
    ensures r.Ok? <==> cache.listable
    ensures r.Err? ==> r.error == ListFailed
    ensures r.Ok? ==> forall ing :: ing in r.value <==> ing in cache.ingresses && ing.namespace == sn
  {
    Cluster.ListIngresses(cache, sn)
  }

  /** CreateIngress on store m, with the public host built from dnsPrefix. */
  function CreateIngressEffect(cfg: Config, m: map<ObjectKey, Ingress>, dnsPrefix: string,
                               sn: string, ns: string, sp: seq<ServicePort>): Cluster.Applied<Ingress>
  {
    var ing := NewIngress(cfg, Helper.GetPublicDns(dnsPrefix, cfg.publicDnsDomain), sn, ns, sp);
    Cluster.Create(m, IngressKey(ing), ing)
  }

  /** UpdateIngress on store m: the patch goes to the Ingress named after
      osn, and only when nsn is not empty; the patch error is dropped. */
  function UpdateIngressEffect(cfg: Config, m: map<ObjectKey, Ingress>, ingresses: seq<Ingress>,
                               osn: string, nsn: string, ns: string, nsp: int): Outcome
  {
    match PatchFor(ingresses, osn, nsn, nsp)
    case None => Outcome(m, Panicked)
    case Some(p) =>
      if nsn != "" then Outcome(Cluster.Patch(m, ObjectKey(ns, IngressName(cfg, osn)), p).objects, Returned(None))
      else Outcome(m, Returned(None))
  }

  /** DeleteIngress on store m: deletes the Ingress named after sn. */
  function DeleteIngressEffect(cfg: Config, m: map<ObjectKey, Ingress>, sn: string, ns: string): Cluster.Applied<Ingress> {
    Cluster.Delete(m, ObjectKey(ns, IngressName(cfg, sn)))
  }

  /** The new Service asks for a public route: it is managed and allows
      internet access. */
  predicate WantsIngress(cfg: Config, newSvc: Service) {
    IsManaged(cfg, newSvc.annotations) && AllowsInternetAccess(newSvc.annotations)
  }

  /** UpsertIngress on store m. With an old Service only the old-side
      variables are filled (name and ports), with none only the new-side
      ones (name, namespace and ports); the other side stays empty. Errors
      of the writes go to shadowed variables; only a listing error comes
      back. */
  function UpsertIngressEffect(cfg: Config, m: map<ObjectKey, Ingress>, cache: Cluster.Cache, dnsPrefix: string,
                               newSvc: Service, oldSvc: Option<Service>): Outcome
  {
    if !WantsIngress(cfg, newSvc) then Outcome(m, Returned(None))
    else
      var listed := if oldSvc.Some? then GetIngresses(cache, oldSvc.value.name, oldSvc.value.namespace)
                    else GetIngresses(cache, newSvc.name, newSvc.namespace);
      var on := if oldSvc.Some? then oldSvc.value.name else "";
      var oports := if oldSvc.Some? then oldSvc.value.ports else [];
      var nn := if oldSvc.Some? then "" else newSvc.name;
      var nns := if oldSvc.Some? then "" else newSvc.namespace;
      var nports := if oldSvc.Some? then [] else newSvc.ports;
      match listed
      case Err(e) => Outcome(m, Returned(Some(e)))
      case Ok(ingresses) =>
        if HasIngressExists(on, ingresses) then
          var osp := Services.GetServicePort(cfg, on, oports);
          var nsp := Services.GetServicePort(cfg, nn, nports);
          if on != nn || (osp != 0 && nsp != 0 && osp != nsp) then
            UpdateIngressEffect(cfg, m, ingresses, on, nn, nns, nsp)
          else Outcome(m, Returned(None))
        else Outcome(CreateIngressEffect(cfg, m, dnsPrefix, nn, nns, nports).objects, Returned(None))
  }

  // ---- the store operations, as the source runs them -----------------------------

  method CreateIngress(cfg: Config, store: Cluster.Store, dnsPrefix: string, sn: string, ns: string, sp: seq<ServicePort>)
    returns (err: Option<Error>)
    modifies store`ingresses
    ensures Cluster.Applied(store.ingresses, err) == CreateIngressEffect(cfg, old(store.ingresses), dnsPrefix, sn, ns, sp)
  {
    var ing := NewIngress(cfg, Helper.GetPublicDns(dnsPrefix, cfg.publicDnsDomain), sn, ns, sp);
    err := store.CreateIngress(ing);
  }

  /** UpdateIngress: builds the backend patch in a loop that stops at the
      first listed Ingress routing to osn, then patches when nsn is set. */
  method UpdateIngress(cfg: Config, store: Cluster.Store, ingresses: seq<Ingress>,
                       osn: string, nsn: string, ns: string, nsp: int)
    returns (exit: Exit)
    modifies store`ingresses
    ensures Outcome(store.ingresses, exit) == UpdateIngressEffect(cfg, old(store.ingresses), ingresses, osn, nsn, ns, nsp)
  {
    var ingName := IngressName(cfg, osn);
    var name := "";
    var port := 0;
    var i := 0;
    while i < |ingresses|
      invariant 0 <= i <= |ingresses|
      invariant name == "" && port == 0
      invariant PatchFor(ingresses[i..], osn, nsn, nsp) == PatchFor(ingresses, osn, nsn, nsp)
    {
      assert ingresses[i..][1..] == ingresses[i + 1..];
      if !HasFirstBackend(ingresses[i]) {
        return Panicked;
      }
      if ingresses[i].rules[0].paths[0].backend.serviceName == osn {
        if nsn != "" {
          name := nsn;
        }
        if nsp != 0 {
          port := nsp;
        }
        break;
      }
      i := i + 1;
    }
    if nsn != "" {
      var _ := store.PatchIngress(ns, ingName, Cluster.BackendPatch(name, port));
    }
    return Returned(None);
  }

  method DeleteIngress(cfg: Config, store: Cluster.Store, sn: string, ns: string) returns (err: Option<Error>)
    modifies store`ingresses
    ensures Cluster.Applied(store.ingresses, err) == DeleteIngressEffect(cfg, old(store.ingresses), sn, ns)
  {
    err := store.DeleteIngress(ns, IngressName(cfg, sn));
  }

  /** UpsertIngress: newSvc is the Service as it is now, oldSvc the one it
      replaced (None on an add). */
  method UpsertIngress(cfg: Config, store: Cluster.Store, cache: Cluster.Cache, dnsPrefix: string,
                       newSvc: Service, oldSvc: Option<Service>)
    returns (exit: Exit)
    modifies store`ingresses
    ensures Outcome(store.ingresses, exit) == UpsertIngressEffect(cfg, old(store.ingresses), cache, dnsPrefix, newSvc, oldSvc)
  {
    if !WantsIngress(cfg, newSvc) {
      return Returned(None);
    }
    var listed: Result<seq<Ingress>>;
    var on, nn, nns := "", "", "";
    var oports: seq<ServicePort> := [];
    var nports: seq<ServicePort> := [];
    if oldSvc.Some? {
      listed := GetIngresses(cache, oldSvc.value.name, oldSvc.value.namespace);
      on := oldSvc.value.name;
      oports := oldSvc.value.ports;
    } else {
      listed := GetIngresses(cache, newSvc.name, newSvc.namespace);
      nn := newSvc.name;
      nns := newSvc.namespace;
      nports := newSvc.ports;
    }
    if listed.Err? {
      return Returned(Some(listed.error));
    }
    var ingresses := listed.value;
    if HasIngressExists(on, ingresses) {
      var osp := Services.GetServicePort(cfg, on, oports);
      var nsp := Services.GetServicePort(cfg, nn, nports);
      if on != nn || (osp != 0 && nsp != 0 && osp != nsp) {
        exit := UpdateIngress(cfg, store, ingresses, on, nn, nns, nsp);
        return;
      }
    } else {
      var _ := CreateIngress(cfg, store, dnsPrefix, nn, nns, nports);
    }
    return Returned(None);
  }

  // ---- properties of the derived Ingress -----------------------------------------------

  /** The Ingress of the Service prefix + w is the ingress prefix + w, as
      svc-fake-test becomes ing-fake-test. */
  lemma IngressNameOfServiceName(cfg: Config, w: string)
    ensures IngressName(cfg, cfg.servicePrefix + w) == cfg.ingressPrefix + w
  {
    TrimPrefixOfConcat(cfg.servicePrefix, w);
  }

  /** Stripping the prefix loses it: a Service named w without the prefix
      gets the same Ingress name as the Service prefix + w. */
  lemma IngressNamesCollide(cfg: Config, w: string)
    requires !HasPrefix(w, cfg.servicePrefix)
    ensures IngressName(cfg, w) == IngressName(cfg, cfg.servicePrefix + w)
  {
    IngressNameOfServiceName(cfg, w);
  }

  /** The Ingress derived for a Service routes to it: HasIngressExists finds it. */
  lemma NewIngressRoutesToService(cfg: Config, hostname: string, sn: string, ns: string, sp: seq<ServicePort>,
                                  others: seq<Ingress>)
    ensures HasIngressExists(sn, others + [NewIngress(cfg, hostname, sn, ns, sp)])
  {
    var all := others + [NewIngress(cfg, hostname, sn, ns, sp)];
    assert all[|others|].rules[0].paths[0].backend.serviceName == sn;
  }

  /** For a Service derived from a Deployment, the port getPaths picks and
      the port GetServicePort finds by name are both the resolved container
      port. */
  lemma PathPortOfNewService(cfg: Config, d: Deployment)
    ensures PathPort(cfg, Services.NewService(cfg, d).ports) == Services.ResolvedPort(d)
    ensures Services.GetServicePort(cfg, Services.NewService(cfg, d).name, Services.NewService(cfg, d).ports) == Services.ResolvedPort(d)
  {
    var s := Services.NewService(cfg, d);
    var want := cfg.servicePrefix + "port-";
    assert s.ports[0].name == want + d.name;
    assert (want + d.name)[..|want|] == want;
  }

  /** getPaths matches a port name by prefix, GetServicePort exactly: on a
      Service whose first port is not its own, the Ingress routes to a
      different port than the one GetServicePort reports. */
  lemma PortLookupsDisagree()
    ensures var cfg := Config("svc-", "ing-", "pigo", "apps.example.com");
      var ports := [ServicePort("svc-port-admin", ProtocolTCP, 9000, 9000), ServicePort("svc-port-web", ProtocolTCP, 8080, 8080)];
      PathPort(cfg, ports) == 9000 && Services.GetServicePort(cfg, "svc-web", ports) == 8080
  {
    var cfg := Config("svc-", "ing-", "pigo", "apps.example.com");
    var ports := [ServicePort("svc-port-admin", ProtocolTCP, 9000, 9000), ServicePort("svc-port-web", ProtocolTCP, 8080, 8080)];
    assert cfg.servicePrefix + "port-" == "svc-port-";
    assert HasPrefix(ports[0].name, cfg.servicePrefix + "port-");
    assert Services.PortNameFor(cfg, "svc-web") == "svc-port-web" by {
      TrimPrefixOfConcat("svc-", "web");
      assert "svc-web" == "svc-" + "web";
    }
    assert ports[1].name == Services.PortNameFor(cfg, "svc-web");
    assert ports[0].name != Services.PortNameFor(cfg, "svc-web");
  }

  // ---- properties of the backend patch ------------------------------------------------

  /** The loop stops at the first listed Ingress routing to osn, provided
      none before it is missing its first path. */
  lemma {:induction false} PatchForFirstMatch(ingresses: seq<Ingress>, osn: string, nsn: string, nsp: int, j: nat)
    requires j < |ingresses|
    requires forall t :: 0 <= t <= j ==> HasFirstBackend(ingresses[t])
    requires FirstBackend(ingresses[j]).serviceName == osn
    requires forall t :: 0 <= t < j ==> FirstBackend(ingresses[t]).serviceName != osn
    ensures PatchFor(ingresses, osn, nsn, nsp) == Some(Cluster.BackendPatch(nsn, nsp))
  {
    if j > 0 {
      var rest := ingresses[1..];
      forall t | 0 <= t <= j - 1 ensures HasFirstBackend(rest[t]) && (t < j - 1 ==> FirstBackend(rest[t]).serviceName != osn) {
        assert rest[t] == ingresses[t + 1];
      }
      PatchForFirstMatch(rest, osn, nsn, nsp, j - 1);
    }
  }

  /** The loop panics exactly when it reaches an Ingress with no rule or no
      path before it finds one routing to osn. */
  lemma {:induction false} PatchForPanics(ingresses: seq<Ingress>, osn: string, nsn: string, nsp: int)
    ensures PatchFor(ingresses, osn, nsn, nsp).None? <==>
      exists j :: 0 <= j < |ingresses| && !HasFirstBackend(ingresses[j]) &&
        forall t :: 0 <= t < j ==> HasFirstBackend(ingresses[t]) && FirstBackend(ingresses[t]).serviceName != osn
  {
    if |ingresses| > 0 && HasFirstBackend(ingresses[0]) && FirstBackend(ingresses[0]).serviceName != osn {
      var rest := ingresses[1..];
      PatchForPanics(rest, osn, nsn, nsp);
      if PatchFor(rest, osn, nsn, nsp).None? {
        var j :| 0 <= j < |rest| && !HasFirstBackend(rest[j]) &&
          forall t :: 0 <= t < j ==> HasFirstBackend(rest[t]) && FirstBackend(rest[t]).serviceName != osn;
        assert rest[j] == ingresses[j + 1];
        forall t | 0 <= t < j + 1 ensures HasFirstBackend(ingresses[t]) && FirstBackend(ingresses[t]).serviceName != osn {
          if t > 0 { assert ingresses[t] == rest[t - 1]; }
        }
      } else {
        forall j | 0 <= j < |ingresses| && !HasFirstBackend(ingresses[j])
          ensures exists t :: 0 <= t < j && !(HasFirstBackend(ingresses[t]) && FirstBackend(ingresses[t]).serviceName != osn)
        {
          assert j > 0 && rest[j - 1] == ingresses[j];
          var t :| 0 <= t < j - 1 && !(HasFirstBackend(rest[t]) && FirstBackend(rest[t]).serviceName != osn);
          assert rest[t] == ingresses[t + 1];
        }
      }
    }
  }

  /** A patched Ingress has a first path again, so a later patch loop does
      not panic on it, and it routes to the patch's service name and to no
      other. */
  lemma PatchedIngressRoutesToPatchedName(ing: Ingress, p: Cluster.BackendPatch, sn: string)
    ensures HasFirstBackend(Cluster.ApplyPatch(ing, p))
    ensures HasIngressExists(sn, [Cluster.ApplyPatch(ing, p)]) <==> sn == p.serviceName
  {
    var r := Cluster.ApplyPatch(ing, p);
    if HasIngressExists(sn, [r]) {
      var i, j, k :| 0 <= i < 1 && 0 <= j < |[r][i].rules| && 0 <= k < |[r][i].rules[j].paths| &&
        [r][i].rules[j].paths[k].backend.serviceName == sn;
    } else {
      assert [r][0].rules[0].paths[0].backend.serviceName == p.serviceName;
    }
  }

  /** UpdateIngress with a listed Ingress routing to osn and a new name: the
      stored Ingress named after osn keeps its name, namespace and
      annotations, and its rules become one rule with no host and one path
      with no path string, routing to nsn on port nsp; every other Ingress
      is as it was, and nil comes back. */
  lemma UpdateRewritesBackend(cfg: Config, m: map<ObjectKey, Ingress>, ingresses: seq<Ingress>,
                              osn: string, nsn: string, ns: string, nsp: int, j: nat)
    requires j < |ingresses|
    requires forall t :: 0 <= t <= j ==> HasFirstBackend(ingresses[t])
    requires FirstBackend(ingresses[j]).serviceName == osn
    requires forall t :: 0 <= t < j ==> FirstBackend(ingresses[t]).serviceName != osn
    requires nsn != ""
    requires ObjectKey(ns, IngressName(cfg, osn)) in m
    ensures var k := ObjectKey(ns, IngressName(cfg, osn));
      var u := UpdateIngressEffect(cfg, m, ingresses, osn, nsn, ns, nsp);
      && u.exit == Returned(None)
      && u.ingresses.Keys == m.Keys
      && u.ingresses[k].name == m[k].name && u.ingresses[k].annotations == m[k].annotations
      && u.ingresses[k].rules == [IngressRule("", [IngressPath("", Backend(nsn, nsp))])]
      && forall k' :: k' in m && k' != k ==> u.ingresses[k'] == m[k']
  {
    PatchForFirstMatch(ingresses, osn, nsn, nsp, j);
  }

  /** A new port of 0 is written as it is: with a match and a new name, the
      stored backend port becomes 0 whatever it was. */
  lemma UpdateWritesZeroPort(cfg: Config, m: map<ObjectKey, Ingress>, ingresses: seq<Ingress>,
                             osn: string, nsn: string, ns: string, j: nat)
    requires j < |ingresses|
    requires forall t :: 0 <= t <= j ==> HasFirstBackend(ingresses[t])
    requires FirstBackend(ingresses[j]).serviceName == osn
    requires forall t :: 0 <= t < j ==> FirstBackend(ingresses[t]).serviceName != osn
    requires nsn != ""
    requires ObjectKey(ns, IngressName(cfg, osn)) in m
    ensures var k := ObjectKey(ns, IngressName(cfg, osn));
      var u := UpdateIngressEffect(cfg, m, ingresses, osn, nsn, ns, 0);
      k in u.ingresses && HasFirstBackend(u.ingresses[k]) && FirstBackend(u.ingresses[k]) == Backend(nsn, 0)
  {
    PatchForFirstMatch(ingresses, osn, nsn, 0, j);
  }

  /** With a new name but no listed Ingress routing to osn, the patch still
      goes out, with an empty backend: the stored Ingress named after osn
      (if any) then routes to no named Service at all. */
  lemma UpdateWithoutMatchClearsBackend(cfg: Config, m: map<ObjectKey, Ingress>, ingresses: seq<Ingress>,
                                        osn: string, nsn: string, ns: string, nsp: int, sn: string)
    requires forall t :: 0 <= t < |ingresses| ==> HasFirstBackend(ingresses[t]) && FirstBackend(ingresses[t]).serviceName != osn
    requires nsn != "" && sn != ""
    ensures var k := ObjectKey(ns, IngressName(cfg, osn));
      var u := UpdateIngressEffect(cfg, m, ingresses, osn, nsn, ns, nsp);
      && u.exit == Returned(None)
      && u.ingresses.Keys == m.Keys
      && (k in m ==> k in u.ingresses && HasFirstBackend(u.ingresses[k]) && FirstBackend(u.ingresses[k]) == Backend("", 0) && !HasIngressExists(sn, [u.ingresses[k]]))
  {
    var k := ObjectKey(ns, IngressName(cfg, osn));
    if k in m {
      PatchedIngressRoutesToPatchedName(m[k], Cluster.BackendPatch("", 0), sn);
    }
  }

  // ---- properties of UpsertIngress and DeleteIngress -------------------------------------

  /** A Service that is not managed, or does not allow internet access, is
      left alone: nothing is written and nil comes back. */
  lemma UpsertIngressIsGated(cfg: Config, m: map<ObjectKey, Ingress>, cache: Cluster.Cache, dnsPrefix: string,
                             newSvc: Service, oldSvc: Option<Service>)
    requires Lookup(newSvc.annotations, PartOfKey) != cfg.partOf || Lookup(newSvc.annotations, InternetAccessKey) != "true"
    ensures UpsertIngressEffect(cfg, m, cache, dnsPrefix, newSvc, oldSvc) == Outcome(m, Returned(None))
  {
  }

  /** UpsertIngress returns an error only when the listing fails, and then
      writes nothing; every write error is dropped. */
  lemma UpsertIngressFailsOnlyOnList(cfg: Config, m: map<ObjectKey, Ingress>, cache: Cluster.Cache, dnsPrefix: string,
                                     newSvc: Service, oldSvc: Option<Service>)
    ensures var o := UpsertIngressEffect(cfg, m, cache, dnsPrefix, newSvc, oldSvc);
      (o.exit.Returned? && o.exit.err.Some?) <==> (WantsIngress(cfg, newSvc) && !cache.listable)
    ensures var o := UpsertIngressEffect(cfg, m, cache, dnsPrefix, newSvc, oldSvc);
      o.exit.Returned? && o.exit.err.Some? ==> o.exit.err == Some(ListFailed) && o.ingresses == m
  {
  }

  /** On an update (an old Service given) the new-side name and namespace
      stay empty, so the patch is never sent and the create is refused:
      UpsertIngress never changes the store. */
  lemma UpsertIngressOnUpdateWritesNothing(cfg: Config, m: map<ObjectKey, Ingress>, cache: Cluster.Cache, dnsPrefix: string,
                                           newSvc: Service, oldSvc: Service)
    ensures UpsertIngressEffect(cfg, m, cache, dnsPrefix, newSvc, Some(oldSvc)).ingresses == m
  {
    var o := UpsertIngressEffect(cfg, m, cache, dnsPrefix, newSvc, Some(oldSvc));
    var host := Helper.GetPublicDns(dnsPrefix, cfg.publicDnsDomain);
    assert NewIngress(cfg, host, "", "", []).namespace == "";
  }

  /** On an add, when no listed Ingress routes to the empty name, the one
      Ingress derived from the Service is created in its namespace, named
      after it and routed to it on the public host built from dnsPrefix. */
  lemma UpsertIngressOnAddCreates(cfg: Config, m: map<ObjectKey, Ingress>, cache: Cluster.Cache, dnsPrefix: string,
                                  newSvc: Service)
    requires WantsIngress(cfg, newSvc) && cache.listable
    requires !HasIngressExists("", Cluster.FilterIngresses(cache.ingresses, newSvc.name))
    ensures var ing := NewIngress(cfg, Helper.GetPublicDns(dnsPrefix, cfg.publicDnsDomain), newSvc.name, newSvc.namespace, newSvc.ports);
      && IngressKey(ing) == ObjectKey(newSvc.namespace, IngressName(cfg, newSvc.name))
      && ing.rules[0].paths[0].backend == Backend(newSvc.name, PathPort(cfg, newSvc.ports))
      && UpsertIngressEffect(cfg, m, cache, dnsPrefix, newSvc, None) ==
         Outcome(Cluster.Create(m, IngressKey(ing), ing).objects, Returned(None))
  {
  }

  /** On an add, when a listed Ingress does route to the empty name, nothing
      is created: the old name "" differs from the Service's name, so
      UpdateIngress runs with "" as the old name and the Service's name and
      port as the new ones. It patches at most the Ingress named after "",
      so no key is added or removed. */
  lemma UpsertIngressOnAddPatchesEmptyName(cfg: Config, m: map<ObjectKey, Ingress>, cache: Cluster.Cache, dnsPrefix: string,
                                           newSvc: Service)
    requires WantsIngress(cfg, newSvc) && cache.listable && newSvc.name != ""
    requires HasIngressExists("", Cluster.FilterIngresses(cache.ingresses, newSvc.name))
    ensures var o := UpsertIngressEffect(cfg, m, cache, dnsPrefix, newSvc, None);
      && o == UpdateIngressEffect(cfg, m, Cluster.FilterIngresses(cache.ingresses, newSvc.name), "", newSvc.name,
                                  newSvc.namespace, Services.GetServicePort(cfg, newSvc.name, newSvc.ports))
      && o.ingresses.Keys == m.Keys
      && forall k :: k in m && k != ObjectKey(newSvc.namespace, IngressName(cfg, "")) ==> o.ingresses[k] == m[k]
  {
  }

  /** UpdateIngress sends a patch only when the new name is set: with an
      empty new name the store is unchanged. */
  lemma UpdateWithoutNewNameWritesNothing(cfg: Config, m: map<ObjectKey, Ingress>, ingresses: seq<Ingress>,
                                          osn: string, ns: string, nsp: int)
    ensures UpdateIngressEffect(cfg, m, ingresses, osn, "", ns, nsp).ingresses == m
  {
  }

  /** DeleteIngress removes the Ingress named after the Service and nothing
      else; it fails with NotFound, writing nothing, when that Ingress is absent. */
  lemma DeleteIngressRemovesRoute(cfg: Config, m: map<ObjectKey, Ingress>, sn: string, ns: string)
    ensures var k := ObjectKey(ns, IngressName(cfg, sn));
      var d := DeleteIngressEffect(cfg, m, sn, ns);
      (d.err == None <==> k in m) && (d.err != None ==> d.err == Some(NotFound)) &&
      d.objects == m - {k}
  {
  }
}
