/** Package `controller`: the event handlers of the Deployment and Service
    informers. Each handler gates an event on the namespace exclusion list,
    the `pigo.io/part-of` marker and the deletion timestamp, then calls one
    of the store operations of `service` or `ingress` and discards the
    error it returns. */
module Controllers {
  import opened Kube
  import Cluster
  import Helper
  import Services
  import Ingresses

  /** ExcludesNamespaceList. */
  const ExcludedNamespaces: seq<string> := ["kube-system", "ingress-nginx", "kube-public", "monitor"]

  predicate Excluded(ns: string) {
    Helper.AreNamespaceInWhiteList(ns, ExcludedNamespaces)
  }

  /** The namespaces no handler acts in are exactly the four system ones. */
  lemma ExcludedNamespacesAreTheSystemOnes(ns: string)
    ensures Excluded(ns) <==> ns == "kube-system" || ns == "ingress-nginx" || ns == "kube-public" || ns == "monitor"
  {
    assert ExcludedNamespaces[0] == "kube-system" && ExcludedNamespaces[1] == "ingress-nginx";
    assert ExcludedNamespaces[2] == "kube-public" && ExcludedNamespaces[3] == "monitor";
  }

  // ---- events and the actions they trigger ------------------------------------

  datatype DeploymentEvent =
    | DeploymentAdded(d: Deployment)
    | DeploymentUpdated(oldDeploy: Deployment, newDeploy: Deployment)
    | DeploymentDeleted(d: Deployment)

  datatype ServiceEvent =
    | ServiceAdded(svc: Service)
    | ServiceUpdated(oldSvc: Service, newSvc: Service)
    | ServiceDeleted(svc: Service)

  /** The store operation a handler calls, with its arguments. */
  datatype Action =
    | NoAction
    | UpsertServiceOf(ns: string, ol: Labels, newDeploy: Deployment, oldDeploy: Deployment)
    | DeleteServicesOf(ns: string, l: Labels)
    | UpsertIngressOf(newSvc: Service, previous: Option<Service>)
    | DeleteIngressOf(sn: string, namespace: string)

  /** The gating of onAddFunc, onUpdateFunc and onDeleteFunc of the
      Deployment controller. */
  function DeploymentAction(cfg: Config, ev: DeploymentEvent): (a: Action)
    ensures ev.DeploymentAdded? ==> a == NoAction
    ensures ev.DeploymentUpdated? ==>
      (a != NoAction <==> ev.oldDeploy.namespace !in ExcludedNamespaces && IsManaged(cfg, ev.newDeploy.annotations))
    ensures ev.DeploymentUpdated? && a != NoAction ==>
      a == UpsertServiceOf(ev.oldDeploy.namespace, ev.oldDeploy.labels, ev.newDeploy, ev.oldDeploy)
    ensures ev.DeploymentDeleted? ==>
      (a != NoAction <==> ev.d.namespace !in ExcludedNamespaces && ev.d.deletionTimestamp.None? && IsManaged(cfg, ev.d.annotations))
    ensures ev.DeploymentDeleted? && a != NoAction ==> a == DeleteServicesOf(ev.d.namespace, ev.d.labels)
  {
    match ev
    case DeploymentAdded(d) => NoAction
    case DeploymentUpdated(oldDeploy, newDeploy) =>
      if Excluded(oldDeploy.namespace) then NoAction
      else if IsManaged(cfg, newDeploy.annotations) then
        UpsertServiceOf(oldDeploy.namespace, oldDeploy.labels, newDeploy, oldDeploy)
      else NoAction
    case DeploymentDeleted(d) =>
      if Excluded(d.namespace) || d.deletionTimestamp.Some? then NoAction
      else if IsManaged(cfg, d.annotations) then DeleteServicesOf(d.namespace, d.labels)
      else NoAction
  }

  /** The gating of onAddFunc, onUpdateFunc and onDeleteFunc of the Service
      controller: an add is checked against the exclusion list only, an
      update not at all, a delete against the marker only. */
  function ServiceAction(cfg: Config, ev: ServiceEvent): (a: Action)
    ensures ev.ServiceAdded? ==> (a != NoAction <==> ev.svc.namespace !in ExcludedNamespaces)
    ensures ev.ServiceAdded? && a != NoAction ==> a == UpsertIngressOf(ev.svc, None)
    ensures ev.ServiceUpdated? ==> a == UpsertIngressOf(ev.newSvc, Some(ev.oldSvc))
    ensures ev.ServiceDeleted? ==> (a != NoAction <==> IsManaged(cfg, ev.svc.annotations))
    ensures ev.ServiceDeleted? && a != NoAction ==> a == DeleteIngressOf(ev.svc.name, ev.svc.namespace)
  {
    match ev
    case ServiceAdded(svc) => if Excluded(svc.namespace) then NoAction else UpsertIngressOf(svc, None)
    case ServiceUpdated(oldSvc, newSvc) => UpsertIngressOf(newSvc, Some(oldSvc))
    case ServiceDeleted(svc) => if IsManaged(cfg, svc.annotations) then DeleteIngressOf(svc.name, svc.namespace) else NoAction
  }

  // ---- what a handler does to the store -----------------------------------------

  /** The Services after a Deployment handler has run; its error is dropped. */
  function DeploymentEventEffect(cfg: Config, m: map<ObjectKey, Service>, cache: Cluster.Cache,
                                 ev: DeploymentEvent): map<ObjectKey, Service>
  {
    match DeploymentAction(cfg, ev)
    case UpsertServiceOf(ns, ol, newDeploy, oldDeploy) =>
      Services.UpsertServiceEffect(cfg, m, cache, ns, ol, newDeploy, oldDeploy).objects
    case DeleteServicesOf(ns, l) => Services.DeleteServiceEffect(m, cache, ns, l).objects
    case _ => m
  }

  /** The Ingresses after a Service handler has run, and whether it
      panicked; the error it got is dropped. */
  function ServiceEventEffect(cfg: Config, m: map<ObjectKey, Ingress>, cache: Cluster.Cache, dnsPrefix: string,
                              ev: ServiceEvent): Ingresses.Outcome
  {
    match ServiceAction(cfg, ev)
    case UpsertIngressOf(newSvc, previous) =>
      var o := Ingresses.UpsertIngressEffect(cfg, m, cache, dnsPrefix, newSvc, previous);
      Ingresses.Outcome(o.ingresses, if o.exit.Panicked? then Panicked else Returned(None))
    case DeleteIngressOf(sn, ns) =>
      Ingresses.Outcome(Ingresses.DeleteIngressEffect(cfg, m, sn, ns).objects, Returned(None))
    case _ => Ingresses.Outcome(m, Returned(None))
  }

  /** A Deployment event handler. */
  method OnDeploymentEvent(cfg: Config, store: Cluster.Store, cache: Cluster.Cache, ev: DeploymentEvent)
    modifies store`services
    ensures store.services == DeploymentEventEffect(cfg, old(store.services), cache, ev)
  {
    var a := DeploymentAction(cfg, ev);
    match a
    case UpsertServiceOf(ns, ol, newDeploy, oldDeploy) => {
      var _ := Services.UpsertService(cfg, store, cache, ns, ol, newDeploy, oldDeploy);
    }
    case DeleteServicesOf(ns, l) => {
      var _ := Services.DeleteService(store, cache, ns, l);
    }
    case _ => {}
  }

  /** A Service event handler; it returns normally or panics. */
  method OnServiceEvent(cfg: Config, store: Cluster.Store, cache: Cluster.Cache, dnsPrefix: string, ev: ServiceEvent)
    returns (panicked: bool)
    modifies store`ingresses
    ensures Ingresses.Outcome(store.ingresses, if panicked then Panicked else Returned(None)) ==
      ServiceEventEffect(cfg, old(store.ingresses), cache, dnsPrefix, ev)
  {
    var a := ServiceAction(cfg, ev);
    panicked := false;
    match a
    case UpsertIngressOf(newSvc, previous) => {
      var exit := Ingresses.UpsertIngress(cfg, store, cache, dnsPrefix, newSvc, previous);
      panicked := exit.Panicked?;
    }
    case DeleteIngressOf(sn, ns) => {
      var _ := Ingresses.DeleteIngress(cfg, store, sn, ns);
    }
    case _ => {}
  }

  // ---- properties of the Deployment handlers ---------------------------------------

  /** A new Deployment gets no Service from onAddFunc: it only logs. */
  lemma DeploymentAddWritesNothing(cfg: Config, m: map<ObjectKey, Service>, cache: Cluster.Cache, d: Deployment)
    ensures DeploymentEventEffect(cfg, m, cache, DeploymentAdded(d)) == m
  {
  }

  /** An update of a managed Deployment outside the excluded namespaces,
      whose old labels select no cached Service, with a replica available,
      creates the Deployment's Service when its key is free. */
  lemma DeploymentUpdateCreatesService(cfg: Config, m: map<ObjectKey, Service>, cache: Cluster.Cache,
                                       oldDeploy: Deployment, newDeploy: Deployment)
    requires !Excluded(oldDeploy.namespace) && IsManaged(cfg, newDeploy.annotations)
    requires |oldDeploy.labels| > 0 && cache.listable
    requires forall s :: s in cache.services ==> !(s.namespace == oldDeploy.namespace && Selects(oldDeploy.labels, s.labels))
    requires newDeploy.availableReplicas > 0 && newDeploy.namespace != "" && newDeploy.name != ""
    requires ObjectKey(newDeploy.namespace, cfg.servicePrefix + newDeploy.name) !in m
    ensures var s := Services.NewService(cfg, newDeploy);
      DeploymentEventEffect(cfg, m, cache, DeploymentUpdated(oldDeploy, newDeploy)) ==
        m[ObjectKey(newDeploy.namespace, cfg.servicePrefix + newDeploy.name) := s]
  {
    Services.UpsertCreatesWhenNothingMatches(cfg, m, cache, oldDeploy.namespace, oldDeploy.labels, newDeploy, oldDeploy);
  }

  /** Deleting a managed Deployment (outside the excluded namespaces, not
      already marked for deletion) with the cache caught up removes exactly
      the Services of its namespace that carry all its labels. */
  lemma DeploymentDeleteRemovesOwnedServices(cfg: Config, m: map<ObjectKey, Service>, cache: Cluster.Cache, d: Deployment)
    requires !Excluded(d.namespace) && d.deletionTimestamp.None? && IsManaged(cfg, d.annotations)
    requires cache.listable && Cluster.Mirrors(cache.services, m)
    ensures var m' := DeploymentEventEffect(cfg, m, cache, DeploymentDeleted(d));
      (forall k :: k in m' <==> k in m && !(k.namespace == d.namespace && Selects(d.labels, m[k].labels))) &&
      (forall k :: k in m' ==> m'[k] == m[k])
  {
    Services.DeleteServiceRemovesMatches(m, cache, d.namespace, d.labels);
  }

  // ---- properties of the Service handlers ------------------------------------------

  /** Deleting a managed Service removes its Ingress, and nothing else,
      wherever it lives. */
  lemma ServiceDeleteRemovesRoute(cfg: Config, m: map<ObjectKey, Ingress>, cache: Cluster.Cache, dnsPrefix: string, svc: Service)
    requires IsManaged(cfg, svc.annotations)
    ensures ServiceEventEffect(cfg, m, cache, dnsPrefix, ServiceDeleted(svc)) ==
      Ingresses.Outcome(m - {ObjectKey(svc.namespace, Ingresses.IngressName(cfg, svc.name))}, Returned(None))
  {
    Ingresses.DeleteIngressRemovesRoute(cfg, m, svc.name, svc.namespace);
  }

  /** A Service update, a rename included, never changes the Ingresses. */
  lemma ServiceUpdateWritesNothing(cfg: Config, m: map<ObjectKey, Ingress>, cache: Cluster.Cache, dnsPrefix: string,
                                   oldSvc: Service, newSvc: Service)
    ensures ServiceEventEffect(cfg, m, cache, dnsPrefix, ServiceUpdated(oldSvc, newSvc)).ingresses == m
  {
    Ingresses.UpsertIngressOnUpdateWritesNothing(cfg, m, cache, dnsPrefix, newSvc, oldSvc);
  }

  /** When every cached Ingress has a rule with a path, no Service handler panics. */
  lemma WellFormedIngressesNeverPanic(cfg: Config, m: map<ObjectKey, Ingress>, cache: Cluster.Cache, dnsPrefix: string,
                                      ev: ServiceEvent)
    requires forall i :: 0 <= i < |cache.ingresses| ==> Ingresses.HasFirstBackend(cache.ingresses[i])
    ensures ServiceEventEffect(cfg, m, cache, dnsPrefix, ev).exit == Returned(None)
  {
    forall ns: string, j | 0 <= j < |Cluster.FilterIngresses(cache.ingresses, ns)|
      ensures Ingresses.HasFirstBackend(Cluster.FilterIngresses(cache.ingresses, ns)[j])
    {
      var x := Cluster.FilterIngresses(cache.ingresses, ns)[j];
      assert x in Cluster.FilterIngresses(cache.ingresses, ns);
      var i :| 0 <= i < |cache.ingresses| && cache.ingresses[i] == x;
    }
  }

  /** The whole chain for a Deployment that asks for internet access: its
      Service, once added, gets an Ingress named with the ingress prefix and
      the Deployment's name, routing to that Service on the resolved
      container port, in the Deployment's namespace. */
  lemma DeploymentServiceGetsIngress(cfg: Config, m: map<ObjectKey, Ingress>, cache: Cluster.Cache, dnsPrefix: string,
                                     d: Deployment)
    requires AllowsInternetAccess(d.annotations) && !Excluded(d.namespace) && cache.listable
    requires !Ingresses.HasIngressExists("", Cluster.FilterIngresses(cache.ingresses, cfg.servicePrefix + d.name))
    ensures var s := Services.NewService(cfg, d);
      var ing := Ingresses.NewIngress(cfg, Helper.GetPublicDns(dnsPrefix, cfg.publicDnsDomain), s.name, s.namespace, s.ports);
      && ing.name == cfg.ingressPrefix + d.name && ing.namespace == d.namespace
      && ing.rules[0].paths[0].backend == Backend(cfg.servicePrefix + d.name, Services.ResolvedPort(d))
      && ServiceEventEffect(cfg, m, cache, dnsPrefix, ServiceAdded(s)) ==
         Ingresses.Outcome(Cluster.Create(m, ObjectKey(d.namespace, cfg.ingressPrefix + d.name), ing).objects, Returned(None))
  {
    var s := Services.NewService(cfg, d);
    Ingresses.IngressNameOfServiceName(cfg, d.name);
    Ingresses.PathPortOfNewService(cfg, d);
    Ingresses.UpsertIngressOnAddCreates(cfg, m, cache, dnsPrefix, s);
  }
}
