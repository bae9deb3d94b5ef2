/** The cluster as the controller sees it: the API server's object store,
    which it writes through a clientset, and the informer cache, which it
    reads through listers and which may lag behind the store. */
module Cluster {
  import opened Kube

  /** A store map after a write, with the error the write returned. */
  datatype Applied<T> = Applied(objects: map<ObjectKey, T>, err: Option<Error>)

  /** Create: refuses an object without a name or namespace, and a taken key. */
  function Create<T>(m: map<ObjectKey, T>, k: ObjectKey, obj: T): Applied<T> {
    if k.namespace == "" || k.name == "" then Applied(m, Some(Invalid))
    else if k in m then Applied(m, Some(AlreadyExists))
    else Applied(m[k := obj], None)
  }

  /** Update: replaces the stored object; there must be one. */
  function Update<T>(m: map<ObjectKey, T>, k: ObjectKey, obj: T): Applied<T> {
    if k !in m then Applied(m, Some(NotFound)) else Applied(m[k := obj], None)
  }

  /** Delete: removes the stored object; there must be one. */
  function Delete<T>(m: map<ObjectKey, T>, k: ObjectKey): Applied<T> {
    if k !in m then Applied(m, Some(NotFound)) else Applied(m - {k}, None)
  }

  /** The patch UpdateIngress sends: the backend of the single path of the
      single rule of the Ingress object it marshals. Both fields always go
      out, an unset name as "" and an unset port as 0, because the service
      port is a struct that the JSON encoding never omits. */
  datatype BackendPatch = BackendPatch(serviceName: string, servicePort: int)

  /** The effect of a backend patch on a stored Ingress. A strategic merge
      patch replaces a list that has no merge key, and the rules of an
      Ingress have none: the rules become the patch's single rule, whose
      host and path are empty (the marshalled object leaves them out) and
      whose backend is the patch's. Name, namespace and annotations stay. */
  function ApplyPatch(ing: Ingress, p: BackendPatch): (r: Ingress)
    ensures r.name == ing.name && r.namespace == ing.namespace && r.annotations == ing.annotations
    ensures |r.rules| == 1 && r.rules[0].host == ""
    ensures |r.rules[0].paths| == 1 && r.rules[0].paths[0].path == ""
    ensures r.rules[0].paths[0].backend.serviceName == p.serviceName
    ensures r.rules[0].paths[0].backend.servicePort == p.servicePort
  {
    ing.(rules := [IngressRule("", [IngressPath("", Backend(p.serviceName, p.servicePort))])])
  }

  /** Patch: applies a backend patch to the stored Ingress; there must be one. */
  function Patch(m: map<ObjectKey, Ingress>, k: ObjectKey, p: BackendPatch): Applied<Ingress> {
    if k !in m then Applied(m, Some(NotFound)) else Applied(m[k := ApplyPatch(m[k], p)], None)
  }

  /** The API server's objects, keyed by namespace and name. Every write
      returns nil or the error the store reports. */
  class Store {
    var services: map<ObjectKey, Service>
    var ingresses: map<ObjectKey, Ingress>

    constructor (services0: map<ObjectKey, Service>, ingresses0: map<ObjectKey, Ingress>)
      ensures services == services0 && ingresses == ingresses0
    {
      services := services0;
      ingresses := ingresses0;
    }

    method CreateService(svc: Service) returns (err: Option<Error>)
      modifies this`services
      ensures Applied(services, err) == Create(old(services), ServiceKey(svc), svc)
    {
      var k := ServiceKey(svc);
      if k.namespace == "" || k.name == "" {
        err := Some(Invalid);
      } else if k in services {
        err := Some(AlreadyExists);
      } else {
        services := services[k := svc];
        err := None;
      }
    }

    method UpdateService(ns: string, svc: Service) returns (err: Option<Error>)
      modifies this`services
      ensures Applied(services, err) == Update(old(services), ObjectKey(ns, svc.name), svc)
    {
      var k := ObjectKey(ns, svc.name);
      if k !in services {
        err := Some(NotFound);
      } else {
        services := services[k := svc];
        err := None;
      }
    }

    method DeleteService(ns: string, name: string) returns (err: Option<Error>)
      modifies this`services
      ensures Applied(services, err) == Delete(old(services), ObjectKey(ns, name))
    {
      var k := ObjectKey(ns, name);
      if k !in services {
        err := Some(NotFound);
      } else {
        services := services - {k};
        err := None;
      }
    }

    method CreateIngress(ing: Ingress) returns (err: Option<Error>)
      modifies this`ingresses
      ensures Applied(ingresses, err) == Create(old(ingresses), IngressKey(ing), ing)
    {
      var k := IngressKey(ing);
      if k.namespace == "" || k.name == "" {
        err := Some(Invalid);
      } else if k in ingresses {
        err := Some(AlreadyExists);
      } else {
        ingresses := ingresses[k := ing];
        err := None;
      }
    }

    method PatchIngress(ns: string, name: string, p: BackendPatch) returns (err: Option<Error>)
      modifies this`ingresses
      ensures Applied(ingresses, err) == Patch(old(ingresses), ObjectKey(ns, name), p)
    {
      var k := ObjectKey(ns, name);
      if k !in ingresses {
        err := Some(NotFound);
      } else {
        ingresses := ingresses[k := ApplyPatch(ingresses[k], p)];
        err := None;
      }
    }

    method DeleteIngress(ns: string, name: string) returns (err: Option<Error>)
      modifies this`ingresses
      ensures Applied(ingresses, err) == Delete(old(ingresses), ObjectKey(ns, name))
    {
      var k := ObjectKey(ns, name);
      if k !in ingresses {
        err := Some(NotFound);
      } else {
        ingresses := ingresses - {k};
        err := None;
      }
    }
  }

  /** The informer cache behind the listers: the objects it holds, in list
      order, and whether a List call on it succeeds. */
  datatype Cache = Cache(services: seq<Service>, ingresses: seq<Ingress>, listable: bool)

  /** The cached Services in namespace ns whose labels the selector matches, in order. */
  function FilterServices(svcs: seq<Service>, ns: string, sel: Labels): (r: seq<Service>)
    ensures |r| <= |svcs|
    ensures forall s :: s in r <==> s in svcs && s.namespace == ns && Selects(sel, s.labels)
  {
    if |svcs| == 0 then []
    else
      var rest := FilterServices(svcs[1..], ns, sel);
      if svcs[0].namespace == ns && Selects(sel, svcs[0].labels) then [svcs[0]] + rest else rest
  }

  /** Nothing selected: the listing is empty. */
  lemma FilterNoMatch(svcs: seq<Service>, ns: string, sel: Labels)
    requires forall s :: s in svcs ==> !(s.namespace == ns && Selects(sel, s.labels))
    ensures FilterServices(svcs, ns, sel) == []
  {
  }

  /** The cached Ingresses in namespace ns, in order. */
  function FilterIngresses(ings: seq<Ingress>, ns: string): (r: seq<Ingress>)
    ensures |r| <= |ings|
    ensures forall i :: i in r <==> i in ings && i.namespace == ns
  {
    if |ings| == 0 then []
    else
      var rest := FilterIngresses(ings[1..], ns);
      if ings[0].namespace == ns then [ings[0]] + rest else rest
  }

  /** `Services(ns).List(labels.Set(sel).AsSelector())` on the lister. */
  function ListServices(c: Cache, ns: string, sel: Labels): Result<seq<Service>> {
    if c.listable then Ok(FilterServices(c.services, ns, sel)) else Err(ListFailed)
  }

  /** `Ingresses(ns).List(labels.Everything())` on the lister. */
  function ListIngresses(c: Cache, ns: string): Result<seq<Ingress>> {
    if c.listable then Ok(FilterIngresses(c.ingresses, ns)) else Err(ListFailed)
  }

  /** No two cached Services share a namespace and name. */
  ghost predicate DistinctKeys(svcs: seq<Service>) {
    forall i, j :: 0 <= i < j < |svcs| ==> ServiceKey(svcs[i]) != ServiceKey(svcs[j])
  }

  /** The cache holds exactly the stored Services: the informer has caught up. */
  ghost predicate Mirrors(svcs: seq<Service>, m: map<ObjectKey, Service>) {
    && DistinctKeys(svcs)
    && (forall i :: 0 <= i < |svcs| ==> ServiceKey(svcs[i]) in m && m[ServiceKey(svcs[i])] == svcs[i])
    && (forall k :: k in m ==> exists i :: 0 <= i < |svcs| && ServiceKey(svcs[i]) == k)
  }

  lemma {:induction false} FilterKeepsDistinctKeys(svcs: seq<Service>, ns: string, sel: Labels)
    requires DistinctKeys(svcs)
    ensures DistinctKeys(FilterServices(svcs, ns, sel))
  {
    if |svcs| > 0 {
      var rest := FilterServices(svcs[1..], ns, sel);
      assert DistinctKeys(svcs[1..]) by {
        forall i, j | 0 <= i < j < |svcs[1..]|
          ensures ServiceKey(svcs[1..][i]) != ServiceKey(svcs[1..][j])
        {
          assert svcs[1..][i] == svcs[i + 1] && svcs[1..][j] == svcs[j + 1];
        }
      }
      FilterKeepsDistinctKeys(svcs[1..], ns, sel);
      if svcs[0].namespace == ns && Selects(sel, svcs[0].labels) {
        var r := [svcs[0]] + rest;
        forall i, j | 0 <= i < j < |r| ensures ServiceKey(r[i]) != ServiceKey(r[j]) {
          if i == 0 {
            assert r[j] in svcs[1..];
            var t :| 0 <= t < |svcs[1..]| && svcs[1..][t] == r[j];
            assert svcs[t + 1] == r[j];
          } else {
            assert r[i] == rest[i - 1] && r[j] == rest[j - 1];
          }
        }
      }
    }
  }
}
