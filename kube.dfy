/** The Kubernetes objects the controller reads and derives, reduced to the
    fields its logic touches, with the configuration it reads from the
    environment and the outcomes its calls can have. */
module Kube {

  datatype Option<T> = None | Some(value: T)

  /** What a store or lister call can report. `Invalid` is the API server
      refusing an object without a name or namespace; `InvalidArguments` is
      the error UpsertService makes itself. */
  datatype Error = AlreadyExists | NotFound | Invalid | InvalidArguments | ListFailed

  datatype Result<T> = Ok(value: T) | Err(error: Error)

  /** How a Go call ends: by returning an `error` (None for nil), or by a
      runtime panic (an index out of range). */
  datatype Exit = Returned(err: Option<Error>) | Panicked

  type Labels = map<string, string>

  /** Reading a Go map: a missing key reads as "". */
  function Lookup(m: Labels, k: string): string {
    if k in m then m[k] else ""
  }

  /** `labels.Set(sel).AsSelector()` matches `labels`: every pair of sel is
      present. The empty selector matches everything. */
  predicate Selects(sel: Labels, labels: Labels) {
    forall k :: k in sel ==> k in labels && labels[k] == sel[k]
  }

  // ---- apps/v1 Deployment ------------------------------------------------

  datatype ContainerPort = ContainerPort(name: string, containerPort: int)

  datatype Container = Container(name: string, ports: seq<ContainerPort>)

  datatype Deployment = Deployment(
    name: string,
    namespace: string,
    labels: Labels,
    annotations: Labels,
    resourceVersion: string,
    containers: seq<Container>,
    availableReplicas: int,
    deletionTimestamp: Option<string>)

  // ---- core/v1 Service ---------------------------------------------------

  datatype ServicePort = ServicePort(name: string, protocol: string, port: int, targetPort: int)

  datatype Service = Service(
    name: string,
    namespace: string,
    labels: Labels,
    annotations: Labels,
    ports: seq<ServicePort>,
    selector: Labels,
    serviceType: string)

  // ---- networking/v1beta1 Ingress ----------------------------------------

  datatype Backend = Backend(serviceName: string, servicePort: int)

  datatype IngressPath = IngressPath(path: string, backend: Backend)

  /** A rule with its HTTP section (the model has no rule without one). */
  datatype IngressRule = IngressRule(host: string, paths: seq<IngressPath>)

  datatype Ingress = Ingress(
    name: string,
    namespace: string,
    annotations: Labels,
    rules: seq<IngressRule>)

  /** Where an object lives in the store. */
  datatype ObjectKey = ObjectKey(namespace: string, name: string)

  function ServiceKey(s: Service): ObjectKey {
    ObjectKey(s.namespace, s.name)
  }

  function IngressKey(i: Ingress): ObjectKey {
    ObjectKey(i.namespace, i.name)
  }

  // ---- configuration -----------------------------------------------------

  /** The environment variables BOT_SERVICE_PREFIX, BOT_INGRESS_PREFIX,
      ANNOT_PIGO_IO_PARTOF and PUBLIC_DNS_DOMAIN (an unset one reads as ""). */
  datatype Config = Config(
    servicePrefix: string,
    ingressPrefix: string,
    partOf: string,
    publicDnsDomain: string)

  const PartOfKey: string := "pigo.io/part-of"
  const InternetAccessKey: string := "pigo.network/allow-internet-access"
  const RewriteTargetKey: string := "nginx.ingress.kubernetes.io/rewrite-target"
  const ProtocolTCP: string := "TCP"
  const ServiceTypeClusterIP: string := "ClusterIP"

  /** The `pigo.io/part-of` annotation equals the configured marker. */
  predicate IsManaged(cfg: Config, annotations: Labels) {
    Lookup(annotations, PartOfKey) == cfg.partOf
  }

  /** The `pigo.network/allow-internet-access` annotation is exactly "true". */
  predicate AllowsInternetAccess(annotations: Labels) {
    Lookup(annotations, InternetAccessKey) == "true"
  }
}
