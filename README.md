# k8s-bot in Dafny

A model of the core of k8s-bot, a Kubernetes controller written in Go.
For every Deployment marked with the `pigo.io/part-of` annotation, it keeps a
ClusterIP Service. For every such Service that also carries
`pigo.network/allow-internet-access: "true"`, it keeps an nginx Ingress on a
generated public host name.

The model covers the following parts of the controller:

- The Deployment and Service event handlers, with their gating: the
  namespace exclusion list, the part-of marker and the deletion timestamp.
- The operations the handlers call: `UpsertService` and `DeleteService`
  on Services, and `UpsertIngress`, `CreateIngress`, `UpdateIngress` and
  `DeleteIngress` on Ingresses.
- The pure derivations: the Service of a Deployment, the Ingress of a
  Service, the port lookups, the Ingress name, and the public host name.

Modules, one per package of the source:

- `GoLib`: the pieces of the Go standard library the logic relies on:
  `strings.HasPrefix`, `strings.TrimPrefix`, `strings.Index`, and the
  "return the first match of a range loop" idiom.
- `Kube`: the Deployment, Service and Ingress objects, reduced to the
  fields the controller reads or writes. It also holds:
  - the configuration read from the environment, as a `Config` value;
  - the annotation keys;
  - the error outcomes;
  - `Exit`, for a call that returns an error or panics.
- `Cluster`: the API server and the informer cache.
  - The API server is the class `Store`, whose `services` and `ingresses`
    maps the create, update, patch and delete methods change in place.
    Each method is specified by a function of the old map: `Create`,
    `Update`, `Patch`, `Delete`.
    - Create refuses a taken key (AlreadyExists) and an empty name or
      namespace (Invalid).
    - Update, patch and delete refuse a missing key (NotFound).
  - The informer cache is a `Cache` value. Its listers filter it by
    namespace and label selector, keeping the cache's order. A failing
    List is the flag `listable == false`.
  - The cache may lag the store. Lemmas that need the cache to be up to
    date require `Mirrors`.
- `Helper`: `helper/helper.go`. The random bytes and the random host
  prefix are parameters.
- `Services`: `pkg/service/service.go`.
- `Ingresses`: `pkg/ingress/ingress.go`.
- `Controllers`: `controller/deploy-cntlr.go`, `controller/service-cntlr.go`
  and the exclusion list of `controller/bot-cntlr.go`.

Each operation that writes to the store exists twice:

- an imperative method: the single writes are methods of the class
  `Cluster.Store`, and the operations of the packages (`Services.UpsertService`,
  `Ingresses.UpdateIngress`, and so on) are module-level methods that take
  a `Store` and carry the source's loops, their invariants, and early
  returns where the source has them;
- a function of the old store map (`UpsertServiceEffect`,
  `UpdateIngressEffect`, and so on).

The method's postcondition equates the new store and the returned error
with that function. The lemmas about each operation are stated on the
function.

The model follows the code as written, including where it behaves in ways
a reader might not expect:

- An added Deployment only gets logged; no Service is created for it.
- `UpsertService` returns the AlreadyExists error of its create; it only
  skips logging it.
- `UpsertIngress` fills either the old-side or the new-side variables,
  never both.
  - On an update, the patch is therefore never sent, and the create is
    refused for its empty namespace. An update never changes an Ingress.
  - On an add, it checks whether an Ingress routes to the empty name.
- `getIngresses` lists the namespace named after the Service.
- `getPaths` picks the port by a name prefix, while `GetServicePort`
  picks it by exact name.
- Write errors in `UpsertIngress` and `UpdateIngress` go to shadowed
  variables and are dropped.
- `GetPublicDns` calls `strings.HasPrefix(".", d)` with its arguments
  swapped. Only the domains "" and "." skip the extra dot.
- `UpdateIngress` marshals a whole Ingress object as its patch, so the
  patch always carries both backend fields and a one-rule list:
  - a new port of 0 is written as 0 over the stored port;
  - with no listed Ingress routing to the old name, the backend sent is
    the empty one (no name, port 0);
  - the rules list of the stored Ingress is replaced, which drops its host
    and path string.
- The patch loop of `UpdateIngress` indexes `Rules[0].HTTP.Paths[0]` of
  every Ingress it passes. An Ingress without a rule or a path makes it
  panic, which is modelled as `Exit.Panicked`.

## Model

| member | source | states |
|---|---|---|
| `Helper.AreNamespaceInWhiteList` | helper/helper.go:38-47 | true exactly when the namespace occurs in the list |
| `Helper.GetRandomValue` | helper/helper.go:27-36 | the hex text of n bytes has 2n characters, all of them lowercase hex digits |
| `Helper.RandomValueDecodes` | helper/helper.go:27-36 | decoding the hex text gives back the bytes: the encoding loses nothing |
| `Helper.GenerateDnsPrefix` | helper/helper.go:69-73 | the prefix is the xid followed by 12 lowercase hex digits from 6 random bytes |
| `Helper.GeneratedPrefixHasNoDot` | helper/helper.go:69-73 | a prefix made from a dot-free xid holds no dot |
| `Helper.GetPublicDns` | helper/helper.go:49-56 | for the domains "" and ".", the prefix and the domain are joined as they are; for every other domain (one with a leading dot included), a dot goes between them |
| `Helper.GetDnsPrefix` | helper/helper.go:75-78 | the result is the text before the first dot (a prefix of the input, followed by a dot, with no dot in it); the input needs a dot, or the slice would panic |
| `Helper.PublicDnsFirstLabel` | helper/helper.go:49-78 | the first DNS label of a public host built from a dot-free prefix and a non-empty domain is that prefix |
| `Cluster.ApplyPatch` | pkg/ingress/ingress.go:88-128 | the patched Ingress keeps its name, namespace and annotations; its rules become one rule with an empty host and one path with an empty path string, whose backend is exactly the patch's service name and port |
| `Cluster.Store.CreateService` | pkg/service/service.go:63 | the new map is the old one plus the Service; the error is Invalid for an empty name or namespace and AlreadyExists for a taken key, and then nothing changes |
| `Cluster.Store.UpdateService` | pkg/service/service.go:77 | the Service at its key is replaced; NotFound, with nothing changed, if there is none |
| `Cluster.Store.DeleteService` | pkg/service/service.go:35-37 | the key is removed; NotFound, with nothing changed, if it is absent |
| `Cluster.Store.CreateIngress` | pkg/ingress/ingress.go:74 | as CreateService, for Ingresses |
| `Cluster.Store.PatchIngress` | pkg/ingress/ingress.go:128 | the stored Ingress is replaced by `ApplyPatch` of it; NotFound, with nothing changed, if it is absent |
| `Cluster.Store.DeleteIngress` | pkg/ingress/ingress.go:147-149 | as DeleteService, for Ingresses |
| `Cluster.FilterServices` | pkg/service/service.go:28 | a Service is listed exactly when it is cached, lives in the namespace, and carries every pair of the selector |
| `Cluster.FilterIngresses` | pkg/ingress/ingress.go:177 | an Ingress is listed exactly when it is cached in the namespace |
| `Services.GetSpecificContainer` | pkg/service/service.go:142-154 | the only container; otherwise the first one with the name; otherwise the empty container |
| `Services.GetHttpContainerPort` | pkg/service/service.go:156-168 | the only port's container port; otherwise that of the first port named "http"; otherwise 0 |
| `Services.GetServicePort` | pkg/service/service.go:92-103 | the port of the first entry named exactly prefix + "port-" + (the name with one prefix removed); 0 when there is none |
| `Services.GetServicePortName` | pkg/service/service.go:138-140 | the port name starts with the prefix and "port-", and removing those gives back the local name |
| `Services.NewService` | pkg/service/service.go:105-136 | the Service is named prefix + the Deployment's name, lives in its namespace, and takes its labels as labels and selector; it has one TCP port named prefix + "port-" + the Deployment's name, whose port and target port are the resolved container port; its annotations are exactly part-of (so the Service is managed) and allow-internet-access, which is the Deployment's own value, or "false" when that is empty (so "true" exactly when the Deployment's value is); `GetServicePort` on its own name and ports gives back the resolved port |
| `Services.UpsertService` | pkg/service/service.go:47-90 | the new store and the returned error are those of `UpsertServiceEffect`; the loop keeps "what remains to update gives the same result" |
| `Services.DeleteService` | pkg/service/service.go:25-45 | the new store and the returned error are those of `DeleteServiceEffect`, with the same kind of loop invariant |
| `Services.RelabelRewritesEvery` | pkg/service/service.go:73-86 | when every listed Service is stored, the update loop succeeds and keeps the stored keys; each listed key gets its cached Service with labels and selector replaced; every other Service is unchanged |
| `Services.RelabelStopsAtFirstMissing` | pkg/service/service.go:74-85 | the update loop stops at the first listed Service that is no longer stored: the ones before it are rewritten, and NotFound comes back |
| `Services.DeleteEachRemovesAll` | pkg/service/service.go:33-42 | when the listed Services are stored and distinctly named, the delete loop removes exactly their keys and succeeds |
| `Services.DeleteEachStopsAtFirstMissing` | pkg/service/service.go:33-42 | the delete loop stops at the first missing Service: the ones before it are deleted, the rest stay, and NotFound comes back |
| `Services.UpsertRejectsEmptyLabels` | pkg/service/service.go:48-50 | empty old labels give InvalidArguments, and nothing is written |
| `Services.UpsertCreatesWhenNothingMatches` | pkg/service/service.go:61-71 | with no match and a replica available, exactly the derived Service is created under prefix + name in the Deployment's namespace; a taken key gives AlreadyExists, and nothing is written |
| `Services.UpsertRelabelsEveryMatch` | pkg/service/service.go:73-86 | with matches, a changed resource version and changed labels, every matched Service gets the new labels as labels and selector; nothing else changes, and nil comes back |
| `Services.UpsertWritesNothingOtherwise` | pkg/service/service.go:59-89 | in every other case (matches but the version or the labels are unchanged; or no match and no replica), nothing is written and nil comes back |
| `Services.UpsertIsIdempotent` | pkg/service/service.go:54-73 | once the cache has caught up with the Service the first upsert created, a second upsert of the same Deployment writes nothing |
| `Services.DeleteServiceRemovesMatches` | pkg/service/service.go:25-45 | with the cache caught up, exactly the Services of the namespace that carry all the labels are removed; the others are unchanged, and nil comes back |
| `Services.DeleteServiceWithNoLabelsEmptiesNamespace` | pkg/service/service.go:28 | the empty label map selects everything, so no Service of the namespace is left |
| `Ingresses.IngressName` | pkg/ingress/ingress.go:202-204 | the name starts with the ingress prefix, followed by the service name with one service prefix removed |
| `Ingresses.PathPort` | pkg/ingress/ingress.go:206-213 | the port of the first service port whose name starts with prefix + "port-"; 0 when there is none |
| `Ingresses.Paths` | pkg/ingress/ingress.go:206-225 | exactly one path, "/", to the Service on `PathPort` |
| `Ingresses.Rules` | pkg/ingress/ingress.go:227-237 | exactly one rule, for the host, holding those paths |
| `Ingresses.NewIngress` | pkg/ingress/ingress.go:185-200 | named `IngressName`, in the given namespace, annotated only with rewrite-target "/", with one rule for the host and one path "/" whose backend is the Service and `PathPort` |
| `Ingresses.HasIngressExists` | pkg/ingress/ingress.go:161-173 | true exactly when some path of some rule of some listed Ingress has the Service as its backend |
| `Ingresses.GetIngresses` | pkg/ingress/ingress.go:175-183 | the listing fails exactly when the cache cannot list; otherwise it holds exactly the cached Ingresses whose namespace is the Service's name |
| `Ingresses.PatchFor` | pkg/ingress/ingress.go:88-117 | the patch is either the new name and new port or the empty backend ("", 0); it is the empty backend when no listed Ingress routes to the old name; it never panics when every listed Ingress has a first rule and path |
| `Ingresses.CreateIngress` | pkg/ingress/ingress.go:72-84 | the new store and the returned error are those of creating `NewIngress` on the public host |
| `Ingresses.UpdateIngress` | pkg/ingress/ingress.go:86-140 | the new store and the exit are those of `UpdateIngressEffect`: a panic on an Ingress without a first path; otherwise, only when the new name is set, the patch (both backend fields, unset ones as "" and 0) goes to the Ingress named after the old Service; always nil |
| `Ingresses.DeleteIngress` | pkg/ingress/ingress.go:142-159 | the new store and the returned error are those of deleting the Ingress named after the Service |
| `Ingresses.UpsertIngress` | pkg/ingress/ingress.go:26-70 | the new store and the exit are those of `UpsertIngressEffect` |
| `Ingresses.IngressNameOfServiceName` | pkg/ingress/ingress.go:202-204 | the Ingress of the Service named prefix + w is named ingress prefix + w |
| `Ingresses.IngressNamesCollide` | pkg/ingress/ingress.go:202-204 | a Service named w without the prefix gets the same Ingress name as the Service named prefix + w |
| `Ingresses.NewIngressRoutesToService` | pkg/ingress/ingress.go:161-200 | `HasIngressExists` finds the derived Ingress of a Service among any others |
| `Ingresses.PathPortOfNewService` | pkg/ingress/ingress.go:206-213 | for the Service of a Deployment, `PathPort` and `GetServicePort` both give the resolved container port |
| `Ingresses.PortLookupsDisagree` | pkg/ingress/ingress.go:206-213 | with the ports "svc-port-admin" 9000 and "svc-port-web" 8080 on "svc-web", the Ingress routes to 9000 while `GetServicePort` gives 8080 |
| `Ingresses.PatchForFirstMatch` | pkg/ingress/ingress.go:106-117 | the loop stops at the first listed Ingress whose first backend names the old Service, and the patch is then exactly the new name and the new port |
| `Ingresses.PatchForPanics` | pkg/ingress/ingress.go:106-107 | the loop panics exactly when it reaches an Ingress without a first rule or path before finding a match |
| `Ingresses.PatchedIngressRoutesToPatchedName` | pkg/ingress/ingress.go:88-128 | a patched Ingress has a first rule and path again, and routes to a name exactly when it is the patch's service name |
| `Ingresses.UpdateRewritesBackend` | pkg/ingress/ingress.go:86-140 | with a match and a new name, the Ingress named after the old Service keeps its name and annotations and its rules become one rule with no host and one path routing to the new name and port; every other Ingress is unchanged, and nil comes back |
| `Ingresses.UpdateWritesZeroPort` | pkg/ingress/ingress.go:106-128 | with a match and a new name, a new port of 0 is written: the stored backend becomes the new name on port 0, whatever its port was |
| `Ingresses.UpdateWithoutMatchClearsBackend` | pkg/ingress/ingress.go:97-128 | with a new name but no listed Ingress routing to the old one, the patch still goes out with the empty backend: the stored Ingress routes to no named Service afterwards, and the keys are unchanged |
| `Ingresses.UpdateWithoutNewNameWritesNothing` | pkg/ingress/ingress.go:119-137 | with an empty new name no patch is sent: the store is unchanged |
| `Ingresses.UpsertIngressIsGated` | pkg/ingress/ingress.go:27-29 | a Service that is not managed, or whose allow-internet-access is not exactly "true", leaves the store alone, and nil comes back |
| `Ingresses.UpsertIngressFailsOnlyOnList` | pkg/ingress/ingress.go:30-69 | an error comes back exactly when the Service is gated in and the listing fails; it is the listing error, and nothing is written |
| `Ingresses.UpsertIngressOnUpdateWritesNothing` | pkg/ingress/ingress.go:40-66 | with an old Service, the store never changes |
| `Ingresses.UpsertIngressOnAddCreates` | pkg/ingress/ingress.go:44-65 | on an add, with no listed Ingress routing to the empty name, exactly the derived Ingress is created; it is named after the Service, lives in its namespace, and routes to it on `PathPort` |
| `Ingresses.UpsertIngressOnAddPatchesEmptyName` | pkg/ingress/ingress.go:54-65 | on an add where a listed Ingress routes to the empty name, nothing is created: the outcome is that of UpdateIngress with old name "", the Service's name and namespace, and its `GetServicePort`; no key is added or removed, and only the Ingress named after "" in the Service's namespace can change |
| `Ingresses.DeleteIngressRemovesRoute` | pkg/ingress/ingress.go:142-159 | the Ingress named after the Service is removed and nothing else; NotFound exactly when it is absent |
| `Controllers.ExcludedNamespacesAreTheSystemOnes` | controller/bot-cntlr.go:3-5 | excluded exactly when the namespace is kube-system, ingress-nginx, kube-public or monitor |
| `Controllers.DeploymentAction` | controller/deploy-cntlr.go:38-90 | an add does nothing; an update upserts, with the old labels and namespace, exactly when the old namespace is not excluded and the new Deployment is managed; a delete removes the Services of the Deployment's labels and namespace exactly when the namespace is not excluded, no deletion timestamp is set, and the Deployment is managed |
| `Controllers.ServiceAction` | controller/service-cntlr.go:38-85 | an add upserts the Ingress (with no old Service) exactly when the namespace is not excluded; an update always upserts, with the old Service; a delete removes the Ingress named after the Service exactly when the Service is managed |
| `Controllers.OnDeploymentEvent` | controller/deploy-cntlr.go:50-90 | the new Services are those of `DeploymentEventEffect`; the error is dropped |
| `Controllers.OnServiceEvent` | controller/service-cntlr.go:38-85 | the new Ingresses, and whether the handler panicked, are those of `ServiceEventEffect`; the error is dropped |
| `Controllers.DeploymentAddWritesNothing` | controller/deploy-cntlr.go:38-48 | an added Deployment never changes the Services |
| `Controllers.DeploymentUpdateCreatesService` | controller/deploy-cntlr.go:50-70 | updating a managed Deployment whose old labels select nothing, with a replica available, adds exactly its derived Service under a free key |
| `Controllers.DeploymentDeleteRemovesOwnedServices` | controller/deploy-cntlr.go:72-90 | deleting a managed Deployment removes exactly the Services of its namespace that carry all its labels; the others are unchanged |
| `Controllers.ServiceDeleteRemovesRoute` | controller/service-cntlr.go:74-85 | deleting a managed Service removes exactly its Ingress, without panicking |
| `Controllers.ServiceUpdateWritesNothing` | controller/service-cntlr.go:63-71 | a Service update, a rename included, never changes the Ingresses |
| `Controllers.WellFormedIngressesNeverPanic` | pkg/ingress/ingress.go:106-107 | when every cached Ingress has a rule with a path, no Service handler panics |
| `Controllers.DeploymentServiceGetsIngress` | controller/service-cntlr.go:38-50 | the derived Service of a Deployment that allows internet access, once added, gets an Ingress named ingress prefix + the Deployment's name, in its namespace, routing to prefix + name on the resolved container port |

## Left out

- Logging (zerolog), the informers' `Sync` and `Run`, `NewDeploymentController` and `NewServiceController`, the observer's goroutines and start-up, and `cmd/main.go`: concurrency and plumbing with no decision in them.
- `controller/ingress-cntlr.go`: its handlers only log.
- `helper.GetClientset`, `getKubernetesConfig`, `homeDir` and `FormatJson`: configuration loading and I/O.
- Environment variables: they are read once into `Config`. An unset variable reads as "", which `Config` allows.
- Randomness: `math/rand` and `xid` are not modelled. The random bytes are a parameter of `GetRandomValue`, and the xid and bytes are parameters of `GenerateDnsPrefix`. The handlers take the resulting host prefix as a parameter.
- `pkg/helper` (`AreNamespaceInExcludesList`, used by the Deployment controller) is not part of this model. It is modelled as membership in the list, like `helper.AreNamespaceInWhiteList`.
- The client-go lister internals: a List either fails or returns the cached objects that match, in cache order.
- `Cluster.Store.PatchIngress`: the strategic merge is modelled only for the fields the marshalled Ingress sets: the rules list is replaced, and the other fields of the stored Ingress stay. JSON marshalling and its error are not modelled.
- `Cluster.Store.PatchIngress`: the API server's validation of the patched Ingress is not modelled, so a patch with an empty service name or port 0 is accepted.
- Kubernetes resource versions and optimistic concurrency on update: `Cluster.Store.UpdateService` replaces the stored object unconditionally.
- Deletion propagation policy (foreground): a delete removes the object at once.
- Integer widths: ports and replica counts are `int`, not `int32`. The controller does no arithmetic on them, so nothing can wrap.
- `UpsertService` mutates the cached Service objects in place before writing them. The model writes a modified copy, so the cache itself does not change.
- An Ingress rule whose HTTP section is nil (a nil pointer dereference in `HasIngressExists` and `UpdateIngress`) cannot be represented: every modelled rule has its paths.
- `Helper.GetDnsPrefix`: requires a dot in its input, so the slice panic of a dot-free input is not modelled; `getDNSPrefix` has no caller in the source.
- `GetIngresses`: its namespace argument only goes to a log line, so it is accepted and ignored.
- Events are typed objects. A delete handler that receives a `cache.DeletedFinalStateUnknown` tombstone would panic on its type assertion; that case is not modelled.
