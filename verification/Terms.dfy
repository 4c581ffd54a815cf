/** The words of the statements, in the terms of the API objects themselves. No
    operation uses them: what an operation computes is proved to mean this. */
module Terms {
  import opened Text
  import opened Model

  /** The API server reports the aggregated APIService as unavailable: its first
      Available condition reads False. */
  ghost predicate SaysUnavailable(a: ApiService) {
    a.aggregated && exists k ::
      && 0 <= k < |a.conditions| && EqualFold(a.conditions[k].kind, "Available") && a.conditions[k].status == "False"
      && forall j | 0 <= j < k :: !EqualFold(a.conditions[j].kind, "Available")
  }

  /** `d` is what precedes the first slash of the finalizer, or all of it. */
  predicate IsDomain(d: string, finalizer: string) {
    '/' !in d && (finalizer == d || (|d| < |finalizer| && finalizer[..|d|] == d && finalizer[|d|] == '/'))
  }

  /** The finalizer belongs to the API group: its domain is the group or a subdomain. */
  ghost predicate Concerns(finalizer: string, group: string) {
    group != "" && exists d :: IsDomain(d, finalizer) && (d == group || exists p :: d == p + "." + group)
  }

  /** Finalizers of the control plane's own controllers. */
  const CORE_FINALIZERS: set<string> := {
    "kubernetes", "kubernetes.io/pv-protection", "kubernetes.io/pvc-protection",
    "foregroundDeletion", "orphan", "service.kubernetes.io/load-balancer-cleanup"
  }

  /** The object reports the condition as true. */
  ghost predicate Reports(conditions: seq<Condition>, kind: string) {
    exists k :: 0 <= k < |conditions| && conditions[k] == Condition(kind, "True")
  }

  /** The object is being deleted, and some finalizer is left on it. */
  predicate HeldInDeletion(o: Obj) {
    o.deleting && o.metaFinalizers + o.specFinalizers != []
  }

  /** The target or candidate was taken from this object, field by field. */
  predicate TakenFrom(x: StuckObject, o: Obj) {
    && x.kind == o.kind && x.apiVersion == o.apiVersion && x.version == o.version && x.deleting == o.deleting
    && x.metaFinalizers == o.metaFinalizers && x.specFinalizers == o.specFinalizers && x.ownerRefs == o.ownerRefs
    && (x.ref.gvr.resource == "namespaces" ==> x.conditions == o.conditions)
  }

  /** One of the references names this owner. */
  ghost predicate NamesOwner(refs: seq<OwnerRef>, apiVersion: string, kind: string, name: string) {
    exists k :: 0 <= k < |refs| && refs[k].apiVersion == apiVersion && refs[k].kind == kind && refs[k].name == name
  }

  /** The webhook rejects updates of the resource when it cannot be called. */
  ghost predicate GuardsUpdates(w: Webhook, group: string, resource: string) {
    && w.failurePolicy != "Ignore"
    && exists r | r in w.rules ::
      && ("*" in r.operations || "UPDATE" in r.operations)
      && ("*" in r.apiGroups || group in r.apiGroups) && ("*" in r.resources || resource in r.resources)
  }

  /** The service has endpoint slices, and no endpoint in any of them is ready. */
  ghost predicate NoneReady(slices: seq<EndpointSlice>, namespace: string, service: string) {
    && (exists s | s in slices :: s.namespace == namespace && s.service == service)
    && forall s | s in slices && s.namespace == namespace && s.service == service :: Some(true) !in s.ready
  }

  /** Where the orphans of an object live: in its namespace, or if it is one, in itself. */
  predicate OrphanNamespace(ref: Ref, namespace: string) {
    namespace == if ref.gvr.resource == "namespaces" then ref.name else ref.namespace
  }

  /** Discovery's catalogue, at list `a` and resource `i`, offers to list the kind. */
  predicate OffersList(lists: seq<ResourceList>, a: int, i: int, gvr: GVR, namespacedOnly: bool) {
    && 0 <= a < |lists| && 0 <= i < |lists[a].resources|
    && lists[a].groupVersion.Some? && lists[a].groupVersion.value.0 == gvr.group
    && lists[a].groupVersion.value.1 == gvr.version && lists[a].resources[i].name == gvr.resource
    && "list" in lists[a].resources[i].verbs && '/' !in gvr.resource
    && (namespacedOnly ==> lists[a].resources[i].namespaced)
  }

  /** That resource goes by the name, in the wanted group if one is given. */
  predicate GoesBy(lists: seq<ResourceList>, a: int, i: int, group: string, word: string) {
    && 0 <= a < |lists| && 0 <= i < |lists[a].resources|
    && lists[a].groupVersion.Some? && (group == "" || lists[a].groupVersion.value.0 == group)
    && '/' !in lists[a].resources[i].name
    && (lists[a].resources[i].name == word || lists[a].resources[i].singular == word
        || EqualFold(lists[a].resources[i].kind, word) || word in lists[a].resources[i].shortNames)
  }
}
