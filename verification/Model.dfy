/** The values passed between the stages of the pipeline. */
module Model {
  import opened Text

  datatype Option<+T> = None | Some(value: T)
  datatype Result<+T> = Ok(value: T) | Err

  datatype GVR = GVR(group: string, version: string, resource: string)

  datatype Ref = Ref(gvr: GVR, namespace: string, name: string) {
    function String(): string {
      if namespace != "" then Join([namespace, ResourceDesc(gvr), name], "/")
      else ResourceDesc(gvr) + "/" + name
    }

    predicate IsNamespace() {
      gvr.resource == "namespaces"
    }
  }

  /** `<resource>[.<group>]` */
  function ResourceDesc(gvr: GVR): string {
    if gvr.group != "" then gvr.resource + "." + gvr.group else gvr.resource
  }

  datatype Condition = Condition(kind: string, status: string)
  datatype OwnerRef = OwnerRef(apiVersion: string, kind: string, name: string)

  /** A target of the run, or a candidate orphan. */
  datatype StuckObject = StuckObject(
    ref: Ref, kind: string, apiVersion: string, deleting: bool,
    metaFinalizers: seq<string>, specFinalizers: seq<string>,
    ownerRefs: seq<OwnerRef>, conditions: seq<Condition>, version: nat)
  {
    function AllFinalizers(): seq<string> {
      metaFinalizers + specFinalizers
    }
  }

  /** An object as the API server holds it. */
  datatype Obj = Obj(kind: string, apiVersion: string, version: nat, deleting: bool,
                     metaFinalizers: seq<string>, specFinalizers: seq<string>,
                     ownerRefs: seq<OwnerRef>, conditions: seq<Condition>)

  /* Discovery */

  datatype ApiResource = ApiResource(name: string, singular: string, kind: string, shortNames: seq<string>,
                                     namespaced: bool, verbs: seq<string>)
  /** One preferred group version; None when its name does not parse. */
  datatype ResourceList = ResourceList(groupVersion: Option<(string, string)>, resources: seq<ApiResource>)

  /* Evidence sources, decoded from the API objects the program reads. */

  datatype ApiService = ApiService(name: string, group: string, aggregated: bool, conditions: seq<Condition>)
  datatype Rule = Rule(operations: seq<string>, apiGroups: seq<string>, resources: seq<string>)
  datatype Webhook = Webhook(name: string, failurePolicy: string, rules: seq<Rule>,
                             serviceNamespace: string, serviceName: string)
  /** One flag per endpoint; None when the endpoint carries no readiness condition. */
  datatype EndpointSlice = EndpointSlice(namespace: string, service: string, ready: seq<Option<bool>>)

  datatype Source = Targets | ApiServices | Crds | Webhooks | Workloads | Pods | EndpointSlices

  /** CRDs are known by their group, webhook configurations by their webhooks. */
  datatype Snapshot = Snapshot(
    targets: seq<StuckObject>, apiServices: seq<ApiService>, crds: seq<string>,
    validating: seq<seq<Webhook>>, mutating: seq<seq<Webhook>>, slices: seq<EndpointSlice>,
    readable: set<Source>)

  datatype State = Dead | Slow | Unknown
  datatype Class = DeadHard | DeadSoft | Live | Neutral | Unreadable {
    predicate IsDeadward() { DeadHard? || DeadSoft? }
  }
  datatype Evidence = Evidence(source: Source, cls: Class, weight: int)

  datatype OwnerKind = ApiServiceOwner | CrdOwner | BuiltinOwner | UnknownOwner
  datatype OwnerCandidate = OwnerCandidate(finalizer: string, kind: OwnerKind, group: string, rank: int)

  datatype Verdict = Verdict(finalizer: string, owner: OwnerCandidate, state: State,
                             evidence: seq<Evidence>, safeToClear: bool, score: Option<int>)

  datatype ActionKind = CleanOrphan | ClearFinalizer | FinalizeNamespace
  datatype Action = Action(kind: ActionKind, target: Ref, finalizer: string)
  datatype Plan = Plan(actions: seq<Action>, refused: seq<Verdict>, notes: seq<string>)

  /** The namespace spec finalizer, cleared through the finalize subresource. */
  const KUBERNETES := "kubernetes"

  /** `s` without any `x`, in order. */
  function Without(s: seq<string>, x: string): (r: seq<string>)
    ensures x !in r
    ensures forall y :: y in r <==> y in s && y != x
  {
    if s == [] then []
    else if s[0] == x then Without(s[1..], x)
    else [s[0]] + Without(s[1..], x)
  }
}
