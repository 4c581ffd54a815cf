/** Liveness evidence for a finalizer's owner. */
module Probe {
  import opened Text
  import opened Model
  import opened Terms

  function Availability(conditions: seq<Condition>): string {
    if conditions == [] then ""
    else if EqualFold(conditions[0].kind, "Available") then conditions[0].status
    else Availability(conditions[1..])
  }

  predicate Unavailable(a: ApiService) {
    a.aggregated && Availability(a.conditions) == "False"
  }

  /** The first APIService of the group that settles the probe: a local one ends
      it without evidence, an unavailable aggregated one is hard proof. */
  function ProbeGroup(group: string, services: seq<ApiService>): Option<Evidence> {
    if services == [] then None
    else if services[0].group != group then ProbeGroup(group, services[1..])
    else if !services[0].aggregated then None
    else if Unavailable(services[0]) then Some(Evidence(ApiServices, DeadHard, 40))
    else ProbeGroup(group, services[1..])
  }

  function ProbeApiService(owner: OwnerCandidate, snap: Snapshot): Option<Evidence> {
    if owner.group == "" then None
    else if ApiServices !in snap.readable then Some(Evidence(ApiServices, Unreadable, 0))
    else ProbeGroup(owner.group, snap.apiServices)
  }

  function For(owner: OwnerCandidate, snap: Snapshot): seq<Evidence> {
    if owner.kind == BuiltinOwner then [Evidence(Targets, Live, 0)]
    else match ProbeApiService(owner, snap)
      case Some(e) => [e]
      case None => []
  }

  /** The first Available condition decides, and without one the answer is empty. */
  lemma {:induction false} AvailabilityExact(conditions: seq<Condition>)
    ensures forall k | 0 <= k < |conditions| && EqualFold(conditions[k].kind, "Available")
      && (forall j | 0 <= j < k :: !EqualFold(conditions[j].kind, "Available")) ::
      Availability(conditions) == conditions[k].status
    ensures (forall k | 0 <= k < |conditions| :: !EqualFold(conditions[k].kind, "Available")) ==>
      Availability(conditions) == ""
  {
    if conditions != [] {
      var rest := conditions[1..];
      AvailabilityExact(rest);
      hide EqualFold;
      assert forall k | 0 < k < |conditions| :: conditions[k] == rest[k - 1];
      forall k | 0 < k < |conditions| && EqualFold(conditions[k].kind, "Available")
        && (forall j | 0 <= j < k :: !EqualFold(conditions[j].kind, "Available"))
        ensures Availability(conditions) == conditions[k].status
      {
        assert !EqualFold(conditions[0].kind, "Available");
        forall j | 0 <= j < k - 1 ensures !EqualFold(rest[j].kind, "Available") {
          assert rest[j] == conditions[j + 1];
        }
        assert rest[k - 1] == conditions[k];
      }
    }
  }

  /** The test for an unavailable aggregated APIService means what it should. */
  lemma UnavailableExact(a: ApiService)
    ensures Unavailable(a) <==> SaysUnavailable(a)
  {
    AvailabilityExact(a.conditions);
    hide EqualFold;
    var cs := a.conditions;
    if exists k :: 0 <= k < |cs| && EqualFold(cs[k].kind, "Available") {
      var k := FirstAvailable(cs);
      assert Availability(cs) == cs[k].status;
    }
  }

  lemma FirstAvailable(cs: seq<Condition>) returns (k: nat)
    requires exists i :: 0 <= i < |cs| && EqualFold(cs[i].kind, "Available")
    ensures k < |cs| && EqualFold(cs[k].kind, "Available") && forall j | 0 <= j < k ::
      !EqualFold(cs[j].kind, "Available")
  {
    hide EqualFold;
    k := 0;
    while !EqualFold(cs[k].kind, "Available")
      invariant k < |cs| && forall j | 0 <= j < k :: !EqualFold(cs[j].kind, "Available")
      decreases |cs| - k
    {
      k := k + 1;
    }
  }

  /** The service at `i` is down and no earlier one of the group settles the probe. */
  ghost predicate Decisive(group: string, services: seq<ApiService>, i: int) {
    0 <= i < |services| && services[i].group == group && SaysUnavailable(services[i])
    && forall j | 0 <= j < i && services[j].group == group :: services[j].aggregated && !SaysUnavailable(services[j])
  }

  lemma {:induction false} ProbeExact(group: string, services: seq<ApiService>)
    ensures ProbeGroup(group, services).Some? <==> exists i :: Decisive(group, services, i)
    ensures ProbeGroup(group, services) in {None, Some(Evidence(ApiServices, DeadHard, 40))}
  {
    if services != [] {
      var rest := services[1..];
      ProbeExact(group, rest);
      UnavailableExact(services[0]);
      hide SaysUnavailable, Availability;
      var s := services[0];
      if s.group == group && (!s.aggregated || SaysUnavailable(s)) {
        if SaysUnavailable(s) {
          assert Decisive(group, services, 0);
        } else {
          assert forall i :: Decisive(group, services, i) ==> i > 0;
        }
      } else {
        forall i | Decisive(group, rest, i) ensures Decisive(group, services, i + 1) {
          forall j | 0 <= j < i + 1 && services[j].group == group
            ensures services[j].aggregated && !SaysUnavailable(services[j])
          {
            if j > 0 { assert services[j] == rest[j - 1]; }
          }
        }
        forall i | Decisive(group, services, i) ensures i > 0 && Decisive(group, rest, i - 1) {
          forall j | 0 <= j < i - 1 && rest[j].group == group
            ensures rest[j].aggregated && !SaysUnavailable(rest[j])
          {
            assert rest[j] == services[j + 1];
          }
        }
      }
    }
  }

  /** The evidence on an owner, in full. */
  lemma ForExact(owner: OwnerCandidate, snap: Snapshot)
    ensures
      var decided := exists i :: Decisive(owner.group, snap.apiServices, i);
      For(owner, snap) ==
        if owner.kind == BuiltinOwner then [Evidence(Targets, Live, 0)]
        else if owner.group == "" then []
        else if ApiServices !in snap.readable then [Evidence(ApiServices, Unreadable, 0)]
        else if decided then [Evidence(ApiServices, DeadHard, 40)] else []
  {
    ProbeExact(owner.group, snap.apiServices);
    hide Decisive, ProbeGroup;
  }
}
