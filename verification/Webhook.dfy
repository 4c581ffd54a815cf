/** Admission webhooks that would reject the request the run is about to send. */
module AdmissionWebhooks {
  import opened Model
  import opened Terms

  predicate ListMatches(values: seq<string>, want: string) {
    "*" in values || want in values
  }

  predicate RulesMatch(w: Webhook, ref: Ref) {
    exists r | r in w.rules :: RuleMatches(r, ref)
  }

  predicate RuleMatches(r: Rule, ref: Ref) {
    && ListMatches(r.operations, "UPDATE") && ListMatches(r.apiGroups, ref.gvr.group)
    && ListMatches(r.resources, ref.gvr.resource)
  }

  predicate HasReady(slice: EndpointSlice) {
    Some(true) in slice.ready
  }

  predicate Backs(slice: EndpointSlice, w: Webhook) {
    slice.namespace == w.serviceNamespace && slice.service == w.serviceName
  }

  /** The webhook's service has slices, and none of them has a ready endpoint. */
  ghost predicate ServiceDead(snap: Snapshot, w: Webhook) {
    EndpointSlices in snap.readable && NoneReady(snap.slices, w.serviceNamespace, w.serviceName)
  }

  /** Anything but an explicit Ignore counts as Fail; a webhook without a service
      reference cannot be assessed. */
  ghost predicate Blocking(snap: Snapshot, ref: Ref, w: Webhook) {
    && GuardsUpdates(w, ref.gvr.group, ref.gvr.resource)
    && w.serviceName != "" && w.serviceNamespace != "" && ServiceDead(snap, w)
  }

  ghost predicate Listed(snap: Snapshot, w: Webhook) {
    (exists c | c in snap.validating :: w in c) || (exists c | c in snap.mutating :: w in c)
  }

  ghost predicate Blocked(snap: Snapshot, ref: Ref) {
    exists w :: Listed(snap, w) && Blocking(snap, ref, w)
  }

  lemma RulesExact(w: Webhook, ref: Ref)
    ensures w.failurePolicy != "Ignore" && RulesMatch(w, ref) <==> GuardsUpdates(w, ref.gvr.group, ref.gvr.resource)
  {}

  lemma NoneReadyExact(slices: seq<EndpointSlice>, w: Webhook)
    ensures NoneReady(slices, w.serviceNamespace, w.serviceName) <==>
      && (exists s | s in slices :: Backs(s, w))
      && (forall s | s in slices && Backs(s, w) :: !HasReady(s))
  {}

  method ServiceDeadByEndpoints(snap: Snapshot, w: Webhook) returns (dead: bool)
    ensures dead <==> ServiceDead(snap, w)
  {
    if EndpointSlices !in snap.readable {
      return false;
    }
    var sawSlice, sawReady := false, false;
    for i := 0 to |snap.slices|
      invariant sawSlice <==> exists s | s in snap.slices[..i] :: Backs(s, w)
      invariant sawReady <==> exists s | s in snap.slices[..i] :: Backs(s, w) && HasReady(s)
    {
      var slice := snap.slices[i];
      assert snap.slices[..i + 1] == snap.slices[..i] + [slice];
      if !Backs(slice, w) {
        continue;
      }
      sawSlice := true;
      if HasReady(slice) {
        sawReady := true;
      }
    }
    assert snap.slices[..|snap.slices|] == snap.slices;
    NoneReadyExact(snap.slices, w);
    return sawSlice && !sawReady;
  }

  method Blocks(snap: Snapshot, ref: Ref) returns (r: Option<Webhook>)
    ensures r.Some? <==> Blocked(snap, ref)
    ensures r.Some? ==> Listed(snap, r.value) && Blocking(snap, ref, r.value)
  {
    var configs := snap.validating + snap.mutating;
    assert forall w :: Listed(snap, w) <==> exists c | c in configs :: w in c;
    for i := 0 to |configs|
      invariant forall j, w | 0 <= j < i && w in configs[j] :: !Blocking(snap, ref, w)
    {
      for k := 0 to |configs[i]|
        invariant forall w | w in configs[i][..k] :: !Blocking(snap, ref, w)
      {
        var w := configs[i][k];
        assert configs[i] in configs && w in configs[i];
        assert configs[i][..k + 1] == configs[i][..k] + [w];
        RulesExact(w, ref);
        if w.failurePolicy == "Ignore" || !RulesMatch(w, ref) || w.serviceName == "" || w.serviceNamespace == "" {
          continue;
        }
        var dead := ServiceDeadByEndpoints(snap, w);
        if dead {
          assert Listed(snap, w) && Blocking(snap, ref, w);
          return Some(w);
        }
      }
      assert configs[i][..|configs[i]|] == configs[i];
    }
    return None;
  }

  /** The same webhook, up to the order of its rules and of what they list. */
  ghost predicate SameWebhook(v: Webhook, w: Webhook) {
    && v.failurePolicy == w.failurePolicy && v.serviceNamespace == w.serviceNamespace && v.serviceName == w.serviceName
    && (forall r | r in v.rules :: SameRuleIn(r, w.rules)) && (forall r | r in w.rules :: SameRuleIn(r, v.rules))
  }

  ghost predicate SameRuleIn(r: Rule, rules: seq<Rule>) {
    exists q | q in rules :: SameRule(r, q)
  }

  ghost predicate SameRule(r: Rule, q: Rule) {
    && (forall x :: x in r.operations <==> x in q.operations)
    && (forall x :: x in r.apiGroups <==> x in q.apiGroups)
    && (forall x :: x in r.resources <==> x in q.resources)
  }

  /** Each webhook of `s` is among those of `t`. */
  ghost predicate Covered(s: Snapshot, t: Snapshot) {
    forall v | Listed(s, v) :: exists w :: Listed(t, w) && SameWebhook(v, w)
  }

  lemma SameRuleMatches(r: Rule, q: Rule, ref: Ref)
    requires SameRule(r, q) && RuleMatches(r, ref)
    ensures RuleMatches(q, ref)
  {}

  lemma SameWebhookMatches(v: Webhook, w: Webhook, ref: Ref)
    requires SameWebhook(v, w) && RulesMatch(v, ref)
    ensures RulesMatch(w, ref)
  {
    hide RuleMatches, SameRule;
    var r :| r in v.rules && RuleMatches(r, ref);
    assert SameRuleIn(r, w.rules);
    var q :| q in w.rules && SameRule(r, q);
    SameRuleMatches(r, q, ref);
  }

  lemma SameWebhookBlocks(s: Snapshot, t: Snapshot, v: Webhook, w: Webhook, ref: Ref)
    requires SameWebhook(v, w) && (forall x :: x in s.slices <==> x in t.slices)
    requires EndpointSlices in s.readable <==> EndpointSlices in t.readable
    ensures Blocking(s, ref, v) ==> Blocking(t, ref, w)
  {
    RulesExact(v, ref);
    RulesExact(w, ref);
    hide RulesMatch, SameRuleIn, GuardsUpdates;
    assert ServiceDead(s, v) ==> ServiceDead(t, w);
    if Blocking(s, ref, v) {
      SameWebhookMatches(v, w, ref);
    }
  }

  lemma BlockedCovered(s: Snapshot, t: Snapshot, ref: Ref)
    requires Covered(s, t) && (forall x :: x in s.slices <==> x in t.slices)
    requires EndpointSlices in s.readable <==> EndpointSlices in t.readable
    ensures Blocked(s, ref) ==> Blocked(t, ref)
  {
    hide SameWebhook, Listed, Blocking;
    if Blocked(s, ref) {
      var v :| Listed(s, v) && Blocking(s, ref, v);
      var w :| Listed(t, w) && SameWebhook(v, w);
      SameWebhookBlocks(s, t, v, w, ref);
    }
  }

  /** The answer depends on which webhooks, rules and slices exist, not on their order. */
  lemma BlockedOrderFree(s: Snapshot, t: Snapshot, ref: Ref)
    requires Covered(s, t) && Covered(t, s) && (forall x :: x in s.slices <==> x in t.slices)
    requires EndpointSlices in s.readable <==> EndpointSlices in t.readable
    ensures Blocked(s, ref) <==> Blocked(t, ref)
  {
    BlockedCovered(s, t, ref);
    BlockedCovered(t, s, ref);
  }

  /** A new ready slice only unblocks, and an unreadable source never blocks. */
  lemma ReadySliceOnlyUnblocks(snap: Snapshot, slice: EndpointSlice, ref: Ref)
    requires Some(true) in slice.ready
    ensures Blocked(snap.(slices := snap.slices + [slice]), ref) ==> Blocked(snap, ref)
    ensures EndpointSlices !in snap.readable ==> !Blocked(snap, ref)
  {
    var more := snap.(slices := snap.slices + [slice]);
    assert slice in more.slices;
    assert forall s | s in snap.slices :: s in more.slices;
    forall w | Listed(more, w) && Blocking(more, ref, w) ensures Listed(snap, w) && Blocking(snap, ref, w) {
      var s :| s in more.slices && s.namespace == w.serviceNamespace && s.service == w.serviceName;
      assert s != slice;
      assert s in snap.slices;
    }
  }
}
