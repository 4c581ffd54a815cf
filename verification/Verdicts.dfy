/** DEAD, SLOW or UNKNOWN, per finalizer. */
module Verdicts {
  import opened Lists
  import opened Model
  import opened Terms
  import opened Probe

  const SCORE_THRESHOLD := 60

  predicate HasClass(ev: seq<Evidence>, c: Class) {
    exists e | e in ev :: e.cls == c
  }

  predicate UnreadableLiveness(ev: seq<Evidence>) {
    exists e | e in ev :: e.cls == Unreadable && e.source in {Workloads, Pods, EndpointSlices}
  }

  predicate AnyDeadward(ev: seq<Evidence>) {
    exists e | e in ev :: e.cls.IsDeadward()
  }

  function Finalize(owner: OwnerCandidate, ev: seq<Evidence>, state: State, score: Option<int>): Verdict {
    Verdict(owner.finalizer, owner, state, ev, state == Dead, score)
  }

  function Strict(owner: OwnerCandidate, ev: seq<Evidence>): Verdict {
    if owner.kind == UnknownOwner then Finalize(owner, ev, Unknown, None)
    else if UnreadableLiveness(ev) then Finalize(owner, ev, Unknown, None)
    else if HasClass(ev, Live) then Finalize(owner, ev, Slow, None)
    else if HasClass(ev, DeadHard) then Finalize(owner, ev, Dead, None)
    else Finalize(owner, ev, Unknown, None)
  }

  function ScoreOf(ev: seq<Evidence>): int {
    if ev == [] then 0
    else (if ev[0].cls.IsDeadward() then ev[0].weight else 0) + ScoreOf(ev[1..])
  }

  /** The accumulating loop behind `Score`. */
  method SumScore(ev: seq<Evidence>) returns (total: int)
    ensures total == ScoreOf(ev)
  {
    total := 0;
    for i := 0 to |ev|
      invariant total + ScoreOf(ev[i..]) == ScoreOf(ev)
    {
      assert ev[i..][1..] == ev[i + 1..];
      if ev[i].cls.IsDeadward() {
        total := total + ev[i].weight;
      }
    }
  }

  function Score(owner: OwnerCandidate, ev: seq<Evidence>): Verdict {
    ScoreWith(owner, ev, ScoreOf(ev))
  }

  function ScoreWith(owner: OwnerCandidate, ev: seq<Evidence>, total: int): Verdict {
    if owner.kind == UnknownOwner then Finalize(owner, ev, Unknown, Some(total))
    else if UnreadableLiveness(ev) then Finalize(owner, ev, Unknown, Some(total))
    else if HasClass(ev, Live) then Finalize(owner, ev, Slow, Some(total))
    else if HasClass(ev, DeadHard) && total >= SCORE_THRESHOLD then Finalize(owner, ev, Dead, Some(total))
    else if AnyDeadward(ev) then Finalize(owner, ev, Slow, Some(total))
    else Finalize(owner, ev, Unknown, Some(total))
  }

  /** A live signal, or an unreadable source of liveness. */
  ghost predicate Vetoed(ev: seq<Evidence>) {
    exists e | e in ev :: e.cls == Live || (e.cls == Unreadable && e.source in {Workloads, Pods, EndpointSlices})
  }

  /** What the strict answers mean: an unreadable liveness source makes it UNKNOWN, or
      else a live signal makes it SLOW, or else hard proof makes it DEAD. */
  lemma StrictExact(owner: OwnerCandidate, ev: seq<Evidence>)
    ensures
      var unread := exists e | e in ev :: e.cls == Unreadable && e.source in {Workloads, Pods, EndpointSlices};
      var live := exists e | e in ev :: e.cls == Live;
      var hard := exists e | e in ev :: e.cls == DeadHard;
      Strict(owner, ev).state ==
        if owner.kind == UnknownOwner || unread then Unknown
        else if live then Slow
        else if hard then Dead else Unknown
  {}

  /** What the scored answers mean: as strict, but DEAD takes sixty points of dead
      signals, and below that they make it SLOW. */
  lemma ScoreExact(owner: OwnerCandidate, ev: seq<Evidence>)
    ensures
      var unread := exists e | e in ev :: e.cls == Unreadable && e.source in {Workloads, Pods, EndpointSlices};
      var live := exists e | e in ev :: e.cls == Live;
      var hard := exists e | e in ev :: e.cls == DeadHard;
      var soft := exists e | e in ev :: e.cls == DeadSoft;
      Score(owner, ev).state ==
        if owner.kind == UnknownOwner || unread then Unknown
        else if live then Slow
        else if hard && ScoreOf(ev) >= 60 then Dead
        else if hard || soft then Slow else Unknown
  {}

  /** One signal counts its weight if it is a dead one. */
  lemma ScoreOfOne(e: Evidence)
    ensures ScoreOf([e]) == if e.cls == DeadHard || e.cls == DeadSoft then e.weight else 0
  {
    assert [e][1..] == [];
  }

  /** Score is Strict with a threshold on top, for any integer weights; a live
      signal or an unreadable liveness source vetoes DEAD in both. */
  lemma ScoreRefinesStrict(owner: OwnerCandidate, ev: seq<Evidence>)
    ensures Score(owner, ev).state == Dead <==> Strict(owner, ev).state == Dead && ScoreOf(ev) >= 60
    ensures Strict(owner, ev).state == Dead <==>
      owner.kind != UnknownOwner && (exists e | e in ev :: e.cls == DeadHard) && !Vetoed(ev)
  {}

  /** Neither strategy looks at the order of its evidence. */
  lemma StatesOrderFree(owner: OwnerCandidate, a: seq<Evidence>, b: seq<Evidence>)
    requires multiset(a) == multiset(b)
    ensures Strict(owner, a).state == Strict(owner, b).state
    ensures Score(owner, a).state == Score(owner, b).state
    ensures Score(owner, a).score == Score(owner, b).score
  {
    SameMembers(a, b);
    assert forall c :: HasClass(a, c) <==> HasClass(b, c);
    ScoreOrderFree(a, b);
  }

  lemma {:induction false} ScoreOrderFree(a: seq<Evidence>, b: seq<Evidence>)
    requires multiset(a) == multiset(b)
    ensures ScoreOf(a) == ScoreOf(b)
  {
    if a == [] {
      assert |multiset(b)| == |b|;
    } else {
      var i := PickHead(a, b);
      ScoreOrderFree(a[1..], RemoveAt(b, i));
      ScorePick(b, i);
    }
  }

  lemma {:induction false} ScorePick(b: seq<Evidence>, i: nat)
    requires i < |b|
    ensures ScoreOf(b) == ScoreOf([b[i]]) + ScoreOf(RemoveAt(b, i))
  {
    ScoreConcat(b[..i], b[i..]);
    assert b == b[..i] + b[i..];
    ScoreConcat([b[i]], b[i + 1..]);
    assert b[i..] == [b[i]] + b[i + 1..];
    ScoreConcat(b[..i], b[i + 1..]);
  }

  lemma {:induction false} ScoreConcat(a: seq<Evidence>, b: seq<Evidence>)
    ensures ScoreOf(a + b) == ScoreOf(a) + ScoreOf(b)
  {
    if a == [] {
      assert a + b == b;
    } else {
      ScoreConcat(a[1..], b);
      assert (a + b)[1..] == a[1..] + b;
    }
  }

  predicate ConditionTrue(conditions: seq<Condition>, kind: string) {
    exists c | c in conditions :: c.kind == kind && c.status == "True"
  }

  /** The group of the first aggregated APIService that is down. */
  function DownGroup(services: seq<ApiService>): (r: Option<string>)
    ensures r.Some? <==> exists a | a in services :: Unavailable(a)
    ensures r.Some? ==> exists a | a in services :: Unavailable(a) && a.group == r.value
  {
    if services == [] then None
    else if Unavailable(services[0]) then Some(services[0].group)
    else
      assert forall a | a in services :: a == services[0] || a in services[1..];
      DownGroup(services[1..])
  }

  const DISCOVERY_FAILURE := "NamespaceDeletionDiscoveryFailure"
  const PARSING_FAILURE := "NamespaceDeletionGroupVersionParsingFailure"
  const FINALIZERS_REMAINING := "NamespaceFinalizersRemaining"
  const CONTENT_FAILURE := "NamespaceDeletionContentFailure"
  const CONTENT_REMAINING := "NamespaceContentRemaining"

  predicate DiscoveryBroken(conditions: seq<Condition>) {
    ConditionTrue(conditions, DISCOVERY_FAILURE) || ConditionTrue(conditions, PARSING_FAILURE)
  }

  predicate Held(conditions: seq<Condition>) {
    ConditionTrue(conditions, FINALIZERS_REMAINING) || ConditionTrue(conditions, CONTENT_FAILURE)
  }

  function NamespaceState(conditions: seq<Condition>, snap: Snapshot): State {
    if !DiscoveryBroken(conditions) then Unknown
    else if Held(conditions) then Slow
    else if ApiServices !in snap.readable || Crds !in snap.readable then Unknown
    else match DownGroup(snap.apiServices)
      case None => Slow
      case Some(g) =>
        if g in snap.crds then Unknown
        else if ConditionTrue(conditions, CONTENT_REMAINING) then Slow
        else Dead
  }

  lemma ConditionExact(conditions: seq<Condition>, kind: string)
    ensures ConditionTrue(conditions, kind) <==> Reports(conditions, kind)
  {
    if ConditionTrue(conditions, kind) {
      var k :| 0 <= k < |conditions| && conditions[k].kind == kind && conditions[k].status == "True";
      assert conditions[k] == Condition(kind, "True");
    }
  }

  /** The namespace `kubernetes` finalizer, attributed to a failing dependency:
      the evidence grows until a branch decides. */
  method NamespaceKubernetes(obj: StuckObject, snap: Snapshot) returns (v: Verdict)
    ensures v.state == NamespaceState(obj.conditions, snap)
    ensures v == Finalize(NamespaceOwner(), v.evidence, v.state, None)
    ensures v.evidence == NamespaceEvidence(obj.conditions, snap)
  {
    var owner := NamespaceOwner();
    var ev: seq<Evidence> := [];
    if !ConditionTrue(obj.conditions, DISCOVERY_FAILURE) && !ConditionTrue(obj.conditions, PARSING_FAILURE) {
      ev := ev + [Evidence(Targets, Neutral, 0)];
      return Finalize(owner, ev, Unknown, None);
    }
    ev := ev + [Evidence(Targets, DeadHard, 35)];
    var kinds := [FINALIZERS_REMAINING, CONTENT_FAILURE];
    for i := 0 to 2
      invariant ev == [Evidence(Targets, DeadHard, 35)]
      invariant forall j | 0 <= j < i :: !ConditionTrue(obj.conditions, kinds[j])
    {
      if ConditionTrue(obj.conditions, kinds[i]) {
        assert Held(obj.conditions);
        ev := ev + [Evidence(Targets, Live, 0)];
        return Finalize(owner, ev, Slow, None);
      }
    }
    assert !ConditionTrue(obj.conditions, kinds[0]) && !ConditionTrue(obj.conditions, kinds[1]);
    if ApiServices !in snap.readable || Crds !in snap.readable {
      ev := ev + [Evidence(ApiServices, Unreadable, 0)];
      return Finalize(owner, ev, Unknown, None);
    }
    var group := DownGroup(snap.apiServices);
    if group == None {
      ev := ev + [Evidence(ApiServices, Neutral, 0)];
      return Finalize(owner, ev, Slow, None);
    }
    ev := ev + [Evidence(ApiServices, DeadHard, 40)];
    if group.value in snap.crds {
      ev := ev + [Evidence(Crds, Unreadable, 0)];
      return Finalize(owner, ev, Unknown, None);
    }
    ev := ev + [Evidence(Crds, Neutral, 0)];
    if ConditionTrue(obj.conditions, CONTENT_REMAINING) {
      ev := ev + [Evidence(Targets, Live, 0)];
      return Finalize(owner, ev, Slow, None);
    }
    ev := ev + [Evidence(Targets, Neutral, 0)];
    return Finalize(owner, ev, Dead, None);
  }

  function NamespaceOwner(): OwnerCandidate {
    OwnerCandidate(KUBERNETES, BuiltinOwner, "", 0)
  }

  /** The evidence trail, by the branch that decided. */
  function NamespaceEvidence(conditions: seq<Condition>, snap: Snapshot): seq<Evidence> {
    var broken, down := Evidence(Targets, DeadHard, 35), Evidence(ApiServices, DeadHard, 40);
    if !DiscoveryBroken(conditions) then [Evidence(Targets, Neutral, 0)]
    else if Held(conditions) then [broken, Evidence(Targets, Live, 0)]
    else if ApiServices !in snap.readable || Crds !in snap.readable then [broken, Evidence(ApiServices, Unreadable, 0)]
    else match DownGroup(snap.apiServices)
      case None => [broken, Evidence(ApiServices, Neutral, 0)]
      case Some(g) =>
        if g in snap.crds then [broken, down, Evidence(Crds, Unreadable, 0)]
        else
          [broken, down, Evidence(Crds, Neutral, 0),
           Evidence(Targets, if ConditionTrue(conditions, CONTENT_REMAINING) then Live else Neutral, 0)]
  }

  function NamespaceVerdict(obj: StuckObject, snap: Snapshot): Verdict {
    Finalize(NamespaceOwner(), NamespaceEvidence(obj.conditions, snap), NamespaceState(obj.conditions, snap), None)
  }

  /** The trail of evidence ends where the answer was found: a DEAD one went all the way. */
  lemma TrailExact(conditions: seq<Condition>, snap: Snapshot)
    ensures
      var trail, state := NamespaceEvidence(conditions, snap), NamespaceState(conditions, snap);
      && 1 <= |trail| <= 4
      && (state == Dead <==> |trail| == 4 && trail[3] == Evidence(Targets, Neutral, 0))
      && (|trail| >= 2 ==> trail[0] == Evidence(Targets, DeadHard, 35))
      && (|trail| >= 3 ==> trail[1] == Evidence(ApiServices, DeadHard, 40))
      && (DiscoveryBroken(conditions) && !Held(conditions) && !(ApiServices in snap.readable && Crds in snap.readable)
        ==> trail[|trail| - 1] == Evidence(ApiServices, Unreadable, 0))
  {}
}
