/** The verdict on each finalizer of a target, and what a DEAD verdict means. */
module Diagnosis {
  import opened Model
  import opened Terms
  import opened Mapping
  import opened Probe
  import opened Verdicts

  datatype Mode = StrictMode | ScoreMode

  function Judge(mode: Mode, obj: StuckObject, finalizer: string, snap: Snapshot): (v: Verdict)
    ensures v.finalizer == finalizer
  {
    if obj.ref.IsNamespace() && finalizer == KUBERNETES then NamespaceVerdict(obj, snap)
    else Weigh(mode, Map(finalizer, snap), snap)
  }

  function Weigh(mode: Mode, owner: OwnerCandidate, snap: Snapshot): (v: Verdict)
    ensures v.finalizer == owner.finalizer
  {
    if mode == ScoreMode then Score(owner, For(owner, snap)) else Strict(owner, For(owner, snap))
  }

  function JudgeEach(mode: Mode, obj: StuckObject, finalizers: seq<string>, snap: Snapshot): (vs: seq<Verdict>)
    ensures |vs| == |finalizers|
    ensures forall i | 0 <= i < |vs| :: vs[i] == Judge(mode, obj, finalizers[i], snap)
  {
    if finalizers == [] then []
    else [Judge(mode, obj, finalizers[0], snap)] + JudgeEach(mode, obj, finalizers[1..], snap)
  }

  function JudgeAll(mode: Mode, obj: StuckObject, snap: Snapshot): seq<Verdict> {
    JudgeEach(mode, obj, obj.AllFinalizers(), snap)
  }

  function CombinedState(verdicts: seq<Verdict>): State {
    if verdicts == [] then Unknown else FirstObstacle(verdicts)
  }

  function FirstObstacle(verdicts: seq<Verdict>): State {
    if verdicts == [] then Dead
    else if verdicts[0].state != Dead then verdicts[0].state
    else FirstObstacle(verdicts[1..])
  }

  lemma {:induction false} CombinedDeadExact(verdicts: seq<Verdict>)
    ensures CombinedState(verdicts) == Dead <==> verdicts != [] && forall v | v in verdicts :: v.state == Dead
  {
    FirstObstacleExact(verdicts);
  }

  lemma {:induction false} FirstObstacleExact(verdicts: seq<Verdict>)
    ensures FirstObstacle(verdicts) == Dead <==> forall v | v in verdicts :: v.state == Dead
  {
    if verdicts != [] {
      FirstObstacleExact(verdicts[1..]);
      assert verdicts == [verdicts[0]] + verdicts[1..];
    }
  }

  /** Otherwise the first verdict that is not DEAD decides. */
  lemma {:induction false} CombinedExact(verdicts: seq<Verdict>, i: nat)
    requires i < |verdicts| && verdicts[i].state != Dead && forall j | 0 <= j < i :: verdicts[j].state == Dead
    ensures CombinedState(verdicts) == verdicts[i].state
  {
    if i > 0 {
      CombinedExact(verdicts[1..], i - 1);
    }
  }

  /** The target is DEAD as a whole: it has a finalizer and every one is DEAD. */
  lemma TargetDeadExact(mode: Mode, obj: StuckObject, snap: Snapshot)
    ensures CombinedState(JudgeAll(mode, obj, snap)) == Dead <==>
      && obj.AllFinalizers() != []
      && forall f | f in obj.AllFinalizers() :: Judge(mode, obj, f, snap).state == Dead
  {
    var fins := obj.AllFinalizers();
    var vs := JudgeAll(mode, obj, snap);
    CombinedDeadExact(vs);
    assert forall f | f in fins :: exists i | 0 <= i < |fins| :: fins[i] == f && vs[i] in vs;
  }

  /** `m` is the first listed group that the finalizer belongs to. */
  ghost predicate FirstAt(groups: seq<string>, finalizer: string, m: int) {
    0 <= m < |groups| && Concerns(finalizer, groups[m]) && forall j | 0 <= j < m :: !Concerns(finalizer, groups[j])
  }

  /** `g` is the group the finalizer is attributed to: the first matching CRD group,
      and only without one the first matching APIService group. */
  ghost predicate Attributed(finalizer: string, snap: Snapshot, g: string) {
    var served := Groups(snap.apiServices);
    || (exists m :: FirstAt(snap.crds, finalizer, m) && snap.crds[m] == g)
    || ((forall c | c in snap.crds :: !Concerns(finalizer, c))
        && exists m :: FirstAt(served, finalizer, m) && served[m] == g)
  }

  /** What a strict DEAD verdict on an ordinary finalizer amounts to. */
  ghost predicate OwnerGone(finalizer: string, snap: Snapshot) {
    && finalizer !in CORE_FINALIZERS
    && ApiServices in snap.readable
    && exists g, i :: Attributed(finalizer, snap, g) && Decisive(g, snap.apiServices, i)
  }

  /** What a DEAD verdict on the namespace `kubernetes` finalizer amounts to. */
  ghost predicate NamespaceProof(conditions: seq<Condition>, snap: Snapshot) {
    && (Reports(conditions, "NamespaceDeletionDiscoveryFailure")
        || Reports(conditions, "NamespaceDeletionGroupVersionParsingFailure"))
    && !Reports(conditions, "NamespaceFinalizersRemaining") && !Reports(conditions, "NamespaceDeletionContentFailure")
    && !Reports(conditions, "NamespaceContentRemaining")
    && ApiServices in snap.readable && Crds in snap.readable
    && exists i :: FirstDown(snap.apiServices, i) && snap.apiServices[i].group !in snap.crds
  }

  ghost predicate FirstDown(services: seq<ApiService>, i: int) {
    0 <= i < |services| && SaysUnavailable(services[i]) && forall j | 0 <= j < i :: !SaysUnavailable(services[j])
  }

  /** Every answer on the namespace `kubernetes` finalizer. */
  lemma NamespaceStateExact(conditions: seq<Condition>, snap: Snapshot)
    ensures
      var broken := Reports(conditions, "NamespaceDeletionDiscoveryFailure")
        || Reports(conditions, "NamespaceDeletionGroupVersionParsingFailure");
      var held := Reports(conditions, "NamespaceFinalizersRemaining")
        || Reports(conditions, "NamespaceDeletionContentFailure");
      var down := exists i :: FirstDown(snap.apiServices, i);
      var replaced := exists i :: FirstDown(snap.apiServices, i) && snap.apiServices[i].group in snap.crds;
      NamespaceState(conditions, snap) ==
        if !broken then Unknown
        else if held then Slow
        else if ApiServices !in snap.readable || Crds !in snap.readable then Unknown
        else if !down then Slow
        else if replaced then Unknown
        else if Reports(conditions, "NamespaceContentRemaining") then Slow
        else Dead
  {
    ConditionExact(conditions, DISCOVERY_FAILURE);
    ConditionExact(conditions, PARSING_FAILURE);
    ConditionExact(conditions, FINALIZERS_REMAINING);
    ConditionExact(conditions, CONTENT_FAILURE);
    ConditionExact(conditions, CONTENT_REMAINING);
    DownGroupExact(snap.apiServices);
    hide Reports, ConditionTrue, DownGroup;
    assert forall i, j :: FirstDown(snap.apiServices, i) && FirstDown(snap.apiServices, j) ==> i == j;
  }

  /** DEAD is sound and complete for its proof, in both modes: score mode never
      reaches DEAD except for the namespace finalizer. */
  lemma DeadExact(mode: Mode, obj: StuckObject, finalizer: string, snap: Snapshot)
    ensures Judge(mode, obj, finalizer, snap).state == Dead <==>
      if obj.ref.gvr.resource == "namespaces" && finalizer == "kubernetes" then NamespaceProof(obj.conditions, snap)
      else mode == StrictMode && OwnerGone(finalizer, snap)
  {
    if obj.ref.IsNamespace() && finalizer == KUBERNETES {
      NamespaceDeadExact(obj.conditions, snap);
    } else {
      OwnerDeadExact(finalizer, snap);
      OneSignal(Map(finalizer, snap), snap);
    }
  }

  lemma NamespaceDeadExact(conditions: seq<Condition>, snap: Snapshot)
    ensures NamespaceState(conditions, snap) == Dead <==> NamespaceProof(conditions, snap)
  {
    NamespaceStateExact(conditions, snap);
    hide Reports, NamespaceState;
    assert forall i, j :: FirstDown(snap.apiServices, i) && FirstDown(snap.apiServices, j) ==> i == j;
  }

  /** Safe to clear is what is DEAD, and nothing else. */
  lemma SafeExact(mode: Mode, obj: StuckObject, finalizer: string, snap: Snapshot)
    ensures Judge(mode, obj, finalizer, snap).safeToClear <==> Judge(mode, obj, finalizer, snap).state == Dead
  {}

  /** The probe yields one signal of weight 40 at most: below the threshold. */
  lemma OneSignal(owner: OwnerCandidate, snap: Snapshot)
    ensures ScoreOf(For(owner, snap)) < SCORE_THRESHOLD
    ensures owner.kind != BuiltinOwner ==> (HasClass(For(owner, snap), DeadHard) <==>
      owner.group != "" && ApiServices in snap.readable && ProbeGroup(owner.group, snap.apiServices).Some?)
    ensures owner.kind == BuiltinOwner ==> HasClass(For(owner, snap), Live)
    ensures owner.kind != BuiltinOwner ==> !HasClass(For(owner, snap), Live) && !UnreadableLiveness(For(owner, snap))
  {
    ProbeExact(owner.group, snap.apiServices);
    var ev := For(owner, snap);
    assert ev == [] || ev == [ev[0]];
    if ev != [] {
      assert ev[0] in ev;
      assert ev[1..] == [];
    }
  }

  lemma OwnerDeadExact(finalizer: string, snap: Snapshot)
    ensures Strict(Map(finalizer, snap), For(Map(finalizer, snap), snap)).state == Dead <==> OwnerGone(finalizer, snap)
  {
    var owner := Map(finalizer, snap);
    OneSignal(owner, snap);
    assert BUILTINS == CORE_FINALIZERS;
    if finalizer !in BUILTINS {
      AttributedExact(finalizer, snap);
      ProbeExact(owner.group, snap.apiServices);
      assert owner.kind == UnknownOwner <==> owner.group == "";
    }
    hide Attributed, Decisive;
  }

  lemma AttributedExact(finalizer: string, snap: Snapshot)
    requires finalizer !in CORE_FINALIZERS
    ensures forall g :: Attributed(finalizer, snap, g) <==> g != "" && Map(finalizer, snap).group == g
  {
    var left := DomainOf(finalizer);
    FirstMatchExact(snap.crds, finalizer);
    FirstMatchExact(Groups(snap.apiServices), finalizer);
    forall g ensures Concerns(finalizer, g) <==> GroupMatches(g, left) {
      ConcernsExact(finalizer, g);
    }
    assert left == "" ==> forall g :: !GroupMatches(g, left);
    hide Concerns, DomainOf;
    assert forall g :: GroupMatches(g, left) ==> g != "";
    hide GroupMatches;
  }

  lemma {:induction false} FirstMatchExact(groups: seq<string>, finalizer: string)
    ensures forall g :: FirstMatch(groups, DomainOf(finalizer)) == Some(g) <==>
      exists m :: FirstAt(groups, finalizer, m) && groups[m] == g
  {
    if groups != [] {
      var rest := groups[1..];
      FirstMatchExact(rest, finalizer);
      ConcernsExact(finalizer, groups[0]);
      hide Concerns, GroupMatches, DomainOf;
      if Concerns(finalizer, groups[0]) {
        assert FirstAt(groups, finalizer, 0);
      } else {
        forall m | FirstAt(rest, finalizer, m) ensures FirstAt(groups, finalizer, m + 1) {
          assert forall j | 0 < j < m + 1 :: groups[j] == rest[j - 1];
        }
        forall m | FirstAt(groups, finalizer, m) ensures m > 0 && FirstAt(rest, finalizer, m - 1) {
          assert forall j | 0 <= j < m - 1 :: rest[j] == groups[j + 1];
        }
      }
    }
  }

  lemma {:induction false} DownGroupExact(services: seq<ApiService>)
    ensures DownGroup(services).Some? <==> exists i :: FirstDown(services, i)
    ensures forall i | FirstDown(services, i) :: DownGroup(services) == Some(services[i].group)
  {
    if services != [] {
      DownGroupExact(services[1..]);
      UnavailableExact(services[0]);
      hide SaysUnavailable, Unavailable;
      if SaysUnavailable(services[0]) {
        assert FirstDown(services, 0);
      } else {
        forall i | FirstDown(services[1..], i) ensures FirstDown(services, i + 1) {
          assert forall j | 0 < j < i + 1 :: services[j] == services[1..][j - 1];
        }
        forall i | FirstDown(services, i) ensures i > 0 && FirstDown(services[1..], i - 1) {
          assert forall j | 0 <= j < i - 1 :: services[1..][j] == services[j + 1];
        }
      }
    }
  }

  /** An unavailable APIService of this group speaks against the finalizer's owner. */
  ghost predicate Implicates(ref: Ref, finalizer: string, group: string) {
    || (ref.gvr.resource == "namespaces" && finalizer == "kubernetes")
    || (finalizer !in CORE_FINALIZERS && Concerns(finalizer, group))
  }

  /** Every DEAD verdict, in either mode, is witnessed by an aggregated APIService
      whose first Available condition reads False in a readable source. */
  lemma DeadIsWitnessed(mode: Mode, obj: StuckObject, finalizer: string, snap: Snapshot)
    requires Judge(mode, obj, finalizer, snap).state == Dead
    ensures ApiServices in snap.readable
    ensures exists a | a in snap.apiServices :: SaysUnavailable(a) && Implicates(obj.ref, finalizer, a.group)
  {
    DeadExact(mode, obj, finalizer, snap);
    hide SaysUnavailable, Concerns, Reports;
    if obj.ref.gvr.resource == "namespaces" && finalizer == "kubernetes" {
      var i :| FirstDown(snap.apiServices, i) && snap.apiServices[i].group !in snap.crds;
      assert snap.apiServices[i] in snap.apiServices;
    } else {
      var g, i :| Attributed(finalizer, snap, g) && Decisive(g, snap.apiServices, i);
      assert snap.apiServices[i] in snap.apiServices;
    }
  }

  /** A score-mode target is DEAD only if it is a namespace all of whose
      finalizers are `kubernetes`. */
  lemma ScoreModeClearsOnlyNamespaces(obj: StuckObject, snap: Snapshot)
    requires CombinedState(JudgeAll(ScoreMode, obj, snap)) == Dead
    ensures obj.ref.IsNamespace() && forall f | f in obj.AllFinalizers() :: f == KUBERNETES
  {
    TargetDeadExact(ScoreMode, obj, snap);
    forall f | f in obj.AllFinalizers() ensures obj.ref.IsNamespace() && f == KUBERNETES {
      DeadExact(ScoreMode, obj, f, snap);
    }
    assert obj.AllFinalizers()[0] in obj.AllFinalizers();
  }

  /** Cannot-probe is not dead for the APIService source. */
  lemma UnreadableServicesVeto(mode: Mode, obj: StuckObject, snap: Snapshot)
    requires ApiServices !in snap.readable
    ensures forall f :: Judge(mode, obj, f, snap).state != Dead
    ensures CombinedState(JudgeAll(mode, obj, snap)) != Dead
  {
    forall f ensures Judge(mode, obj, f, snap).state != Dead {
      DeadExact(mode, obj, f, snap);
    }
    TargetDeadExact(mode, obj, snap);
    if obj.AllFinalizers() != [] {
      assert obj.AllFinalizers()[0] in obj.AllFinalizers();
    }
  }

  /** Cannot-probe is not dead says nothing for workloads, pods and endpoint slices: no
      verdict depends on whether they could be read. */
  lemma LivenessSourcesNeverCount(mode: Mode, obj: StuckObject, finalizer: string, snap: Snapshot)
    ensures
      var unread := snap.(readable := snap.readable - {Workloads, Pods, EndpointSlices});
      Judge(mode, obj, finalizer, unread).state == Dead <==> Judge(mode, obj, finalizer, snap).state == Dead
  {
    var unread := snap.(readable := snap.readable - {Workloads, Pods, EndpointSlices});
    DeadExact(mode, obj, finalizer, unread);
    DeadExact(mode, obj, finalizer, snap);
    hide Judge;
    assert forall g :: Attributed(finalizer, unread, g) <==> Attributed(finalizer, snap, g);
  }

  /** The snapshot the same reads give when the CRD list fails. */
  function WithoutCrds(snap: Snapshot): Snapshot {
    snap.(crds := [], readable := snap.readable - {Crds})
  }

  /** Cannot-probe is not dead fails for the CRD source: a finalizer that is DEAD
      when the CRD read fails is DEAD on the full snapshot exactly when no CRD group
      takes the attribution away, or the one that does is down as well. */
  lemma LostCrdReadExact(obj: StuckObject, finalizer: string, snap: Snapshot)
    requires !(obj.ref.IsNamespace() && finalizer == KUBERNETES)
    requires Judge(StrictMode, obj, finalizer, WithoutCrds(snap)).state == Dead
    ensures Judge(StrictMode, obj, finalizer, snap).state == Dead <==>
      forall m | FirstAt(snap.crds, finalizer, m) :: exists i :: Decisive(snap.crds[m], snap.apiServices, i)
  {
    DeadExact(StrictMode, obj, finalizer, WithoutCrds(snap));
    DeadExact(StrictMode, obj, finalizer, snap);
    AttributedExact(finalizer, WithoutCrds(snap));
    AttributedExact(finalizer, snap);
    FirstMatchExact(snap.crds, finalizer);
  }

  /** An aggregated APIService of the group that is unavailable. */
  function DownService(group: string): (a: ApiService)
    ensures SaysUnavailable(a) && a.group == group
  {
    var a := ApiService("s", group, true, [Condition("Available", "False")]);
    assert a.conditions[0].kind == "Available";
    a
  }

  lemma ShadowedFinalizer()
    ensures "x.b.c" !in CORE_FINALIZERS && DomainOf("x.b.c") == "x.b.c" && GroupMatches("b.c", "x.b.c")
    ensures Concerns("x.b.c", "x.b.c")
    ensures "b.c" != "x.b.c" && Groups([DownService("x.b.c")]) == ["x.b.c"]
  {
    assert forall b | b in CORE_FINALIZERS :: |b| != 5;
    assert "." + "b.c" == ".b.c" == "x.b.c"[1..];
    assert |"x.b.c"| == 5;
    ConcernsExact("x.b.c", "x.b.c");
    hide Concerns;
  }

  /** A finalizer in a CRD's group, while an APIService serves a narrower group that is down. */
  lemma LostCrdReadTurnsUnknownIntoDead(obj: StuckObject, snap: Snapshot)
    requires !obj.ref.IsNamespace()
    requires snap.apiServices == [DownService("x.b.c")] && snap.crds == ["b.c"] && ApiServices in snap.readable
    ensures Judge(StrictMode, obj, "x.b.c", snap).state == Unknown
    ensures Judge(StrictMode, obj, "x.b.c", WithoutCrds(snap)).state == Dead
  {
    ShadowDead(obj, WithoutCrds(snap));
    ShadowedFinalizer();
    hide DomainOf, GroupMatches, Groups, SaysUnavailable, DownService, Concerns;
    assert BUILTINS == CORE_FINALIZERS;
    assert Map("x.b.c", snap) == OwnerCandidate("x.b.c", CrdOwner, "b.c", 50);
    assert ProbeGroup("b.c", snap.apiServices) == None;
  }

  lemma ShadowDead(obj: StuckObject, snap: Snapshot)
    requires !obj.ref.IsNamespace()
    requires snap.apiServices == [DownService("x.b.c")] && snap.crds == [] && ApiServices in snap.readable
    ensures Judge(StrictMode, obj, "x.b.c", snap).state == Dead
  {
    ShadowedFinalizer();
    DeadExact(StrictMode, obj, "x.b.c", snap);
    hide Concerns, Judge, SaysUnavailable, DownService;
    assert FirstAt(Groups(snap.apiServices), "x.b.c", 0) && Decisive("x.b.c", snap.apiServices, 0);
  }

  /** The probe asks by group alone: a CRD-owned finalizer is DEAD when an aggregated
      APIService of the same group is down. */
  lemma CrdOwnedCanBeDead(obj: StuckObject, snap: Snapshot)
    requires !obj.ref.IsNamespace()
    requires snap.apiServices == [DownService("x.b.c")] && snap.crds == ["x.b.c"] && ApiServices in snap.readable
    ensures Map("x.b.c", snap).kind == CrdOwner && Judge(StrictMode, obj, "x.b.c", snap).state == Dead
  {
    ShadowedFinalizer();
    DeadExact(StrictMode, obj, "x.b.c", snap);
    OwnerKindExact("x.b.c", snap);
    hide Concerns, Judge, SaysUnavailable, DownService, Map;
    assert FirstAt(snap.crds, "x.b.c", 0) && Decisive("x.b.c", snap.apiServices, 0);
  }
}
