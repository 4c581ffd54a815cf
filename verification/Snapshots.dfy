/** The reads behind one diagnosis, each at its own instant. */
module Snapshots {
  import opened Lists
  import opened Model
  import opened Terms
  import opened Cluster

  datatype Times = Times(targets: seq<Instant>, services: Instant, crds: Instant, validating: Instant,
                         mutating: Instant, workloads: Instant, pods: Instant, slices: Instant)

  function ToStuckObject(ref: Ref, o: Obj): StuckObject {
    StuckObject(ref, o.kind, o.apiVersion, o.deleting, o.metaFinalizers, o.specFinalizers, o.ownerRefs,
                if ref.IsNamespace() then o.conditions else [], o.version)
  }

  function Found(past: seq<World>, refs: seq<Ref>, at: seq<Instant>): seq<StuckObject>
    requires |refs| == |at|
  {
    if refs == [] then []
    else
      var n := |refs| - 1;
      Found(past, refs[..n], at[..n])
      + match Lookup(Answer(past, at[n]), refs[n]) case Some(o) => [ToStuckObject(refs[n], o)] case None => []
  }

  predicate AllFound(past: seq<World>, refs: seq<Ref>, at: seq<Instant>)
    requires |refs| == |at|
  {
    forall i | 0 <= i < |refs| :: Lookup(Answer(past, at[i]), refs[i]).Some?
  }

  function If(c: bool, s: Source): set<Source> {
    if c then {s} else {}
  }

  /** The snapshot those reads assemble. */
  function Snap(past: seq<World>, refs: seq<Ref>, t: Times): Snapshot
    requires |refs| == |t.targets|
  {
    Snapshot(Found(past, refs, t.targets),
             Answer(past, t.services).apiServices, Answer(past, t.crds).crds,
             Answer(past, t.validating).validating, Answer(past, t.mutating).mutating,
             Answer(past, t.slices).slices,
             If(AllFound(past, refs, t.targets), Targets) + If(!t.services.failed, ApiServices)
               + If(!t.crds.failed, Crds)
             + If(!t.validating.failed, Webhooks) + If(!t.workloads.failed, Workloads)
             + If(!t.pods.failed, Pods) + If(!t.slices.failed, EndpointSlices))
  }

  /** The reads happen one after the other, from `lo` on and before `hi`. */
  predicate InOrder(lo: nat, t: Times, hi: nat) {
    && (forall i | 0 <= i < |t.targets| :: lo <= t.targets[i].when < t.services.when)
    && (forall i, j | 0 <= i < j < |t.targets| :: t.targets[i].when < t.targets[j].when)
    && lo <= t.services.when < t.crds.when < t.validating.when < t.mutating.when < t.workloads.when
    && t.workloads.when < t.pods.when < t.slices.when < hi
  }

  /** The requests for the targets, as they were answered. */
  function GetReplies(refs: seq<Ref>, at: seq<Instant>): seq<Reply> {
    if refs == [] || at == [] then []
    else GetReplies(refs[..|refs| - 1], at[..|at| - 1]) + [Reply(GetOf(refs[|refs| - 1]), at[|at| - 1])]
  }

  /** Every request behind a snapshot, as it was answered. */
  function SnapReplies(refs: seq<Ref>, t: Times): seq<Reply> {
    GetReplies(refs, t.targets)
    + [Reply(EvidenceOf(ApiServices), t.services), Reply(EvidenceOf(Crds), t.crds),
       Reply(EvidenceOf(Webhooks), t.validating), Reply(EvidenceOf(Webhooks), t.mutating),
       Reply(EvidenceOf(Workloads), t.workloads), Reply(EvidenceOf(Pods), t.pods),
       Reply(EvidenceOf(EndpointSlices), t.slices)]
  }

  lemma {:induction false} FoundKept(past: seq<World>, later: seq<World>, refs: seq<Ref>, at: seq<Instant>)
    requires past <= later && |refs| == |at| && forall i | 0 <= i < |at| :: at[i].when < |past|
    ensures Found(later, refs, at) == Found(past, refs, at)
    ensures AllFound(later, refs, at) == AllFound(past, refs, at)
  {
    hide ToStuckObject;
    if refs != [] {
      FoundKept(past, later, refs[..|refs| - 1], at[..|at| - 1]);
    }
    assert forall i | 0 <= i < |at| :: Answer(later, at[i]) == Answer(past, at[i]);
  }

  /** The read number `m` found the object that `x` was taken from. */
  predicate ReadAs(past: seq<World>, refs: seq<Ref>, at: seq<Instant>, m: nat, x: StuckObject) {
    && m < |refs| && m < |at| && refs[m] == x.ref && !at[m].failed && at[m].when < |past|
    && KeyOf(x.ref) in past[at[m].when].objects && TakenFrom(x, past[at[m].when].objects[KeyOf(x.ref)])
  }

  /** The read number `m` found an object. */
  predicate ReadFinds(past: seq<World>, refs: seq<Ref>, at: seq<Instant>, m: nat) {
    && m < |refs| && m < |at| && !at[m].failed && at[m].when < |past|
    && KeyOf(refs[m]) in past[at[m].when].objects
  }

  lemma ReadAsLast(past: seq<World>, refs: seq<Ref>, at: seq<Instant>) returns (last: seq<StuckObject>)
    requires |refs| == |at| != 0
    ensures Found(past, refs, at) == Found(past, refs[..|refs| - 1], at[..|at| - 1]) + last
    ensures last != [] <==> ReadFinds(past, refs, at, |refs| - 1)
    ensures forall x | x in last :: ReadAs(past, refs, at, |refs| - 1, x)
  {
    var n := |refs| - 1;
    last := match Lookup(Answer(past, at[n]), refs[n]) case Some(o) => [ToStuckObject(refs[n], o)] case None => [];
  }

  lemma ReadAsPrefix(past: seq<World>, refs: seq<Ref>, at: seq<Instant>)
    requires |refs| == |at| != 0
    ensures
      var n := |refs| - 1;
      forall m: nat, x :: m < n ==> (ReadAs(past, refs[..n], at[..n], m, x) <==> ReadAs(past, refs, at, m, x))
    ensures
      var n := |refs| - 1;
      forall m: nat :: m < n ==> (ReadFinds(past, refs[..n], at[..n], m) <==> ReadFinds(past, refs, at, m))
  {
    hide TakenFrom;
  }

  /** Every target of a snapshot was taken from the object its read found, and no read
      that found one is missing. */
  lemma {:induction false} TargetsRead(past: seq<World>, refs: seq<Ref>, at: seq<Instant>)
    requires |refs| == |at|
    ensures forall x | x in Found(past, refs, at) :: exists m: nat :: ReadAs(past, refs, at, m, x)
    ensures forall m: nat | ReadFinds(past, refs, at, m) :: exists x | x in Found(past, refs, at) ::
      ReadAs(past, refs, at, m, x)
  {
    if refs != [] {
      var n := |refs| - 1;
      TargetsRead(past, refs[..n], at[..n]);
      var last := ReadAsLast(past, refs, at);
      ReadAsPrefix(past, refs, at);
      ReadInRange(past, refs, at);
      ReadInRange(past, refs[..n], at[..n]);
      hide ReadAs, ReadFinds, Found;
      forall x | x in Found(past, refs, at) ensures exists m: nat :: ReadAs(past, refs, at, m, x) {
        if x in Found(past, refs[..n], at[..n]) {
          var m: nat :| ReadAs(past, refs[..n], at[..n], m, x);
          assert ReadAs(past, refs, at, m, x);
        } else {
          assert x in last;
        }
      }
      forall m: nat | ReadFinds(past, refs, at, m)
        ensures exists x | x in Found(past, refs, at) :: ReadAs(past, refs, at, m, x) {
        if m < n {
          assert ReadFinds(past, refs[..n], at[..n], m);
          var x :| x in Found(past, refs[..n], at[..n]) && ReadAs(past, refs[..n], at[..n], m, x);
          assert ReadAs(past, refs, at, m, x);
        } else {
          assert m == n && last[0] in last;
        }
      }
    }
  }

  lemma ReadInRange(past: seq<World>, refs: seq<Ref>, at: seq<Instant>)
    ensures forall m: nat, x :: ReadAs(past, refs, at, m, x) ==> m < |refs|
    ensures forall m: nat :: ReadFinds(past, refs, at, m) ==> m < |refs|
  {}

  /** The rest of a snapshot: each list as its world had it, or nothing from a failed
      read, and the sources that were read. */
  lemma SnapExact(past: seq<World>, refs: seq<Ref>, t: Times)
    requires |refs| == |t.targets| && InOrder(0, t, |past|)
    ensures
      var s := Snap(past, refs, t);
      && s.apiServices == (if t.services.failed then [] else past[t.services.when].apiServices)
      && s.crds == (if t.crds.failed then [] else past[t.crds.when].crds)
      && s.validating == (if t.validating.failed then [] else past[t.validating.when].validating)
      && s.mutating == (if t.mutating.failed then [] else past[t.mutating.when].mutating)
      && s.slices == (if t.slices.failed then [] else past[t.slices.when].slices)
      && (ApiServices in s.readable <==> !t.services.failed) && (Crds in s.readable <==> !t.crds.failed)
      && (EndpointSlices in s.readable <==> !t.slices.failed)
  {
    hide Found, AllFound;
  }

  /** The other sources that were read. */
  lemma SnapReadable(past: seq<World>, refs: seq<Ref>, t: Times)
    requires |refs| == |t.targets| && InOrder(0, t, |past|)
    ensures
      var s := Snap(past, refs, t);
      && (Webhooks in s.readable <==> !t.validating.failed) && (Workloads in s.readable <==> !t.workloads.failed)
      && (Pods in s.readable <==> !t.pods.failed)
      && (Targets in s.readable <==> forall m: nat | m < |refs| :: ReadFinds(past, refs, t.targets, m))
  {
    TargetsReadable(past, refs, t.targets);
    hide Found, AllFound, ReadFinds, Answer;
  }

  lemma TargetsReadable(past: seq<World>, refs: seq<Ref>, at: seq<Instant>)
    requires |refs| == |at| && forall i | 0 <= i < |at| :: at[i].when < |past|
    ensures AllFound(past, refs, at) <==> forall m: nat | m < |refs| :: ReadFinds(past, refs, at, m)
  {
    forall m: nat | m < |refs| ensures ReadFinds(past, refs, at, m) <==> Lookup(Answer(past, at[m]), refs[m]).Some? {}
  }

  /** A snapshot does not change as history goes on. */
  lemma SnapKept(past: seq<World>, later: seq<World>, refs: seq<Ref>, t: Times)
    requires past <= later && |refs| == |t.targets| && InOrder(0, t, |past|)
    ensures Snap(later, refs, t) == Snap(past, refs, t)
  {
    FoundKept(past, later, refs, t.targets);
  }

  lemma FoundOne(past: seq<World>, refs: seq<Ref>, at: seq<Instant>, ref: Ref, when: Instant)
    requires |refs| == |at|
    ensures Found(past, refs + [ref], at + [when]) == Found(past, refs, at)
      + match Lookup(Answer(past, when), ref) case Some(o) => [ToStuckObject(ref, o)] case None => []
  {
    AppendTake(refs, ref);
    AppendTake(at, when);
    hide Lookup, ToStuckObject, Answer;
  }

  lemma AllFoundOne(past: seq<World>, refs: seq<Ref>, at: seq<Instant>, ref: Ref, when: Instant)
    requires |refs| == |at|
    ensures AllFound(past, refs + [ref], at + [when]) <==>
      AllFound(past, refs, at) && Lookup(Answer(past, when), ref).Some?
  {
    hide Lookup, Answer;
    var more, all := refs + [ref], at + [when];
    assert more[|refs|] == ref && all[|refs|] == when;
    if AllFound(past, more, all) {
      forall i | 0 <= i < |refs| ensures Lookup(Answer(past, at[i]), refs[i]).Some? {
        assert more[i] == refs[i] && all[i] == at[i];
      }
    }
  }

  method ReadTargets(c: Client, refs: seq<Ref>)
    returns (targets: seq<StuckObject>, missed: bool, ghost at: seq<Instant>)
    requires c.Valid()
    modifies c
    ensures c.Valid() && c.log == old(c.log) && old(c.past) <= c.past
    ensures |at| == |refs| && c.replies == old(c.replies) + GetReplies(refs, at)
    ensures targets == Found(c.past, refs, at)
    ensures missed <==> !AllFound(c.past, refs, at)
    ensures forall k | 0 <= k < |at| :: |old(c.past)| <= at[k].when < |c.past|
    ensures forall j, k | 0 <= j < k < |at| :: at[j].when < at[k].when
  {
    hide History, ToStuckObject, Lookup, Found, AllFound, Answer, GetReplies;
    targets, missed, at := [], false, [];
    NoneFound(c.past);
    for i := 0 to |refs|
      invariant c.Valid() && c.log == old(c.log) && old(c.past) <= c.past
      invariant |at| == i && c.replies == old(c.replies) + GetReplies(refs[..i], at)
      invariant targets == Found(c.past, refs[..i], at)
      invariant missed <==> !AllFound(c.past, refs[..i], at)
      invariant forall k | 0 <= k < i :: |old(c.past)| <= at[k].when < |c.past|
      invariant forall j, k | 0 <= j < k < i :: at[j].when < at[k].when
    {
      ghost var before := c.past;
      var o, when := c.Get(refs[i]);
      TakeStep(refs, i);
      FoundKept(before, c.past, refs[..i], at);
      FoundOne(c.past, refs[..i], at, refs[i], when);
      AllFoundOne(c.past, refs[..i], at, refs[i], when);
      if o.None? {
        missed := true;
      } else {
        targets := targets + [ToStuckObject(refs[i], o.value)];
      }
      GetOne(refs[..i], at, refs[i], when);
      at := at + [when];
    }
    assert refs[..|refs|] == refs;
  }

  lemma NoneFound(past: seq<World>)
    ensures Found(past, [], []) == [] && AllFound(past, [], []) && GetReplies([], []) == []
  {}

  lemma GetOne(refs: seq<Ref>, at: seq<Instant>, ref: Ref, when: Instant)
    requires |refs| == |at|
    ensures GetReplies(refs + [ref], at + [when]) == GetReplies(refs, at) + [Reply(GetOf(ref), when)]
  {
    AppendTake(refs, ref);
    AppendTake(at, when);
  }

  /** One evidence read: its answer, and whether the source may be relied on. */
  method ReadSource(c: Client, readable: set<Source>, source: Source)
    returns (answer: World, status: set<Source>, ghost at: Instant)
    requires c.Valid()
    modifies c
    ensures c.Valid() && c.log == old(c.log) && c.replies == old(c.replies) + [Reply(EvidenceOf(source), at)]
    ensures old(c.past) <= c.past && at.when == |old(c.past)| == |c.past| - 1
    ensures answer == Answer(c.past, at)
    ensures status == readable + If(!at.failed, source)
  {
    var failed;
    answer, failed, at := c.Ask(EvidenceOf(source));
    status := readable + If(!failed, source);
  }

  /** The last three sources: workloads, pods and endpoint slices. */
  method ReadBacking(c: Client, readable: set<Source>)
    returns (slices: World, status: set<Source>, ghost t5: Instant, ghost t6: Instant, ghost t7: Instant)
    requires c.Valid()
    modifies c
    ensures c.Valid() && c.log == old(c.log) && old(c.past) < c.past
    ensures c.replies == old(c.replies)
      + [Reply(EvidenceOf(Workloads), t5), Reply(EvidenceOf(Pods), t6), Reply(EvidenceOf(EndpointSlices), t7)]
    ensures |old(c.past)| <= t5.when < t6.when < t7.when < |c.past|
    ensures slices == Answer(c.past, t7)
    ensures status == readable + If(!t5.failed, Workloads) + If(!t6.failed, Pods) + If(!t7.failed, EndpointSlices)
  {
    hide History, If;
    var _, r4, i5 := ReadSource(c, readable, Workloads);
    var _, r5, i6 := ReadSource(c, r4, Pods);
    slices, status, t7 := ReadSource(c, r5, EndpointSlices);
    t5, t6 := i5, i6;
  }

  method Build(c: Client, refs: seq<Ref>) returns (s: Snapshot, ghost t: Times)
    requires c.Valid()
    modifies c
    ensures c.Valid() && c.log == old(c.log) && old(c.past) < c.past
    ensures |refs| == |t.targets| && InOrder(|old(c.past)|, t, |c.past|)
    ensures c.replies == old(c.replies) + SnapReplies(refs, t)
    ensures s == Snap(c.past, refs, t)
  {
    hide History, Found, AllFound, If, GetReplies;
    var targets, missed, at := ReadTargets(c, refs);
    ghost var before := c.past;
    var r0 := If(!missed, Targets);
    var services, r1, t1 := ReadSource(c, r0, ApiServices);
    var crds, r2, t2 := ReadSource(c, r1, Crds);
    var validating, r3, t3 := ReadSource(c, r2, Webhooks);
    var mutating, _, t4 := c.Ask(EvidenceOf(Webhooks));
    var slices, readable, t5, t6, t7 := ReadBacking(c, r3);
    t := Times(at, t1, t2, t3, t4, t5, t6, t7);
    s := Snapshot(targets, services.apiServices, crds.crds, validating.validating, mutating.mutating,
                  slices.slices, readable);
    FoundKept(before, c.past, refs, at);
  }
}
