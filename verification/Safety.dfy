/** What holds of every execution, whatever other writers do between the calls. */
module Safety {
  import opened Model
  import opened Terms
  import opened Diagnosis
  import opened Plans
  import opened Cluster
  import opened Snapshots
  import opened Execution

  /* No lost update */

  /** From `w` to `v`, `action` took its finalizer (or marked its orphan) and
      nothing else changed: the rest of the list held at that instant stays, in
      order, and so does every other object. */
  ghost predicate OnlyPlanned(w: World, v: World, action: Action) {
    var k := KeyOf(action.target);
    && k in w.objects
    && var o := w.objects[k];
       var meta := if action.kind == ClearFinalizer then Without(o.metaFinalizers, action.finalizer)
       else o.metaFinalizers;
       var spec := if action.kind == FinalizeNamespace then Without(o.specFinalizers, action.finalizer)
       else o.specFinalizers;
       var deleting := o.deleting || action.kind == CleanOrphan;
       && v == w.(revision := v.revision, objects := v.objects)
       && (forall j | j != k ::
         (j in v.objects <==> j in w.objects) && (j in w.objects ==> v.objects[j] == w.objects[j]))
       && (k !in v.objects <==> deleting && meta == [] && (CoreNamespace(action.target) ==> spec == []))
       && (k in v.objects ==>
         v.objects[k] ==
           o.(version := v.objects[k].version, deleting := deleting, metaFinalizers := meta, specFinalizers := spec))
  }

  /** From `w` to `v`, the spec finalizers of the core namespace of the target's name
      were replaced by `left`, and nothing else changed: the target was not touched. */
  ghost predicate Misdirected(w: World, v: World, action: Action, left: seq<string>) {
    var k := NamespaceKey(action.target.name);
    && k in w.objects && k != KeyOf(action.target)
    && var o := w.objects[k];
       && v == w.(revision := v.revision, objects := v.objects)
       && (forall j | j != k ::
         (j in v.objects <==> j in w.objects) && (j in w.objects ==> v.objects[j] == w.objects[j]))
       && (k !in v.objects <==> o.deleting && o.metaFinalizers == [] && left == [])
       && (k in v.objects ==> v.objects[k] == o.(version := v.objects[k].version, specFinalizers := left))
  }

  /** What a landed write did at its instant. */
  ghost predicate Effect(past: seq<World>, a: Attempt) {
    && Landed(a) && a.write + 1 < |past|
    && if WellAddressed(a.action) then OnlyPlanned(past[a.write], past[a.write + 1], a.action)
       else Misdirected(past[a.write], past[a.write + 1], a.action,
         Without(a.seen.value.specFinalizers, a.action.finalizer))
  }

  /** No update is lost, except that the finalize request for a resource called
      `namespaces` in another group goes to the core namespace of that name. */
  lemma NoLostUpdate(past: seq<World>, target: Ref, mode: Mode, a: Attempt)
    requires History(past) && Recorded(past, target, mode, a) && Landed(a)
    ensures Effect(past, a)
  {
    hide OnlyPlanned, Misdirected, Recorded, Landed, History, WellAddressed;
    if WellAddressed(a.action) {
      AddressedEffect(past, target, mode, a);
    } else {
      MisdirectedEffect(past, target, mode, a);
    }
  }

  lemma AddressedEffect(past: seq<World>, target: Ref, mode: Mode, a: Attempt)
    requires History(past) && Recorded(past, target, mode, a) && Landed(a) && WellAddressed(a.action)
    ensures a.write + 1 < |past| && OnlyPlanned(past[a.write], past[a.write + 1], a.action)
  {
    hide StateSeen;
    var w0, w, o := past[a.cur.when], past[a.write], a.seen.value;
    var op := OpOf(a.action, o);
    assert Versioned(w0) && Evolves(w0, w);
    assert Touched(op) == KeyOf(a.action.target);
    hide History, Versioned;
    SameVersionSameObject(w0, w, Touched(op), o.version);
  }

  lemma MisdirectedEffect(past: seq<World>, target: Ref, mode: Mode, a: Attempt)
    requires Recorded(past, target, mode, a) && Landed(a) && !WellAddressed(a.action)
    ensures a.write + 1 < |past|
    ensures Misdirected(past[a.write], past[a.write + 1], a.action,
      Without(a.seen.value.specFinalizers, a.action.finalizer))
  {
    hide StateSeen, InOrder, Without;
  }

  /** For a target that is there with the finalizer to take, the reference decides. */
  lemma NoLostUpdateExact(past: seq<World>, target: Ref, mode: Mode, a: Attempt)
    requires History(past) && Recorded(past, target, mode, a) && Landed(a)
    requires a.action.kind == FinalizeNamespace ==>
      && KeyOf(a.action.target) in past[a.write].objects
      && a.action.finalizer in past[a.write].objects[KeyOf(a.action.target)].specFinalizers
    ensures OnlyPlanned(past[a.write], past[a.write + 1], a.action) <==> WellAddressed(a.action)
  {
    hide Recorded, History;
    NoLostUpdate(past, target, mode, a);
  }

  /** Over a whole run, no finalizer outside the plan is ever taken from a target
      that the requests reach. */
  lemma RunTakesOnlyPlanned(past: seq<World>, r: Run)
    requires History(past) && Ran(past, r)
    ensures forall k | 0 <= k < |r.attempts| && Landed(r.attempts[k]) ::
      Effect(past, r.attempts[k]) && r.attempts[k].action == r.actions[k]
  {
    hide Recorded, Effect, History;
    forall k | 0 <= k < |r.attempts| && Landed(r.attempts[k]) ensures Effect(past, r.attempts[k]) {
      NoLostUpdate(past, r.target, r.mode, r.attempts[k]);
    }
  }

  /* Proof before every write */

  /** The parent that re-verification read. */
  function Parent(past: seq<World>, target: Ref, a: Attempt): Option<Obj>
    requires |a.look.targets| == 1
  {
    Lookup(Answer(past, a.look.targets[0]), target)
  }

  /** A write lands only after fresh reads, since the attempt began, on which every
      finalizer of the parent is DEAD by an aggregated APIService that was down. */
  lemma LandedWasProven(past: seq<World>, target: Ref, mode: Mode, a: Attempt)
    requires Recorded(past, target, mode, a) && Landed(a)
    ensures a.begun <= a.look.targets[0].when < a.look.services.when < a.cur.when < a.write
    ensures Parent(past, target, a).Some?
    ensures Parent(past, target, a).value.metaFinalizers + Parent(past, target, a).value.specFinalizers != []
    ensures !a.look.services.failed && exists s | s in past[a.look.services.when].apiServices :: SaysUnavailable(s)
    ensures
      var parent := Parent(past, target, a).value;
      forall f | f in parent.metaFinalizers + parent.specFinalizers ::
        Judge(mode, ToStuckObject(target, parent), f, Snap(past, [target], a.look)).state == Dead
  {
    var s := Snap(past, [target], a.look);
    OneTarget(past, target, a.look);
    TargetDeadExact(mode, s.targets[0], s);
    var fins := s.targets[0].AllFinalizers();
    assert fins[0] in fins;
    DeadIsWitnessed(mode, s.targets[0], fins[0], s);
  }

  /** Cannot-probe is not dead: no write lands on a failed APIService read. */
  lemma UnreadableServicesStop(past: seq<World>, r: Run, k: nat)
    requires Ran(past, r) && k < |r.attempts| && r.attempts[k].look.services.failed
    ensures !Landed(r.attempts[k]) && !r.ok && k == r.completed == |r.attempts| - 1
  {
    var a := r.attempts[k];
    if Landed(a) {
      LandedWasProven(past, r.target, r.mode, a);
    }
  }

  /* The log */

  /** How many requests took effect. */
  function Effects(r: Run): nat
    requires r.completed <= |r.attempts| <= r.completed + 1
  {
    if |r.attempts| > r.completed && Landed(r.attempts[r.completed]) then r.completed + 1 else r.completed
  }

  /** The writes of a run are the plan's actions, in order, up to some point: one
      per completed action, and one more only if its reply was lost. */
  lemma LogIsPlanPrefix(past: seq<World>, r: Run)
    requires Ran(past, r)
    ensures |Writes(r.attempts)| == Effects(r) <= |r.actions|
    ensures Effects(r) > r.completed ==> r.attempts[r.completed].fault == LostReply
    ensures forall k | 0 <= k < Effects(r) ::
      && Landed(r.attempts[k]) && r.attempts[k].action == r.actions[k]
      && Writes(r.attempts)[k] == Write(OpOf(r.actions[k], r.attempts[k].seen.value), r.attempts[k].write)
  {
    hide Recorded;
    PrefixWrites(r.attempts, r.completed);
    if |r.attempts| > r.completed {
      assert r.attempts[..r.completed] == r.attempts[..|r.attempts| - 1];
    } else {
      assert r.attempts[..r.completed] == r.attempts;
    }
  }

  lemma {:induction false} PrefixWrites(attempts: seq<Attempt>, n: nat)
    requires n <= |attempts| && forall k | 0 <= k < n :: Landed(attempts[k])
    ensures |Writes(attempts[..n])| == n
    ensures forall k | 0 <= k < n ::
      && Landed(attempts[k])
      && Writes(attempts[..n])[k] == Write(OpOf(attempts[k].action, attempts[k].seen.value), attempts[k].write)
  {
    if n > 0 {
      PrefixWrites(attempts, n - 1);
      assert attempts[..n][..n - 1] == attempts[..n - 1];
    }
  }

  /** No finalizer is taken before every planned orphan is deleted, and the
      namespace is finalized after every metadata clear. */
  lemma OrderKept(past: seq<World>, r: Run, finalizers: seq<string>, orphans: seq<Ref>, j: nat, k: nat)
    requires Ran(past, r) && r.actions == Remediation(r.target, finalizers, orphans)
    requires j < |r.actions| && k < |r.attempts| && Rank(r.actions[j].kind) < Rank(r.actions[k].kind)
    ensures j < k && Done(r.attempts[j]) && r.attempts[j].ended <= r.attempts[k].begun
  {
    hide Recorded;
    RemediationOrdered(r.target, finalizers, orphans);
  }

  /** The audit line of a landed attempt tells the version its request was bound to. */
  lemma AuditExact(a: Attempt)
    requires Landed(a)
    ensures
      var op := OpOf(a.action, a.seen.value);
      AuditOf(a) == Audit(a.action, op.version)
  {}

  /* Recovery */

  /** The proof of DEAD, from the parent's conditions, the APIServices and the CRDs
      (None when their read failed), each read from a world of its own. */
  ghost predicate DeadAcross(ref: Ref, mode: Mode, f: string, conditions: seq<Condition>,
                             services: seq<ApiService>, crds: Option<seq<string>>)
  {
    var snap := Snapshot([], services, match crds case Some(gs) => gs case None => [], [], [], [],
                         {ApiServices} + If(crds.Some?, Crds));
    if ref.IsNamespace() && f == KUBERNETES then NamespaceProof(conditions, snap)
    else mode == StrictMode && OwnerGone(f, snap)
  }

  /** From instant `i` on, `f` is on the parent, and no three worlds that the reads of
      one re-verification can come from prove it DEAD. */
  ghost predicate Recovered(past: seq<World>, target: Ref, mode: Mode, f: string, i: nat) {
    forall p, s, c | i <= p < s < c && c + 5 < |past| :: AliveIn(past[p], past[s], past[c], target, mode, f)
  }

  /** If the parent is there in `p`, then with `f`, and `f` is not DEAD by the services of
      `s` with the CRDs of `c` or with none. */
  ghost predicate AliveIn(p: World, s: World, c: World, target: Ref, mode: Mode, f: string) {
    KeyOf(target) in p.objects ==>
      var o := p.objects[KeyOf(target)];
      && f in o.metaFinalizers + o.specFinalizers
      && !DeadAcross(target, mode, f, o.conditions, s.apiServices, Some(c.crds))
      && !DeadAcross(target, mode, f, o.conditions, s.apiServices, None)
  }

  /** Reading at the instants `t` does not show the parent without `f`, or `f` as DEAD. */
  ghost predicate ReadsAlive(past: seq<World>, target: Ref, mode: Mode, f: string, t: Times)
    requires |t.targets| == 1
  {
    var s := Snap(past, [target], t);
    s.targets != [] ==> f in s.targets[0].AllFinalizers() && Judge(mode, s.targets[0], f, s).state != Dead
  }

  lemma SameOwnerGone(f: string, s: Snapshot, t: Snapshot)
    requires s.apiServices == t.apiServices && s.crds == t.crds
      && (ApiServices in s.readable <==> ApiServices in t.readable)
    ensures OwnerGone(f, s) <==> OwnerGone(f, t)
  {
    assert forall g :: Attributed(f, s, g) <==> Attributed(f, t, g);
  }

  lemma JudgedAcross(past: seq<World>, target: Ref, mode: Mode, f: string, t: Times, o: Obj)
    requires |t.targets| == 1
    ensures
      var s := Snap(past, [target], t);
      Judge(mode, ToStuckObject(target, o), f, s).state == Dead <==>
        && !t.services.failed
        && DeadAcross(target, mode, f, o.conditions, Answer(past, t.services).apiServices,
                      if t.crds.failed then None else Some(Answer(past, t.crds).crds))
  {
    var s := Snap(past, [target], t);
    DeadExact(mode, ToStuckObject(target, o), f, s);
    var crds := if t.crds.failed then None else Some(Answer(past, t.crds).crds);
    var u := Snapshot([], s.apiServices, match crds case Some(gs) => gs case None => [], [], [], [],
                      {ApiServices} + If(crds.Some?, Crds));
    hide Judge, Attributed, Found, AllFound;
    assert u.crds == s.crds;
    if !t.services.failed {
      hide OwnerGone;
      SameOwnerGone(f, s, u);
    }
  }

  /** The world condition is exactly that no re-verification begun since can read DEAD. */
  lemma RecoveredExact(past: seq<World>, target: Ref, mode: Mode, f: string, i: nat)
    ensures Recovered(past, target, mode, f, i) <==>
      forall t: Times | |t.targets| == 1 && i <= t.targets[0].when && InOrder(0, t, |past|) ::
        ReadsAlive(past, target, mode, f, t)
  {
    hide ReadsAlive, AliveIn;
    if Recovered(past, target, mode, f, i) {
      forall t: Times | |t.targets| == 1 && i <= t.targets[0].when && InOrder(0, t, |past|)
        ensures ReadsAlive(past, target, mode, f, t)
      {
        RecoveredReadsAlive(past, target, mode, f, i, t);
      }
    }
    if forall t: Times | |t.targets| == 1 && i <= t.targets[0].when && InOrder(0, t, |past|) ::
      ReadsAlive(past, target, mode, f, t) {
      forall p, s, c | i <= p < s < c && c + 5 < |past| ensures AliveIn(past[p], past[s], past[c], target, mode, f) {
        assert ReadsAlive(past, target, mode, f, ReadAt(p, s, c, false));
        assert ReadsAlive(past, target, mode, f, ReadAt(p, s, c, true));
        AliveAt(past, target, mode, f, p, s, c);
      }
    }
  }

  /** Reads of the parent, the APIServices and the CRDs at these instants. */
  function ReadAt(p: nat, s: nat, c: nat, lost: bool): Times {
    Times([Instant(p, false)], Instant(s, false), Instant(c, lost), Instant(c + 1, false), Instant(c + 2, false),
          Instant(c + 3, false), Instant(c + 4, false), Instant(c + 5, false))
  }

  lemma RecoveredReadsAlive(past: seq<World>, target: Ref, mode: Mode, f: string, i: nat, t: Times)
    requires Recovered(past, target, mode, f, i)
    requires |t.targets| == 1 && i <= t.targets[0].when && InOrder(0, t, |past|)
    ensures ReadsAlive(past, target, mode, f, t)
  {
    assert AliveIn(past[t.targets[0].when], past[t.services.when], past[t.crds.when], target, mode, f);
    hide Recovered;
    AliveReads(past, target, mode, f, t);
  }

  lemma AliveReads(past: seq<World>, target: Ref, mode: Mode, f: string, t: Times)
    requires |t.targets| == 1 && InOrder(0, t, |past|)
    requires AliveIn(past[t.targets[0].when], past[t.services.when], past[t.crds.when], target, mode, f)
    ensures ReadsAlive(past, target, mode, f, t)
  {
    OneTarget(past, target, t);
    hide Snap, Judge, DeadAcross, InOrder;
    var p := t.targets[0];
    if !p.failed && KeyOf(target) in past[p.when].objects {
      JudgedAcross(past, target, mode, f, t, past[p.when].objects[KeyOf(target)]);
    }
  }

  lemma AliveAt(past: seq<World>, target: Ref, mode: Mode, f: string, p: nat, s: nat, c: nat)
    requires p < s < c && c + 5 < |past|
    requires ReadsAlive(past, target, mode, f, ReadAt(p, s, c, false))
      && ReadsAlive(past, target, mode, f, ReadAt(p, s, c, true))
    ensures AliveIn(past[p], past[s], past[c], target, mode, f)
  {
    OneTarget(past, target, ReadAt(p, s, c, false));
    OneTarget(past, target, ReadAt(p, s, c, true));
    hide Snap, Judge, DeadAcross;
    if KeyOf(target) in past[p].objects {
      JudgedAcross(past, target, mode, f, ReadAt(p, s, c, false), past[p].objects[KeyOf(target)]);
      JudgedAcross(past, target, mode, f, ReadAt(p, s, c, true), past[p].objects[KeyOf(target)]);
    }
  }

  /** Recovery stops the run: after it, at most the write in flight lands. */
  lemma RecoveryStops(past: seq<World>, r: Run, f: string, i: nat)
    requires Ran(past, r) && Recovered(past, r.target, r.mode, f, i)
    ensures forall j, k | 0 <= j < k < |r.attempts| && Landed(r.attempts[j]) && Landed(r.attempts[k]) ::
      r.attempts[j].write < i
    ensures forall k | 0 <= k < |r.attempts| && r.attempts[k].begun >= i :: !Landed(r.attempts[k]) && !r.ok
  {
    forall k | 0 <= k < |r.attempts| && r.attempts[k].begun >= i ensures !Landed(r.attempts[k]) && !r.ok {
      StopsAfterRecovery(past, r.target, r.mode, r.attempts[k], f, i);
    }
    forall j, k | 0 <= j < k < |r.attempts| && Landed(r.attempts[j]) && Landed(r.attempts[k])
      ensures r.attempts[j].write < i
    {
      assert r.attempts[j].ended <= r.attempts[k].begun;
    }
  }

  lemma StopsAfterRecovery(past: seq<World>, target: Ref, mode: Mode, a: Attempt, f: string, i: nat)
    requires Recorded(past, target, mode, a) && Recovered(past, target, mode, f, i) && a.begun >= i
    ensures !Landed(a)
  {
    RecoveredReadsAlive(past, target, mode, f, i, a.look);
    hide Recovered, Judge, Snap;
    var s := Snap(past, [target], a.look);
    if s.targets != [] {
      OneTarget(past, target, a.look);
      TargetDeadExact(mode, s.targets[0], s);
    }
  }

  lemma AcrossWitnessed(ref: Ref, mode: Mode, f: string, conditions: seq<Condition>, services: seq<ApiService>,
                        crds: Option<seq<string>>)
    requires DeadAcross(ref, mode, f, conditions, services, crds)
    ensures exists s | s in services :: SaysUnavailable(s) && Implicates(ref, f, s.group)
  {
    var snap := Snapshot([], services, match crds case Some(gs) => gs case None => [], [], [], [],
                         {ApiServices} + If(crds.Some?, Crds));
    var obj := StuckObject(ref, "", "", true, [], [], [], conditions, 0);
    DeadExact(mode, obj, f, snap);
    DeadIsWitnessed(mode, obj, f, snap);
  }

  /** A condition on one world at a time that suffices: no APIService that could
      implicate the finalizer's owner is down any more, and the finalizer stays. */
  lemma AvailableServicesRecover(past: seq<World>, target: Ref, mode: Mode, f: string, i: nat)
    requires forall j | i <= j < |past| :: forall s | s in past[j].apiServices && SaysUnavailable(s) ::
      !Implicates(target, f, s.group)
    requires forall j | i <= j < |past| && KeyOf(target) in past[j].objects ::
      f in past[j].objects[KeyOf(target)].metaFinalizers + past[j].objects[KeyOf(target)].specFinalizers
    ensures Recovered(past, target, mode, f, i)
  {
    hide DeadAcross, Implicates, SaysUnavailable;
    forall p, s, c | i <= p < s < c && c + 5 < |past| ensures AliveIn(past[p], past[s], past[c], target, mode, f) {
      if KeyOf(target) in past[p].objects {
        NoneAcross(target, mode, f, past[p].objects[KeyOf(target)].conditions, past[s], Some(past[c].crds));
        NoneAcross(target, mode, f, past[p].objects[KeyOf(target)].conditions, past[s], None);
      }
    }
  }

  lemma NoneAcross(ref: Ref, mode: Mode, f: string, conditions: seq<Condition>, w: World, crds: Option<seq<string>>)
    requires forall s | s in w.apiServices && SaysUnavailable(s) :: !Implicates(ref, f, s.group)
    ensures !DeadAcross(ref, mode, f, conditions, w.apiServices, crds)
  {
    hide DeadAcross, Implicates, SaysUnavailable;
    if DeadAcross(ref, mode, f, conditions, w.apiServices, crds) {
      AcrossWitnessed(ref, mode, f, conditions, w.apiServices, crds);
      assert false;
    }
  }
}
