/** A run that nobody disturbs: exactly when it carries out its whole plan, and
    exactly when the target is gone afterwards. */
module Completion {
  import opened Model
  import opened Diagnosis
  import opened Plans
  import opened Cluster
  import opened Snapshots
  import opened Execution

  /* An undisturbed history */

  predicate Prompt(look: Times) {
    && |look.targets| == 1 && !look.targets[0].failed
    && !look.services.failed && !look.crds.failed && !look.validating.failed && !look.mutating.failed
    && !look.workloads.failed && !look.pods.failed && !look.slices.failed
  }

  predicate Calm(a: Attempt) {
    && Prompt(a.look)
    && (a.state == Dead ==> !a.cur.failed)
    && (a.state == Dead && a.seen.Some? && a.action.kind == FinalizeNamespace ==> !a.again.failed)
    && (Armed(a) ==> a.fault == NoFault)
  }

  /** World `i` is the result of one of the run's writes. */
  predicate Wrote(r: Run, i: int) {
    exists k | 0 <= k < |r.attempts| :: Landed(r.attempts[k]) && i == r.attempts[k].write + 1
  }

  /** Every call succeeds, and the world changes only by the run's own writes. */
  predicate Quiet(past: seq<World>, r: Run) {
    && 1 <= r.lo <= r.hi <= |past|
    && (forall k | 0 <= k < |r.attempts| :: Calm(r.attempts[k]))
    && (forall i | r.lo <= i < r.hi :: past[i] == past[i - 1] || Wrote(r, i))
  }

  /** The instant whose world attempt `k` finds. */
  function Base(r: Run, k: nat): int
    requires k <= |r.attempts|
  {
    if k == 0 then r.lo - 1 else r.attempts[k - 1].ended - 1
  }

  /** Instants at which the world is still the one attempt `k` found. */
  predicate Before(r: Run, k: nat, m: int)
    requires k <= |r.attempts|
  {
    Base(r, k) <= m < r.hi
      && (k < |r.attempts| ==> m < r.attempts[k].ended && (Landed(r.attempts[k]) ==> m <= r.attempts[k].write))
  }

  lemma NotWritten(past: seq<World>, r: Run, k: nat, m: int)
    requires Ran(past, r) && k <= |r.attempts| && Before(r, k, m) && m > Base(r, k)
    ensures !Wrote(r, m)
  {
    hide Recorded;
    forall j | 0 <= j < |r.attempts| && Landed(r.attempts[j]) ensures m != r.attempts[j].write + 1 {
      RecordWindow(past, r.target, r.mode, r.attempts[j]);
      if j < k - 1 {
        assert r.attempts[j].ended <= r.attempts[k - 1].begun;
        RecordWindow(past, r.target, r.mode, r.attempts[k - 1]);
      } else if j > k {
        assert r.attempts[k].ended <= r.attempts[j].begun;
        LandedAfterBegun(past, r.target, r.mode, r.attempts[j]);
      }
    }
  }

  lemma {:induction false} Still(past: seq<World>, r: Run, k: nat, m: int)
    requires Ran(past, r) && Quiet(past, r) && k <= |r.attempts| && Before(r, k, m)
    ensures 0 <= Base(r, k) < |past| && past[m] == past[Base(r, k)]
    decreases m
  {
    hide Recorded, Calm;
    if k > 0 {
      RecordWindow(past, r.target, r.mode, r.attempts[k - 1]);
    }
    if m > Base(r, k) {
      NotWritten(past, r, k, m);
      Still(past, r, k, m - 1);
    }
  }

  const NOW := Instant(0, false)
  const AT_ONCE := Times([NOW], NOW, NOW, NOW, NOW, NOW, NOW, NOW)

  /** The verdict on a target when every read is answered from one world. */
  function StateIn(w: World, target: Ref, mode: Mode): State {
    StateSeen([w], target, mode, AT_ONCE)
  }

  /** Every read of the snapshot is answered from `w`. */
  predicate AllAnswer(past: seq<World>, look: Times, w: World)
    requires |look.targets| == 1
  {
    && Answer(past, look.targets[0]) == w && Answer(past, look.services) == w && Answer(past, look.crds) == w
    && Answer(past, look.validating) == w && Answer(past, look.mutating) == w && Answer(past, look.slices) == w
  }

  lemma SameAnswersSameSnap(past: seq<World>, w: World, target: Ref, look: Times)
    requires Prompt(look) && AllAnswer(past, look, w)
    ensures Snap(past, [target], look) == Snap([w], [target], AT_ONCE)
  {
    assert AllAnswer([w], AT_ONCE, w);
    hide Found, Lookup, ToStuckObject, Answer;
    OneTarget(past, target, look);
    OneTarget([w], target, AT_ONCE);
    assert AllFound(past, [target], look.targets) <==> Lookup(w, target).Some?;
    assert AllFound([w], [target], AT_ONCE.targets) <==> Lookup(w, target).Some?;
  }

  lemma SnapOfOneWorld(past: seq<World>, w: World, target: Ref, look: Times, lo: nat, hi: nat)
    requires Prompt(look) && InOrder(lo, look, hi) && hi <= |past|
    requires forall m | lo <= m <= look.slices.when :: past[m] == w
    ensures Snap(past, [target], look) == Snap([w], [target], AT_ONCE)
  {
    hide Snap;
    SameAnswersSameSnap(past, w, target, look);
  }

  /** In a quiet history an attempt re-verifies against the world it found. */
  lemma CalmSees(past: seq<World>, r: Run, k: nat)
    requires Ran(past, r) && Quiet(past, r) && k < |r.attempts|
    ensures 0 <= Base(r, k) < |past|
    ensures r.attempts[k].state == StateIn(past[Base(r, k)], r.target, r.mode)
  {
    hide JudgeAll, CombinedState;
    var a := r.attempts[k];
    Still(past, r, k, a.begun);
    forall m | a.begun <= m <= a.look.slices.when ensures past[m] == past[Base(r, k)] {
      Still(past, r, k, m);
    }
    SnapOfOneWorld(past, past[Base(r, k)], r.target, a.look, a.begun, a.ended);
  }

  /** In a quiet history an attempt succeeds exactly when its world shows the target
      DEAD and holds the object to act on, and then leaves that world written. */
  lemma CalmOutcome(past: seq<World>, r: Run, k: nat)
    requires Ran(past, r) && Quiet(past, r) && k < |r.attempts| && WellAddressed(r.actions[k])
    ensures 0 <= Base(r, k) < |past|
    ensures Acted(past[Base(r, k)], past, r, r.attempts[k])
  {
    hide StateIn, Recorded, Calm, Quiet, OpOf, Landed, Done, KeyOf, Acted;
    var a := r.attempts[k];
    CalmSees(past, r, k);
    assert Recorded(past, r.target, r.mode, a) && Calm(a) by { AttemptCalm(past, r, k); }
    InstantsBefore(past, r, k);
    OutcomeIn(past, r, a, past[Base(r, k)]);
  }

  lemma AttemptCalm(past: seq<World>, r: Run, k: nat)
    requires Ran(past, r) && Quiet(past, r) && k < |r.attempts|
    ensures Recorded(past, r.target, r.mode, r.attempts[k]) && Calm(r.attempts[k])
      && r.attempts[k].action == r.actions[k]
  {
    hide Recorded, Calm;
  }

  /** Whatever the attempt read or wrote, it was in the world it found. */
  predicate InWorld(past: seq<World>, a: Attempt, w: World) {
    a.state == Dead ==>
      && a.cur.when < |past| && past[a.cur.when] == w
      && (a.seen.Some? && a.action.kind == FinalizeNamespace ==> a.again.when < |past| && past[a.again.when] == w)
      && (Armed(a) ==> a.write < |past| && past[a.write] == w)
  }

  lemma InstantsBefore(past: seq<World>, r: Run, k: nat)
    requires Ran(past, r) && Quiet(past, r) && k < |r.attempts|
    ensures 0 <= Base(r, k) < |past| && InWorld(past, r.attempts[k], past[Base(r, k)])
  {
    var a := r.attempts[k];
    AttemptCalm(past, r, k);
    RecordWindow(past, r.target, r.mode, a);
    hide StateSeen, InOrder, Calm, Quiet;
    Still(past, r, k, a.begun);
    if a.state == Dead {
      Still(past, r, k, a.cur.when);
      if a.seen.Some? && a.action.kind == FinalizeNamespace {
        Still(past, r, k, a.again.when);
      }
      if Armed(a) {
        Still(past, r, k, a.write);
      }
    }
  }

  lemma OutcomeIn(past: seq<World>, r: Run, a: Attempt, w: World)
    requires Recorded(past, r.target, r.mode, a) && Calm(a) && WellAddressed(a.action)
    requires a.state == StateIn(w, r.target, r.mode) && InWorld(past, a, w)
    ensures Acted(w, past, r, a)
  {
    hide StateSeen, StateIn, InOrder, Prompt;
  }

  predicate Acted(w: World, past: seq<World>, r: Run, a: Attempt) {
    var key := KeyOf(a.action.target);
    && (Done(a) <==> StateIn(w, r.target, r.mode) == Dead && key in w.objects)
    && (Done(a) ==>
      && Accepts(w, OpOf(a.action, w.objects[key]))
      && 0 < a.ended <= |past| && past[a.ended - 1] == Perform(w, OpOf(a.action, w.objects[key])))
  }

  /* The stages of an undisturbed run */

  function MetaLeft(meta: seq<string>, clears: seq<string>, n: nat): seq<string>
    requires n <= |clears|
  {
    if n == 0 then meta else Without(MetaLeft(meta, clears, n - 1), clears[n - 1])
  }

  lemma {:induction false} MetaLeftMembers(meta: seq<string>, clears: seq<string>, n: nat)
    requires n <= |clears|
    ensures forall f :: f in MetaLeft(meta, clears, n) <==> f in meta && f !in clears[..n]
  {
    if n > 0 {
      MetaLeftMembers(meta, clears, n - 1);
      assert clears[..n] == clears[..n - 1] + [clears[n - 1]];
    }
  }

  function Clears(target: Ref, o: Obj): seq<string> {
    Cleared(target, o.metaFinalizers + o.specFinalizers)
  }

  /** How many clears the first `k` actions contain. */
  function Taken(target: Ref, o: Obj, n: nat, k: nat): (t: nat)
    ensures t <= |Clears(target, o)|
  {
    if k <= n then 0 else if k - n <= |Clears(target, o)| then k - n else |Clears(target, o)|
  }

  /** The target after the first `k` actions of a plan that starts with `n` orphans. */
  function Left(target: Ref, o: Obj, n: nat, k: nat): Obj {
    var clears := Clears(target, o);
    o.(metaFinalizers := MetaLeft(o.metaFinalizers, clears, Taken(target, o, n, k)),
       specFinalizers := if k > n + |clears| then Without(o.specFinalizers, KUBERNETES) else o.specFinalizers)
  }

  /** An action on the target has left it without anything that holds it. */
  predicate Gone(target: Ref, o: Obj, n: nat, k: nat) {
    k > n && Released(KeyOf(target), Left(target, o, n, k))
  }

  predicate Stage(w0: World, w: World, target: Ref, o: Obj, orphans: seq<Ref>, k: nat) {
    var key, left := KeyOf(target), Left(target, o, |orphans|, k);
    && w.apiServices == w0.apiServices && w.crds == w0.crds
    && (key in w.objects <==> !Gone(target, o, |orphans|, k))
    && (key in w.objects ==> w.objects[key] == left.(version := w.objects[key].version))
    && (forall j | k <= j < |orphans| :: KeyOf(orphans[j]) in w.objects)
    && (forall j | 0 <= j < |orphans| && j < k ::
      KeyOf(orphans[j]) in w.objects ==> w.objects[KeyOf(orphans[j])].deleting)
  }

  predicate Separate(target: Ref, orphans: seq<Ref>) {
    && (forall j | 0 <= j < |orphans| :: KeyOf(orphans[j]) != KeyOf(target))
    && (forall i, j | 0 <= i < j < |orphans| :: KeyOf(orphans[i]) != KeyOf(orphans[j]))
  }

  function PlanOf(target: Ref, o: Obj, orphans: seq<Ref>): seq<Action> {
    Remediation(target, o.metaFinalizers + o.specFinalizers, orphans)
  }

  lemma ActionAt(target: Ref, o: Obj, orphans: seq<Ref>, k: nat)
    requires k < |PlanOf(target, o, orphans)|
    ensures
      var n, clears := |orphans|, Clears(target, o);
      && |PlanOf(target, o, orphans)| <= n + |clears| + 1
      && PlanOf(target, o, orphans)[k] ==
         (if k < n then Action(CleanOrphan, orphans[k], "")
          else if k < n + |clears| then Action(ClearFinalizer, target, clears[k - n])
          else Action(FinalizeNamespace, target, KUBERNETES))
      && (k == n + |clears| ==> target.IsNamespace() && KUBERNETES in o.metaFinalizers + o.specFinalizers)
  {
    CleansAt(orphans);
    ClearsAt(target, Clears(target, o));
  }

  lemma StageStep(w0: World, w: World, target: Ref, o: Obj, orphans: seq<Ref>, k: nat)
    requires Stage(w0, w, target, o, orphans, k) && Separate(target, orphans) && o.deleting
    requires k < |PlanOf(target, o, orphans)|
    requires PlanOf(target, o, orphans)[k].kind == FinalizeNamespace ==> KeyOf(target) == NamespaceKey(target.name)
    requires KeyOf(PlanOf(target, o, orphans)[k].target) in w.objects
    ensures
      var a := PlanOf(target, o, orphans)[k];
      var op := OpOf(a, w.objects[KeyOf(a.target)]);
      Accepts(w, op) && Stage(w0, Perform(w, op), target, o, orphans, k + 1)
  {
    ActionAt(target, o, orphans, k);
    var a := PlanOf(target, o, orphans)[k];
    var op := OpOf(a, w.objects[KeyOf(a.target)]);
    var n, clears := |orphans|, Clears(target, o);
    assert Left(target, o, n, k + 1) ==
      match a.kind
      case CleanOrphan => Left(target, o, n, k)
      case ClearFinalizer =>
        Left(target, o, n, k).(metaFinalizers := Without(Left(target, o, n, k).metaFinalizers, a.finalizer))
      case FinalizeNamespace => Left(target, o, n, k).(specFinalizers := Without(o.specFinalizers, KUBERNETES));
  }

  /* The verdict along the way */

  lemma OneWorldSnap(w: World, target: Ref)
    ensures
      var s := Snap([w], [target], AT_ONCE);
      && s.apiServices == w.apiServices && s.crds == w.crds && ApiServices in s.readable && Crds in s.readable
      && s.targets == match Lookup(w, target) case Some(o) => [ToStuckObject(target, o)] case None => []
  {
    OneTarget([w], target, AT_ONCE);
  }

  /** A verdict rests on the evidence and on the conditions of the target only. */
  lemma SameEvidenceSameVerdict(mode: Mode, a: StuckObject, b: StuckObject, f: string, s: Snapshot, t: Snapshot)
    requires a.ref == b.ref && a.conditions == b.conditions
    requires s.apiServices == t.apiServices && s.crds == t.crds
    requires ApiServices in s.readable * t.readable && Crds in s.readable * t.readable
    ensures Judge(mode, a, f, s).state == Dead <==> Judge(mode, b, f, t).state == Dead
  {
    DeadExact(mode, a, f, s);
    DeadExact(mode, b, f, t);
    hide Judge;
  }

  /** Taking a finalizer away keeps the nonempty remainder DEAD, and a target that
      is gone is no longer DEAD. */
  lemma StageVerdict(w0: World, w: World, target: Ref, mode: Mode, o: Obj, orphans: seq<Ref>, k: nat)
    requires KeyOf(target) in w0.objects && w0.objects[KeyOf(target)] == o && o.deleting
    requires StateIn(w0, target, mode) == Dead
    requires Stage(w0, w, target, o, orphans, k)
    ensures StateIn(w, target, mode) == Dead <==> KeyOf(target) in w.objects
  {
    hide Judge;
    var key := KeyOf(target);
    OneWorldSnap(w0, target);
    OneWorldSnap(w, target);
    if key in w.objects {
      var s0, s := Snap([w0], [target], AT_ONCE), Snap([w], [target], AT_ONCE);
      var t0, t := ToStuckObject(target, o), ToStuckObject(target, w.objects[key]);
      TargetDeadExact(mode, t0, s0);
      TargetDeadExact(mode, t, s);
      LeftIsPart(target, o, |orphans|, k);
      forall f | f in t.AllFinalizers() ensures Judge(mode, t, f, s).state == Dead {
        assert f in t0.AllFinalizers();
        SameEvidenceSameVerdict(mode, t0, t, f, s0, s);
      }
    }
  }

  lemma LeftIsPart(target: Ref, o: Obj, n: nat, k: nat)
    ensures forall f | f in Left(target, o, n, k).metaFinalizers :: f in o.metaFinalizers
    ensures forall f | f in Left(target, o, n, k).specFinalizers :: f in o.specFinalizers
  {
    MetaLeftMembers(o.metaFinalizers, Clears(target, o), Taken(target, o, n, k));
  }

  /* The theorem */

  /** The run is carried out undisturbed on a DEAD, terminating target, from a world
      that holds its distinct orphans. */
  predicate Undisturbed(past: seq<World>, r: Run, o: Obj, orphans: seq<Ref>) {
    && Ran(past, r) && Quiet(past, r)
    && var w := past[r.lo - 1];
       && KeyOf(r.target) in w.objects && w.objects[KeyOf(r.target)] == o && o.deleting
       && StateIn(w, r.target, r.mode) == Dead
       && r.actions == PlanOf(r.target, o, orphans)
       && Separate(r.target, orphans) && (forall j | 0 <= j < |orphans| :: KeyOf(orphans[j]) in w.objects)
       && (r.target.IsNamespace() ==> CoreNamespace(r.target))
  }

  lemma {:induction false} StageReached(past: seq<World>, r: Run, o: Obj, orphans: seq<Ref>, k: nat)
    requires Undisturbed(past, r, o, orphans) && k <= r.completed
    ensures 0 <= Base(r, k) < |past|
    ensures Stage(past[r.lo - 1], past[Base(r, k)], r.target, o, orphans, k)
  {
    hide StateIn, Recorded, Calm, Stage, OpOf, PlanOf, Separate, Left, Gone;
    if k == 0 {
      StageZero(past[r.lo - 1], r.target, o, orphans);
    } else {
      StageReached(past, r, o, orphans, k - 1);
      ActionAt(r.target, o, orphans, k - 1);
      CalmOutcome(past, r, k - 1);
      StageStep(past[r.lo - 1], past[Base(r, k - 1)], r.target, o, orphans, k - 1);
    }
  }

  lemma StageZero(w: World, target: Ref, o: Obj, orphans: seq<Ref>)
    requires KeyOf(target) in w.objects && w.objects[KeyOf(target)] == o
    requires forall j | 0 <= j < |orphans| :: KeyOf(orphans[j]) in w.objects
    ensures Stage(w, w, target, o, orphans, 0)
  {}

  /** The plan's last action still finds the target: for a namespace when something
      other than a metadata finalizer holds it, otherwise when the last finalizer of
      the list is in metadata and no repetition, or the only one there is. */
  predicate LastTakes(target: Ref, o: Obj) {
    if target.IsNamespace() && (o.specFinalizers != [] || KUBERNETES in o.metaFinalizers) then true
    else if o.specFinalizers != [] then |o.metaFinalizers + o.specFinalizers| == 1
    else
      var last := |o.metaFinalizers| - 1;
      last >= 0 && o.metaFinalizers[last] !in o.metaFinalizers[..last]
  }

  /** Every finalizer that holds the target sits where its action looks for it. */
  predicate Removable(target: Ref, o: Obj) {
    target.IsNamespace() ==> KUBERNETES !in o.metaFinalizers && forall f | f in o.specFinalizers :: f == KUBERNETES
  }

  lemma {:induction false} WithoutAbsent(s: seq<string>, x: string)
    requires x !in s
    ensures Without(s, x) == s
  {
    if s != [] {
      WithoutAbsent(s[1..], x);
    }
  }

  lemma WithoutNone(s: seq<string>, x: string)
    ensures Without(s, x) == [] <==> forall y | y in s :: y == x
  {
    if s != [] && Without(s, x) != [] {
      assert Without(s, x)[0] in Without(s, x);
    }
  }

  /** Without a finalize step and with nothing in spec, the clears are the metadata list. */
  lemma PlainClears(target: Ref, o: Obj)
    requires o.specFinalizers == [] && (target.IsNamespace() ==> KUBERNETES !in o.metaFinalizers)
    ensures Clears(target, o) == o.metaFinalizers
  {
    assert o.metaFinalizers + [] == o.metaFinalizers;
    if target.IsNamespace() {
      WithoutAbsent(o.metaFinalizers, KUBERNETES);
    }
  }

  lemma ReleasedExact(target: Ref, o: Obj, n: nat, k: nat)
    requires o.deleting && (target.IsNamespace() ==> CoreNamespace(target))
    ensures Released(KeyOf(target), Left(target, o, n, k)) <==>
      && (forall f | f in o.metaFinalizers :: f in Clears(target, o)[..Taken(target, o, n, k)])
      && (target.IsNamespace() ==>
        if k <= n + |Clears(target, o)| then o.specFinalizers == []
        else forall f | f in o.specFinalizers :: f == KUBERNETES)
  {
    var left := Left(target, o, n, k).metaFinalizers;
    MetaLeftMembers(o.metaFinalizers, Clears(target, o), Taken(target, o, n, k));
    WithoutNone(o.specFinalizers, KUBERNETES);
    if left != [] {
      assert left[0] in left;
    }
  }

  lemma PlanLength(target: Ref, o: Obj, orphans: seq<Ref>)
    ensures
      var final := target.IsNamespace() && KUBERNETES in o.metaFinalizers + o.specFinalizers;
      |PlanOf(target, o, orphans)| == |orphans| + |Clears(target, o)| + if final then 1 else 0
    ensures forall f :: f in Clears(target, o) <==>
      f in o.metaFinalizers + o.specFinalizers && (target.IsNamespace() ==> f != KUBERNETES)
  {}

  /** When along the plan the target disappears. */
  predicate Disappears(target: Ref, o: Obj, orphans: seq<Ref>, k: nat) {
    var last, gone := |PlanOf(target, o, orphans)| - 1, Gone(target, o, |orphans|, k);
    && (k <= last && LastTakes(target, o) ==> !gone)
    && (k == last && !LastTakes(target, o) ==> gone)
    && (gone ==> Removable(target, o))
    && (k == last + 1 && Removable(target, o) ==> gone)
  }

  lemma LeftFacts(target: Ref, o: Obj, orphans: seq<Ref>, k: nat)
    requires o.deleting && o.metaFinalizers + o.specFinalizers != [] && k <= |PlanOf(target, o, orphans)|
    requires target.IsNamespace() ==> CoreNamespace(target)
    ensures Disappears(target, o, orphans, k)
  {
    if o.specFinalizers == [] && (target.IsNamespace() ==> KUBERNETES !in o.metaFinalizers) {
      LeftPlain(target, o, orphans, k);
    } else if target.IsNamespace() {
      LeftNamespace(target, o, orphans, k);
    } else {
      LeftSpec(target, o, orphans, k);
    }
  }

  /** With nothing in spec the metadata list is cleared one by one. */
  lemma LeftPlain(target: Ref, o: Obj, orphans: seq<Ref>, k: nat)
    requires o.deleting && o.metaFinalizers != [] && k <= |PlanOf(target, o, orphans)|
    requires target.IsNamespace() ==> CoreNamespace(target)
    requires o.specFinalizers == [] && (target.IsNamespace() ==> KUBERNETES !in o.metaFinalizers)
    ensures Disappears(target, o, orphans, k)
  {
    ReleasedExact(target, o, |orphans|, k);
    PlanLength(target, o, orphans);
    PlainClears(target, o);
    hide Left, PlanOf, Released, Cleared, Clears, KeyOf;
    PrefixCovers(o.metaFinalizers, Taken(target, o, |orphans|, k));
  }

  /** A prefix has every element exactly from where only repetitions follow. */
  lemma PrefixCovers(meta: seq<string>, t: nat)
    requires meta != [] && t <= |meta|
    ensures
      var m, covers := |meta| - 1, forall f | f in meta :: f in meta[..t];
      && (t == |meta| ==> covers)
      && (t <= m && meta[m] !in meta[..m] ==> !covers)
      && (t == m && meta[m] in meta[..m] ==> covers)
      && (t == 0 ==> !covers)
  {
    var m := |meta| - 1;
    assert meta[..|meta|] == meta && meta == meta[..m] + [meta[m]] && meta[m] in meta;
    if t <= m {
      assert meta[..m][..t] == meta[..t];
      assert forall f | f in meta[..t] :: f in meta[..m];
    }
  }

  /** Spec finalizers do not hold a target that is no namespace: it goes with the last
      metadata finalizer, and if there is none, with the first clear. */
  lemma LeftSpec(target: Ref, o: Obj, orphans: seq<Ref>, k: nat)
    requires o.deleting && k <= |PlanOf(target, o, orphans)|
    requires !target.IsNamespace() && o.specFinalizers != []
    ensures Disappears(target, o, orphans, k)
  {
    ReleasedExact(target, o, |orphans|, k);
    PlanLength(target, o, orphans);
    var meta, t := o.metaFinalizers, Taken(target, o, |orphans|, k);
    assert Clears(target, o) == meta + o.specFinalizers;
    hide Left, PlanOf, Released, Cleared, Clears, KeyOf;
    FrontCovered(meta, o.specFinalizers, t);
  }

  lemma FrontCovered(meta: seq<string>, spec: seq<string>, t: nat)
    requires t <= |meta + spec|
    ensures t >= |meta| ==> forall f | f in meta :: f in (meta + spec)[..t]
  {
    if t >= |meta| {
      assert (meta + spec)[..t] == meta + (meta + spec)[|meta|..t];
    }
  }

  /** A namespace with spec finalizers, or with `kubernetes` in metadata. */
  lemma LeftNamespace(target: Ref, o: Obj, orphans: seq<Ref>, k: nat)
    requires o.deleting && k <= |PlanOf(target, o, orphans)|
    requires target.IsNamespace() && CoreNamespace(target)
    requires o.specFinalizers != [] || KUBERNETES in o.metaFinalizers
    ensures Disappears(target, o, orphans, k)
  {
    var clears, meta, spec := Clears(target, o), o.metaFinalizers, o.specFinalizers;
    ReleasedExact(target, o, |orphans|, k);
    PlanLength(target, o, orphans);
    hide Left, PlanOf, Released, Cleared, Clears;
    assert clears[..|clears|] == clears;
    assert forall f | f in clears[..Taken(target, o, |orphans|, k)] :: f in clears;
    assert forall f :: f in meta + spec <==> f in meta || f in spec;
    assert spec != [] ==> spec[0] in spec;
    assert spec == [] ==> KUBERNETES in meta && KUBERNETES !in clears;
  }

  /** Undisturbed, the run carries out its whole plan exactly when the last action still
      finds the target, and the target is gone afterwards exactly when every
      finalizer that holds it sits where its action looks for it. */
  lemma UndisturbedExact(past: seq<World>, r: Run, o: Obj, orphans: seq<Ref>)
    requires Undisturbed(past, r, o, orphans)
    ensures r.ok <==> LastTakes(r.target, o)
    ensures KeyOf(r.target) !in past[r.hi - 1].objects <==> Removable(r.target, o)
    ensures forall j | 0 <= j < |orphans| ::
      KeyOf(orphans[j]) in past[r.hi - 1].objects ==> past[r.hi - 1].objects[KeyOf(orphans[j])].deleting
  {
    hide StateIn, Recorded, Calm, Left, LastTakes, Removable, OpOf, Separate;
    var n, key, w0 := r.completed, KeyOf(r.target), past[r.lo - 1];
    StageReached(past, r, o, orphans, n);
    var w := past[Base(r, n)];
    NonEmptyTarget(w0, r.target, r.mode, o);
    LeftFacts(r.target, o, orphans, n);
    if r.ok {
      Still(past, r, n, r.hi - 1);
      BeforeLast(past, r, o, orphans);
    } else {
      StoppedGone(past, r, o, orphans);
    }
  }

  lemma NonEmptyTarget(w: World, target: Ref, mode: Mode, o: Obj)
    requires KeyOf(target) in w.objects && w.objects[KeyOf(target)] == o && StateIn(w, target, mode) == Dead
    ensures o.metaFinalizers + o.specFinalizers != []
  {
    hide Judge;
    OneWorldSnap(w, target);
    TargetDeadExact(mode, ToStuckObject(target, o), Snap([w], [target], AT_ONCE));
  }

  /** A complete run found the target at its last action. */
  lemma BeforeLast(past: seq<World>, r: Run, o: Obj, orphans: seq<Ref>)
    requires Undisturbed(past, r, o, orphans) && r.ok
    ensures LastTakes(r.target, o)
  {
    hide StateIn, Recorded, Calm, Left, LastTakes, Removable, OpOf, Separate;
    var w0 := past[r.lo - 1];
    NonEmptyTarget(w0, r.target, r.mode, o);
    PlanLength(r.target, o, orphans);
    NonEmptyPlan(r.target, o, orphans);
    var k := |r.actions| - 1;
    StageReached(past, r, o, orphans, k);
    ActionAt(r.target, o, orphans, k);
    CalmOutcome(past, r, k);
    StageVerdict(w0, past[Base(r, k)], r.target, r.mode, o, orphans, k);
    LeftFacts(r.target, o, orphans, k);
  }

  lemma NonEmptyPlan(target: Ref, o: Obj, orphans: seq<Ref>)
    requires o.metaFinalizers + o.specFinalizers != []
    ensures PlanOf(target, o, orphans) != []
  {
    PlanLength(target, o, orphans);
    var fins := o.metaFinalizers + o.specFinalizers;
    assert fins[0] in fins;
    if fins[0] != KUBERNETES || !target.IsNamespace() {
      assert fins[0] in Clears(target, o);
    }
  }

  /** A run stops early only on a target that is already gone, and writes nothing more. */
  lemma StoppedGone(past: seq<World>, r: Run, o: Obj, orphans: seq<Ref>)
    requires Undisturbed(past, r, o, orphans) && !r.ok
    ensures 0 <= Base(r, r.completed) < |past|
    ensures KeyOf(r.target) !in past[Base(r, r.completed)].objects
    ensures past[r.hi - 1] == past[Base(r, r.completed)]
  {
    hide StateIn, Left, OpOf, Separate, Stage, Recorded, Calm, PlanOf;
    var n, w0 := r.completed, past[r.lo - 1];
    StageReached(past, r, o, orphans, n);
    var w := past[Base(r, n)];
    ActionAt(r.target, o, orphans, n);
    CalmOutcome(past, r, n);
    StageVerdict(w0, w, r.target, r.mode, o, orphans, n);
    if KeyOf(r.target) in w.objects {
      PlannedPresent(w0, w, r.target, o, orphans, n);
    }
    CalmLandsDone(past, r, n);
    var a := r.attempts[n];
    RecordWindow(past, r.target, r.mode, a);
    Still(past, r, n, a.ended - 1);
    Still(past, r, n + 1, r.hi - 1);
  }

  lemma PlannedPresent(w0: World, w: World, target: Ref, o: Obj, orphans: seq<Ref>, k: nat)
    requires Stage(w0, w, target, o, orphans, k) && k < |PlanOf(target, o, orphans)| && KeyOf(target) in w.objects
    ensures KeyOf(PlanOf(target, o, orphans)[k].target) in w.objects
  {
    ActionAt(target, o, orphans, k);
  }

  lemma CalmLandsDone(past: seq<World>, r: Run, k: nat)
    requires Quiet(past, r) && k < |r.attempts|
    ensures Landed(r.attempts[k]) ==> Done(r.attempts[k])
  {}
}
