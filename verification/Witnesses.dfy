/** Histories in which the runs of the theorems happen. */
module Witnesses {
  import opened Model
  import opened Terms
  import opened Verdicts
  import opened Diagnosis
  import opened Cluster
  import opened Snapshots
  import opened Execution
  import opened Safety
  import opened Completion

  /* A quiet pass of the loop */

  function At(i: nat): Instant {
    Instant(i, false)
  }

  function LookFrom(n: nat): Times {
    Times([At(n)], At(n + 1), At(n + 2), At(n + 3), At(n + 4), At(n + 5), At(n + 6), At(n + 7))
  }

  /** What one pass sees and does when every call succeeds and nobody else writes. */
  function Pass(w: World, target: Ref, mode: Mode, action: Action, n: nat): (a: Attempt)
    ensures a.action == action && a.begun == n
  {
    var seen, key := Lookup(w, action.target), NamespaceKey(action.target.name);
    var a := Attempt(action, n, LookFrom(n), StateIn(w, target, mode), At(n + 8), seen, At(n + 9),
                     seen.Some? && key in w.objects && w.objects[key].version == seen.value.version,
                     n + 10, seen.Some? && Accepts(w, OpOf(action, seen.value)), NoFault, n + 11);
    if Landed(a) then a.(ended := n + 12) else a
  }

  /** The history goes on for `n` instants without a change. */
  function Repeat(past: seq<World>, n: nat): (r: seq<World>)
    requires past != []
    ensures |r| == |past| + n && past <= r
    ensures forall i | |past| <= i < |r| :: r[i] == past[|past| - 1]
  {
    if n == 0 then past else Repeat(past, n - 1) + [past[|past| - 1]]
  }

  lemma {:induction false} HistoryRepeats(past: seq<World>, n: nat)
    requires History(past)
    ensures History(Repeat(past, n))
  {
    if n > 0 {
      HistoryRepeats(past, n - 1);
      var w := past[|past| - 1];
      assert Versioned(w) && Evolves(w, w);
      HistoryExtends(Repeat(past, n - 1), w);
    }
  }

  /** Eleven instants of the last world, and then what a landed write makes of it. */
  function Continue(past: seq<World>, a: Attempt): (r: seq<World>)
    requires past != [] && (Landed(a) ==> Accepts(past[|past| - 1], OpOf(a.action, a.seen.value)))
    ensures past <= r && |r| == |past| + if Landed(a) then 12 else 11
    ensures r[|past| + 10] == past[|past| - 1]
  {
    Repeat(past, 11) + if Landed(a) then [Perform(past[|past| - 1], OpOf(a.action, a.seen.value))] else []
  }

  lemma PassLooks(past: seq<World>, w: World, target: Ref, mode: Mode, n: nat)
    requires n + 11 <= |past| && forall i | n <= i < n + 11 :: past[i] == w
    ensures StateSeen(past, target, mode, LookFrom(n)) == StateIn(w, target, mode)
  {
    SnapOfOneWorld(past, w, target, LookFrom(n), n, n + 11);
    hide Snap, JudgeAll, CombinedState;
  }

  /** A pass is recorded by any history that shows its world for eleven instants and
      then, if the write landed, what it made of it. */
  lemma PassRecorded(later: seq<World>, w: World, target: Ref, mode: Mode, action: Action, n: nat)
    requires n + 11 <= |later| && forall i | n <= i < n + 11 :: later[i] == w
    requires
      var a := Pass(w, target, mode, action, n);
      a.ended <= |later|
        && (Landed(a) ==>
          Accepts(w, OpOf(action, a.seen.value)) && later[n + 11] == Perform(w, OpOf(action, a.seen.value)))
    ensures Recorded(later, target, mode, Pass(w, target, mode, action, n)) && Calm(Pass(w, target, mode, action, n))
  {
    PassLooks(later, w, target, mode, n);
    hide StateSeen, StateIn, Perform, Accepts, OpOf, Pass, Landed, Recorded, Calm;
    PassShown(later, w, target, mode, action, n);
  }

  lemma PassShown(later: seq<World>, w: World, target: Ref, mode: Mode, action: Action, n: nat)
    requires n + 11 <= |later| && later[n + 8] == later[n + 9] == later[n + 10] == w
    requires StateSeen(later, target, mode, LookFrom(n)) == StateIn(w, target, mode)
    requires
      var a := Pass(w, target, mode, action, n);
      a.ended <= |later|
        && (Landed(a) ==>
          Accepts(w, OpOf(action, a.seen.value)) && later[n + 11] == Perform(w, OpOf(action, a.seen.value)))
    ensures Recorded(later, target, mode, Pass(w, target, mode, action, n)) && Calm(Pass(w, target, mode, action, n))
  {
    hide StateSeen, StateIn, Perform, Accepts, OpOf, KeyOf;
    assert Answer(later, At(n + 8)) == Answer(later, At(n + 9)) == w;
  }

  lemma PassAccepted(w: World, target: Ref, mode: Mode, action: Action, n: nat)
    ensures
      var a := Pass(w, target, mode, action, n);
      && a.write == n + 10 && a.ended == n + (if Landed(a) then 12 else 11)
      && (Landed(a) ==> Accepts(w, OpOf(action, a.seen.value)))
  {
    hide StateIn, Accepts, OpOf;
  }

  lemma PassContinues(past: seq<World>, target: Ref, mode: Mode, action: Action)
    requires past != []
    ensures
      var a := Pass(past[|past| - 1], target, mode, action, |past|);
      && (Landed(a) ==> Accepts(past[|past| - 1], OpOf(a.action, a.seen.value)))
      && a.write == |past| + 10
      && past <= Continue(past, a) && |Continue(past, a)| == a.ended
      && Recorded(Continue(past, a), target, mode, a) && Calm(a)
  {
    var w := past[|past| - 1];
    PassAccepted(w, target, mode, action, |past|);
    hide Pass, Recorded, Calm, Landed, Perform, Accepts, OpOf;
    PassRecorded(Continue(past, Pass(w, target, mode, action, |past|)), w, target, mode, action, |past|);
  }

  lemma PassHistory(past: seq<World>, a: Attempt)
    requires History(past) && (Landed(a) ==> Accepts(past[|past| - 1], OpOf(a.action, a.seen.value)))
    ensures History(Continue(past, a))
  {
    HistoryRepeats(past, 11);
    hide History, Perform, OpOf, Landed;
    var w := past[|past| - 1];
    if Landed(a) {
      LastVersioned(past);
      PerformEvolves(w, OpOf(a.action, a.seen.value));
      HistoryExtends(Repeat(past, 11), Perform(w, OpOf(a.action, a.seen.value)));
    }
  }

  lemma LastVersioned(past: seq<World>)
    requires History(past)
    ensures past != [] && Versioned(past[|past| - 1])
  {}

  /* Every plan has a quiet run */

  lemma QuietExtends(past: seq<World>, r: Run, a: Attempt)
    requires past != [] && Quiet(past, r) && r.hi == |past| && Calm(a) && a.begun == |past|
    requires Landed(a) ==> Accepts(past[|past| - 1], OpOf(a.action, a.seen.value)) && a.write == |past| + 10
    requires |Continue(past, a)| == a.ended
    ensures Quiet(Continue(past, a), Extended(r, a))
  {
    hide Calm, Perform, OpOf, Landed, Done;
    var later, e := Continue(past, a), Extended(r, a);
    forall i | e.lo <= i < e.hi ensures later[i] == later[i - 1] || Wrote(e, i) {
      if i < r.hi && Wrote(r, i) {
        var k :| 0 <= k < |r.attempts| && Landed(r.attempts[k]) && i == r.attempts[k].write + 1;
        assert e.attempts[k] == r.attempts[k];
      } else if i == r.hi + 11 {
        assert e.attempts[|r.attempts|] == a;
      }
    }
  }

  lemma {:induction false} QuietRunUpTo(w: World, target: Ref, mode: Mode, actions: seq<Action>, k: nat)
    returns (past: seq<World>, r: Run)
    requires Versioned(w) && k <= |actions|
    ensures History(past) && past[0] == w && Quiet(past, r)
    ensures r.target == target && r.mode == mode && r.actions == actions && r.lo == 1 && r.hi == |past|
    ensures (Underway(past, r) && r.completed == k && r.ok == (k == |actions|)) || (Ran(past, r) && !r.ok)
  {
    if k == 0 {
      past, r := [w], Started(target, mode, actions, 1);
      StartsUnderway(past, target, mode, actions);
      assert Evolves(w, w);
    } else {
      past, r := QuietRunUpTo(w, target, mode, actions, k - 1);
      if r.completed == k - 1 && |r.attempts| == k - 1 {
        past, r := OneMorePass(past, r);
      }
    }
  }

  lemma OneMorePass(past: seq<World>, r: Run) returns (later: seq<World>, e: Run)
    requires History(past) && Quiet(past, r) && Underway(past, r) && r.hi == |past| && r.completed < |r.actions|
    ensures History(later) && later[0] == past[0] && Quiet(later, e)
    ensures e.target == r.target && e.mode == r.mode && e.actions == r.actions && e.lo == r.lo && e.hi == |later|
    ensures (Underway(later, e) && e.completed == r.completed + 1 && e.ok == (e.completed == |e.actions|))
      || (Ran(later, e) && !e.ok)
  {
    var a := Pass(past[|past| - 1], r.target, r.mode, r.actions[r.completed], |past|);
    PassContinues(past, r.target, r.mode, a.action);
    PassHistory(past, a);
    later, e := Continue(past, a), Extended(r, a);
    QuietExtends(past, r, a);
    hide Recorded, Quiet, History, Calm, Underway, Ran, Landed, Continue, Pass;
    RunExtends(past, later, r, a);
  }

  lemma QuietRun(w: World, target: Ref, mode: Mode, actions: seq<Action>) returns (past: seq<World>, r: Run)
    requires Versioned(w)
    ensures History(past) && past[0] == w && Quiet(past, r) && Ran(past, r)
    ensures r.target == target && r.mode == mode && r.actions == actions && r.lo == 1 && r.hi == |past|
  {
    past, r := QuietRunUpTo(w, target, mode, actions, |actions|);
    hide Quiet, History;
    if r.ok {
      FinishedRan(past, r);
    }
  }

  /** Every DEAD, terminating target with distinct orphans has an undisturbed run of
      its plan: the hypotheses of `UndisturbedExact` can be met. */
  lemma UndisturbedRun(w: World, target: Ref, mode: Mode, o: Obj, orphans: seq<Ref>) returns (past: seq<World>, r: Run)
    requires Versioned(w) && Lookup(w, target) == Some(o) && o.deleting && StateIn(w, target, mode) == Dead
    requires Separate(target, orphans) && forall j | 0 <= j < |orphans| :: KeyOf(orphans[j]) in w.objects
    requires target.IsNamespace() ==> CoreNamespace(target)
    ensures History(past) && past != [] && past[0] == w && Ran(past, r) && Quiet(past, r)
      && Undisturbed(past, r, o, orphans)
    ensures r.target == target && r.mode == mode && r.hi == |past|
  {
    past, r := QuietRun(w, target, mode, PlanOf(target, o, orphans));
    hide StateIn, Quiet, Ran, History, PlanOf, Separate;
  }

  /** The quiet run on a DEAD target without orphans, and how it ends. */
  lemma RunAlone(w: World, target: Ref, mode: Mode, o: Obj) returns (past: seq<World>, r: Run)
    requires Versioned(w) && Lookup(w, target) == Some(o) && o.deleting && StateIn(w, target, mode) == Dead
    requires target.IsNamespace() ==> CoreNamespace(target)
    ensures History(past) && Ran(past, r) && Quiet(past, r)
    ensures past[0] == w && r.target == target && r.mode == mode
    ensures r.ok <==> LastTakes(target, o)
    ensures KeyOf(target) !in past[|past| - 1].objects <==> Removable(target, o)
  {
    assert Separate(target, []);
    hide StateIn, History, Quiet, Ran, Undisturbed, LastTakes, Removable, PlanOf, Separate, KeyOf, Lookup, Versioned;
    past, r := UndisturbedRun(w, target, mode, o, []);
    EndsAlone(past, r, o);
  }

  lemma EndsAlone(past: seq<World>, r: Run, o: Obj)
    requires Undisturbed(past, r, o, []) && r.hi == |past|
    ensures past != []
    ensures r.ok <==> LastTakes(r.target, o)
    ensures KeyOf(r.target) !in past[|past| - 1].objects <==> Removable(r.target, o)
  {
    hide StateIn, History, Ran, LastTakes, Removable, PlanOf, Separate, KeyOf, Lookup;
    UndisturbedExact(past, r, o, []);
  }

  /* The failing inputs */

  const THING := Ref(GVR("g.h", "v1", "things"), "ns", "n")
  const SPACE := Ref(GVR("", "v1", "namespaces"), "", "n")

  function Terminating(meta: seq<string>, spec: seq<string>): Obj {
    Obj("K", "g.h/v1", 1, true, meta, spec, [], [Condition(DISCOVERY_FAILURE, "True")])
  }

  /** The world that holds one object, and serves `x.b.c` by an APIService that is down. */
  function Holding(ref: Ref, o: Obj): World {
    World(1, map[KeyOf(ref) := o], [DownService("x.b.c")], [], [], [], [], [])
  }

  lemma ThingDead(w: World, meta: seq<string>, spec: seq<string>)
    requires Lookup(w, THING) == Some(Terminating(meta, spec)) && w.apiServices == [DownService("x.b.c")]
      && w.crds == []
    requires meta + spec != [] && forall f | f in meta + spec :: f == "x.b.c"
    ensures StateIn(w, THING, StrictMode) == Dead
  {
    var s, obj := Snap([w], [THING], AT_ONCE), ToStuckObject(THING, Terminating(meta, spec));
    OneWorldSnap(w, THING);
    TargetDeadExact(StrictMode, obj, s);
    ShadowDead(obj, s);
    hide Snap, Judge, DownService;
  }

  lemma SpaceDead(w: World, ref: Ref, mode: Mode, meta: seq<string>, spec: seq<string>)
    requires ref.IsNamespace() && Lookup(w, ref) == Some(Terminating(meta, spec))
    requires w.apiServices == [DownService("x.b.c")] && w.crds == []
    requires meta + spec != [] && forall f | f in meta + spec :: f == KUBERNETES
    ensures StateIn(w, ref, mode) == Dead
  {
    var s, obj := Snap([w], [ref], AT_ONCE), ToStuckObject(ref, Terminating(meta, spec));
    OneWorldSnap(w, ref);
    TargetDeadExact(mode, obj, s);
    DeadExact(mode, obj, KUBERNETES, s);
    hide Snap, Judge, DownService, SaysUnavailable;
    assert FirstDown(s.apiServices, 0);
    assert obj.conditions == [Condition(DISCOVERY_FAILURE, "True")];
    assert obj.conditions[0] in obj.conditions;
  }

  /** A finalizer listed twice: the first clear takes both, the target goes, and the
      second clear finds nothing. */
  lemma RepeatedFinalizerFails() returns (past: seq<World>, r: Run)
    ensures History(past) && Ran(past, r) && Quiet(past, r)
    ensures Lookup(past[0], r.target) == Some(Terminating(["x.b.c", "x.b.c"], [])) && !r.target.IsNamespace()
    ensures !r.ok && KeyOf(r.target) !in past[|past| - 1].objects
  {
    var o := Terminating(["x.b.c", "x.b.c"], []);
    assert o.metaFinalizers[..1] == ["x.b.c"] && o.specFinalizers == [];
    assert !LastTakes(THING, o);
    past, r := FailsThoughGone(["x.b.c", "x.b.c"], []);
  }

  /** A finalizer in the spec of a target that is no namespace does not hold it. */
  lemma SpecFinalizerFails() returns (past: seq<World>, r: Run)
    ensures History(past) && Ran(past, r) && Quiet(past, r)
    ensures Lookup(past[0], r.target) == Some(Terminating(["x.b.c"], ["x.b.c"])) && !r.target.IsNamespace()
    ensures !r.ok && KeyOf(r.target) !in past[|past| - 1].objects
  {
    var o := Terminating(["x.b.c"], ["x.b.c"]);
    assert |o.metaFinalizers + o.specFinalizers| == 2 && o.specFinalizers != [];
    assert !LastTakes(THING, o);
    past, r := FailsThoughGone(["x.b.c"], ["x.b.c"]);
  }

  lemma FailsThoughGone(meta: seq<string>, spec: seq<string>) returns (past: seq<World>, r: Run)
    requires meta + spec != [] && forall f | f in meta + spec :: f == "x.b.c"
    requires !LastTakes(THING, Terminating(meta, spec))
    ensures History(past) && Ran(past, r) && Quiet(past, r)
    ensures r.target == THING && Lookup(past[0], THING) == Some(Terminating(meta, spec))
    ensures !r.ok && KeyOf(THING) !in past[|past| - 1].objects
  {
    var o := Terminating(meta, spec);
    var w := Holding(THING, o);
    hide StateIn, History, Quiet, Ran, LastTakes, DownService;
    assert w.objects[KeyOf(THING)] == o;
    ThingDead(w, meta, spec);
    past, r := RunAlone(w, THING, StrictMode, o);
  }

  /** `kubernetes` in a namespace's metadata is not where its action looks for it. */
  lemma MetadataKubernetesStays(mode: Mode) returns (past: seq<World>, r: Run)
    ensures History(past) && Ran(past, r) && Quiet(past, r) && r.mode == mode
    ensures r.target == SPACE && Lookup(past[0], SPACE) == Some(Terminating([KUBERNETES], []))
    ensures r.ok && KeyOf(SPACE) in past[|past| - 1].objects
  {
    var o := Terminating([KUBERNETES], []);
    var w := Holding(SPACE, o);
    hide StateIn, History, Quiet, Ran, DownService;
    assert w.objects[KeyOf(SPACE)] == o;
    SpaceDead(w, SPACE, mode, [KUBERNETES], []);
    past, r := RunAlone(w, SPACE, mode, o);
  }

  const NAMESAKE := Ref(GVR("g.h", "v1", "namespaces"), "", "n")

  /** A resource called `namespaces` in another group, and the core namespace of its
      name, which also has a finalizer of its own, with equal versions. */
  function Namesakes(): World {
    Holding(NAMESAKE, Terminating([], [KUBERNETES])).(objects :=
      map[KeyOf(NAMESAKE) := Terminating([], [KUBERNETES]),
        NamespaceKey("n") := Terminating([], [KUBERNETES, "other"])])
  }

  lemma NamesakeLands(mode: Mode)
    ensures Versioned(Namesakes())
    ensures
      var a := Pass(Namesakes(), NAMESAKE, mode, Action(FinalizeNamespace, NAMESAKE, KUBERNETES), 1);
      Landed(a) && a.write == 11 && a.seen == Some(Terminating([], [KUBERNETES]))
  {
    var w := Namesakes();
    assert w.objects[KeyOf(NAMESAKE)] == Terminating([], [KUBERNETES]);
    assert w.objects[NamespaceKey("n")] == Terminating([], [KUBERNETES, "other"]);
    SpaceDead(w, NAMESAKE, mode, [], [KUBERNETES]);
    hide StateIn, DownService;
  }

  /** DEAD like a namespace, the namesake has its finalize request land on the core
      namespace, which loses a finalizer that nobody planned to take, and disappears. */
  lemma ForeignNamespaceLosesUpdate(mode: Mode) returns (past: seq<World>, a: Attempt)
    ensures
      && History(past) && Recorded(past, NAMESAKE, mode, a) && Landed(a)
      && a.action == Action(FinalizeNamespace, NAMESAKE, KUBERNETES)
      && !OnlyPlanned(past[a.write], past[a.write + 1], a.action)
      && NamespaceKey("n") in past[a.write].objects
        && "other" in past[a.write].objects[NamespaceKey("n")].specFinalizers
      && NamespaceKey("n") !in past[a.write + 1].objects
  {
    var action := Action(FinalizeNamespace, NAMESAKE, KUBERNETES);
    a := Pass(Namesakes(), NAMESAKE, mode, action, 1);
    NamesakeLands(mode);
    hide Recorded, History, Pass, Landed, Versioned, DownService;
    past := LandedPass(Namesakes(), NAMESAKE, mode, action);
    assert Without([KUBERNETES], KUBERNETES) == [];
    assert Namesakes().objects[NamespaceKey("n")].specFinalizers[1] == "other";
    NoLostUpdateExact(past, NAMESAKE, mode, a);
    NoLostUpdate(past, NAMESAKE, mode, a);
  }

  lemma LandedPass(w: World, target: Ref, mode: Mode, action: Action) returns (past: seq<World>)
    requires Versioned(w) && Landed(Pass(w, target, mode, action, 1))
    ensures |past| == 13 && past[11] == w
    ensures History(past) && Recorded(past, target, mode, Pass(w, target, mode, action, 1))
  {
    var a := Pass(w, target, mode, action, 1);
    assert Evolves(w, w) && History([w]);
    hide Recorded, History, Pass, Continue, Perform, Evolves, Versioned;
    PassAccepted(w, target, mode, action, 1);
    PassContinues([w], target, mode, action);
    PassHistory([w], a);
    past := Continue([w], a);
  }

  /** The reply to the only write is lost: the cluster has a write that the run does
      not count as completed. */
  lemma LostReplyUncounted() returns (past: seq<World>, r: Run)
    ensures History(past) && Ran(past, r)
    ensures |Writes(r.attempts)| == r.completed + 1
  {
    var w := Holding(THING, Terminating(["x.b.c"], []));
    var action := Action(ClearFinalizer, THING, "x.b.c");
    assert w.objects[KeyOf(THING)] == Terminating(["x.b.c"], []);
    ThingDead(w, ["x.b.c"], []);
    var a := Pass(w, THING, StrictMode, action, 1);
    ClearLands(w, action);
    hide Pass, StateIn, History, Recorded;
    past := LandedPass(w, THING, StrictMode, action);
    r := LostRun(past, a);
  }

  lemma ClearLands(w: World, action: Action)
    requires StateIn(w, THING, StrictMode) == Dead && action.kind == ClearFinalizer && KeyOf(action.target) in w.objects
    ensures
      var a := Pass(w, THING, StrictMode, action, 1);
      Landed(a) && a.write == 11 && a.ended == 13 && a.fault == NoFault
  {
    hide StateIn;
  }

  lemma LostRun(past: seq<World>, a: Attempt) returns (r: Run)
    requires Recorded(past, THING, StrictMode, a) && Landed(a) && a.begun == 1 && a.ended == |past|
      && a.fault == NoFault
    ensures Ran(past, r) && |Writes(r.attempts)| == r.completed + 1
  {
    hide Recorded, Landed, Done, Writes, OpOf;
    var lost := a.(fault := LostReply);
    LostRecorded(past, a);
    RecordWindow(past, THING, StrictMode, a);
    r := Run(THING, StrictMode, [a.action], 1, |past|, [lost], 0, false);
    LogIsPlanPrefix(past, r);
  }

  lemma LostRecorded(past: seq<World>, a: Attempt)
    requires Recorded(past, THING, StrictMode, a) && Landed(a)
    ensures
      var lost := a.(fault := LostReply);
      Recorded(past, THING, StrictMode, lost) && Landed(lost) && !Done(lost)
  {
    hide StateSeen, InOrder, Perform;
  }

  /* Torn reads */

  const ORPHAN := Ref(GVR("g.h", "v1", "things"), "ns", "m")

  /** The same objects, with evidence on which the finalizer is a CRD's, and with none. */
  function Shadowed(w: World): World {
    w.(apiServices := [DownService("x.b.c")], crds := ["b.c"])
  }

  function Unserved(w: World): World {
    w.(apiServices := [], crds := [])
  }

  /** The target is there, and neither on this evidence nor on the other DEAD. */
  predicate Waiting(w: World) {
    && Versioned(w) && KeyOf(THING) in w.objects && w.apiServices == [] && w.crds == []
    && w.objects[KeyOf(THING)].metaFinalizers == ["x.b.c"] && w.objects[KeyOf(THING)].specFinalizers == []
  }

  function TornAttempt(w: World, action: Action, n: nat): Attempt
    requires KeyOf(action.target) in w.objects
  {
    Attempt(action, n, LookFrom(n), Dead, At(n + 8), Some(w.objects[KeyOf(action.target)]), At(0), false,
            n + 10, true, NoFault, n + 12)
  }

  /** Two instants of the shadowed evidence, nine of none, and what the write makes of it. */
  function TornPast(past: seq<World>, action: Action): (later: seq<World>)
    requires past != [] && KeyOf(action.target) in past[|past| - 1].objects && action.kind != FinalizeNamespace
    ensures
      var n, w := |past|, past[|past| - 1];
      && |later| == n + 12 && past <= later
      && later[n] == later[n + 1] == Shadowed(w) && (forall i | n + 2 <= i < n + 11 :: later[i] == Unserved(w))
      && later[n + 11] == Perform(Unserved(w), OpOf(action, w.objects[KeyOf(action.target)]))
  {
    var w := past[|past| - 1];
    Repeat(Repeat(past + [Shadowed(w)], 1) + [Unserved(w)], 8)
    + [Perform(Unserved(w), OpOf(action, w.objects[KeyOf(action.target)]))]
  }

  lemma TornHistory(past: seq<World>, action: Action)
    requires History(past) && Waiting(past[|past| - 1])
    requires KeyOf(action.target) in past[|past| - 1].objects && action.kind != FinalizeNamespace
    ensures History(TornPast(past, action))
  {
    var w := past[|past| - 1];
    var op := OpOf(action, w.objects[KeyOf(action.target)]);
    assert Evolves(w, Shadowed(w)) && Evolves(Shadowed(w), Unserved(w)) && Accepts(Unserved(w), op);
    hide History, Evolves, Versioned, Accepts, OpOf, Shadowed, Unserved, Perform, Waiting;
    HistoryExtends(past, Shadowed(w));
    HistoryRepeats(past + [Shadowed(w)], 1);
    HistoryExtends(Repeat(past + [Shadowed(w)], 1), Unserved(w));
    HistoryRepeats(Repeat(past + [Shadowed(w)], 1) + [Unserved(w)], 8);
    LastVersioned(Repeat(past + [Shadowed(w)], 1) + [Unserved(w)]);
    PerformEvolves(Unserved(w), op);
    HistoryExtends(Repeat(Repeat(past + [Shadowed(w)], 1) + [Unserved(w)], 8), Perform(Unserved(w), op));
  }

  /** The target and the services are read on the one evidence, the rest on the other. */
  lemma TornState(past: seq<World>, w: World, n: nat)
    requires Waiting(w) && n + 3 <= |past| && past[n] == past[n + 1] == Shadowed(w) && past[n + 2] == Unserved(w)
    ensures StateSeen(past, THING, StrictMode, LookFrom(n)) == Dead
  {
    var o := w.objects[KeyOf(THING)];
    var s, obj := Snap(past, [THING], LookFrom(n)), ToStuckObject(THING, o);
    OneTarget(past, THING, LookFrom(n));
    assert s.targets == [obj] && s.apiServices == [DownService("x.b.c")] && s.crds == [] && ApiServices in s.readable;
    hide Snap, Judge, JudgeAll, DownService;
    ShadowDead(obj, s);
    TargetDeadExact(StrictMode, obj, s);
  }

  lemma TornRecorded(past: seq<World>, action: Action)
    requires past != [] && Waiting(past[|past| - 1]) && action.kind != FinalizeNamespace
    requires KeyOf(action.target) in past[|past| - 1].objects
    ensures
      var a := TornAttempt(past[|past| - 1], action, |past|);
      Recorded(TornPast(past, action), THING, StrictMode, a) && Done(a)
  {
    hide Recorded, Done, StateSeen, Perform, OpOf, Shadowed, Unserved, TornPast, TornAttempt, Waiting;
    var n, w, later := |past|, past[|past| - 1], TornPast(past, action);
    TornState(later, w, n);
    TornAccepted(w, action);
    TornShown(later, w, action, n);
  }

  lemma TornAccepted(w: World, action: Action)
    requires action.kind != FinalizeNamespace && KeyOf(action.target) in w.objects
    ensures Accepts(Unserved(w), OpOf(action, w.objects[KeyOf(action.target)]))
  {}

  lemma TornShown(later: seq<World>, w: World, action: Action, n: nat)
    requires |later| == n + 12 && later[n + 8] == later[n + 10] == Unserved(w) && action.kind != FinalizeNamespace
    requires KeyOf(action.target) in w.objects && StateSeen(later, THING, StrictMode, LookFrom(n)) == Dead
    requires
      var op := OpOf(action, w.objects[KeyOf(action.target)]);
      Accepts(Unserved(w), op) && later[n + 11] == Perform(Unserved(w), op)
    ensures Recorded(later, THING, StrictMode, TornAttempt(w, action, n)) && Done(TornAttempt(w, action, n))
  {
    hide StateSeen, Perform, KeyOf;
    assert Answer(later, At(n + 8)) == Unserved(w);
  }

  lemma ShadowedAlive(w: World, o: Obj)
    requires Lookup(w, THING) == Some(o) && o.metaFinalizers == ["x.b.c"] && o.specFinalizers == []
    requires w.apiServices == [DownService("x.b.c")] && w.crds == ["b.c"]
    ensures StateIn(w, THING, StrictMode) != Dead
  {
    var s, obj := Snap([w], [THING], AT_ONCE), ToStuckObject(THING, o);
    OneWorldSnap(w, THING);
    LostCrdReadTurnsUnknownIntoDead(obj, s);
    TargetDeadExact(StrictMode, obj, s);
    hide Snap, Judge, DownService;
    assert obj.AllFinalizers()[0] == "x.b.c";
  }

  lemma NothingDown(w: World)
    requires w.apiServices == []
    ensures StateIn(w, THING, StrictMode) != Dead
  {
    var s := Snap([w], [THING], AT_ONCE);
    OneWorldSnap(w, THING);
    hide Snap, Judge;
    if s.targets != [] {
      var obj := s.targets[0];
      TargetDeadExact(StrictMode, obj, s);
      if CombinedState(JudgeAll(StrictMode, obj, s)) == Dead {
        DeadIsWitnessed(StrictMode, obj, obj.AllFinalizers()[0], s);
        assert false;
      }
    }
  }

  lemma TornNeverDead(past: seq<World>, action: Action)
    requires past != [] && Waiting(past[|past| - 1]) && action.kind != FinalizeNamespace
    requires KeyOf(action.target) in past[|past| - 1].objects
    requires forall j | 0 <= j < |past| :: StateIn(past[j], THING, StrictMode) != Dead
    ensures forall j | 0 <= j < |past| + 12 :: StateIn(TornPast(past, action)[j], THING, StrictMode) != Dead
  {
    hide StateIn, Shadowed, Unserved, TornPast, Perform, OpOf, Waiting;
    var n, w, later := |past|, past[|past| - 1], TornPast(past, action);
    TornAlive(w, action);
    forall j | 0 <= j < n + 12 ensures StateIn(later[j], THING, StrictMode) != Dead {
      if j < n {
        assert later[j] == past[j];
      } else {
        assert later[j] == Shadowed(w) || later[j] == Unserved(w) || j == n + 11;
      }
    }
  }

  lemma TornAlive(w: World, action: Action)
    requires Waiting(w) && action.kind != FinalizeNamespace && KeyOf(action.target) in w.objects
    ensures StateIn(Shadowed(w), THING, StrictMode) != Dead && StateIn(Unserved(w), THING, StrictMode) != Dead
    ensures
      var op := OpOf(action, w.objects[KeyOf(action.target)]);
      Accepts(Unserved(w), op) && StateIn(Perform(Unserved(w), op), THING, StrictMode) != Dead
  {
    hide StateIn, Perform, DownService;
    var op := OpOf(action, w.objects[KeyOf(action.target)]);
    ShadowedAlive(Shadowed(w), w.objects[KeyOf(THING)]);
    NothingDown(Unserved(w));
    NothingServed(Unserved(w), op);
    NothingDown(Perform(Unserved(w), op));
  }

  lemma NothingServed(w: World, op: Op)
    requires Accepts(w, op) && w.apiServices == []
    ensures Perform(w, op).apiServices == []
  {}

  /** Recovery has to be stated across worlds, and not only for the write in flight: in
      no world of the history is the target DEAD, yet every re-verification of the
      run reads DEAD, and it deletes an orphan and clears the finalizer. Each time the
      finalizer's group is served and down, where a CRD takes the attribution, and
      both are gone before the CRDs are read. */
  lemma TornReadLooksDead() returns (past: seq<World>, r: Run)
    ensures History(past) && Ran(past, r) && r.target == THING && r.mode == StrictMode
    ensures |r.attempts| == 2 && Landed(r.attempts[0]) && Landed(r.attempts[1])
    ensures forall j | 0 <= j < |past| :: StateIn(past[j], THING, StrictMode) != Dead
  {
    var clean, clear := Action(CleanOrphan, ORPHAN, ""), Action(ClearFinalizer, THING, "x.b.c");
    TornStart(clean);
    NothingDown(TornWorld());
    hide History, Recorded, Done, Perform, OpOf, StateIn, TornPast, TornWorld, Waiting, DownService, KeyOf;
    past, r := TornTwice(TornWorld(), TornPast([TornWorld()], clean), clean, clear);
  }

  /** The target and an orphan of it. */
  function TornWorld(): World {
    World(1, map[KeyOf(THING) := Terminating(["x.b.c"], []), KeyOf(ORPHAN) := Terminating([], []).(deleting := false)],
          [], [], [], [], [], [])
  }

  lemma TornStart(clean: Action)
    requires clean == Action(CleanOrphan, ORPHAN, "")
    ensures Waiting(TornWorld()) && History([TornWorld()]) && TornWorld().apiServices == []
    ensures KeyOf(ORPHAN) in TornWorld().objects
    ensures Waiting(TornPast([TornWorld()], clean)[12]) && KeyOf(THING) in TornPast([TornWorld()], clean)[12].objects
  {
    var w := TornWorld();
    assert w.objects[KeyOf(THING)] == Terminating(["x.b.c"], []);
    assert w.objects[KeyOf(ORPHAN)] == Terminating([], []).(deleting := false);
    assert Unserved(w) == w && Evolves(w, w);
    var v := Perform(w, OpOf(clean, w.objects[KeyOf(ORPHAN)]));
    assert v.objects[KeyOf(THING)] == w.objects[KeyOf(THING)] && TornPast([w], clean)[12] == v;
  }

  lemma TornTwice(w: World, first: seq<World>, clean: Action, clear: Action) returns (past: seq<World>, r: Run)
    requires Waiting(w) && History([w]) && StateIn(w, THING, StrictMode) != Dead
    requires KeyOf(clean.target) in w.objects && clean.kind != FinalizeNamespace
    requires first == TornPast([w], clean) && Waiting(first[12])
    requires KeyOf(clear.target) in first[12].objects && clear.kind != FinalizeNamespace
    ensures History(past) && Ran(past, r) && r.target == THING && r.mode == StrictMode
    ensures |r.attempts| == 2 && Landed(r.attempts[0]) && Landed(r.attempts[1])
    ensures forall j | 0 <= j < |past| :: StateIn(past[j], THING, StrictMode) != Dead
  {
    hide History, Recorded, StateIn, TornPast, Waiting, OpOf, Perform, Shadowed, Unserved;
    TornHistory([w], clean);
    TornRecorded([w], clean);
    TornNeverDead([w], clean);
    past := TornPast(first, clear);
    TornHistory(first, clear);
    TornRecorded(first, clear);
    TornNeverDead(first, clear);
    var a, b := TornAttempt(w, clean, 1), TornAttempt(first[12], clear, 13);
    RecordKept(first, past, THING, StrictMode, a);
    r := Run(THING, StrictMode, [clean, clear], 1, 25, [a, b], 2, true);
  }
}
