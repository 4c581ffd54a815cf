/** The ordered remediation. */
module Plans {
  import opened Lists
  import opened Model
  import opened Diagnosis

  const BLOCKED_NOTE := "refused: a failurePolicy=Fail webhook with dead backing would reject the clear"

  function NotDead(vs: seq<Verdict>): seq<Verdict> {
    if vs == [] then []
    else NotDead(vs[..|vs| - 1]) + if vs[|vs| - 1].state != Dead then [vs[|vs| - 1]] else []
  }

  function CleanActions(orphans: seq<Ref>): (r: seq<Action>)
    ensures |r| == |orphans|
  {
    if orphans == [] then []
    else
      var n := |orphans| - 1;
      CleanActions(orphans[..n]) + [Action(CleanOrphan, orphans[n], "")]
  }

  function ClearActions(target: Ref, finalizers: seq<string>): (r: seq<Action>)
    ensures |r| == |finalizers|
  {
    if finalizers == [] then []
    else
      var n := |finalizers| - 1;
      ClearActions(target, finalizers[..n]) + [Action(ClearFinalizer, target, finalizers[n])]
  }

  function Named(vs: seq<Verdict>): (r: seq<string>)
    ensures |r| == |vs|
  {
    if vs == [] then [] else Named(vs[..|vs| - 1]) + [vs[|vs| - 1].finalizer]
  }

  /** The finalizers cleared in metadata: all of them, except that a namespace
      keeps `kubernetes` for the finalize subresource. */
  function Cleared(target: Ref, finalizers: seq<string>): seq<string> {
    if target.IsNamespace() then Without(finalizers, KUBERNETES) else finalizers
  }

  function LastAction(target: Ref, finalizers: seq<string>): Option<Action> {
    if target.IsNamespace() && KUBERNETES in finalizers then Some(Action(FinalizeNamespace, target, KUBERNETES))
    else None
  }

  function FinalizeActions(target: Ref, finalizers: seq<string>): seq<Action> {
    match LastAction(target, finalizers) case Some(a) => [a] case None => []
  }

  function Remediation(target: Ref, finalizers: seq<string>, orphans: seq<Ref>): seq<Action> {
    CleanActions(orphans) + ClearActions(target, Cleared(target, finalizers)) + FinalizeActions(target, finalizers)
  }

  function PlanFor(obj: StuckObject, vs: seq<Verdict>, orphans: seq<Ref>, webhookBlocker: bool): Plan {
    if NotDead(vs) != [] then Plan([], NotDead(vs), [])
    else if webhookBlocker then Plan([], [], [BLOCKED_NOTE])
    else Plan(Remediation(obj.ref, Named(vs), orphans), [], [])
  }

  lemma {:induction false} WithoutAppend(s: seq<string>, y: string, x: string)
    ensures Without(s + [y], x) == Without(s, x) + if y == x then [] else [y]
  {
    if s != [] {
      WithoutAppend(s[1..], y, x);
      assert (s + [y])[1..] == s[1..] + [y];
    }
  }

  lemma NamedStep(vs: seq<Verdict>, i: nat)
    requires i < |vs|
    ensures Named(vs[..i + 1]) == Named(vs[..i]) + [vs[i].finalizer]
  {
    TakeStep(vs, i);
  }

  lemma ClearsAppend(target: Ref, finalizers: seq<string>, f: string)
    ensures ClearActions(target, Cleared(target, finalizers + [f])) ==
      ClearActions(target, Cleared(target, finalizers))
      + if target.IsNamespace() && f == KUBERNETES then [] else [Action(ClearFinalizer, target, f)]
  {
    WithoutAppend(finalizers, f, KUBERNETES);
    var cleared := Cleared(target, finalizers);
    assert (cleared + [f])[..|cleared|] == cleared;
    assert cleared + [] == cleared && ClearActions(target, cleared) + [] == ClearActions(target, cleared);
    assert ClearActions(target, cleared + [f]) == ClearActions(target, cleared) + [Action(ClearFinalizer, target, f)];
  }

  /** The second half of `Build`: metadata clears, then the namespace finalize. */
  method ClearsThenFinalize(target: Ref, vs: seq<Verdict>, cleans: seq<Action>) returns (actions: seq<Action>)
    ensures actions == cleans + ClearActions(target, Cleared(target, Named(vs))) + FinalizeActions(target, Named(vs))
  {
    UpToEnds(target, vs);
    hide ClearsUpTo, LastUpTo, ClearActions, LastAction, Cleared, Named;
    actions := cleans;
    var finalizeAction: Option<Action> := None;
    for i := 0 to |vs|
      invariant actions == cleans + ClearsUpTo(target, vs, i)
      invariant finalizeAction == LastUpTo(target, vs, i)
    {
      UpToStep(target, vs, i);
      if target.IsNamespace() && vs[i].finalizer == KUBERNETES {
        finalizeAction := Some(Action(FinalizeNamespace, target, vs[i].finalizer));
        continue;
      }
      actions := actions + [Action(ClearFinalizer, target, vs[i].finalizer)];
    }
    if finalizeAction.Some? {
      actions := actions + [finalizeAction.value];
    }
  }

  lemma UpToEnds(target: Ref, vs: seq<Verdict>)
    ensures ClearsUpTo(target, vs, 0) == [] && LastUpTo(target, vs, 0) == None
    ensures ClearsUpTo(target, vs, |vs|) == ClearActions(target, Cleared(target, Named(vs)))
    ensures LastUpTo(target, vs, |vs|) == LastAction(target, Named(vs))
  {
    assert vs[..|vs|] == vs && vs[..0] == [];
  }

  ghost function ClearsUpTo(target: Ref, vs: seq<Verdict>, i: nat): seq<Action>
    requires i <= |vs|
  {
    ClearActions(target, Cleared(target, Named(vs[..i])))
  }

  ghost function LastUpTo(target: Ref, vs: seq<Verdict>, i: nat): Option<Action>
    requires i <= |vs|
  {
    LastAction(target, Named(vs[..i]))
  }

  lemma UpToStep(target: Ref, vs: seq<Verdict>, i: nat)
    requires i < |vs|
    ensures
      var last := target.IsNamespace() && vs[i].finalizer == KUBERNETES;
      && ClearsUpTo(target, vs, i + 1) == ClearsUpTo(target, vs, i)
        + (if last then [] else [Action(ClearFinalizer, target, vs[i].finalizer)])
      && LastUpTo(target, vs, i + 1) ==
        if last then Some(Action(FinalizeNamespace, target, KUBERNETES)) else LastUpTo(target, vs, i)
  {
    NamedStep(vs, i);
    ClearsAppend(target, Named(vs[..i]), vs[i].finalizer);
  }

  method Build(obj: StuckObject, vs: seq<Verdict>, orphans: seq<Ref>, webhookBlocker: bool) returns (p: Plan)
    ensures p == PlanFor(obj, vs, orphans, webhookBlocker)
  {
    p := Plan([], [], []);
    for i := 0 to |vs|
      invariant p == Plan([], NotDead(vs[..i]), [])
    {
      TakeStep(vs, i);
      if vs[i].state != Dead {
        p := p.(refused := p.refused + [vs[i]]);
      }
    }
    assert vs[..|vs|] == vs;
    if |p.refused| > 0 {
      return;
    }
    if webhookBlocker {
      p := p.(notes := p.notes + [BLOCKED_NOTE]);
      return;
    }
    for i := 0 to |orphans|
      invariant p == Plan(CleanActions(orphans[..i]), [], [])
    {
      TakeStep(orphans, i);
      p := p.(actions := p.actions + [Action(CleanOrphan, orphans[i], "")]);
    }
    assert orphans[..|orphans|] == orphans;
    var actions := ClearsThenFinalize(obj.ref, vs, p.actions);
    p := p.(actions := actions);
  }

  /** The two gates agree: a verdict list is all-DEAD exactly when it is nonempty
      and the plan refuses nothing. */
  lemma PlanAgreesWithCombinedState(obj: StuckObject, vs: seq<Verdict>, orphans: seq<Ref>)
    ensures CombinedState(vs) == Dead <==> vs != [] && PlanFor(obj, vs, orphans, false).refused == []
    ensures PlanFor(obj, vs, orphans, false).actions != [] ==> PlanFor(obj, vs, orphans, false).refused == []
    ensures CombinedState(vs) == Dead ==> PlanFor(obj, vs, orphans, false).actions != []
    ensures PlanFor(obj, vs, orphans, true).actions == []
  {
    CombinedDeadExact(vs);
    NotDeadExact(vs);
    if CombinedState(vs) == Dead {
      assert Named(vs)[0] in Named(vs);
    }
  }

  /** Refused is what is not DEAD. */
  lemma {:induction false} NotDeadExact(vs: seq<Verdict>)
    ensures forall v :: v in NotDead(vs) <==> v in vs && v.state != Dead
    ensures NotDead(vs) == [] <==> forall v | v in vs :: v.state == Dead
  {
    if vs != [] {
      NotDeadExact(vs[..|vs| - 1]);
      assert vs == vs[..|vs| - 1] + [vs[|vs| - 1]];
    }
    assert NotDead(vs) != [] ==> NotDead(vs)[0] in NotDead(vs);
  }

  lemma {:induction false} CleansAt(orphans: seq<Ref>)
    ensures forall i | 0 <= i < |orphans| :: CleanActions(orphans)[i] == Action(CleanOrphan, orphans[i], "")
  {
    if orphans != [] {
      CleansAt(orphans[..|orphans| - 1]);
    }
  }

  lemma {:induction false} ClearsAt(target: Ref, finalizers: seq<string>)
    ensures forall i | 0 <= i < |finalizers| ::
      ClearActions(target, finalizers)[i] == Action(ClearFinalizer, target, finalizers[i])
  {
    if finalizers != [] {
      ClearsAt(target, finalizers[..|finalizers| - 1]);
    }
  }

  function Rank(k: ActionKind): int {
    match k case CleanOrphan => 0 case ClearFinalizer => 1 case FinalizeNamespace => 2
  }

  /** Orphans first, then the metadata clears, one finalize at most and last. */
  lemma RemediationOrdered(target: Ref, finalizers: seq<string>, orphans: seq<Ref>)
    ensures
      var actions := Remediation(target, finalizers, orphans);
      && (forall i, j | 0 <= i < j < |actions| ::
        Rank(actions[i].kind) <= Rank(actions[j].kind) && actions[i].kind != FinalizeNamespace)
      && (forall a | a in actions && a.kind != CleanOrphan :: a.target == target && a.finalizer in finalizers)
      && (Action(FinalizeNamespace, target, KUBERNETES) in actions <==>
        target.IsNamespace() && KUBERNETES in finalizers)
  {
    var cleared := Cleared(target, finalizers);
    CleansAt(orphans);
    ClearsAt(target, cleared);
    if target.IsNamespace() && KUBERNETES in finalizers {
      var actions := Remediation(target, finalizers, orphans);
      assert actions[|actions| - 1] == Action(FinalizeNamespace, target, KUBERNETES);
    }
  }

  /** Each finalizer is taken as often as it was judged, except that a namespace's
      `kubernetes` entries become one final action; each orphan as often as found. */
  lemma RemediationConserves(target: Ref, finalizers: seq<string>, orphans: seq<Ref>, f: string, r: Ref)
    ensures
      var actions := multiset(Remediation(target, finalizers, orphans));
      && actions[Action(ClearFinalizer, target, f)] ==
        (if target.IsNamespace() && f == KUBERNETES then 0 else multiset(finalizers)[f])
      && actions[Action(CleanOrphan, r, "")] == multiset(orphans)[r]
  {
    var cleared := Cleared(target, finalizers);
    var cleans, clears, last := CleanActions(orphans), ClearActions(target, cleared),
      FinalizeActions(target, finalizers);
    ClearCount(target, cleared, f);
    CleanCount(orphans, r);
    WithoutCount(finalizers, KUBERNETES, f);
    hide Without, CleanActions, ClearActions;
    var clear, clean := Action(ClearFinalizer, target, f), Action(CleanOrphan, r, "");
    assert clear !in cleans by { CleansAt(orphans); }
    assert clean !in clears by { ClearsAt(target, cleared); }
    assert multiset(cleans + clears + last)[clear] == multiset(clears)[clear];
    assert multiset(cleans + clears + last)[clean] == multiset(cleans)[clean];
  }

  lemma {:induction false} ClearCount(target: Ref, finalizers: seq<string>, f: string)
    ensures multiset(ClearActions(target, finalizers))[Action(ClearFinalizer, target, f)] == multiset(finalizers)[f]
  {
    if finalizers != [] {
      var n := |finalizers| - 1;
      ClearCount(target, finalizers[..n], f);
      assert finalizers == finalizers[..n] + [finalizers[n]];
    }
  }

  lemma {:induction false} CleanCount(orphans: seq<Ref>, r: Ref)
    ensures multiset(CleanActions(orphans))[Action(CleanOrphan, r, "")] == multiset(orphans)[r]
  {
    if orphans != [] {
      var n := |orphans| - 1;
      CleanCount(orphans[..n], r);
      assert orphans == orphans[..n] + [orphans[n]];
    }
  }

  lemma {:induction false} WithoutCount(s: seq<string>, x: string, f: string)
    ensures multiset(Without(s, x))[f] == if f == x then 0 else multiset(s)[f]
  {
    if s != [] {
      WithoutCount(s[1..], x, f);
      assert s == [s[0]] + s[1..];
    }
  }
}
