/** What one invocation guarantees from end to end. */
module Guarantees {
  import opened Text
  import opened Lists
  import opened Model
  import opened Terms
  import opened Diagnosis
  import opened Plans
  import opened Discover
  import opened Digest
  import opened AdmissionWebhooks
  import opened Orphans
  import opened Cluster
  import opened Snapshots
  import opened Diagnoses
  import opened Execution
  import opened Scanning
  import opened Safety
  import opened Cli

  /* From the dry run to the apply run */

  lemma {:induction false} BoundsExact(vs: seq<Verdict>)
    ensures |Bounds(vs)| == |vs|
    ensures (forall b | b in Bounds(vs) :: b.state == Dead) <==> forall v | v in vs :: v.state == Dead
  {
    if vs != [] {
      var n := |vs| - 1;
      BoundsExact(vs[..n]);
      assert vs == vs[..n] + [vs[n]];
    }
  }

  /** Whether a target is DEAD is among the things the token binds. */
  lemma BoundStateExact(va: seq<Verdict>, vb: seq<Verdict>)
    requires multiset(Bounds(va)) == multiset(Bounds(vb))
    ensures CombinedState(va) == Dead <==> CombinedState(vb) == Dead
  {
    BoundsExact(va);
    BoundsExact(vb);
    CombinedDeadExact(va);
    CombinedDeadExact(vb);
    SameMembers(Bounds(va), Bounds(vb));
    assert |multiset(Bounds(va))| == |va| && |multiset(Bounds(vb))| == |vb|;
  }

  /** The hash tells the two canonical texts apart, if they differ. */
  predicate NoCollision(hash: string -> string, a: TargetResult, b: TargetResult) {
    var ca := Canonical(a.obj.ref, a.verdicts, Decimal(a.obj.version));
    var cb := Canonical(b.obj.ref, b.verdicts, Decimal(b.obj.version));
    hash(ca) == hash(cb) ==> ca == cb
  }

  /** The two lines a dry run prints for an offered target can be relied on: the
      command leads back to the same reference, and applying it with the printed
      token is authorized exactly as long as no webhook blocks, the verdicts are
      the same in any order and the target is unchanged. */
  lemma PrintedCommandAccepted(hash: string -> string, o: Options, lists: seq<ResourceList>,
                               before: Snapshot, a: TargetResult, after: Snapshot, b: TargetResult)
    requires Offered(before, a) && b.obj.ref == a.obj.ref
    requires Printable(a.obj.ref) && ' ' !in CliWord(a.obj.ref)
    requires CollisionFree(lists, a.obj.ref.gvr) && (Offers(lists, a.obj.ref.gvr) || a.obj.ref.gvr.version == "v1")
    requires PlainRef(a.obj.ref) && PlainFinalizers(a.verdicts) && PlainFinalizers(b.verdicts)
    requires !o.interactive && o.confirm == Offer(hash, a).token != ""
    requires NoCollision(hash, a, b)
    ensures
      var (word, namespace) := Reread(Offer(hash, a).command);
      var target := ParseTarget(word, namespace);
      target.Ok? && Resolve(Ok(lists), target.value) == b.obj.ref
    ensures Authorized(o, hash, after, b) <==>
      && !Blocked(after, b.obj.ref)
      && multiset(Bounds(a.verdicts)) == multiset(Bounds(b.verdicts))
      && a.obj.version == b.obj.version
  {
    PrintedTargetResolves(a.obj.ref, lists);
    hide ParseTarget, Reread, Resolve, Printable, CollisionFree, Offers, Blocked, CombinedState, Canonical, PlainRef;
    hide PlainFinalizers, Bounds;
    var va, vb := Decimal(a.obj.version), Decimal(b.obj.version);
    GateExact(hash, "", a.obj.ref, a.verdicts, va, b.obj.ref, b.verdicts, vb);
    if va == vb {
      DecimalInjective(a.obj.version, b.obj.version);
    }
    if multiset(Bounds(a.verdicts)) == multiset(Bounds(b.verdicts)) {
      BoundStateExact(a.verdicts, b.verdicts);
    }
  }

  /** The one result of an explicit target is that of the reference that was named. */
  lemma ResultIsNamed(past: seq<World>, o: Options, t: Trace, b: TargetResult)
    requires Diagnosed(past, o, t) && o.apply && b in t.results
    ensures !o.all && |t.refs| == |t.results| == 1 && b.obj.ref == t.refs[0] && t.asked != []
    ensures NamedBy(past, t.asked[0].at, o, b.obj.ref) && StuckAt(past, t.asked[|t.asked| - 1].at.when, b.obj.ref)
  {
    hide Swept, NamedBy, StuckAt, Snap, Results, Reviewed;
    assert t.refs == [t.refs[0]] && |Asked(t.asked)| == |t.asked|;
    SingleResult(past, t.refs[0], t.times, o.mode, t.snap);
  }

  /** A diagnosed target was taken, field by field, from the object one of the
      diagnosis' own reads found. */
  lemma ResultRead(past: seq<World>, o: Options, t: Trace, a: TargetResult) returns (m: nat)
    requires Diagnosed(past, o, t) && a in t.results
    ensures ReadAs(past, t.refs, t.times.targets, m, a.obj)
    ensures t.located <= t.times.targets[m].when < t.judged
  {
    hide Admitted, Results, ReadAs;
    var i :| 0 <= i < |t.results| && t.results[i] == a;
    ResultAt(o.mode, t.snap.targets, t.snap, i);
    TargetsRead(past, t.refs, t.times.targets);
    assert a.obj in Found(past, t.refs, t.times.targets);
    m :| ReadAs(past, t.refs, t.times.targets, m, a.obj);
    ReadInRange(past, t.refs, t.times.targets);
  }

  /** A target is executed exactly if nothing stands in its way; in a terminal, exactly if
      its name was typed. */
  lemma ExecutedExact(past: seq<World>, o: Options, hash: string -> string, t: Trace, code: int, lines: seq<Line>)
    requires Lawful(past, o, hash, t) && t.diagnosed && Truthful(o, hash, t, code, lines) && o.apply && t.results != []
    ensures
      var b := t.results[0];
      t.done != [] <==>
        && b.verdicts != [] && (forall v | v in b.verdicts :: v.state == Dead) && !Blocked(t.snap, b.obj.ref)
        && if o.interactive then o.typedName == b.obj.ref.name
           else o.confirm != "" && o.confirm == hash(Canonical(b.obj.ref, b.verdicts, Decimal(b.obj.version)))
  {
    AuthorizedExact(o, hash, t.snap, t.results[0]);
    hide Authorized, Diagnosed, Ran, Searched, Between, Remediation, Tells, Blocked, Canonical;
  }

  /** Two runs: a dry run printed its lines for `a`, and the apply run was given those
      arguments. If it comes to a result, that is the same target; the plan is carried
      out exactly as long as no webhook blocks and nothing the token binds has
      changed, the resource version of the target among it: `i` and `j` are the
      instants at which the two runs read it. The exit code tells whether all was done. */
  lemma ApplyAfterDryRun(hash: string -> string,
                         past: seq<World>, o: Options, t: Trace, lines: seq<Line>, a: TargetResult,
                         past': seq<World>, o': Options, t': Trace, code': int, lines': seq<Line>,
                         lists: seq<ResourceList>) returns (i: nat, j: nat)
    requires Lawful(past, o, hash, t) && t.diagnosed && Truthful(o, hash, t, 2, lines)
    requires a in t.results && Offered(t.snap, a)
    requires o'.apply && !o'.interactive && o'.confirm == Offer(hash, a).token != ""
    requires (o'.target, o'.namespace) == Reread(Offer(hash, a).command)
    requires Lawful(past', o', hash, t') && t'.diagnosed && Truthful(o', hash, t', code', lines') && t'.results != []
    requires Preferred(past', t'.asked[0].at) == Ok(lists)
    requires Printable(a.obj.ref) && ' ' !in CliWord(a.obj.ref)
    requires CollisionFree(lists, a.obj.ref.gvr) && (Offers(lists, a.obj.ref.gvr) || a.obj.ref.gvr.version == "v1")
    requires PlainRef(a.obj.ref) && PlainFinalizers(a.verdicts) && PlainFinalizers(t'.results[0].verdicts)
    requires NoCollision(hash, a, t'.results[0])
    ensures Offer(hash, a) in lines
    ensures Instant(i, false) in t.times.targets && i < |past| && Instant(j, false) in t'.times.targets && j < |past'|
    ensures
      var b, k := t'.results[0], KeyOf(a.obj.ref);
      && b.obj.ref == a.obj.ref && k in past[i].objects && k in past'[j].objects
      && (t'.done != [] <==>
        && !Blocked(t'.snap, b.obj.ref) && multiset(Bounds(a.verdicts)) == multiset(Bounds(b.verdicts))
        && past[i].objects[k].version == past'[j].objects[k].version)
      && (t'.done != [] ==>
        && t'.done[0].run.actions == Remediation(a.obj.ref, Named(b.verdicts), t'.done[0].Orphans())
        && (code' == 0 <==> t'.done[0].run.ok))
  {
    hide Diagnosed, ParseTarget, Reread, Resolve, Preferred, Printable, CollisionFree, Offers, Authorized, Offered;
    hide Offer, CombinedState, Ran, Searched, Remediation, Between, Tells;
    var b := t'.results[0];
    TokenHolds(hash, past, o, t, a, past', o', t', lists);
    i := ReadVersion(past, o, t, a);
    j := ReadVersion(past', o', t', b);
    OfferReported(hash, t, lines, a, o);
  }

  /** The version of a diagnosed target is that of the object at the instant of its read. */
  lemma ReadVersion(past: seq<World>, o: Options, t: Trace, a: TargetResult) returns (i: nat)
    requires Diagnosed(past, o, t) && a in t.results
    ensures Instant(i, false) in t.times.targets && i < |past|
    ensures KeyOf(a.obj.ref) in past[i].objects && past[i].objects[KeyOf(a.obj.ref)].version == a.obj.version
  {
    hide Diagnosed;
    var m := ResultRead(past, o, t, a);
    i := t.times.targets[m].when;
  }

  lemma OfferReported(hash: string -> string, t: Trace, lines: seq<Line>, a: TargetResult, o: Options)
    requires Truthful(o, hash, t, 2, lines) && a in t.results && Offered(t.snap, a)
    ensures Offer(hash, a) in lines
  {
    hide Offer, Offered, Authorized, Tells;
  }

  lemma TokenHolds(hash: string -> string, past: seq<World>, o: Options, t: Trace, a: TargetResult,
                   past': seq<World>, o': Options, t': Trace, lists: seq<ResourceList>)
    requires a in t.results && Offered(t.snap, a)
    requires o'.apply && !o'.interactive && o'.confirm == Offer(hash, a).token != ""
    requires (o'.target, o'.namespace) == Reread(Offer(hash, a).command)
    requires Diagnosed(past', o', t') && t'.results != [] && Preferred(past', t'.asked[0].at) == Ok(lists)
    requires Printable(a.obj.ref) && ' ' !in CliWord(a.obj.ref)
    requires CollisionFree(lists, a.obj.ref.gvr) && (Offers(lists, a.obj.ref.gvr) || a.obj.ref.gvr.version == "v1")
    requires PlainRef(a.obj.ref) && PlainFinalizers(a.verdicts) && PlainFinalizers(t'.results[0].verdicts)
    requires NoCollision(hash, a, t'.results[0])
    ensures t'.results[0].obj.ref == a.obj.ref
    ensures Authorized(o', hash, t'.snap, t'.results[0]) <==>
      && !Blocked(t'.snap, a.obj.ref)
      && multiset(Bounds(a.verdicts)) == multiset(Bounds(t'.results[0].verdicts))
      && a.obj.version == t'.results[0].obj.version
  {
    var b := t'.results[0];
    ResultIsNamed(past', o', t', b);
    PrintedTargetResolves(a.obj.ref, lists);
    hide Diagnosed, ParseTarget, Reread, Resolve, Preferred, Printable, CollisionFree, Offers, Authorized, Offered;
    hide Offer, CombinedState;
    PrintedCommandAccepted(hash, o', lists, t.snap, a, t'.snap, b);
  }

  /* Every write of an invocation */

  /** The diagnosis condemned this finalizer by an APIService that was down. */
  ghost predicate Condemned(mode: Mode, snap: Snapshot, obj: StuckObject, finalizer: string) {
    && finalizer in obj.AllFinalizers() && Judge(mode, obj, finalizer, snap).state == Dead
    && exists s | s in snap.apiServices :: SaysUnavailable(s) && Implicates(obj.ref, finalizer, s.group)
  }

  lemma {:induction false} NamedExact(mode: Mode, obj: StuckObject, snap: Snapshot, verdicts: seq<Verdict>,
                                      finalizers: seq<string>)
    requires |verdicts| == |finalizers|
    requires forall i | 0 <= i < |verdicts| :: verdicts[i] == Judge(mode, obj, finalizers[i], snap)
    ensures Named(verdicts) == finalizers
  {
    hide Judge;
    if verdicts != [] {
      var n := |verdicts| - 1;
      NamedExact(mode, obj, snap, verdicts[..n], finalizers[..n]);
      assert finalizers == finalizers[..n] + [finalizers[n]];
    }
  }

  lemma {:induction false} ResultAt(mode: Mode, targets: seq<StuckObject>, snap: Snapshot, i: nat)
    requires i < |targets|
    ensures Results(mode, targets, snap)[i] == TargetResult(targets[i], JudgeAll(mode, targets[i], snap))
  {
    if i < |targets| - 1 {
      ResultAt(mode, targets[..|targets| - 1], snap, i);
    }
  }

  lemma AllCondemned(mode: Mode, snap: Snapshot, obj: StuckObject)
    requires CombinedState(JudgeAll(mode, obj, snap)) == Dead
    ensures Named(JudgeAll(mode, obj, snap)) == obj.AllFinalizers()
    ensures forall f | f in obj.AllFinalizers() :: Condemned(mode, snap, obj, f)
  {
    TargetDeadExact(mode, obj, snap);
    NamedExact(mode, obj, snap, JudgeAll(mode, obj, snap), obj.AllFinalizers());
    hide Judge, Implicates, SaysUnavailable, JudgeAll;
    forall f | f in obj.AllFinalizers() ensures Condemned(mode, snap, obj, f) {
      DeadIsWitnessed(mode, obj, f, snap);
    }
  }

  /** What an action of the plan is entitled to: an orphan was owned by the target, at
      some instant from `lo` on and before `hi`, and is not the target; a finalizer was
      condemned by the diagnosis. */
  ghost predicate Entitled(past: seq<World>, lo: nat, hi: nat, mode: Mode, snap: Snapshot, obj: StuckObject,
                           action: Action) {
    if action.kind == CleanOrphan then action.target != obj.ref && WasOrphan(past, lo, hi, obj, action.target)
    else
      && action.target == obj.ref && Condemned(mode, snap, obj, action.finalizer)
      && (action.kind == FinalizeNamespace ==> obj.ref.IsNamespace())
  }

  lemma PlanEntitled(past: seq<World>, lo: nat, hi: nat, mode: Mode, snap: Snapshot, obj: StuckObject,
                     orphans: seq<Ref>)
    requires CombinedState(JudgeAll(mode, obj, snap)) == Dead
    requires forall r | r in orphans :: WasOrphan(past, lo, hi, obj, r)
    ensures forall a | a in Remediation(obj.ref, Named(JudgeAll(mode, obj, snap)), orphans) ::
      Entitled(past, lo, hi, mode, snap, obj, a)
  {
    var finalizers := obj.AllFinalizers();
    AllCondemned(mode, snap, obj);
    ActionSource(obj.ref, finalizers, orphans);
    hide Condemned, WasOrphan, Judge, JudgeAll, Remediation, CombinedState;
    forall a | a in Remediation(obj.ref, finalizers, orphans) ensures Entitled(past, lo, hi, mode, snap, obj, a) {
      if a.kind == CleanOrphan {
        OrphanApart(past, lo, hi, obj, a.target);
      }
    }
  }

  lemma ActionSource(target: Ref, finalizers: seq<string>, orphans: seq<Ref>)
    ensures forall a | a in Remediation(target, finalizers, orphans) ::
      if a.kind == CleanOrphan then a.target in orphans
      else a.target == target && a.finalizer in finalizers && (a.kind == FinalizeNamespace ==> target.IsNamespace())
  {
    RemediationOrdered(target, finalizers, orphans);
    CleansAt(orphans);
    ClearsAt(target, Cleared(target, finalizers));
    hide Cleared, CleanActions, ClearActions;
  }

  lemma OrphanApart(past: seq<World>, lo: nat, hi: nat, obj: StuckObject, r: Ref)
    requires WasOrphan(past, lo, hi, obj, r)
    ensures r != obj.ref
  {}

  /** The attempt landed on fresh reads that showed every finalizer of the parent DEAD,
      by an aggregated APIService that was down. */
  ghost predicate Proven(past: seq<World>, target: Ref, mode: Mode, a: Attempt) {
    && Landed(a) && a.write + 1 < |past|
    && |a.look.targets| == 1
    && a.begun <= a.look.targets[0].when < a.look.services.when < a.cur.when < a.write
    && StateSeen(past, target, mode, a.look) == Dead
    && Parent(past, target, a).Some?
    && var parent := ToStuckObject(target, Parent(past, target, a).value);
       && parent.AllFinalizers() != []
       && (forall f | f in parent.AllFinalizers() :: Judge(mode, parent, f, Snap(past, [target], a.look)).state == Dead)
       && exists s | s in past[a.look.services.when].apiServices :: SaysUnavailable(s)
  }

  /** `e` carries out the run's action number `n`, proven afresh, with exactly the
      effect that action has. */
  ghost predicate Accounted(past: seq<World>, r: Run, e: Write, n: nat) {
    && n < |r.attempts| <= |r.actions|
    && var a := r.attempts[n];
       && r.lo <= a.begun && Proven(past, r.target, r.mode, a) && a.action == r.actions[n]
       && e == Write(OpOf(a.action, a.seen.value), a.write)
       && Effect(past, a)
  }

  lemma RunAccounted(past: seq<World>, r: Run, n: nat)
    requires History(past) && Ran(past, r) && n < |Writes(r.attempts)|
    ensures Accounted(past, r, Writes(r.attempts)[n], n)
  {
    hide Ran, Effect, History, Proven, Landed, Done, Writes, OpOf, Recorded;
    LogEntry(past, r, n);
    LandedProven(past, r.target, r.mode, r.attempts[n]);
    NoLostUpdate(past, r.target, r.mode, r.attempts[n]);
  }

  lemma LogEntry(past: seq<World>, r: Run, n: nat)
    requires Ran(past, r) && n < |Writes(r.attempts)|
    ensures n < |r.attempts| <= |r.actions|
    ensures
      var a := r.attempts[n];
      && r.lo <= a.begun && Recorded(past, r.target, r.mode, a) && Landed(a) && a.action == r.actions[n]
      && Writes(r.attempts)[n] == Write(OpOf(a.action, a.seen.value), a.write)
  {
    hide OpOf, Landed, Recorded, Done, Writes;
    LogIsPlanPrefix(past, r);
  }

  lemma LandedProven(past: seq<World>, target: Ref, mode: Mode, a: Attempt)
    requires Recorded(past, target, mode, a) && Landed(a)
    ensures Proven(past, target, mode, a)
  {
    LandedWasProven(past, target, mode, a);
    RecordWindow(past, target, mode, a);
    assert a.state == StateSeen(past, target, mode, a.look) == Dead;
    hide Recorded, Landed, SaysUnavailable, Judge, Snap, Parent, StateSeen;
  }

  /** Every write of an invocation, as found in the client's log: the next action of
      an authorized plan on the target that was named and seen stuck, entitled by
      the diagnosis and accounted for at its instant. One thing after the other: the
      target seen stuck, the diagnosis, the search for orphans, the re-verification,
      the write. */
  lemma EveryWriteAccounted(past: seq<World>, o: Options, hash: string -> string, t: Trace, n: nat)
    requires History(past) && Lawful(past, o, hash, t) && n < |AllWrites(t.done)|
    ensures |t.done| == 1 && t.asked != []
    ensures
      var x, seen := t.done[0], t.asked[|t.asked| - 1].at.when;
      && Authorized(o, hash, t.snap, x.result) && Diagnosed(past, o, t)
      && NamedBy(past, t.asked[0].at, o, x.result.obj.ref) && StuckAt(past, seen, x.result.obj.ref)
      && Accounted(past, x.run, AllWrites(t.done)[n], n)
      && Entitled(past, t.judged, x.run.lo, o.mode, t.snap, x.result.obj, x.run.actions[n])
      && ReadAs(past, t.refs, t.times.targets, 0, x.result.obj)
      && (o.interactive ==> o.typedName == x.result.obj.ref.name)
      && (!o.interactive ==>
        o.confirm == hash(Canonical(x.result.obj.ref, x.result.verdicts, Decimal(x.result.obj.version))) != "")
      && t.begun <= seen < t.located <= t.times.services.when < t.judged <= x.run.lo <= x.run.attempts[n].begun
  {
    OneOutcome(t.done);
    OutcomeEntitled(past, o, hash, t);
    AuthorizedExact(o, hash, t.snap, t.done[0].result);
    hide Canonical, Blocked, ReadAs;
    hide Authorized, Accounted, Entitled, Ran, Searched, Between, Remediation, StuckAt, NamedBy, Writes, AllWrites;
    hide Diagnosed, History;
    ResultIsNamed(past, o, t, t.done[0].result);
    TargetRead(past, o, t, t.done[0].result);
    RunAccounted(past, t.done[0].run, n);
    WriteLater(past, t.done[0].run, AllWrites(t.done)[n], n);
    DiagnosedChronology(past, o, t);
    SearchChronology(past, o, hash, t);
  }

  lemma TargetRead(past: seq<World>, o: Options, t: Trace, a: TargetResult)
    requires Diagnosed(past, o, t) && a in t.results && |t.refs| == 1
    ensures ReadAs(past, t.refs, t.times.targets, 0, a.obj)
  {
    hide Diagnosed;
    var m := ResultRead(past, o, t, a);
  }

  /** Which access review comes before which write: the clears of a target that is no
      namespace need patch, the finalize of a core namespace its finalize subresource. */
  lemma WritesReviewed(past: seq<World>, o: Options, hash: string -> string, t: Trace, n: nat)
    requires History(past) && Lawful(past, o, hash, t) && n < |AllWrites(t.done)|
    ensures |t.asked| == 4 && NoneFailed(t.asked[1..])
    ensures
      var e, ref := AllWrites(t.done)[n], t.done[0].result.obj.ref;
      && (e.op.Patch? && ref.gvr.resource != "namespaces" ==>
        && e.op.ref == ref
        && t.asked[2].request == Review(Access(ref.gvr.group, ref.gvr.resource, "", ref.namespace, ref.name, "patch")))
      && (e.op.Finalize? ==>
        t.asked[2].request == Review(Access("", "namespaces", "finalize", "", e.op.name, "update")))
  {
    hide Authorized, Diagnosed, NamedBy, StuckAt, Lawful, AllWrites, History, ReadAs, Canonical, Condemned, WasOrphan;
    EveryWriteAccounted(past, o, hash, t, n);
    AppliedReviewed(past, o, hash, t);
    hide Proven, Effect, Decimal;
  }

  lemma AppliedReviewed(past: seq<World>, o: Options, hash: string -> string, t: Trace)
    requires Lawful(past, o, hash, t) && t.done != []
    ensures |t.asked| == 4 && NoneFailed(t.asked[1..])
    ensures
      var ref := t.done[0].result.obj.ref;
      t.asked[2].request ==
        if ref.gvr.resource == "namespaces" then Review(Access("", "namespaces", "finalize", "", ref.name, "update"))
        else Review(Access(ref.gvr.group, ref.gvr.resource, "", ref.namespace, ref.name, "patch"))
  {
    hide Justified, Diagnosed;
    var ref := t.done[0].result.obj.ref;
    ResultIsNamed(past, o, t, t.done[0].result);
    assert t.refs == [ref];
    DiagnosedReviewed(past, o, t, ref);
  }

  lemma DiagnosedReviewed(past: seq<World>, o: Options, t: Trace, ref: Ref)
    requires Diagnosed(past, o, t) && o.apply && t.refs == [ref]
    ensures |t.asked| == 4 && NoneFailed(t.asked[1..])
    ensures t.asked[2].request ==
      if ref.gvr.resource == "namespaces" then Review(Access("", "namespaces", "finalize", "", ref.name, "update"))
      else Review(Access(ref.gvr.group, ref.gvr.resource, "", ref.namespace, ref.name, "patch"))
  {
    hide Snap, Results, InOrder, Between, Admitted;
    AdmittedReviewed(o, past, t.asked, ref);
  }

  lemma AdmittedReviewed(o: Options, past: seq<World>, asked: seq<Reply>, ref: Ref)
    requires Admitted(o, past, asked, [ref]) && o.apply
    ensures |asked| == 4 && NoneFailed(asked[1..])
    ensures asked[2].request ==
      if ref.gvr.resource == "namespaces" then Review(Access("", "namespaces", "finalize", "", ref.name, "update"))
      else Review(Access(ref.gvr.group, ref.gvr.resource, "", ref.namespace, ref.name, "patch"))
  {
    hide Swept, NamedBy, StuckAt;
    var requests := Asked(asked);
    assert |requests| == |asked| == 4 && requests[2] == asked[2].request;
  }

  lemma DiagnosedChronology(past: seq<World>, o: Options, t: Trace)
    requires Diagnosed(past, o, t) && t.asked != [] && |t.refs| == 1
    ensures t.begun <= t.asked[|t.asked| - 1].at.when < t.located <= t.times.services.when < t.judged
  {
    hide Admitted, Snap, Results;
  }

  lemma SearchChronology(past: seq<World>, o: Options, hash: string -> string, t: Trace)
    requires Lawful(past, o, hash, t) && t.done != []
    ensures t.judged <= t.done[0].run.lo
  {
    hide Authorized, Ran, Searched, Remediation, Diagnosed;
  }

  lemma WriteLater(past: seq<World>, r: Run, e: Write, n: nat)
    requires Accounted(past, r, e, n)
    ensures n < |r.attempts| && r.lo <= r.attempts[n].begun < e.at
  {
    hide Proven, Effect, OpOf;
    assert Proven(past, r.target, r.mode, r.attempts[n]);
    ProvenLater(past, r.target, r.mode, r.attempts[n]);
  }

  lemma ProvenLater(past: seq<World>, target: Ref, mode: Mode, a: Attempt)
    requires Proven(past, target, mode, a)
    ensures a.begun < a.write
  {
    hide StateSeen, Judge, Snap, SaysUnavailable;
  }

  /** With a core namespace, or no namespace, nothing outside the plan is ever taken. */
  lemma EveryWriteTakesOnlyPlanned(past: seq<World>, o: Options, hash: string -> string, t: Trace, n: nat)
    requires History(past) && Lawful(past, o, hash, t) && n < |AllWrites(t.done)|
    ensures |t.done| == 1 && n < |t.done[0].run.attempts| <= |t.done[0].run.actions|
    ensures
      var x, ref := t.done[0], t.done[0].result.obj.ref;
      var a := x.run.attempts[n];
      && a.write + 1 < |past|
      && ((ref.IsNamespace() ==> CoreNamespace(ref)) ==>
        OnlyPlanned(past[a.write], past[a.write + 1], x.run.actions[n]))
  {
    hide Authorized, Diagnosed, NamedBy, StuckAt, Lawful, OnlyPlanned, AllWrites, History, Accounted, Entitled;
    EveryWriteAccounted(past, o, hash, t, n);
    var x := t.done[0];
    OnlyPlannedTaken(past, t.judged, o.mode, t.snap, x.result.obj, x.run, AllWrites(t.done)[n], n);
  }

  lemma OnlyPlannedTaken(past: seq<World>, lo: nat, mode: Mode, snap: Snapshot, obj: StuckObject, r: Run, e: Write,
                         n: nat)
    requires Accounted(past, r, e, n) && Entitled(past, lo, r.lo, mode, snap, obj, r.actions[n])
    ensures n < |r.attempts| <= |r.actions|
    ensures
      var a := r.attempts[n];
      && a.write + 1 < |past|
      && ((obj.ref.IsNamespace() ==> CoreNamespace(obj.ref)) ==>
        OnlyPlanned(past[a.write], past[a.write + 1], r.actions[n]))
  {
    hide OnlyPlanned, Misdirected, Condemned, WasOrphan, Proven, Landed, OpOf;
  }

  /** Cannot-probe is not dead, for an invocation: no write after a failed APIService read. */
  lemma UnreadableServicesRefuse(past: seq<World>, o: Options, hash: string -> string, t: Trace)
    requires Lawful(past, o, hash, t) && t.diagnosed && t.times.services.failed
    ensures t.done == [] && AllWrites(t.done) == []
  {
    if t.done != [] {
      hide CombinedState, Diagnosed;
      DoneIsDead(past, o, hash, t);
      DiagnosedDead(past, o, t);
      assert false;
    }
  }

  lemma DoneIsDead(past: seq<World>, o: Options, hash: string -> string, t: Trace)
    requires Lawful(past, o, hash, t) && t.done != []
    ensures t.diagnosed && Diagnosed(past, o, t) && t.results != [] && CombinedState(t.results[0].verdicts) == Dead
  {
    hide Ran, Searched, Between, Remediation, Blocked, CombinedState, Diagnosed;
  }

  lemma DiagnosedDead(past: seq<World>, o: Options, t: Trace)
    requires Diagnosed(past, o, t) && t.results != [] && CombinedState(t.results[0].verdicts) == Dead
    ensures !t.times.services.failed
  {
    hide Admitted, Snap, Results, InOrder, Between, CombinedState;
    assert t.results == Results(o.mode, Snap(past, t.refs, t.times).targets, Snap(past, t.refs, t.times));
    if t.times.services.failed {
      UnreadNotDead(past, t.refs, t.times, o.mode);
      assert false;
    }
  }

  lemma UnreadNotDead(past: seq<World>, refs: seq<Ref>, times: Times, mode: Mode)
    requires |refs| == |times.targets| && times.services.failed
    ensures
      var snap := Snap(past, refs, times);
      var results := Results(mode, snap.targets, snap);
      forall i | 0 <= i < |results| :: CombinedState(results[i].verdicts) != Dead
  {
    var snap := Snap(past, refs, times);
    assert ApiServices !in snap.readable;
    hide Snap, Results, JudgeAll, CombinedState;
    forall i | 0 <= i < |snap.targets| ensures CombinedState(Results(mode, snap.targets, snap)[i].verdicts) != Dead {
      ResultAt(mode, snap.targets, snap, i);
      UnreadableServicesVeto(mode, snap.targets[i], snap);
    }
  }

  lemma OneOutcome(done: seq<Outcome>)
    requires |done| <= 1
    ensures AllWrites(done) == if done == [] then [] else Writes(done[0].run.attempts)
  {
    if done != [] {
      assert done[..0] == [];
    }
  }

  lemma OutcomeEntitled(past: seq<World>, o: Options, hash: string -> string, t: Trace)
    requires Lawful(past, o, hash, t) && t.done != []
    ensures forall a | a in t.done[0].run.actions ::
      Entitled(past, t.judged, t.done[0].run.lo, o.mode, t.snap, t.done[0].result.obj, a)
  {
    hide Entitled, Ran, WasOrphan, Searched, Between, Judge, JudgeAll, Remediation, Blocked, CombinedState, Results;
    hide Admitted, Snap, InOrder;
    var x := t.done[0];
    ResultAt(o.mode, t.snap.targets, t.snap, 0);
    SearchedOrphans(past, x.asked, t.judged, x.run.lo, x.result.obj, x.candidates);
    PlanEntitled(past, t.judged, x.run.lo, o.mode, t.snap, x.result.obj, x.Orphans());
  }

  /* The report */

  lemma {:induction false} AuditsAt(attempts: seq<Attempt>, n: nat)
    requires n <= |attempts| && (forall k | 0 <= k < n :: Done(attempts[k])) && |attempts| <= n + 1
    requires |attempts| == n + 1 ==> !Done(attempts[n])
    ensures |Audits(attempts)| == n && forall k | 0 <= k < n :: Audits(attempts)[k] == AuditOf(attempts[k])
  {
    hide Done, AuditOf;
    if attempts != [] {
      AuditsAt(attempts[..|attempts| - 1], if |attempts| == n + 1 then n else n - 1);
    }
  }

  /** The report of an execution: one line per completed action, with the version its
      request was bound to, and a last one if the run was aborted. */
  lemma ReportExact(past: seq<World>, x: Outcome)
    requires Ran(past, x.run)
    ensures
      var r, lines := x.run, x.Report();
      && |lines| == r.completed + (if r.ok then 0 else 1)
      && (forall k | 0 <= k < r.completed ::
        Landed(r.attempts[k])
          && lines[k] == Applied(Audit(r.actions[k], OpOf(r.actions[k], r.attempts[k].seen.value).version)))
      && (!r.ok ==> lines[r.completed] == Aborted(r.completed))
  {
    hide Recorded, AuditOf, OpOf;
    AuditsAt(x.run.attempts, x.run.completed);
    forall k | 0 <= k < x.run.completed
      ensures Landed(x.run.attempts[k])
      ensures AuditOf(x.run.attempts[k]) ==
        Audit(x.run.actions[k], OpOf(x.run.actions[k], x.run.attempts[k].seen.value).version)
    {
      AuditExact(x.run.attempts[k]);
    }
  }

  /* Deletes */

  /** The references a log deletes, in order. */
  function Deleted(log: seq<Write>): seq<Ref> {
    if log == [] then []
    else Deleted(log[..|log| - 1]) + if log[|log| - 1].op.Delete? then [log[|log| - 1].op.ref] else []
  }

  lemma {:induction false} DeletedExact(log: seq<Write>)
    ensures forall r :: r in Deleted(log) <==> exists k | 0 <= k < |log| :: log[k].op.Delete? && log[k].op.ref == r
  {
    if log != [] {
      DeletedExact(log[..|log| - 1]);
      assert forall k | 0 <= k < |log| - 1 :: log[..|log| - 1][k] == log[k];
    }
  }

  /** The log deletes the orphans, one by one, and then nothing more. */
  predicate CleansFirst(log: seq<Write>, orphans: seq<Ref>) {
    forall n | 0 <= n < |log| ::
      if n < |orphans| then log[n].op.Delete? && log[n].op.ref == orphans[n] else !log[n].op.Delete?
  }

  lemma {:induction false} DeletedPrefix(log: seq<Write>, orphans: seq<Ref>)
    requires CleansFirst(log, orphans)
    ensures Deleted(log) == orphans[..if |log| < |orphans| then |log| else |orphans|]
  {
    if log != [] {
      DeletedPrefix(log[..|log| - 1], orphans);
    }
  }

  lemma LogCleansFirst(past: seq<World>, r: Run, finalizers: seq<string>, orphans: seq<Ref>)
    requires Ran(past, r) && r.actions == Remediation(r.target, finalizers, orphans)
    ensures CleansFirst(Writes(r.attempts), orphans)
  {
    hide Ran, Remediation, Writes, Landed, Recorded;
    var log := Writes(r.attempts);
    forall n | 0 <= n < |log|
      ensures if n < |orphans| then log[n].op.Delete? && log[n].op.ref == orphans[n] else !log[n].op.Delete?
    {
      LogEntry(past, r, n);
      PlannedDelete(r.target, finalizers, orphans, n);
    }
  }

  lemma PlannedDelete(target: Ref, finalizers: seq<string>, orphans: seq<Ref>, k: nat)
    requires k < |Remediation(target, finalizers, orphans)|
    ensures Remediation(target, finalizers, orphans)[k].kind == CleanOrphan <==> k < |orphans|
    ensures k < |orphans| ==> Remediation(target, finalizers, orphans)[k].target == orphans[k]
  {
    CleansAt(orphans);
    ClearsAt(target, Cleared(target, finalizers));
    hide Cleared, CleanActions, ClearActions;
  }

  lemma RunDeletes(past: seq<World>, x: Outcome, finalizers: seq<string>)
    requires Ran(past, x.run) && x.run.actions == Remediation(x.run.target, finalizers, x.Orphans())
    ensures Deleted(Writes(x.run.attempts)) <= x.Orphans()
    ensures multiset(Deleted(Writes(x.run.attempts))) <= multiset(Refs(x.candidates))
  {
    hide Ran, Writes, Remediation, Deleted, OrphansOf, CleansFirst, Refs;
    LogCleansFirst(past, x.run, finalizers, x.Orphans());
    DeletedPrefix(Writes(x.run.attempts), x.Orphans());
    OrphansOnce(x.result.obj, x.candidates);
    PrefixParts(Deleted(Writes(x.run.attempts)), x.Orphans());
  }

  /** An invocation deletes nothing but orphans, in the order they were found by a
      search that came after the diagnosis and before every write, and none more
      often than a list showed it as a candidate. */
  lemma DeletesListed(past: seq<World>, o: Options, hash: string -> string, t: Trace)
    requires Lawful(past, o, hash, t) && t.done != []
    ensures
      var x := t.done[0];
      && Searched(past, x.asked, x.result.obj, x.candidates) && Between(x.asked, t.judged, x.run.lo)
      && (forall n | 0 <= n < |AllWrites(t.done)| :: x.run.lo < AllWrites(t.done)[n].at)
      && Deleted(AllWrites(t.done)) <= x.Orphans()
      && multiset(Deleted(AllWrites(t.done))) <= multiset(Refs(x.candidates))
  {
    OneOutcome(t.done);
    hide Ran, Searched, Between, Authorized, Writes, AllWrites, Remediation, Diagnosed, Deleted, OrphansOf, Refs;
    RunDeletes(past, t.done[0], Named(t.done[0].result.verdicts));
    WritesLater(past, t.done[0].run);
  }

  lemma WritesLater(past: seq<World>, r: Run)
    requires Ran(past, r)
    ensures forall n | 0 <= n < |Writes(r.attempts)| :: r.lo < Writes(r.attempts)[n].at
  {
    hide Ran, Writes, Recorded, Landed, OpOf;
    forall n | 0 <= n < |Writes(r.attempts)| ensures r.lo < Writes(r.attempts)[n].at {
      LogEntry(past, r, n);
      LandedAfterBegun(past, r.target, r.mode, r.attempts[n]);
    }
  }

  lemma PrefixParts(a: seq<Ref>, b: seq<Ref>)
    requires a <= b
    ensures multiset(a) <= multiset(b)
  {
    assert b == a + b[|a|..];
  }
}
