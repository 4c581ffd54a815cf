/** The re-verify, then mutate loop, and the record it leaves. */
module Execution {
  import opened Model
  import opened Diagnosis
  import opened Cluster
  import opened Snapshots
  import opened Diagnoses

  datatype ReverifyResult = ReverifyResult(state: State, version: nat, metaFinalizers: seq<string>,
                                           specFinalizers: seq<string>)

  /** One pass of the loop: what it saw and did, and when. Only the fields its
      branch got to are meaningful. */
  datatype Attempt = Attempt(action: Action, begun: nat,
                             look: Times, state: State,
                             cur: Instant, seen: Option<Obj>,
                             again: Instant, confirmed: bool,
                             write: nat, accepted: bool, fault: Fault, ended: nat)

  datatype Audit = Audit(action: Action, version: nat)

  /** The audit line of a completed attempt: its action and the version it was pinned to. */
  function AuditOf(a: Attempt): Audit {
    Audit(a.action, match a.seen case Some(o) => o.version case None => 0)
  }

  /** What re-verifying the target showed. */
  function StateSeen(past: seq<World>, target: Ref, mode: Mode, look: Times): State
    requires |look.targets| == 1
  {
    var s := Snap(past, [target], look);
    if s.targets == [] then Unknown else CombinedState(JudgeAll(mode, s.targets[0], s))
  }

  lemma OneTarget(past: seq<World>, target: Ref, look: Times)
    requires |look.targets| == 1
    ensures Snap(past, [target], look).targets ==
      match Lookup(Answer(past, look.targets[0]), target) case Some(o) => [ToStuckObject(target, o)] case None => []
  {
    assert [target][..0] == [] && Found(past, [target][..0], look.targets[..0]) == [];
  }

  /** `list` with every `x` removed. */
  method RemoveFinalizer(list: seq<string>, x: string) returns (out: seq<string>)
    ensures out == Without(list, x)
  {
    out := [];
    for i := 0 to |list|
      invariant out + Without(list[i..], x) == Without(list, x)
    {
      assert list[i..][1..] == list[i + 1..];
      if list[i] != x {
        out := out + [list[i]];
      }
    }
  }

  /** The request an action makes against the object it read. */
  function OpOf(a: Action, o: Obj): Op {
    match a.kind
    case CleanOrphan => Delete(a.target, o.version)
    case ClearFinalizer => Patch(a.target, Without(o.metaFinalizers, a.finalizer), o.version)
    case FinalizeNamespace => Finalize(a.target.name, Without(o.specFinalizers, a.finalizer), o.version)
  }

  /** The finalize request goes to the object the action names. */
  predicate WellAddressed(a: Action) {
    a.kind == FinalizeNamespace ==> CoreNamespace(a.target)
  }

  /** The attempt got as far as sending its request. */
  predicate Armed(a: Attempt) {
    a.state == Dead && a.seen.Some? && (a.action.kind == FinalizeNamespace ==> a.confirmed)
  }

  /** The request took effect. */
  predicate Landed(a: Attempt) {
    Armed(a) && a.accepted && a.fault != Refused
  }

  predicate Done(a: Attempt) {
    Landed(a) && a.fault == NoFault
  }

  /** The attempt is what the loop did between `begun` and `ended`. */
  predicate Recorded(past: seq<World>, target: Ref, mode: Mode, a: Attempt) {
    && |a.look.targets| == 1 && InOrder(a.begun, a.look, a.ended) && a.ended <= |past|
    && a.state == StateSeen(past, target, mode, a.look)
    && (a.state == Dead ==>
      && a.look.slices.when < a.cur.when < a.ended
      && a.seen == Lookup(Answer(past, a.cur), a.action.target))
    && (a.state == Dead && a.seen.Some? && a.action.kind == FinalizeNamespace ==>
      && a.cur.when < a.again.when < a.ended
      && a.confirmed == Reads(past, a.again, NamespaceKey(a.action.target.name), a.seen.value.version))
    && (Armed(a) ==>
      && a.cur.when < a.write < a.ended && (a.action.kind == FinalizeNamespace ==> a.again.when < a.write)
      && a.accepted == Accepts(past[a.write], OpOf(a.action, a.seen.value)))
    && (Landed(a) ==>
      && a.ended == a.write + 2 && Happened(past, Write(OpOf(a.action, a.seen.value), a.write)))
  }

  /** Every read of an attempt, as it was answered. */
  function AttemptReplies(target: Ref, a: Attempt): seq<Reply>
  {
    LookReplies(target, a.action.target, a.look, a.state, a.cur) + AgainReplies(a)
  }

  /** Those of the re-verification. */
  function LookReplies(target: Ref, actionRef: Ref, look: Times, state: State, cur: Instant): seq<Reply>
  {
    SnapReplies([target], look) + if state == Dead then [Reply(GetOf(actionRef), cur)] else []
  }

  /** The second read of the namespace client. */
  function AgainReplies(a: Attempt): seq<Reply> {
    if a.state == Dead && a.seen.Some? && a.action.kind == FinalizeNamespace
    then [Reply(GetOf(CoreRef(a.action.target.name)), a.again)] else []
  }

  lemma RepliesStep(target: Ref, attempts: seq<Attempt>, a: Attempt)
    ensures RunReplies(target, attempts + [a]) == RunReplies(target, attempts) + AttemptReplies(target, a)
    ensures Audits(attempts + [a]) == Audits(attempts) + if Done(a) then [AuditOf(a)] else []
  {
    hide AttemptReplies, Done, AuditOf;
    assert (attempts + [a])[..|attempts|] == attempts;
  }

  /** The audit lines of the completed attempts. */
  function Audits(attempts: seq<Attempt>): seq<Audit> {
    if attempts == [] then []
    else
      var n := |attempts| - 1;
      Audits(attempts[..n]) + if Done(attempts[n]) then [AuditOf(attempts[n])] else []
  }

  function RunReplies(target: Ref, attempts: seq<Attempt>): seq<Reply>
  {
    if attempts == [] then []
    else
      var n := |attempts| - 1;
      RunReplies(target, attempts[..n]) + AttemptReplies(target, attempts[n])
  }

  function Writes(attempts: seq<Attempt>): seq<Write> {
    if attempts == [] then []
    else
      var a := attempts[|attempts| - 1];
      Writes(attempts[..|attempts| - 1]) + if Landed(a) then [Write(OpOf(a.action, a.seen.value), a.write)] else []
  }

  /** A whole execution of a plan against a target, and how far it came. */
  datatype Run = Run(target: Ref, mode: Mode, actions: seq<Action>, lo: nat, hi: nat,
                     attempts: seq<Attempt>, completed: nat, ok: bool)

  /** The attempts follow the plan one by one, in consecutive stretches of history,
      and the completed ones all succeeded. */
  predicate Trail(past: seq<World>, r: Run) {
    && r.lo <= r.hi <= |past| && r.completed <= |r.attempts| <= |r.actions|
    && (forall k | 0 <= k < |r.attempts| ::
      Recorded(past, r.target, r.mode, r.attempts[k]) && r.attempts[k].action == r.actions[k]
      && r.lo <= r.attempts[k].begun && r.attempts[k].ended <= r.hi)
    && (forall j, k | 0 <= j < k < |r.attempts| :: r.attempts[j].ended <= r.attempts[k].begun)
    && (forall k | 0 <= k < r.completed :: Done(r.attempts[k]))
  }

  /** A finished run: it stopped at the first attempt that failed, or did everything. */
  predicate Ran(past: seq<World>, r: Run) {
    && Trail(past, r)
    && (r.ok <==> r.completed == |r.actions|)
    && (r.ok ==> |r.attempts| == r.completed)
    && (!r.ok ==> |r.attempts| == r.completed + 1 && !Done(r.attempts[r.completed]))
  }

  lemma StateKept(past: seq<World>, later: seq<World>, target: Ref, mode: Mode, look: Times)
    requires past <= later && |look.targets| == 1 && InOrder(0, look, |past|)
    ensures StateSeen(later, target, mode, look) == StateSeen(past, target, mode, look)
  {
    SnapKept(past, later, [target], look);
  }

  lemma RecordKept(past: seq<World>, later: seq<World>, target: Ref, mode: Mode, a: Attempt)
    requires past <= later && Recorded(past, target, mode, a)
    ensures Recorded(later, target, mode, a)
  {
    hide StateSeen;
    StateKept(past, later, target, mode, a.look);
  }

  lemma RecordWindow(past: seq<World>, target: Ref, mode: Mode, a: Attempt)
    requires Recorded(past, target, mode, a)
    ensures a.begun < a.ended <= |past|
    ensures Landed(a) ==> a.write + 2 == a.ended
    ensures a.state == Dead ==> a.begun < a.cur.when
  {
    hide StateSeen;
  }

  lemma LandedAfterBegun(past: seq<World>, target: Ref, mode: Mode, a: Attempt)
    requires Recorded(past, target, mode, a) && Landed(a)
    ensures a.begun < a.write
  {
    hide StateSeen;
  }

  lemma RanKept(past: seq<World>, later: seq<World>, r: Run)
    requires past <= later && Ran(past, r)
    ensures Ran(later, r)
  {
    hide Recorded;
    forall k | 0 <= k < |r.attempts| ensures Recorded(later, r.target, r.mode, r.attempts[k]) {
      RecordKept(past, later, r.target, r.mode, r.attempts[k]);
    }
  }

  function Started(target: Ref, mode: Mode, actions: seq<Action>, lo: nat): Run {
    Run(target, mode, actions, lo, lo, [], 0, actions == [])
  }

  lemma StartsUnderway(past: seq<World>, target: Ref, mode: Mode, actions: seq<Action>)
    ensures Underway(past, Started(target, mode, actions, |past|))
    ensures Writes(Started(target, mode, actions, |past|).attempts) == []
    ensures RunReplies(target, []) == [] && Audits([]) == []
  {}

  lemma FinishedRan(past: seq<World>, r: Run)
    requires Underway(past, r) && r.completed == |r.actions| && r.ok
    ensures Ran(past, r)
  {}

  /** One more attempt, begun where the run stood. */
  function Extended(r: Run, a: Attempt): Run {
    var n := r.completed + if Done(a) then 1 else 0;
    r.(hi := a.ended, attempts := r.attempts + [a], completed := n, ok := n == |r.actions|)
  }

  /** The run so far, with nothing failed yet. */
  predicate Underway(past: seq<World>, r: Run) {
    Trail(past, r) && r.completed == |r.attempts|
  }

  /** The first result, if there is one, tells what the reads showed. */
  lemma ResultSeen(past: seq<World>, target: Ref, mode: Mode, look: Times, snap: Snapshot)
    requires |look.targets| == 1 && snap == Snap(past, [target], look)
    ensures
      var results := Results(mode, snap.targets, snap);
      StateSeen(past, target, mode, look) == if results == [] then Unknown else CombinedState(results[0].verdicts)
  {
    OneTarget(past, target, look);
    hide Snap, JudgeAll, CombinedState;
    if snap.targets != [] {
      assert Results(mode, snap.targets[..0], snap) == [];
    }
  }

  /** Fresh state for one action: the parent's verdict, and the action target's own
      version and finalizers. */
  method Reverify(c: Client, target: Ref, mode: Mode, actionRef: Ref)
    returns (r: Result<ReverifyResult>, ghost look: Times, ghost cur: Instant)
    requires c.Valid()
    modifies c
    ensures c.Valid() && c.log == old(c.log) && old(c.past) < c.past
    ensures |look.targets| == 1 && InOrder(|old(c.past)|, look, |c.past|)
    ensures c.replies == old(c.replies)
      + LookReplies(target, actionRef, look, StateSeen(c.past, target, mode, look), cur)
    ensures
      var state := StateSeen(c.past, target, mode, look);
      if state != Dead then r == Ok(ReverifyResult(state, 0, [], []))
      else
        look.slices.when < cur.when < |c.past|
        && r == match Lookup(Answer(c.past, cur), actionRef)
                case Some(o) => Ok(ReverifyResult(Dead, o.version, o.metaFinalizers, o.specFinalizers))
                case None => Err
  {
    hide History, StateSeen, Snap, SnapReplies, JudgeAll, CombinedState, Results, Lookup;
    cur := Instant(0, true);
    var snap, results;
    snap, results, look := Diagnose(c, [target], mode);
    ResultSeen(c.past, target, mode, look, snap);
    if results == [] {
      return Ok(ReverifyResult(Unknown, 0, [], [])), look, cur;
    }
    var state := CombinedState(results[0].verdicts);
    if state != Dead {
      return Ok(ReverifyResult(state, 0, [], [])), look, cur;
    }
    ghost var before := c.past;
    var o;
    o, cur := c.Get(actionRef);
    StateKept(before, c.past, target, mode, look);
    if o.None? {
      return Err, look, cur;
    }
    r := Ok(ReverifyResult(Dead, o.value.version, o.value.metaFinalizers, o.value.specFinalizers));
  }

  method PerformAction(c: Client, a: Action, rr: ReverifyResult)
    returns (ok: bool, ghost again: Instant, ghost at: nat, ghost fault: Fault)
    requires c.Valid()
    modifies c
    ensures c.Valid() && old(c.past) < c.past
    ensures c.replies == old(c.replies)
      + if a.kind == FinalizeNamespace then [Reply(GetOf(CoreRef(a.target.name)), again)] else []
    ensures
      var op := match a.kind
        case CleanOrphan => Delete(a.target, rr.version)
        case ClearFinalizer => Patch(a.target, Without(rr.metaFinalizers, a.finalizer), rr.version)
        case FinalizeNamespace => Finalize(a.target.name, Without(rr.specFinalizers, a.finalizer), rr.version);
      if a.kind == FinalizeNamespace && !Reads(c.past, again, NamespaceKey(a.target.name), rr.version) then
        again.when == |old(c.past)| && !ok && c.log == old(c.log)
      else
        && (a.kind == FinalizeNamespace ==> again.when == |old(c.past)| < at)
        && Sent(old(c.past), c.past, old(c.log), c.log, op, ok, at, fault)
  {
    again := Instant(0, true);
    match a.kind {
      case CleanOrphan =>
        ok, at, fault := c.DeleteObject(a.target, rr.version);
      case FinalizeNamespace =>
        var left := RemoveFinalizer(rr.specFinalizers, a.finalizer);
        ok, again, at, fault := c.FinalizeNamespace(a.target.name, left, rr.version);
      case ClearFinalizer =>
        var left := RemoveFinalizer(rr.metaFinalizers, a.finalizer);
        ok, at, fault := c.PatchFinalizers(a.target, left, rr.version);
    }
  }

  lemma RunExtends(past: seq<World>, later: seq<World>, r: Run, a: Attempt)
    requires r.completed < |r.actions| && past <= later
    requires Underway(past, r) && Recorded(later, r.target, r.mode, a) && a.action == r.actions[r.completed]
    requires r.hi == a.begun
    ensures Done(a) ==> Underway(later, Extended(r, a))
    ensures !Done(a) ==> Ran(later, Extended(r, a)) && !Extended(r, a).ok
    ensures Writes(Extended(r, a).attempts) == Writes(r.attempts) + Writes([a])
  {
    hide Recorded;
    RecordWindow(later, r.target, r.mode, a);
    var e := Extended(r, a);
    forall k | 0 <= k < |e.attempts| ensures Recorded(later, e.target, e.mode, e.attempts[k]) {
      if k < |r.attempts| {
        RecordKept(past, later, r.target, r.mode, r.attempts[k]);
        assert e.attempts[k] == r.attempts[k];
      }
    }
    assert (r.attempts + [a])[..|r.attempts|] == r.attempts;
    assert [a][..0] == [];
  }

  /** One pass: re-verify, then perform. */
  method Step(c: Client, target: Ref, mode: Mode, action: Action)
    returns (ok: bool, audit: Audit, ghost a: Attempt)
    requires c.Valid()
    modifies c
    ensures c.Valid() && old(c.past) < c.past
    ensures a.action == action && a.begun == |old(c.past)| && a.ended == |c.past|
    ensures Recorded(c.past, target, mode, a)
    ensures c.replies == old(c.replies) + AttemptReplies(target, a)
    ensures ok <==> Done(a)
    ensures c.log == old(c.log) + Writes([a])
    ensures ok ==> audit == AuditOf(a)
  {
    hide StateSeen, SnapReplies;
    audit := Audit(action, 0);
    var r, look, cur := Reverify(c, target, mode, action.target);
    ghost var before := c.past;
    a := Attempt(action, |old(c.past)|, look, StateSeen(before, target, mode, look),
                 cur, Lookup(Answer(before, cur), action.target), Instant(0, true), false, 0, false, NoFault, |before|);
    ok := false;
    assert [a][..0] == [];
    if r.Err? || r.value.state != Dead {
      assert !Armed(a);
      return;
    }
    var sent, again, at, fault := PerformAction(c, action, r.value);
    ok := sent;
    audit := Audit(action, r.value.version);
    var confirmed := Reads(c.past, again, NamespaceKey(action.target.name), r.value.version);
    var accepted := at < |c.past| && Accepts(c.past[at], OpOf(action, a.seen.value));
    StateKept(before, c.past, target, mode, look);
    a := a.(again := again, confirmed := confirmed, write := at, fault := fault, ended := |c.past|,
      accepted := accepted);
    assert [a][..0] == [];
  }

  method Execute(c: Client, target: Ref, mode: Mode, actions: seq<Action>)
    returns (completed: nat, audits: seq<Audit>, ok: bool, ghost run: Run)
    requires c.Valid()
    modifies c
    ensures c.Valid() && old(c.past) <= c.past
    ensures |audits| == completed == run.completed <= |actions| && ok == run.ok
    ensures audits == Audits(run.attempts)
    ensures run.target == target && run.mode == mode && run.actions == actions
    ensures run.lo == |old(c.past)| && run.hi == |c.past|
    ensures Ran(c.past, run)
    ensures c.replies == old(c.replies) + RunReplies(target, run.attempts)
    ensures c.log == old(c.log) + Writes(run.attempts)
  {
    hide Underway, Ran, History, Writes, Done, Recorded, Happened, AuditOf, Audits, RunReplies, AttemptReplies;
    completed, audits, ok := 0, [], true;
    run := Started(target, mode, actions, |c.past|);
    StartsUnderway(c.past, target, mode, actions);
    for i := 0 to |actions|
      invariant c.Valid() && old(c.past) <= c.past && ok
      invariant completed == |audits| == i == run.completed
      invariant audits == Audits(run.attempts)
      invariant run.target == target && run.mode == mode && run.actions == actions
      invariant run.lo == |old(c.past)| && run.hi == |c.past| && run.ok == (i == |actions|)
      invariant Underway(c.past, run)
      invariant c.replies == old(c.replies) + RunReplies(target, run.attempts)
      invariant c.log == old(c.log) + Writes(run.attempts)
    {
      ghost var before := c.past;
      var done, audit, a := Step(c, target, mode, actions[i]);
      RunExtends(before, c.past, run, a);
      RepliesStep(target, run.attempts, a);
      run := Extended(run, a);
      if !done {
        ok := false;
        return;
      }
      completed, audits := completed + 1, audits + [audit];
    }
    FinishedRan(c.past, run);
  }
}
