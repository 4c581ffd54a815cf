/** Snapshot and judge a set of targets. */
module Diagnoses {
  import opened Lists
  import opened Model
  import opened Mapping
  import opened Probe
  import opened Verdicts
  import opened Diagnosis
  import opened Cluster
  import opened Snapshots

  datatype TargetResult = TargetResult(obj: StuckObject, verdicts: seq<Verdict>)

  function Results(mode: Mode, targets: seq<StuckObject>, snap: Snapshot): (r: seq<TargetResult>)
    ensures |r| == |targets|
  {
    if targets == [] then []
    else
      var obj := targets[|targets| - 1];
      Results(mode, targets[..|targets| - 1], snap) + [TargetResult(obj, JudgeAll(mode, obj, snap))]
  }

  lemma JudgeStep(mode: Mode, obj: StuckObject, finalizers: seq<string>, f: string, snap: Snapshot)
    ensures JudgeEach(mode, obj, finalizers + [f], snap) == JudgeEach(mode, obj, finalizers, snap)
      + [Judge(mode, obj, f, snap)]
  {
    var all := finalizers + [f];
    assert forall i | 0 <= i < |finalizers| :: all[i] == finalizers[i];
  }

  /** The verdict on every finalizer of one target, metadata first. */
  method JudgeTarget(mode: Mode, obj: StuckObject, snap: Snapshot) returns (verdicts: seq<Verdict>)
    ensures verdicts == JudgeAll(mode, obj, snap)
  {
    verdicts := [];
    var finalizers := obj.AllFinalizers();
    for i := 0 to |finalizers|
      invariant verdicts == JudgeEach(mode, obj, finalizers[..i], snap)
    {
      var f := finalizers[i];
      TakeStep(finalizers, i);
      JudgeStep(mode, obj, finalizers[..i], f, snap);
      var v;
      if obj.ref.IsNamespace() && f == KUBERNETES {
        v := NamespaceKubernetes(obj, snap);
      } else {
        var owner := Map(f, snap);
        if mode == ScoreMode {
          var ev := For(owner, snap);
          var total := SumScore(ev);
          v := ScoreWith(owner, ev, total);
        } else {
          v := Strict(owner, For(owner, snap));
        }
      }
      verdicts := verdicts + [v];
    }
    assert finalizers[..|finalizers|] == finalizers;
  }

  method JudgeTargets(mode: Mode, snap: Snapshot) returns (results: seq<TargetResult>)
    ensures results == Results(mode, snap.targets, snap)
  {
    results := [];
    for i := 0 to |snap.targets|
      invariant results == Results(mode, snap.targets[..i], snap)
    {
      var verdicts := JudgeTarget(mode, snap.targets[i], snap);
      TakeStep(snap.targets, i);
      results := results + [TargetResult(snap.targets[i], verdicts)];
    }
    assert snap.targets[..|snap.targets|] == snap.targets;
  }

  method Diagnose(c: Client, refs: seq<Ref>, mode: Mode)
    returns (snap: Snapshot, results: seq<TargetResult>, ghost t: Times)
    requires c.Valid()
    modifies c
    ensures c.Valid() && c.log == old(c.log) && old(c.past) < c.past
    ensures |refs| == |t.targets| && InOrder(|old(c.past)|, t, |c.past|)
    ensures c.replies == old(c.replies) + SnapReplies(refs, t)
    ensures snap == Snap(c.past, refs, t)
    ensures results == Results(mode, snap.targets, snap)
  {
    snap, t := Build(c, refs);
    results := JudgeTargets(mode, snap);
  }
}
