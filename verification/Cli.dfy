/** One invocation of the command: read, diagnose and, under apply, execute. */
module Cli {
  import opened Text
  import opened Lists
  import opened Model
  import opened Terms
  import opened Diagnosis
  import opened Plans
  import opened Discover
  import opened Digest
  import opened AdmissionWebhooks
  import opened Orphans
  import opened Cluster
  import opened Snapshots
  import opened Diagnoses
  import opened Execution
  import opened Scanning

  datatype Options = Options(target: string, namespace: string, all: bool, apply: bool,
                             confirm: string, interactive: bool, typedName: string, mode: Mode)

  /** The lines of the report that the exit code and later invocations depend on. */
  datatype Line =
    | NothingStuck
    | NotStuck(ref: Ref)
    | NothingToClear(ref: Ref)
    | Judged(verdicts: seq<Verdict>)
    | BlockedBy(ref: Ref, hook: Webhook)
    | ToApply(command: string, token: string)
    | NotAllDead(ref: Ref)
    | GateClosed(ref: Ref)
    | Applied(audit: Audit)
    | Aborted(completed: nat)

  function GateOf(o: Options): Gate {
    Gate(o.interactive, o.confirm, if o.interactive then o.typedName else "")
  }

  /** What the apply gates demand of a diagnosed target. */
  ghost predicate Authorized(o: Options, hash: string -> string, snap: Snapshot, r: TargetResult) {
    && CombinedState(r.verdicts) == Dead
    && !Blocked(snap, r.obj.ref)
    && GateOf(o).Authorizes(hash, r.obj.ref, r.verdicts, Decimal(r.obj.version))
  }

  /** What the gates ask of the invocation's own options: the name typed in a terminal, or
      else the token of the very proof. */
  lemma AuthorizedExact(o: Options, hash: string -> string, snap: Snapshot, r: TargetResult)
    ensures Authorized(o, hash, snap, r) <==>
      && r.verdicts != [] && (forall v | v in r.verdicts :: v.state == Dead)
      && !Blocked(snap, r.obj.ref)
      && if o.interactive then o.typedName == r.obj.ref.name
         else o.confirm != "" && o.confirm == hash(Canonical(r.obj.ref, r.verdicts, Decimal(r.obj.version)))
  {
    CombinedDeadExact(r.verdicts);
    hide CombinedState, Blocked, Canonical;
  }

  /** An execution, the diagnosed target it belongs to, and the search for orphans that
      it planned for: what was asked and which candidates that showed. */
  datatype Outcome = Outcome(result: TargetResult, asked: seq<Reply>, candidates: seq<StuckObject>, run: Run) {
    function Orphans(): seq<Ref> {
      OrphansOf(result.obj, candidates)
    }

    /** Every read of the apply stage, as it was answered. */
    function Replies(): seq<Reply> {
      asked + RunReplies(run.target, run.attempts)
    }

    /** The report: one line per completed action, and a last one if the run was aborted. */
    function Report(): seq<Line> {
      AppliedLines(Audits(run.attempts)) + if run.ok then [] else [Aborted(run.completed)]
    }
  }

  function AppliedLines(audits: seq<Audit>): seq<Line> {
    seq(|audits|, i requires 0 <= i < |audits| => Applied(audits[i]))
  }

  /** Every gate was passed, the search began at instant `lo` or later and ended before
      the run began, and the run carries out the plan for the verdicts and for the
      orphans that were found. */
  ghost predicate Justified(past: seq<World>, lo: nat, o: Options, hash: string -> string, snap: Snapshot, x: Outcome) {
    && Authorized(o, hash, snap, x.result)
    && Ran(past, x.run)
    && x.run.target == x.result.obj.ref && x.run.mode == o.mode
    && x.run.actions == Remediation(x.result.obj.ref, Named(x.result.verdicts), x.Orphans()) != []
    && Searched(past, x.asked, x.result.obj, x.candidates)
    && Between(x.asked, lo, x.run.lo)
  }

  lemma JustifiedKept(past: seq<World>, later: seq<World>, lo: nat, o: Options, hash: string -> string,
                      snap: Snapshot, x: Outcome)
    requires past <= later && Justified(past, lo, o, hash, snap, x)
    ensures Justified(later, lo, o, hash, snap, x)
  {
    hide Ran, Authorized, Searched, Remediation, Between;
    RanKept(past, later, x.run);
    SearchedKept(past, later, x.asked, x.result.obj, x.candidates);
  }

  /** Executing the built plan of an authorized target is justified. */
  lemma PlanJustified(past: seq<World>, lo: nat, o: Options, hash: string -> string, snap: Snapshot, x: Outcome)
    requires Authorized(o, hash, snap, x.result) && Ran(past, x.run)
    requires x.run.target == x.result.obj.ref && x.run.mode == o.mode
    requires x.run.actions == PlanFor(x.result.obj, x.result.verdicts, x.Orphans(), false).actions
    requires Searched(past, x.asked, x.result.obj, x.candidates) && Between(x.asked, lo, x.run.lo)
    ensures Justified(past, lo, o, hash, snap, x)
  {
    hide Ran, Remediation, Searched, Between;
    PlanAgreesWithCombinedState(x.result.obj, x.result.verdicts, x.Orphans());
  }

  function AllWrites(xs: seq<Outcome>): seq<Write> {
    if xs == [] then [] else AllWrites(xs[..|xs| - 1]) + Writes(xs[|xs| - 1].run.attempts)
  }

  function AllReplies(xs: seq<Outcome>): seq<Reply> {
    if xs == [] then [] else AllReplies(xs[..|xs| - 1]) + xs[|xs| - 1].Replies()
  }

  function AllReports(xs: seq<Outcome>): seq<Line> {
    if xs == [] then [] else AllReports(xs[..|xs| - 1]) + xs[|xs| - 1].Report()
  }

  /** The line tells which gate the target failed. */
  ghost predicate Refuses(o: Options, hash: string -> string, snap: Snapshot, r: TargetResult, line: Line) {
    match line
    case NotAllDead(ref) => ref == r.obj.ref && CombinedState(r.verdicts) != Dead
    case BlockedBy(ref, w) => ref == r.obj.ref && Listed(snap, w) && Blocking(snap, ref, w)
    case GateClosed(ref) => ref == r.obj.ref && !GateOf(o).Authorizes(hash, ref, r.verdicts, Decimal(r.obj.version))
    case _ => false
  }

  /** The apply stage for one target: three refusals, then the plan. */
  method ApplyTarget(c: Client, o: Options, hash: string -> string, snap: Snapshot, r: TargetResult)
    returns (code: int, lines: seq<Line>, ghost applied: Option<Outcome>)
    requires c.Valid()
    modifies c
    ensures c.Valid() && old(c.past) <= c.past
    ensures applied.None? ==>
      && code == 3 && !Authorized(o, hash, snap, r)
      && c.log == old(c.log) && c.replies == old(c.replies)
      && |lines| == 1 && Refuses(o, hash, snap, r, lines[0])
    ensures applied.Some? ==>
      && applied.value.result == r && Justified(c.past, |old(c.past)|, o, hash, snap, applied.value)
      && c.log == old(c.log) + Writes(applied.value.run.attempts)
      && c.replies == old(c.replies) + applied.value.Replies()
      && lines == applied.value.Report()
      && code == if applied.value.run.ok then 0 else 3
  {
    hide Ran, Writes, RunReplies, Audits, History, Canonical, PlanFor, Remediation, CombinedState;
    hide Searched, Between, Justified, Listed, Blocking;
    applied := None;
    if CombinedState(r.verdicts) != Dead {
      return 3, [NotAllDead(r.obj.ref)], applied;
    }
    var hook := Blocks(snap, r.obj.ref);
    if hook.Some? {
      return 3, [BlockedBy(r.obj.ref, hook.value)], applied;
    }
    if !GateOf(o).Authorizes(hash, r.obj.ref, r.verdicts, Decimal(r.obj.version)) {
      return 3, [GateClosed(r.obj.ref)], applied;
    }
    var orphans, candidates, asked := DetectOrphans(c, r.obj);
    ghost var before := c.past;
    var p := Plans.Build(r.obj, r.verdicts, orphans, false);
    var completed, audits, ok, run := Execute(c, r.obj.ref, o.mode, p.actions);
    applied := Some(Outcome(r, asked, candidates, run));
    SearchedKept(before, c.past, asked, r.obj, candidates);
    PlanJustified(c.past, |old(c.past)|, o, hash, snap, applied.value);
    lines := AppliedLines(audits);
    if !ok {
      return 3, lines + [Aborted(completed)], applied;
    }
    code := 0;
  }

  /** The outcomes so far belong to the first results, and each is justified. */
  ghost predicate AllJustified(past: seq<World>, lo: nat, o: Options, hash: string -> string, snap: Snapshot,
                               results: seq<TargetResult>, done: seq<Outcome>)
  {
    && |done| <= |results|
    && forall i | 0 <= i < |done| :: done[i].result == results[i] && Justified(past, lo, o, hash, snap, done[i])
  }

  lemma JustifiedSince(past: seq<World>, lo: nat, since: nat, o: Options, hash: string -> string, snap: Snapshot,
                       x: Outcome)
    requires lo <= since && Justified(past, since, o, hash, snap, x)
    ensures Justified(past, lo, o, hash, snap, x)
  {
    hide Ran, Authorized, Searched, Remediation;
  }

  lemma OneMoreJustified(past: seq<World>, later: seq<World>, lo: nat, o: Options, hash: string -> string,
                         snap: Snapshot,
                         results: seq<TargetResult>, done: seq<Outcome>, x: Outcome)
    requires AllJustified(past, lo, o, hash, snap, results, done) && past <= later && lo <= |past|
    requires |done| < |results| && x.result == results[|done|] && Justified(later, |past|, o, hash, snap, x)
    ensures AllJustified(later, lo, o, hash, snap, results, done + [x])
  {
    hide Justified;
    JustifiedSince(later, lo, |past|, o, hash, snap, x);
    JustifiedLater(past, later, lo, o, hash, snap, results, done);
    AppendTake(done, x);
    var all := done + [x];
    forall i | 0 <= i < |all| ensures all[i].result == results[i] && Justified(later, lo, o, hash, snap, all[i]) {
      if i < |done| {
        assert all[i] == done[i];
      }
    }
  }

  lemma AllStep(done: seq<Outcome>, x: Outcome)
    ensures AllWrites(done + [x]) == AllWrites(done) + Writes(x.run.attempts)
    ensures AllReplies(done + [x]) == AllReplies(done) + x.Replies()
    ensures AllReports(done + [x]) == AllReports(done) + x.Report()
  {
    hide Writes, RunReplies, AppliedLines;
    AppendTake(done, x);
  }

  predicate AllOk(done: seq<Outcome>) {
    forall i | 0 <= i < |done| :: done[i].run.ok
  }

  /** The report is that of the outcomes, and of a refusal if that is what ended it. */
  ghost predicate Tells(o: Options, hash: string -> string, snap: Snapshot, results: seq<TargetResult>,
                        done: seq<Outcome>, code: int, lines: seq<Line>)
  {
    if code == 0 || !AllOk(done) then lines == AllReports(done)
    else
      && |done| < |results|
      && exists line :: Refuses(o, hash, snap, results[|done|], line) && lines == AllReports(done) + [line]
  }

  method RunApply(c: Client, o: Options, hash: string -> string, snap: Snapshot, results: seq<TargetResult>)
    returns (code: int, lines: seq<Line>, ghost done: seq<Outcome>)
    requires c.Valid()
    modifies c
    ensures c.Valid() && old(c.past) <= c.past
    ensures c.log == old(c.log) + AllWrites(done) && c.replies == old(c.replies) + AllReplies(done)
    ensures AllJustified(c.past, |old(c.past)|, o, hash, snap, results, done)
    ensures code == 0 || code == 3
    ensures code == 0 ==> |done| == |results| && AllOk(done)
    ensures code == 3 && AllOk(done) ==> |done| < |results| && !Authorized(o, hash, snap, results[|done|])
    ensures Tells(o, hash, snap, results, done, code, lines)
  {
    hide Justified, AllJustified, Authorized, Refuses, Ran, Writes, AllWrites, AllReplies, AllReports, History;
    lines, done := [], [];
    NoneJustified(c.past, |c.past|, o, hash, snap, results);
    for i := 0 to |results|
      invariant c.Valid() && old(c.past) <= c.past
      invariant |done| == i && AllOk(done) && lines == AllReports(done)
      invariant c.log == old(c.log) + AllWrites(done) && c.replies == old(c.replies) + AllReplies(done)
      invariant AllJustified(c.past, |old(c.past)|, o, hash, snap, results, done)
    {
      ghost var before := c.past;
      var status, more, applied := ApplyTarget(c, o, hash, snap, results[i]);
      lines := lines + more;
      if applied.Some? {
        OneMoreJustified(before, c.past, |old(c.past)|, o, hash, snap, results, done, applied.value);
        AllStep(done, applied.value);
        done := done + [applied.value];
      } else {
        JustifiedLater(before, c.past, |old(c.past)|, o, hash, snap, results, done);
        assert more == [more[0]];
      }
      if status != 0 {
        assert |done| == i + 1 ==> !done[i].run.ok;
        return 3, lines, done;
      }
    }
    code := 0;
  }

  lemma NoneJustified(past: seq<World>, lo: nat, o: Options, hash: string -> string, snap: Snapshot,
                      results: seq<TargetResult>)
    ensures AllJustified(past, lo, o, hash, snap, results, [])
    ensures AllWrites([]) == [] && AllReplies([]) == [] && AllReports([]) == []
  {}

  lemma JustifiedLater(past: seq<World>, later: seq<World>, lo: nat, o: Options, hash: string -> string, snap: Snapshot,
                       results: seq<TargetResult>, done: seq<Outcome>)
    requires AllJustified(past, lo, o, hash, snap, results, done) && past <= later
    ensures AllJustified(later, lo, o, hash, snap, results, done)
  {
    hide Justified;
    forall i | 0 <= i < |done| ensures Justified(later, lo, o, hash, snap, done[i]) {
      JustifiedKept(past, later, lo, o, hash, snap, done[i]);
    }
  }

  /** The diagnosed target is one apply would act on, given its token. */
  ghost predicate Offered(snap: Snapshot, r: TargetResult) {
    CombinedState(r.verdicts) == Dead && !Blocked(snap, r.obj.ref)
  }

  /** The command a dry run prints for it. */
  function Offer(hash: string -> string, r: TargetResult): Line {
    ToApply(CliTarget(r.obj.ref), Token(hash, r.obj.ref, r.verdicts, Decimal(r.obj.version)))
  }

  /** The verdicts of all targets, in order. */
  function AllVerdicts(results: seq<TargetResult>): seq<Verdict> {
    if results == [] then [] else AllVerdicts(results[..|results| - 1]) + results[|results| - 1].verdicts
  }

  /** The report gives every verdict of every target, in order and first, and prints the
      command for exactly the offered targets. */
  ghost predicate Reported(hash: string -> string, snap: Snapshot, results: seq<TargetResult>, lines: seq<Line>) {
    && lines != [] && lines[0] == Judged(AllVerdicts(results))
    && (forall l | l in lines && l.ToApply? :: exists k | 0 <= k < |results| ::
      Offered(snap, results[k]) && l == Offer(hash, results[k]))
    && (forall k | 0 <= k < |results| && Offered(snap, results[k]) :: Offer(hash, results[k]) in lines)
  }

  lemma {:induction false} VerdictsListed(results: seq<TargetResult>, k: nat)
    requires k < |results|
    ensures exists a, b :: AllVerdicts(results) == a + results[k].verdicts + b
  {
    var n := |results| - 1;
    if k == n {
      assert AllVerdicts(results) == AllVerdicts(results[..n]) + results[k].verdicts + [];
    } else {
      VerdictsListed(results[..n], k);
      var a, b :| AllVerdicts(results[..n]) == a + results[k].verdicts + b;
      assert AllVerdicts(results) == a + results[k].verdicts + (b + results[n].verdicts);
    }
  }

  method CollectVerdicts(results: seq<TargetResult>) returns (verdicts: seq<Verdict>)
    ensures verdicts == AllVerdicts(results)
  {
    verdicts := [];
    for i := 0 to |results|
      invariant verdicts == AllVerdicts(results[..i])
    {
      TakeStep(results, i);
      verdicts := verdicts + results[i].verdicts;
    }
    assert results[..|results|] == results;
  }

  method RenderDryRun(hash: string -> string, snap: Snapshot, results: seq<TargetResult>) returns (lines: seq<Line>)
    ensures Reported(hash, snap, results, lines)
  {
    hide Offered, Offer, AllVerdicts;
    var verdicts := CollectVerdicts(results);
    lines := [Judged(verdicts)];
    for i := 0 to |results|
      invariant lines != [] && lines[0] == Judged(verdicts)
      invariant forall l | l in lines && l.ToApply? :: exists k | 0 <= k < i ::
        Offered(snap, results[k]) && l == Offer(hash, results[k])
      invariant forall k | 0 <= k < i && Offered(snap, results[k]) :: Offer(hash, results[k]) in lines
    {
      var more := RenderTarget(hash, snap, results[i]);
      lines := lines + more;
    }
  }

  /** What is added for one target: nothing, a blocker, or the command to apply it. */
  method RenderTarget(hash: string -> string, snap: Snapshot, r: TargetResult) returns (lines: seq<Line>)
    ensures Offered(snap, r) ==> lines == [Offer(hash, r)]
    ensures !Offered(snap, r) ==> forall l | l in lines :: !l.ToApply?
  {
    lines := [];
    if CombinedState(r.verdicts) != Dead {
      return;
    }
    var hook := Blocks(snap, r.obj.ref);
    if hook.Some? {
      return [BlockedBy(r.obj.ref, hook.value)];
    }
    var canonical := CanonicalText(r.obj.ref, r.verdicts, Decimal(r.obj.version));
    lines := [ToApply(CliTarget(r.obj.ref), hash(canonical))];
  }

  /** The access reviews a run needs: get on the target, and under apply the mutating
      verb, which for a namespace is update on the finalize subresource. */
  function Reviews(ref: Ref, apply: bool): seq<Request> {
    [Review(Access(ref.gvr.group, ref.gvr.resource, "", ref.namespace, ref.name, "get"))]
    + if !apply then []
      else if ref.IsNamespace() then [Review(Access("", "namespaces", "finalize", "", ref.name, "update"))]
      else [Review(Access(ref.gvr.group, ref.gvr.resource, "", ref.namespace, ref.name, "patch"))]
  }

  predicate NoneFailed(asked: seq<Reply>) {
    forall i | 0 <= i < |asked| :: !asked[i].at.failed
  }

  /** Stops at the first review that is denied or fails. */
  method Preflight(c: Client, ref: Ref, apply: bool) returns (allowed: bool, ghost asked: seq<Reply>)
    requires c.Valid()
    modifies c
    ensures c.Valid() && c.log == old(c.log) && old(c.past) <= c.past
    ensures c.replies == old(c.replies) + asked && asked != [] && Between(asked, |old(c.past)|, |c.past|)
    ensures Asked(asked) <= Reviews(ref, apply)
    ensures if allowed then Asked(asked) == Reviews(ref, apply) && NoneFailed(asked)
            else NoneFailed(asked[..|asked| - 1]) && asked[|asked| - 1].at.failed
  {
    allowed := c.Can(Access(ref.gvr.group, ref.gvr.resource, "", ref.namespace, ref.name, "get"));
    asked := [c.replies[|c.replies| - 1]];
    if !allowed || !apply {
      return;
    }
    if ref.IsNamespace() {
      allowed := c.Can(Access("", "namespaces", "finalize", "", ref.name, "update"));
    } else {
      allowed := c.Can(Access(ref.gvr.group, ref.gvr.resource, "", ref.namespace, ref.name, "patch"));
    }
    asked := asked + [c.replies[|c.replies| - 1]];
  }

  /** What the target argument names, going by discovery's answer at `found`. */
  ghost predicate NamedBy(past: seq<World>, found: Instant, o: Options, ref: Ref) {
    var t := ParseTarget(o.target, o.namespace);
    t.Ok? && ref == Resolve(Preferred(past, found), t.value)
  }

  method ResolveTargets(c: Client, o: Options) returns (r: Result<seq<Ref>>, ghost asked: seq<Reply>)
    requires c.Valid()
    modifies c
    ensures c.Valid() && c.log == old(c.log) && old(c.past) <= c.past
    ensures c.replies == old(c.replies) + asked && Between(asked, |old(c.past)|, |c.past|)
    ensures o.all ==>
      if r.Ok? then Swept(c.past, asked, false, "", StuckView(), r.value)
      else |asked| == 1 && asked[0].request == Discovery && asked[0].at.failed
    ensures !o.all ==>
      if r.Ok? then
        && |asked| == |r.value| == 1 && asked[0].request == Discovery && asked[0].at.when < |c.past|
        && NamedBy(c.past, asked[0].at, o, r.value[0])
      else asked == [] && ParseTarget(o.target, o.namespace).Err?
  {
    hide Swept, History;
    asked := [];
    if o.all {
      r, asked := Scan(c);
      return;
    }
    var t := ParseTarget(o.target, o.namespace);
    if t.Err? {
      return Err, asked;
    }
    var lists, at := PreferredResources(c);
    asked := [Reply(Discovery, at)];
    return Ok([Resolve(lists, t.value)]), asked;
  }

  /** What the last reply showed of the one target. */
  function LastSeen(past: seq<World>, asked: seq<Reply>, refs: seq<Ref>): Option<Obj> {
    if |refs| == 1 && asked != [] && asked[|asked| - 1].request == GetOf(refs[0])
    then Lookup(Answer(past, asked[|asked| - 1].at), refs[0]) else None
  }

  /** Why an invocation may end with `code` before any diagnosis: 1 on a usage error, a
      failed or denied request or a missing target, 3 and 0 on a target that was
      read and found not stuck, and 0 when a complete scan found nothing. */
  ghost predicate Stops(o: Options, past: seq<World>, asked: seq<Reply>, refs: seq<Ref>, code: int) {
    var seen := LastSeen(past, asked, refs);
    var named := !o.all && |refs| == 1 && asked != [] && NamedBy(past, asked[0].at, o, refs[0]);
    match code
    case 1 =>
      || (o.apply && o.all) || (!o.all && ParseTarget(o.target, o.namespace).Err?)
      || (asked != [] && asked[|asked| - 1].at.failed)
      || (named && asked[|asked| - 1].request == GetOf(refs[0]) && seen.None?)
    case 3 => named && o.apply && seen.Some? && !HeldInDeletion(seen.value)
    case 0 =>
      || (o.all && refs == [] && Swept(past, asked, false, "", StuckView(), refs))
      || (named && !o.apply && seen.Some? && !HeldInDeletion(seen.value))
    case _ => false
  }

  /** The reviews by resource, verb and subresource: get on the target, and to apply, patch
      on it, or for a namespace update on its finalize subresource. */
  ghost function Reviewed(ref: Ref, apply: bool): seq<Request> {
    var (group, kind) := (ref.gvr.group, ref.gvr.resource);
    if !apply then [Review(Access(group, kind, "", ref.namespace, ref.name, "get"))]
    else if kind == "namespaces" then
      [Review(Access(group, kind, "", ref.namespace, ref.name, "get")),
       Review(Access("", "namespaces", "finalize", "", ref.name, "update"))]
    else
      [Review(Access(group, kind, "", ref.namespace, ref.name, "get")),
       Review(Access(group, kind, "", ref.namespace, ref.name, "patch"))]
  }

  /** An explicit target was resolved, every review allowed and the target read and
      found stuck; the targets of `--all` are those of a complete sweep. */
  ghost predicate Admitted(o: Options, past: seq<World>, asked: seq<Reply>, refs: seq<Ref>) {
    if o.all then !o.apply && refs != [] && Swept(past, asked, false, "", StuckView(), refs)
    else
      && |refs| == 1
      && Asked(asked) == [Discovery] + Reviewed(refs[0], o.apply) + [GetOf(refs[0])]
      && Given(past, asked) && NoneFailed(asked[1..])
      && NamedBy(past, asked[0].at, o, refs[0])
      && StuckAt(past, asked[|asked| - 1].at.when, refs[0])
  }

  lemma GivenBefore(past: seq<World>, asked: seq<Reply>, lo: nat)
    requires Between(asked, lo, |past|)
    ensures Given(past, asked)
  {}

  lemma ReviewsExact(ref: Ref, apply: bool)
    ensures Reviews(ref, apply) == Reviewed(ref, apply)
  {}

  lemma AdmittedNow(o: Options, past: seq<World>, first: Reply, reviewed: seq<Reply>, last: Reply, ref: Ref)
    requires !o.all && first.request == Discovery && last.request == GetOf(ref) && !last.at.failed
    requires Asked(reviewed) == Reviews(ref, o.apply) && NoneFailed(reviewed)
      && Given(past, [first] + reviewed + [last])
    requires NamedBy(past, first.at, o, ref) && StuckAt(past, last.at.when, ref)
    ensures Admitted(o, past, [first] + reviewed + [last], [ref])
  {
    ReviewsExact(ref, o.apply);
    hide Reviews, Reviewed, NamedBy;
    AskedConcat([first] + reviewed, [last]);
    AskedConcat([first], reviewed);
    assert Asked([first]) == [Discovery] && Asked([last]) == [GetOf(ref)];
    assert ([first] + reviewed + [last])[1..] == reviewed + [last];
  }

  /** Everything before the diagnosis: usage, resolution, access review and, for an
      explicit target, that it is there and stuck. `stop` ends the run at once. */
  method Locate(c: Client, o: Options)
    returns (stop: Option<(int, seq<Line>)>, refs: seq<Ref>, ghost asked: seq<Reply>)
    requires c.Valid()
    modifies c
    ensures c.Valid() && c.log == old(c.log) && old(c.past) <= c.past
    ensures c.replies == old(c.replies) + asked && Between(asked, |old(c.past)|, |c.past|)
    ensures if stop.Some? then Stops(o, c.past, asked, refs, stop.value.0) else Admitted(o, c.past, asked, refs)
  {
    hide History, ParseTarget, Resolve, Swept, Reviews, NamedBy, Between;
    refs, asked := [], [];
    BetweenNone(|c.past|);
    if o.apply && o.all {
      return Some((1, [])), refs, asked;
    }
    var resolved;
    resolved, asked := ResolveTargets(c, o);
    if resolved.Err? {
      return Some((1, [])), refs, asked;
    }
    refs := resolved.value;
    if refs == [] {
      return Some((0, [NothingStuck])), refs, asked;
    }
    if !o.all {
      ghost var located, first := c.past, asked[0];
      GivenBefore(c.past, asked, |old(c.past)|);
      var allowed, reviewed := Preflight(c, refs[0], o.apply);
      NamedKept(located, c.past, first.at, o, refs[0]);
      BetweenConcat(asked, reviewed, |old(c.past)|, |located|, |c.past|);
      asked := asked + reviewed;
      ghost var reviews := c.past;
      if !allowed {
        return Some((1, [])), refs, asked;
      }
      var obj, at := c.Get(refs[0]);
      NamedKept(located, c.past, first.at, o, refs[0]);
      BetweenOne(Reply(GetOf(refs[0]), at), |reviews|, |c.past|);
      BetweenConcat(asked, [Reply(GetOf(refs[0]), at)], |old(c.past)|, |reviews|, |c.past|);
      asked := asked + [Reply(GetOf(refs[0]), at)];
      if obj.None? {
        return Some((1, [])), refs, asked;
      }
      if !IsStuck(obj.value) {
        if o.apply {
          return Some((3, [NothingToClear(refs[0])])), refs, asked;
        }
        return Some((0, [NotStuck(refs[0])])), refs, asked;
      }
      GivenBefore(c.past, asked, |old(c.past)|);
      AdmittedNow(o, c.past, first, reviewed, Reply(GetOf(refs[0]), at), refs[0]);
    }
    stop := None;
  }

  lemma OneResult(mode: Mode, ts: seq<StuckObject>, snap: Snapshot)
    requires |ts| == 1
    ensures |Results(mode, ts, snap)| == 1 && Results(mode, ts, snap)[0].obj == ts[0]
  {
    hide JudgeAll;
    assert |Results(mode, ts[..0], snap)| == 0;
  }

  /** A single target yields one result at most, and it is that target's. */
  lemma SingleResult(past: seq<World>, ref: Ref, t: Times, mode: Mode, snap: Snapshot)
    requires |t.targets| == 1 && snap == Snap(past, [ref], t)
    ensures |Results(mode, snap.targets, snap)| <= 1
    ensures forall r | r in Results(mode, snap.targets, snap) :: r.obj.ref == ref
  {
    OneTarget(past, ref, t);
    hide JudgeAll, Snap, Lookup;
    var ts := snap.targets;
    if ts != [] {
      assert ts[0].ref == ref;
      OneResult(mode, ts, snap);
    }
  }

  /** The record of one invocation: what was asked and located before the diagnosis,
      the diagnosis if it came to one, and what was executed. The invocation began
      at instant `begun`, had located its targets at `located`, and judged them at
      `judged`. */
  datatype Trace = Trace(begun: nat, asked: seq<Reply>, refs: seq<Ref>, located: nat,
                         diagnosed: bool, times: Times, snap: Snapshot, results: seq<TargetResult>, judged: nat,
                         done: seq<Outcome>)
  {
    /** Every read of the invocation, as it was answered. */
    function Replies(): seq<Reply> {
      asked + (if diagnosed then SnapReplies(refs, times) else []) + AllReplies(done)
    }
  }

  /** The results are the judged snapshot of the targets that were admitted before. */
  ghost predicate Diagnosed(past: seq<World>, o: Options, t: Trace) {
    && Between(t.asked, t.begun, t.located) && Admitted(o, past, t.asked, t.refs)
    && |t.refs| == |t.times.targets| && InOrder(t.located, t.times, t.judged) && t.judged <= |past|
    && t.snap == Snap(past, t.refs, t.times)
    && t.results == Results(o.mode, t.snap.targets, t.snap)
  }

  /** Whatever was executed is, from then on, an authorized plan for the one diagnosed target. */
  ghost predicate Lawful(past: seq<World>, o: Options, hash: string -> string, t: Trace) {
    && (if t.diagnosed then Diagnosed(past, o, t) else t.results == [])
    && |t.done| <= |t.results| && |t.done| <= 1 && (t.done != [] ==> o.apply)
    && forall i | 0 <= i < |t.done| ::
      t.done[i].result == t.results[i] && Justified(past, t.judged, o, hash, t.snap, t.done[i])
  }

  /** The exit code says what happened, and so does the report. */
  ghost predicate Truthful(o: Options, hash: string -> string, t: Trace, code: int, lines: seq<Line>) {
    if t.results == [] then code == 0 && t.done == [] && lines == [NothingStuck]
    else if !o.apply then code == 2 && t.done == [] && Reported(hash, t.snap, t.results, lines)
    else
      && |t.results| == 1 && code in {0, 3}
      && (code == 0 <==> t.done != [] && t.done[0].run.ok)
      && (t.done == [] ==> !Authorized(o, hash, t.snap, t.results[0]))
      && Tells(o, hash, t.snap, t.results, t.done, code, lines)
  }

  /** The whole invocation: exit codes tell the truth about mutation, and the record
      holds every write and every read that was made. */
  method Run(c: Client, o: Options, hash: string -> string) returns (code: int, lines: seq<Line>, ghost t: Trace)
    requires c.Valid()
    modifies c
    ensures c.Valid() && old(c.past) <= c.past
    ensures c.log == old(c.log) + AllWrites(t.done) && c.replies == old(c.replies) + t.Replies()
    ensures t.begun == |old(c.past)| && Lawful(c.past, o, hash, t)
    ensures if t.diagnosed then Truthful(o, hash, t, code, lines) && (o.apply ==> !o.all)
            else t.done == [] && Stops(o, c.past, t.asked, t.refs, code)
    ensures !o.apply || code in {1, 2} ==> c.log == old(c.log)
  {
    hide Justified, Authorized, Ran, Writes, History, Snap, SnapReplies, Results, InOrder, Between;
    hide Reported, Tells, Admitted, Stops, AllWrites, AllReplies;
    ghost var none := Instant(0, true);
    var stop, refs, asked := Locate(c, o);
    t := Trace(|old(c.past)|, asked, refs, |c.past|, false, Times([], none, none, none, none, none, none, none),
               Snapshot([], [], [], [], [], [], {}), [], 0, []);
    NoneJustified(c.past, 0, o, hash, t.snap, []);
    if stop.Some? {
      StopsIn(o, c.past, asked, refs, stop.value.0);
      return stop.value.0, stop.value.1, t;
    }
    ghost var located := c.past;
    AdmittedRefs(o, c.past, asked, refs);
    var snap, results, times := Diagnose(c, refs, o.mode);
    t := t.(diagnosed := true, times := times, snap := snap, results := results, judged := |c.past|);
    ghost var before := c.past;
    AdmittedKept(o, located, c.past, asked, refs);
    if results == [] {
      return 0, [NothingStuck], t;
    }
    if !o.apply {
      lines := RenderDryRun(hash, snap, results);
      return 2, lines, t;
    }
    SingleResult(c.past, refs[0], times, o.mode, snap);
    var status, report, done := RunApply(c, o, hash, snap, results);
    DiagnosedKept(before, c.past, o, t);
    code, lines, t := status, report, t.(done := done);
  }

  lemma StopsIn(o: Options, past: seq<World>, asked: seq<Reply>, refs: seq<Ref>, code: int)
    requires Stops(o, past, asked, refs, code)
    ensures code in {0, 1, 3}
  {
    hide Swept, NamedBy;
  }

  lemma AdmittedRefs(o: Options, past: seq<World>, asked: seq<Reply>, refs: seq<Ref>)
    requires Admitted(o, past, asked, refs)
    ensures refs != [] && (o.apply ==> !o.all && refs == [refs[0]])
  {
    hide Swept, NamedBy;
  }

  lemma AdmittedKept(o: Options, past: seq<World>, later: seq<World>, asked: seq<Reply>, refs: seq<Ref>)
    requires past <= later && Admitted(o, past, asked, refs)
    ensures Admitted(o, later, asked, refs)
  {
    hide Swept, NamedBy, Reviewed;
    if o.all {
      SweptKept(past, later, asked, false, "", StuckView(), refs);
    } else {
      assert |Asked(asked)| == |asked| > 0;
      NamedKept(past, later, asked[0].at, o, refs[0]);
    }
  }

  lemma NamedKept(past: seq<World>, later: seq<World>, found: Instant, o: Options, ref: Ref)
    requires past <= later && NamedBy(past, found, o, ref) && found.when < |past|
    ensures NamedBy(later, found, o, ref)
  {}

  lemma DiagnosedKept(past: seq<World>, later: seq<World>, o: Options, t: Trace)
    requires past <= later && Diagnosed(past, o, t)
    ensures Diagnosed(later, o, t)
  {
    hide Snap, Results, Admitted, Between;
    SnapKept(past, later, t.refs, t.times) by {
      assert InOrder(0, t.times, |past|);
    }
    AdmittedKept(o, past, later, t.asked, t.refs);
  }
}
