/** A whole invocation that nobody disturbs. */
module Invocations {
  import opened Text
  import opened Model
  import opened Terms
  import opened Discover
  import opened Orphans
  import opened Plans
  import opened Diagnosis
  import opened Diagnoses
  import opened AdmissionWebhooks
  import opened Cluster
  import opened Snapshots
  import opened Execution
  import opened Scanning
  import opened Completion
  import opened Cli
  import opened Guarantees

  /* Catalogues */

  predicate SameKind(g: GVR, h: GVR) {
    g.group == h.group && g.resource == h.resource
  }

  /** Every kind is listed in one place only, and so under one version. */
  ghost predicate ListsOnce(lists: seq<ResourceList>) {
    forall a, i, b, j, g, h | IsEntry(lists, a, i, g) && IsEntry(lists, b, j, h) && SameKind(g, h) :: a == b && i == j
  }

  lemma {:induction false} RequestInSource(lists: seq<ResourceList>, a: nat, m: nat, namespacedOnly: bool,
                                           namespace: string, k: nat)
    requires a < |lists| && m <= |lists[a].resources| && k < |RequestsIn(lists[a], m, namespacedOnly, namespace)|
    ensures
      var q := RequestsIn(lists[a], m, namespacedOnly, namespace)[k];
      && q.ListOf? && q.namespace == namespace && '/' !in q.gvr.resource
      && exists i :: 0 <= i < m && IsEntry(lists, a, i, q.gvr)
  {
    if k < |RequestsIn(lists[a], m - 1, namespacedOnly, namespace)| {
      RequestInSource(lists, a, m - 1, namespacedOnly, namespace, k);
    } else {
      var q := RequestsIn(lists[a], m, namespacedOnly, namespace)[k];
      assert IsEntry(lists, a, m - 1, q.gvr);
    }
  }

  lemma {:induction false} RequestSource(lists: seq<ResourceList>, n: nat, namespacedOnly: bool, namespace: string,
                                         k: nat)
    requires n <= |lists| && k < |Requests(lists, n, namespacedOnly, namespace)|
    ensures
      var q := Requests(lists, n, namespacedOnly, namespace)[k];
      && q.ListOf? && q.namespace == namespace && '/' !in q.gvr.resource
      && exists a, i :: 0 <= a < n && IsEntry(lists, a, i, q.gvr)
  {
    var before := |Requests(lists, n - 1, namespacedOnly, namespace)|;
    if k < before {
      RequestSource(lists, n - 1, namespacedOnly, namespace, k);
    } else {
      RequestInSource(lists, n - 1, |lists[n - 1].resources|, namespacedOnly, namespace, k - before);
    }
  }

  /** No two requests are for the same kind. */
  predicate Apart(asked: seq<Request>) {
    forall i, j | 0 <= i < j < |asked| && asked[i].ListOf? && asked[j].ListOf? :: !SameKind(asked[i].gvr, asked[j].gvr)
  }

  lemma {:induction false} RequestsInApart(lists: seq<ResourceList>, a: nat, m: nat, namespacedOnly: bool,
                                           namespace: string)
    requires ListsOnce(lists) && a < |lists| && m <= |lists[a].resources|
    ensures Apart(RequestsIn(lists[a], m, namespacedOnly, namespace))
  {
    if m > 0 {
      RequestsInApart(lists, a, m - 1, namespacedOnly, namespace);
      var init := RequestsIn(lists[a], m - 1, namespacedOnly, namespace);
      var more := Wanted(lists[a], lists[a].resources[m - 1], namespacedOnly, namespace);
      if more != [] {
        assert IsEntry(lists, a, m - 1, more[0].gvr);
        forall i | 0 <= i < |init| ensures init[i].ListOf? && !SameKind(init[i].gvr, more[0].gvr) {
          RequestInSource(lists, a, m - 1, namespacedOnly, namespace, i);
        }
      }
    }
  }

  lemma {:induction false} RequestsApart(lists: seq<ResourceList>, n: nat, namespacedOnly: bool, namespace: string)
    requires ListsOnce(lists) && n <= |lists|
    ensures Apart(Requests(lists, n, namespacedOnly, namespace))
  {
    if n > 0 {
      var init := Requests(lists, n - 1, namespacedOnly, namespace);
      var more := RequestsIn(lists[n - 1], |lists[n - 1].resources|, namespacedOnly, namespace);
      RequestsApart(lists, n - 1, namespacedOnly, namespace);
      RequestsInApart(lists, n - 1, |lists[n - 1].resources|, namespacedOnly, namespace);
      forall i, j | 0 <= i < |init| && 0 <= j < |more|
        ensures init[i].ListOf? && more[j].ListOf? && !SameKind(init[i].gvr, more[j].gvr)
      {
        RequestSource(lists, n - 1, namespacedOnly, namespace, i);
        RequestInSource(lists, n - 1, |lists[n - 1].resources|, namespacedOnly, namespace, j);
      }
    }
  }

  /** Resolution finds a listed resource, or else nothing of that name is listed. */
  lemma FindGVRSource(lists: seq<ResourceList>, t: Target)
    ensures FindGVR(lists, t).Some? ==> exists a, i :: IsEntry(lists, a, i, FindGVR(lists, t).value)
    ensures FindGVR(lists, t).None? ==> forall a, i, g | IsEntry(lists, a, i, g) && '/' !in g.resource ::
      !(g.group == t.group && g.resource == t.resource)
  {
    FindGVRExact(lists, t);
    hide FindGVR, EqualFold;
    forall a, i, g | IsEntry(lists, a, i, g) && '/' !in g.resource && g.group == t.group && g.resource == t.resource
      ensures GoesBy(lists, a, i, t.group, t.resource) {}
  }

  /** A resolved target is known by the one version its catalogue lists it under. */
  lemma ResolvedVersion(lists: seq<ResourceList>, t: Target, gvr: GVR)
    requires ListsOnce(lists) && '/' !in gvr.resource && exists a, i :: IsEntry(lists, a, i, gvr)
    requires SameKind(gvr, Resolve(Ok(lists), t).gvr)
    ensures gvr == Resolve(Ok(lists), t).gvr
  {
    FindGVRSource(lists, t);
  }

  /* Candidates */

  /** Every reply was answered from `w`. */
  predicate AnsweredFrom(past: seq<World>, asked: seq<Reply>, w: World) {
    forall i | 0 <= i < |asked| :: Answer(past, asked[i].at) == w
  }

  /** The candidate as the list of its kind shows it. */
  predicate IsListed(reply: Reply, w: World, x: StuckObject) {
    && reply.request.ListOf? && x.ref.gvr == reply.request.gvr
    && KeyOf(x.ref) in w.objects && x == Candidate(x.ref, w.objects[KeyOf(x.ref)])
  }

  lemma ShownListed(past: seq<World>, reply: Reply, w: World, x: StuckObject)
    requires ShownBy(past, reply, CandidateView(), x) && Answer(past, reply.at) == w
    ensures IsListed(reply, w, x)
  {
    var k :| Shows(past, reply, k, CandidateView(), x);
    assert KeyOf(x.ref) == k;
  }

  lemma ShownByOne(past: seq<World>, asked: seq<Reply>, w: World, x: StuckObject, i: nat, n: nat)
    requires AnsweredFrom(past, asked, w) && Apart(Asked(asked)) && i < n < |asked|
    requires ShownBy(past, asked[n], CandidateView(), x)
    ensures !ShownBy(past, asked[i], CandidateView(), x)
  {
    hide ShownBy;
    assert Asked(asked)[i] == asked[i].request && Asked(asked)[n] == asked[n].request;
    ShownListed(past, asked[n], w, x);
    if ShownBy(past, asked[i], CandidateView(), x) {
      ShownListed(past, asked[i], w, x);
      assert false;
    }
  }

  lemma {:induction false} ShowingsOnce(past: seq<World>, asked: seq<Reply>, w: World, x: StuckObject)
    requires AnsweredFrom(past, asked, w) && Apart(Asked(asked))
    ensures Showings(past, asked, CandidateView(), x) <= 1
  {
    if asked != [] {
      var n := |asked| - 1;
      assert Asked(asked[..n]) == Asked(asked)[..n];
      ShowingsOnce(past, asked[..n], w, x);
      ShowingsSource(past, asked[..n], CandidateView(), x);
      hide ShownBy;
      if ShownBy(past, asked[n], CandidateView(), x) {
        forall i | 0 <= i < n ensures !ShownBy(past, asked[..n][i], CandidateView(), x) {
          ShownByOne(past, asked, w, x, i, n);
        }
      }
    }
  }

  /** The candidates are different objects. */
  predicate DifferentKeys(xs: seq<StuckObject>) {
    forall i, j | 0 <= i < j < |xs| :: KeyOf(xs[i].ref) != KeyOf(xs[j].ref)
  }

  lemma SameKeySameCandidate(asked: seq<Reply>, w: World, x: StuckObject, y: StuckObject, p: nat, q: nat)
    requires Apart(Asked(asked)) && p < |asked| && q < |asked|
    requires IsListed(asked[p], w, x) && IsListed(asked[q], w, y) && KeyOf(x.ref) == KeyOf(y.ref)
    ensures x == y
  {
    assert Asked(asked)[p] == asked[p].request && Asked(asked)[q] == asked[q].request;
    assert SameKind(x.ref.gvr, y.ref.gvr);
    assert p == q;
  }

  lemma TwiceIn<T>(xs: seq<T>, i: nat, j: nat)
    requires i < j < |xs| && xs[i] == xs[j]
    ensures multiset(xs)[xs[i]] >= 2
  {
    assert xs == xs[..j] + [xs[j]] + xs[j + 1..];
    assert xs[..j][i] == xs[i] && xs[i] in multiset(xs[..j]);
  }

  lemma GatheredListed(past: seq<World>, asked: seq<Reply>, w: World, xs: seq<StuckObject>, x: StuckObject)
    returns (i: nat)
    requires AnsweredFrom(past, asked, w) && Gathered(past, asked, CandidateView(), xs) && x in xs
    ensures i < |asked| && IsListed(asked[i], w, x)
  {
    ShowingsSource(past, asked, CandidateView(), x);
    hide ShownBy, Showings;
    assert x in multiset(xs);
    i :| 0 <= i < |asked| && ShownBy(past, asked[i], CandidateView(), x);
    ShownListed(past, asked[i], w, x);
  }

  lemma GatheredApart(past: seq<World>, asked: seq<Reply>, w: World, xs: seq<StuckObject>)
    requires AnsweredFrom(past, asked, w) && Apart(Asked(asked)) && Gathered(past, asked, CandidateView(), xs)
    ensures DifferentKeys(xs)
  {
    hide Apart, Showings, IsListed, KeyOf;
    forall i, j | 0 <= i < j < |xs| ensures KeyOf(xs[i].ref) != KeyOf(xs[j].ref) {
      if KeyOf(xs[i].ref) == KeyOf(xs[j].ref) {
        var p := GatheredListed(past, asked, w, xs, xs[i]);
        var q := GatheredListed(past, asked, w, xs, xs[j]);
        SameKeySameCandidate(asked, w, xs[i], xs[j], p, q);
        TwiceIn(xs, i, j);
        ShowingsOnce(past, asked, w, xs[i]);
        assert false;
      }
    }
  }

  /** Where a candidate comes from: it is there, and the catalogue lists its kind. */
  predicate Known(w: World, x: StuckObject) {
    && KeyOf(x.ref) in w.objects && x == Candidate(x.ref, w.objects[KeyOf(x.ref)])
    && '/' !in x.ref.gvr.resource
    && exists a, i | 0 <= a < |w.catalogue| && 0 <= i < |w.catalogue[a].resources| ::
      IsEntry(w.catalogue, a, i, x.ref.gvr)
  }

  lemma SweptApart(past: seq<World>, asked: seq<Reply>, w: World, namespace: string, xs: seq<StuckObject>)
    requires AnsweredFrom(past, asked, w) && ListsOnce(w.catalogue)
      && Swept(past, asked, true, namespace, CandidateView(), xs)
    ensures DifferentKeys(xs) && forall x | x in xs :: Known(w, x)
  {
    var rest, lists := asked[1..], w.catalogue;
    assert AnsweredFrom(past, rest, w) && Asked(rest) == Requests(lists, |lists|, true, namespace);
    RequestsApart(lists, |lists|, true, namespace);
    hide Swept, Gathered, ListsOnce, Apart, Requests, AnsweredFrom, DifferentKeys;
    GatheredApart(past, rest, w, xs);
    forall x | x in xs ensures Known(w, x) {
      var i := GatheredListed(past, rest, w, xs, x);
      assert Asked(rest)[i] == rest[i].request;
      RequestSource(lists, |lists|, true, namespace, i);
    }
  }

  /** What a quiet search finds of the orphans of a target that the same catalogue resolved. */
  lemma {:induction false} OrphansSeparate(w: World, obj: StuckObject, xs: seq<StuckObject>)
    requires DifferentKeys(xs) && forall x | x in xs ::
      Known(w, x) && (KeyOf(x.ref) == KeyOf(obj.ref) ==> x.ref == obj.ref)
    ensures Separate(obj.ref, OrphansOf(obj, xs))
    ensures forall r | r in OrphansOf(obj, xs) :: KeyOf(r) in w.objects && exists x | x in xs :: x.ref == r
  {
    if xs != [] {
      var n := |xs| - 1;
      assert forall x | x in xs[..n] :: x in xs;
      hide Known, KeyOf, IsOrphan;
      OrphansSeparate(w, obj, xs[..n]);
      if IsOrphan(obj, xs[n]) {
        OneMoreSeparate(w, obj, xs, OrphansOf(obj, xs[..n]));
      }
    }
  }

  lemma OneMoreSeparate(w: World, obj: StuckObject, xs: seq<StuckObject>, init: seq<Ref>)
    requires xs != [] && DifferentKeys(xs) && Separate(obj.ref, init) && IsOrphan(obj, xs[|xs| - 1])
    requires Known(w, xs[|xs| - 1]) && (KeyOf(xs[|xs| - 1].ref) == KeyOf(obj.ref) ==> xs[|xs| - 1].ref == obj.ref)
    requires forall r | r in init :: exists x | x in xs[..|xs| - 1] :: x.ref == r
    ensures Separate(obj.ref, init + [xs[|xs| - 1].ref]) && KeyOf(xs[|xs| - 1].ref) in w.objects
  {
    var n := |xs| - 1;
    forall j | 0 <= j < |init| ensures KeyOf(init[j]) != KeyOf(xs[n].ref) {
      assert init[j] in init;
      var x :| x in xs[..n] && x.ref == init[j];
      var i :| 0 <= i < n && xs[i] == x;
    }
    hide Known;
  }

  /* The theorem */

  /** Every call succeeds, and from the world the invocation found on, nothing changes
      but by its own writes. */
  ghost predicate Peaceful(past: seq<World>, t: Trace) {
    && 1 <= t.begun && |t.done| == 1 && t.diagnosed
    && NoneFailed(t.asked) && Prompt(t.times) && NoneFailed(t.done[0].asked)
    && t.done[0].run.lo <= |past| && (forall i | t.begun <= i < t.done[0].run.lo :: past[i] == past[t.begun - 1])
    && Quiet(past, t.done[0].run)
  }

  lemma NoneFailedFrom(past: seq<World>, asked: seq<Reply>, lo: nat, hi: nat, w: World)
    requires NoneFailed(asked) && Between(asked, lo, hi) && hi <= |past| && forall i | lo <= i < hi :: past[i] == w
    ensures AnsweredFrom(past, asked, w)
  {}

  /** The named target, in the one world before the run. */
  lemma TargetFound(past: seq<World>, o: Options, t: Trace, w: World, ref: Ref)
    requires Diagnosed(past, o, t) && o.apply && t.refs == [ref] && NoneFailed(t.asked)
    requires t.located <= |past| && forall i | t.begun <= i < t.located :: past[i] == w
    ensures KeyOf(ref) in w.objects && w.objects[KeyOf(ref)].deleting
    ensures exists target :: ref == Resolve(Ok(w.catalogue), target)
  {
    hide Snap, Results, InOrder, Reviewed, Resolve;
    assert |Asked(t.asked)| == |t.asked|;
    NoneFailedFrom(past, t.asked, t.begun, t.located, w);
    assert past[t.asked[|t.asked| - 1].at.when] == w;
  }

  /** A search in one world misses no orphan: whatever object of a listed, namespaced kind
      lives where the target's orphans do and names the target by apiVersion, kind and
      name is found. */
  lemma SearchComplete(past: seq<World>, x: Outcome, w: World, lo: nat, a: int, i: int, gvr: GVR, k: Key)
    requires Searched(past, x.asked, x.result.obj, x.candidates) && Between(x.asked, lo, x.run.lo)
      && NoneFailed(x.asked)
    requires x.run.lo <= |past| && forall m | lo <= m < x.run.lo :: past[m] == w
    requires OffersList(w.catalogue, a, i, gvr, true) && k in w.objects && k.group == gvr.group
      && k.resource == gvr.resource
    requires k.namespace != "" && OrphanNamespace(x.result.obj.ref, k.namespace)
    requires NamesOwner(w.objects[k].ownerRefs, x.result.obj.apiVersion, x.result.obj.kind, x.result.obj.ref.name)
    requires Ref(gvr, k.namespace, k.name) != x.result.obj.ref
    ensures Ref(gvr, k.namespace, k.name) in x.Orphans()
  {
    var obj, found := x.result.obj, Candidate(Ref(gvr, k.namespace, k.name), w.objects[k]);
    NoneFailedFrom(past, x.asked, lo, x.run.lo, w);
    RequestsExact(w.catalogue, true, k.namespace);
    OrphansExact(obj, x.candidates);
    hide NamesOwner, OffersList, Between, NoneFailed, OrphansOf;
    SweptHas(past, x.asked, w, k.namespace, gvr, k, x.candidates);
    assert found in x.candidates && found.ref == Ref(gvr, k.namespace, k.name);
  }

  lemma SweptHas(past: seq<World>, asked: seq<Reply>, w: World, namespace: string, gvr: GVR, k: Key,
                 xs: seq<StuckObject>)
    requires Swept(past, asked, true, namespace, CandidateView(), xs) && AnsweredFrom(past, asked, w)
    requires ListOf(gvr, namespace) in Requests(w.catalogue, |w.catalogue|, true, namespace)
    requires k in w.objects && Selects(k, gvr, namespace)
    ensures Candidate(Ref(gvr, k.namespace, k.name), w.objects[k]) in xs
  {
    var rest, found := asked[1..], Candidate(Ref(gvr, k.namespace, k.name), w.objects[k]);
    var p :| 0 <= p < |Asked(rest)| && Asked(rest)[p] == ListOf(gvr, namespace);
    assert rest[p] == asked[p + 1] && rest[p].request == ListOf(gvr, namespace);
    assert Shows(past, rest[p], k, CandidateView(), found);
    ShowingsSource(past, rest, CandidateView(), found);
    hide Showings, Requests;
    assert found in multiset(xs);
  }

  /** For a peaceful invocation: each such object is among the orphans it deletes. */
  lemma OrphansComplete(past: seq<World>, o: Options, hash: string -> string, t: Trace, a: int, i: int, gvr: GVR,
                        k: Key)
    requires Lawful(past, o, hash, t) && Peaceful(past, t) && t.begun <= |past|
    requires
      var w, ref := past[t.begun - 1], t.done[0].result.obj.ref;
      && OffersList(w.catalogue, a, i, gvr, true) && k in w.objects && k.group == gvr.group
        && k.resource == gvr.resource
      && k.namespace != "" && OrphanNamespace(ref, k.namespace) && Ref(gvr, k.namespace, k.name) != ref
      && KeyOf(ref) in w.objects
      && NamesOwner(w.objects[k].ownerRefs, w.objects[KeyOf(ref)].apiVersion, w.objects[KeyOf(ref)].kind, ref.name)
    ensures Ref(gvr, k.namespace, k.name) in t.done[0].Orphans()
  {
    LawfulParts(past, o, hash, t);
    PeacefulParts(past, o, hash, t);
    hide Lawful, Diagnosed, Ran, Quiet, Authorized, Searched, Between, Prompt, NoneFailed, Remediation, NamesOwner;
    hide OffersList, OrphanNamespace, KeyOf;
    var w, x := past[t.begun - 1], t.done[0];
    TargetJudged(past, o, t, w, x.result.obj.ref);
    SearchComplete(past, x, w, t.judged, a, i, gvr, k);
  }

  /** The diagnosis is that of the one world. */
  lemma TargetJudged(past: seq<World>, o: Options, t: Trace, w: World, ref: Ref)
    requires Diagnosed(past, o, t) && t.refs == [ref] && Prompt(t.times) && t.results != []
    requires forall i | t.located <= i < t.judged :: past[i] == w
    ensures KeyOf(ref) in w.objects && t.results[0].obj == ToStuckObject(ref, w.objects[KeyOf(ref)])
    ensures StateIn(w, ref, o.mode) == CombinedState(t.results[0].verdicts)
    ensures t.results[0].verdicts == JudgeAll(o.mode, t.results[0].obj, t.snap)
  {
    assert |t.times.targets| == 1 && InOrder(t.located, t.times, t.judged);
    SnapOfOneWorld(past, w, ref, t.times, t.located, t.judged);
    OneTarget(past, ref, t.times);
    assert Answer(past, t.times.targets[0]) == w;
    ResultSeen(past, ref, o.mode, t.times, t.snap);
    hide Admitted, Between, Snap, JudgeAll, CombinedState, Results;
    ResultAt(o.mode, t.snap.targets, t.snap, 0);
  }

  /** The orphans that a quiet search finds are distinct, there, and not the target. */
  lemma OrphansFound(past: seq<World>, x: Outcome, w: World, lo: nat, target: Target)
    requires Searched(past, x.asked, x.result.obj, x.candidates) && Between(x.asked, lo, x.run.lo)
      && NoneFailed(x.asked)
    requires x.run.lo <= |past| && forall i | lo <= i < x.run.lo :: past[i] == w
    requires ListsOnce(w.catalogue) && x.result.obj.ref == Resolve(Ok(w.catalogue), target)
    ensures Separate(x.result.obj.ref, x.Orphans())
    ensures forall j | 0 <= j < |x.Orphans()| :: KeyOf(x.Orphans()[j]) in w.objects
  {
    var obj := x.result.obj;
    NoneFailedFrom(past, x.asked, lo, x.run.lo, w);
    if ScanNamespace(obj) != "" {
      hide Swept, Between, Separate, ListsOnce, Resolve, DifferentKeys;
      SweptApart(past, x.asked, w, ScanNamespace(obj), x.candidates);
      forall c | c in x.candidates && KeyOf(c.ref) == KeyOf(obj.ref) ensures c.ref == obj.ref {
        ResolvedVersion(w.catalogue, target, c.ref.gvr);
      }
      hide Known;
      OrphansSeparate(w, obj, x.candidates);
    }
  }

  lemma CodeTells(past: seq<World>, o: Options, hash: string -> string, t: Trace, code: int, lines: seq<Line>)
    requires Lawful(past, o, hash, t) && Truthful(o, hash, t, code, lines) && t.done != []
    ensures code == 0 <==> t.done[0].run.ok
  {
    hide Diagnosed, Justified, Reported, Tells, Authorized;
  }

  lemma LawfulParts(past: seq<World>, o: Options, hash: string -> string, t: Trace)
    requires Lawful(past, o, hash, t) && t.done != []
    ensures Diagnosed(past, o, t) && o.apply && t.results != [] && t.results[0] == t.done[0].result
    ensures Justified(past, t.judged, o, hash, t.snap, t.done[0])
  {
    hide Diagnosed, Justified;
  }

  /** The world the invocation found is the one its parts were read from. */
  lemma PeacefulParts(past: seq<World>, o: Options, hash: string -> string, t: Trace)
    requires Lawful(past, o, hash, t) && Peaceful(past, t)
    ensures
      var w, x := past[t.begun - 1], t.done[0];
      && t.refs == [x.result.obj.ref] && t.located <= t.judged <= x.run.lo && t.begun <= t.located
      && (forall i | t.begun <= i < x.run.lo :: past[i] == w) && past[x.run.lo - 1] == w
  {
    hide Justified, Admitted, Snap, Results, Quiet, Prompt;
    LawfulParts(past, o, hash, t);
    ResultIsNamed(past, o, t, t.done[0].result);
    DiagnosedChronology(past, o, t);
    SearchChronology(past, o, hash, t);
  }

  lemma InvocationUndisturbed(past: seq<World>, o: Options, hash: string -> string, t: Trace)
    requires Lawful(past, o, hash, t) && Peaceful(past, t) && ListsOnce(past[t.begun - 1].catalogue)
    requires t.done[0].result.obj.ref.IsNamespace() ==> CoreNamespace(t.done[0].result.obj.ref)
    ensures t.begun <= |past|
    ensures
      var w, x := past[t.begun - 1], t.done[0];
      && x.run.target == x.result.obj.ref && KeyOf(x.result.obj.ref) in w.objects
      && Undisturbed(past, x.run, w.objects[KeyOf(x.result.obj.ref)], x.Orphans())
  {
    LawfulParts(past, o, hash, t);
    PeacefulParts(past, o, hash, t);
    hide Lawful, Diagnosed, Ran, Quiet, Authorized, Searched, Between, Prompt, NoneFailed, ListsOnce, Resolve;
    hide StateIn, CombinedState, JudgeAll, Remediation, Separate, CoreNamespace, KeyOf;
    var w, x := past[t.begun - 1], t.done[0];
    JudgedDead(past, o, hash, t, w);
    QuietOrphans(past, o, t, w);
    AssembleUndisturbed(past, x, o.mode, w);
  }

  lemma JudgedDead(past: seq<World>, o: Options, hash: string -> string, t: Trace, w: World)
    requires Diagnosed(past, o, t) && t.done != [] && t.refs == [t.done[0].result.obj.ref] && Prompt(t.times)
    requires t.results != [] && t.results[0] == t.done[0].result && Authorized(o, hash, t.snap, t.done[0].result)
    requires forall i | t.located <= i < t.judged :: past[i] == w
    ensures
      var r := t.done[0].result;
      && KeyOf(r.obj.ref) in w.objects && StateIn(w, r.obj.ref, o.mode) == Dead
      && Named(r.verdicts) == w.objects[KeyOf(r.obj.ref)].metaFinalizers + w.objects[KeyOf(r.obj.ref)].specFinalizers
  {
    var r := t.done[0].result;
    TargetJudged(past, o, t, w, r.obj.ref);
    AllCondemned(o.mode, t.snap, r.obj);
    hide Diagnosed, StateIn, JudgeAll, CombinedState, Blocked, Condemned;
  }

  lemma QuietOrphans(past: seq<World>, o: Options, t: Trace, w: World)
    requires t.done != [] && Diagnosed(past, o, t) && o.apply && t.refs == [t.done[0].result.obj.ref]
    requires NoneFailed(t.asked) && NoneFailed(t.done[0].asked) && ListsOnce(w.catalogue)
    requires
      var x := t.done[0];
      && Searched(past, x.asked, x.result.obj, x.candidates) && Between(x.asked, t.judged, x.run.lo)
      && t.begun <= t.located <= t.judged <= x.run.lo <= |past| && forall i | t.begun <= i < x.run.lo :: past[i] == w
    ensures
      var x := t.done[0];
      && KeyOf(x.result.obj.ref) in w.objects && w.objects[KeyOf(x.result.obj.ref)].deleting
      && Separate(x.result.obj.ref, x.Orphans())
      && forall j | 0 <= j < |x.Orphans()| :: KeyOf(x.Orphans()[j]) in w.objects
  {
    hide Diagnosed, Searched, Between, NoneFailed, ListsOnce, Resolve, Separate;
    var x := t.done[0];
    TargetFound(past, o, t, w, x.result.obj.ref);
    var target :| x.result.obj.ref == Resolve(Ok(w.catalogue), target);
    OrphansFound(past, x, w, t.judged, target);
  }

  lemma AssembleUndisturbed(past: seq<World>, x: Outcome, mode: Mode, w: World)
    requires Ran(past, x.run) && Quiet(past, x.run) && 1 <= x.run.lo <= |past| && past[x.run.lo - 1] == w
    requires x.run.target == x.result.obj.ref && x.run.mode == mode
    requires Lookup(w, x.run.target).Some? && Lookup(w, x.run.target).value.deleting
      && StateIn(w, x.run.target, mode) == Dead
    requires
      var obj := Lookup(w, x.run.target).value;
      Named(x.result.verdicts) == obj.metaFinalizers + obj.specFinalizers
    requires x.run.actions == Remediation(x.run.target, Named(x.result.verdicts), x.Orphans())
    requires Separate(x.run.target, x.Orphans()) && forall j | 0 <= j < |x.Orphans()| ::
      KeyOf(x.Orphans()[j]) in w.objects
    requires x.run.target.IsNamespace() ==> CoreNamespace(x.run.target)
    ensures Undisturbed(past, x.run, Lookup(w, x.run.target).value, x.Orphans())
  {
    hide Ran, Quiet, StateIn, Remediation, Separate, CoreNamespace;
  }

  lemma UndisturbedEnds(past: seq<World>, r: Run, o: Obj, orphans: seq<Ref>)
    requires Undisturbed(past, r, o, orphans)
    ensures 0 < r.hi <= |past| && Ends(past[r.hi - 1], r.target, o, orphans) && (r.ok <==> LastTakes(r.target, o))
  {
    UndisturbedExact(past, r, o, orphans);
    hide StateIn, Ran, Calm, PlanOf, Separate, LastTakes, Removable;
  }

  /** In `end`, the target is gone exactly when it was removable, and the orphans are
      gone or being deleted. */
  predicate Ends(end: World, target: Ref, o: Obj, orphans: seq<Ref>) {
    && (KeyOf(target) !in end.objects <==> Removable(target, o))
    && forall j | 0 <= j < |orphans| :: KeyOf(orphans[j]) in end.objects ==> end.objects[KeyOf(orphans[j])].deleting
  }

  /** Nobody disturbs it: the invocation deletes the orphans and clears the finalizers;
      its exit code is 0 exactly when the last action still finds the target, the
      target is gone afterwards exactly when every finalizer that holds it sits where
      its action looks for it, and the orphans are gone or being deleted. */
  lemma UndisturbedInvocation(past: seq<World>, o: Options, hash: string -> string, t: Trace, code: int,
                              lines: seq<Line>)
    requires Lawful(past, o, hash, t) && Truthful(o, hash, t, code, lines) && Peaceful(past, t)
    requires ListsOnce(past[t.begun - 1].catalogue)
    requires t.done[0].result.obj.ref.IsNamespace() ==> CoreNamespace(t.done[0].result.obj.ref)
    ensures
      var w, x := past[t.begun - 1], t.done[0];
      var ref := x.result.obj.ref;
      && KeyOf(ref) in w.objects && 0 < x.run.hi <= |past|
      && (code == 0 <==> LastTakes(ref, w.objects[KeyOf(ref)]))
      && Ends(past[x.run.hi - 1], ref, w.objects[KeyOf(ref)], x.Orphans())
  {
    hide Lawful, Truthful, ListsOnce, Undisturbed, LastTakes, Ends, CoreNamespace, Quiet, NoneFailed, Prompt, KeyOf;
    CodeTells(past, o, hash, t, code, lines);
    InvocationUndisturbed(past, o, hash, t);
    var w, x := past[t.begun - 1], t.done[0];
    UndisturbedEnds(past, x.run, w.objects[KeyOf(x.result.obj.ref)], x.Orphans());
  }
}
