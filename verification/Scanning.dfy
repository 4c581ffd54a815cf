/** Finding stuck objects and orphan candidates through discovery and lists. */
module Scanning {
  import opened Model
  import opened Terms
  import opened Orphans
  import opened Cluster

  predicate IsStuck(o: Obj): (stuck: bool)
    ensures stuck <==> HeldInDeletion(o)
  {
    o.deleting && |o.metaFinalizers| + |o.specFinalizers| > 0
  }

  predicate CanList(r: ApiResource) {
    "list" in r.verbs && '/' !in r.name
  }

  /** At instant `i` the object was there, and stuck. */
  predicate StuckAt(past: seq<World>, i: nat, ref: Ref) {
    i < |past| && KeyOf(ref) in past[i].objects && HeldInDeletion(past[i].objects[KeyOf(ref)])
  }

  /** What a listed object is known by as an orphan candidate. */
  function Candidate(ref: Ref, o: Obj): StuckObject {
    StuckObject(ref, o.kind, o.apiVersion, false, [], [], o.ownerRefs, [], 0)
  }

  /* What a sweep asks for */

  function Wanted(list: ResourceList, r: ApiResource, namespacedOnly: bool, namespace: string): seq<Request> {
    if list.groupVersion.Some? && CanList(r) && (namespacedOnly ==> r.namespaced)
    then [ListOf(GVR(list.groupVersion.value.0, list.groupVersion.value.1, r.name), namespace)]
    else []
  }

  /** One list request for each of the first `m` resources that are wanted. */
  function RequestsIn(list: ResourceList, m: nat, namespacedOnly: bool, namespace: string): seq<Request>
    requires m <= |list.resources|
  {
    if m == 0 then []
    else
      RequestsIn(list, m - 1, namespacedOnly, namespace)
      + Wanted(list, list.resources[m - 1], namespacedOnly, namespace)
  }

  function Requests(lists: seq<ResourceList>, n: nat, namespacedOnly: bool, namespace: string): seq<Request>
    requires n <= |lists|
  {
    if n == 0 then []
    else Requests(lists, n - 1, namespacedOnly, namespace)
         + RequestsIn(lists[n - 1], |lists[n - 1].resources|, namespacedOnly, namespace)
  }

  lemma {:induction false} NothingWanted(list: ResourceList, m: nat, namespacedOnly: bool, namespace: string)
    requires m <= |list.resources| && list.groupVersion == None
    ensures RequestsIn(list, m, namespacedOnly, namespace) == []
  {
    if m > 0 {
      NothingWanted(list, m - 1, namespacedOnly, namespace);
    }
  }

  /** What is asked for: a list of each resource that the catalogue offers to list, in
      this namespace, and nothing else. */
  lemma RequestsExact(lists: seq<ResourceList>, namespacedOnly: bool, namespace: string)
    ensures forall q :: q in Requests(lists, |lists|, namespacedOnly, namespace) <==>
      exists a, i, gvr :: OffersList(lists, a, i, gvr, namespacedOnly) && q == ListOf(gvr, namespace)
  {
    forall q ensures q in Requests(lists, |lists|, namespacedOnly, namespace) <==>
      exists a, i, gvr :: OffersList(lists, a, i, gvr, namespacedOnly) && q == ListOf(gvr, namespace)
    {
      RequestsUpTo(lists, |lists|, namespacedOnly, namespace, q);
      hide OffersList, Requests;
      if a, i, gvr :| OffersList(lists, a, i, gvr, namespacedOnly) && q == ListOf(gvr, namespace) {
        OfferInRange(lists, a, i, gvr, namespacedOnly);
      }
    }
  }

  lemma OfferInRange(lists: seq<ResourceList>, a: int, i: int, gvr: GVR, namespacedOnly: bool)
    requires OffersList(lists, a, i, gvr, namespacedOnly)
    ensures 0 <= a < |lists| && 0 <= i < |lists[a].resources|
  {}

  lemma {:induction false} RequestsUpTo(lists: seq<ResourceList>, n: nat, namespacedOnly: bool, namespace: string,
                                        q: Request)
    requires n <= |lists|
    ensures q in Requests(lists, n, namespacedOnly, namespace) <==>
      exists a, i, gvr :: a < n && OffersList(lists, a, i, gvr, namespacedOnly) && q == ListOf(gvr, namespace)
  {
    if n == 0 {
      assert forall a, i, gvr :: OffersList(lists, a, i, gvr, namespacedOnly) ==> a >= 0;
    } else {
      RequestsUpTo(lists, n - 1, namespacedOnly, namespace, q);
      RequestsInUpTo(lists, n - 1, |lists[n - 1].resources|, namespacedOnly, namespace, q);
      hide RequestsIn;
      var last := n - 1;
      assert forall i, gvr :: OffersList(lists, last, i, gvr, namespacedOnly) ==> i < |lists[last].resources|;
      hide OffersList;
    }
  }

  lemma {:induction false} RequestsInUpTo(lists: seq<ResourceList>, a: nat, m: nat, namespacedOnly: bool,
                                          namespace: string,
                                          q: Request)
    requires a < |lists| && m <= |lists[a].resources|
    ensures q in RequestsIn(lists[a], m, namespacedOnly, namespace) <==>
      exists i, gvr :: i < m && OffersList(lists, a, i, gvr, namespacedOnly) && q == ListOf(gvr, namespace)
  {
    if m == 0 {
      assert forall i, gvr :: OffersList(lists, a, i, gvr, namespacedOnly) ==> i >= 0;
    } else {
      RequestsInUpTo(lists, a, m - 1, namespacedOnly, namespace, q);
      WantedExact(lists, a, m - 1, namespacedOnly, namespace, q);
      hide Wanted, OffersList;
    }
  }

  lemma WantedExact(lists: seq<ResourceList>, a: nat, i: nat, namespacedOnly: bool, namespace: string, q: Request)
    requires a < |lists| && i < |lists[a].resources|
    ensures q in Wanted(lists[a], lists[a].resources[i], namespacedOnly, namespace) <==>
      exists gvr :: OffersList(lists, a, i, gvr, namespacedOnly) && q == ListOf(gvr, namespace)
  {
    if q in Wanted(lists[a], lists[a].resources[i], namespacedOnly, namespace) {
      assert OffersList(lists, a, i, q.gvr, namespacedOnly);
    }
  }

  function Asked(replies: seq<Reply>): (r: seq<Request>)
    ensures |r| == |replies|
  {
    seq(|replies|, i requires 0 <= i < |replies| => replies[i].request)
  }

  lemma AskedConcat(a: seq<Reply>, b: seq<Reply>)
    ensures Asked(a + b) == Asked(a) + Asked(b)
  {}

  /* What a sweep brings back */

  function RefOf(gvr: GVR, k: Key): Ref {
    Ref(gvr, k.namespace, k.name)
  }

  /** The list answered by `reply` shows `x`, the `view` of one of its objects. */
  ghost predicate Shows<T>(past: seq<World>, reply: Reply, k: Key, view: (Ref, Obj) -> Option<T>, x: T) {
    && reply.request.ListOf?
    && var w := Answer(past, reply.at);
       && k in w.objects && Selects(k, reply.request.gvr, reply.request.namespace)
       && view(RefOf(reply.request.gvr, k), w.objects[k]) == Some(x)
  }

  ghost predicate ShownBy<T>(past: seq<World>, reply: Reply, view: (Ref, Obj) -> Option<T>, x: T) {
    exists k :: Shows(past, reply, k, view, x)
  }

  /** `out` holds what one list shows, each of it once and nothing else. */
  ghost predicate Shown<T(!new)>(past: seq<World>, reply: Reply, view: (Ref, Obj) -> Option<T>, out: seq<T>) {
    forall x :: multiset(out)[x] == if ShownBy(past, reply, view, x) then 1 else 0
  }

  /** How many of the lists show `x`. */
  ghost function Showings<T(!new)>(past: seq<World>, replies: seq<Reply>, view: (Ref, Obj) -> Option<T>, x: T): nat {
    if replies == [] then 0
    else
      var n := |replies| - 1;
      Showings(past, replies[..n], view, x) + if ShownBy(past, replies[n], view, x) then 1 else 0
  }

  /** `out` holds what the lists show, as often as they show it and nothing else. */
  ghost predicate Gathered<T(!new)>(past: seq<World>, replies: seq<Reply>, view: (Ref, Obj) -> Option<T>, out: seq<T>) {
    forall x :: multiset(out)[x] == Showings(past, replies, view, x)
  }

  predicate Given(past: seq<World>, replies: seq<Reply>) {
    forall i | 0 <= i < |replies| :: replies[i].at.when < |past|
  }

  lemma {:induction false} ShowingsKept<T(!new)>(past: seq<World>, later: seq<World>, replies: seq<Reply>,
                                                view: (Ref, Obj) -> Option<T>, x: T)
    requires past <= later && Given(past, replies)
    ensures Showings(later, replies, view, x) == Showings(past, replies, view, x)
  {
    if replies != [] {
      var n := |replies| - 1;
      ShowingsKept(past, later, replies[..n], view, x);
      assert Answer(later, replies[n].at) == Answer(past, replies[n].at);
      assert forall k :: Shows(later, replies[n], k, view, x) <==> Shows(past, replies[n], k, view, x);
    }
  }

  lemma {:induction false} ShowingsConcat<T(!new)>(past: seq<World>, replies: seq<Reply>, more: seq<Reply>,
                                                  view: (Ref, Obj) -> Option<T>, x: T)
    ensures Showings(past, replies + more, view, x) == Showings(past, replies, view, x) + Showings(past, more, view, x)
  {
    hide ShownBy;
    if more == [] {
      assert replies + more == replies;
    } else {
      var n := |more| - 1;
      ShowingsConcat(past, replies, more[..n], view, x);
      assert (replies + more)[..|replies| + n] == replies + more[..n];
    }
  }

  /** More lists add what they show. */
  lemma GatheredMore<T(!new)>(past: seq<World>, later: seq<World>, view: (Ref, Obj) -> Option<T>,
                              replies: seq<Reply>, out: seq<T>, more: seq<Reply>, found: seq<T>)
    requires past <= later && Given(past, replies) && Gathered(past, replies, view, out)
    requires Given(later, more) && Gathered(later, more, view, found)
    ensures Given(later, replies + more) && Gathered(later, replies + more, view, out + found)
    ensures Asked(replies + more) == Asked(replies) + Asked(more)
  {
    hide Showings;
    forall x ensures multiset(out + found)[x] == Showings(later, replies + more, view, x) {
      ShowingsKept(past, later, replies, view, x);
      ShowingsConcat(later, replies, more, view, x);
    }
  }

  lemma GatheredOne<T(!new)>(past: seq<World>, view: (Ref, Obj) -> Option<T>, reply: Reply, found: seq<T>)
    requires reply.at.when < |past| && Shown(past, reply, view, found)
    ensures Given(past, [reply]) && Gathered(past, [reply], view, found) && Asked([reply]) == [reply.request]
  {
    hide ShownBy;
    assert [reply][..0] == [];
    forall x ensures Showings(past, [reply], view, x) == if ShownBy(past, reply, view, x) then 1 else 0 {
      assert Showings(past, [], view, x) == 0;
    }
  }

  /** What was gathered comes from one of the lists. */
  lemma {:induction false} ShowingsSource<T(!new)>(past: seq<World>, replies: seq<Reply>,
                                            view: (Ref, Obj) -> Option<T>, x: T)
    ensures Showings(past, replies, view, x) > 0 <==>
      exists i | 0 <= i < |replies| :: ShownBy(past, replies[i], view, x)
  {
    hide ShownBy;
    if replies != [] {
      var n := |replies| - 1;
      ShowingsSource(past, replies[..n], view, x);
      assert forall i | 0 <= i < n :: replies[..n][i] == replies[i];
    }
  }

  function StuckView(): (Ref, Obj) -> Option<Ref> {
    (r, o) => if HeldInDeletion(o) then Some(r) else None
  }

  function CandidateView(): (Ref, Obj) -> Option<StuckObject> {
    (r, o) => Some(Candidate(r, o))
  }

  /** A sweep: discovery answered first, then exactly one list of each wanted resource
      in catalogue order, and `out` is what those lists show. A failed list shows
      nothing and stops nothing. */
  ghost predicate Swept<T(!new)>(past: seq<World>, replies: seq<Reply>, namespacedOnly: bool, namespace: string,
                                 view: (Ref, Obj) -> Option<T>, out: seq<T>)
  {
    && replies != [] && replies[0].request == Discovery && !replies[0].at.failed && Given(past, replies)
    && var lists := Answer(past, replies[0].at).catalogue;
       && Asked(replies[1..]) == Requests(lists, |lists|, namespacedOnly, namespace)
       && Gathered(past, replies[1..], view, out)
  }

  lemma BetweenNone(lo: nat)
    ensures Between([], lo, lo)
  {}

  /** What a sweep for stuck objects returns: those that a list shows as being deleted
      while a finalizer is left in metadata or spec, and no others. */
  lemma SweptStuckExact(past: seq<World>, replies: seq<Reply>, refs: seq<Ref>, r: Ref)
    requires Swept(past, replies, false, "", StuckView(), refs)
    ensures r in refs <==> exists i | 0 < i < |replies| ::
      && replies[i].request == ListOf(r.gvr, "") && !replies[i].at.failed
      && KeyOf(r) in past[replies[i].at.when].objects && HeldInDeletion(past[replies[i].at.when].objects[KeyOf(r)])
  {
    var rest := replies[1..];
    ShowingsSource(past, rest, StuckView(), r);
    assert r in refs <==> multiset(refs)[r] > 0;
    RequestsExact(Answer(past, replies[0].at).catalogue, false, "");
    forall i | 0 < i < |replies| ensures ShownBy(past, rest[i - 1], StuckView(), r) <==>
      && replies[i].request == ListOf(r.gvr, "") && !replies[i].at.failed
      && KeyOf(r) in past[replies[i].at.when].objects && HeldInDeletion(past[replies[i].at.when].objects[KeyOf(r)])
    {
      assert Asked(rest)[i - 1] == replies[i].request;
      assert Asked(rest)[i - 1] in Asked(rest);
      hide Showings, Gathered, Requests;
      ShownStuck(past, replies[i], r);
    }
    hide ShownBy, Showings, HeldInDeletion;
    assert forall i | 0 <= i < |rest| :: rest[i] == replies[i + 1];
  }

  lemma ShownStuck(past: seq<World>, reply: Reply, r: Ref)
    requires reply.request.ListOf? && reply.request.namespace == "" && reply.at.when < |past|
    ensures ShownBy(past, reply, StuckView(), r) <==>
      && reply.request == ListOf(r.gvr, "") && !reply.at.failed
      && KeyOf(r) in past[reply.at.when].objects && HeldInDeletion(past[reply.at.when].objects[KeyOf(r)])
  {
    hide HeldInDeletion;
    if ShownBy(past, reply, StuckView(), r) {
      var k :| Shows(past, reply, k, StuckView(), r);
      assert KeyOf(r) == k;
    }
    if reply.request == ListOf(r.gvr, "") && !reply.at.failed && KeyOf(r) in past[reply.at.when].objects
      && HeldInDeletion(past[reply.at.when].objects[KeyOf(r)])
    {
      assert Shows(past, reply, KeyOf(r), StuckView(), r);
    }
  }

  lemma SweptWhole<T(!new)>(past: seq<World>, first: Reply, rest: seq<Reply>, namespacedOnly: bool, namespace: string,
                            view: (Ref, Obj) -> Option<T>, out: seq<T>)
    requires first.request == Discovery && !first.at.failed && first.at.when < |past| && Given(past, rest)
    requires
      var lists := Answer(past, first.at).catalogue;
      Asked(rest) == Requests(lists, |lists|, namespacedOnly, namespace)
    requires Gathered(past, rest, view, out)
    ensures Swept(past, [first] + rest, namespacedOnly, namespace, view, out)
  {
    assert ([first] + rest)[1..] == rest;
  }

  /** Discovery's preferred resources: whatever resolved, or a total failure. */
  function Preferred(past: seq<World>, at: Instant): Result<seq<ResourceList>> {
    if at.failed then Err else Ok(Answer(past, at).catalogue)
  }

  method PreferredResources(c: Client) returns (r: Result<seq<ResourceList>>, ghost at: Instant)
    requires c.Valid()
    modifies c
    ensures c.Valid() && c.log == old(c.log) && old(c.past) <= c.past
    ensures at == Instant(|old(c.past)|, r.Err?) && |c.past| > |old(c.past)|
    ensures c.replies == old(c.replies) + [Reply(Discovery, at)]
    ensures r == Preferred(c.past, at)
  {
    var w, failed, i := c.Ask(Discovery);
    at := i;
    r := if failed then Err else Ok(w.catalogue);
  }

  /** `out` holds the views of the first `n` items, each once. */
  ghost predicate Viewed<T(!new)>(gvr: GVR, items: seq<Item>, n: nat, view: (Ref, Obj) -> Option<T>, out: seq<T>) {
    forall x :: multiset(out)[x] == if ViewedBefore(gvr, items, n, view, x) then 1 else 0
  }

  ghost predicate ViewedBefore<T>(gvr: GVR, items: seq<Item>, n: nat, view: (Ref, Obj) -> Option<T>, x: T) {
    exists j | 0 <= j < n && j < |items| :: view(RefOf(gvr, ListedKey(gvr, items[j])), items[j].obj) == Some(x)
  }

  lemma SeenStep(gvr: GVR, items: seq<Item>, n: nat)
    requires n < |items|
    ensures forall r :: SeenBefore(gvr, items, n + 1, r) <==>
      SeenBefore(gvr, items, n, r) || r == RefOf(gvr, ListedKey(gvr, items[n]))
  {
    assert SeenBefore(gvr, items, n + 1, RefOf(gvr, ListedKey(gvr, items[n])));
  }

  /** The items are what the list shows. */
  lemma ViewedShown<T(!new)>(past: seq<World>, reply: Reply, items: seq<Item>, view: (Ref, Obj) -> Option<T>,
                      out: seq<T>)
    requires reply.request.ListOf?
    requires forall l | l in items ::
      var k := ListedKey(reply.request.gvr, l);
      k in Answer(past, reply.at).objects && Answer(past, reply.at).objects[k] == l.obj
        && Selects(k, reply.request.gvr, reply.request.namespace)
    requires forall k | k in Answer(past, reply.at).objects && Selects(k, reply.request.gvr, reply.request.namespace) ::
      Includes(items, reply.request.gvr, k)
    requires Viewed(reply.request.gvr, items, |items|, view, out)
    ensures Shown(past, reply, view, out)
  {
    var gvr := reply.request.gvr;
    forall x ensures ViewedBefore(gvr, items, |items|, view, x) <==> ShownBy(past, reply, view, x) {
      if ViewedBefore(gvr, items, |items|, view, x) {
        var j :| 0 <= j < |items| && view(RefOf(gvr, ListedKey(gvr, items[j])), items[j].obj) == Some(x);
        assert items[j] in items;
        assert Shows(past, reply, ListedKey(gvr, items[j]), view, x);
      }
      if ShownBy(past, reply, view, x) {
        var k :| Shows(past, reply, k, view, x);
        assert Includes(items, gvr, k);
        var j :| 0 <= j < |items| && ListedKey(gvr, items[j]) == k;
        assert items[j] in items;
        assert view(RefOf(gvr, ListedKey(gvr, items[j])), items[j].obj) == Some(x);
      }
    }
  }

  predicate SeenBefore(gvr: GVR, items: seq<Item>, n: nat, ref: Ref) {
    exists j | 0 <= j < n && j < |items| :: RefOf(gvr, ListedKey(gvr, items[j])) == ref
  }

  /** The stuck objects of one list. */
  method ScanResource(c: Client, gvr: GVR) returns (refs: seq<Ref>, ghost reply: Reply)
    requires c.Valid()
    modifies c
    ensures c.Valid() && c.log == old(c.log) && old(c.past) <= c.past
    ensures reply.request == ListOf(gvr, "") && reply.at.when == |old(c.past)| < |c.past|
    ensures c.replies == old(c.replies) + [reply]
    ensures Shown(c.past, reply, StuckView(), refs)
  {
    hide History, Selects;
    var items, at := c.List(gvr, "");
    reply := Reply(ListOf(gvr, ""), at);
    ghost var past, replies := c.past, c.replies;
    refs := [];
    for n := 0 to |items|
      invariant c.Valid() && c.log == old(c.log) && c.past == past && c.replies == replies
      invariant Viewed(gvr, items, n, StuckView(), refs)
      invariant forall x | x in refs :: SeenBefore(gvr, items, n, x)
    {
      var l := items[n];
      if IsStuck(l.obj) {
        var ref := Ref(gvr, l.namespace, l.name);
        assert !SeenBefore(gvr, items, n, ref);
        refs := refs + [ref];
      }
      SeenStep(gvr, items, n);
    }
    ViewedShown(past, reply, items, StuckView(), refs);
  }

  /** One more list answered. */
  lemma OneMoreList<T(!new)>(past: seq<World>, later: seq<World>, lo: nat, view: (Ref, Obj) -> Option<T>,
                             asked: seq<Reply>, out: seq<T>, reply: Reply, found: seq<T>)
    requires past <= later && Given(past, asked) && Gathered(past, asked, view, out) && Between(asked, lo, |past|)
    requires reply.at.when == |past| < |later| && Shown(later, reply, view, found)
    ensures Given(later, asked + [reply]) && Gathered(later, asked + [reply], view, out + found)
    ensures Between(asked + [reply], lo, |later|) && Asked(asked + [reply]) == Asked(asked) + [reply.request]
  {
    hide Gathered, Shown;
    BetweenOne(reply, |past|, |later|);
    BetweenConcat(asked, [reply], lo, |past|, |later|);
    GatheredOne(later, view, reply, found);
    GatheredMore(past, later, view, asked, out, [reply], found);
  }

  lemma NoRequests(list: ResourceList, namespacedOnly: bool, namespace: string)
    ensures RequestsIn(list, 0, namespacedOnly, namespace) == []
  {}

  lemma OneMoreRequest(list: ResourceList, m: nat, namespacedOnly: bool, namespace: string)
    requires m < |list.resources| && list.groupVersion.Some?
    ensures
      var (group, version), r := list.groupVersion.value, list.resources[m];
      RequestsIn(list, m + 1, namespacedOnly, namespace) == RequestsIn(list, m, namespacedOnly, namespace)
        + if CanList(r) && (namespacedOnly ==> r.namespaced) then [ListOf(GVR(group, version, r.name), namespace)]
        else []
  {}

  /** The wanted resources of one group version. */
  method ScanGroup(c: Client, list: ResourceList) returns (refs: seq<Ref>, ghost asked: seq<Reply>)
    requires c.Valid() && list.groupVersion.Some?
    modifies c
    ensures c.Valid() && c.log == old(c.log) && old(c.past) <= c.past
    ensures c.replies == old(c.replies) + asked && Given(c.past, asked) && Between(asked, |old(c.past)|, |c.past|)
    ensures Asked(asked) == RequestsIn(list, |list.resources|, false, "")
    ensures Gathered(c.past, asked, StuckView(), refs)
  {
    hide Gathered, Shown, Given, Between, RequestsIn, Asked, Wanted, History;
    BetweenNone(|c.past|);
    refs, asked := [], [];
    NothingGathered(c.past, StuckView());
    NoRequests(list, false, "");
    for m := 0 to |list.resources|
      invariant c.Valid() && c.log == old(c.log) && old(c.past) <= c.past
      invariant c.replies == old(c.replies) + asked && Given(c.past, asked) && Between(asked, |old(c.past)|, |c.past|)
      invariant Asked(asked) == RequestsIn(list, m, false, "")
      invariant Gathered(c.past, asked, StuckView(), refs)
    {
      OneMoreRequest(list, m, false, "");
      if !CanList(list.resources[m]) {
        continue;
      }
      ghost var before := c.past;
      var gvr := GVR(list.groupVersion.value.0, list.groupVersion.value.1, list.resources[m].name);
      var found, reply := ScanResource(c, gvr);
      OneMoreList(before, c.past, |old(c.past)|, StuckView(), asked, refs, reply, found);
      refs, asked := refs + found, asked + [reply];
    }
  }

  /** Every stuck object of every listable resource, as the lists show them. */
  method Scan(c: Client) returns (r: Result<seq<Ref>>, ghost asked: seq<Reply>)
    requires c.Valid()
    modifies c
    ensures c.Valid() && c.log == old(c.log) && old(c.past) <= c.past
    ensures c.replies == old(c.replies) + asked && Between(asked, |old(c.past)|, |c.past|)
    ensures r.Ok? ==> Swept(c.past, asked, false, "", StuckView(), r.value)
    ensures r.Err? ==> asked == [Reply(Discovery, Instant(|old(c.past)|, true))]
  {
    hide Gathered, Swept, RequestsIn, Given, Between, History;
    var lists, at := PreferredResources(c);
    ghost var first, rest := Reply(Discovery, at), [];
    asked := [first] + rest;
    BetweenOne(first, |old(c.past)|, |c.past|);
    assert asked == [first];
    if lists.Err? {
      return Err, asked;
    }
    ghost var start, head := c.past, c.replies;
    var refs: seq<Ref> := [];
    BetweenNone(|c.past|);
    NothingGathered(c.past, StuckView());
    for n := 0 to |lists.value|
      invariant c.Valid() && c.log == old(c.log) && start <= c.past
      invariant c.replies == head + rest && Given(c.past, rest) && Between(rest, |start|, |c.past|)
      invariant Asked(rest) == Requests(lists.value, n, false, "")
      invariant Gathered(c.past, rest, StuckView(), refs)
    {
      var list := lists.value[n];
      if list.groupVersion == None {
        NothingWanted(list, |list.resources|, false, "");
        continue;
      }
      ghost var before := c.past;
      var found, more := ScanGroup(c, list);
      BetweenConcat(rest, more, |start|, |before|, |c.past|);
      GatheredMore(before, c.past, StuckView(), rest, refs, more, found);
      refs, rest := refs + found, rest + more;
    }
    BetweenOne(first, |old(c.past)|, |start|);
    BetweenConcat([first], rest, |old(c.past)|, |start|, |c.past|);
    SweptWhole(c.past, first, rest, false, "", StuckView(), refs);
    asked := [first] + rest;
    return Ok(refs), asked;
  }

  lemma NothingGathered<T(!new)>(past: seq<World>, view: (Ref, Obj) -> Option<T>)
    ensures Gathered(past, [], view, []) && Given(past, []) && Asked([]) == []
  {}

  method ListCandidates(c: Client, gvr: GVR, namespace: string) returns (out: seq<StuckObject>, ghost reply: Reply)
    requires c.Valid()
    modifies c
    ensures c.Valid() && c.log == old(c.log) && old(c.past) <= c.past
    ensures reply.request == ListOf(gvr, namespace) && reply.at.when == |old(c.past)| < |c.past|
    ensures c.replies == old(c.replies) + [reply]
    ensures Shown(c.past, reply, CandidateView(), out)
  {
    hide History, Selects;
    var items, at := c.List(gvr, namespace);
    reply := Reply(ListOf(gvr, namespace), at);
    ghost var past, replies := c.past, c.replies;
    out := [];
    for n := 0 to |items|
      invariant c.Valid() && c.log == old(c.log) && c.past == past && c.replies == replies
      invariant Viewed(gvr, items, n, CandidateView(), out)
      invariant forall x | x in out :: SeenBefore(gvr, items, n, x.ref)
    {
      var l := items[n];
      var found := Candidate(Ref(gvr, l.namespace, l.name), l.obj);
      assert !SeenBefore(gvr, items, n, found.ref);
      out := out + [found];
      SeenStep(gvr, items, n);
    }
    ViewedShown(past, reply, items, CandidateView(), out);
  }

  /** The wanted resources of one group version. */
  method CandidatesOf(c: Client, list: ResourceList, namespace: string)
    returns (out: seq<StuckObject>, ghost asked: seq<Reply>)
    requires c.Valid() && list.groupVersion.Some?
    modifies c
    ensures c.Valid() && c.log == old(c.log) && old(c.past) <= c.past
    ensures c.replies == old(c.replies) + asked && Given(c.past, asked) && Between(asked, |old(c.past)|, |c.past|)
    ensures Asked(asked) == RequestsIn(list, |list.resources|, true, namespace)
    ensures Gathered(c.past, asked, CandidateView(), out)
  {
    hide Gathered, Shown, Given, Between, RequestsIn, Asked, Wanted, History;
    BetweenNone(|c.past|);
    out, asked := [], [];
    NothingGathered(c.past, CandidateView());
    NoRequests(list, true, namespace);
    for m := 0 to |list.resources|
      invariant c.Valid() && c.log == old(c.log) && old(c.past) <= c.past
      invariant c.replies == old(c.replies) + asked && Given(c.past, asked) && Between(asked, |old(c.past)|, |c.past|)
      invariant Asked(asked) == RequestsIn(list, m, true, namespace)
      invariant Gathered(c.past, asked, CandidateView(), out)
    {
      OneMoreRequest(list, m, true, namespace);
      if !list.resources[m].namespaced || !CanList(list.resources[m]) {
        continue;
      }
      ghost var before := c.past;
      var gvr := GVR(list.groupVersion.value.0, list.groupVersion.value.1, list.resources[m].name);
      var found, reply := ListCandidates(c, gvr, namespace);
      OneMoreList(before, c.past, |old(c.past)|, CandidateView(), asked, out, reply, found);
      out, asked := out + found, asked + [reply];
    }
  }

  /** Every object of every namespaced, listable resource, as the lists show them. */
  method NamespaceObjects(c: Client, namespace: string) returns (r: Result<seq<StuckObject>>, ghost asked: seq<Reply>)
    requires c.Valid()
    modifies c
    ensures c.Valid() && c.log == old(c.log) && old(c.past) <= c.past
    ensures c.replies == old(c.replies) + asked && Between(asked, |old(c.past)|, |c.past|)
    ensures r.Ok? ==> Swept(c.past, asked, true, namespace, CandidateView(), r.value)
    ensures r.Err? ==> asked == [Reply(Discovery, Instant(|old(c.past)|, true))]
  {
    hide Gathered, Swept, RequestsIn, Given, Between, History;
    var lists, at := PreferredResources(c);
    ghost var first, rest := Reply(Discovery, at), [];
    asked := [first] + rest;
    BetweenOne(first, |old(c.past)|, |c.past|);
    assert asked == [first];
    if lists.Err? {
      return Err, asked;
    }
    ghost var start, head := c.past, c.replies;
    var out: seq<StuckObject> := [];
    BetweenNone(|c.past|);
    NothingGathered(c.past, CandidateView());
    for n := 0 to |lists.value|
      invariant c.Valid() && c.log == old(c.log) && start <= c.past
      invariant c.replies == head + rest && Given(c.past, rest) && Between(rest, |start|, |c.past|)
      invariant Asked(rest) == Requests(lists.value, n, true, namespace)
      invariant Gathered(c.past, rest, CandidateView(), out)
    {
      var list := lists.value[n];
      if list.groupVersion == None {
        NothingWanted(list, |list.resources|, true, namespace);
        continue;
      }
      ghost var before := c.past;
      var found, more := CandidatesOf(c, list, namespace);
      BetweenConcat(rest, more, |start|, |before|, |c.past|);
      GatheredMore(before, c.past, CandidateView(), rest, out, more, found);
      out, rest := out + found, rest + more;
    }
    BetweenOne(first, |old(c.past)|, |start|);
    BetweenConcat([first], rest, |old(c.past)|, |start|, |c.past|);
    SweptWhole(c.past, first, rest, true, namespace, CandidateView(), out);
    asked := [first] + rest;
    return Ok(out), asked;
  }

  /** At some instant from `lo` on and before `hi` the object was there with a reference
      that named the target. It is not the target, and lives where its orphans do. */
  ghost predicate WasOrphan(past: seq<World>, lo: nat, hi: nat, target: StuckObject, ref: Ref) {
    && ref != target.ref && ref.namespace != "" && OrphanNamespace(target.ref, ref.namespace)
    && exists i | lo <= i < hi && i < |past| :: KeyOf(ref) in past[i].objects
         && NamesOwner(past[i].objects[KeyOf(ref)].ownerRefs, target.apiVersion, target.kind, target.ref.name)
  }

  /** Where to look for the orphans of a target. */
  function ScanNamespace(obj: StuckObject): string {
    if obj.ref.IsNamespace() then obj.ref.name else obj.ref.namespace
  }

  /** Best effort: a target outside any namespace and a failed discovery have no
      candidates; otherwise the candidates are what the sweep of its namespace shows. */
  ghost predicate Searched(past: seq<World>, asked: seq<Reply>, obj: StuckObject, candidates: seq<StuckObject>) {
    if ScanNamespace(obj) == "" then asked == [] && candidates == []
    else
      || Swept(past, asked, true, ScanNamespace(obj), CandidateView(), candidates)
      || (candidates == [] && |asked| == 1 && asked[0].request == Discovery && asked[0].at.failed)
  }

  lemma SearchedKept(past: seq<World>, later: seq<World>, asked: seq<Reply>, obj: StuckObject,
                     candidates: seq<StuckObject>)
    requires past <= later && Searched(past, asked, obj, candidates)
    ensures Searched(later, asked, obj, candidates)
  {
    var namespace := ScanNamespace(obj);
    hide Swept;
    if namespace != "" && Swept(past, asked, true, namespace, CandidateView(), candidates) {
      SweptKept(past, later, asked, true, namespace, CandidateView(), candidates);
    }
  }

  lemma SweptKept<T(!new)>(past: seq<World>, later: seq<World>, asked: seq<Reply>, namespacedOnly: bool,
                    namespace: string,
                           view: (Ref, Obj) -> Option<T>, out: seq<T>)
    requires past <= later && Swept(past, asked, namespacedOnly, namespace, view, out)
    ensures Swept(later, asked, namespacedOnly, namespace, view, out)
  {
    hide Gathered, Requests;
    assert Answer(later, asked[0].at) == Answer(past, asked[0].at);
    GatheredKept(past, later, asked[1..], view, out);
  }

  lemma GatheredKept<T(!new)>(past: seq<World>, later: seq<World>, replies: seq<Reply>, view: (Ref, Obj) -> Option<T>,
                       out: seq<T>)
    requires past <= later && Given(past, replies) && Gathered(past, replies, view, out)
    ensures Gathered(later, replies, view, out)
  {
    hide Showings;
    forall x ensures multiset(out)[x] == Showings(later, replies, view, x) {
      ShowingsKept(past, later, replies, view, x);
    }
  }

  /** Whatever was searched, an orphan was owned by the target during the search. */
  lemma SearchedOrphans(past: seq<World>, asked: seq<Reply>, lo: nat, hi: nat, obj: StuckObject,
                        candidates: seq<StuckObject>)
    requires Searched(past, asked, obj, candidates) && Between(asked, lo, hi)
    ensures forall r | r in OrphansOf(obj, candidates) :: WasOrphan(past, lo, hi, obj, r)
  {
    hide Swept, IsOrphan, WasOrphan, Between;
    forall r | r in OrphansOf(obj, candidates) ensures WasOrphan(past, lo, hi, obj, r) {
      SweptOrphan(past, asked, lo, hi, obj, candidates, r);
    }
  }

  lemma SweptOrphan(past: seq<World>, asked: seq<Reply>, lo: nat, hi: nat, obj: StuckObject,
                    candidates: seq<StuckObject>, r: Ref)
    requires Swept(past, asked, true, ScanNamespace(obj), CandidateView(), candidates) && Between(asked, lo, hi)
    requires ScanNamespace(obj) != "" && r in OrphansOf(obj, candidates)
    ensures WasOrphan(past, lo, hi, obj, r)
  {
    OrphansExact(obj, candidates);
    hide NamesOwner;
    var x :| x in candidates && x.ref == r && r != obj.ref
      && NamesOwner(x.ownerRefs, obj.apiVersion, obj.kind, obj.ref.name);
    ShowingsSource(past, asked[1..], CandidateView(), x);
    var lists := Answer(past, asked[0].at).catalogue;
    RequestsExact(lists, true, ScanNamespace(obj));
    hide Showings, Between, Requests, OrphansOf;
    assert x in multiset(candidates);
    var i :| 0 <= i < |asked[1..]| && ShownBy(past, asked[1..][i], CandidateView(), x);
    assert Asked(asked[1..])[i] == asked[i + 1].request && Asked(asked[1..])[i] in Asked(asked[1..]);
    ShownCandidate(past, asked[i + 1], x);
    assert lo <= asked[i + 1].at.when < hi by { BetweenAt(asked, lo, hi, i + 1); }
  }

  lemma BetweenAt(asked: seq<Reply>, lo: nat, hi: nat, i: nat)
    requires Between(asked, lo, hi) && i < |asked|
    ensures lo <= asked[i].at.when < hi
  {}

  /** A listed candidate has the references of the object, and its namespace. */
  lemma ShownCandidate(past: seq<World>, reply: Reply, x: StuckObject)
    requires ShownBy(past, reply, CandidateView(), x)
    ensures reply.at.when < |past| && KeyOf(x.ref) in past[reply.at.when].objects
    ensures x.ownerRefs == past[reply.at.when].objects[KeyOf(x.ref)].ownerRefs
    ensures reply.request.ListOf? && (reply.request.namespace != "" ==> x.ref.namespace == reply.request.namespace)
  {
    var k :| Shows(past, reply, k, CandidateView(), x);
    assert KeyOf(x.ref) == k && k in Answer(past, reply.at).objects;
  }

  method DetectOrphans(c: Client, obj: StuckObject)
    returns (orphans: seq<Ref>, ghost candidates: seq<StuckObject>, ghost asked: seq<Reply>)
    requires c.Valid()
    modifies c
    ensures c.Valid() && c.log == old(c.log) && old(c.past) <= c.past
    ensures c.replies == old(c.replies) + asked && Between(asked, |old(c.past)|, |c.past|)
    ensures Searched(c.past, asked, obj, candidates)
    ensures orphans == OrphansOf(obj, candidates)
  {
    hide Swept, Between, History;
    orphans, candidates, asked := [], [], [];
    BetweenNone(|c.past|);
    var namespace := ScanNamespace(obj);
    if namespace == "" {
      return;
    }
    var found;
    found, asked := NamespaceObjects(c, namespace);
    if found.Err? {
      return;
    }
    candidates := found.value;
    orphans := Detect(obj, found.value);
  }
}
