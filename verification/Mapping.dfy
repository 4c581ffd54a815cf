/** From a finalizer string to the owner that should remove it. */
module Mapping {
  import opened Text
  import opened Model
  import opened Terms

  const BUILTINS: set<string> := {
    "kubernetes", "kubernetes.io/pv-protection", "kubernetes.io/pvc-protection",
    "foregroundDeletion", "orphan", "service.kubernetes.io/load-balancer-cleanup"
  }

  function DomainOf(finalizer: string): string {
    var slash := IndexOf(finalizer, '/');
    if slash >= 0 then finalizer[..slash] else finalizer
  }

  predicate GroupMatches(g: string, left: string) {
    g != "" && (g == left || HasSuffix(left, "." + g))
  }

  function RankFor(group: string, domain: string): int {
    if group == domain then 80 else 50
  }

  function FirstMatch(groups: seq<string>, left: string): (r: Option<string>)
    ensures r.Some? ==> r.value in groups && GroupMatches(r.value, left)
    ensures r.None? <==> forall g | g in groups :: !GroupMatches(g, left)
  {
    if groups == [] then None
    else if GroupMatches(groups[0], left) then Some(groups[0])
    else FirstMatch(groups[1..], left)
  }

  function Groups(services: seq<ApiService>): (r: seq<string>)
    ensures |r| == |services| && forall i | 0 <= i < |r| :: r[i] == services[i].group
  {
    if services == [] then [] else [services[0].group] + Groups(services[1..])
  }

  function Map(finalizer: string, snap: Snapshot): (owner: OwnerCandidate)
    ensures owner.finalizer == finalizer
  {
    if finalizer in BUILTINS then OwnerCandidate(finalizer, BuiltinOwner, "", 100)
    else
      var left := DomainOf(finalizer);
      if left == "" then OwnerCandidate(finalizer, UnknownOwner, "", 0)
      else match FirstMatch(snap.crds, left)
        case Some(g) => OwnerCandidate(finalizer, CrdOwner, g, RankFor(g, left))
        case None =>
          match FirstMatch(Groups(snap.apiServices), left)
          case Some(g) => OwnerCandidate(finalizer, ApiServiceOwner, g, RankFor(g, left))
          case None => OwnerCandidate(finalizer, UnknownOwner, "", 0)
  }

  /** Two groups that match one domain are equal, or one is a dot-suffix of the other. */
  lemma MatchesFormChain(g: string, h: string, left: string)
    requires GroupMatches(g, left) && GroupMatches(h, left)
    ensures g == h || HasSuffix(g, "." + h) || HasSuffix(h, "." + g)
  {
    if |h| <= |g| {
      SuffixesCompare(left, g, h);
    } else {
      SuffixesCompare(left, h, g);
    }
  }

  lemma SuffixesCompare(left: string, g: string, h: string)
    requires GroupMatches(g, left) && GroupMatches(h, left) && |h| <= |g|
    ensures g == h || HasSuffix(g, "." + h)
  {
    assert forall k | 0 <= k < |g| :: left[|left| - |g| + k] == g[k];
    assert forall k | 0 <= k < |h| :: left[|left| - |h| + k] == h[k];
    if |h| == |g| {
      assert g == h;
    } else {
      var d := "." + h;
      assert left[|left| - |d|..] == d;
      assert forall k | 0 <= k < |d| :: left[|left| - |d| + k] == d[k];
      assert g[|g| - |d|..] == d;
    }
  }

  lemma DomainExact(finalizer: string)
    ensures forall d :: IsDomain(d, finalizer) <==> d == DomainOf(finalizer)
  {
    var slash, dom := IndexOf(finalizer, '/'), DomainOf(finalizer);
    assert IsDomain(dom, finalizer);
    forall d | IsDomain(d, finalizer) ensures d == dom {
      if slash >= 0 {
        assert finalizer == dom + ['/'] + finalizer[slash + 1..];
        assert finalizer == d + ['/'] + finalizer[|d| + 1..];
        CutUnique(d, finalizer[|d| + 1..], dom, finalizer[slash + 1..], '/');
      }
    }
  }

  lemma SuffixExact(d: string, group: string)
    ensures HasSuffix(d, "." + group) <==> exists p :: d == p + "." + group
  {
    var t := "." + group;
    if p :| d == p + "." + group {
      assert d == p + t;
      assert d[|d| - |t|..] == t;
    }
    if HasSuffix(d, t) {
      var p := d[..|d| - |t|];
      assert d == p + t == p + "." + group;
    }
  }

  /** The matching of groups means that the finalizer belongs to the group. */
  lemma ConcernsExact(finalizer: string, group: string)
    ensures Concerns(finalizer, group) <==> GroupMatches(group, DomainOf(finalizer))
  {
    DomainExact(finalizer);
    SuffixExact(DomainOf(finalizer), group);
    assert IsDomain(DomainOf(finalizer), finalizer);
    hide DomainOf, IsDomain, HasSuffix;
  }

  /** At most one distinct group of the list matches. */
  ghost predicate Unambiguous(groups: seq<string>, finalizer: string) {
    forall g, h | g in groups && h in groups && Concerns(finalizer, g) && Concerns(finalizer, h) :: g == h
  }

  predicate SameElements<T(==)>(a: seq<T>, b: seq<T>) {
    (forall x | x in a :: x in b) && (forall x | x in b :: x in a)
  }

  lemma FirstMatchOrderFree(a: seq<string>, b: seq<string>, finalizer: string)
    requires SameElements(a, b) && Unambiguous(a, finalizer)
    ensures FirstMatch(a, DomainOf(finalizer)) == FirstMatch(b, DomainOf(finalizer))
  {
    forall g ensures Concerns(finalizer, g) <==> GroupMatches(g, DomainOf(finalizer)) {
      ConcernsExact(finalizer, g);
    }
    hide Concerns, GroupMatches;
  }

  /** With one matching group per source, the owner does not depend on the order
      (or multiplicity) in which the server lists CRDs and APIServices. */
  lemma MapOrderFree(finalizer: string, s: Snapshot, t: Snapshot)
    requires SameElements(s.crds, t.crds)
    requires SameElements(Groups(s.apiServices), Groups(t.apiServices))
    requires Unambiguous(s.crds, finalizer) && Unambiguous(Groups(s.apiServices), finalizer)
    ensures Map(finalizer, s) == Map(finalizer, t)
  {
    FirstMatchOrderFree(s.crds, t.crds, finalizer);
    FirstMatchOrderFree(Groups(s.apiServices), Groups(t.apiServices), finalizer);
  }

  /** The guard of `MapOrderFree` is needed: with two matching groups the first
      listed one wins, even over a closer match. */
  lemma FirstListedBeatsClosest(snap: Snapshot)
    requires snap.crds == ["b.c", "x.b.c"]
    ensures
      var m := Map("x.b.c/y", snap);
      m.group == "b.c" && m.rank == 50 && GroupMatches("x.b.c", DomainOf("x.b.c/y"))
        && RankFor("x.b.c", DomainOf("x.b.c/y")) == 80
  {
    var fin := "x.b.c/y";
    DomainOfExample();
    hide DomainOf;
    assert "x.b.c"[1..] == ".b.c" && "." + "b.c" == ".b.c";
    assert GroupMatches("b.c", "x.b.c");
    assert |fin| == 7 && forall b | b in BUILTINS :: |b| != 7;
  }

  lemma DomainOfExample()
    ensures DomainOf("x.b.c/y") == "x.b.c"
  {
    var fin := "x.b.c/y";
    assert fin[5] == '/' && '/' !in fin[..5];
    assert fin[..5] == "x.b.c";
  }

  /** A CRD match wins over every APIService match; owner kinds in full. */
  lemma OwnerKindExact(finalizer: string, snap: Snapshot)
    ensures
      var ordinary := finalizer !in CORE_FINALIZERS;
      var crd := exists g | g in snap.crds :: Concerns(finalizer, g);
      var api := exists a | a in snap.apiServices :: Concerns(finalizer, a.group);
      && (Map(finalizer, snap).kind == BuiltinOwner <==> !ordinary)
      && (Map(finalizer, snap).kind == CrdOwner <==> ordinary && crd)
      && (Map(finalizer, snap).kind == ApiServiceOwner <==> ordinary && !crd && api)
  {
    var left := DomainOf(finalizer);
    var gs := Groups(snap.apiServices);
    forall g ensures Concerns(finalizer, g) <==> GroupMatches(g, left) {
      ConcernsExact(finalizer, g);
    }
    assert left == "" ==> forall g :: !GroupMatches(g, left);
    hide Concerns, GroupMatches, DomainOf;
    assert forall g | g in gs :: exists i | 0 <= i < |gs| :: g == gs[i] == snap.apiServices[i].group;
    forall a | a in snap.apiServices ensures a.group in gs {
      var i :| 0 <= i < |gs| && snap.apiServices[i] == a;
      assert gs[i] == a.group;
    }
  }
}
