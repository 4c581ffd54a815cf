/** The confirmation token, bound to the proof it was printed for. */
module Digest {
  import opened Text
  import opened Lists
  import opened Model

  function StateText(s: State): string {
    match s case Dead => "DEAD" case Slow => "SLOW" case Unknown => "UNKNOWN"
  }

  /** What the token binds of one verdict. */
  datatype Bound = Bound(finalizer: string, state: State) {
    function Pair(): string {
      finalizer + ":" + StateText(state)
    }
  }

  function Bounds(vs: seq<Verdict>): seq<Bound> {
    if vs == [] then [] else Bounds(vs[..|vs| - 1]) + [Bound(vs[|vs| - 1].finalizer, vs[|vs| - 1].state)]
  }

  function Pairs(bs: seq<Bound>): (r: seq<string>)
    ensures |r| == |bs|
  {
    if bs == [] then [] else Pairs(bs[..|bs| - 1]) + [bs[|bs| - 1].Pair()]
  }

  function Canonical(ref: Ref, vs: seq<Verdict>, version: string): string {
    Join([ref.String(), Join(Sort(Pairs(Bounds(vs))), ","), version], "|")
  }

  /** The pairs are collected in a loop, then sorted and joined. */
  method CanonicalText(ref: Ref, vs: seq<Verdict>, version: string) returns (canonical: string)
    ensures canonical == Canonical(ref, vs, version)
  {
    var pairs: seq<string> := [];
    for i := 0 to |vs|
      invariant pairs == Pairs(Bounds(vs[..i]))
    {
      TakeStep(vs, i);
      ghost var bs := Bounds(vs[..i]);
      ghost var b := Bound(vs[i].finalizer, vs[i].state);
      assert (bs + [b])[..|bs|] == bs;
      pairs := pairs + [vs[i].finalizer + ":" + StateText(vs[i].state)];
    }
    assert vs[..|vs|] == vs;
    pairs := Sort(pairs);
    canonical := Join([ref.String(), Join(pairs, ","), version], "|");
  }

  lemma PairInjective(a: Bound, b: Bound)
    requires a.Pair() == b.Pair()
    ensures a == b
  {
    var s, t := a.Pair(), b.Pair();
    assert s[|s| - 1] == (match a.state case Dead => 'D' case Slow => 'W' case Unknown => 'N');
    assert t[|t| - 1] == (match b.state case Dead => 'D' case Slow => 'W' case Unknown => 'N');
    assert a.state == b.state;
    var n := |":" + StateText(a.state)|;
    assert a.finalizer == s[..|s| - n] && b.finalizer == t[..|t| - n];
  }

  lemma {:induction false} PairCount(bs: seq<Bound>, b: Bound)
    ensures multiset(Pairs(bs))[b.Pair()] == multiset(bs)[b]
  {
    if bs != [] {
      var n := |bs| - 1;
      PairCount(bs[..n], b);
      assert bs == bs[..n] + [bs[n]];
      hide StateText;
      if bs[n].Pair() == b.Pair() {
        PairInjective(bs[n], b);
      }
    }
  }

  lemma {:induction false} PairSource(bs: seq<Bound>, s: string)
    requires s in Pairs(bs)
    ensures exists b | b in bs :: b.Pair() == s
  {
    var n := |bs| - 1;
    assert bs == bs[..n] + [bs[n]];
    if bs[n].Pair() != s {
      PairSource(bs[..n], s);
    }
  }

  /** Equal multisets of pairs, exactly for equal multisets of bound facts. */
  lemma PairsExact(a: seq<Bound>, b: seq<Bound>)
    ensures multiset(Pairs(a)) == multiset(Pairs(b)) <==> multiset(a) == multiset(b)
  {
    if multiset(Pairs(a)) == multiset(Pairs(b)) {
      forall x ensures multiset(a)[x] == multiset(b)[x] {
        PairCount(a, x);
        PairCount(b, x);
      }
    }
    if multiset(a) == multiset(b) {
      SameMembers(a, b);
      forall s ensures multiset(Pairs(a))[s] == multiset(Pairs(b))[s] {
        if s in Pairs(a) {
          PairSource(a, s);
        } else if s in Pairs(b) {
          PairSource(b, s);
        }
        if x :| (x in a || x in b) && x.Pair() == s {
          PairCount(a, x);
          PairCount(b, x);
        }
      }
    }
  }

  /** No part contains a character the rendering uses to delimit it. */
  predicate PlainRef(ref: Ref) {
    && '/' !in ref.namespace && '|' !in ref.namespace
    && '/' !in ref.gvr.resource && '|' !in ref.gvr.resource && '.' !in ref.gvr.resource
    && '/' !in ref.gvr.group && '|' !in ref.gvr.group
    && '/' !in ref.name && '|' !in ref.name
  }

  predicate PlainFinalizers(vs: seq<Verdict>) {
    forall i | 0 <= i < |vs| :: ',' !in vs[i].finalizer && '|' !in vs[i].finalizer
  }

  lemma DescInjective(g: GVR, h: GVR)
    requires '.' !in g.resource && '.' !in h.resource
    requires ResourceDesc(g) == ResourceDesc(h)
    ensures g.group == h.group && g.resource == h.resource
  {
    if g.group != "" && h.group != "" {
      CutUnique(g.resource, g.group, h.resource, h.group, '.');
    } else {
      assert g.group != "" ==> '.' in ResourceDesc(g);
      assert h.group != "" ==> '.' in ResourceDesc(h);
    }
  }

  lemma RefText(ref: Ref)
    requires PlainRef(ref)
    ensures '|' !in ref.String() && '/' !in ResourceDesc(ref.gvr)
    ensures ref.String() == (if ref.namespace != "" then ref.namespace + "/" else "") + ResourceDesc(ref.gvr) + "/"
      + ref.name
  {
    JoinThree(ref.namespace, ResourceDesc(ref.gvr), ref.name, "/");
  }

  /** The rendering of a reference determines all of it but the version. */
  lemma RefInjective(a: Ref, b: Ref)
    requires PlainRef(a) && PlainRef(b) && a.String() == b.String()
    ensures a.gvr.group == b.gvr.group && a.gvr.resource == b.gvr.resource && a.namespace == b.namespace
      && a.name == b.name
  {
    RefText(a);
    RefText(b);
    var ta, tb := ResourceDesc(a.gvr) + "/" + a.name, ResourceDesc(b.gvr) + "/" + b.name;
    if a.namespace != "" && b.namespace != "" {
      assert a.String() == a.namespace + ['/'] + ta && b.String() == b.namespace + ['/'] + tb;
      CutUnique(a.namespace, ta, b.namespace, tb, '/');
    } else if a.namespace != "" {
      assert a.String() == a.namespace + ['/'] + ta && b.String() == ResourceDesc(b.gvr) + ['/'] + b.name;
      CutUnique(a.namespace, ta, ResourceDesc(b.gvr), b.name, '/');
      assert false;
    } else if b.namespace != "" {
      assert b.String() == b.namespace + ['/'] + tb && a.String() == ResourceDesc(a.gvr) + ['/'] + a.name;
      CutUnique(b.namespace, tb, ResourceDesc(a.gvr), a.name, '/');
      assert false;
    }
    assert ta == tb;
    CutUnique(ResourceDesc(a.gvr), a.name, ResourceDesc(b.gvr), b.name, '/');
    DescInjective(a.gvr, b.gvr);
  }

  lemma {:induction false} PairsPlain(vs: seq<Verdict>)
    requires PlainFinalizers(vs)
    ensures forall s | s in Pairs(Bounds(vs)) :: s != "" && ',' !in s && '|' !in s
  {
    if vs != [] {
      var n := |vs| - 1;
      PairsPlain(vs[..n]);
      var bs := Bounds(vs[..n]);
      var b := Bound(vs[n].finalizer, vs[n].state);
      assert (bs + [b])[..|bs|] == bs;
      assert ',' !in b.Pair() && '|' !in b.Pair();
    }
  }

  lemma SortedPlain(vs: seq<Verdict>)
    requires PlainFinalizers(vs)
    ensures Delimited(Sort(Pairs(Bounds(vs))), ',')
    ensures '|' !in Join(Sort(Pairs(Bounds(vs))), ",")
  {
    var pairs := Pairs(Bounds(vs));
    var sorted := Sort(pairs);
    PairsPlain(vs);
    SameMembers(pairs, sorted);
    forall i | 0 <= i < |sorted| ensures sorted[i] != "" && ',' !in sorted[i] && '|' !in sorted[i] {
      assert sorted[i] in sorted;
    }
    JoinFree(sorted, ',', '|');
  }

  /** Everything the token is bound to. */
  predicate SameProof(a: Ref, va: seq<Verdict>, ra: string, b: Ref, vb: seq<Verdict>, rb: string) {
    && a.gvr.group == b.gvr.group && a.gvr.resource == b.gvr.resource && a.namespace == b.namespace && a.name == b.name
    && multiset(Bounds(va)) == multiset(Bounds(vb))
    && ra == rb
  }

  /** The two lists find every finalizer equally often in every state. */
  ghost predicate SameTimes(va: seq<Verdict>, vb: seq<Verdict>) {
    forall f, st :: Times(va, f, st) == Times(vb, f, st)
  }

  /** What the token binds of two verdict lists is just that. */
  lemma SameBoundsExact(va: seq<Verdict>, vb: seq<Verdict>)
    ensures multiset(Bounds(va)) == multiset(Bounds(vb)) <==> SameTimes(va, vb)
  {
    var a, b := multiset(Bounds(va)), multiset(Bounds(vb));
    forall x: Bound ensures a[x] == Times(va, x.finalizer, x.state) && b[x] == Times(vb, x.finalizer, x.state) {
      TimesBound(va, x.finalizer, x.state);
      TimesBound(vb, x.finalizer, x.state);
    }
    hide Bounds, Times;
    if a == b {
      forall f, st ensures Times(va, f, st) == Times(vb, f, st) {
        assert a[Bound(f, st)] == b[Bound(f, st)];
      }
    }
    if SameTimes(va, vb) {
      assert forall x: Bound :: a[x] == b[x];
    }
  }

  /** How many of the verdicts find the finalizer in the state. */
  function Times(vs: seq<Verdict>, f: string, st: State): nat {
    if vs == [] then 0
    else Times(vs[..|vs| - 1], f, st) + if vs[|vs| - 1].finalizer == f && vs[|vs| - 1].state == st then 1 else 0
  }

  lemma {:induction false} TimesBound(vs: seq<Verdict>, f: string, st: State)
    ensures multiset(Bounds(vs))[Bound(f, st)] == Times(vs, f, st)
  {
    if vs != [] {
      TimesBound(vs[..|vs| - 1], f, st);
    }
  }

  /** The canonical text is injective up to the order of the verdicts. */
  lemma CanonicalExact(a: Ref, va: seq<Verdict>, ra: string, b: Ref, vb: seq<Verdict>, rb: string)
    requires PlainRef(a) && PlainRef(b) && PlainFinalizers(va) && PlainFinalizers(vb)
    ensures Canonical(a, va, ra) == Canonical(b, vb, rb) <==> SameProof(a, va, ra, b, vb, rb)
  {
    var pa, pb := Sort(Pairs(Bounds(va))), Sort(Pairs(Bounds(vb)));
    var ja, jb := Join(pa, ","), Join(pb, ",");
    CanonicalParts(a, va, ra);
    CanonicalParts(b, vb, rb);
    RefText(a);
    RefText(b);
    SortedPlain(va);
    SortedPlain(vb);
    PairsExact(Bounds(va), Bounds(vb));
    if Canonical(a, va, ra) == Canonical(b, vb, rb) {
      CutUnique(a.String(), ja + ['|'] + ra, b.String(), jb + ['|'] + rb, '|');
      CutUnique(ja, ra, jb, rb, '|');
      RefInjective(a, b);
      JoinInjective(pa, pb, ',');
      assert multiset(pa) == multiset(pb);
    }
    if SameProof(a, va, ra, b, vb, rb) {
      SameSorted(pa, pb);
      assert ResourceDesc(a.gvr) == ResourceDesc(b.gvr);
    }
  }

  lemma CanonicalParts(ref: Ref, vs: seq<Verdict>, version: string)
    ensures Canonical(ref, vs, version) == ref.String() + ['|'] + (Join(Sort(Pairs(Bounds(vs))), ",") + ['|'] + version)
  {
    JoinThree(ref.String(), Join(Sort(Pairs(Bounds(vs))), ","), version, "|");
  }

  /** Reordering the verdicts never changes the text, whatever they contain. */
  lemma CanonicalOrderFree(ref: Ref, va: seq<Verdict>, vb: seq<Verdict>, version: string)
    requires multiset(Bounds(va)) == multiset(Bounds(vb))
    ensures Canonical(ref, va, version) == Canonical(ref, vb, version)
  {
    PairsExact(Bounds(va), Bounds(vb));
    SameSorted(Sort(Pairs(Bounds(va))), Sort(Pairs(Bounds(vb))));
  }

  /** `hash` stands for the first twelve hex digits of the SHA-256 of its argument. */
  function Token(hash: string -> string, ref: Ref, vs: seq<Verdict>, version: string): string {
    hash(Canonical(ref, vs, version))
  }

  datatype Gate = Gate(interactive: bool, confirm: string, typedName: string) {
    predicate Authorizes(hash: string -> string, ref: Ref, vs: seq<Verdict>, version: string) {
      if interactive then typedName == ref.name
      else confirm != "" && confirm == Token(hash, ref, vs, version)
    }
  }

  /** A printed token opens the gate exactly for the proof it was printed for: the
      same target, verdicts in any order and resource version. Only the empty
      token and a hash collision stand in the way. */
  lemma GateExact(hash: string -> string, typed: string,
                  a: Ref, va: seq<Verdict>, ra: string, b: Ref, vb: seq<Verdict>, rb: string)
    requires PlainRef(a) && PlainRef(b) && PlainFinalizers(va) && PlainFinalizers(vb)
    requires Token(hash, a, va, ra) != ""
    requires hash(Canonical(a, va, ra)) == hash(Canonical(b, vb, rb)) ==> Canonical(a, va, ra) == Canonical(b, vb, rb)
    ensures Gate(false, Token(hash, a, va, ra), typed).Authorizes(hash, b, vb, rb) <==> SameProof(a, va, ra, b, vb, rb)
  {
    CanonicalExact(a, va, ra, b, vb, rb);
  }
}
