/** Objects whose owner references name the target. */
module Orphans {
  import opened Model
  import opened Terms

  predicate Owned(target: StuckObject, refs: seq<OwnerRef>) {
    OwnerRef(target.apiVersion, target.kind, target.ref.name) in refs
  }

  predicate IsOrphan(target: StuckObject, c: StuckObject) {
    c.ref != target.ref && Owned(target, c.ownerRefs)
  }

  function Refs(candidates: seq<StuckObject>): (r: seq<Ref>)
    ensures |r| == |candidates| && forall i | 0 <= i < |r| :: r[i] == candidates[i].ref
  {
    if candidates == [] then [] else Refs(candidates[..|candidates| - 1]) + [candidates[|candidates| - 1].ref]
  }

  function OrphansOf(target: StuckObject, candidates: seq<StuckObject>): seq<Ref> {
    if candidates == [] then []
    else
      var c := candidates[|candidates| - 1];
      OrphansOf(target, candidates[..|candidates| - 1]) + if IsOrphan(target, c) then [c.ref] else []
  }

  method Detect(target: StuckObject, candidates: seq<StuckObject>) returns (out: seq<Ref>)
    ensures out == OrphansOf(target, candidates)
  {
    out := [];
    for i := 0 to |candidates|
      invariant out == OrphansOf(target, candidates[..i])
    {
      var c := candidates[i];
      assert candidates[..i + 1][..i] == candidates[..i];
      if c.ref == target.ref {
        continue;
      }
      ghost var before := out;
      for j := 0 to |c.ownerRefs|
        invariant out == before
        invariant OwnerRef(target.apiVersion, target.kind, target.ref.name) !in c.ownerRefs[..j]
      {
        var owner := c.ownerRefs[j];
        if owner.name == target.ref.name && owner.kind == target.kind && owner.apiVersion == target.apiVersion {
          assert owner in c.ownerRefs;
          out := out + [c.ref];
          break;
        }
      }
    }
    assert candidates[..|candidates|] == candidates;
  }

  lemma OwnedExact(target: StuckObject, refs: seq<OwnerRef>)
    ensures Owned(target, refs) <==> NamesOwner(refs, target.apiVersion, target.kind, target.ref.name)
  {
    if NamesOwner(refs, target.apiVersion, target.kind, target.ref.name) {
      var k :| 0 <= k < |refs| && refs[k].apiVersion == target.apiVersion && refs[k].kind == target.kind
        && refs[k].name == target.ref.name;
      assert refs[k] == OwnerRef(target.apiVersion, target.kind, target.ref.name);
    }
  }

  /** The orphans are the candidates, other than the target, one of whose references
      names the target by apiVersion, kind and name. */
  lemma {:induction false} OrphansExact(target: StuckObject, candidates: seq<StuckObject>)
    ensures forall r :: r in OrphansOf(target, candidates) <==>
      exists c | c in candidates ::
        c.ref == r && r != target.ref && NamesOwner(c.ownerRefs, target.apiVersion, target.kind, target.ref.name)
  {
    if candidates != [] {
      var n := |candidates| - 1;
      OrphansExact(target, candidates[..n]);
      assert candidates == candidates[..n] + [candidates[n]];
      OwnedExact(target, candidates[n].ownerRefs);
      hide Owned, NamesOwner;
    }
  }

  /** No candidate is listed more often than it was found, however many of its
      references match. */
  lemma {:induction false} OrphansOnce(target: StuckObject, candidates: seq<StuckObject>)
    ensures multiset(OrphansOf(target, candidates)) <= multiset(Refs(candidates))
  {
    if candidates != [] {
      OrphansOnce(target, candidates[..|candidates| - 1]);
    }
  }
}
