/** The API server as the program sees it: every call may find a changed world, may
    fail, and a write only lands on the resource version it was built from. */
module Cluster {
  import opened Model

  /** An object's identity; every served version of it is the same object. */
  datatype Key = Key(group: string, resource: string, namespace: string, name: string)

  function KeyOf(ref: Ref): Key {
    Key(ref.gvr.group, ref.gvr.resource, ref.namespace, ref.name)
  }

  /** What the namespace client addresses. */
  function NamespaceKey(name: string): Key {
    Key("", "namespaces", "", name)
  }

  /** The reference under which the namespace client reads. */
  function CoreRef(name: string): Ref {
    Ref(GVR("", "v1", "namespaces"), "", name)
  }

  predicate CoreNamespace(ref: Ref) {
    KeyOf(ref) == NamespaceKey(ref.name)
  }

  datatype World = World(revision: nat, objects: map<Key, Obj>,
                         apiServices: seq<ApiService>, crds: seq<string>,
                         validating: seq<seq<Webhook>>, mutating: seq<seq<Webhook>>,
                         slices: seq<EndpointSlice>, catalogue: seq<ResourceList>)

  /** What a failed read amounts to. */
  const NOTHING := World(0, map[], [], [], [], [], [], [])

  predicate Versioned(w: World) {
    forall k | k in w.objects :: w.objects[k].version <= w.revision
  }

  /** Any number of writes by anyone: every object is untouched, gone, or carries a
      version issued since. Evidence may change in any way. */
  predicate Evolves(w: World, v: World) {
    && Versioned(v) && w.revision <= v.revision
    && forall k | k in v.objects ::
      (k in w.objects && v.objects[k] == w.objects[k]) || v.objects[k].version > w.revision
  }

  /** Other writers may create, change or remove any object, and change any evidence. */
  lemma OthersMayWrite(w: World, k: Key, o: Obj, services: seq<ApiService>, crds: seq<string>,
                       slices: seq<EndpointSlice>)
    requires Versioned(w) && o.version == w.revision + 1
    ensures Evolves(w, w.(revision := w.revision + 1, objects := w.objects[k := o]))
    ensures Evolves(w, w.(objects := w.objects - {k}))
    ensures Evolves(w, w.(apiServices := services, crds := crds, slices := slices))
  {}

  lemma EvolvesTransitive(u: World, v: World, w: World)
    requires Evolves(u, v) && Evolves(v, w)
    ensures Evolves(u, w)
  {}

  /** Optimistic concurrency: an unchanged version means an unchanged object. */
  lemma SameVersionSameObject(w: World, v: World, k: Key, version: nat)
    requires Evolves(w, v) && version <= w.revision
    requires k in v.objects && v.objects[k].version == version
    ensures k in w.objects && w.objects[k] == v.objects[k]
  {}

  /* Writes */

  datatype Op =
    | Patch(ref: Ref, finalizers: seq<string>, version: nat)
    | Finalize(name: string, finalizers: seq<string>, version: nat)
    | Delete(ref: Ref, version: nat)

  function Touched(op: Op): Key {
    if op.Finalize? then NamespaceKey(op.name) else KeyOf(op.ref)
  }

  /** The version precondition holds. */
  predicate Accepts(w: World, op: Op) {
    Touched(op) in w.objects && w.objects[Touched(op)].version == op.version
  }

  function Edited(o: Obj, op: Op): Obj {
    match op
    case Patch(_, fs, _) => o.(metaFinalizers := fs)
    case Finalize(_, fs, _) => o.(specFinalizers := fs)
    case Delete(_, _) => o.(deleting := true)
  }

  /** A terminating object goes when its metadata finalizers are gone; only a core
      namespace is also held by the finalizers in its spec. */
  predicate Released(k: Key, o: Obj) {
    o.deleting && o.metaFinalizers == [] && (k == NamespaceKey(k.name) ==> o.specFinalizers == [])
  }

  /** An accepted write: a released object disappears, any other
      change gets a fresh version, and an edit that changes nothing writes nothing. */
  function Perform(w: World, op: Op): World
    requires Accepts(w, op)
  {
    var k := Touched(op);
    var o := Edited(w.objects[k], op);
    if Released(k, o) then w.(revision := w.revision + 1, objects := w.objects - {k})
    else if o == w.objects[k] then w
    else w.(revision := w.revision + 1, objects := w.objects[k := o.(version := w.revision + 1)])
  }

  lemma PerformEvolves(w: World, op: Op)
    requires Accepts(w, op) && Versioned(w)
    ensures Evolves(w, Perform(w, op))
  {}

  /** How a request may go wrong: it never arrives, or its reply never does. */
  datatype Fault = NoFault | Refused | LostReply

  /** A point of the history at which a read was answered, or failed. */
  datatype Instant = Instant(when: nat, failed: bool)

  function Answer(past: seq<World>, i: Instant): World {
    if i.failed || i.when >= |past| then NOTHING else past[i.when]
  }

  function Lookup(w: World, ref: Ref): Option<Obj> {
    if KeyOf(ref) in w.objects then Some(w.objects[KeyOf(ref)]) else None
  }

  /** A write of this program: it turned world `at` into world `at + 1`. */
  datatype Write = Write(op: Op, at: nat)

  predicate Happened(past: seq<World>, e: Write) {
    e.at + 1 < |past| && Accepts(past[e.at], e.op) && past[e.at + 1] == Perform(past[e.at], e.op)
  }

  /** Every later world evolves from every earlier one. */
  predicate History(past: seq<World>) {
    && past != []
    && (forall i {:trigger Versioned(past[i])} | 0 <= i < |past| :: Versioned(past[i]))
    && (forall i, j {:trigger Evolves(past[i], past[j])} | 0 <= i <= j < |past| :: Evolves(past[i], past[j]))
  }

  lemma HistoryExtends(past: seq<World>, w: World)
    requires History(past) && Evolves(past[|past| - 1], w)
    ensures History(past + [w])
  {
    forall i | 0 <= i < |past| ensures Evolves(past[i], w) {
      EvolvesTransitive(past[i], past[|past| - 1], w);
    }
  }

  /* Requests that only read */

  datatype Access = Access(group: string, resource: string, subresource: string, namespace: string, name: string,
                           verb: string)

  datatype Request =
    | Discovery
    | Review(access: Access)
    | GetOf(ref: Ref)
    | ListOf(gvr: GVR, namespace: string)
    | EvidenceOf(source: Source)

  /** What was asked, and when it was answered. */
  datatype Reply = Reply(request: Request, at: Instant)

  /** The replies were given one after the other, from instant `lo` on and before `hi`. */
  predicate Between(replies: seq<Reply>, lo: nat, hi: nat) {
    && lo <= hi
    && (forall i | 0 <= i < |replies| :: lo <= replies[i].at.when < hi)
    && (forall i, j | 0 <= i < j < |replies| :: replies[i].at.when < replies[j].at.when)
  }

  lemma BetweenConcat(a: seq<Reply>, b: seq<Reply>, lo: nat, mid: nat, hi: nat)
    requires Between(a, lo, mid) && Between(b, mid, hi)
    ensures Between(a + b, lo, hi)
  {}

  lemma BetweenOne(reply: Reply, lo: nat, hi: nat)
    requires lo <= reply.at.when < hi
    ensures Between([reply], lo, hi) && Between([], lo, hi)
  {}

  datatype Item = Item(namespace: string, name: string, obj: Obj)

  predicate Selects(k: Key, gvr: GVR, namespace: string) {
    k.group == gvr.group && k.resource == gvr.resource && (namespace == "" || k.namespace == namespace)
  }

  function ListedKey(gvr: GVR, l: Item): Key {
    Key(gvr.group, gvr.resource, l.namespace, l.name)
  }

  predicate Includes(items: seq<Item>, gvr: GVR, k: Key) {
    exists i | 0 <= i < |items| :: ListedKey(gvr, items[i]) == k
  }

  class Client {
    var world: World
    ghost var past: seq<World>
    ghost var log: seq<Write>
    /** Every read and access review so far. */
    ghost var replies: seq<Reply>

    ghost predicate Valid()
      reads this
    {
      && History(past) && past[|past| - 1] == world
      && forall e | e in log :: Happened(past, e)
    }

    constructor (w: World)
      requires Versioned(w)
      ensures Valid() && world == w && past == [w] && log == [] && replies == []
    {
      world, past, log, replies := w, [w], [], [];
    }

    /** Anything other writers do between two calls. */
    method Interfere()
      requires Valid()
      modifies this
      ensures Valid() && log == old(log) && replies == old(replies)
      ensures past == old(past) + [world]
    {
      assert Evolves(world, world);
      var w :| Evolves(world, w);
      HistoryExtends(past, w);
      world, past := w, past + [w];
    }

    /** One read: the caller takes the part of the answer it asked for. */
    method Ask(request: Request) returns (answer: World, failed: bool, ghost at: Instant)
      requires Valid()
      modifies this
      ensures Valid() && log == old(log)
      ensures past == old(past) + [world]
      ensures at == Instant(|old(past)|, failed) && answer == Answer(past, at)
      ensures replies == old(replies) + [Reply(request, at)]
    {
      Interfere();
      failed := *;
      answer := if failed then NOTHING else world;
      at := Instant(|past| - 1, failed);
      replies := replies + [Reply(request, at)];
    }

    /** An access review: allowed, denied or failed, as the cluster decides. */
    method Can(access: Access) returns (allowed: bool)
      requires Valid()
      modifies this
      ensures Valid() && log == old(log)
      ensures past == old(past) + [world]
      ensures replies == old(replies) + [Reply(Review(access), Instant(|old(past)|, !allowed))]
    {
      Interfere();
      allowed := *;
      replies := replies + [Reply(Review(access), Instant(|past| - 1, !allowed))];
    }

    method Get(ref: Ref) returns (o: Option<Obj>, ghost at: Instant)
      requires Valid()
      modifies this
      ensures Valid() && log == old(log)
      ensures past == old(past) + [world]
      ensures at.when == |old(past)| && o == Lookup(Answer(past, at), ref)
      ensures replies == old(replies) + [Reply(GetOf(ref), at)]
    {
      var w, _, i := Ask(GetOf(ref));
      return Lookup(w, ref), i;
    }

    /** The objects of a kind, each once, in whatever order the server returns them. */
    method List(gvr: GVR, namespace: string) returns (items: seq<Item>, ghost at: Instant)
      requires Valid()
      modifies this
      ensures Valid() && log == old(log)
      ensures past == old(past) + [world]
      ensures at.when == |old(past)| && replies == old(replies) + [Reply(ListOf(gvr, namespace), at)]
      ensures forall l | l in items ::
        var k := ListedKey(gvr, l);
        k in Answer(past, at).objects && Answer(past, at).objects[k] == l.obj && Selects(k, gvr, namespace)
      ensures forall k | k in Answer(past, at).objects && Selects(k, gvr, namespace) :: Includes(items, gvr, k)
      ensures forall i, j | 0 <= i < j < |items| :: ListedKey(gvr, items[i]) != ListedKey(gvr, items[j])
    {
      var w, _, i := Ask(ListOf(gvr, namespace));
      at := i;
      items := [];
      var keys := set k | k in w.objects && Selects(k, gvr, namespace);
      ghost var all := keys;
      while keys != {}
        invariant keys <= all
        invariant forall l | l in items :: ListedKey(gvr, l) in all - keys && w.objects[ListedKey(gvr, l)] == l.obj
        invariant forall k | k in all - keys :: Includes(items, gvr, k)
        invariant forall i, j | 0 <= i < j < |items| :: ListedKey(gvr, items[i]) != ListedKey(gvr, items[j])
        decreases keys
      {
        var k :| k in keys;
        var l := Item(k.namespace, k.name, w.objects[k]);
        assert ListedKey(gvr, l) == k;
        forall x | x in all - (keys - {k}) ensures Includes(items + [l], gvr, x) {
          if x == k {
            assert ListedKey(gvr, (items + [l])[|items|]) == k;
          } else {
            assert Includes(items, gvr, x);
            var j :| 0 <= j < |items| && ListedKey(gvr, items[j]) == x;
            assert ListedKey(gvr, (items + [l])[j]) == x;
          }
        }
        keys, items := keys - {k}, items + [l];
      }
    }

    /** One write request. */
    method Submit(op: Op) returns (ok: bool, ghost at: nat, ghost fault: Fault)
      requires Valid()
      modifies this
      ensures Valid() && replies == old(replies)
      ensures at == |old(past)| < |past| && old(past) == past[..at]
      ensures ok <==> fault == NoFault && Accepts(past[at], op)
      ensures
        if fault != Refused && Accepts(past[at], op)
        then past == past[..at + 1] + [Perform(past[at], op)] && log == old(log) + [Write(op, at)]
        else |past| == at + 1 && log == old(log)
    {
      Interfere();
      at := |past| - 1;
      var f: Fault := *;
      fault := f;
      ok := false;
      if f != Refused && Accepts(world, op) {
        var w := Perform(world, op);
        PerformEvolves(world, op);
        HistoryExtends(past, w);
        world, past, log := w, past + [w], log + [Write(op, at)];
        ok := f == NoFault;
      }
    }

    method PatchFinalizers(ref: Ref, newFinalizers: seq<string>, version: nat)
      returns (ok: bool, ghost at: nat, ghost fault: Fault)
      requires Valid()
      modifies this
      ensures Valid() && replies == old(replies)
      ensures Sent(old(past), past, old(log), log, Patch(ref, newFinalizers, version), ok, at, fault)
        && at == |old(past)|
    {
      ok, at, fault := Submit(Patch(ref, newFinalizers, version));
    }

    method DeleteObject(ref: Ref, version: nat) returns (ok: bool, ghost at: nat, ghost fault: Fault)
      requires Valid()
      modifies this
      ensures Valid() && replies == old(replies)
      ensures Sent(old(past), past, old(log), log, Delete(ref, version), ok, at, fault) && at == |old(past)|
    {
      ok, at, fault := Submit(Delete(ref, version));
    }

    /** The namespace is read again and compared before the finalize request, whose
        own precondition is the same version. */
    method FinalizeNamespace(name: string, newFinalizers: seq<string>, version: nat)
      returns (ok: bool, ghost again: Instant, ghost at: nat, ghost fault: Fault)
      requires Valid()
      modifies this
      ensures Valid() && again.when == |old(past)|
      ensures replies == old(replies) + [Reply(GetOf(CoreRef(name)), again)]
      ensures old(past) < past
      ensures
        if Reads(past, again, NamespaceKey(name), version)
        then Sent(old(past), past, old(log), log, Finalize(name, newFinalizers, version), ok, at, fault)
          && at == |old(past)| + 1
        else !ok && |past| == |old(past)| + 1 && log == old(log)
    {
      var w, _, i := Ask(GetOf(CoreRef(name)));
      again, at, fault, ok := i, 0, NoFault, false;
      if NamespaceKey(name) in w.objects && w.objects[NamespaceKey(name)].version == version {
        ok, at, fault := Submit(Finalize(name, newFinalizers, version));
      }
    }
  }

  predicate Reads(past: seq<World>, i: Instant, k: Key, version: nat) {
    k in Answer(past, i).objects && Answer(past, i).objects[k].version == version
  }

  /** What one write request did to the history and to the log. */
  predicate Sent(past0: seq<World>, past: seq<World>, log0: seq<Write>, log: seq<Write>,
                 op: Op, ok: bool, at: nat, fault: Fault)
  {
    && past0 < past && |past0| <= at < |past|
    && (ok <==> fault == NoFault && Accepts(past[at], op))
    && if fault != Refused && Accepts(past[at], op)
       then |past| == at + 2 && past[at + 1] == Perform(past[at], op) && log == log0 + [Write(op, at)]
       else |past| == at + 1 && log == log0
  }
}
