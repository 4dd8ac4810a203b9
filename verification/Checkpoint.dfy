/**
 * The clone checkpoint of a ctx (src/saga/retry-policy.ts): a snapshot that shares no object with
 * ctx, and a restore that can be repeated, whatever steps did to ctx meanwhile.
 */
module Checkpoint {
  import opened Common
  import opened ObjectGraph

  // ---- What can be seen of an object graph, by following keys.

  function FindAt(h: Heap, v: Value, path: seq<Key>): Option<Value>
    decreases |path|
  {
    if |path| == 0 then Some(v)
    else if v.Object? && v.ref in h && path[0] in Children(h[v.ref])
    then FindAt(h, Children(h[v.ref])[path[0]], path[1..])
    else None
  }

  function FindIn(h: Heap, values: map<Key, Value>, path: seq<Key>): Option<Value>
    requires |path| > 0
  {
    if path[0] in values then FindAt(h, values[path[0]], path[1..]) else None
  }

  datatype Face = Nothing | Scalar(value: int) | Function | Thing(kind: Kind, keys: set<Key>)

  function FaceOf(h: Heap, v: Option<Value>): Face
  {
    match v
    case None => Nothing
    case Some(Primitive(n)) => Scalar(n)
    case Some(Uncloneable) => Function
    case Some(Object(r)) => if r in h then Thing(h[r].kind, Children(h[r]).Keys) else Nothing
  }

  /** What ctx shows at a path, which starts with one of its own fields. */
  function Shows(h: Heap, root: Ref, path: seq<Key>): Face
    requires root in h && |path| > 0
  {
    FaceOf(h, FindIn(h, h[root].fields, path))
  }

  /** A clone keeps everything but the prototype of a class instance. */
  function Plainly(f: Face): Face
  {
    if f.Thing? && f.kind == Foreign then f.(kind := PlainObject) else f
  }

  /** Other keys than these. */
  function Toggled(values: map<Key, Value>): (other: map<Key, Value>)
    ensures [] in other <==> [] !in values
  {
    if [] in values then values - {[]} else values[[] := Primitive(0)]
  }

  // ---- Cloning.

  function Renamed(v: Value, f: map<Ref, Ref>): Value
  {
    if v.Object? && v.ref in f then Object(f[v.ref]) else v
  }

  function RenamedAll(values: map<Key, Value>, f: map<Ref, Ref>): map<Key, Value>
  {
    map k | k in values :: Renamed(values[k], f)
  }

  function Cloned(n: Node, f: map<Ref, Ref>): Node
  {
    var inside := RenamedAll(Children(n), f);
    if n.kind.MapObject? || n.kind.SetObject? then Node(n.kind, false, true, false, false, map[], inside)
    else Node(if n.kind == Foreign then PlainObject else n.kind, false, true, false, false, inside, map[])
  }

  /** No reference in `values` leaves `region`. */
  ghost predicate Within(values: map<Key, Value>, region: set<Ref>)
  {
    forall k :: k in values && values[k].Object? ==> values[k].ref in region
  }

  ghost predicate Closed(h: Heap, region: set<Ref>)
  {
    forall r :: r in region ==> r in h && Within(Children(h[r]), region)
  }

  ghost predicate CopyAt(h: Heap, h': Heap, f: map<Ref, Ref>, r: Ref)
  {
    r in f && r in h && f[r] in h' && h'[f[r]] == Cloned(h[r], f)
  }

  /** `f` names the copy in `h'` of each object of a closed region of `h`. */
  ghost predicate CopyOf(h: Heap, h': Heap, f: map<Ref, Ref>)
  {
    Closed(h, f.Keys) && forall r :: r in f ==> CopyAt(h, h', f, r)
  }

  lemma {:induction false} CloneShowsTheSame(h: Heap, h': Heap, f: map<Ref, Ref>, v: Value, path: seq<Key>)
    requires CopyOf(h, h', f) && (v.Object? ==> v.ref in f)
    ensures FaceOf(h', FindAt(h', Renamed(v, f), path)) == Plainly(FaceOf(h, FindAt(h, v, path)))
    decreases |path|
  {
    if v.Object? {
      assert CopyAt(h, h', f, v.ref);
      assert Children(h'[f[v.ref]]) == RenamedAll(Children(h[v.ref]), f);
      if |path| > 0 && path[0] in Children(h[v.ref]) {
        assert Within(Children(h[v.ref]), f.Keys);
        CloneShowsTheSame(h, h', f, Children(h[v.ref])[path[0]], path[1..]);
      }
    }
  }

  lemma CloneFieldsShowTheSame(h: Heap, h': Heap, f: map<Ref, Ref>, values: map<Key, Value>, path: seq<Key>)
    requires CopyOf(h, h', f) && Within(values, f.Keys) && |path| > 0
    ensures FaceOf(h', FindIn(h', RenamedAll(values, f), path)) == Plainly(FaceOf(h, FindIn(h, values, path)))
  {
    if path[0] in values { CloneShowsTheSame(h, h', f, values[path[0]], path[1..]); }
  }

  ghost predicate Unchanged(h: Heap, h': Heap, region: set<Ref>)
  {
    forall r :: r in region ==> r in h && r in h' && h'[r] == h[r]
  }

  /** No value here refers to an object of `region`. */
  ghost predicate Outside(values: map<Key, Value>, region: set<Ref>)
  {
    forall k :: k in values && values[k].Object? ==> values[k].ref !in region
  }

  /** Nothing outside the region refers into it, so no step can come by one of its objects. */
  ghost predicate Sealed(h: Heap, region: set<Ref>)
  {
    forall r :: r in h && r !in region ==> Outside(h[r].fields, region) && Outside(h[r].items, region)
  }

  lemma {:induction false} SealedIsNeverFound(h: Heap, region: set<Ref>, v: Value, path: seq<Key>)
    requires Sealed(h, region) && (v.Object? ==> v.ref !in region)
    ensures FindAt(h, v, path) != None && FindAt(h, v, path).value.Object? ==> FindAt(h, v, path).value.ref !in region
    decreases |path|
  {
    if |path| > 0 && v.Object? && v.ref in h && path[0] in Children(h[v.ref]) {
      assert Outside(Children(h[v.ref]), region);
      SealedIsNeverFound(h, region, Children(h[v.ref])[path[0]], path[1..]);
    }
  }

  predicate Below(h: Heap, next: Ref) { forall r :: r in h ==> r < next }

  ghost predicate Heaped(h: Heap, next: Ref) { WellFormed(h) && Below(h, next) }

  /** The objects that `values` lead to, and perhaps more: a closed region. */
  method ReachedFrom(h: Heap, values: map<Key, Value>) returns (region: set<Ref>)
    requires WellFormed(h) && AllKnown(h, values)
    ensures Closed(h, region) && Within(values, region)
  {
    region := {};
    var todo := set k | k in values && values[k].Object? :: values[k].ref;
    while todo != {}
      invariant region <= h.Keys && todo <= h.Keys && region !! todo
      invariant Within(values, region + todo)
      invariant forall r :: r in region ==> Within(Children(h[r]), region + todo)
      decreases h.Keys - region
    {
      var r :| r in todo;
      assert AllKnown(h, h[r].fields) && AllKnown(h, h[r].items);
      var inside := Children(h[r]);
      region := region + {r};
      todo := (todo + set k | k in inside && inside[k].Object? :: inside[k].ref) - region;
    }
  }

  function FreshNames(region: set<Ref>, next: Ref): map<Ref, Ref>
  {
    map r | r in region :: r + next
  }

  function Clones(region: set<Ref>, next: Ref): (clones: set<Ref>)
    ensures forall s {:trigger s in clones} :: s in clones <==> s >= next && s - next in region
  {
    set r | r in region :: r + next
  }

  lemma NamesOfClones(region: set<Ref>, next: Ref)
    ensures FreshNames(region, next).Values == Clones(region, next) && Injective(FreshNames(region, next))
  {
    forall s | s in Clones(region, next) ensures s in FreshNames(region, next).Values {
      assert FreshNames(region, next)[s - next] == s;
    }
  }

  /** The heap with a clone of each object of the region; the clone of `r` is `r + next`. */
  function WithClones(h: Heap, region: set<Ref>, next: Ref): Heap
    requires region <= h.Keys
  {
    h + map s | s in Clones(region, next) :: CloneFor(h, region, next, s)
  }

  function CloneFor(h: Heap, region: set<Ref>, next: Ref, s: Ref): Node
    requires region <= h.Keys && s in Clones(region, next)
  {
    var r: Ref := s - next;
    Cloned(h[r], FreshNames(region, next))
  }

  lemma CloneAt(h: Heap, region: set<Ref>, next: Ref, r: Ref)
    requires region <= h.Keys && Below(h, next) && r in region
    ensures r + next !in h && r + next in Clones(region, next) && r + next in WithClones(h, region, next)
    ensures WithClones(h, region, next)[r + next] == Cloned(h[r], FreshNames(region, next))
  {
    assert (r + next) - next == r && r < next;
  }

  lemma ClonesAreCopies(h: Heap, next: Ref, region: set<Ref>)
    requires Heaped(h, next) && Closed(h, region)
    ensures CopyOf(h, WithClones(h, region, next), FreshNames(region, next))
  {
    var h', f := WithClones(h, region, next), FreshNames(region, next);
    forall r | r in f ensures CopyAt(h, h', f, r) { CloneAt(h, region, next, r); }
  }

  lemma ClonesAreNew(h: Heap, next: Ref, region: set<Ref>)
    requires Heaped(h, next) && Closed(h, region)
    ensures var h' := WithClones(h, region, next);
      && Unchanged(h, h', h.Keys) && Clones(region, next) !! h.Keys
      && h'.Keys == h.Keys + Clones(region, next) && Below(h', 2 * next)
  {
    forall s | s in Clones(region, next) ensures s !in h && s < 2 * next { assert s - next in h; }
  }

  /** What a clone holds is known, and refers to clones only. */
  lemma ClonedInside(h: Heap, next: Ref, region: set<Ref>, values: map<Key, Value>)
    requires Heaped(h, next) && Closed(h, region) && Within(values, region)
    ensures var copy := RenamedAll(values, FreshNames(region, next));
      AllKnown(WithClones(h, region, next), copy) && Within(copy, Clones(region, next))
  {
    var h', copy := WithClones(h, region, next), RenamedAll(values, FreshNames(region, next));
    forall k | k in copy ensures Known(h', copy[k]) && (copy[k].Object? ==> copy[k].ref in Clones(region, next)) {
      if values[k].Object? { CloneAt(h, region, next, values[k].ref); }
    }
  }

  lemma KnownIsOutside(h: Heap, values: map<Key, Value>, region: set<Ref>)
    requires AllKnown(h, values) && region !! h.Keys
    ensures Outside(values, region)
  {
    forall k | k in values && values[k].Object? ensures values[k].ref !in region { assert Known(h, values[k]); }
  }

  lemma ClonesAreWhole(h: Heap, next: Ref, region: set<Ref>)
    requires Heaped(h, next) && Closed(h, region)
    ensures WellFormed(WithClones(h, region, next)) && Closed(WithClones(h, region, next), Clones(region, next))
  {
    var h', clones := WithClones(h, region, next), Clones(region, next);
    ClonesAreNew(h, next, region);
    forall s | s in h'
      ensures AllKnown(h', h'[s].fields) && AllKnown(h', h'[s].items)
      ensures s in clones ==> Within(Children(h'[s]), clones)
    {
      if s in h {
        assert AllKnown(h, h[s].fields) && AllKnown(h, h[s].items);
      } else {
        CloneAt(h, region, next, s - next);
        ClonedInside(h, next, region, Children(h[s - next]));
      }
    }
  }

  lemma ClonesAreSealed(h: Heap, next: Ref, region: set<Ref>)
    requires Heaped(h, next) && Closed(h, region)
    ensures Sealed(WithClones(h, region, next), Clones(region, next))
  {
    var h', clones := WithClones(h, region, next), Clones(region, next);
    ClonesAreNew(h, next, region);
    forall s | s in h' && s !in clones ensures Outside(h'[s].fields, clones) && Outside(h'[s].items, clones) {
      assert AllKnown(h, h[s].fields) && AllKnown(h, h[s].items);
      KnownIsOutside(h, h[s].fields, clones);
      KnownIsOutside(h, h[s].items, clones);
    }
  }

  // ---- The checkpoint.

  predicate Injective(f: map<Ref, Ref>)
  {
    forall r, s :: r in f && s in f && f[r] == f[s] ==> r == s
  }

  /** First one renaming, then the other. */
  function Composed(f: map<Ref, Ref>, g: map<Ref, Ref>): map<Ref, Ref>
  {
    map r | r in f && f[r] in g :: g[f[r]]
  }

  lemma RenamedTwice(values: map<Key, Value>, f: map<Ref, Ref>, g: map<Ref, Ref>)
    requires Within(values, f.Keys) && Within(RenamedAll(values, f), g.Keys)
    ensures RenamedAll(RenamedAll(values, f), g) == RenamedAll(values, Composed(f, g))
    ensures Within(values, Composed(f, g).Keys)
  {
    forall k | k in values
      ensures Renamed(Renamed(values[k], f), g) == Renamed(values[k], Composed(f, g))
      ensures values[k].Object? ==> values[k].ref in Composed(f, g)
    {
      assert RenamedAll(values, f)[k] == Renamed(values[k], f);
    }
  }

  lemma ClonedTwice(n: Node, f: map<Ref, Ref>, g: map<Ref, Ref>)
    requires Within(Children(n), f.Keys) && Within(Children(Cloned(n, f)), g.Keys)
    ensures Cloned(Cloned(n, f), g) == Cloned(n, Composed(f, g))
    ensures Within(Children(n), Composed(f, g).Keys)
  {
    assert Children(Cloned(n, f)) == RenamedAll(Children(n), f);
    RenamedTwice(Children(n), f, g);
  }

  /** A copy of a copy is a copy. */
  lemma CopyCompose(h: Heap, h': Heap, h'': Heap, f: map<Ref, Ref>, g: map<Ref, Ref>)
    requires CopyOf(h, h', f) && CopyOf(h', h'', g)
    ensures CopyOf(h, h'', Composed(f, g))
  {
    forall r | r in Composed(f, g)
      ensures CopyAt(h, h'', Composed(f, g), r) && Within(Children(h[r]), Composed(f, g).Keys)
    {
      assert CopyAt(h, h', f, r) && CopyAt(h', h'', g, f[r]);
      assert Within(Children(h'[f[r]]), g.Keys);
      ClonedTwice(h[r], f, g);
    }
  }

  /** A copy that did not change is still a copy. */
  lemma CopyStays(h: Heap, h': Heap, h'': Heap, f: map<Ref, Ref>, region: set<Ref>)
    requires CopyOf(h, h', f) && f.Values <= region && Unchanged(h', h'', region)
    ensures CopyOf(h, h'', f)
  {
    forall r | r in f ensures CopyAt(h, h'', f, r) {
      assert CopyAt(h, h', f, r) && f[r] in f.Values;
    }
  }

  lemma RegionStays(h: Heap, h': Heap, region: set<Ref>)
    requires Closed(h, region) && Unchanged(h, h', region)
    ensures Closed(h', region)
  {
  }

  /**
   * What a restore makes of ctx: its own fields are those it had, renamed, and what they lead to is a
   * copy of what they led to, object for object, none of them an object there was before.
   */
  ghost predicate RestoredAs(original: Heap, heap: Heap, root: Ref, g: map<Ref, Ref>)
  {
    && root in original && root in heap
    && CopyOf(original, heap, g) && Within(original[root].fields, g.Keys)
    && Injective(g) && g.Values !! original.Keys
    && heap[root].fields == RenamedAll(original[root].fields, g)
  }

  ghost predicate Restored(original: Heap, heap: Heap, root: Ref)
  {
    exists g :: RestoredAs(original, heap, root, g)
  }

  /** Every path shows again what it showed, but for the class of an instance below the root. */
  lemma RestoredShowsTheSame(original: Heap, heap: Heap, root: Ref, path: seq<Key>)
    requires Restored(original, heap, root) && |path| > 0
    ensures Shows(heap, root, path) == Plainly(Shows(original, root, path))
  {
    var g :| RestoredAs(original, heap, root, g);
    CloneFieldsShowTheSame(original, heap, g, original[root].fields, path);
  }

  lemma SealedGrows(h: Heap, h': Heap, region: set<Ref>, clones: set<Ref>)
    requires Sealed(h, region) && Unchanged(h, h', h.Keys) && h'.Keys == h.Keys + clones
    requires Sealed(h', clones) && Closed(h', clones) && clones !! region && PlainClones(h', clones)
    ensures Sealed(h', region)
  {
    forall r | r in h' && r !in region ensures Outside(h'[r].fields, region) && Outside(h'[r].items, region) {
      if r in clones {
        assert PlainClone(h', r) && Within(Children(h'[r]), clones);
      } else {
        assert h'[r] == h[r];
      }
    }
  }

  /** A clone holds nothing but its children. */
  ghost predicate PlainClone(h: Heap, r: Ref)
  {
    && r in h && (h[r].fields == map[] || h[r].fields == Children(h[r]))
    && (h[r].items == map[] || h[r].items == Children(h[r]))
  }

  ghost predicate PlainClones(h: Heap, clones: set<Ref>) { forall r :: r in clones ==> PlainClone(h, r) }

  lemma ClonesArePlain(h: Heap, next: Ref, region: set<Ref>)
    requires region <= h.Keys && Below(h, next)
    ensures PlainClones(WithClones(h, region, next), Clones(region, next))
  {
    var h', clones := WithClones(h, region, next), Clones(region, next);
    forall s | s in clones ensures PlainClone(h', s) { CloneIsPlain(h, next, region, s); }
  }

  lemma CloneIsPlain(h: Heap, next: Ref, region: set<Ref>, s: Ref)
    requires region <= h.Keys && Below(h, next) && s in Clones(region, next)
    ensures PlainClone(WithClones(h, region, next), s)
  {
    CloneAt(h, region, next, s - next);
    ClonedIsPlain(h[s - next], FreshNames(region, next));
  }

  lemma ClonedIsPlain(n: Node, f: map<Ref, Ref>)
    ensures var c := Cloned(n, f);
      (c.fields == map[] || c.fields == Children(c)) && (c.items == map[] || c.items == Children(c))
  {
    assert n.kind.Leaf? ==> RenamedAll(Children(n), f) == map[];
  }

  /** The snapshot is a copy of ctx as it was, and no object outside it refers to an object of it. */
  ghost predicate Keeps(
      heap: Heap, next: Ref, root: Ref, snapshot: map<Key, Value>, original: Heap, names: map<Ref, Ref>)
  {
    && Heaped(heap, next) && root in heap && root in original && original.Keys <= heap.Keys
    && root !in names.Values && Closed(heap, names.Values) && Sealed(heap, names.Values)
    && Within(snapshot, names.Values)
    && CopyOf(original, heap, names) && Injective(names)
    && Within(original[root].fields, names.Keys) && snapshot == RenamedAll(original[root].fields, names)
  }

  /** A write of an object outside the snapshot, perhaps a new one, that refers to nothing in it. */
  lemma PutKeeps(
      heap: Heap, next: Ref, root: Ref, snapshot: map<Key, Value>, original: Heap, names: map<Ref, Ref>,
      r: Ref, node: Node, next': Ref)
    requires Keeps(heap, next, root, snapshot, original, names) && r !in names.Values && r < next' && next <= next'
    requires AllKnown(heap, node.fields) && AllKnown(heap, node.items)
    requires Outside(node.fields, names.Values) && Outside(node.items, names.Values)
    ensures Keeps(heap[r := node], next', root, snapshot, original, names)
  {
    CopyStays(original, heap, heap[r := node], names, names.Values);
    RegionStays(heap, heap[r := node], names.Values);
    PutInOrder(heap, next, names.Values, r, node, next');
  }

  lemma PutInOrder(heap: Heap, next: Ref, region: set<Ref>, r: Ref, node: Node, next': Ref)
    requires Heaped(heap, next) && Sealed(heap, region) && r < next' && next <= next'
    requires AllKnown(heap, node.fields) && AllKnown(heap, node.items)
    requires Outside(node.fields, region) && Outside(node.items, region)
    ensures Heaped(heap[r := node], next') && Sealed(heap[r := node], region)
  {
    var after := heap[r := node];
    forall s | s in after ensures AllKnown(after, after[s].fields) && AllKnown(after, after[s].items) {
      if s != r { assert AllKnown(heap, heap[s].fields) && AllKnown(heap, heap[s].items); }
    }
  }

  lemma CloneKeeps(
      heap: Heap, next: Ref, root: Ref, snapshot: map<Key, Value>, original: Heap, names: map<Ref, Ref>,
      heap': Heap, next': Ref, clones: set<Ref>)
    requires Keeps(heap, next, root, snapshot, original, names)
    requires Heaped(heap', next') && Unchanged(heap, heap', heap.Keys)
    requires heap'.Keys == heap.Keys + clones && clones !! heap.Keys
    requires Closed(heap', clones) && Sealed(heap', clones) && PlainClones(heap', clones)
    ensures Keeps(heap', next', root, snapshot, original, names)
  {
    CopyStays(original, heap, heap', names, names.Values);
    RegionStays(heap, heap', names.Values);
    SealedGrows(heap, heap', names.Values, clones);
  }

  class CloneCheckpoint {
    var heap: Heap
    var next: Ref
    const root: Ref
    var snapshot: map<Key, Value>
    ghost const original: Heap
    ghost var names: map<Ref, Ref>

    ghost predicate Valid()
      reads this
    {
      Keeps(heap, next, root, snapshot, original, names)
    }

    constructor (heap: Heap, next: Ref, root: Ref)
      requires Heaped(heap, next) && root in heap
      ensures Valid() && this.root == root && original == heap
      ensures Unchanged(heap, this.heap, heap.Keys)
    {
      this.heap, this.next, this.root, this.original := heap, next, root, heap;
      new;
      assert AllKnown(heap, heap[root].fields);
      snapshot, names := StructuredClone(heap[root].fields);
    }

    method StructuredClone(values: map<Key, Value>) returns (copy: map<Key, Value>, ghost names: map<Ref, Ref>)
      requires Heaped(heap, next) && AllKnown(heap, values)
      modifies this`heap, this`next
      ensures Heaped(heap, next) && heap.Keys == old(heap.Keys) + names.Values && names.Values !! old(heap.Keys)
      ensures Unchanged(old(heap), heap, old(heap.Keys))
      ensures Closed(heap, names.Values) && Sealed(heap, names.Values) && PlainClones(heap, names.Values)
      ensures CopyOf(old(heap), heap, names) && Injective(names) && Within(values, names.Keys)
      ensures copy == RenamedAll(values, names) && Within(copy, names.Values) && AllKnown(heap, copy)
    {
      var reached := ReachedFrom(heap, values);
      ClonesAreCopies(heap, next, reached);
      ClonesAreNew(heap, next, reached);
      ClonesAreWhole(heap, next, reached);
      ClonesAreSealed(heap, next, reached);
      ClonesArePlain(heap, next, reached);
      ClonedInside(heap, next, reached, values);
      names := FreshNames(reached, next);
      NamesOfClones(reached, next);
      copy := RenamedAll(values, FreshNames(reached, next));
      heap, next := WithClones(heap, reached, next), 2 * next;
    }

    /** A copy of the snapshot, which stays as it is. */
    method CloneSnapshot() returns (copy: map<Key, Value>, ghost more: map<Ref, Ref>)
      requires Valid()
      modifies this`heap, this`next
      ensures Valid() && Unchanged(old(heap), heap, old(heap.Keys))
      ensures CopyOf(old(heap), heap, more) && Injective(more) && Within(snapshot, more.Keys)
      ensures more.Values !! old(heap.Keys) && more.Values <= heap.Keys
      ensures copy == RenamedAll(snapshot, more) && Within(copy, more.Values) && AllKnown(heap, copy)
    {
      SnapshotIsKnown(heap, names.Values, snapshot);
      ghost var before, was := heap, next;
      copy, more := StructuredClone(snapshot);
      CloneKeeps(before, was, root, snapshot, original, names, heap, next, more.Values);
    }

    /** A restore of ctx in this state gets to its end. */
    ghost predicate CanAssign(ctx: Node)
      reads this
      requires Valid()
    {
      var was := original[root].fields;
      if ctx.frozen then was == map[] else ctx.open || was.Keys <= ctx.fields.Keys
    }

    /**
     * Whatever steps did since, what ctx leads to is a copy of what it led to at the checkpoint. If a step
     * froze ctx it stays as the step left it, and the restore fails unless it has nothing to assign. If ctx
     * takes no new keys and lost one, the restore fails on the way: of the keys it had ctx keeps those that
     * it still has.
     */
    method Restore() returns (ok: bool)
      requires Valid()
      modifies this`heap, this`next
      ensures Valid()
      ensures ok <==> old(CanAssign(heap[root]))
      ensures old(heap)[root].frozen ==> heap[root] == old(heap)[root]
      ensures !old(heap)[root].frozen && ok ==> Restored(original, heap, root)
      ensures !ok ==> heap[root].fields.Keys == if old(heap)[root].frozen then old(heap)[root].fields.Keys
        else old(heap)[root].fields.Keys * original[root].fields.Keys
      ensures forall r :: r in old(heap) && r != root ==> r in heap && heap[r] == old(heap)[r]
      ensures heap[root] == old(heap)[root].(fields := heap[root].fields)
    {
      ghost var before := heap;
      ghost var more;
      var copy;
      copy, more := CloneSnapshot();
      if heap[root].frozen {
        ok := copy == map[];
      } else {
        ok := Reassign(copy, before, more);
      }
    }

    method Reassign(copy: map<Key, Value>, ghost before: Heap, ghost more: map<Ref, Ref>) returns (ok: bool)
      requires Valid() && root in before && original.Keys <= before.Keys && names.Values <= before.Keys
      requires Unchanged(before, heap, before.Keys) && CopyOf(before, heap, more) && Injective(more)
      requires more.Values !! before.Keys && more.Values <= heap.Keys && Within(snapshot, more.Keys)
      requires copy == RenamedAll(snapshot, more) && Within(copy, more.Values) && AllKnown(heap, copy)
      modifies this`heap
      ensures Valid() && root in heap
      ensures heap == old(heap)[root := old(heap)[root].(fields := heap[root].fields)]
      ensures ok <==> old(heap)[root].open || copy.Keys <= old(heap)[root].fields.Keys
      ensures ok ==> Restored(original, heap, root)
      ensures !ok ==> heap[root].fields.Keys == old(heap)[root].fields.Keys * copy.Keys
    {
      var fields;
      ok, fields := Assign(heap[root].fields, heap[root].open, copy);
      if ok {
        AssignedRoot(before, heap, next, root, snapshot, original, names, more, fields);
      } else {
        HaltedRoot(before, heap, next, root, snapshot, original, names, copy, more.Values, fields);
      }
      heap := heap[root := heap[root].(fields := fields)];
    }

    /** Deletes the keys the copy lacks and assigns the others, in some order, up to one that cannot be added. */
    static method Assign(target: map<Key, Value>, open: bool, copy: map<Key, Value>)
      returns (ok: bool, fields: map<Key, Value>)
      ensures ok <==> open || copy.Keys <= target.Keys
      ensures ok ==> fields == copy
      ensures !ok ==> fields.Keys == target.Keys * copy.Keys
      ensures forall k :: k in fields ==> FromEither(target, copy, k, fields[k])
    {
      ok, fields := true, target;
      var todo := target.Keys;
      while todo != {}
        invariant todo <= target.Keys && fields.Keys == target.Keys * (copy.Keys + todo)
        invariant forall k :: k in fields ==> fields[k] == target[k]
        decreases todo
      {
        var k :| k in todo;
        if k !in copy { fields := fields - {k}; }
        todo := todo - {k};
      }
      todo := copy.Keys;
      while ok && todo != {}
        invariant todo <= copy.Keys && (ok ==> fields.Keys == target.Keys * copy.Keys + (copy.Keys - todo))
        invariant (!open && ok ==> copy.Keys - todo <= target.Keys)
        invariant !ok ==> !open && !(copy.Keys <= target.Keys) && fields.Keys == target.Keys * copy.Keys
        invariant forall k :: k in fields ==> FromEither(target, copy, k, fields[k])
        invariant ok ==> forall k :: k in copy && k !in todo ==> fields[k] == copy[k]
        decreases todo, ok
      {
        var k :| k in todo;
        if open || k in fields {
          fields := fields[k := copy[k]];
          todo := todo - {k};
        } else {
          ok := false;
        }
      }
    }

    /** A step writes an object it can reach: neither it nor what is written belongs to the snapshot. */
    method Write(r: Ref, node: Node)
      requires Valid() && r in heap && r !in names.Values
      requires AllKnown(heap, node.fields) && AllKnown(heap, node.items)
      requires Outside(node.fields, names.Values) && Outside(node.items, names.Values)
      modifies this`heap
      ensures Valid() && heap == old(heap)[r := node]
    {
      PutKeeps(heap, next, root, snapshot, original, names, r, node, next);
      heap := heap[r := node];
    }

    /** A step makes a new object. */
    method Allocate(node: Node) returns (r: Ref)
      requires Valid() && AllKnown(heap, node.fields) && AllKnown(heap, node.items)
      requires Outside(node.fields, names.Values) && Outside(node.items, names.Values)
      modifies this`heap, this`next
      ensures Valid() && r !in old(heap) && r !in names.Values && heap == old(heap)[r := node]
    {
      r := next;
      PutKeeps(heap, next, root, snapshot, original, names, r, node, next + 1);
      heap, next := heap[r := node], next + 1;
    }
  }

  /** The value of `k` is the one it had, or the copy's. */
  predicate FromEither(target: map<Key, Value>, copy: map<Key, Value>, k: Key, v: Value)
  {
    (k in target && v == target[k]) || (k in copy && v == copy[k])
  }

  datatype Taken = Refused | NothingToRestore | Restorer(checkpoint: CloneCheckpoint)

  /** `cloneCheckpoint`: it refuses what it could not restore, and a frozen ctx needs no restore. */
  method TakeCheckpoint(heap: Heap, next: Ref, root: Ref) returns (taken: Taken)
    requires Heaped(heap, next) && root in heap
    ensures taken.Refused? <==>
      heap[root].hidden || !Clean(Plain, heap, root) || (heap[root].frozen && !Clean(Immutable, heap, root))
    ensures !taken.Refused? ==> (taken.NothingToRestore? <==> heap[root].frozen)
    ensures taken.Restorer? ==>
      fresh(taken.checkpoint) && taken.checkpoint.Valid()
      && taken.checkpoint.original == heap && taken.checkpoint.root == root
  {
    var plain := AssertPlainGraph(heap, root);
    if !plain { return Refused; }
    if heap[root].frozen {
      var immutable := AllImmutable(heap, root);
      return if immutable then NothingToRestore else Refused;
    }
    var checkpoint := new CloneCheckpoint(heap, next, root);
    taken := Restorer(checkpoint);
  }

  /** The copy of the snapshot, the snapshot being a copy of ctx. */
  lemma RestoredTwice(
      original: Heap, before: Heap, heap: Heap, root: Ref, names: map<Ref, Ref>, more: map<Ref, Ref>)
    requires root in original && root in heap && original.Keys <= before.Keys
    requires CopyOf(original, before, names) && Injective(names) && Within(original[root].fields, names.Keys)
    requires CopyOf(before, heap, more) && Injective(more) && more.Values !! before.Keys
    requires var snapshot := RenamedAll(original[root].fields, names);
      Within(snapshot, more.Keys) && heap[root].fields == RenamedAll(snapshot, more)
    ensures Restored(original, heap, root)
  {
    var g := Composed(names, more);
    CopyCompose(original, before, heap, names, more);
    RenamedTwice(original[root].fields, names, more);
    assert g.Values <= more.Values;
    assert RestoredAs(original, heap, root, g);
  }

  lemma SnapshotIsKnown(h: Heap, region: set<Ref>, snapshot: map<Key, Value>)
    requires Closed(h, region) && Within(snapshot, region)
    ensures AllKnown(h, snapshot)
  {
  }

  lemma OutsideRegion(h: Heap, clones: set<Ref>, region: set<Ref>, values: map<Key, Value>)
    requires Within(values, clones) && clones !! region
    ensures Outside(values, region)
  {
  }

  /** ctx with part of the copy assigned to it. */
  lemma HaltedRoot(
      before: Heap, heap: Heap, next: Ref, root: Ref, snapshot: map<Key, Value>, original: Heap, names: map<Ref, Ref>,
      copy: map<Key, Value>, clones: set<Ref>, fields: map<Key, Value>)
    requires Keeps(heap, next, root, snapshot, original, names)
    requires names.Values <= before.Keys && clones !! before.Keys && Within(copy, clones) && AllKnown(heap, copy)
    requires forall k :: k in fields ==> FromEither(heap[root].fields, copy, k, fields[k])
    ensures Keeps(heap[root := heap[root].(fields := fields)], next, root, snapshot, original, names)
  {
    assert AllKnown(heap, heap[root].items) && Outside(heap[root].items, names.Values);
    assert AllKnown(heap, heap[root].fields) && Outside(heap[root].fields, names.Values);
    OutsideRegion(heap, clones, names.Values, copy);
    assert AllKnown(heap, fields) && Outside(fields, names.Values);
    PutKeeps(heap, next, root, snapshot, original, names, root, heap[root].(fields := fields), next);
  }

  /** ctx with the copy of the snapshot assigned to it. */
  lemma AssignedRoot(
      before: Heap, heap: Heap, next: Ref, root: Ref, snapshot: map<Key, Value>, original: Heap, names: map<Ref, Ref>,
      more: map<Ref, Ref>, fields: map<Key, Value>)
    requires Keeps(heap, next, root, snapshot, original, names) && root in before
    requires original.Keys <= before.Keys && Unchanged(before, heap, before.Keys) && names.Values <= before.Keys
    requires CopyOf(before, heap, more) && Injective(more) && more.Values !! before.Keys && more.Values <= heap.Keys
    requires Within(snapshot, more.Keys) && fields == RenamedAll(snapshot, more)
    requires Within(fields, more.Values) && AllKnown(heap, fields)
    ensures var node := heap[root].(fields := fields);
      && Keeps(heap[root := node], next, root, snapshot, original, names)
      && Restored(original, heap[root := node], root)
  {
    var node := heap[root].(fields := fields);
    var after := heap[root := node];
    assert AllKnown(heap, heap[root].items) && Outside(heap[root].items, names.Values);
    OutsideRegion(heap, more.Values, names.Values, fields);
    PutKeeps(heap, next, root, snapshot, original, names, root, node, next);
    CopyStays(before, heap, after, more, more.Values);
    CopyStays(original, heap, before, names, names.Values);
    RestoredTwice(original, before, after, root, names, more);
  }
}
