/**
 * When a restore brings ctx back (src/saga/retry-policy.ts), whatever a step did: as an object graph, up
 * to the identity of the objects below ctx. What the searches accept is not always brought back, and the
 * exact condition is given.
 */
module RestoreLimits {
  import opened Common
  import opened ObjectGraph
  import opened Checkpoint

  // ---- The same graph under other names.

  function RenamedNode(n: Node, f: map<Ref, Ref>): Node
  {
    n.(fields := RenamedAll(n.fields, f), items := RenamedAll(n.items, f))
  }

  ghost predicate IsoAt(h: Heap, h': Heap, f: map<Ref, Ref>, r: Ref)
  {
    && r in f && r in h && f[r] in h'
    && Within(h[r].fields, f.Keys) && Within(h[r].items, f.Keys)
    && h'[f[r]] == RenamedNode(h[r], f)
  }

  /** `f` keeps ctx and renames all it leads to, one to one: kinds, keys, sharing and what is frozen are the same. */
  ghost predicate Isomorphism(h: Heap, h': Heap, root: Ref, f: map<Ref, Ref>)
  {
    && root in f && f[root] == root && Injective(f)
    && forall r :: r in f ==> IsoAt(h, h', f, r)
  }

  /** ctx is what it was. */
  ghost predicate SameGraph(h: Heap, h': Heap, root: Ref)
  {
    exists f :: Isomorphism(h, h', root, f)
  }

  // ---- What steps and a restore can make of ctx.

  /** State that is no own property: a restore of ctx does not touch it. */
  predicate Stateful(n: Node) { Container(n) || n.kind.ArrayObject? }

  /** The same class of object; the length of an array and the data of a leaf are state. */
  predicate SameKind(k: Kind, k': Kind)
  {
    k' == k || (k.ArrayObject? && k'.ArrayObject?) || (k.Leaf? && k'.Leaf?)
  }

  /** A step changes neither the class of ctx nor freezes or closes it nor gives it hidden properties. */
  predicate SameClass(n: Node, n': Node)
  {
    && n' == n.(kind := n'.kind, fields := n'.fields, items := n'.items) && SameKind(n.kind, n'.kind)
    && (n.kind.MapObject? || n.kind.SetObject? || n'.items == n.items)
  }

  /** The restore failed on the way: ctx takes no new keys, and a step had deleted some that it had. */
  ghost predicate Halted(h: Heap, h': Heap, root: Ref)
  {
    root in h && root in h' && !h[root].open && h'[root].fields.Keys < h[root].fields.Keys
  }

  /** `h'` may be the graph after steps ran from `h` and a restore followed. */
  ghost predicate AfterRestore(h: Heap, h': Heap, root: Ref)
  {
    (Restored(h, h', root) || Halted(h, h', root)) && SameClass(h[root], h'[root])
  }

  // ---- The condition.

  /** A clone carries all there is of the object. */
  predicate KeptByClone(n: Node)
  {
    !n.frozen && n.open && !n.extras && (Container(n) ==> !n.hidden && n.fields == map[])
  }

  predicate RefersTo(values: map<Key, Value>, root: Ref) { Object(root) in values.Values }

  ghost predicate Sturdy(h: Heap, root: Ref, r: Ref)
  {
    r in h && !RefersTo(InsideFrom(Plain, h, root, r), root) && (r != root ==> KeptByClone(h[r]))
  }

  /**
   * ctx is a plain object or a class instance that takes new keys or has none, nothing it leads to refers
   * back to it, and everything below it is carried by a clone: not frozen, taking new keys, and without
   * properties of its own on a Map, a Set or a Leaf.
   */
  ghost predicate Restorable(h: Heap, root: Ref)
  {
    && root in h && !Stateful(h[root]) && (h[root].open || h[root].fields == map[])
    && forall path :: Walk(Plain, h, root, path) ==> Sturdy(h, root, path[|path| - 1])
  }

  /** What a clone checkpoint accepts and restores. */
  ghost predicate Accepted(h: Heap, root: Ref)
  {
    WellFormed(h) && Shaped(h) && root in h && !h[root].hidden && !h[root].frozen && Clean(Plain, h, root)
  }

  /** Only a Map or a Set has contents besides its own properties. */
  ghost predicate Shaped(h: Heap)
  {
    forall r :: r in h && !h[r].kind.MapObject? && !h[r].kind.SetObject? ==> h[r].items == map[]
  }

  // ---- Restored, if the condition holds.

  ghost predicate Reached(h: Heap, root: Ref, r: Ref)
  {
    exists path :: ReachedBy(h, root, path, r)
  }

  ghost predicate ReachedBy(h: Heap, root: Ref, path: seq<Ref>, r: Ref)
  {
    Walk(Plain, h, root, path) && path[|path| - 1] == r
  }

  lemma ReachedFurther(h: Heap, root: Ref, r: Ref, s: Ref)
    requires WellFormed(h) && Reached(h, root, r) && r in h && RefersTo(InsideFrom(Plain, h, root, r), s) && s != root
    ensures Reached(h, root, s)
  {
    AllKnownInside(h, Plain, root, r);
    var path :| ReachedBy(h, root, path, r);
    assert (path + [s])[..|path|] == path;
    assert Edge(Plain, h, root, r, s);
    assert ReachedBy(h, root, path + [s], s);
  }

  /** The renaming of a restore, on what ctx leads to. */
  ghost function Renaming(h: Heap, root: Ref, g: map<Ref, Ref>): map<Ref, Ref>
  {
    (map r | r in g && Reached(h, root, r) && r != root :: g[r])[root := root]
  }

  lemma SameRenamed(h: Heap, root: Ref, g: map<Ref, Ref>, r: Ref)
    requires WellFormed(h) && r in h && Reached(h, root, r) && Sturdy(h, root, r)
    requires Within(InsideFrom(Plain, h, root, r), g.Keys)
    ensures var values, f := InsideFrom(Plain, h, root, r), Renaming(h, root, g);
      RenamedAll(values, f) == RenamedAll(values, g) && Within(values, f.Keys)
  {
    var values, f := InsideFrom(Plain, h, root, r), Renaming(h, root, g);
    forall k | k in values
      ensures Renamed(values[k], f) == Renamed(values[k], g) && (values[k].Object? ==> values[k].ref in f)
    {
      if values[k].Object? {
        assert values[k] in values.Values;
        ReachedFurther(h, root, r, values[k].ref);
      }
    }
  }

  lemma RootIsSame(h: Heap, h': Heap, root: Ref, g: map<Ref, Ref>)
    requires Accepted(h, root) && Restorable(h, root) && RestoredAs(h, h', root, g) && SameClass(h[root], h'[root])
    ensures IsoAt(h, h', Renaming(h, root, g), root)
  {
    assert ReachedBy(h, root, [root], root);
    assert Sturdy(h, root, [root][0]);
    SameRenamed(h, root, g, root);
  }

  lemma OtherIsSame(h: Heap, h': Heap, root: Ref, g: map<Ref, Ref>, r: Ref)
    requires Accepted(h, root) && Restorable(h, root) && RestoredAs(h, h', root, g)
    requires r in g && r != root && Reached(h, root, r)
    ensures IsoAt(h, h', Renaming(h, root, g), r)
  {
    var path :| ReachedBy(h, root, path, r);
    assert Sturdy(h, root, path[|path| - 1]) && CleanNode(Plain, h, root, path[|path| - 1]);
    assert CopyAt(h, h', g, r);
    SameRenamed(h, root, g, r);
  }

  lemma RestoresAll(h: Heap, h': Heap, root: Ref)
    requires Accepted(h, root) && Restorable(h, root) && AfterRestore(h, h', root)
    ensures SameGraph(h, h', root)
  {
    var g :| RestoredAs(h, h', root, g);
    var f := Renaming(h, root, g);
    RootIsSame(h, h', root, g);
    forall r | r in f ensures IsoAt(h, h', f, r) {
      if r != root { OtherIsSame(h, h', root, g, r); }
    }
    assert Isomorphism(h, h', root, f);
  }

  // ---- Not restored, if it does not.

  /** Along a walk an isomorphism can only rename as the restore did. */
  lemma {:induction false} SameNames(h: Heap, h': Heap, root: Ref, f: map<Ref, Ref>, g: map<Ref, Ref>, path: seq<Ref>)
    requires WellFormed(h) && Isomorphism(h, h', root, f) && RestoredAs(h, h', root, g) && Walk(Plain, h, root, path)
    ensures var r := path[|path| - 1]; r in f && r in h && (r != root ==> r in g && f[r] == g[r])
    decreases |path|
  {
    if |path| > 1 {
      var before, r := path[|path| - 2], path[|path| - 1];
      SameNames(h, h', root, f, g, path[..|path| - 1]);
      var values := InsideFrom(Plain, h, root, before);
      var k :| k in values && values[k] == Object(r);
      SameInside(h, h', root, f, g, before, k);
    }
  }

  lemma SameInside(h: Heap, h': Heap, root: Ref, f: map<Ref, Ref>, g: map<Ref, Ref>, r: Ref, k: Key)
    requires WellFormed(h) && Isomorphism(h, h', root, f) && RestoredAs(h, h', root, g)
    requires r in f && r in h && (r != root ==> r in g && f[r] == g[r])
    requires k in InsideFrom(Plain, h, root, r) && InsideFrom(Plain, h, root, r)[k].Object?
    ensures var s := InsideFrom(Plain, h, root, r)[k].ref; s in h && s in f && s in g && f[s] == g[s]
  {
    AllKnownInside(h, Plain, root, r);
    var values := InsideFrom(Plain, h, root, r);
    assert IsoAt(h, h', f, r);
    if r == root {
      assert RenamedAll(values, f)[k] == RenamedAll(values, g)[k];
    } else {
      assert CopyAt(h, h', g, r) && Within(Children(h[r]), g.Keys);
      assert Children(h'[f[r]]) == RenamedAll(values, f) == RenamedAll(values, g);
      assert RenamedAll(values, f)[k] == RenamedAll(values, g)[k];
    }
  }

  /** No restore brings back a reference to ctx itself, or an object that a clone does not carry whole. */
  lemma NeverRestored(h: Heap, h': Heap, root: Ref, path: seq<Ref>)
    requires Accepted(h, root) && Restored(h, h', root)
    requires Walk(Plain, h, root, path) && !Sturdy(h, root, path[|path| - 1])
    ensures !SameGraph(h, h', root)
  {
    var g :| RestoredAs(h, h', root, g);
    var r := path[|path| - 1];
    forall f ensures !Isomorphism(h, h', root, f) {
      if Isomorphism(h, h', root, f) {
        SameNames(h, h', root, f, g, path);
        SturdyAfterAll(h, h', root, f, g, r);
      }
    }
  }

  lemma SturdyAfterAll(h: Heap, h': Heap, root: Ref, f: map<Ref, Ref>, g: map<Ref, Ref>, r: Ref)
    requires Accepted(h, root) && Isomorphism(h, h', root, f) && RestoredAs(h, h', root, g)
    requires r in f && r in h && (r != root ==> r in g && f[r] == g[r])
    ensures Sturdy(h, root, r)
  {
    var values := InsideFrom(Plain, h, root, r);
    forall k | k in values && values[k] == Object(root) ensures false {
      SameInside(h, h', root, f, g, r, k);
    }
    if r != root {
      assert IsoAt(h, h', f, r) && CopyAt(h, h', g, r);
      KeptByItself(h[r], f, g);
    }
  }

  lemma KeptByItself(n: Node, f: map<Ref, Ref>, g: map<Ref, Ref>)
    requires RenamedNode(n, f) == Cloned(n, g)
    ensures KeptByClone(n)
  {
    assert RenamedAll(n.fields, f).Keys == n.fields.Keys;
    if Container(n) { assert RenamedAll(n.fields, f) == map[]; }
  }

  /** A change of ctx that no restore undoes. */
  function Moved(n: Node): Node
  {
    n.(kind := MovedKind(n.kind), items := if n.kind.MapObject? || n.kind.SetObject? then Toggled(n.items) else n.items)
  }

  function MovedKind(k: Kind): (moved: Kind)
    ensures SameKind(k, moved)
  {
    match k
    case Leaf(data) => Leaf(data + 1)
    case ArrayObject(length) => ArrayObject(length + 1)
    case _ => k
  }

  /** A copy of everything there is. */
  lemma AllCopied(h: Heap, next: Ref)
    requires Heaped(h, next)
    ensures var h', g := WithClones(h, h.Keys, next), FreshNames(h.Keys, next);
      CopyOf(h, h', g) && Injective(g) && g.Values !! h.Keys && h.Keys <= h'.Keys
  {
    forall r | r in h ensures Within(Children(h[r]), h.Keys) {
      assert AllKnown(h, h[r].fields) && AllKnown(h, h[r].items);
    }
    ClonesAreCopies(h, next, h.Keys);
    ClonesAreNew(h, next, h.Keys);
    NamesOfClones(h.Keys, next);
  }

  /** There is always an outcome: ctx restored after steps that did nothing. */
  lemma SomeRestore(h: Heap, next: Ref, root: Ref) returns (h': Heap)
    requires Heaped(h, next) && Accepted(h, root)
    ensures AfterRestore(h, h', root) && Restored(h, h', root)
  {
    var copies, g := WithClones(h, h.Keys, next), FreshNames(h.Keys, next);
    AllCopied(h, next);
    h' := copies[root := h[root].(fields := RenamedAll(h[root].fields, g))];
    CopyStays(h, copies, h', g, g.Values);
    assert AllKnown(h, h[root].fields);
    assert RestoredAs(h, h', root, g);
  }

  /** An outcome in which a step changed what a restore does not touch. */
  lemma MovedRoot(h: Heap, next: Ref, root: Ref) returns (h': Heap)
    requires Heaped(h, next) && Accepted(h, root) && Stateful(h[root])
    ensures AfterRestore(h, h', root) && !SameGraph(h, h', root)
    ensures h'[root].kind == Moved(h[root]).kind && h'[root].items == Moved(h[root]).items
  {
    var same := SomeRestore(h, next, root);
    var g :| RestoredAs(h, same, root, g);
    var node := Moved(h[root]).(fields := same[root].fields);
    h' := same[root := node];
    RestoredRoot(h, same, root, g, node);
    MovedIsLost(h, h', root);
  }

  /** A restore leaves all of ctx but its fields as the steps left it. */
  lemma RestoredRoot(h: Heap, same: Heap, root: Ref, g: map<Ref, Ref>, node: Node)
    requires RestoredAs(h, same, root, g) && node.fields == same[root].fields
    ensures RestoredAs(h, same[root := node], root, g)
  {
    CopyStays(h, same, same[root := node], g, g.Values);
  }

  lemma MovedIsLost(h: Heap, h': Heap, root: Ref)
    requires root in h && Stateful(h[root])
    requires root in h' && h'[root].kind == Moved(h[root]).kind && h'[root].items == Moved(h[root]).items
    ensures !SameGraph(h, h', root)
  {
    forall f ensures !Isomorphism(h, h', root, f) {
      MovedDiffers(h[root], f);
      assert IsoAt(h, h', f, root) ==> h'[root].kind == h[root].kind || !(root in f && f[root] == root);
    }
  }

  lemma MovedDiffers(n: Node, f: map<Ref, Ref>)
    requires Stateful(n)
    ensures Moved(n).kind != n.kind || Moved(n).items != RenamedAll(n.items, f)
  {
    assert RenamedAll(n.items, f).Keys == n.items.Keys;
  }

  /** A ctx that takes no new keys does not get back what a step deleted. */
  lemma HaltedIsLost(h: Heap, root: Ref) returns (h': Heap)
    requires root in h && !h[root].open && h[root].fields != map[]
    ensures AfterRestore(h, h', root) && !SameGraph(h, h', root)
  {
    h' := h[root := h[root].(fields := map[])];
    forall f ensures !Isomorphism(h, h', root, f) {
      assert RenamedAll(h[root].fields, f).Keys == h[root].fields.Keys;
      assert IsoAt(h, h', f, root) ==> h'[root] == RenamedNode(h[root], f) || !(root in f && f[root] == root);
    }
  }

  /**
   * Whatever steps did, a restore brings an accepted ctx back, as a graph, if and only if ctx is a plain
   * object or a class instance that takes new keys or has none, nothing below it refers back to it, and
   * nothing below it is frozen, closed to new keys or has something that a clone does not carry.
   */
  lemma RestoresExactly(h: Heap, next: Ref, root: Ref)
    requires Heaped(h, next) && Accepted(h, root)
    ensures Restorable(h, root) <==> forall h' :: AfterRestore(h, h', root) ==> SameGraph(h, h', root)
  {
    if Restorable(h, root) {
      forall h' | AfterRestore(h, h', root) ensures SameGraph(h, h', root) { RestoresAll(h, h', root); }
    } else if Stateful(h[root]) {
      var h' := MovedRoot(h, next, root);
    } else if !h[root].open && h[root].fields != map[] {
      var h' := HaltedIsLost(h, root);
    } else {
      var path :| Walk(Plain, h, root, path) && !Sturdy(h, root, path[|path| - 1]);
      var h' := SomeRestore(h, next, root);
      NeverRestored(h, h', root, path);
    }
  }

  // ---- Three inputs that are accepted and not brought back.

  function Plainest(fields: map<Key, Value>): Node { Node(PlainObject, false, true, false, false, fields, map[]) }

  function SelfReferring(): Heap { map[0 := Plainest(map["self" := Object(0), "n" := Primitive(0)])] }

  function WithN(h: Heap, n: int): Heap
    requires 0 in h
  {
    h[0 := h[0].(fields := h[0].fields["n" := Primitive(n)])]
  }

  /** What `ctx.self.n` is. */
  function SelfN(h: Heap): Option<Value>
    requires 0 in h
  {
    FindIn(h, h[0].fields, ["self", "n"])
  }

  lemma SelfReferringAccepted()
    ensures Accepted(SelfReferring(), 0) && Walk(Plain, SelfReferring(), 0, [0]) && !Sturdy(SelfReferring(), 0, 0)
  {
    var h := SelfReferring();
    forall path | Walk(Plain, h, 0, path) ensures CleanNode(Plain, h, 0, path[|path| - 1]) {
      NowhereToWalk(Plain, h, 0, path);
    }
    assert h[0].fields["self"] in h[0].fields.Values;
  }

  /** `ctx.self === ctx`: after a restore `ctx.self` is another object, which does not see a write of `ctx.n`. */
  lemma SelfReferenceIsLost(h': Heap)
    requires Restored(SelfReferring(), h', 0)
    ensures Accepted(SelfReferring(), 0) && !SameGraph(SelfReferring(), h', 0)
    ensures SelfN(WithN(SelfReferring(), 1)) == Some(Primitive(1)) && SelfN(WithN(h', 1)) == Some(Primitive(0))
  {
    var h := SelfReferring();
    SelfReferringAccepted();
    NeverRestored(h, h', 0, [0]);
    var g :| RestoredAs(h, h', 0, g);
    assert ["self", "n"][1..] == ["n"] && ["n"][1..] == [];
    TwinKeepsN(h', g);
  }

  lemma TwinKeepsN(h': Heap, g: map<Ref, Ref>)
    requires RestoredAs(SelfReferring(), h', 0, g)
    ensures SelfN(WithN(h', 1)) == Some(Primitive(0))
  {
    assert SelfReferring()[0].fields["self"] == Object(0);
    assert CopyAt(SelfReferring(), h', g, 0);
    var twin := g[0];
    assert twin in g.Values && twin != 0;
    assert ["self", "n"][1..] == ["n"] && ["n"][1..] == [];
    assert h'[0].fields["self"] == Object(twin) && h'[twin].fields["n"] == Primitive(0);
  }

  function FrozenBelow(): Heap
  {
    map[0 := Plainest(map["config" := Object(1)]), 1 := Plainest(map["n" := Primitive(0)]).(frozen := true)]
  }

  lemma {:induction false} FrozenBelowWalks(path: seq<Ref>)
    requires Walk(Plain, FrozenBelow(), 0, path)
    ensures path == [0] || path == [0, 1]
    decreases |path|
  {
    if |path| > 1 { FrozenBelowWalks(path[..|path| - 1]); }
  }

  lemma FrozenBelowAccepted()
    ensures Accepted(FrozenBelow(), 0) && Walk(Plain, FrozenBelow(), 0, [0, 1]) && !Sturdy(FrozenBelow(), 0, 1)
  {
    var h := FrozenBelow();
    forall path | Walk(Plain, h, 0, path) ensures CleanNode(Plain, h, 0, path[|path| - 1]) { FrozenBelowWalks(path); }
    assert h[0].fields["config"] in h[0].fields.Values;
    assert [0, 1][..1] == [0] && Walk(Plain, h, 0, [0]) && Edge(Plain, h, 0, 0, 1);
  }

  /** A frozen object below ctx can be written after a restore. */
  lemma NestedFrozenThaws(h': Heap)
    requires Restored(FrozenBelow(), h', 0)
    ensures Accepted(FrozenBelow(), 0) && !SameGraph(FrozenBelow(), h', 0)
    ensures var config := h'[0].fields["config"]; config.Object? && config.ref in h' && !h'[config.ref].frozen
  {
    var h := FrozenBelow();
    FrozenBelowAccepted();
    NeverRestored(h, h', 0, [0, 1]);
    var g :| RestoredAs(h, h', 0, g);
    assert CopyAt(h, h', g, 1);
  }

  /** An array as ctx keeps the length that a step gave it. */
  lemma ArrayKeepsLength()
    ensures var h: Heap := map[0 := Plainest(map[]).(kind := ArrayObject(0))];
      && Accepted(h, 0)
      && exists h': Heap :: AfterRestore(h, h', 0) && h'[0].kind == ArrayObject(1) && !SameGraph(h, h', 0)
  {
    var h: Heap := map[0 := Plainest(map[]).(kind := ArrayObject(0))];
    forall path | Walk(Plain, h, 0, path) ensures CleanNode(Plain, h, 0, path[|path| - 1]) {
      NowhereToWalk(Plain, h, 0, path);
    }
    var h' := MovedRoot(h, 1, 0);
  }
}
