/**
 * When a frozen ctx needs no restore (src/saga/retry-policy.ts): if and only if the search finds nothing
 * mutable under it and ctx is not itself a Map, a Set, a Date or the like, which the search passes over.
 */
module CheckpointLimits {
  import opened Common
  import opened ObjectGraph
  import opened Checkpoint

  /**
   * A step changes what it can: a frozen object keeps its own properties, a frozen container not its
   * contents, and an object that takes no new keys gets none.
   */
  ghost predicate LegalChange(h: Heap, h': Heap)
  {
    forall r :: r in h ==> r in h' && ChangesLegally(h[r], h'[r])
  }

  predicate ChangesLegally(n: Node, n': Node)
  {
    && (n.frozen ==> if Container(n) then n'.frozen && n'.fields == n.fields else n' == n)
    && (!n.open ==> !n'.open && n'.fields.Keys <= n.fields.Keys)
  }

  /** An object that takes no new keys and has none is frozen, but for an array, whose length can be changed. */
  ghost predicate FrozenWhenClosed(h: Heap)
  {
    forall r :: r in h ==> ClosedIsFrozen(h[r])
  }

  predicate ClosedIsFrozen(n: Node)
  {
    !n.open && n.fields == map[] && !Container(n) && !n.kind.ArrayObject? ==> n.frozen
  }

  predicate FrozenRoot(h: Heap, root: Ref)
  {
    root in h && h[root].frozen && !Container(h[root])
  }

  /** Where a walk under a frozen root can go from its end by a value of it, and that it cannot change there. */
  lemma FrozenFurther(h: Heap, h': Heap, root: Ref, walk: seq<Ref>, r: Ref) returns (further: seq<Ref>)
    requires WellFormed(h) && FrozenRoot(h, root) && Clean(Immutable, h, root) && LegalChange(h, h')
    requires Walk(Immutable, h, root, walk) && walk[|walk| - 1] in h
    requires Object(r) in h[walk[|walk| - 1]].fields.Values
    ensures Walk(Immutable, h, root, further) && further[|further| - 1] == r
    ensures r in h && r in h' && h'[r] == h[r] && !Container(h[r])
  {
    assert AllKnown(h, h[walk[|walk| - 1]].fields);
    further := if r == root then [root] else walk + [r];
    if r != root {
      assert further[..|further| - 1] == walk && Edge(Immutable, h, root, walk[|walk| - 1], r);
      assert Walk(Immutable, h, root, further);
      assert CleanNode(Immutable, h, root, further[|further| - 1]);
    }
    assert ChangesLegally(h[r], h'[r]);
  }

  lemma {:induction false} FrozenPath(h: Heap, h': Heap, root: Ref, walk: seq<Ref>, v: Value, path: seq<Key>)
    requires WellFormed(h) && FrozenRoot(h, root) && Clean(Immutable, h, root) && LegalChange(h, h')
    requires Walk(Immutable, h, root, walk) && walk[|walk| - 1] in h && v in h[walk[|walk| - 1]].fields.Values
    ensures FaceOf(h', FindAt(h', v, path)) == FaceOf(h, FindAt(h, v, path))
    decreases |path|
  {
    if v.Object? {
      var further := FrozenFurther(h, h', root, walk, v.ref);
      if |path| > 0 && path[0] in h[v.ref].fields {
        FrozenPath(h, h', root, further, h[v.ref].fields[path[0]], path[1..]);
      }
    }
  }

  lemma FrozenNeverChanges(h: Heap, h': Heap, root: Ref, path: seq<Key>)
    requires WellFormed(h) && FrozenRoot(h, root) && Clean(Immutable, h, root) && LegalChange(h, h') && |path| > 0
    ensures Shows(h', root, path) == Shows(h, root, path)
  {
    if path[0] in h[root].fields { FrozenPath(h, h', root, [root], h[root].fields[path[0]], path[1..]); }
  }

  lemma {:induction false} FindFurther(h: Heap, v: Value, path: seq<Key>, r: Ref, k: Key)
    requires FindAt(h, v, path) == Some(Object(r)) && r in h && k in Children(h[r])
    ensures FindAt(h, v, path + [k]) == Some(Children(h[r])[k])
    decreases |path|
  {
    if |path| > 0 {
      assert (path + [k])[0] == path[0] && (path + [k])[1..] == path[1..] + [k];
      FindFurther(h, Children(h[v.ref])[path[0]], path[1..], r, k);
    } else {
      assert path + [k] == [k] && [k][1..] == [];
    }
  }

  /** Every object of the walk but its last passes. */
  ghost predicate FirstBreak(h: Heap, root: Ref, walk: seq<Ref>)
  {
    && Walk(Immutable, h, root, walk) && |walk| > 1
    && walk[|walk| - 1] in h && !Passes(Immutable, h[walk[|walk| - 1]])
    && forall i :: 0 < i < |walk| - 1 ==> PassesAt(h, walk[i])
  }

  predicate PassesAt(h: Heap, r: Ref) { r in h && Passes(Immutable, h[r]) }

  lemma {:induction false} SomeFirstBreak(h: Heap, root: Ref, walk: seq<Ref>) returns (first: seq<Ref>)
    requires Breaks(Immutable, h, root, walk)
    ensures FirstBreak(h, root, first)
  {
    WalkStaysInHeap(Immutable, h, root, walk);
    var n := |walk|;
    if i :| 0 < i < n - 1 && !PassesAt(h, walk[i]) {
      WalkPrefix(h, root, walk, i + 1);
      WalkStaysInHeap(Immutable, h, root, walk[..i + 1]);
      first := SomeFirstBreak(h, root, walk[..i + 1]);
    } else {
      first := walk;
    }
  }

  lemma {:induction false} WalkPrefix(h: Heap, root: Ref, walk: seq<Ref>, n: nat)
    requires Walk(Immutable, h, root, walk) && 0 < n <= |walk|
    ensures Walk(Immutable, h, root, walk[..n]) && (n > 1 ==> walk[n - 1] != root)
    decreases |walk|
  {
    if n < |walk| {
      WalkPrefix(h, root, walk[..|walk| - 1], n);
      assert walk[..|walk| - 1][..n] == walk[..n];
    } else {
      assert walk[..n] == walk;
    }
  }

  /** The keys along a walk whose inner objects are no containers, in any heap that agrees on those. */
  lemma {:induction false} WalkIsFound(h: Heap, h': Heap, root: Ref, walk: seq<Ref>) returns (path: seq<Key>)
    requires FrozenRoot(h, root) && Walk(Immutable, h, root, walk) && |walk| > 1 && root in h' && h'[root] == h[root]
    requires forall i :: 0 < i < |walk| - 1 ==> PassesAt(h, walk[i]) && walk[i] in h' && h'[walk[i]] == h[walk[i]]
    ensures |path| > 0
    ensures FindIn(h, h[root].fields, path) == FindIn(h', h'[root].fields, path) == Some(Object(walk[|walk| - 1]))
    decreases |walk|
  {
    var n := |walk|;
    var before, last := walk[n - 2], walk[n - 1];
    assert Edge(Immutable, h, root, before, last);
    var k :| k in h[before].fields && h[before].fields[k] == Object(last);
    if n == 2 {
      path := [k];
      assert path[1..] == [];
      WalkStaysInHeap(Immutable, h, root, walk[..1]);
    } else {
      var init := walk[..n - 1];
      assert forall i :: 0 < i < n - 1 ==> init[i] == walk[i];
      WalkPrefix(h, root, walk, n - 1);
      assert PassesAt(h, before) && Children(h[before]) == h[before].fields;
      var shorter := WalkIsFound(h, h', root, init);
      path := shorter + [k];
      FindFurther(h, h[root].fields[shorter[0]], shorter[1..], before, k);
      FindFurther(h', h[root].fields[shorter[0]], shorter[1..], before, k);
      assert path[0] == shorter[0] && path[1..] == shorter[1..] + [k];
    }
  }

  /** A change that shows: the data of a leaf, the keys of anything else, or the length of an array. */
  function Changed(n: Node): Node
  {
    match n.kind
    case Leaf(data) => n.(kind := Leaf(data + 1))
    case MapObject => n.(items := Toggled(n.items))
    case SetObject => n.(items := Toggled(n.items))
    case ArrayObject(length) =>
      if n.open || n.fields != map[] then WithOtherKeys(n) else n.(kind := ArrayObject(length + 1))
    case _ => WithOtherKeys(n)
  }

  function WithOtherKeys(n: Node): Node
  {
    n.(fields := if n.open then Toggled(n.fields) else map[])
  }

  lemma ChangedLegally(h: Heap, r: Ref)
    requires r in h && (h[r].frozen ==> Container(h[r]))
    ensures LegalChange(h, h[r := Changed(h[r])])
  {
  }

  lemma SomethingChanges(h: Heap, root: Ref) returns (h': Heap, path: seq<Key>)
    requires WellFormed(h) && FrozenWhenClosed(h) && FrozenRoot(h, root) && !Clean(Immutable, h, root)
    ensures LegalChange(h, h') && |path| > 0 && root in h' && Shows(h', root, path) != Shows(h, root, path)
  {
    var walk :| Walk(Immutable, h, root, walk) && !CleanNode(Immutable, h, root, walk[|walk| - 1]);
    walk := SomeFirstBreak(h, root, walk);
    var r := walk[|walk| - 1];
    h' := h[r := Changed(h[r])];
    ChangedLegally(h, r);
    forall i | 0 < i < |walk| - 1 ensures PassesAt(h, walk[i]) && walk[i] in h' && h'[walk[i]] == h[walk[i]] {
      assert PassesAt(h, walk[i]);
    }
    path := WalkIsFound(h, h', root, walk);
    ChangeShows(h[r]);
  }

  lemma ChangeShows(n: Node)
    requires ClosedIsFrozen(n) && (n.frozen ==> Container(n))
    ensures Changed(n).kind != n.kind || Children(Changed(n)).Keys != Children(n).Keys
  {
  }

  /** Every path from ctx, through its contents or its own fields, shows what it showed. */
  ghost predicate LooksAsBefore(h: Heap, h': Heap, root: Ref, path: seq<Key>)
  {
    && root in h && root in h'
    && FaceOf(h', FindAt(h', Object(root), path)) == FaceOf(h, FindAt(h, Object(root), path))
    && (|path| > 0 ==> Shows(h', root, path) == Shows(h, root, path))
  }

  /** A frozen container can still change its contents. */
  lemma ContainerChanges(h: Heap, root: Ref) returns (h': Heap)
    requires root in h && Container(h[root])
    ensures LegalChange(h, h') && !LooksAsBefore(h, h', root, [])
  {
    h' := h[root := Changed(h[root])];
    ChangeShows(h[root]);
    assert FindAt(h', Object(root), []) == Some(Object(root)) == FindAt(h, Object(root), []);
  }

  /**
   * No legal change can be seen from a frozen ctx if and only if the search finds nothing mutable under
   * it and ctx itself is no container. The code does not look at the second condition.
   */
  lemma ImmutableExactly(h: Heap, root: Ref)
    requires WellFormed(h) && FrozenWhenClosed(h) && root in h && h[root].frozen
    ensures Clean(Immutable, h, root) && !Container(h[root]) <==>
      forall h', path :: LegalChange(h, h') ==> LooksAsBefore(h, h', root, path)
  {
    if Container(h[root]) {
      var h' := ContainerChanges(h, root);
      assert !LooksAsBefore(h, h', root, []);
    } else if Clean(Immutable, h, root) {
      forall h', path | LegalChange(h, h') ensures LooksAsBefore(h, h', root, path) {
        assert ChangesLegally(h[root], h'[root]);
        if |path| > 0 { FrozenNeverChanges(h, h', root, path); }
      }
    } else {
      var h', path := SomethingChanges(h, root);
      assert !LooksAsBefore(h, h', root, path);
    }
  }

  /** An accepted ctx that is not restored although a step can change it: a frozen Map. */
  lemma FrozenMapCanChange()
    ensures var h := map[0 := Node(MapObject, true, false, false, false, map[], map[])];
      && WellFormed(h) && !h[0].hidden && Clean(Plain, h, 0) && Clean(Immutable, h, 0)
      && exists h' :: LegalChange(h, h') && !LooksAsBefore(h, h', 0, [])
  {
    var h := map[0 := Node(MapObject, true, false, false, false, map[], map[])];
    forall rule, path | Walk(rule, h, 0, path) ensures CleanNode(rule, h, 0, path[|path| - 1]) {
      NowhereToWalk(rule, h, 0, path);
    }
    var h' := ContainerChanges(h, 0);
  }
}
