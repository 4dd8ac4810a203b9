/**
 * The object graph a ctx may be, and the two searches over it that decide whether ctx can be
 * checkpointed (src/saga/retry-policy.ts): every nested value must be plain, and a frozen ctx must be
 * immutable all the way down.
 */
module ObjectGraph {
  type Ref = nat
  type Key = string

  /** `Uncloneable` stands for functions and symbols. */
  datatype Value = Primitive(value: int) | Uncloneable | Object(ref: Ref)

  /** `Leaf` is a Date, a RegExp or a view of a buffer; `Foreign` an instance of some other class. */
  datatype Kind = PlainObject | ArrayObject(length: nat) | MapObject | SetObject | Leaf(data: int) | Foreign

  /**
   * `frozen`: what `Object.isFrozen` says. `open`: new keys can be added. `hidden`: a symbol-keyed or
   * non-enumerable property. `extras`: anything else that a clone does not carry and no search looks at,
   * such as a prototype that is not the usual one of the kind (null, a subclass of Array, a Buffer) or the
   * `lastIndex` of a RegExp. `items`: the contents of a Map or a Set.
   */
  datatype Node = Node(
    kind: Kind, frozen: bool, open: bool, hidden: bool, extras: bool, fields: map<Key, Value>, items: map<Key, Value>)

  type Heap = map<Ref, Node>

  predicate Known(h: Heap, v: Value) { v.Object? ==> v.ref in h }

  ghost predicate AllKnown(h: Heap, values: map<Key, Value>)
  {
    forall k :: k in values ==> Known(h, values[k])
  }

  ghost predicate WellFormed(h: Heap)
  {
    forall r :: r in h ==> AllKnown(h, h[r].fields) && AllKnown(h, h[r].items)
  }

  /** What a node holds, as a clone sees it. */
  function Children(n: Node): map<Key, Value>
  {
    match n.kind
    case MapObject => n.items
    case SetObject => n.items
    case Leaf(_) => map[]
    case _ => n.fields
  }

  predicate Container(n: Node) { n.kind.MapObject? || n.kind.SetObject? || n.kind.Leaf? }

  /** Plain: `assertPlainValue`. Immutable: `mutablePathOf`. */
  datatype Rule = Plain | Immutable

  function Inside(rule: Rule, n: Node): map<Key, Value>
  {
    if rule.Plain? then Children(n) else n.fields
  }

  predicate Passes(rule: Rule, n: Node)
  {
    if rule.Plain? then n.kind != Foreign && (Container(n) || !n.hidden) else n.frozen && !Container(n)
  }

  predicate Fails(rule: Rule, v: Value) { rule.Plain? && v.Uncloneable? }

  // ---- What the searches decide, told by the paths through the graph.

  /** The root is looked at through its own fields, whatever it is. */
  function InsideFrom(rule: Rule, h: Heap, root: Ref, r: Ref): map<Key, Value>
    requires r in h
  {
    if r == root then h[r].fields else Inside(rule, h[r])
  }

  predicate Edge(rule: Rule, h: Heap, root: Ref, r: Ref, s: Ref)
  {
    r in h && s in h && Object(s) in InsideFrom(rule, h, root, r).Values
  }

  /** A path from the root that does not come back to it. */
  ghost predicate Walk(rule: Rule, h: Heap, root: Ref, path: seq<Ref>)
  {
    |path| > 0 && root in h &&
    if |path| == 1 then path[0] == root
    else
      && Walk(rule, h, root, path[..|path| - 1])
      && path[|path| - 1] != root && Edge(rule, h, root, path[|path| - 2], path[|path| - 1])
  }

  lemma {:induction false} WalkStaysInHeap(rule: Rule, h: Heap, root: Ref, path: seq<Ref>)
    requires Walk(rule, h, root, path)
    ensures path[|path| - 1] in h && path[0] == root
  {
    if |path| > 1 { WalkStaysInHeap(rule, h, root, path[..|path| - 1]); }
  }

  /** An object whose own fields lead to itself at most leads nowhere. */
  lemma {:induction false} NowhereToWalk(rule: Rule, h: Heap, root: Ref, path: seq<Ref>)
    requires Walk(rule, h, root, path)
    requires forall k :: k in h[root].fields && h[root].fields[k].Object? ==> h[root].fields[k].ref == root
    ensures path == [root]
    decreases |path|
  {
    if |path| > 1 { NowhereToWalk(rule, h, root, path[..|path| - 1]); }
  }

  ghost predicate CleanNode(rule: Rule, h: Heap, root: Ref, r: Ref)
  {
    r in h && (r != root ==> Passes(rule, h[r])) && !exists k :: FailsAt(InsideFrom(rule, h, root, r), rule, k)
  }

  predicate FailsAt(values: map<Key, Value>, rule: Rule, k: Key)
  {
    k in values && Fails(rule, values[k])
  }

  /** Every object but the root that can be reached passes, and no value that can be reached fails. */
  ghost predicate Clean(rule: Rule, h: Heap, root: Ref)
  {
    forall path :: Walk(rule, h, root, path) ==> CleanNode(rule, h, root, path[|path| - 1])
  }

  /** What a clone looks into: the contents of a Map or a Set, nothing of a Leaf, else the properties. */
  predicate Holds(n: Node, k: Key, v: Value)
  {
    if n.kind.MapObject? || n.kind.SetObject? then k in n.items && n.items[k] == v
    else !n.kind.Leaf? && k in n.fields && n.fields[k] == v
  }

  /** An object that may be in a ctx: of no other class, with no hidden property unless it is built in. */
  predicate Allowed(n: Node)
  {
    !n.kind.Foreign? && (n.kind.MapObject? || n.kind.SetObject? || n.kind.Leaf? || !n.hidden)
  }

  /** What makes ctx plain, said of each object it leads to. */
  ghost predicate PlainAt(h: Heap, root: Ref, r: Ref)
  {
    && r in h && (r != root ==> Allowed(h[r]))
    && forall k ::
         !(if r == root then k in h[r].fields && h[r].fields[k] == Uncloneable else Holds(h[r], k, Uncloneable))
  }

  /** What makes what is under a frozen ctx immutable. */
  ghost predicate ImmutableAt(h: Heap, root: Ref, r: Ref)
  {
    r in h && (r != root ==> h[r].frozen && !h[r].kind.MapObject? && !h[r].kind.SetObject? && !h[r].kind.Leaf?)
  }

  lemma CleanExactly(h: Heap, root: Ref)
    ensures Clean(Plain, h, root) <==>
      forall path :: Walk(Plain, h, root, path) ==> PlainAt(h, root, path[|path| - 1])
    ensures Clean(Immutable, h, root) <==>
      forall path :: Walk(Immutable, h, root, path) ==> ImmutableAt(h, root, path[|path| - 1])
  {
    forall path | Walk(Plain, h, root, path)
      ensures CleanNode(Plain, h, root, path[|path| - 1]) <==> PlainAt(h, root, path[|path| - 1])
    {
      PlainNodeExactly(h, root, path[|path| - 1]);
    }
  }

  lemma PlainNodeExactly(h: Heap, root: Ref, r: Ref)
    ensures CleanNode(Plain, h, root, r) <==> PlainAt(h, root, r)
  {
    if r in h {
      var values := InsideFrom(Plain, h, root, r);
      forall k ensures FailsAt(values, Plain, k) <==>
        if r == root then k in h[r].fields && h[r].fields[k] == Uncloneable else Holds(h[r], k, Uncloneable)
      {
      }
    }
  }

  // ---- The search.

  predicate Done(rule: Rule, seen: set<Ref>, v: Value)
  {
    !Fails(rule, v) && (v.Object? ==> v.ref in seen)
  }

  ghost predicate AllDone(rule: Rule, seen: set<Ref>, values: map<Key, Value>)
  {
    forall k :: k in values ==> Done(rule, seen, values[k])
  }

  /** `r` passed, and what is inside it has been looked at. */
  ghost predicate Settled(rule: Rule, h: Heap, seen: set<Ref>, r: Ref)
  {
    r in h && Passes(rule, h[r]) && AllDone(rule, seen, Inside(rule, h[r]))
  }

  ghost predicate NewSettled(rule: Rule, h: Heap, before: set<Ref>, seen: set<Ref>)
  {
    before <= seen && forall r :: r in seen && r !in before ==> Settled(rule, h, seen, r)
  }

  lemma SettledGrows(rule: Rule, h: Heap, before: set<Ref>, middle: set<Ref>, seen: set<Ref>)
    requires NewSettled(rule, h, before, middle) && NewSettled(rule, h, middle, seen)
    ensures NewSettled(rule, h, before, seen)
  {
    forall r | r in seen && r !in before ensures Settled(rule, h, seen, r) {
      if r in middle { assert Settled(rule, h, middle, r); }
    }
  }

  /** A walk that ends where the rule is broken. */
  ghost predicate Breaks(rule: Rule, h: Heap, root: Ref, path: seq<Ref>)
  {
    Walk(rule, h, root, path) && !CleanNode(rule, h, root, path[|path| - 1])
  }

  /** Every value of the root has been looked at and everything found has settled: nothing else can be reached. */
  lemma {:induction false} NothingElse(rule: Rule, h: Heap, root: Ref, seen: set<Ref>, path: seq<Ref>)
    requires root in h && NewSettled(rule, h, {root}, seen) && AllDone(rule, seen, h[root].fields)
    requires Walk(rule, h, root, path)
    ensures path[|path| - 1] in seen && CleanNode(rule, h, root, path[|path| - 1])
  {
    var last := path[|path| - 1];
    if |path| > 1 {
      var before := path[|path| - 2];
      NothingElse(rule, h, root, seen, path[..|path| - 1]);
      assert before != root ==> Settled(rule, h, seen, before);
      assert AllDone(rule, seen, InsideFrom(rule, h, root, before));
      var k :| k in InsideFrom(rule, h, root, before) && InsideFrom(rule, h, root, before)[k] == Object(last);
      assert Settled(rule, h, seen, last);
    }
  }

  class Search {
    const heap: Heap
    const rule: Rule
    const root: Ref
    var seen: set<Ref>

    constructor (heap: Heap, rule: Rule, root: Ref)
      ensures this.heap == heap && this.rule == rule && this.root == root && seen == {root}
    {
      this.heap, this.rule, this.root, seen := heap, rule, root, {root};
    }

    ghost predicate Ready()
      reads this
    {
      WellFormed(heap) && root in seen && seen <= heap.Keys
    }

    /** One value found at `key` of the last object of `walk`. */
    method Visit(value: Value, ghost walk: seq<Ref>, ghost key: Key) returns (ok: bool, ghost bad: seq<Ref>)
      requires Ready() && Walk(rule, heap, root, walk) && walk[|walk| - 1] in heap
      requires key in InsideFrom(rule, heap, root, walk[|walk| - 1])
      requires InsideFrom(rule, heap, root, walk[|walk| - 1])[key] == value && Known(heap, value)
      modifies this
      ensures Ready() && old(seen) <= seen
      ensures ok ==> Done(rule, seen, value) && NewSettled(rule, heap, old(seen), seen)
      ensures !ok ==> Breaks(rule, heap, root, bad)
      decreases |heap.Keys - seen|, 1
    {
      bad := walk;
      if !value.Object? {
        ok := !Fails(rule, value);
        assert !ok ==> FailsAt(InsideFrom(rule, heap, root, walk[|walk| - 1]), rule, key);
        return;
      }
      if value.ref in seen { return true, bad; }
      var node := heap[value.ref];
      ghost var longer := walk + [value.ref];
      assert longer[..|longer| - 1] == walk;
      assert Edge(rule, heap, root, walk[|walk| - 1], value.ref);
      assert Walk(rule, heap, root, longer);
      ghost var before := seen;
      seen := seen + {value.ref};
      if !Passes(rule, node) { return false, longer; }
      FewerLeft(heap.Keys, before, value.ref);
      ok, bad := VisitAll(Inside(rule, node), longer);
      if ok {
        assert Settled(rule, heap, seen, value.ref);
      }
    }

    /** The values of one object, in whatever order its keys come. */
    method VisitAll(values: map<Key, Value>, ghost walk: seq<Ref>) returns (ok: bool, ghost bad: seq<Ref>)
      requires Ready() && Walk(rule, heap, root, walk) && walk[|walk| - 1] in heap
      requires values == InsideFrom(rule, heap, root, walk[|walk| - 1])
      modifies this
      ensures Ready() && old(seen) <= seen
      ensures ok ==> AllDone(rule, seen, values) && NewSettled(rule, heap, old(seen), seen)
      ensures !ok ==> Breaks(rule, heap, root, bad)
      decreases |heap.Keys - seen|, 2 + |values|
    {
      bad := walk;
      var todo := values.Keys;
      while todo != {}
        invariant todo <= values.Keys && Ready() && old(seen) <= seen
        invariant NewSettled(rule, heap, old(seen), seen)
        invariant forall k :: k in values && k !in todo ==> Done(rule, seen, values[k])
        decreases todo
      {
        var k :| k in todo;
        ghost var middle := seen;
        AllKnownInside(heap, rule, root, walk[|walk| - 1]);
        FewerLeftAll(heap.Keys, old(seen), seen);
        ok, bad := Visit(values[k], walk, k);
        if !ok { return; }
        SettledGrows(rule, heap, old(seen), middle, seen);
        todo := todo - {k};
      }
      ok := true;
    }
  }

  lemma AllKnownInside(h: Heap, rule: Rule, root: Ref, r: Ref)
    requires WellFormed(h) && r in h
    ensures AllKnown(h, InsideFrom(rule, h, root, r))
  {
    assert AllKnown(h, h[r].fields) && AllKnown(h, h[r].items);
  }

  lemma FewerLeft(all: set<Ref>, seen: set<Ref>, r: Ref)
    requires r in all && r !in seen
    ensures |all - (seen + {r})| < |all - seen|
  {
    assert all - seen == (all - (seen + {r})) + {r};
  }

  lemma {:induction false} FewerLeftAll(all: set<Ref>, seen: set<Ref>, more: set<Ref>)
    requires seen <= more
    ensures |all - more| <= |all - seen|
  {
    SubsetSize(all - more, all - seen);
  }

  lemma {:induction false} SubsetSize(a: set<Ref>, b: set<Ref>)
    requires a <= b
    ensures |a| <= |b|
  {
    if a != {} {
      var x :| x in a;
      SubsetSize(a - {x}, b - {x});
    }
  }

  /** `assertPlainGraph` accepts exactly the graphs that are clean under the root. */
  method AssertPlainGraph(heap: Heap, root: Ref) returns (ok: bool)
    requires WellFormed(heap) && root in heap
    ensures ok <==> !heap[root].hidden && Clean(Plain, heap, root)
  {
    if heap[root].hidden { return false; }
    ok := SearchFrom(heap, Plain, root);
  }

  /** Looks for something a step could still change under a frozen root. */
  method AllImmutable(heap: Heap, root: Ref) returns (ok: bool)
    requires WellFormed(heap) && root in heap
    ensures ok <==> Clean(Immutable, heap, root)
  {
    ok := SearchFrom(heap, Immutable, root);
  }

  method SearchFrom(heap: Heap, rule: Rule, root: Ref) returns (ok: bool)
    requires WellFormed(heap) && root in heap
    ensures ok <==> Clean(rule, heap, root)
  {
    var search := new Search(heap, rule, root);
    ghost var bad;
    ok, bad := search.VisitAll(heap[root].fields, [root]);
    if ok {
      ghost var seen := search.seen;
      forall path | Walk(rule, heap, root, path) ensures CleanNode(rule, heap, root, path[|path| - 1]) {
        NothingElse(rule, heap, root, seen, path);
      }
    }
  }
}
