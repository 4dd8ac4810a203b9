/**
 * What a program can see of a ctx: what every route from it shows, and which routes meet. Two graphs look
 * the same exactly when they are isomorphic, so the restores that `RestoreLimits` calls exact are the
 * faithful ones of `UnitHistory` (src/saga/retry-policy.ts, src/saga/unit-of-work.ts).
 */
module GraphViews {
  import opened Common
  import opened ObjectGraph
  import opened Checkpoint
  import opened RestoreLimits
  import Saga
  import UnitHistory

  /** By an own property, or into a Map or a Set. */
  datatype Hop = Own(key: Key) | Into(key: Key)

  type Route = seq<Hop>

  function Behind(n: Node, hop: Hop): Option<Value>
  {
    var values := if hop.Own? then n.fields else n.items;
    if hop.key in values then Some(values[hop.key]) else None
  }

  function At(h: Heap, v: Value, route: Route): Option<Value>
    decreases |route|
  {
    if |route| == 0 then Some(v)
    else
      var before := At(h, v, route[..|route| - 1]);
      if before.Some? && before.value.Object? && before.value.ref in h
      then Behind(h[before.value.ref], route[|route| - 1])
      else None
  }

  datatype Sight =
    | Absent
    | Datum(value: int)
    | Callable
    | Look(kind: Kind, frozen: bool, open: bool, hidden: bool, extras: bool, fields: set<Key>, items: set<Key>)

  function SightOf(h: Heap, v: Option<Value>): Sight
  {
    match v
    case None => Absent
    case Some(Primitive(n)) => Datum(n)
    case Some(Uncloneable) => Callable
    case Some(Object(r)) => if r in h then LookOf(h[r]) else Absent
  }

  function LookOf(n: Node): Sight
  {
    Look(n.kind, n.frozen, n.open, n.hidden, n.extras, n.fields.Keys, n.items.Keys)
  }

  /** Both routes lead to one object. */
  predicate Meet(h: Heap, root: Ref, p: Route, q: Route)
  {
    At(h, Object(root), p) == At(h, Object(root), q) && At(h, Object(root), p).Some?
    && At(h, Object(root), p).value.Object?
  }

  datatype View = View(sights: imap<Route, Sight>, meets: iset<(Route, Route)>)

  ghost function ViewOf(h: Heap, root: Ref): View
  {
    View(imap route: Route :: SightOf(h, At(h, Object(root), route)), iset p, q | Meet(h, root, p, q) :: (p, q))
  }

  // ---- Isomorphic graphs look the same.

  lemma {:induction false} SameRoute(h: Heap, h': Heap, root: Ref, f: map<Ref, Ref>, route: Route)
    requires Isomorphism(h, h', root, f)
    ensures var v, v' := At(h, Object(root), route), At(h', Object(root), route);
      if v.None? then v'.None?
      else v' == Some(Renamed(v.value, f)) && (v.value.Object? ==> v.value.ref in f)
    decreases |route|
  {
    if |route| > 0 {
      var init := route[..|route| - 1];
      SameRoute(h, h', root, f, init);
      var before := At(h, Object(root), init);
      if before.Some? && before.value.Object? { assert IsoAt(h, h', f, before.value.ref); }
    }
  }

  lemma SameSight(h: Heap, h': Heap, root: Ref, f: map<Ref, Ref>, route: Route)
    requires Isomorphism(h, h', root, f)
    ensures SightOf(h', At(h', Object(root), route)) == SightOf(h, At(h, Object(root), route))
  {
    SameRoute(h, h', root, f, route);
    var v := At(h, Object(root), route);
    if v.Some? && v.value.Object? { assert IsoAt(h, h', f, v.value.ref); }
  }

  lemma SameMeeting(h: Heap, h': Heap, root: Ref, f: map<Ref, Ref>, p: Route, q: Route)
    requires Isomorphism(h, h', root, f)
    ensures Meet(h', root, p, q) <==> Meet(h, root, p, q)
  {
    SameRoute(h, h', root, f, p);
    SameRoute(h, h', root, f, q);
  }

  lemma SameGraphSameView(h: Heap, h': Heap, root: Ref)
    requires SameGraph(h, h', root)
    ensures ViewOf(h, root) == ViewOf(h', root)
  {
    var f :| Isomorphism(h, h', root, f);
    forall route: Route ensures ViewOf(h, root).sights[route] == ViewOf(h', root).sights[route] {
      SameSight(h, h', root, f, route);
    }
    forall p, q ensures Meet(h', root, p, q) <==> Meet(h, root, p, q) { SameMeeting(h, h', root, f, p, q); }
  }

  // ---- Graphs that look the same are isomorphic.

  predicate LeadsTo(h: Heap, root: Ref, route: Route, r: Ref) { At(h, Object(root), route) == Some(Object(r)) }

  ghost predicate Found(h: Heap, root: Ref, r: Ref) { exists route :: LeadsTo(h, root, route, r) }

  ghost function RouteTo(h: Heap, root: Ref, r: Ref): (route: Route)
    requires Found(h, root, r)
    ensures LeadsTo(h, root, route, r)
  {
    var route :| LeadsTo(h, root, route, r);
    route
  }

  lemma SightsAgree(h: Heap, h': Heap, root: Ref, route: Route)
    requires ViewOf(h, root) == ViewOf(h', root)
    ensures SightOf(h', At(h', Object(root), route)) == SightOf(h, At(h, Object(root), route))
  {
    assert ViewOf(h, root).sights[route] == ViewOf(h', root).sights[route];
  }

  lemma MeetingsAgree(h: Heap, h': Heap, root: Ref, p: Route, q: Route)
    requires ViewOf(h, root) == ViewOf(h', root)
    ensures Meet(h, root, p, q) <==> Meet(h', root, p, q)
  {
    assert (p, q) in ViewOf(h, root).meets <==> (p, q) in ViewOf(h', root).meets;
  }

  /** The object that the same route leads to in the other graph. */
  ghost function Twin(h: Heap, h': Heap, root: Ref, r: Ref): (twin: Ref)
    requires ViewOf(h, root) == ViewOf(h', root) && Found(h, root, r) && r in h
    ensures LeadsTo(h', root, RouteTo(h, root, r), twin) && twin in h' && LookOf(h'[twin]) == LookOf(h[r])
  {
    SightsAgree(h, h', root, RouteTo(h, root, r));
    At(h', Object(root), RouteTo(h, root, r)).value.ref
  }

  ghost function Twins(h: Heap, h': Heap, root: Ref): map<Ref, Ref>
    requires ViewOf(h, root) == ViewOf(h', root)
  {
    map r | r in h && Found(h, root, r) :: Twin(h, h', root, r)
  }

  /** Every route to an object leads to its twin in the other graph. */
  lemma TwinByAnyRoute(h: Heap, h': Heap, root: Ref, route: Route, r: Ref)
    requires ViewOf(h, root) == ViewOf(h', root) && LeadsTo(h, root, route, r) && r in h
    ensures r in Twins(h, h', root) && LeadsTo(h', root, route, Twins(h, h', root)[r])
  {
    assert Found(h, root, r);
    MeetingsAgree(h, h', root, route, RouteTo(h, root, r));
  }

  lemma TwinsBehind(h: Heap, h': Heap, root: Ref, r: Ref, hop: Hop)
    requires WellFormed(h) && ViewOf(h, root) == ViewOf(h', root) && r in Twins(h, h', root)
    requires Behind(h[r], hop).Some?
    ensures var f, v := Twins(h, h', root), Behind(h[r], hop).value;
      Behind(h'[f[r]], hop) == Some(Renamed(v, f)) && (v.Object? ==> v.ref in f)
  {
    var f, v, route := Twins(h, h', root), Behind(h[r], hop).value, RouteTo(h, root, r);
    assert (route + [hop])[..|route|] == route && (route + [hop])[|route|] == hop;
    assert At(h, Object(root), route + [hop]) == Some(v);
    assert At(h', Object(root), route + [hop]) == Behind(h'[f[r]], hop);
    SightsAgree(h, h', root, route + [hop]);
    if v.Object? {
      assert AllKnown(h, h[r].fields) && AllKnown(h, h[r].items);
      TwinByAnyRoute(h, h', root, route + [hop], v.ref);
    }
  }

  lemma TwinsAreIso(h: Heap, h': Heap, root: Ref, r: Ref)
    requires WellFormed(h) && ViewOf(h, root) == ViewOf(h', root) && r in Twins(h, h', root)
    ensures IsoAt(h, h', Twins(h, h', root), r)
  {
    var f := Twins(h, h', root);
    var n, n' := h[r], h'[f[r]];
    assert LookOf(n') == LookOf(n);
    forall k | k in n.fields
      ensures n'.fields[k] == Renamed(n.fields[k], f) && (n.fields[k].Object? ==> n.fields[k].ref in f)
    {
      TwinsBehind(h, h', root, r, Own(k));
    }
    forall k | k in n.items
      ensures n'.items[k] == Renamed(n.items[k], f) && (n.items[k].Object? ==> n.items[k].ref in f)
    {
      TwinsBehind(h, h', root, r, Into(k));
    }
    assert n'.fields == RenamedAll(n.fields, f) && n'.items == RenamedAll(n.items, f);
  }

  lemma SameViewSameGraph(h: Heap, h': Heap, root: Ref)
    requires WellFormed(h) && root in h && ViewOf(h, root) == ViewOf(h', root)
    ensures SameGraph(h, h', root)
  {
    var f := Twins(h, h', root);
    assert LeadsTo(h, root, [], root);
    TwinByAnyRoute(h, h', root, [], root);
    forall r | r in f ensures IsoAt(h, h', f, r) { TwinsAreIso(h, h', root, r); }
    forall r, s | r in f && s in f && f[r] == f[s] ensures r == s {
      MeetingsAgree(h, h', root, RouteTo(h, root, r), RouteTo(h, root, s));
    }
    assert Isomorphism(h, h', root, f);
  }

  /** Two graphs are isomorphic if and only if nothing that follows references can tell them apart. */
  lemma SameGraphExactly(h: Heap, h': Heap, root: Ref)
    requires WellFormed(h) && root in h
    ensures SameGraph(h, h', root) <==> ViewOf(h, root) == ViewOf(h', root)
  {
    if SameGraph(h, h', root) { SameGraphSameView(h, h', root); }
    if ViewOf(h, root) == ViewOf(h', root) { SameViewSameGraph(h, h', root); }
  }

  // ---- Faithful restores.

  /** A world whose ctx is what can be seen of an object, and which restores this one as a clone checkpoint may. */
  ghost predicate RestoresLike(env: Saga.Environment<View>, h: Heap, root: Ref)
  {
    forall now: View :: MayRestore(h, root, env.restored(ViewOf(h, root), now))
  }

  ghost predicate MayRestore(h: Heap, root: Ref, view: View)
  {
    exists h' :: AfterRestore(h, h', root) && ViewOf(h', root) == view
  }

  /** Clone checkpoints of this ctx are faithful, whatever steps do, if and only if it is restorable. */
  lemma FaithfulExactly(h: Heap, next: Ref, root: Ref, world: Saga.Environment<View>)
    requires Heaped(h, next) && Accepted(h, root)
    ensures Restorable(h, root) <==>
      forall env: Saga.Environment<View> :: RestoresLike(env, h, root) ==> UnitHistory.Faithful(env, ViewOf(h, root))
  {
    RestoresExactly(h, next, root);
    if Restorable(h, root) {
      forall env: Saga.Environment<View> | RestoresLike(env, h, root)
        ensures UnitHistory.Faithful(env, ViewOf(h, root))
      {
        RestorableIsFaithful(h, next, root, env);
      }
    } else {
      var h' :| AfterRestore(h, h', root) && !SameGraph(h, h', root);
      SameGraphExactly(h, h', root);
      var view := ViewOf(h', root);
      var other := world.(restored := (saved: View, now: View) => view);
      assert RestoresLike(other, h, root);
      assert other.restored(ViewOf(h, root), view) != ViewOf(h, root);
    }
  }

  lemma RestorableIsFaithful(h: Heap, next: Ref, root: Ref, env: Saga.Environment<View>)
    requires Heaped(h, next) && Accepted(h, root) && Restorable(h, root) && RestoresLike(env, h, root)
    ensures UnitHistory.Faithful(env, ViewOf(h, root))
  {
    forall now: View ensures env.restored(ViewOf(h, root), now) == ViewOf(h, root) {
      assert MayRestore(h, root, env.restored(ViewOf(h, root), now));
      var h' :| AfterRestore(h, h', root) && ViewOf(h', root) == env.restored(ViewOf(h, root), now);
      RestoresAll(h, h', root);
      SameGraphSameView(h, h', root);
    }
  }
}
