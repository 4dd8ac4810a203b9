/**
 * Fanout channels bound to channels, and the guard that stops cycles (src/channels/fanout.channel.ts,
 * src/channel.ts): a message carries the history of its hops, a copy goes to every binding, and a
 * binding is refused when the history is too long or has crossed it twice already.
 */
module Fanout {
  import opened CodeUnits

  const MAX_HOP_DEPTH := 50

  type Name = Text

  /** A fanout forwards to its bindings; any other channel keeps the message. */
  datatype Target = Fanout(bindings: seq<Name>) | Sink

  type Graph = map<Name, Target>

  function Crossings(history: seq<Name>, name: Name): (n: nat)
    ensures n <= |history|
  {
    if |history| == 0 then 0
    else Crossings(history[..|history| - 1], name) + if history[|history| - 1] == name then 1 else 0
  }

  /** What the guard refuses: hop 51, or a third crossing. */
  predicate Blocked(history: seq<Name>, name: Name)
  {
    |history| + 1 > MAX_HOP_DEPTH || Crossings(history, name) >= 2
  }

  lemma {:induction false} CrossingsGrow(history: seq<Name>, n: nat, name: Name)
    requires n <= |history|
    ensures Crossings(history[..n], name) <= Crossings(history, name)
  {
    if n < |history| {
      CrossingsGrow(history[..|history| - 1], n, name);
      assert history[..|history| - 1][..n] == history[..n];
    } else {
      assert history[..n] == history;
    }
  }

  /** The guard, before a hop to `name`. */
  method AssertNoFanoutCycle(history: seq<Name>, name: Name) returns (ok: bool)
    ensures ok <==> !Blocked(history, name)
  {
    if |history| + 1 > MAX_HOP_DEPTH { return false; }
    var hits := 0;
    for i := 0 to |history|
      invariant hits == Crossings(history[..i], name) < 2
    {
      assert history[..i + 1][..i] == history[..i];
      if history[i] == name {
        hits := hits + 1;
        if hits >= 2 {
          CrossingsGrow(history, i + 1, name);
          return false;
        }
      }
    }
    assert history[..|history|] == history;
    ok := true;
  }

  datatype Outcome = Entered | Cycle | Missing

  /** A hop that was tried: the history with it, and what became of it. */
  datatype Hop = Hop(path: seq<Name>, outcome: Outcome)

  /** Every hop that sending to one binding leads to. A refused hop stops none of the others. */
  function SendToBinding(g: Graph, history: seq<Name>, binding: Name): seq<Hop>
    decreases if |history| < MAX_HOP_DEPTH then MAX_HOP_DEPTH - |history| else 0, 0
  {
    var path := history + [binding];
    if Blocked(history, binding) then [Hop(path, Cycle)]
    else if binding !in g then [Hop(path, Missing)]
    else [Hop(path, Entered)] + if g[binding].Fanout? then Send(g, path, g[binding].bindings) else []
  }

  function Send(g: Graph, history: seq<Name>, bindings: seq<Name>): seq<Hop>
    decreases if |history| < MAX_HOP_DEPTH then MAX_HOP_DEPTH - |history| else 0, 1 + |bindings|
  {
    if |bindings| == 0 then [] else SendToBinding(g, history, bindings[0]) + Send(g, history, bindings[1..])
  }

  // ---- What is tried, told by the paths of the graph.

  function Room(history: seq<Name>): nat
  {
    if |history| < MAX_HOP_DEPTH then MAX_HOP_DEPTH - |history| else 0
  }

  /** `path` leads from a fanout with these bindings along fanouts; the last channel may be anything. */
  predicate Walk(g: Graph, bindings: seq<Name>, path: seq<Name>)
    decreases |path|
  {
    && |path| > 0 && path[0] in bindings
    && (|path| > 1 ==> path[0] in g && g[path[0]].Fanout? && Walk(g, g[path[0]].bindings, path[1..]))
  }

  /** None of the hops before the last is refused. */
  predicate Passes(history: seq<Name>, path: seq<Name>)
    decreases |path|
  {
    |path| > 1 ==> !Blocked(history, path[0]) && Passes(history + [path[0]], path[1..])
  }

  function OutcomeOf(g: Graph, path: seq<Name>): Outcome
    requires |path| > 0
  {
    var last := path[|path| - 1];
    if Blocked(path[..|path| - 1], last) then Cycle else if last !in g then Missing else Entered
  }

  /** Sending tries the hop at the end of every walk that the guard lets through, and no other. */
  predicate Tried(g: Graph, history: seq<Name>, bindings: seq<Name>, hop: Hop)
  {
    && |hop.path| > |history| && history <= hop.path
    && Walk(g, bindings, hop.path[|history|..]) && Passes(history, hop.path[|history|..])
    && hop.outcome == OutcomeOf(g, hop.path)
  }

  lemma {:induction false} SendIsTried(g: Graph, history: seq<Name>, bindings: seq<Name>, hop: Hop)
    ensures hop in Send(g, history, bindings) <==> Tried(g, history, bindings, hop)
    decreases Room(history), 1 + |bindings|
  {
    if |bindings| > 0 {
      SendIsTried(g, history, bindings[1..], hop);
      OneBindingIsTried(g, history, bindings[0], hop);
      if |hop.path| > |history| {
        WalkFromOne(g, bindings, hop.path[|history|..]);
      }
    }
  }

  lemma WalkFromOne(g: Graph, bindings: seq<Name>, path: seq<Name>)
    requires |bindings| > 0
    ensures Walk(g, bindings, path) <==> Walk(g, [bindings[0]], path) || Walk(g, bindings[1..], path)
  {
    assert bindings == [bindings[0]] + bindings[1..];
  }

  lemma {:induction false} OneBindingIsTried(g: Graph, history: seq<Name>, binding: Name, hop: Hop)
    ensures hop in SendToBinding(g, history, binding) <==> Tried(g, history, [binding], hop)
    decreases Room(history), 0
  {
    var path := history + [binding];
    var deeper := !Blocked(history, binding) && binding in g && g[binding].Fanout?;
    if deeper { SendIsTried(g, path, g[binding].bindings, hop); }
    if hop.path == path { TriedHere(g, history, binding, hop); } else { TriedDeeper(g, history, binding, hop); }
  }

  lemma TriedHere(g: Graph, history: seq<Name>, binding: Name, hop: Hop)
    requires hop.path == history + [binding]
    ensures Tried(g, history, [binding], hop) <==>
      hop.outcome == if Blocked(history, binding) then Cycle else if binding !in g then Missing else Entered
  {
    var path := hop.path;
    assert path[..|path| - 1] == history && path[|path| - 1] == binding;
    assert path[|history|..] == [binding];
  }

  lemma TriedDeeper(g: Graph, history: seq<Name>, binding: Name, hop: Hop)
    requires hop.path != history + [binding]
    ensures Tried(g, history, [binding], hop) <==>
      && !Blocked(history, binding) && binding in g && g[binding].Fanout?
      && Tried(g, history + [binding], g[binding].bindings, hop)
  {
    var path := history + [binding];
    if |hop.path| > |history| && history <= hop.path && hop.path[|history|] == binding {
      var tail := hop.path[|history|..];
      assert path <= hop.path && tail[0] == binding && tail[1..] == hop.path[|path|..];
    } else {
      assert !(path <= hop.path);
    }
  }

  // ---- From an empty history.

  /** No name more than twice. */
  ghost predicate AtMostTwice(history: seq<Name>) { forall name :: CrossedTwice(history, name) }

  predicate CrossedTwice(history: seq<Name>, name: Name) { Crossings(history, name) <= 2 }

  lemma OneMoreHop(history: seq<Name>, name: Name)
    requires AtMostTwice(history) && !Blocked(history, name)
    ensures AtMostTwice(history + [name]) && |history + [name]| <= MAX_HOP_DEPTH
  {
    assert (history + [name])[..|history|] == history;
    forall other: Name ensures CrossedTwice(history + [name], other) { assert CrossedTwice(history, other); }
  }

  lemma {:induction false} PassesStaysShort(history: seq<Name>, path: seq<Name>)
    requires AtMostTwice(history) && |path| > 0 && Passes(history, path)
    requires !Blocked(history + path[..|path| - 1], path[|path| - 1])
    ensures AtMostTwice(history + path) && |history + path| <= MAX_HOP_DEPTH
    decreases |path|
  {
    var head := history + [path[0]];
    if |path| > 1 {
      OneMoreHop(history, path[0]);
      assert history + path[..|path| - 1] == head + path[1..][..|path| - 2];
      PassesStaysShort(head, path[1..]);
      assert history + path == head + path[1..];
    } else {
      assert history + path[..0] == history;
      assert history + path == head;
      OneMoreHop(history, path[0]);
    }
  }

  /** `SendIsTried` for an empty history. */
  lemma SentFromScratch(g: Graph, bindings: seq<Name>, hop: Hop)
    ensures hop in Send(g, [], bindings) <==>
      Walk(g, bindings, hop.path) && Passes([], hop.path) && hop.outcome == OutcomeOf(g, hop.path)
  {
    SendIsTried(g, [], bindings, hop);
    assert hop.path[0..] == hop.path;
  }

  lemma ShortFromScratch(path: seq<Name>)
    requires |path| > 0 && Passes([], path) && !Blocked(path[..|path| - 1], path[|path| - 1])
    ensures AtMostTwice(path) && |path| <= MAX_HOP_DEPTH
  {
    var init := path[..|path| - 1];
    assert [] + init == init && [] + path == path;
    PassesStaysShort([], path);
  }

  /** No message enters a channel a third time or after more than 50 hops, whatever the bindings. */
  lemma EntriesAreBounded(g: Graph, bindings: seq<Name>, hop: Hop)
    requires hop in Send(g, [], bindings) && hop.outcome == Entered
    ensures |hop.path| <= 50 && AtMostTwice(hop.path)
  {
    SentFromScratch(g, bindings, hop);
    ShortFromScratch(hop.path);
  }

  lemma {:induction false} TwiceIsLetThrough(path: seq<Name>, i: nat)
    requires AtMostTwice(path) && |path| <= 50 && i < |path|
    ensures !Blocked(path[..i], path[i])
  {
    CrossingsGrow(path, i + 1, path[i]);
    assert CrossedTwice(path, path[i]) && path[..i + 1][..i] == path[..i];
  }

  /** A message enters a channel along exactly the walks of at most 50 hops that cross no name a third time. */
  lemma EntersExactly(g: Graph, bindings: seq<Name>, path: seq<Name>)
    ensures Hop(path, Entered) in Send(g, [], bindings) <==>
      Walk(g, bindings, path) && path[|path| - 1] in g && |path| <= 50 && AtMostTwice(path)
  {
    SentFromScratch(g, bindings, Hop(path, Entered));
    if Hop(path, Entered) in Send(g, [], bindings) { EntriesAreBounded(g, bindings, Hop(path, Entered)); }
    if Walk(g, bindings, path) && path[|path| - 1] in g && |path| <= 50 && AtMostTwice(path) {
      PassesMeans([], path);
      forall i: nat | i < |path| ensures !Blocked(path[..i], path[i]) { TwiceIsLetThrough(path, i); }
      forall i: nat | i < |path| - 1 ensures !BlockedAt([], path, i) { assert [] + path[..i] == path[..i]; }
    }
  }

  ghost predicate Trips(g: Graph, bindings: seq<Name>)
  {
    exists hop :: hop in Send(g, [], bindings) && hop.outcome == Cycle
  }

  predicate BlockedAt(history: seq<Name>, path: seq<Name>, i: nat)
    requires i < |path|
  {
    Blocked(history + path[..i], path[i])
  }

  lemma {:induction false} PassesMeans(history: seq<Name>, path: seq<Name>)
    ensures Passes(history, path) <==> forall i: nat :: i < |path| - 1 ==> !BlockedAt(history, path, i)
    decreases |path|
  {
    if |path| > 1 {
      var head, rest := history + [path[0]], path[1..];
      PassesMeans(head, rest);
      assert history + path[..0] == history;
      forall i: nat | i < |rest| - 1 ensures BlockedAt(head, rest, i) <==> BlockedAt(history, path, i + 1) {
        assert head + rest[..i] == history + path[..i + 1];
      }
      if Passes(history, path) {
        forall i: nat | i < |path| - 1 ensures !BlockedAt(history, path, i) {
          if i > 0 { assert !BlockedAt(head, rest, i - 1); }
        }
      }
      if forall i: nat :: i < |path| - 1 ==> !BlockedAt(history, path, i) {
        assert !BlockedAt(history, path, 0);
        forall i: nat | i < |rest| - 1 ensures !BlockedAt(head, rest, i) { assert !BlockedAt(history, path, i + 1); }
      }
    }
  }

  lemma {:induction false} WalkPrefix(g: Graph, bindings: seq<Name>, path: seq<Name>, n: nat)
    requires Walk(g, bindings, path) && 0 < n <= |path|
    ensures Walk(g, bindings, path[..n])
    decreases |path|
  {
    if n > 1 {
      WalkPrefix(g, g[path[0]].bindings, path[1..], n - 1);
      assert path[..n][1..] == path[1..][..n - 1];
    }
  }

  /** A walk to a refused hop has a first refused hop, and that one is tried. */
  lemma {:induction false} RefusedWalkTrips(g: Graph, bindings: seq<Name>, path: seq<Name>)
    requires Walk(g, bindings, path) && Blocked(path[..|path| - 1], path[|path| - 1])
    ensures Trips(g, bindings)
    decreases |path|
  {
    PassesMeans([], path);
    if Passes([], path) {
      var hop := Hop(path, Cycle);
      SentFromScratch(g, bindings, hop);
    } else {
      var i: nat :| i < |path| - 1 && BlockedAt([], path, i);
      WalkPrefix(g, bindings, path, i + 1);
      assert path[..i + 1][..i] == path[..i] && [] + path[..i] == path[..i];
      RefusedWalkTrips(g, bindings, path[..i + 1]);
    }
  }

  lemma {:induction false} WalkSuffix(g: Graph, bindings: seq<Name>, path: seq<Name>, i: nat)
    requires Walk(g, bindings, path) && i + 1 < |path|
    ensures path[i] in g && g[path[i]].Fanout? && Walk(g, g[path[i]].bindings, path[i + 1..])
    decreases |path|
  {
    if i > 0 {
      WalkSuffix(g, g[path[0]].bindings, path[1..], i - 1);
      assert path[1..][i..] == path[i + 1..];
    }
  }

  lemma {:induction false} WalkJoin(g: Graph, bindings: seq<Name>, path: seq<Name>, more: seq<Name>)
    requires Walk(g, bindings, path)
    requires var last := path[|path| - 1]; last in g && g[last].Fanout? && Walk(g, g[last].bindings, more)
    ensures Walk(g, bindings, path + more)
    decreases |path|
  {
    if |path| > 1 {
      WalkJoin(g, g[path[0]].bindings, path[1..], more);
      assert (path + more)[1..] == path[1..] + more;
    } else {
      assert (path + more)[1..] == more;
    }
  }

  lemma {:induction false} CrossedBoth(path: seq<Name>, i: nat, j: nat)
    requires i < j < |path| && path[i] == path[j]
    ensures Crossings(path, path[i]) >= 2
  {
    CrossingsGrow(path, j + 1, path[i]);
    CrossingsGrow(path[..j], i + 1, path[i]);
    assert path[..j + 1][..j] == path[..j] && path[..j][..i + 1] == path[..i + 1];
    assert path[..i + 1][..i] == path[..i];
  }

  predicate Repeats(path: seq<Name>) { exists i, j :: 0 <= i < j < |path| && path[i] == path[j] }

  /** Once around a reachable cycle is enough: going around again is refused. */
  lemma CycleTrips(g: Graph, bindings: seq<Name>, path: seq<Name>)
    requires Walk(g, bindings, path) && Repeats(path)
    ensures Trips(g, bindings)
  {
    var i, j :| 0 <= i < j < |path| && path[i] == path[j];
    var once, around := path[..j + 1], path[i + 1..j + 1];
    WalkPrefix(g, bindings, path, j + 1);
    WalkSuffix(g, bindings, once, i);
    assert once[i + 1..] == around;
    WalkJoin(g, bindings, once, around);
    var twice := once + around;
    var before := twice[..|twice| - 1];
    assert twice[|twice| - 1] == path[j] && before[i] == path[i] && before[j] == path[j];
    CrossedBoth(before, i, j);
    RefusedWalkTrips(g, bindings, twice);
  }

  lemma LongWalkTrips(g: Graph, bindings: seq<Name>, path: seq<Name>)
    requires Walk(g, bindings, path) && |path| > MAX_HOP_DEPTH
    ensures Trips(g, bindings)
  {
    RefusedWalkTrips(g, bindings, path);
  }

  lemma {:induction false} CrossedRepeats(path: seq<Name>, name: Name) returns (i: nat)
    requires Crossings(path, name) >= 1
    ensures i < |path| && path[i] == name
  {
    if path[|path| - 1] == name { i := |path| - 1; } else { i := CrossedRepeats(path[..|path| - 1], name); }
  }

  /** Paths that the guard need not fear: no channel twice, and at most 50 hops. */
  predicate Tame(path: seq<Name>) { !Repeats(path) && |path| <= 50 }

  /**
   * The guard trips on a graph of bindings if and only if a cycle can be reached or some walk has more
   * than 50 hops; so every cycle is rejected, and a graph without either never trips it.
   */
  lemma GuardIsExact(g: Graph, bindings: seq<Name>)
    ensures Trips(g, bindings) <==> exists path :: Walk(g, bindings, path) && !Tame(path)
  {
    if Trips(g, bindings) {
      var hop :| hop in Send(g, [], bindings) && hop.outcome == Cycle;
      SentFromScratch(g, bindings, hop);
      var path := hop.path;
      if |path| <= MAX_HOP_DEPTH {
        var i := CrossedRepeats(path[..|path| - 1], path[|path| - 1]);
        assert path[i] == path[|path| - 1];
      }
    }
    if path :| Walk(g, bindings, path) && !Tame(path) {
      if Repeats(path) { CycleTrips(g, bindings, path); } else { LongWalkTrips(g, bindings, path); }
    }
  }
}
