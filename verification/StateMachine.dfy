/**
 * State machines and compare-and-set transitions (src/saga/state-machine.ts, src/saga/transition.ts,
 * src/testing/memory-transition-port.ts): what a declaration must be, the inverse of its targets, one
 * transition, and the histories that any interleaving of transitions gives a row.
 */
module StateMachine {
  import opened Common
  import opened CodeUnits

  type Name = Text

  /** A value declared for a state: a list of values, `None` where a value is no string, or no list at all. */
  datatype Declared = TargetList(values: seq<Option<Name>>) | NotAList

  datatype Declaration = Declaration(state: Name, targets: Declared)

  datatype DefinitionError = NoStates | TargetsNotAList | NotAState | TargetTwice

  predicate Distinct<T(==)>(xs: seq<T>) { forall i, j :: 0 <= i < j < |xs| ==> xs[i] != xs[j] }

  function StatesOf(declared: seq<Declaration>): (states: seq<Name>)
    ensures |states| == |declared|
  {
    seq(|declared|, i requires 0 <= i < |declared| => declared[i].state)
  }

  predicate DeclaredOk(states: seq<Name>, d: Declared)
  {
    && d.TargetList? && Distinct(d.values)
    && forall i :: 0 <= i < |d.values| ==> IsTarget(states, d.values[i])
  }

  predicate IsTarget(states: seq<Name>, v: Option<Name>) { v.Some? && v.value in states }

  predicate Definable(declared: seq<Declaration>)
  {
    declared != [] && forall i :: 0 <= i < |declared| ==> DeclaredOk(StatesOf(declared), declared[i].targets)
  }

  function NamesOf(values: seq<Option<Name>>): (names: seq<Name>)
    requires forall i :: 0 <= i < |values| ==> values[i].Some?
    ensures |names| == |values|
  {
    seq(|values|, i requires 0 <= i < |values| => values[i].value)
  }

  type Targets = map<Name, seq<Name>>

  /** Each state with its list, as declared. */
  ghost predicate Reads(declared: seq<Declaration>, n: nat, targets: Targets)
    requires n <= |declared|
  {
    && (forall s :: s in targets <==> exists i :: 0 <= i < n && declared[i].state == s)
    && (forall i :: 0 <= i < n ==> ReadAt(declared[i], targets))
  }

  ghost predicate ReadAt(d: Declaration, targets: Targets)
  {
    && d.targets.TargetList? && (forall j :: 0 <= j < |d.targets.values| ==> d.targets.values[j].Some?)
    && d.state in targets && targets[d.state] == NamesOf(d.targets.values)
  }

  /** What is wrong with the targets declared for a state. */
  ghost predicate Wrong(states: seq<Name>, d: Declared, error: DefinitionError)
  {
    match error
    case NoStates => false
    case TargetsNotAList => d.NotAList?
    case NotAState => d.TargetList? && exists v :: v in d.values && !(v.Some? && v.value in states)
    case TargetTwice => d.TargetList? && exists j, k :: 0 <= j < k < |d.values| && d.values[j] == d.values[k]
  }

  /** The error is that of the first state whose targets are wrong. */
  ghost predicate Blames(declared: seq<Declaration>, error: DefinitionError)
  {
    if error.NoStates? then declared == []
    else exists i :: 0 <= i < |declared| && BlamesAt(declared, i, error)
  }

  ghost predicate BlamesAt(declared: seq<Declaration>, i: nat, error: DefinitionError)
    requires i < |declared|
  {
    && Wrong(StatesOf(declared), declared[i].targets, error)
    && forall j :: 0 <= j < i ==> DeclaredOk(StatesOf(declared), declared[j].targets)
  }

  /** The checks of one list, in their order. */
  method CheckTargets(states: seq<Name>, d: Declared) returns (error: Option<DefinitionError>)
    ensures error.None? <==> DeclaredOk(states, d)
    ensures error.Some? ==> Wrong(states, d, error.value)
  {
    if d.NotAList? { return Some(TargetsNotAList); }
    for i := 0 to |d.values|
      invariant forall j :: 0 <= j < i ==> IsTarget(states, d.values[j])
    {
      if !IsTarget(states, d.values[i]) {
        assert d.values[i] in d.values;
        return Some(NotAState);
      }
    }
    error := if Distinct(d.values) then None else Some(TargetTwice);
  }

  /** The keys of an object are distinct, so the declaration gives each state once. */
  method ReadTargets(declared: seq<Declaration>) returns (result: Result<Targets, DefinitionError>)
    requires Distinct(StatesOf(declared))
    ensures result.Ok? <==> Definable(declared)
    ensures result.Ok? ==> Reads(declared, |declared|, result.value)
    ensures result.Err? ==> Blames(declared, result.error)
  {
    var states := StatesOf(declared);
    if states == [] { return Err(NoStates); }
    var targets: Targets := map[];
    for i := 0 to |declared|
      invariant Reads(declared, i, targets)
      invariant forall j :: 0 <= j < i ==> DeclaredOk(states, declared[j].targets)
    {
      var d := declared[i].targets;
      var error := CheckTargets(states, d);
      if error.Some? {
        assert BlamesAt(declared, i, error.value);
        return Err(error.value);
      }
      ReadNext(declared, i, targets);
      targets := targets[declared[i].state := NamesOf(d.values)];
    }
    result := Ok(targets);
  }

  lemma ReadNext(declared: seq<Declaration>, i: nat, targets: Targets)
    requires Distinct(StatesOf(declared)) && i < |declared| && Reads(declared, i, targets)
    requires declared[i].targets.TargetList?
    requires forall j :: 0 <= j < |declared[i].targets.values| ==> declared[i].targets.values[j].Some?
    ensures Reads(declared, i + 1, targets[declared[i].state := NamesOf(declared[i].targets.values)])
  {
    var after := targets[declared[i].state := NamesOf(declared[i].targets.values)];
    forall j | 0 <= j < i + 1 ensures ReadAt(declared[j], after) {
      if j < i {
        assert ReadAt(declared[j], targets);
        assert StatesOf(declared)[j] != StatesOf(declared)[i];
      }
    }
    forall s ensures s in after <==> exists j :: 0 <= j < i + 1 && declared[j].state == s {
      if s in targets { var j :| 0 <= j < i && declared[j].state == s; }
    }
  }

  // ---- The inverse.

  predicate Moves(targets: Targets, from: Name, to: Name)
  {
    from in targets && to in targets[from]
  }

  function SourcesIn(sources: Targets, to: Name): seq<Name>
  {
    if to in sources then sources[to] else []
  }

  /** `sources` lists, for each state, exactly the states of `done` that move to it, each once. */
  ghost predicate InverseAt(targets: Targets, done: seq<Name>, sources: Targets, to: Name)
  {
    && Distinct(SourcesIn(sources, to))
    && forall from :: from in SourcesIn(sources, to) <==> from in done && Moves(targets, from, to)
  }

  ghost predicate Inverse(targets: Targets, done: seq<Name>, sources: Targets)
  {
    forall to :: InverseAt(targets, done, sources, to)
  }

  lemma DistinctGrows(xs: seq<Name>, x: Name)
    requires Distinct(xs) && x !in xs
    ensures Distinct(xs + [x])
  {
  }

  predicate Added(sources: Targets, before: Targets, from: Name, list: seq<Name>, to: Name)
  {
    SourcesIn(sources, to) == SourcesIn(before, to) + if to in list then [from] else []
  }

  ghost predicate AllAdded(sources: Targets, before: Targets, from: Name, list: seq<Name>)
  {
    forall to :: Added(sources, before, from, list, to)
  }

  lemma AddedNext(sources: Targets, before: Targets, from: Name, list: seq<Name>, to: Name)
    requires AllAdded(sources, before, from, list) && to !in list
    ensures AllAdded(sources[to := SourcesIn(sources, to) + [from]], before, from, list + [to])
  {
    var after := sources[to := SourcesIn(sources, to) + [from]];
    forall t: Name ensures Added(after, before, from, list + [to], t) {
      assert Added(sources, before, from, list, t);
    }
  }

  lemma AddedIsInverse(targets: Targets, done: seq<Name>, from: Name, before: Targets, sources: Targets)
    requires from in targets && from !in done && Inverse(targets, done, before)
    requires AllAdded(sources, before, from, targets[from])
    ensures Inverse(targets, done + [from], sources)
  {
    forall to ensures InverseAt(targets, done + [from], sources, to) {
      assert Added(sources, before, from, targets[from], to) && InverseAt(targets, done, before, to);
      DistinctGrows(SourcesIn(before, to), from);
    }
  }

  /** Adds `from` to the sources of each of its targets, one after the other. */
  method AddSources(targets: Targets, done: seq<Name>, from: Name, before: Targets) returns (sources: Targets)
    requires from in targets && from !in done && Distinct(targets[from]) && Inverse(targets, done, before)
    ensures Inverse(targets, done + [from], sources)
  {
    var list := targets[from];
    sources := before;
    for i := 0 to |list|
      invariant AllAdded(sources, before, from, list[..i])
    {
      assert list[..i + 1] == list[..i] + [list[i]];
      AddedNext(sources, before, from, list[..i], list[i]);
      sources := sources[list[i] := SourcesIn(sources, list[i]) + [from]];
    }
    assert list[..|list|] == list;
    AddedIsInverse(targets, done, from, before, sources);
  }

  /** The inverse of the targets, over the states in their order. */
  method Invert(targets: Targets, states: seq<Name>) returns (sources: Targets)
    requires Distinct(states) && forall s :: s in states <==> s in targets
    requires forall s :: s in targets ==> Distinct(targets[s])
    ensures Inverse(targets, states, sources)
  {
    sources := map[];
    for i := 0 to |states|
      invariant Inverse(targets, states[..i], sources)
    {
      assert states[..i + 1] == states[..i] + [states[i]];
      assert states[i] !in states[..i];
      sources := AddSources(targets, states[..i], states[i], sources);
    }
    assert states[..|states|] == states;
  }

  // ---- A machine.

  datatype Machine = Machine(states: seq<Name>, targets: Targets, sources: Targets)

  ghost predicate WellDefined(m: Machine)
  {
    && (forall s :: s in m.states <==> s in m.targets)
    && (forall to :: InverseAt(m.targets, m.states, m.sources, to))
    && (forall s, t :: Moves(m.targets, s, t) ==> t in m.states)
  }

  predicate CanTransition(m: Machine, from: Name, to: Name) { Moves(m.targets, from, to) }

  function SourcesOf(m: Machine, to: Name): seq<Name> { SourcesIn(m.sources, to) }

  function TargetsOf(m: Machine, from: Name): seq<Name> { SourcesIn(m.targets, from) }

  predicate IsTerminal(m: Machine, state: Name) { |TargetsOf(m, state)| == 0 }

  lemma ReadsTargets(declared: seq<Declaration>, targets: Targets, s: Name, t: Name)
    requires Definable(declared) && Reads(declared, |declared|, targets) && Distinct(StatesOf(declared)) && s in targets
    ensures Distinct(targets[s]) && s in StatesOf(declared) && (t in targets[s] ==> t in StatesOf(declared))
  {
    var i :| 0 <= i < |declared| && declared[i].state == s;
    assert StatesOf(declared)[i] == s && ReadAt(declared[i], targets);
    assert DeclaredOk(StatesOf(declared), declared[i].targets);
    var values := declared[i].targets.values;
    if t in targets[s] {
      var j :| 0 <= j < |values| && NamesOf(values)[j] == t;
      assert IsTarget(StatesOf(declared), values[j]);
    }
  }

  /** A definable declaration gives a machine whose sources and targets are exact inverses. */
  method DefineStateMachine(declared: seq<Declaration>) returns (result: Result<Machine, DefinitionError>)
    requires Distinct(StatesOf(declared))
    ensures result.Ok? <==> Definable(declared)
    ensures result.Ok? ==> WellDefined(result.value) && Reads(declared, |declared|, result.value.targets)
  {
    var read := ReadTargets(declared);
    if read.Err? { return Err(read.error); }
    var targets, states := read.value, StatesOf(declared);
    forall s | s in targets ensures Distinct(targets[s]) { ReadsTargets(declared, targets, s, s); }
    forall s ensures s in states <==> s in targets {
      if s in states { var i :| 0 <= i < |declared| && states[i] == s; assert declared[i].state == s; }
      if s in targets { ReadsTargets(declared, targets, s, s); }
    }
    var sources := Invert(targets, states);
    forall s, t | Moves(targets, s, t) ensures t in states { ReadsTargets(declared, targets, s, t); }
    result := Ok(Machine(states, targets, sources));
  }

  /** `sourcesOf` is the exact inverse of `targetsOf`, without duplicates. */
  lemma SourcesInvertTargets(m: Machine, from: Name, to: Name)
    requires WellDefined(m)
    ensures from in SourcesOf(m, to) <==> to in TargetsOf(m, from)
    ensures from in SourcesOf(m, to) <==> CanTransition(m, from, to)
    ensures Distinct(SourcesOf(m, to))
    ensures IsTerminal(m, from) <==> forall t :: !CanTransition(m, from, t)
  {
    assert InverseAt(m.targets, m.states, m.sources, to);
    if !IsTerminal(m, from) { assert CanTransition(m, from, TargetsOf(m, from)[0]); }
  }
}
