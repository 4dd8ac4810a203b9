/**
 * Compare-and-set transitions (src/saga/transition.ts) over versioned rows in process
 * (src/testing/memory-transition-port.ts), and the histories any interleaving of them gives a row.
 */
module Transition {
  import opened Common
  import opened StateMachine

  const MAX_SAFE_INTEGER := 0x1f_ffff_ffff_ffff

  datatype Row = Row(state: Name, version: int)

  datatype Expected = Any | Exactly(version: int) | NoInteger

  /** `from` is what the request names, `None` for every source of `to`. */
  datatype Request = Request(to: Name, from: Option<seq<Name>>, expected: Expected)

  datatype Failure = Illegal | BadVersion | Stale | OutcomeUnknown | PortFailed

  /** What a port answers: a row count, with the new version if it keeps one, or something else. */
  datatype CasReply = Affected(count: int, version: Option<int>) | Garbage | Throws

  predicate SafeVersion(e: Expected)
  {
    e == Any || (e.Exactly? && -MAX_SAFE_INTEGER <= e.version <= MAX_SAFE_INTEGER)
  }

  /** A request is legal if the machine allows the move from every state it names, and it names one. */
  ghost predicate Legal(m: Machine, request: Request)
  {
    match request.from
    case None => SourcesOf(m, request.to) != []
    case Some(from) => from != [] && forall i :: 0 <= i < |from| ==> CanTransition(m, from[i], request.to)
  }

  /** The states a request moves from: those it names, or every source. */
  ghost predicate Names(m: Machine, request: Request, s: Name)
  {
    if request.from.Some? then s in request.from.value else CanTransition(m, s, request.to)
  }

  method Unique(xs: seq<Name>) returns (unique: seq<Name>)
    ensures Distinct(unique) && forall x :: x in unique <==> x in xs
  {
    unique := [];
    for i := 0 to |xs|
      invariant Distinct(unique) && forall x :: x in unique <==> x in xs[..i]
    {
      if xs[i] !in unique {
        DistinctGrows(unique, xs[i]);
        unique := unique + [xs[i]];
      }
    }
  }

  method SourcesFor(m: Machine, request: Request) returns (sources: Result<seq<Name>, Failure>)
    requires WellDefined(m)
    ensures sources.Ok? <==> Legal(m, request)
    ensures sources.Ok? ==> Distinct(sources.value) && forall s :: s in sources.value <==> Names(m, request, s)
    ensures sources.Ok? ==> forall s :: s in sources.value ==> CanTransition(m, s, request.to)
    ensures sources.Err? ==> sources.error == Illegal
  {
    if request.from.None? {
      var all := SourcesOf(m, request.to);
      forall s ensures s in all <==> CanTransition(m, s, request.to) { SourcesInvertTargets(m, s, request.to); }
      SourcesInvertTargets(m, request.to, request.to);
      return if all == [] then Err(Illegal) else Ok(all);
    }
    var unique := Unique(request.from.value);
    assert request.from.value != [] ==> request.from.value[0] in unique;
    if unique == [] { return Err(Illegal); }
    if exists i :: 0 <= i < |unique| && !CanTransition(m, unique[i], request.to) {
      var i :| 0 <= i < |unique| && !CanTransition(m, unique[i], request.to);
      assert unique[i] in request.from.value;
      return Err(Illegal);
    }
    ghost var from := request.from.value;
    assert unique[0] in from;
    forall i | 0 <= i < |from| ensures CanTransition(m, from[i], request.to) {
      assert from[i] in unique;
      var j :| 0 <= j < |unique| && unique[j] == from[i];
    }
    sources := Ok(unique);
  }

  predicate VersionMatches(e: Expected, row: Row) { e == Any || (e.Exactly? && e.version == row.version) }

  class MemoryTransitionPort<Id(==)> {
    var rows: map<Id, Row>
    var forced: seq<CasReply>
    var commands: nat

    constructor ()
      ensures rows == map[] && forced == [] && commands == 0
    {
      rows, forced, commands := map[], [], 0;
    }

    method Seed(id: Id, state: Name, version: int)
      modifies this`rows
      ensures rows == old(rows)[id := Row(state, version)]
    {
      rows := rows[id := Row(state, version)];
    }

    method CompareAndSet(id: Id, from: seq<Name>, to: Name, expected: Expected) returns (reply: CasReply)
      modifies this
      ensures commands == old(commands) + 1
      ensures old(forced) != [] ==> reply == old(forced)[0] && forced == old(forced)[1..] && rows == old(rows)
      ensures old(forced) == [] ==> forced == []
      ensures old(forced) == [] ==> (reply == Affected(0, None) <==>
        || id !in old(rows) || old(rows)[id].state !in from
        || (expected != Any && expected != Exactly(old(rows)[id].version)))
      ensures old(forced) == [] ==>
        if id in old(rows) && old(rows)[id].state in from && VersionMatches(expected, old(rows)[id]) then
          rows == old(rows)[id := Row(to, old(rows)[id].version + 1)] && reply == Affected(1, Some(rows[id].version))
        else rows == old(rows) && reply == Affected(0, None)
    {
      commands := commands + 1;
      if forced != [] {
        reply, forced := forced[0], forced[1..];
        return;
      }
      if id !in rows || rows[id].state !in from || !VersionMatches(expected, rows[id]) { return Affected(0, None); }
      rows := rows[id := Row(to, rows[id].version + 1)];
      reply := Affected(1, Some(rows[id].version));
    }
  }

  datatype Moved = Moved(from: seq<Name>, to: Name, version: Option<int>)

  /** What a transition does to a row of its own. */
  ghost function After(m: Machine, row: Option<Row>, request: Request): Option<Row>
  {
    if Succeeds(m, row, request) then Some(Row(request.to, row.value.version + 1)) else row
  }

  ghost predicate Succeeds(m: Machine, row: Option<Row>, request: Request)
  {
    && Legal(m, request) && SafeVersion(request.expected)
    && row.Some? && Names(m, request, row.value.state) && VersionMatches(request.expected, row.value)
  }

  function RowOf<Id>(rows: map<Id, Row>, id: Id): Option<Row>
  {
    if id in rows then Some(rows[id]) else None
  }

  /**
   * One transition. Misuse never reaches the port; a lost race is never a silent success; a count that
   * is not exactly 0 or 1 is neither.
   */
  method Transit<Id>(
      m: Machine, port: MemoryTransitionPort<Id>, id: Id, request: Request) returns (outcome: Result<Moved, Failure>)
    requires WellDefined(m)
    modifies port
    ensures !Legal(m, request) ==> outcome == Err(Illegal)
    ensures Legal(m, request) && !SafeVersion(request.expected) ==> outcome == Err(BadVersion)
    ensures outcome == Err(BadVersion) ==>
      || request.expected.NoInteger?
      || (request.expected.Exactly?
          && !(-0x1f_ffff_ffff_ffff <= request.expected.version <= 0x1f_ffff_ffff_ffff))
    ensures outcome.Ok? && request.expected.Exactly? ==>
      -0x1f_ffff_ffff_ffff <= request.expected.version <= 0x1f_ffff_ffff_ffff
    ensures outcome.Ok? ==> !request.expected.NoInteger?
    ensures outcome.Ok? ==> outcome.value.to == request.to && Distinct(outcome.value.from)
    ensures outcome.Ok? ==> forall s :: s in outcome.value.from <==> Names(m, request, s)
    ensures outcome in {Err(Illegal), Err(BadVersion)} <==> port.commands == old(port.commands)
    ensures port.commands == old(port.commands) ==> port.rows == old(port.rows)
    ensures old(port.forced) == [] ==>
      && RowOf(port.rows, id) == After(m, RowOf(old(port.rows), id), request)
      && (forall other :: other != id ==> RowOf(port.rows, other) == RowOf(old(port.rows), other))
      && (outcome.Ok? <==> Succeeds(m, RowOf(old(port.rows), id), request))
      && (outcome.Ok? ==> outcome.value.version == Some(port.rows[id].version) && outcome.value.to == request.to)
      && (outcome == Err(Stale) <==>
            port.commands != old(port.commands) && !Succeeds(m, RowOf(old(port.rows), id), request))
    ensures old(port.forced) != [] && port.commands != old(port.commands) ==>
      var reply := old(port.forced)[0];
      && port.rows == old(port.rows)
      && (outcome.Ok? <==> reply.Affected? && reply.count == 1)
      && (outcome.Ok? ==> outcome.value.version == reply.version)
      && (outcome == Err(PortFailed) <==> reply.Throws?)
      && (outcome == Err(Stale) <==> reply.Affected? && reply.count == 0)
      && (outcome == Err(OutcomeUnknown) <==> reply.Garbage? || (reply.Affected? && reply.count !in {0, 1}))
  {
    var sources := SourcesFor(m, request);
    if sources.Err? { return Err(Illegal); }
    if !SafeVersion(request.expected) { return Err(BadVersion); }
    var reply := port.CompareAndSet(id, sources.value, request.to, request.expected);
    match reply {
      case Throws => outcome := Err(PortFailed);
      case Garbage => outcome := Err(OutcomeUnknown);
      case Affected(count, version) =>
        if count == 0 {
          outcome := Err(Stale);
        } else if count != 1 {
          outcome := Err(OutcomeUnknown);
        } else {
          outcome := Ok(Moved(sources.value, request.to, version));
        }
    }
  }

  // ---- Histories. The port is atomic, so an interleaving of any callers is a sequence of transitions.

  /** The row after the first transitions of a history. */
  ghost function RowAfter(m: Machine, row: Option<Row>, history: seq<Request>): Option<Row>
  {
    if |history| == 0 then row else After(m, RowAfter(m, row, history[..|history| - 1]), history[|history| - 1])
  }

  /** Whether transition `i` of the history succeeds. */
  ghost predicate Wins(m: Machine, row: Option<Row>, history: seq<Request>, i: nat)
  {
    i < |history| && Succeeds(m, RowAfter(m, row, history[..i]), history[i])
  }

  ghost function Successes(m: Machine, row: Option<Row>, history: seq<Request>): nat
  {
    if |history| == 0 then 0
    else
      var init := history[..|history| - 1];
      Successes(m, row, init) + if Succeeds(m, RowAfter(m, row, init), history[|history| - 1]) then 1 else 0
  }

  /** The states the row goes through, a new one for each success. */
  ghost function Visited(m: Machine, row: Option<Row>, history: seq<Request>): seq<Name>
    requires row.Some?
  {
    if |history| == 0 then [row.value.state]
    else
      var init, last := history[..|history| - 1], history[|history| - 1];
      Visited(m, row, init) + if Succeeds(m, RowAfter(m, row, init), last) then [last.to] else []
  }

  ghost predicate IsPath(m: Machine, states: seq<Name>)
  {
    forall i :: 0 < i < |states| ==> CanTransition(m, states[i - 1], states[i])
  }

  lemma SucceedsMoves(m: Machine, row: Option<Row>, request: Request)
    requires WellDefined(m) && Succeeds(m, row, request)
    ensures CanTransition(m, row.value.state, request.to)
  {
    if request.from.Some? {
      var from := request.from.value;
      var i :| 0 <= i < |from| && from[i] == row.value.state;
      assert CanTransition(m, from[i], request.to);
    }
  }

  /** The states of a row are a path of the machine, and its version counts the moves. */
  lemma {:induction false} HistoryIsPath(m: Machine, row: Option<Row>, history: seq<Request>)
    requires WellDefined(m) && row.Some?
    ensures var end, visited := RowAfter(m, row, history), Visited(m, row, history);
      && end.Some? && |visited| > 0 && visited[0] == row.value.state && visited[|visited| - 1] == end.value.state
      && IsPath(m, visited)
      && |visited| == Successes(m, row, history) + 1
      && end.value.version == row.value.version + Successes(m, row, history)
  {
    if |history| > 0 {
      var init, last := history[..|history| - 1], history[|history| - 1];
      HistoryIsPath(m, row, init);
      if Succeeds(m, RowAfter(m, row, init), last) { SucceedsMoves(m, RowAfter(m, row, init), last); }
    }
  }

  /** A terminal state is never left. */
  lemma {:induction false} TerminalStays(m: Machine, row: Option<Row>, history: seq<Request>)
    requires WellDefined(m) && row.Some? && IsTerminal(m, row.value.state)
    ensures RowAfter(m, row, history) == row
  {
    if |history| > 0 {
      var init, last := history[..|history| - 1], history[|history| - 1];
      TerminalStays(m, row, init);
      if Succeeds(m, row, last) {
        SucceedsMoves(m, row, last);
        SourcesInvertTargets(m, row.value.state, last.to);
      }
    }
  }

  lemma {:induction false} VersionGrows(m: Machine, row: Option<Row>, history: seq<Request>, i: nat)
    requires row.Some? && i <= |history|
    ensures RowAfter(m, row, history[..i]).Some? && RowAfter(m, row, history).Some?
    ensures RowAfter(m, row, history[..i]).value.version <= RowAfter(m, row, history).value.version
    decreases |history|
  {
    if i < |history| {
      var init := history[..|history| - 1];
      VersionGrows(m, row, init, i);
      assert init[..i] == history[..i];
    } else {
      assert history[..i] == history;
      if |history| > 0 {
        assert history[..|history| - 1][..|history| - 1] == history[..|history| - 1];
        VersionGrows(m, row, history[..|history| - 1], |history| - 1);
      }
    }
  }

  /** Of all the transitions that expect one version at most one succeeds. */
  lemma {:induction false} OneWinnerPerVersion(m: Machine, row: Option<Row>, history: seq<Request>, i: nat, j: nat)
    requires row.Some? && Wins(m, row, history, i) && Wins(m, row, history, j)
    requires history[i].expected.Exactly? && history[j].expected == history[i].expected
    ensures i == j
  {
    if i < j { LaterLoses(m, row, history, i, j); }
    if j < i { LaterLoses(m, row, history, j, i); }
  }

  lemma {:induction false} LaterLoses(m: Machine, row: Option<Row>, history: seq<Request>, i: nat, j: nat)
    requires row.Some? && i < j < |history| && Wins(m, row, history, i)
    ensures RowAfter(m, row, history[..j]).Some?
    ensures RowAfter(m, row, history[..j]).value.version > RowAfter(m, row, history[..i]).value.version
  {
    assert history[..i + 1][..i] == history[..i];
    assert history[..j][..i + 1] == history[..i + 1];
    VersionGrows(m, row, history[..j], i + 1);
  }
}
