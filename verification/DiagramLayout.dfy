/**
 The cancellable layout runs of the schema diagram.

 A graph is rebuilt whenever anything about it changes, its signature only when its structure
 does. The layout effect cancels the run it started before and starts another unless the
 structure has been laid out; a run settles later, or never, and writes only if it was not
 cancelled. The effect of a render runs some time after that render.
 */
module DiagramLayout {
  import opened Common

  type Position = (real, real)

  /** A table card: its address, what it shows (columns expanded or not), and where it is. */
  datatype Node = Node(id: string, content: string, position: Position)

  datatype Graph = Graph(nodes: seq<Node>, signature: string)

  /** One run of the layout engine: the graph it was started on, and how it stands. */
  datatype Run = Run(graph: Graph, cancelled: bool, settled: bool)

  /** What a run settles on: positions, no result at all, or a rejection. */
  datatype Outcome = Layouted(positions: map<string, Position>) | NoResult | Rejected

  datatype Diagram = Diagram(
    graph: Graph,
    due: bool,                          // the effect of the last render has not run yet
    mounted: bool,
    runs: seq<Run>,
    cleanup: Option<nat>,               // the run the effect's cleanup cancels
    lastLayoutSig: Option<string>,      // the ref
    layoutedSignature: Option<string>,  // the state
    positions: map<string, Position>,
    drawn: seq<Node>)

  datatype Event =
    | Rebuild(graph: Graph)
    | InstanceChanged                   // another dependency of the effect settles on a new identity
    | RunEffect
    | Settle(run: nat, outcome: Outcome)
    | Drag(id: string, position: Position)
    | Unmount

  function Moved(nodes: seq<Node>, positions: map<string, Position>): (moved: seq<Node>)
    ensures |moved| == |nodes|
    ensures forall i :: 0 <= i < |nodes| ==>
              moved[i] == if nodes[i].id in positions then nodes[i].(position := positions[nodes[i].id]) else nodes[i]
  {
    if nodes == [] then []
    else
      [if nodes[0].id in positions then nodes[0].(position := positions[nodes[0].id]) else nodes[0]]
      + Moved(nodes[1..], positions)
  }

  /** The positions remembered after each of `nodes` was recorded, the last one winning. */
  function Recorded(positions: map<string, Position>, nodes: seq<Node>): map<string, Position> {
    if nodes == [] then positions
    else Recorded(positions, nodes[..|nodes| - 1])[nodes[|nodes| - 1].id := nodes[|nodes| - 1].position]
  }

  function Mounted(graph: Graph): Diagram {
    Diagram(graph, true, true, [], None, None, None, map[], graph.nodes)
  }

  predicate SpinnerShows(d: Diagram) {
    d.graph.nodes != [] && d.layoutedSignature != Some(d.graph.signature)
  }

  function Cancelled(d: Diagram): Diagram {
    if d.cleanup.Some? && d.cleanup.value < |d.runs| then
      var i := d.cleanup.value;
      d.(runs := d.runs[i := d.runs[i].(cancelled := true)], cleanup := None)
    else d.(cleanup := None)
  }

  /** An effect runs before the next render, and a render needs a mounted component. */
  predicate Enabled(d: Diagram, event: Event) {
    match event
    case Rebuild(_) => d.mounted && !d.due
    case InstanceChanged => d.mounted && !d.due
    case RunEffect => d.mounted && d.due
    case Settle(run, _) => run < |d.runs| && !d.runs[run].settled
    case Drag(_, _) => d.mounted
    case Unmount => d.mounted
  }

  function Step(d: Diagram, event: Event): Diagram
    requires Enabled(d, event)
  {
    match event
    case Rebuild(graph) => d.(graph := graph, due := true, drawn := Moved(graph.nodes, d.positions))
    case InstanceChanged => d.(due := true)
    case RunEffect =>
      var clean := Cancelled(d).(due := false);
      if d.graph.nodes == [] || d.lastLayoutSig == Some(d.graph.signature) then clean
      else clean.(runs := clean.runs + [Run(d.graph, false, false)], cleanup := Some(|clean.runs|))
    case Settle(run, outcome) => Settled(d, run, outcome)
    case Drag(id, position) =>
      d.(positions := d.positions[id := position], drawn := Moved(d.drawn, map[id := position]))
    case Unmount => Cancelled(d).(mounted := false)
  }

  function Settled(d: Diagram, run: nat, outcome: Outcome): Diagram
    requires run < |d.runs|
  {
    var done := d.(runs := d.runs[run := d.runs[run].(settled := true)]);
    if d.runs[run].cancelled then done
    else
      var graph := d.runs[run].graph;
      var recorded := done.(lastLayoutSig := Some(graph.signature), layoutedSignature := Some(graph.signature));
      match outcome
      case Layouted(positions) =>
        var layouted := Moved(graph.nodes, positions);
        recorded.(positions := Recorded(d.positions, layouted), drawn := layouted)
      case _ => recorded
  }

  // ---------------------------------------------------------------- the component

  class SchemaDiagram {
    var graph: Graph
    var due: bool
    var mounted: bool
    var runs: seq<Run>
    var cleanup: Option<nat>
    var lastLayoutSigRef: Option<string>
    var layoutedSignature: Option<string>
    var positionsRef: map<string, Position>
    var nodes: seq<Node>

    ghost function View(): Diagram
      reads this
    {
      Diagram(graph, due, mounted, runs, cleanup, lastLayoutSigRef, layoutedSignature, positionsRef, nodes)
    }

    constructor (first: Graph)
      ensures View() == Mounted(first)
    {
      graph, due, mounted, runs, cleanup := first, true, true, [], None;
      lastLayoutSigRef, layoutedSignature, positionsRef, nodes := None, None, map[], first.nodes;
    }

    method Render(rebuilt: Graph)
      requires Enabled(View(), Rebuild(rebuilt))
      modifies `graph, `due, `nodes
      ensures View() == Step(old(View()), Rebuild(rebuilt))
    {
      graph := rebuilt;
      nodes := Moved(rebuilt.nodes, positionsRef);
      due := true;
    }

    method CleanUp()
      modifies `runs, `cleanup
      ensures View() == Cancelled(old(View()))
    {
      if cleanup.Some? && cleanup.value < |runs| {
        runs := runs[cleanup.value := runs[cleanup.value].(cancelled := true)];
      }
      cleanup := None;
    }

    method LayoutEffect()
      requires Enabled(View(), RunEffect)
      modifies `due, `runs, `cleanup
      ensures View() == Step(old(View()), RunEffect)
    {
      CleanUp();
      due := false;
      if |graph.nodes| == 0 { return; }
      if lastLayoutSigRef == Some(graph.signature) { return; }
      cleanup := Some(|runs|);
      runs := runs + [Run(graph, false, false)];
    }

    method OnSettled(run: nat, outcome: Outcome)
      requires Enabled(View(), Settle(run, outcome))
      modifies `runs, `lastLayoutSigRef, `layoutedSignature, `positionsRef, `nodes
      ensures View() == Step(old(View()), Settle(run, outcome))
    {
      hide Moved;
      hide Recorded;
      var settling := runs[run];
      runs := runs[run := settling.(settled := true)];
      if settling.cancelled { return; }
      lastLayoutSigRef := Some(settling.graph.signature);
      layoutedSignature := Some(settling.graph.signature);
      if !outcome.Layouted? { return; }
      var layouted := Moved(settling.graph.nodes, outcome.positions);
      RecordPositions(layouted);
      nodes := layouted;
    }

    method RecordPositions(layouted: seq<Node>)
      modifies `positionsRef
      ensures positionsRef == Recorded(old(positionsRef), layouted)
    {
      var i := 0;
      while i < |layouted|
        invariant 0 <= i <= |layouted|
        invariant positionsRef == Recorded(old(positionsRef), layouted[..i])
      {
        assert layouted[..i + 1][..i] == layouted[..i];
        positionsRef := positionsRef[layouted[i].id := layouted[i].position];
        i := i + 1;
      }
      assert layouted[..i] == layouted;
    }

    method OnDrag(id: string, position: Position)
      requires mounted
      modifies `positionsRef, `nodes
      ensures View() == Step(old(View()), Drag(id, position))
    {
      positionsRef := positionsRef[id := position];
      nodes := Moved(nodes, map[id := position]);
    }

    method OnUnmount()
      requires mounted
      modifies `mounted, `runs, `cleanup
      ensures View() == Step(old(View()), Unmount)
    {
      CleanUp();
      mounted := false;
    }
  }

  // ---------------------------------------------------------------- whole runs

  predicate Possible(d: Diagram, events: seq<Event>)
    decreases |events|
  {
    events == [] || (Enabled(d, events[0]) && Possible(Step(d, events[0]), events[1..]))
  }

  function After(d: Diagram, events: seq<Event>): Diagram
    requires Possible(d, events)
    decreases |events|
  {
    if events == [] then d else After(Step(d, events[0]), events[1..])
  }

  /** A run that is still out and would write. */
  predicate Live(d: Diagram, run: nat) {
    run < |d.runs| && !d.runs[run].cancelled && !d.runs[run].settled
  }

  predicate UniqueIds(graph: Graph) {
    forall i, j :: 0 <= i < j < |graph.nodes| ==> graph.nodes[i].id != graph.nodes[j].id
  }

  /** `buildGraph` names each node by the path of its object. */
  predicate WellBuilt(events: seq<Event>) {
    forall e <- events :: e.Rebuild? ==> UniqueIds(e.graph)
  }

  ghost predicate Inv(d: Diagram) {
    && d.lastLayoutSig == d.layoutedSignature
    && (d.cleanup.Some? ==> d.mounted && d.cleanup.value < |d.runs| && !d.runs[d.cleanup.value].cancelled)
    && (forall run: nat :: Live(d, run) ==> d.cleanup == Some(run))
    && (d.cleanup.Some? ==>
          var r := d.runs[d.cleanup.value];
          && r.graph.nodes != []
          && (r.settled <==> d.lastLayoutSig == Some(r.graph.signature)))
    && (d.mounted && !d.due ==>
          && (d.cleanup.Some? ==> d.runs[d.cleanup.value].graph == d.graph)
          && (d.cleanup.None? ==> !SpinnerShows(d)))
    && (forall r <- d.runs :: UniqueIds(r.graph))
    && UniqueIds(d.graph)
    && (forall n <- d.drawn :: n.id in d.positions ==> n.position == d.positions[n.id])
  }

  lemma {:induction false} RecordedHolds(positions: map<string, Position>, nodes: seq<Node>)
    requires forall i, j :: 0 <= i < j < |nodes| ==> nodes[i].id != nodes[j].id
    ensures forall n <- nodes :: n.id in Recorded(positions, nodes) && Recorded(positions, nodes)[n.id] == n.position
    decreases |nodes|
  {
    if nodes != [] {
      RecordedHolds(positions, nodes[..|nodes| - 1]);
      var rest, last := nodes[..|nodes| - 1], nodes[|nodes| - 1];
      forall n | n in nodes
        ensures n.id in Recorded(positions, nodes) && Recorded(positions, nodes)[n.id] == n.position
      {
        var i :| 0 <= i < |nodes| && nodes[i] == n;
        if i < |rest| { assert rest[i] == n; }
      }
    }
  }

  lemma StepKeepsInv(d: Diagram, event: Event)
    requires Inv(d) && Enabled(d, event) && (event.Rebuild? ==> UniqueIds(event.graph))
    ensures Inv(Step(d, event))
  {
    var d' := Step(d, event);
    match event
    case RunEffect => EffectKeepsInv(d);
    case Settle(run, outcome) =>
      if d.runs[run].cancelled {
        assert forall k: nat :: Live(d', k) ==> Live(d, k);
      } else {
        LiveSettleKeepsInv(d, run, outcome);
      }
    case Unmount =>
      assert forall run: nat :: Live(d', run) ==> Live(d, run);
    case _ =>
      assert forall run: nat :: Live(d', run) ==> Live(d, run);
  }

  lemma EffectKeepsInv(d: Diagram)
    requires Inv(d) && Enabled(d, RunEffect)
    ensures Inv(Step(d, RunEffect))
  {
    var d' := Step(d, RunEffect);
    assert forall run: nat :: Live(d', run) && run < |d.runs| ==> Live(d, run);
  }

  lemma LiveSettleKeepsInv(d: Diagram, run: nat, outcome: Outcome)
    requires Inv(d) && Enabled(d, Settle(run, outcome)) && !d.runs[run].cancelled
    ensures Inv(Step(d, Settle(run, outcome)))
  {
    var d' := Step(d, Settle(run, outcome));
    assert Live(d, run);
    assert forall k: nat :: Live(d', k) ==> Live(d, k);
    if outcome.Layouted? {
      assert d.runs[run] in d.runs;
      RecordedHolds(d.positions, Moved(d.runs[run].graph.nodes, outcome.positions));
    }
  }

  lemma {:induction false} RunKeepsInv(d: Diagram, events: seq<Event>)
    requires Inv(d) && Possible(d, events) && WellBuilt(events)
    ensures Inv(After(d, events))
    decreases |events|
  {
    if events != [] {
      assert events[0] in events;
      StepKeepsInv(d, events[0]);
      RunKeepsInv(Step(d, events[0]), events[1..]);
    }
  }

  /**
   Main result. In every state a mounted diagram can reach in which no effect is due, the
   spinner shows exactly when a run is out that would write; that run is the only one, and it
   was started on the graph on screen. The ref and the state agree always.
   */
  lemma SpinnerMeansOneRun(first: Graph, events: seq<Event>)
    requires UniqueIds(first) && WellBuilt(events) && Possible(Mounted(first), events)
    ensures var d := After(Mounted(first), events);
            && d.lastLayoutSig == d.layoutedSignature
            && (forall i: nat, j: nat :: Live(d, i) && Live(d, j) ==> i == j)
            && (d.mounted && !d.due ==>
                  && (SpinnerShows(d) <==> exists run: nat :: Live(d, run))
                  && (forall run: nat :: Live(d, run) ==> d.runs[run].graph == d.graph))
            && (!d.mounted ==> forall run: nat :: !Live(d, run))
  {
    assert Inv(Mounted(first));
    RunKeepsInv(Mounted(first), events);
    var d := After(Mounted(first), events);
    if d.mounted && !d.due && SpinnerShows(d) {
      assert Live(d, d.cleanup.value);
    }
  }

  /** A cancelled run stays cancelled, and settling it moves nothing. */
  lemma {:induction false} CancelledNeverWrites(d: Diagram, run: nat, events: seq<Event>, outcome: Outcome)
    requires run < |d.runs| && d.runs[run].cancelled
    requires Possible(d, events + [Settle(run, outcome)])
    ensures Possible(d, events)
    ensures var before, now := After(d, events), After(d, events + [Settle(run, outcome)]);
            now == before.(runs := now.runs)
    decreases |events|
  {
    if events == [] {
      assert ([] + [Settle(run, outcome)])[1..] == [];
    } else {
      assert (events + [Settle(run, outcome)])[1..] == events[1..] + [Settle(run, outcome)];
      CancelledNeverWrites(Step(d, events[0]), run, events[1..], outcome);
    }
  }

  /** Rebuilds that leave the structure as it is, and everything else but unmounting. */
  predicate Cosmetic(events: seq<Event>, signature: string) {
    forall e <- events :: (e.Rebuild? ==> e.graph.signature == signature && UniqueIds(e.graph)) && !e.Unmount?
  }

  /**
   Once a structure has been laid out, or is known to have no layout, no sequence of cosmetic
   rebuilds, drags and late answers starts another run or brings the spinner back.
   */
  lemma {:induction false} CompletedIsNotLaidOutAgain(d: Diagram, events: seq<Event>)
    requires Inv(d) && d.mounted && d.lastLayoutSig == Some(d.graph.signature)
    requires d.cleanup.Some? ==> d.runs[d.cleanup.value].settled
    requires Possible(d, events) && Cosmetic(events, d.graph.signature)
    ensures var now := After(d, events);
            |now.runs| == |d.runs| && !SpinnerShows(now) && now.graph.signature == d.graph.signature
    decreases |events|
  {
    if events != [] {
      assert events[0] in events;
      var next := Step(d, events[0]);
      StepKeepsInv(d, events[0]);
      if events[0].Settle? {
        assert !Live(d, events[0].run);
      }
      CompletedIsNotLaidOutAgain(next, events[1..]);
    }
  }

  /** A rebuilt node is drawn where the user or the layout last put it. */
  lemma RebuildKeepsPlaces(first: Graph, events: seq<Event>, graph: Graph, i: nat)
    requires UniqueIds(first) && WellBuilt(events) && Possible(Mounted(first), events)
    requires var d := After(Mounted(first), events); Enabled(d, Rebuild(graph)) && i < |graph.nodes|
    requires exists n <- After(Mounted(first), events).drawn ::
               n.id == graph.nodes[i].id && n.id in After(Mounted(first), events).positions
    ensures var d := After(Mounted(first), events);
            var n' := Step(d, Rebuild(graph)).drawn[i];
            forall n <- d.drawn :: n.id == graph.nodes[i].id ==>
              n'.position == n.position && n'.content == graph.nodes[i].content
  {
    assert Inv(Mounted(first));
    RunKeepsInv(Mounted(first), events);
  }

  // ---------------------------------------------------------------- a render overtaken

  function Contents(nodes: seq<Node>): seq<(string, string)> {
    seq(|nodes|, i requires 0 <= i < |nodes| => (nodes[i].id, nodes[i].content))
  }

  /** The run this event draws, if it draws one: what settles uncancelled on positions. */
  predicate Draws(d: Diagram, event: Event) {
    event.Settle? && event.outcome.Layouted? && event.run < |d.runs| && !d.runs[event.run].cancelled
  }

  function DrawnBy(d: Diagram, event: Event): Graph
    requires Draws(d, event)
  {
    d.runs[event.run].graph
  }

  /** The graph drawn last: that of the last rebuild, or of the last run that drew. */
  function LastDrawn(d: Diagram, shown: Graph, events: seq<Event>): Graph
    requires Possible(d, events)
    decreases |events|
  {
    if events == [] then shown
    else
      var now :=
        if events[0].Rebuild? then events[0].graph
        else if Draws(d, events[0]) then DrawnBy(d, events[0])
        else shown;
      LastDrawn(Step(d, events[0]), now, events[1..])
  }

  lemma MovedContents(nodes: seq<Node>, positions: map<string, Position>)
    ensures Contents(Moved(nodes, positions)) == Contents(nodes)
  {
  }

  lemma {:induction false} DrawnIsLastDrawn(d: Diagram, shown: Graph, events: seq<Event>)
    requires Possible(d, events) && Contents(d.drawn) == Contents(shown.nodes)
    ensures Contents(After(d, events).drawn) == Contents(LastDrawn(d, shown, events).nodes)
    decreases |events|
  {
    hide Contents;
    if events != [] {
      var event, next := events[0], Step(d, events[0]);
      if event.Rebuild? {
        MovedContents(event.graph.nodes, d.positions);
        DrawnIsLastDrawn(next, event.graph, events[1..]);
      } else if Draws(d, event) {
        MovedContents(d.runs[event.run].graph.nodes, event.outcome.positions);
        DrawnIsLastDrawn(next, d.runs[event.run].graph, events[1..]);
      } else {
        if event.Drag? {
          MovedContents(d.drawn, map[event.id := event.position]);
        }
        DrawnIsLastDrawn(next, shown, events[1..]);
      }
    }
  }

  /** Over every run: the cards drawn are those of the graph on screen iff the graph drawn last has them. */
  lemma DrawnIsTheGraphIff(first: Graph, events: seq<Event>)
    requires Possible(Mounted(first), events)
    ensures var d := After(Mounted(first), events);
            Contents(d.drawn) == Contents(d.graph.nodes)
            <==> Contents(LastDrawn(Mounted(first), first, events).nodes) == Contents(d.graph.nodes)
  {
    DrawnIsLastDrawn(Mounted(first), first, events);
  }

  // ---------------------------------------------------------------- where the cards stand

  /** Where a landing result puts a card of its graph: the position it came to, or the card's own. */
  function PutBy(nodes: seq<Node>, result: map<string, Position>, id: string): Option<Position> {
    if nodes == [] then None
    else if nodes[0].id == id then Some(if id in result then result[id] else nodes[0].position)
    else PutBy(nodes[1..], result, id)
  }

  /** Where the last drag or landed result put a card, read off the events; `was` is from before them. */
  function LastPut(d: Diagram, was: Option<Position>, events: seq<Event>, id: string): Option<Position>
    requires Possible(d, events)
    decreases |events|
  {
    if events == [] then was else LastPut(Step(d, events[0]), NowPut(d, was, events[0], id), events[1..], id)
  }

  function NowPut(d: Diagram, was: Option<Position>, event: Event, id: string): Option<Position> {
    if event.Drag? && event.id == id then Some(event.position)
    else if Draws(d, event) && PutBy(DrawnBy(d, event).nodes, event.outcome.positions, id).Some? then
      PutBy(DrawnBy(d, event).nodes, event.outcome.positions, id)
    else was
  }

  function Remembered(positions: map<string, Position>, id: string): Option<Position> {
    if id in positions then Some(positions[id]) else None
  }

  lemma PutByLast(nodes: seq<Node>, result: map<string, Position>, id: string)
    requires nodes != []
    ensures var last := nodes[|nodes| - 1];
            PutBy(nodes, result, id)
            == if PutBy(nodes[..|nodes| - 1], result, id).Some? then PutBy(nodes[..|nodes| - 1], result, id)
               else if last.id == id then Some(if id in result then result[id] else last.position)
               else None
  {
    if |nodes| > 1 && nodes[0].id != id {
      PutByLast(nodes[1..], result, id);
      assert nodes[1..][..|nodes| - 2] == nodes[..|nodes| - 1][1..];
    }
  }

  lemma PutBySome(nodes: seq<Node>, result: map<string, Position>, id: string)
    ensures PutBy(nodes, result, id).Some? ==> exists i :: 0 <= i < |nodes| && nodes[i].id == id
  {
    if nodes != [] && nodes[0].id != id && PutBy(nodes, result, id).Some? {
      PutBySome(nodes[1..], result, id);
      var i :| 0 <= i < |nodes[1..]| && nodes[1..][i].id == id;
      assert nodes[i + 1].id == id;
    }
  }

  lemma MovedLast(nodes: seq<Node>, result: map<string, Position>)
    requires nodes != []
    ensures var rest, last := nodes[..|nodes| - 1], nodes[|nodes| - 1];
            Moved(nodes, result)
            == Moved(rest, result) + [last.(position := if last.id in result then result[last.id] else last.position)]
  {
  }

  lemma RecordedLast(positions: map<string, Position>, rest: seq<Node>, last: Node)
    ensures Recorded(positions, rest + [last]) == Recorded(positions, rest)[last.id := last.position]
  {
    assert (rest + [last])[..|rest|] == rest;
  }

  lemma {:induction false} RecordedAt(positions: map<string, Position>, nodes: seq<Node>,
          result: map<string, Position>, id: string)
    requires forall i, j :: 0 <= i < j < |nodes| ==> nodes[i].id != nodes[j].id
    ensures var put := PutBy(nodes, result, id);
            Remembered(Recorded(positions, Moved(nodes, result)), id)
            == if put.Some? then put else Remembered(positions, id)
    decreases |nodes|
  {
    hide Moved;
    hide Recorded;
    hide PutBy;
    if nodes == [] {
      NothingRecorded(positions, result, id);
    } else {
      var rest, last := nodes[..|nodes| - 1], nodes[|nodes| - 1];
      RecordedAt(positions, rest, result, id);
      PutByLast(nodes, result, id);
      PutBySome(rest, result, id);
      MovedLast(nodes, result);
      var at := if last.id in result then result[last.id] else last.position;
      RecordedLast(positions, Moved(rest, result), last.(position := at));
    }
  }

  lemma NothingRecorded(positions: map<string, Position>, result: map<string, Position>, id: string)
    ensures Recorded(positions, Moved([], result)) == positions && PutBy([], result, id) == None
  {
  }

  lemma StepPuts(d: Diagram, event: Event, id: string)
    requires Inv(d) && Enabled(d, event)
    ensures Remembered(Step(d, event).positions, id) == NowPut(d, Remembered(d.positions, id), event, id)
  {
    if Draws(d, event) {
      hide Recorded;
      hide Moved;
      hide PutBy;
      assert d.runs[event.run] in d.runs;
      RecordedAt(d.positions, DrawnBy(d, event).nodes, event.outcome.positions, id);
    }
  }

  lemma {:induction false} PositionsAreLastPut(d: Diagram, events: seq<Event>, id: string)
    requires Inv(d) && Possible(d, events) && WellBuilt(events)
    ensures Remembered(After(d, events).positions, id) == LastPut(d, Remembered(d.positions, id), events, id)
    decreases |events|
  {
    hide Inv;
    hide Step;
    hide Enabled;
    hide NowPut;
    hide Remembered;
    if events != [] {
      assert events[0] in events;
      StepKeepsInv(d, events[0]);
      StepPuts(d, events[0], id);
      PositionsAreLastPut(Step(d, events[0]), events[1..], id);
    }
  }

  /** The cards are those of `shown`, and one that nothing has put anywhere stands where `shown` has it. */
  ghost predicate Shows(d: Diagram, shown: Graph) {
    && |d.drawn| == |shown.nodes|
    && forall i :: 0 <= i < |d.drawn| ==>
         && d.drawn[i].id == shown.nodes[i].id
         && (d.drawn[i].id in d.positions || d.drawn[i].position == shown.nodes[i].position)
  }

  function NowShown(d: Diagram, shown: Graph, event: Event): Graph {
    if event.Rebuild? then event.graph else if Draws(d, event) then DrawnBy(d, event) else shown
  }

  lemma StepShows(d: Diagram, shown: Graph, event: Event)
    requires Inv(d) && Enabled(d, event) && Shows(d, shown)
    ensures Shows(Step(d, event), NowShown(d, shown, event))
  {
    if Draws(d, event) {
      assert d.runs[event.run] in d.runs;
      RecordedHolds(d.positions, Moved(DrawnBy(d, event).nodes, event.outcome.positions));
    }
  }

  lemma {:induction false} RunShows(d: Diagram, shown: Graph, events: seq<Event>)
    requires Inv(d) && Possible(d, events) && WellBuilt(events) && Shows(d, shown)
    ensures Shows(After(d, events), LastDrawn(d, shown, events))
    decreases |events|
  {
    hide Inv;
    hide Step;
    hide Enabled;
    hide Shows;
    if events != [] {
      assert events[0] in events;
      StepKeepsInv(d, events[0]);
      StepShows(d, shown, events[0]);
      RunShows(Step(d, events[0]), NowShown(d, shown, events[0]), events[1..]);
    }
  }

  /**
   Main result about places. In every state a diagram can reach: each card drawn stands where the
   last drag of it or the last landed result with it put it, and is remembered there; a card
   nothing has put anywhere stands where the graph drawn last has it.
   */
  lemma CardsStandWherePut(first: Graph, events: seq<Event>, i: nat)
    requires UniqueIds(first) && WellBuilt(events) && Possible(Mounted(first), events)
    requires i < |After(Mounted(first), events).drawn|
    ensures var d := After(Mounted(first), events);
            var card, shown := d.drawn[i], LastDrawn(Mounted(first), first, events);
            var at := LastPut(Mounted(first), None, events, card.id);
            && Remembered(d.positions, card.id) == at
            && i < |shown.nodes| && card.id == shown.nodes[i].id
            && card.position == if at.Some? then at.value else shown.nodes[i].position
  {
    var m := Mounted(first);
    assert Inv(m);
    RunKeepsInv(m, events);
    RunShows(m, first, events);
    var d := After(m, events);
    PositionsAreLastPut(m, events, d.drawn[i].id);
    assert d.drawn[i] in d.drawn;
  }

  /** When a run lands, every card it has a position for is drawn and remembered there. */
  lemma LandedWhereLaidOut(first: Graph, events: seq<Event>, run: nat, result: map<string, Position>)
    requires UniqueIds(first) && WellBuilt(events) && Possible(Mounted(first), events)
    requires var d := After(Mounted(first), events);
             Enabled(d, Settle(run, Layouted(result))) && !d.runs[run].cancelled
    ensures var d := After(Mounted(first), events);
            var landed := Step(d, Settle(run, Layouted(result)));
            && |landed.drawn| == |d.runs[run].graph.nodes|
            && forall i :: 0 <= i < |landed.drawn| ==>
                 var node := d.runs[run].graph.nodes[i];
                 var at := if node.id in result then result[node.id] else node.position;
                 landed.drawn[i] == node.(position := at) && Remembered(landed.positions, node.id) == Some(at)
  {
    hide Moved;
    hide Recorded;
    assert Inv(Mounted(first));
    RunKeepsInv(Mounted(first), events);
    var d := After(Mounted(first), events);
    var nodes := d.runs[run].graph.nodes;
    assert d.runs[run] in d.runs;
    RecordedHolds(d.positions, Moved(nodes, result));
    var moved := Moved(nodes, result);
    assert forall i :: 0 <= i < |moved| ==> moved[i] in moved;
  }

  /**
   The graph of the last run that drew, if that run overtook an effect: it settled after a
   render and before the effect that would have cancelled it.
   */
  function Overtook(d: Diagram, events: seq<Event>): Option<Graph>
    requires Possible(d, events)
    decreases |events|
  {
    if events == [] then None
    else
      var later := events[1..];
      var next := Step(d, events[0]);
      if Overtook(next, later).Some? then Overtook(next, later)
      else if NoneDraws(next, later) && Draws(d, events[0]) && d.due then Some(DrawnBy(d, events[0]))
      else None
  }

  predicate NoneDraws(d: Diagram, events: seq<Event>)
    requires Possible(d, events)
    decreases |events|
  {
    events == [] || (!Draws(d, events[0]) && NoneDraws(Step(d, events[0]), events[1..]))
  }

  predicate WithoutRebuild(events: seq<Event>) {
    forall e <- events :: !e.Rebuild?
  }

  lemma DrawsTheScreen(d: Diagram, event: Event)
    requires Inv(d) && Enabled(d, event) && Draws(d, event)
    ensures d.due || DrawnBy(d, event) == d.graph
  {
    assert Live(d, event.run);
  }

  lemma StepKeepsGraph(d: Diagram, event: Event)
    requires Enabled(d, event) && !event.Rebuild?
    ensures Step(d, event).graph == d.graph
  {
  }

  function LastDrawnAs(shown: Graph, screen: Graph, drew: bool, overtook: Option<Graph>): Graph {
    if !drew then shown else if overtook.Some? then overtook.value else screen
  }

  lemma {:induction false} NobodyOvertook(d: Diagram, events: seq<Event>)
    requires Possible(d, events)
    ensures NoneDraws(d, events) ==> Overtook(d, events).None?
    decreases |events|
  {
    if events != [] {
      NobodyOvertook(Step(d, events[0]), events[1..]);
    }
  }

  /** Between two rebuilds the screen's graph is drawn last, unless the last run that drew overtook an effect. */
  lemma {:induction false} LastDrawnIsOvertaking(d: Diagram, shown: Graph, events: seq<Event>)
    requires Inv(d) && Possible(d, events) && WithoutRebuild(events)
    ensures After(d, events).graph == d.graph
    ensures LastDrawn(d, shown, events) == LastDrawnAs(shown, d.graph, !NoneDraws(d, events), Overtook(d, events))
    decreases |events|
  {
    hide Inv;
    hide Step;
    hide Enabled;
    hide Draws;
    hide DrawnBy;
    if events != [] {
      assert events[0] in events;
      var next, later := Step(d, events[0]), events[1..];
      StepKeepsInv(d, events[0]);
      StepKeepsGraph(d, events[0]);
      assert forall e <- later :: e in events;
      NobodyOvertook(next, later);
      if Draws(d, events[0]) {
        DrawsTheScreen(d, events[0]);
        LastDrawnIsOvertaking(next, DrawnBy(d, events[0]), later);
      } else {
        LastDrawnIsOvertaking(next, shown, later);
      }
    }
  }

  /**
   Main result about what is drawn. From one rebuild to the next, in every state: the cards
   are those of the rebuilt graph if and only if the last run that drew did not overtake an
   effect, or was started on a graph with the same cards.
   */
  lemma RebuiltIsDrawnIff(first: Graph, before: seq<Event>, graph: Graph, events: seq<Event>)
    requires UniqueIds(first) && WellBuilt(before) && UniqueIds(graph)
    requires Possible(Mounted(first), before) && Enabled(After(Mounted(first), before), Rebuild(graph))
    requires WithoutRebuild(events) && Possible(Step(After(Mounted(first), before), Rebuild(graph)), events)
    ensures var d := Step(After(Mounted(first), before), Rebuild(graph));
            && After(d, events).graph == graph
            && (Contents(After(d, events).drawn) == Contents(graph.nodes)
                <==> Overtook(d, events).None? || Contents(Overtook(d, events).value.nodes) == Contents(graph.nodes))
  {
    RunKeepsInv(Mounted(first), before);
    var d0 := After(Mounted(first), before);
    var d := Step(d0, Rebuild(graph));
    StepKeepsInv(d0, Rebuild(graph));
    MovedContents(graph.nodes, d0.positions);
    DrawnIsLastDrawn(d, graph, events);
    LastDrawnIsOvertaking(d, graph, events);
    NobodyOvertook(d, events);
  }

  /**
   What overtaking costs: a second read of the schema finds a table with one column more while
   its layout is out, and the layout lands before the effect of that render. The card is drawn
   as it was, and as the structure counts as laid out no run is left to put it right.
   */
  lemma OvertakenRenderIsLost(at: Position)
    ensures var read := Graph([Node("t", "id", at)], "s");
            var again := Graph([Node("t", "id, name", at)], "s");
            var d0 := Mounted(read);
            && Enabled(d0, RunEffect) && var d1 := Step(d0, RunEffect);
            && Enabled(d1, Rebuild(again)) && var d2 := Step(d1, Rebuild(again));
            && Enabled(d2, Settle(0, Layouted(map[]))) && var d3 := Step(d2, Settle(0, Layouted(map[])));
            && Enabled(d3, RunEffect) && var d4 := Step(d3, RunEffect);
            && d4.graph == again && !SpinnerShows(d4) && (forall run: nat :: !Live(d4, run))
            && Contents(d4.drawn) != Contents(d4.graph.nodes)
  {
    var read, again := Graph([Node("t", "id", at)], "s"), Graph([Node("t", "id, name", at)], "s");
    var d1 := Step(Mounted(read), RunEffect);
    var d2 := Step(d1, Rebuild(again));
    var d3 := Step(d2, Settle(0, Layouted(map[])));
    var d4 := Step(d3, RunEffect);
    assert d3.drawn == Moved(read.nodes, map[]) == read.nodes;
    assert d4.drawn == d3.drawn;
    assert Contents(d4.drawn)[0] == ("t", "id");
    assert Contents(again.nodes)[0] == ("t", "id, name");
    assert "id" != "id, name" by { assert |"id"| != |"id, name"|; }
  }
}
