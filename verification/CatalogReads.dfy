/**
 Overlapping catalog reads of the connection manager.

 A read takes two requests and settles whenever it likes, possibly after the reader of the
 screen has moved on. A counter decides which read may still write: beginning a read bumps it
 and remembers the value, and a connection whose reads are deferred bumps it without reading.
 */
module CatalogReads {
  import opened Common

  datatype Connection = Connection(id: string, skipObjectScan: bool)

  /** What `/api/db/provider-meta` came to: the relation kinds to ask for, or a failure. */
  datatype Meta = MetaFailed(message: string) | MetaKinds(kinds: seq<string>)

  /** What `/api/db/objects/inventory` came to. */
  datatype Inventory = InventoryFailed(message: string) | NotAList | Listed(objects: seq<string>)

  datatype Phase = AwaitingMeta | AwaitingInventory | Finished

  /** One read in flight: the generation its predicate compares with, and how far it got. */
  datatype Read = Read(generation: nat, phase: Phase)

  datatype Catalog = Catalog(
    generation: nat,
    issued: seq<Read>,
    schema: seq<string>,
    schemaError: Option<string>,
    isLoadingSchema: bool,
    scanRequested: Option<string>)

  /**
   What can happen. `Fetch` carries the scan request its closure saw, which a stale render
   makes any earlier value; `Load` carries the active connection its closure saw.
   */
  datatype Event =
    | Fetch(conn: Connection, seenRequest: Option<string>)
    | Load(active: Option<Connection>)
    | MetaAnswered(read: nat, meta: Meta)
    | InventoryAnswered(read: nat, inventory: Inventory)

  const NOT_A_LIST := "The object inventory answered a body this list cannot render"

  const FRESH := Catalog(0, [], [], None, false, None)

  predicate ScanDeferred(conn: Connection, scanRequested: Option<string>) {
    conn.skipObjectScan && scanRequested != Some(conn.id)
  }

  function Began(c: Catalog): Catalog {
    c.(generation := c.generation + 1,
       issued := c.issued + [Read(c.generation + 1, AwaitingMeta)],
       isLoadingSchema := true)
  }

  function Deferred(c: Catalog): Catalog {
    c.(generation := c.generation + 1, schema := [], schemaError := None, isLoadingSchema := false)
  }

  predicate IsCurrent(c: Catalog, read: nat)
    requires read < |c.issued|
  {
    c.issued[read].generation == c.generation
  }

  /** A read settles on a list or an error: only the current one may write. */
  function Settled(c: Catalog, read: nat, schema: seq<string>, error: Option<string>): Catalog
    requires read < |c.issued|
  {
    var done := c.(issued := c.issued[read := c.issued[read].(phase := Finished)]);
    if IsCurrent(c, read) then done.(schema := schema, schemaError := error, isLoadingSchema := false) else done
  }

  predicate Enabled(c: Catalog, event: Event) {
    match event
    case Fetch(_, _) => true
    case Load(_) => true
    case MetaAnswered(read, _) => read < |c.issued| && c.issued[read].phase == AwaitingMeta
    case InventoryAnswered(read, _) => read < |c.issued| && c.issued[read].phase == AwaitingInventory
  }

  function Step(c: Catalog, event: Event): Catalog
    requires Enabled(c, event)
  {
    match event
    case Fetch(conn, seen) => if ScanDeferred(conn, seen) then Deferred(c) else Began(c)
    case Load(active) => if active.None? then c else Began(c.(scanRequested := Some(active.value.id)))
    case MetaAnswered(read, meta) =>
      (match meta
       case MetaFailed(message) => Settled(c, read, [], Some(message))
       case MetaKinds(kinds) =>
         if kinds == [] then Settled(c, read, [], None)
         else c.(issued := c.issued[read := c.issued[read].(phase := AwaitingInventory)]))
    case InventoryAnswered(read, inventory) =>
      (match inventory
       case InventoryFailed(message) => Settled(c, read, [], Some(message))
       case NotAList => Settled(c, read, [], Some(NOT_A_LIST))
       case Listed(objects) => Settled(c, read, objects, None))
  }

  // ---------------------------------------------------------------- the hook's own state

  /** The counter of `useReadGeneration`, and the state the hook sets, updated in place. */
  class ConnectionManager {
    var current: nat
    var issued: seq<Read>
    var schema: seq<string>
    var schemaError: Option<string>
    var isLoadingSchema: bool
    var scanRequested: Option<string>

    ghost function View(): Catalog
      reads this
    {
      Catalog(current, issued, schema, schemaError, isLoadingSchema, scanRequested)
    }

    constructor ()
      ensures View() == FRESH
    {
      current, issued, schema, schemaError, isLoadingSchema, scanRequested := 0, [], [], None, false, None;
    }

    method Begin() returns (generation: nat)
      modifies `current
      ensures generation == current == old(current) + 1
    {
      current := current + 1;
      generation := current;
    }

    method ReadSchema()
      modifies this
      ensures View() == Began(old(View()))
    {
      var generation := Begin();
      isLoadingSchema := true;
      issued := issued + [Read(generation, AwaitingMeta)];
    }

    method FetchSchema(conn: Connection, seenRequest: Option<string>)
      modifies this
      ensures View() == Step(old(View()), Fetch(conn, seenRequest))
    {
      if conn.skipObjectScan && seenRequest != Some(conn.id) {
        current := current + 1;
        schema := [];
        schemaError := None;
        isLoadingSchema := false;
        return;
      }
      ReadSchema();
    }

    method LoadObjects(active: Option<Connection>)
      modifies this
      ensures View() == Step(old(View()), Load(active))
    {
      if active.None? { return; }
      scanRequested := Some(active.value.id);
      ReadSchema();
    }

    /** The catch block, then the finally block. */
    method Caught(read: nat, message: string)
      requires read < |issued|
      modifies this
      ensures View() == Settled(old(View()), read, [], Some(message))
    {
      if issued[read].generation == current {
        schema := [];
        schemaError := Some(message);
      }
      Finally(read);
    }

    method Finally(read: nat)
      requires read < |issued|
      modifies `isLoadingSchema, `issued
      ensures issued == old(issued)[read := old(issued)[read].(phase := Finished)]
      ensures isLoadingSchema == (old(isLoadingSchema) && old(issued)[read].generation != current)
    {
      if issued[read].generation == current {
        isLoadingSchema := false;
      }
      issued := issued[read := issued[read].(phase := Finished)];
    }

    method OnMeta(read: nat, meta: Meta)
      requires Enabled(View(), MetaAnswered(read, meta))
      modifies this
      ensures View() == Step(old(View()), MetaAnswered(read, meta))
    {
      match meta
      case MetaFailed(message) =>
        Caught(read, message);
      case MetaKinds(kinds) =>
        if |kinds| == 0 {
          if issued[read].generation == current {
            schema := [];
            schemaError := None;
          }
          Finally(read);
        } else {
          issued := issued[read := issued[read].(phase := AwaitingInventory)];
        }
    }

    method OnInventory(read: nat, inventory: Inventory)
      requires Enabled(View(), InventoryAnswered(read, inventory))
      modifies this
      ensures View() == Step(old(View()), InventoryAnswered(read, inventory))
    {
      match inventory
      case InventoryFailed(message) =>
        Caught(read, message);
      case NotAList =>
        Caught(read, NOT_A_LIST);
      case Listed(objects) =>
        if issued[read].generation == current {
          schema := objects;
          schemaError := None;
        }
        Finally(read);
    }
  }

  // ---------------------------------------------------------------- whole runs

  predicate Possible(c: Catalog, events: seq<Event>)
    decreases |events|
  {
    events == [] || (Enabled(c, events[0]) && Possible(Step(c, events[0]), events[1..]))
  }

  function After(c: Catalog, events: seq<Event>): Catalog
    requires Possible(c, events)
    decreases |events|
  {
    if events == [] then c else After(Step(c, events[0]), events[1..])
  }

  /** A read begins, or a deferred connection comes to the screen: what came before is superseded. */
  predicate Supersedes(event: Event) {
    event.Fetch? || (event.Load? && event.active.Some?)
  }

  predicate Begins(event: Event) {
    Supersedes(event) && (event.Fetch? ==> !ScanDeferred(event.conn, event.seenRequest))
  }

  /** The list and the error a read came to. */
  datatype Result = Result(schema: seq<string>, schemaError: Option<string>)

  /** What `event` settles `read` on, if it settles it at all. */
  function SettlesOn(event: Event, read: nat): Option<Result> {
    match event
    case MetaAnswered(r, MetaFailed(message)) => if r == read then Some(Result([], Some(message))) else None
    case MetaAnswered(r, MetaKinds(kinds)) => if r == read && kinds == [] then Some(Result([], None)) else None
    case InventoryAnswered(r, InventoryFailed(message)) =>
      if r == read then Some(Result([], Some(message))) else None
    case InventoryAnswered(r, NotAList) => if r == read then Some(Result([], Some(NOT_A_LIST))) else None
    case InventoryAnswered(r, Listed(objects)) => if r == read then Some(Result(objects, None)) else None
    case _ => None
  }

  /** What `read` settled on during `events`, read off the events alone. */
  function Outcome(events: seq<Event>, read: nat): Option<Result>
    decreases |events|
  {
    if events == [] then None
    else
      var first := SettlesOn(events[0], read);
      if first.Some? then first else Outcome(events[1..], read)
  }

  /** Generations never run ahead of the counter, and no two reads share one. */
  ghost predicate Inv(c: Catalog) {
    && (forall i :: 0 <= i < |c.issued| ==> c.issued[i].generation <= c.generation)
    && (forall i, j :: 0 <= i < j < |c.issued| ==> c.issued[i].generation < c.issued[j].generation)
  }

  lemma StepKeepsInv(c: Catalog, event: Event)
    requires Inv(c) && Enabled(c, event)
    ensures Inv(Step(c, event))
  {
  }

  lemma {:induction false} RunKeepsInv(c: Catalog, events: seq<Event>)
    requires Inv(c) && Possible(c, events)
    ensures Inv(After(c, events))
    decreases |events|
  {
    if events != [] {
      RunKeepsInv(Step(c, events[0]), events[1..]);
    }
  }

  /** Nothing moved on the screen. */
  ghost predicate SameScreen(c: Catalog, c': Catalog) {
    c'.schema == c.schema && c'.schemaError == c.schemaError && c'.isLoadingSchema == c.isLoadingSchema
  }

  lemma {:induction false} RunInTwo(c: Catalog, first: seq<Event>, second: seq<Event>)
    requires Possible(c, first + second)
    ensures Possible(c, first) && Possible(After(c, first), second)
    ensures After(c, first + second) == After(After(c, first), second)
    decreases |first|
  {
    if first == [] {
      assert first + second == second;
    } else {
      assert (first + second)[1..] == first[1..] + second;
      RunInTwo(Step(c, first[0]), first[1..], second);
    }
  }

  /**
   Main result. Cut any run at the last event that supersedes. If a deferred connection came
   to the screen there, the list is empty, without error and without spinner, whatever older
   reads answered since. If a read began there, the screen holds exactly what that read
   settled on; until it settles, the list and the error are those from before it began and
   the spinner is on. No other read has any say.
   */
  lemma NewestReadDecides(before: seq<Event>, newest: Event, later: seq<Event>)
    requires Supersedes(newest) && forall e <- later :: !Supersedes(e)
    requires Possible(FRESH, before + ([newest] + later))
    ensures Possible(FRESH, before)
    ensures var held := After(FRESH, before);
            var now := After(FRESH, before + ([newest] + later));
            var outcome := Outcome(later, |held.issued|);
            if !Begins(newest) then now.schema == [] && now.schemaError == None && !now.isLoadingSchema
            else if outcome.Some? then Result(now.schema, now.schemaError) == outcome.value && !now.isLoadingSchema
            else now.schema == held.schema && now.schemaError == held.schemaError && now.isLoadingSchema
  {
    RunInTwo(FRESH, before, [newest] + later);
    var held := After(FRESH, before);
    RunKeepsInv(FRESH, before);
    assert ([newest] + later)[1..] == later;
    var begun := Step(held, newest);
    StepKeepsInv(held, newest);
    if Begins(newest) {
      OnlyTheNewestWrites(begun, later, |held.issued|);
    } else {
      NobodyWrites(begun, later);
    }
  }

  /** The counter has moved past every read: none of them writes any more. */
  lemma {:induction false} NobodyWrites(c: Catalog, later: seq<Event>)
    requires Possible(c, later) && forall e <- later :: !Supersedes(e)
    requires forall i :: 0 <= i < |c.issued| ==> c.issued[i].generation < c.generation
    ensures SameScreen(c, After(c, later))
    decreases |later|
  {
    if later != [] {
      assert later[0] in later;
      NobodyWrites(Step(c, later[0]), later[1..]);
    }
  }

  lemma {:induction false} OnlyTheNewestWrites(c: Catalog, later: seq<Event>, read: nat)
    requires Possible(c, later) && forall e <- later :: !Supersedes(e)
    requires Inv(c) && read == |c.issued| - 1 && IsCurrent(c, read) && c.issued[read].phase != Finished
    requires c.isLoadingSchema
    ensures var now, outcome := After(c, later), Outcome(later, read);
            if outcome.Some? then Result(now.schema, now.schemaError) == outcome.value && !now.isLoadingSchema
            else SameScreen(c, now)
    decreases |later|
  {
    if later != [] {
      assert later[0] in later;
      var c' := Step(c, later[0]);
      StepKeepsInv(c, later[0]);
      if SettlesOn(later[0], read).Some? {
        FinishedStaysPut(c', later[1..], read);
      } else {
        assert SameScreen(c, c');
        OnlyTheNewestWrites(c', later[1..], read);
      }
    }
  }

  /** Once the newest read is finished, what answers afterwards is superseded. */
  lemma {:induction false} FinishedStaysPut(c: Catalog, later: seq<Event>, read: nat)
    requires Possible(c, later) && forall e <- later :: !Supersedes(e)
    requires Inv(c) && read == |c.issued| - 1 && c.issued[read].phase == Finished
    ensures SameScreen(c, After(c, later))
    decreases |later|
  {
    if later != [] {
      assert later[0] in later;
      StepKeepsInv(c, later[0]);
      FinishedStaysPut(Step(c, later[0]), later[1..], read);
    }
  }

  /** Before anything was asked for, nothing is shown and nothing can answer. */
  lemma {:induction false} NothingAskedNothingShown(events: seq<Event>)
    requires Possible(FRESH, events) && forall e <- events :: !Supersedes(e)
    ensures After(FRESH, events) == FRESH
    decreases |events|
  {
    if events != [] {
      assert events[0] in events;
      NothingAskedNothingShown(events[1..]);
    }
  }

  /** The id the reader asked for last, read off the events; `id` is the one before them. */
  function LastAskedFor(id: Option<string>, events: seq<Event>): Option<string>
    decreases |events|
  {
    if events == [] then id
    else
      var now := if events[0].Load? && events[0].active.Some? then Some(events[0].active.value.id) else id;
      LastAskedFor(now, events[1..])
  }

  lemma {:induction false} RequestIsTheLast(c: Catalog, events: seq<Event>)
    requires Possible(c, events)
    ensures After(c, events).scanRequested == LastAskedFor(c.scanRequested, events)
    decreases |events|
  {
    if events != [] {
      RequestIsTheLast(Step(c, events[0]), events[1..]);
    }
  }

  /**
   Whose reads are deferred, over every run. Fetching a connection from a render that saw the
   request on record issues a read if and only if the connection's reads are not put off at
   all, or it is the very one the reader asked for last; having asked for another does not
   release it. If it issues none, the counter has moved on, and list, error and spinner are
   cleared at once.
   */
  lemma FetchReadsIff(before: seq<Event>, conn: Connection)
    requires Possible(FRESH, before)
    ensures var held := After(FRESH, before);
            var now := Step(held, Fetch(conn, held.scanRequested));
            var released := !conn.skipObjectScan || LastAskedFor(None, before) == Some(conn.id);
            && (now.issued == held.issued + [Read(held.generation + 1, AwaitingMeta)] <==> released)
            && (now.issued == held.issued <==> !released)
            && (now.isLoadingSchema <==> released)
            && now.generation == held.generation + 1
            && if released then now.schema == held.schema && now.schemaError == held.schemaError
               else now.schema == [] && now.schemaError == None
  {
    RequestIsTheLast(FRESH, before);
  }

  /** Loading reads whatever is put off, and asks for the connection on screen by its id. */
  lemma LoadAlwaysReads(c: Catalog, active: Option<Connection>)
    ensures var now := Step(c, Load(active));
            if active.None? then now == c
            else
              && now.issued == c.issued + [Read(c.generation + 1, AwaitingMeta)] && now.isLoadingSchema
              && now.scanRequested == Some(active.value.id)
  {
  }

  /** A read that finds kinds to list waits for the inventory, and one that finds none is over. */
  lemma SecondRequestIff(c: Catalog, read: nat, meta: Meta, inventory: Inventory)
    requires Enabled(c, MetaAnswered(read, meta))
    ensures var now := Step(c, MetaAnswered(read, meta));
            Enabled(now, InventoryAnswered(read, inventory)) <==> meta.MetaKinds? && meta.kinds != []
  {
  }

  /**
   Asking to load a deferred connection releases it: from then on, while the same request
   is the one on record, fetching that connection reads instead of deferring.
   */
  lemma {:induction false} LoadReleasesTheConnection(c: Catalog, conn: Connection, later: seq<Event>)
    requires Possible(c, [Load(Some(conn))] + later)
    requires forall e <- later :: e.Load? ==> e.active == None || e.active == Some(conn)
    ensures var now := After(c, [Load(Some(conn))] + later);
            !ScanDeferred(conn, now.scanRequested) && Begins(Fetch(conn, now.scanRequested))
  {
    assert ([Load(Some(conn))] + later)[1..] == later;
    RequestStays(Step(c, Load(Some(conn))), conn, later);
  }

  lemma {:induction false} RequestStays(c: Catalog, conn: Connection, later: seq<Event>)
    requires Possible(c, later) && c.scanRequested == Some(conn.id)
    requires forall e <- later :: e.Load? ==> e.active == None || e.active == Some(conn)
    ensures After(c, later).scanRequested == Some(conn.id)
    decreases |later|
  {
    if later != [] {
      assert later[0] in later;
      RequestStays(Step(c, later[0]), conn, later[1..]);
    }
  }
}
