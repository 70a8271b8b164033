/**
 The shell's Source tabs: definitions read at a moment, marked stale by what changed since.

 A counter moves with every catalog change the shell runs. A read records the counter when it
 is issued and writes it onto the tab that asked, whichever tab is in front when it lands. An
 apply moves the counter and clears the tab it was confirmed on in one commit. Entry points
 outside the editor pane are gated while a Source tab is in front.
 */
module SourceTabs {
  import opened Common

  /** A minted id, or the one derived from the address of a Source tab. */
  datatype TabId = Local(n: nat) | SourceOf(address: string)

  datatype Source = Source(address: string, document: Option<string>, failure: Option<string>, readAtToken: Option<nat>)

  datatype Tab = Tab(id: TabId, query: string, source: Option<Source>)

  /** A read in flight: the tab that asked, and the counter when it was issued. */
  datatype Read = Read(tab: TabId, tokenAtRead: nat)

  datatype Answer = Document(text: string) | Failure(message: string)

  datatype Shell = Shell(
    refreshToken: nat,
    tabs: seq<Tab>,
    activeTabId: TabId,
    applying: Option<TabId>,   // the tab an apply was confirmed on, until it answers
    issued: seq<Read>)

  datatype Event =
    | ObjectsChanged
    | OpenSource(address: string)
    | AddTab(newId: nat)
    | TableClick(newId: nat, statement: string)
    | Activate(id: TabId)
    | Close(id: TabId)
    | Type(text: string)            // in the editor pane
    | LoadStatement(text: string)   // from the rail, the panel, the palette
    | IssueRead
    | ReadLands(read: nat, answer: Answer)
    | ReadAgain
    | ConfirmApply
    | Applied
    | ApplyFailed

  const START := Shell(0, [Tab(Local(0), "", None)], Local(0), None, [])

  function Find(tabs: seq<Tab>, id: TabId): (t: Option<Tab>)
    ensures t.Some? ==> t.value in tabs && t.value.id == id
    ensures t.None? <==> forall u <- tabs :: u.id != id
  {
    if tabs == [] then None else if tabs[0].id == id then Some(tabs[0]) else Find(tabs[1..], id)
  }

  /** The tab in front: the active one, or the first if the active id names none. */
  function Current(s: Shell): (t: Tab)
    requires s.tabs != []
    ensures t in s.tabs
  {
    var t := Find(s.tabs, s.activeTabId);
    if t.Some? then t.value else s.tabs[0]
  }

  predicate RunsTheActiveTab(s: Shell)
    requires s.tabs != []
  {
    Current(s).source.None?
  }

  predicate NeedsRead(source: Source) {
    source.document.None? && source.failure.None?
  }

  predicate Stale(source: Source, refreshToken: nat) {
    source.readAtToken.Some? && source.readAtToken.value != refreshToken
  }

  /** What the viewer writes back, merged over what the tab holds. */
  datatype Patch = Landed(answer: Answer, token: nat) | Clear

  function PatchSource(source: Source, patch: Patch): Source {
    match patch
    case Landed(Document(text), token) => source.(document := Some(text), readAtToken := Some(token))
    case Landed(Failure(message), token) => source.(failure := Some(message), readAtToken := Some(token))
    case Clear => source.(document := None, failure := None, readAtToken := None)
  }

  function PatchTab(tab: Tab, id: TabId, patch: Patch): Tab {
    if tab.id == id && tab.source.Some? then tab.(source := Some(PatchSource(tab.source.value, patch))) else tab
  }

  function Patched(tabs: seq<Tab>, id: TabId, patch: Patch): (after: seq<Tab>)
    ensures |after| == |tabs| && forall i :: 0 <= i < |tabs| ==> after[i] == PatchTab(tabs[i], id, patch)
  {
    seq(|tabs|, i requires 0 <= i < |tabs| => PatchTab(tabs[i], id, patch))
  }

  function WithQuery(tabs: seq<Tab>, id: TabId, query: string): (after: seq<Tab>)
    ensures |after| == |tabs|
    ensures forall i :: 0 <= i < |tabs| ==> after[i] == if tabs[i].id == id then tabs[i].(query := query) else tabs[i]
  {
    seq(|tabs|, i requires 0 <= i < |tabs| => if tabs[i].id == id then tabs[i].(query := query) else tabs[i])
  }

  function Closed(tabs: seq<Tab>, id: TabId): (after: seq<Tab>)
    ensures forall t :: t in after <==> t in tabs && t.id != id
  {
    if tabs == [] then [] else (if tabs[0].id == id then [] else [tabs[0]]) + Closed(tabs[1..], id)
  }

  predicate HoldsAddress(tabs: seq<Tab>, address: string) {
    exists t <- tabs :: t.source.Some? && t.source.value.address == address
  }

  predicate Enabled(s: Shell, event: Event) {
    && s.tabs != []
    && match event
       case AddTab(id) => Find(s.tabs, Local(id)).None?
       case TableClick(id, _) => Find(s.tabs, Local(id)).None?
       case Activate(id) => Find(s.tabs, id).Some?
       case Type(_) => RunsTheActiveTab(s) && Find(s.tabs, s.activeTabId).Some?
       case LoadStatement(_) => Find(s.tabs, s.activeTabId).Some?
       case IssueRead => Current(s).source.Some? && NeedsRead(Current(s).source.value)
       case ReadLands(read, _) => read < |s.issued|
       case ReadAgain => Current(s).source.Some?
       case ConfirmApply => Current(s).source.Some? && Current(s).source.value.document.Some? && s.applying.None?
       case Applied => s.applying.Some?
       case ApplyFailed => s.applying.Some?
       case _ => true
  }

  function Step(s: Shell, event: Event): Shell
    requires Enabled(s, event)
  {
    match event
    case ObjectsChanged => s.(refreshToken := s.refreshToken + 1)
    case OpenSource(address) =>
      var id := SourceOf(address);
      if HoldsAddress(s.tabs, address) then s.(activeTabId := id)
      else s.(tabs := s.tabs + [Tab(id, "", Some(Source(address, None, None, None)))], activeTabId := id)
    case AddTab(id) => if s.applying.Some? then s else Appended(s, Tab(Local(id), "", None))
    case TableClick(id, statement) => if s.applying.Some? then s else Appended(s, Tab(Local(id), statement, None))
    case Activate(id) => s.(activeTabId := id)
    case Close(id) =>
      var rest := Closed(s.tabs, id);
      if |s.tabs| == 1 || Find(s.tabs, id).None? || rest == [] then s
      else s.(tabs := rest, activeTabId := if s.activeTabId == id then rest[|rest| - 1].id else s.activeTabId)
    case Type(text) => s.(tabs := WithQuery(s.tabs, s.activeTabId, text))
    case LoadStatement(text) =>
      if !RunsTheActiveTab(s) then s else s.(tabs := WithQuery(s.tabs, s.activeTabId, text))
    case IssueRead => s.(issued := s.issued + [Read(Current(s).id, s.refreshToken)])
    case ReadLands(read, answer) =>
      var r := s.issued[read];
      s.(tabs := Patched(s.tabs, r.tab, Landed(answer, r.tokenAtRead)))
    case ReadAgain => s.(tabs := Patched(s.tabs, Current(s).id, Clear))
    case ConfirmApply => s.(applying := Some(Current(s).id))
    case Applied =>
      s.(refreshToken := s.refreshToken + 1, tabs := Patched(s.tabs, s.applying.value, Clear), applying := None)
    case ApplyFailed => s.(applying := None)
  }

  function Appended(s: Shell, tab: Tab): Shell {
    s.(tabs := s.tabs + [tab], activeTabId := tab.id)
  }

  // ---------------------------------------------------------------- the shell's own state

  class Studio {
    var objectRefreshToken: nat
    var tabs: seq<Tab>
    var activeTabId: TabId
    var applying: Option<TabId>
    var issued: seq<Read>

    ghost function View(): Shell
      reads this
    {
      Shell(objectRefreshToken, tabs, activeTabId, applying, issued)
    }

    constructor ()
      ensures View() == START
    {
      objectRefreshToken, tabs, activeTabId := 0, [Tab(Local(0), "", None)], Local(0);
      applying, issued := None, [];
    }

    method ObjectsChangedNow()
      modifies `objectRefreshToken
      ensures objectRefreshToken == old(objectRefreshToken) + 1
    {
      objectRefreshToken := objectRefreshToken + 1;
    }

    /** Addressed by the tab the callback was bound to, not by the tab in front now. */
    method OnSourceChange(boundTo: TabId, patch: Patch)
      modifies `tabs
      ensures tabs == Patched(old(tabs), boundTo, patch)
    {
      tabs := Patched(tabs, boundTo, patch);
    }

    method HandleApplied()
      requires Enabled(View(), Event.Applied)
      modifies this
      ensures View() == Step(old(View()), Event.Applied)
    {
      ObjectsChangedNow();
      OnSourceChange(applying.value, Clear);
      applying := None;
    }

    method HandleAddTab(newId: nat)
      requires Enabled(View(), Event.AddTab(newId))
      modifies this
      ensures View() == Step(old(View()), Event.AddTab(newId))
    {
      if applying.Some? { return; }
      tabs := tabs + [Tab(Local(newId), "", None)];
      activeTabId := Local(newId);
    }

    method OnTableClick(newId: nat, statement: string)
      requires Enabled(View(), Event.TableClick(newId, statement))
      modifies this
      ensures View() == Step(old(View()), Event.TableClick(newId, statement))
    {
      if applying.Some? { return; }
      tabs := tabs + [Tab(Local(newId), statement, None)];
      activeTabId := Local(newId);
    }

    /** Every gated entry point: the rail's apply and run, the panel's load, the palette's loads. */
    method OnLoadStatement(text: string)
      requires Enabled(View(), Event.LoadStatement(text))
      modifies `tabs
      ensures View() == Step(old(View()), Event.LoadStatement(text))
    {
      var current := Find(tabs, activeTabId);
      if current.value.source.Some? { return; }
      tabs := WithQuery(tabs, activeTabId, text);
    }

    method OpenSourceTab(address: string)
      requires Enabled(View(), Event.OpenSource(address))
      modifies this
      ensures View() == Step(old(View()), Event.OpenSource(address))
    {
      if !(exists t <- tabs :: t.source.Some? && t.source.value.address == address) {
        tabs := tabs + [Tab(SourceOf(address), "", Some(Source(address, None, None, None)))];
      }
      activeTabId := SourceOf(address);
    }

    method IssueReadNow()
      requires Enabled(View(), Event.IssueRead)
      modifies `issued
      ensures View() == Step(old(View()), Event.IssueRead)
    {
      var found := Find(tabs, activeTabId);
      var current := if found.Some? then found.value else tabs[0];
      issued := issued + [Read(current.id, objectRefreshToken)];
    }

    method OnReadLanded(read: nat, answer: Answer)
      requires Enabled(View(), Event.ReadLands(read, answer))
      modifies `tabs
      ensures View() == Step(old(View()), Event.ReadLands(read, answer))
    {
      OnSourceChange(issued[read].tab, Landed(answer, issued[read].tokenAtRead));
    }
  }

  // ---------------------------------------------------------------- whole runs

  predicate Possible(s: Shell, events: seq<Event>)
    decreases |events|
  {
    events == [] || (Enabled(s, events[0]) && Possible(Step(s, events[0]), events[1..]))
  }

  function After(s: Shell, events: seq<Event>): Shell
    requires Possible(s, events)
    decreases |events|
  {
    if events == [] then s else After(Step(s, events[0]), events[1..])
  }

  /** What every tab keeps. */
  predicate TabOk(t: Tab, refreshToken: nat) {
    && (t.id.SourceOf? ==> t.source.Some?)
    && (t.source.Some? ==>
      && t.query == ""
      && t.id == SourceOf(t.source.value.address)
      && (t.source.value.readAtToken.Some? ==> t.source.value.readAtToken.value <= refreshToken)
      && (t.source.value.readAtToken.None? <==> NeedsRead(t.source.value)))
  }

  ghost predicate TabsOk(tabs: seq<Tab>, refreshToken: nat) {
    && (forall i :: 0 <= i < |tabs| ==> TabOk(tabs[i], refreshToken))
    && (forall i, j :: 0 <= i < j < |tabs| ==> tabs[i].id != tabs[j].id)
  }

  ghost predicate Inv(s: Shell) {
    && s.tabs != []
    && TabsOk(s.tabs, s.refreshToken)
    && (forall r <- s.issued :: r.tokenAtRead <= s.refreshToken)
  }

  lemma StepKeepsInv(s: Shell, event: Event)
    requires Inv(s) && Enabled(s, event)
    ensures Inv(Step(s, event))
  {
    match event
    case OpenSource(address) => OpenKeepsInv(s, address);
    case Close(id) => ClosedKeeps(s.tabs, id, s.refreshToken);
    case AddTab(newId) => AppendKeepsInv(s, Tab(Local(newId), "", None));
    case TableClick(newId, statement) => AppendKeepsInv(s, Tab(Local(newId), statement, None));
    case Type(text) => QueryKeepsInv(s, text);
    case LoadStatement(text) => if RunsTheActiveTab(s) { QueryKeepsInv(s, text); }
    case ReadLands(read, answer) =>
      assert s.issued[read] in s.issued;
      PatchKeeps(s.tabs, s.refreshToken, s.issued[read].tab, Landed(answer, s.issued[read].tokenAtRead));
    case ReadAgain => PatchKeeps(s.tabs, s.refreshToken, Current(s).id, Clear);
    case Applied =>
      PatchKeeps(s.tabs, s.refreshToken, s.applying.value, Clear);
      TokenMayGrow(Patched(s.tabs, s.applying.value, Clear), s.refreshToken);
    case ObjectsChanged => TokenMayGrow(s.tabs, s.refreshToken);
    case IssueRead =>
    case ConfirmApply =>
    case ApplyFailed =>
    case Activate(_) =>
  }

  lemma TokenMayGrow(tabs: seq<Tab>, refreshToken: nat)
    requires TabsOk(tabs, refreshToken)
    ensures TabsOk(tabs, refreshToken + 1)
  {
  }

  lemma PatchKeeps(tabs: seq<Tab>, refreshToken: nat, id: TabId, patch: Patch)
    requires TabsOk(tabs, refreshToken) && (patch.Landed? ==> patch.token <= refreshToken)
    ensures TabsOk(Patched(tabs, id, patch), refreshToken)
  {
    var after := Patched(tabs, id, patch);
    forall i | 0 <= i < |after| ensures TabOk(after[i], refreshToken) {
      assert TabOk(tabs[i], refreshToken);
    }
    forall i, j | 0 <= i < j < |after| ensures after[i].id != after[j].id {
      assert tabs[i].id != tabs[j].id;
    }
  }

  lemma AppendKeepsInv(s: Shell, tab: Tab)
    requires Inv(s) && TabOk(tab, s.refreshToken) && Find(s.tabs, tab.id).None?
    ensures Inv(Appended(s, tab))
  {
    assert forall i :: 0 <= i < |s.tabs| ==> s.tabs[i] in s.tabs;
  }

  lemma OpenKeepsInv(s: Shell, address: string)
    requires Inv(s)
    ensures Inv(Step(s, OpenSource(address)))
  {
    if !HoldsAddress(s.tabs, address) {
      assert forall t <- s.tabs :: TabOk(t, s.refreshToken);
      AppendKeepsInv(s, Tab(SourceOf(address), "", Some(Source(address, None, None, None))));
    }
  }

  /** The tab a statement is written to is the one in front, which is no Source tab. */
  lemma QueryKeepsInv(s: Shell, text: string)
    requires Inv(s) && RunsTheActiveTab(s) && Find(s.tabs, s.activeTabId).Some?
    ensures Inv(s.(tabs := WithQuery(s.tabs, s.activeTabId, text)))
  {
    FindUnique(s.tabs, s.activeTabId);
    var after := WithQuery(s.tabs, s.activeTabId, text);
    forall i | 0 <= i < |after| ensures TabOk(after[i], s.refreshToken) {
      assert TabOk(s.tabs[i], s.refreshToken);
    }
  }

  lemma FindUnique(tabs: seq<Tab>, id: TabId)
    requires forall i, j :: 0 <= i < j < |tabs| ==> tabs[i].id != tabs[j].id
    ensures forall i :: 0 <= i < |tabs| && tabs[i].id == id ==> Find(tabs, id) == Some(tabs[i])
  {
    if tabs != [] && tabs[0].id != id {
      FindUnique(tabs[1..], id);
      assert forall i :: 0 < i < |tabs| ==> tabs[i] == tabs[1..][i - 1];
    }
  }

  lemma FirstAndRest(tabs: seq<Tab>, refreshToken: nat)
    requires TabsOk(tabs, refreshToken) && tabs != []
    ensures TabOk(tabs[0], refreshToken) && TabsOk(tabs[1..], refreshToken)
    ensures forall t <- tabs[1..] :: t.id != tabs[0].id
  {
    hide TabOk;
    assert forall i :: 0 <= i < |tabs[1..]| ==> tabs[1..][i] == tabs[i + 1];
  }

  lemma InFrontOk(tab: Tab, rest: seq<Tab>, refreshToken: nat)
    requires TabOk(tab, refreshToken) && TabsOk(rest, refreshToken) && forall t <- rest :: t.id != tab.id
    ensures TabsOk([tab] + rest, refreshToken)
  {
    hide TabOk;
    assert forall i :: 0 <= i < |rest| ==> rest[i] in rest;
  }

  lemma ClosedKeeps(tabs: seq<Tab>, id: TabId, refreshToken: nat)
    requires TabsOk(tabs, refreshToken)
    ensures TabsOk(Closed(tabs, id), refreshToken)
  {
    hide TabsOk;
    hide TabOk;
    if tabs != [] {
      FirstAndRest(tabs, refreshToken);
      ClosedKeeps(tabs[1..], id, refreshToken);
      var rest := Closed(tabs[1..], id);
      if tabs[0].id == id {
        assert [] + rest == rest;
      } else {
        InFrontOk(tabs[0], rest, refreshToken);
      }
    }
  }

  lemma {:induction false} RunKeepsInv(s: Shell, events: seq<Event>)
    requires Inv(s) && Possible(s, events)
    ensures Inv(After(s, events)) && After(s, events).refreshToken >= s.refreshToken
    decreases |events|
  {
    if events != [] {
      StepKeepsInv(s, events[0]);
      RunKeepsInv(Step(s, events[0]), events[1..]);
    }
  }

  // ---------------------------------------------------------------- what the entry points reach

  /**
   A statement from outside the editor pane, or typed in it, lands on the tab in front exactly if
   that is no Source tab; no other tab and nothing else is touched either way.
   */
  lemma StatementLandsIff(events: seq<Event>, text: string, i: nat)
    requires Possible(START, events) && Enabled(After(START, events), LoadStatement(text))
    requires i < |After(START, events).tabs|
    ensures var s := After(START, events);
            var s' := Step(s, LoadStatement(text));
            && s' == s.(tabs := s'.tabs) && |s'.tabs| == |s.tabs|
            && s'.tabs[i] == (if s.tabs[i].id == s.activeTabId && s.tabs[i].source.None?
                              then s.tabs[i].(query := text) else s.tabs[i])
            && (Enabled(s, Type(text)) ==> Step(s, Type(text)) == s')
  {
    RunKeepsInv(START, events);
    var s := After(START, events);
    FindUnique(s.tabs, s.activeTabId);
  }

  /**
   A table clicked in the tree, or the button for a new tab, brings a new tab with the statement,
   or an empty one, to the front, exactly if no apply is in flight; the tabs there stay.
   */
  lemma NewTabOpensIff(s: Shell, newId: nat, statement: string)
    requires Enabled(s, TableClick(newId, statement))
    ensures var clicked, added := Step(s, TableClick(newId, statement)), Step(s, AddTab(newId));
            if s.applying.Some? then clicked == s == added
            else
              && clicked == s.(tabs := s.tabs + [Tab(Local(newId), statement, None)], activeTabId := Local(newId))
              && added == s.(tabs := s.tabs + [Tab(Local(newId), "", None)], activeTabId := Local(newId))
              && Current(clicked) == Tab(Local(newId), statement, None)
  {
    FindLast(s.tabs, Tab(Local(newId), statement, None));
  }

  lemma FindLast(tabs: seq<Tab>, tab: Tab)
    requires forall t <- tabs :: t.id != tab.id
    ensures Find(tabs + [tab], tab.id) == Some(tab)
  {
    if tabs != [] {
      assert tabs[0] in tabs;
      assert (tabs + [tab])[1..] == tabs[1..] + [tab];
      FindLast(tabs[1..], tab);
    }
  }

  /** Opening an object's source brings its one tab to the front, a new one, still to be read, if there is none. */
  lemma SourceOpensOnce(events: seq<Event>, address: string)
    requires Possible(START, events) && Enabled(After(START, events), OpenSource(address))
    ensures var s := After(START, events);
            var reached := Step(s, OpenSource(address));
            && Current(reached).id == SourceOf(address) && Current(reached).source.Some?
            && Current(reached).source.value.address == address
            && (reached.tabs == s.tabs <==> HoldsAddress(s.tabs, address))
            && (!HoldsAddress(s.tabs, address) ==>
                  reached.tabs == s.tabs + [Current(reached)] && NeedsRead(Current(reached).source.value))
  {
    RunKeepsInv(START, events);
    var s := After(START, events);
    var newTab := Tab(SourceOf(address), "", Some(Source(address, None, None, None)));
    assert forall t <- s.tabs :: TabOk(t, s.refreshToken);
    if HoldsAddress(s.tabs, address) {
      FindUnique(s.tabs, SourceOf(address));
    } else {
      FindLast(s.tabs, newTab);
    }
  }

  /** Asking to read again takes away what the tab in front holds, so that it is read anew; the rest stays. */
  lemma ReadAgainAsksAnew(events: seq<Event>, i: nat)
    requires Possible(START, events) && Enabled(After(START, events), ReadAgain)
    requires i < |After(START, events).tabs|
    ensures var s := After(START, events);
            var again := Step(s, ReadAgain);
            && again == s.(tabs := again.tabs) && |again.tabs| == |s.tabs|
            && (s.tabs[i].id != Current(s).id ==> again.tabs[i] == s.tabs[i])
            && (s.tabs[i].id == Current(s).id && s.tabs[i].source.Some? ==>
                  again.tabs[i].source.Some? && NeedsRead(again.tabs[i].source.value))
  {
  }

  /** An apply stays with the tab it was confirmed on, whichever comes to the front, until it answers. */
  lemma {:induction false} ApplyStaysWithItsTab(s: Shell, later: seq<Event>)
    requires Enabled(s, ConfirmApply) && Possible(Step(s, ConfirmApply), later)
    requires forall e <- later :: !e.Applied? && !e.ApplyFailed?
    ensures After(Step(s, ConfirmApply), later).applying == Some(Current(s).id)
    ensures var held := After(Step(s, ConfirmApply), later);
            held.tabs != [] ==> Enabled(held, ApplyFailed) && Step(held, ApplyFailed) == held.(applying := None)
  {
    AppliesOn(Step(s, ConfirmApply), later, Current(s).id);
  }

  lemma {:induction false} AppliesOn(s: Shell, later: seq<Event>, id: TabId)
    requires s.applying == Some(id) && Possible(s, later) && forall e <- later :: !e.Applied? && !e.ApplyFailed?
    ensures After(s, later).applying == Some(id)
    decreases |later|
  {
    if later != [] {
      assert later[0] in later;
      AppliesOn(Step(s, later[0]), later[1..], id);
    }
  }

  /** Closing removes the one tab and keeps the others in order; the last tab there is stays. */
  lemma ClosingKeepsTheRest(s: Shell, id: TabId, k: nat)
    requires Enabled(s, Close(id)) && k < |s.tabs| && s.tabs[k].id == id
    requires forall i :: 0 <= i < |s.tabs| && i != k ==> s.tabs[i].id != id
    ensures var closed := Step(s, Close(id));
            if |s.tabs| == 1 then closed == s
            else
              && closed.tabs == s.tabs[..k] + s.tabs[k + 1..]
              && closed == s.(tabs := closed.tabs, activeTabId := closed.activeTabId)
              && (s.activeTabId != id ==> closed.activeTabId == s.activeTabId)
              && (s.activeTabId == id ==> closed.activeTabId == closed.tabs[|closed.tabs| - 1].id)
  {
    ClosedAt(s.tabs, id, k);
    assert s.tabs[k] in s.tabs;
  }

  lemma ClosedOver(a: seq<Tab>, b: seq<Tab>, id: TabId)
    ensures Closed(a + b, id) == Closed(a, id) + Closed(b, id)
  {
    if a == [] {
      assert a + b == b;
    } else {
      assert (a + b)[1..] == a[1..] + b;
      ClosedOver(a[1..], b, id);
    }
  }

  lemma ClosedAt(tabs: seq<Tab>, id: TabId, k: nat)
    requires k < |tabs| && tabs[k].id == id
    requires forall i :: 0 <= i < |tabs| && i != k ==> tabs[i].id != id
    ensures Closed(tabs, id) == tabs[..k] + tabs[k + 1..]
  {
    ClosedNone(tabs[..k], id);
    ClosedNone(tabs[k + 1..], id);
    assert Closed([tabs[k]], id) == [] by { assert [tabs[k]][1..] == []; }
    hide Closed;
    ClosedOver([tabs[k]], tabs[k + 1..], id);
    ClosedOver(tabs[..k], [tabs[k]] + tabs[k + 1..], id);
    assert tabs == tabs[..k] + ([tabs[k]] + tabs[k + 1..]);
    assert [] + tabs[k + 1..] == tabs[k + 1..];
  }

  lemma ClosedNone(tabs: seq<Tab>, id: TabId)
    requires forall i :: 0 <= i < |tabs| ==> tabs[i].id != id
    ensures Closed(tabs, id) == tabs
  {
    if tabs != [] {
      ClosedNone(tabs[1..], id);
    }
  }

  /**
   Over every run: a tab never holds a read from ahead of the counter, and no statement ever
   sits on a Source tab, whatever entry point it came through.
   */
  lemma SourceTabsStayClean(events: seq<Event>)
    requires Possible(START, events)
    ensures var s := After(START, events);
            forall t <- s.tabs :: t.source.Some? ==>
              && t.query == ""
              && (t.source.value.readAtToken.Some? ==> t.source.value.readAtToken.value <= s.refreshToken)
  {
    RunKeepsInv(START, events);
    var s := After(START, events);
    forall t | t in s.tabs ensures TabOk(t, s.refreshToken) {
      var i :| 0 <= i < |s.tabs| && s.tabs[i] == t;
    }
  }

  /**
   Right after an apply, every other Source tab that holds a read is stale, also one whose
   read is still in flight when it lands later, and the tab the apply was confirmed on waits
   for a read, whichever tab is in front.
   */
  lemma ApplyLeavesOthersStale(events: seq<Event>)
    requires Possible(START, events) && Enabled(After(START, events), Applied)
    ensures var before := After(START, events);
            var s, target := Step(before, Applied), before.applying.value;
            && (forall t <- s.tabs :: t.source.Some? && t.id != target && t.source.value.readAtToken.Some? ==>
                  Stale(t.source.value, s.refreshToken))
            && (forall t <- s.tabs :: t.source.Some? && t.id == target ==> NeedsRead(t.source.value))
            && (forall r <- s.issued :: r.tokenAtRead < s.refreshToken)
  {
    RunKeepsInv(START, events);
    var before := After(START, events);
    var s := Step(before, Applied);
    forall t | t in s.tabs
      ensures t.source.Some? && t.id != before.applying.value && t.source.value.readAtToken.Some? ==>
                Stale(t.source.value, s.refreshToken)
      ensures t.source.Some? && t.id == before.applying.value ==> NeedsRead(t.source.value)
    {
      var i :| 0 <= i < |s.tabs| && s.tabs[i] == t;
      assert TabOk(before.tabs[i], before.refreshToken);
    }
  }

  /** No event of the run lands on the tab a read issued from number `first` on. */
  predicate NoLaterRead(events: seq<Event>, issued: seq<Read>, first: nat, tab: TabId) {
    forall e <- events :: e.ReadLands? ==> e.read < first || e.read >= |issued| || issued[e.read].tab != tab
  }

  /**
   And they stay stale: however the run goes on, a tab that holds a read holds a stale one for
   as long as nothing issued after the apply has landed on it.
   */
  lemma {:induction false} StaleUntilReadAgain(s: Shell, events: seq<Event>, first: nat, tab: TabId, at: nat)
    requires Inv(s) && Possible(s, events) && first <= |s.issued| && at < s.refreshToken
    requires forall k :: 0 <= k < first ==> s.issued[k].tokenAtRead <= at
    requires forall t <- s.tabs :: t.id == tab && t.source.Some? ==> HeldBy(t.source.value, at)
    requires NoLaterRead(events, After(s, events).issued, first, tab)
    ensures forall t <- After(s, events).tabs ::
              t.id == tab && t.source.Some? && t.source.value.readAtToken.Some? ==>
                Stale(t.source.value, After(s, events).refreshToken)
    decreases |events|
  {
    RunKeepsInv(s, events);
    if events != [] {
      var next := Step(s, events[0]);
      StepKeepsInv(s, events[0]);
      assert events[0] in events;
      IssuedGrows(next, events[1..]);
      forall t | t in next.tabs && t.id == tab && t.source.Some? ensures HeldBy(t.source.value, at) {
        OneStepHeld(s, events[0], tab, at, first, t);
      }
      StaleUntilReadAgain(next, events[1..], first, tab, at);
    }
  }

  /** The read a tab holds, if any, is no newer than `at`. */
  predicate HeldBy(source: Source, at: nat) {
    source.readAtToken.Some? ==> source.readAtToken.value <= at
  }

  lemma OneStepHeld(s: Shell, event: Event, tab: TabId, at: nat, first: nat, t: Tab)
    requires Inv(s) && Enabled(s, event) && first <= |s.issued|
    requires forall k :: 0 <= k < first ==> s.issued[k].tokenAtRead <= at
    requires forall u <- s.tabs :: u.id == tab && u.source.Some? ==> HeldBy(u.source.value, at)
    requires event.ReadLands? ==> event.read < first || s.issued[event.read].tab != tab
    requires t in Step(s, event).tabs && t.id == tab && t.source.Some?
    ensures HeldBy(t.source.value, at)
  {
    var s' := Step(s, event);
    var i :| 0 <= i < |s'.tabs| && s'.tabs[i] == t;
    match event
    case Close(_) =>
    case OpenSource(_) => if i < |s.tabs| { assert s.tabs[i] in s.tabs; }
    case AddTab(_) => if i < |s.tabs| { assert s.tabs[i] in s.tabs; }
    case TableClick(_, _) => if i < |s.tabs| { assert s.tabs[i] in s.tabs; }
    case _ => assert s.tabs[i] in s.tabs;
  }

  lemma {:induction false} IssuedGrows(s: Shell, events: seq<Event>)
    requires Possible(s, events)
    ensures |s.issued| <= |After(s, events).issued| && After(s, events).issued[..|s.issued|] == s.issued
    decreases |events|
  {
    if events != [] {
      var next := Step(s, events[0]);
      IssuedGrows(next, events[1..]);
      var last := After(s, events).issued;
      assert next.issued[..|s.issued|] == s.issued;
      assert last[..|s.issued|] == last[..|next.issued|][..|s.issued|];
    }
  }

  predicate MovesTheCounter(event: Event) {
    event.ObjectsChanged? || event.Applied?
  }

  /** How often a statement changed the catalog or an apply succeeded. */
  function Changes(events: seq<Event>): nat {
    if events == [] then 0 else (if MovesTheCounter(events[0]) then 1 else 0) + Changes(events[1..])
  }

  predicate NothingChanges(events: seq<Event>) {
    forall e <- events :: !MovesTheCounter(e)
  }

  lemma {:induction false} CounterCounts(s: Shell, events: seq<Event>)
    requires Possible(s, events)
    ensures After(s, events).refreshToken == s.refreshToken + Changes(events)
    decreases |events|
  {
    if events != [] {
      CounterCounts(Step(s, events[0]), events[1..]);
    }
  }

  lemma {:induction false} NoChangesIff(events: seq<Event>)
    ensures Changes(events) == 0 <==> NothingChanges(events)
  {
    if events != [] {
      NoChangesIff(events[1..]);
      assert forall e <- events[1..] :: e in events;
      assert forall e <- events :: e == events[0] || e in events[1..];
    }
  }

  /**
   A read that lands leaves its tab fresh if and only if, between its issue and its landing, no
   statement changed the catalog and no apply succeeded, whatever else went on meanwhile.
   */
  lemma LandsFreshIff(s: Shell, later: seq<Event>, answer: Answer, i: nat)
    requires Enabled(s, IssueRead) && Possible(Step(s, IssueRead), later)
    requires var held := After(Step(s, IssueRead), later);
             i < |held.tabs| && held.tabs[i].id == Current(s).id && held.tabs[i].source.Some?
    ensures var read, held := |s.issued|, After(Step(s, IssueRead), later);
            && Enabled(held, ReadLands(read, answer))
            && var landed := Step(held, ReadLands(read, answer)).tabs[i];
               && landed.source.Some? && !NeedsRead(landed.source.value) && landed.source.value.readAtToken.Some?
               && (answer.Document? ==> landed.source.value.document == Some(answer.text))
               && (answer.Failure? ==> landed.source.value.failure == Some(answer.message))
               && (!Stale(landed.source.value, held.refreshToken) <==> NothingChanges(later))
  {
    var issuing := Step(s, IssueRead);
    CounterCounts(issuing, later);
    NoChangesIff(later);
    IssuedGrows(issuing, later);
    var held := After(issuing, later);
    assert held.issued[|s.issued|] == held.issued[..|issuing.issued|][|s.issued|];
  }

  /** The tab that applied: its next read is fresh if and only if nothing changes while it is out. */
  lemma ApplierReadsFresh(s: Shell, between: seq<Event>, later: seq<Event>, answer: Answer, i: nat)
    requires Enabled(s, Applied) && Possible(Step(s, Applied), between)
    requires var asking := After(Step(s, Applied), between);
             Enabled(asking, IssueRead) && Current(asking).id == s.applying.value
    requires var issuing := Step(After(Step(s, Applied), between), IssueRead);
             && Possible(issuing, later)
             && i < |After(issuing, later).tabs| && After(issuing, later).tabs[i].id == s.applying.value
             && After(issuing, later).tabs[i].source.Some?
    ensures var read := |After(Step(s, Applied), between).issued|;
            var held := After(Step(After(Step(s, Applied), between), IssueRead), later);
            && Enabled(held, ReadLands(read, answer))
            && var landed := Step(held, ReadLands(read, answer)).tabs[i];
               landed.source.Some? && (!Stale(landed.source.value, held.refreshToken) <==> NothingChanges(later))
  {
    hide Step;
    hide Enabled;
    hide Stale;
    LandsFreshIff(After(Step(s, Applied), between), later, answer, i);
  }
}
