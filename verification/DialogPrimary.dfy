/**
 Which mounted instance of the shortcuts dialog renders it.

 The open flag, the mounted instances and the primary one live at module scope. An instance
 learns of a change only when it is notified, so each keeps a view of whether it is the
 primary and of whether the dialog is open.
 */
module DialogPrimary {
  import opened Common

  /** An instance's identity. */
  type Key = nat

  datatype Store = Store(
    sharedOpen: bool,
    primary: Option<Key>,
    mounted: seq<Key>,          // a map's keys, in insertion order
    views: map<Key, bool>,      // what each instance last read: am I the primary?
    openViews: map<Key, bool>)  // and: is the dialog open?

  const NOTHING := Store(false, None, [], map[], map[])

  datatype Event =
    | Mount(key: Key)
    | Unmount(key: Key)
    | SetOpen(key: Key, open: bool)  // the "?" key, the handle, or the dialog's own closing

  /** Only a mounted instance listens for the key, has a handle, or can draw the dialog. */
  predicate Enabled(s: Store, event: Event) {
    match event
    case Mount(key) => key !in s.mounted
    case Unmount(key) => key in s.mounted
    case SetOpen(key, _) => key in s.mounted
  }

  function Without(keys: seq<Key>, key: Key): (rest: seq<Key>)
    ensures forall k :: k in rest <==> k in keys && k != key
    ensures key !in keys ==> rest == keys
    ensures |rest| <= |keys|
  {
    if keys == [] then [] else (if keys[0] == key then [] else [keys[0]]) + Without(keys[1..], key)
  }

  /** Every listed instance reads the primary again. */
  function ReadPrimary(views: map<Key, bool>, keys: set<Key>, primary: Option<Key>): map<Key, bool> {
    map k | k in views :: if k in keys then primary == Some(k) else views[k]
  }

  /** Every listed instance reads the flag again. */
  function ReadOpen(views: map<Key, bool>, keys: set<Key>, open: bool): map<Key, bool> {
    map k | k in views :: if k in keys then open else views[k]
  }

  function Members(keys: seq<Key>): set<Key> {
    set k <- keys
  }

  function Opened(s: Store, open: bool): Store {
    if s.sharedOpen == open then s
    else s.(sharedOpen := open, openViews := ReadOpen(s.openViews, s.openViews.Keys, open))
  }

  function Step(s: Store, event: Event): Store
    requires Enabled(s, event)
  {
    match event
    case Mount(key) =>
      var primary := if s.primary.None? then Some(key) else s.primary;
      s.(mounted := s.mounted + [key], primary := primary,
         views := s.views[key := primary == Some(key)], openViews := s.openViews[key := s.sharedOpen])
    case Unmount(key) =>
      var rest := Without(s.mounted, key);
      var primary :=
        if s.primary != Some(key) then s.primary else if rest == [] then None else Some(rest[0]);
      var left := s.(mounted := rest, primary := primary, views := s.views - {key}, openViews := s.openViews - {key});
      var closed := if rest == [] then Opened(left, false) else left;
      closed.(views := ReadPrimary(closed.views, Members(rest), primary))
    case SetOpen(_, open) => Opened(s, open)
  }

  /** The module's variables, changed in place. */
  class DialogStore {
    var sharedOpen: bool
    var primaryInstanceKey: Option<Key>
    var mountedInstances: seq<Key>
    var views: map<Key, bool>
    var openViews: map<Key, bool>

    ghost function View(): Store
      reads this
    {
      Store(sharedOpen, primaryInstanceKey, mountedInstances, views, openViews)
    }

    constructor ()
      ensures View() == NOTHING
    {
      sharedOpen, primaryInstanceKey, mountedInstances, views, openViews := false, None, [], map[], map[];
    }

    method SetSharedOpen(next: bool)
      modifies `sharedOpen, `openViews
      ensures View() == Opened(old(View()), next)
    {
      if sharedOpen == next { return; }
      sharedOpen := next;
      var listeners := openViews.Keys;
      ghost var called: set<Key> := {};
      while listeners != {}
        invariant sharedOpen == next
        invariant listeners !! called && listeners + called == old(openViews).Keys
        invariant openViews == ReadOpen(old(openViews), called, next)
      {
        var listener :| listener in listeners;
        openViews := openViews[listener := sharedOpen];
        listeners, called := listeners - {listener}, called + {listener};
      }
    }

    method SubscribePrimary(key: Key)
      requires key !in mountedInstances
      modifies this
      ensures View() == Step(old(View()), Mount(key))
    {
      mountedInstances := mountedInstances + [key];
      if primaryInstanceKey == None { primaryInstanceKey := Some(key); }
      views := views[key := primaryInstanceKey == Some(key)];
      openViews := openViews[key := sharedOpen];
    }

    method Unsubscribe(key: Key)
      requires key in mountedInstances
      modifies this
      ensures View() == Step(old(View()), Unmount(key))
    {
      mountedInstances := Without(mountedInstances, key);
      views, openViews := views - {key}, openViews - {key};
      if primaryInstanceKey == Some(key) {
        primaryInstanceKey := if |mountedInstances| == 0 then None else Some(mountedInstances[0]);
      }
      if |mountedInstances| == 0 { SetSharedOpen(false); }
      NotifyMounted();
    }

    method NotifyMounted()
      modifies `views
      ensures views == ReadPrimary(old(views), Members(mountedInstances), primaryInstanceKey)
    {
      var i := 0;
      while i < |mountedInstances|
        invariant 0 <= i <= |mountedInstances|
        invariant views == ReadPrimary(old(views), Members(mountedInstances[..i]), primaryInstanceKey)
      {
        var listener := mountedInstances[i];
        if listener in views {
          views := views[listener := primaryInstanceKey == Some(listener)];
        }
        assert mountedInstances[..i + 1] == mountedInstances[..i] + [listener];
        i := i + 1;
      }
      assert mountedInstances[..i] == mountedInstances;
    }
  }

  // ---------------------------------------------------------------- whole runs

  predicate Possible(s: Store, events: seq<Event>)
    decreases |events|
  {
    events == [] || (Enabled(s, events[0]) && Possible(Step(s, events[0]), events[1..]))
  }

  function After(s: Store, events: seq<Event>): Store
    requires Possible(s, events)
    decreases |events|
  {
    if events == [] then s else After(Step(s, events[0]), events[1..])
  }

  /** The instances mounted by a run, longest-standing first: read off the events alone. */
  function StillMounted(keys: seq<Key>, events: seq<Event>): seq<Key>
    decreases |events|
  {
    if events == [] then keys
    else
      var now := match events[0]
        case Mount(key) => keys + [key]
        case Unmount(key) => Without(keys, key)
        case SetOpen(_, _) => keys;
      StillMounted(now, events[1..])
  }

  /** Whether the dialog was last asked to be open since something was last mounted on nothing. */
  function LastAsked(keys: seq<Key>, open: bool, events: seq<Event>): bool
    decreases |events|
  {
    if events == [] then open
    else
      match events[0]
      case Mount(key) => LastAsked(keys + [key], open, events[1..])
      case Unmount(key) => LastAsked(Without(keys, key), open && Without(keys, key) != [], events[1..])
      case SetOpen(_, asked) => LastAsked(keys, asked, events[1..])
  }

  ghost predicate Distinct(keys: seq<Key>) {
    forall i, j :: 0 <= i < j < |keys| ==> keys[i] != keys[j]
  }

  ghost predicate Inv(s: Store) {
    && Distinct(s.mounted)
    && s.primary == (if s.mounted == [] then None else Some(s.mounted[0]))
    && s.views.Keys == s.openViews.Keys == Members(s.mounted)
    && (forall k <- s.mounted :: s.views[k] == (s.primary == Some(k)) && s.openViews[k] == s.sharedOpen)
    && (s.mounted == [] ==> !s.sharedOpen)
  }

  lemma WithoutKeepsOrder(keys: seq<Key>, key: Key)
    requires Distinct(keys)
    ensures Distinct(Without(keys, key))
    ensures keys != [] && keys[0] != key ==> Without(keys, key) != [] && Without(keys, key)[0] == keys[0]
  {
    if keys != [] {
      WithoutKeepsOrder(keys[1..], key);
      var rest := Without(keys[1..], key);
      forall j | 0 <= j < |rest| ensures rest[j] != keys[0] {
        assert rest[j] in rest;
        var k :| 0 <= k < |keys[1..]| && keys[1..][k] == rest[j];
        assert keys[k + 1] == rest[j];
      }
    }
  }

  lemma StepKeepsInv(s: Store, event: Event)
    requires Inv(s) && Enabled(s, event)
    ensures Inv(Step(s, event))
  {
    match event
    case Mount(key) => MountKeepsInv(s, key);
    case Unmount(key) => UnmountKeepsInv(s, key);
    case SetOpen(_, _) =>
  }

  lemma MountKeepsInv(s: Store, key: Key)
    requires Inv(s) && Enabled(s, Mount(key))
    ensures Inv(Step(s, Mount(key)))
  {
    var s' := Step(s, Mount(key));
    assert forall k :: k in s'.mounted <==> k == key || k in s.mounted;
    assert s'.views.Keys == s.views.Keys + {key} && s'.openViews.Keys == s.openViews.Keys + {key};
    assert s'.views.Keys == Members(s'.mounted);
    if s.mounted != [] {
      assert s'.mounted[0] == s.mounted[0] && s.mounted[0] in s.mounted;
    }
  }

  /** Unsubscribing takes out the key, and the first of those left is the primary. */
  lemma UnmountKeepsOrder(s: Store, key: Key)
    requires Inv(s) && Enabled(s, Unmount(key))
    ensures var s' := Step(s, Unmount(key));
            && s'.mounted == Without(s.mounted, key) && Distinct(s'.mounted)
            && s'.primary == if s'.mounted == [] then None else Some(s'.mounted[0])
  {
    WithoutKeepsOrder(s.mounted, key);
    hide Members;
    hide ReadPrimary;
    hide ReadOpen;
  }

  /** What the instances left have read. */
  lemma UnmountedViews(s: Store, key: Key)
    requires Inv(s) && Enabled(s, Unmount(key))
    ensures var s' := Step(s, Unmount(key));
            && s'.views == ReadPrimary(s.views - {key}, Members(s'.mounted), s'.primary)
            && (if s'.mounted == [] then !s'.sharedOpen else s'.sharedOpen == s.sharedOpen)
            && s'.openViews.Keys == s.openViews.Keys - {key}
            && (s'.mounted != [] ==> s'.openViews == s.openViews - {key})
  {
    hide Members;
    hide ReadPrimary;
    hide Distinct;
  }

  lemma UnmountKeepsInv(s: Store, key: Key)
    requires Inv(s) && Enabled(s, Unmount(key))
    ensures Inv(Step(s, Unmount(key)))
  {
    UnmountKeepsOrder(s, key);
    UnmountedViews(s, key);
    hide Step;
    hide Distinct;
    var s' := Step(s, Unmount(key));
    MembersLeft(s.mounted, key);
    hide Without;
    hide Members;
    assert s'.views.Keys == s.views.Keys - {key};
    assert forall k <- s'.mounted :: k in Members(s'.mounted) by { MembersAre(s'.mounted); }
  }

  lemma MembersAre(keys: seq<Key>)
    ensures forall k :: k in Members(keys) <==> k in keys
  {
  }

  lemma MembersLeft(keys: seq<Key>, key: Key)
    ensures Members(Without(keys, key)) == Members(keys) - {key}
  {
  }

  /** What a step does to the list and to the flag. */
  lemma StepTells(s: Store, event: Event)
    requires Inv(s) && Enabled(s, event)
    ensures var s' := Step(s, event);
            match event
            case Mount(key) => s'.mounted == s.mounted + [key] && s'.sharedOpen == s.sharedOpen
            case Unmount(key) =>
              s'.mounted == Without(s.mounted, key) && s'.sharedOpen == (s.sharedOpen && Without(s.mounted, key) != [])
            case SetOpen(_, asked) => s'.mounted == s.mounted && s'.sharedOpen == asked
  {
    hide Members;
    hide ReadPrimary;
    hide ReadOpen;
    hide Distinct;
  }

  lemma {:induction false} RunKeepsInv(s: Store, events: seq<Event>)
    requires Inv(s) && Possible(s, events)
    ensures Inv(After(s, events))
    ensures After(s, events).mounted == StillMounted(s.mounted, events)
    ensures After(s, events).sharedOpen == LastAsked(s.mounted, s.sharedOpen, events)
    decreases |events|
  {
    hide Inv;
    hide Step;
    hide Enabled;
    hide Without;
    if events != [] {
      StepKeepsInv(s, events[0]);
      StepTells(s, events[0]);
      RunKeepsInv(Step(s, events[0]), events[1..]);
    }
  }

  /** An instance draws the dialog when its view says it is the primary one. */
  predicate Renders(s: Store, key: Key) {
    key in s.mounted && key in s.views && s.views[key]
  }

  /**
   Main result. After any run of mounts, unmounts, openings and closings: nobody renders the
   dialog exactly when nothing is mounted; otherwise exactly one instance does, the one mounted
   longest; every instance has been told the current state of both variables; and the dialog
   is open exactly if it was last asked to be since something has been mounted throughout.
   */
  lemma ExactlyOneRenders(events: seq<Event>)
    requires Possible(NOTHING, events)
    ensures var s, keys := After(NOTHING, events), StillMounted([], events);
            && (s.primary == None <==> keys == [])
            && (keys != [] ==> s.primary == Some(keys[0]) && Renders(s, keys[0]))
            && (forall k: Key :: Renders(s, k) ==> keys != [] && k == keys[0])
            && (forall k <- keys :: k in s.openViews && s.openViews[k] == s.sharedOpen)
            && s.sharedOpen == LastAsked([], false, events)
            && (keys == [] ==> !s.sharedOpen)
  {
    RunKeepsInv(NOTHING, events);
  }

  lemma WithoutStep(first: Key, rest: seq<Key>, key: Key)
    ensures Without([first] + rest, key) == (if first == key then [] else [first]) + Without(rest, key)
  {
    assert ([first] + rest)[1..] == rest;
  }

  lemma {:induction false} WithoutOver(a: seq<Key>, b: seq<Key>, key: Key)
    ensures Without(a + b, key) == Without(a, key) + Without(b, key)
    decreases |a|
  {
    hide Without;
    if a == [] {
      assert a + b == b;
    } else {
      WithoutStep(a[0], a[1..] + b, key);
      WithoutStep(a[0], a[1..], key);
      assert a + b == [a[0]] + (a[1..] + b) && a == [a[0]] + a[1..];
      WithoutOver(a[1..], b, key);
    }
  }

  lemma WithoutAround(before: seq<Key>, key: Key, after: seq<Key>)
    requires key !in before && key !in after
    ensures Without(before + ([key] + after), key) == before + after
  {
    hide Without;
    WithoutOver(before, [key] + after, key);
    WithoutStep(key, after, key);
    assert [] + after == after;
  }

  lemma DistinctAround(keys: seq<Key>, k: nat)
    requires Distinct(keys) && k < |keys|
    ensures keys[k] !in keys[..k] && keys[k] !in keys[k + 1..]
    ensures keys == keys[..k] + ([keys[k]] + keys[k + 1..])
  {
  }

  lemma WithoutAt(keys: seq<Key>, k: nat)
    requires Distinct(keys) && k < |keys|
    ensures Without(keys, keys[k]) == keys[..k] + keys[k + 1..]
  {
    hide *;
    DistinctAround(keys, k);
    WithoutAround(keys[..k], keys[k], keys[k + 1..]);
  }

  lemma NothingKeepsInv()
    ensures Inv(NOTHING)
  {
  }

  /** Unmounting takes one instance out and leaves the others in the order they were mounted in. */
  lemma UnmountKeepsMountingOrder(events: seq<Event>, k: nat)
    requires Possible(NOTHING, events) && k < |After(NOTHING, events).mounted|
    ensures var s := After(NOTHING, events);
            && Enabled(s, Unmount(s.mounted[k]))
            && Step(s, Unmount(s.mounted[k])).mounted == s.mounted[..k] + s.mounted[k + 1..]
  {
    hide Step;
    hide Without;
    hide ReadPrimary;
    NothingKeepsInv();
    RunKeepsInv(NOTHING, events);
    var s := After(NOTHING, events);
    UnmountKeepsOrder(s, s.mounted[k]);
    WithoutAt(s.mounted, k);
  }
}
