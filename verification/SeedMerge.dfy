/**
 Merging the server's seed connections with the user's own.

 The connection manager lists managed seeds as served, prefers an existing editable copy of
 an editable seed, persists a copy of a new one, and appends the user's other connections.
 A lighter hook merges without copies. Both read the same storage.
 */
module SeedMerge {
  import opened Common

  /** A stored connection; `settings` is everything the merge does not look at. */
  datatype Connection = Connection(id: string, seedId: Option<string>, managed: bool, settings: string)

  /** A seed as `GET /api/connections/managed` serializes it. */
  datatype Seed = Seed(id: string, seedId: Option<string>, managed: bool, settings: string)

  function Copy(mc: Seed): Connection {
    Connection(mc.id, mc.seedId, mc.managed, mc.settings)
  }

  /** A seed id that JavaScript takes for true: present and not empty. */
  predicate Truthy(seedId: Option<string>) {
    seedId.Some? && seedId.value != ""
  }

  predicate Dismissed(mc: Seed, dismissed: set<string>) {
    !mc.managed && Truthy(mc.seedId) && mc.seedId.value in dismissed
  }

  /** The first stored connection that came from the seed. */
  function FirstCopy(conns: seq<Connection>, seedId: Option<string>): (c: Option<Connection>)
    ensures c.Some? ==> c.value in conns && c.value.seedId == seedId
    ensures c.None? <==> forall u <- conns :: u.seedId != seedId
  {
    if conns == [] then None
    else if conns[0].seedId == seedId then Some(conns[0])
    else FirstCopy(conns[1..], seedId)
  }

  /** What the manager lists for a seed. */
  function Listed(mc: Seed, user: seq<Connection>): Connection {
    if mc.managed || FirstCopy(user, mc.seedId).None? then Copy(mc) else FirstCopy(user, mc.seedId).value
  }

  predicate New(mc: Seed, user: seq<Connection>, dismissed: set<string>) {
    !mc.managed && !Dismissed(mc, dismissed) && FirstCopy(user, mc.seedId).None?
  }

  function Head(seeds: seq<Seed>, user: seq<Connection>, dismissed: set<string>): seq<Connection> {
    if seeds == [] then []
    else
      (if Dismissed(seeds[0], dismissed) then [] else [Listed(seeds[0], user)]) + Head(seeds[1..], user, dismissed)
  }

  function NewSeeds(seeds: seq<Seed>, user: seq<Connection>, dismissed: set<string>): (news: seq<Seed>)
    ensures forall n <- news :: n in seeds && New(n, user, dismissed)
    ensures forall mc <- seeds :: New(mc, user, dismissed) ==> mc in news
  {
    if seeds == [] then []
    else
      (if New(seeds[0], user, dismissed) then [seeds[0]] else []) + NewSeeds(seeds[1..], user, dismissed)
  }

  /** Storage keeps one connection an id: saving replaces in place or appends. */
  function Save(conns: seq<Connection>, c: Connection): (after: seq<Connection>)
    ensures c in after
    ensures forall u <- after :: u == c || u in conns
    ensures forall u <- conns :: u.id != c.id ==> u in after
  {
    if conns == [] then [c]
    else if conns[0].id == c.id then
      var after := [c] + conns[1..];
      assert forall u <- conns :: u.id != c.id ==> u in conns[1..];
      after
    else [conns[0]] + Save(conns[1..], c)
  }

  function SaveAll(conns: seq<Connection>, news: seq<Seed>): seq<Connection>
    decreases |news|
  {
    if news == [] then conns else SaveAll(Save(conns, Copy(news[0])), news[1..])
  }

  function SeedIds(seeds: seq<Seed>): set<Option<string>> {
    set mc <- seeds :: mc.seedId
  }

  function Ids(conns: seq<Connection>): set<string> {
    set c <- conns :: c.id
  }

  predicate FromSeed(uc: Connection, seeds: seq<Seed>) {
    Truthy(uc.seedId) && uc.seedId in SeedIds(seeds)
  }

  /** The user's connections of no served seed, without those whose id is taken. */
  function Rest(user: seq<Connection>, seeds: seq<Seed>, taken: set<string>): seq<Connection> {
    if user == [] then []
    else
      (if FromSeed(user[0], seeds) || user[0].id in taken then [] else [user[0]]) + Rest(user[1..], seeds, taken)
  }

  /** The list the manager shows and the storage it leaves behind. */
  function Merged(seeds: seq<Seed>, user: seq<Connection>, dismissed: set<string>): (seq<Connection>, seq<Connection>) {
    var head := Head(seeds, user, dismissed);
    (head + Rest(user, seeds, Ids(head)), SaveAll(user, NewSeeds(seeds, user, dismissed)))
  }

  // ---------------------------------------------------------------- the two hooks

  class Storage {
    var connections: seq<Connection>
    var dismissedSeeds: set<string>

    constructor (stored: seq<Connection>, dismissed: set<string>)
      ensures connections == stored && dismissedSeeds == dismissed
    {
      connections, dismissedSeeds := stored, dismissed;
    }

    method SaveConnection(c: Connection)
      modifies `connections
      ensures connections == Save(old(connections), c)
    {
      var i := 0;
      while i < |connections| && connections[i].id != c.id
        invariant 0 <= i <= |connections|
        invariant forall j :: 0 <= j < i ==> connections[j].id != c.id
      {
        i := i + 1;
      }
      SaveAt(connections, c, i);
      if i < |connections| {
        connections := connections[i := c];
      } else {
        connections := connections + [c];
      }
    }

    method MergeManagedConnections(managedConns: seq<Seed>) returns (merged: seq<Connection>)
      modifies `connections
      ensures (merged, connections) == Merged(managedConns, old(connections), dismissedSeeds)
    {
      var userConns := connections;
      merged := ListSeeds(managedConns, userConns);
      var seedIds := SeedIds(managedConns);
      var mergedIds := Ids(merged);
      var i := 0;
      ghost var head := merged;
      assert userConns[0..] == userConns;
      while i < |userConns|
        invariant 0 <= i <= |userConns|
        invariant connections == SaveAll(userConns, NewSeeds(managedConns, userConns, dismissedSeeds))
        invariant head + Rest(userConns, managedConns, mergedIds)
                  == merged + Rest(userConns[i..], managedConns, mergedIds)
      {
        var uc := userConns[i];
        RestStep(merged, userConns, i, managedConns, mergedIds);
        if !(Truthy(uc.seedId) && uc.seedId in seedIds) && uc.id !in mergedIds {
          merged := merged + [uc];
        }
        i := i + 1;
      }
      assert userConns[i..] == [] && merged + [] == merged;
    }

    /** The first loop of the merge: it lists the seeds, saving a copy of each new editable one. */
    method ListSeeds(managedConns: seq<Seed>, userConns: seq<Connection>) returns (merged: seq<Connection>)
      modifies `connections
      ensures merged == Head(managedConns, userConns, dismissedSeeds)
      ensures connections == SaveAll(old(connections), NewSeeds(managedConns, userConns, dismissedSeeds))
    {
      hide Head;
      hide NewSeeds;
      hide SaveAll;
      hide Save;
      hide FirstCopy;
      AllListed(userConns, dismissedSeeds);
      assert managedConns[0..] == managedConns;
      merged := [];
      var i := 0;
      while i < |managedConns|
        invariant 0 <= i <= |managedConns|
        invariant Head(managedConns, userConns, dismissedSeeds)
               == merged + Head(managedConns[i..], userConns, dismissedSeeds)
        invariant SaveAll(old(connections), NewSeeds(managedConns, userConns, dismissedSeeds))
               == SaveAll(connections, NewSeeds(managedConns[i..], userConns, dismissedSeeds))
      {
        var mc := managedConns[i];
        HeadStep(merged, connections, managedConns, i, userConns, dismissedSeeds);
        if mc.managed {
          merged := merged + [Copy(mc)];
        } else if !(Truthy(mc.seedId) && mc.seedId.value in dismissedSeeds) {
          var existing := FirstCopy(userConns, mc.seedId);
          if existing.Some? {
            merged := merged + [existing.value];
          } else {
            SaveConnection(Copy(mc));
            merged := merged + [Copy(mc)];
          }
        }
        i := i + 1;
      }
      assert managedConns[i..] == [] && merged + [] == merged;
      NothingSaved(connections);
    }

    /** The merge of `useAllConnections`: it copies nothing and saves nothing. */
    method LoadAll(managedConns: seq<Seed>) returns (merged: seq<Connection>)
      ensures merged == AllConnections(managedConns, connections, dismissedSeeds)
    {
      merged := [];
      var addedIds: set<string> := {};
      var i := 0;
      while i < |managedConns|
        invariant 0 <= i <= |managedConns|
        invariant ServedHead(managedConns, dismissedSeeds) == merged + ServedHead(managedConns[i..], dismissedSeeds)
        invariant AddedIds(managedConns, dismissedSeeds) == addedIds + AddedIds(managedConns[i..], dismissedSeeds)
      {
        var mc := managedConns[i];
        ServedStep(merged, managedConns, i, dismissedSeeds);
        if !(!mc.managed && Truthy(mc.seedId) && mc.seedId.value in dismissedSeeds) {
          merged := merged + [Copy(mc)];
          addedIds := addedIds + {mc.id};
          if Truthy(mc.seedId) {
            addedIds := addedIds + {"seed:" + mc.seedId.value};
          }
        }
        i := i + 1;
      }
      assert managedConns[i..] == [];
      assert addedIds == AddedIds(managedConns, dismissedSeeds);
      i := 0;
      ghost var head := merged;
      assert connections[0..] == connections;
      while i < |connections|
        invariant 0 <= i <= |connections|
        invariant head + Rest(connections, managedConns, addedIds)
                  == merged + Rest(connections[i..], managedConns, addedIds)
      {
        var uc := connections[i];
        RestStep(merged, connections, i, managedConns, addedIds);
        if uc.id !in addedIds && !(Truthy(uc.seedId) && exists mc <- managedConns :: mc.seedId == uc.seedId) {
          merged := merged + [uc];
        }
        i := i + 1;
      }
      assert connections[i..] == [] && merged + [] == merged;
    }
  }

  lemma SaveAt(conns: seq<Connection>, c: Connection, i: nat)
    requires i <= |conns| && forall j :: 0 <= j < i ==> conns[j].id != c.id
    requires i < |conns| ==> conns[i].id == c.id
    ensures Save(conns, c) == if i < |conns| then conns[i := c] else conns + [c]
  {
    if conns != [] {
      var rest := conns[1..];
      assert conns == [conns[0]] + rest;
      if i == 0 {
        assert [c] + rest == conns[0 := c];
      } else {
        assert forall j :: 0 <= j < i - 1 ==> rest[j] == conns[j + 1];
        SaveAt(rest, c, i - 1);
        BehindFirst(conns[0], rest, i - 1, c);
      }
    }
  }

  lemma BehindFirst(first: Connection, rest: seq<Connection>, i: nat, c: Connection)
    requires i <= |rest|
    ensures i < |rest| ==> [first] + rest[i := c] == ([first] + rest)[i + 1 := c]
    ensures [first] + (rest + [c]) == [first] + rest + [c]
  {
  }

  lemma AllListed(user: seq<Connection>, dismissed: set<string>)
    ensures Head([], user, dismissed) == [] && NewSeeds([], user, dismissed) == []
  {
  }

  lemma NothingSaved(conns: seq<Connection>)
    ensures SaveAll(conns, []) == conns
  {
  }

  lemma HeadStep(merged: seq<Connection>, stored: seq<Connection>, seeds: seq<Seed>, i: nat, user: seq<Connection>,
                 dismissed: set<string>)
    requires i < |seeds|
    ensures var rest := Head(seeds[i + 1..], user, dismissed);
            merged + Head(seeds[i..], user, dismissed)
            == (if Dismissed(seeds[i], dismissed) then merged else merged + [Listed(seeds[i], user)]) + rest
    ensures var rest := NewSeeds(seeds[i + 1..], user, dismissed);
            SaveAll(stored, NewSeeds(seeds[i..], user, dismissed))
            == SaveAll(if New(seeds[i], user, dismissed) then Save(stored, Copy(seeds[i])) else stored, rest)
  {
    assert seeds[i..][1..] == seeds[i + 1..];
    var rest := NewSeeds(seeds[i + 1..], user, dismissed);
    assert ([seeds[i]] + rest)[1..] == rest;
    assert [] + rest == rest;
  }

  lemma ServedStep(merged: seq<Connection>, seeds: seq<Seed>, i: nat, dismissed: set<string>)
    requires i < |seeds|
    ensures merged + ServedHead(seeds[i..], dismissed)
         == (if Dismissed(seeds[i], dismissed) then merged else merged + [Copy(seeds[i])])
            + ServedHead(seeds[i + 1..], dismissed)
    ensures AddedIds(seeds[i..], dismissed) == AddedIds([seeds[i]], dismissed) + AddedIds(seeds[i + 1..], dismissed)
  {
    assert seeds[i..][1..] == seeds[i + 1..];
  }

  lemma RestStep(merged: seq<Connection>, user: seq<Connection>, i: nat, seeds: seq<Seed>, taken: set<string>)
    requires i < |user|
    ensures merged + Rest(user[i..], seeds, taken)
         == (if FromSeed(user[i], seeds) || user[i].id in taken then merged else merged + [user[i]])
            + Rest(user[i + 1..], seeds, taken)
  {
    assert user[i..][1..] == user[i + 1..];
  }

  /** The seeds as served, without dismissed editable ones. */
  function ServedHead(seeds: seq<Seed>, dismissed: set<string>): seq<Connection> {
    if seeds == [] then []
    else (if Dismissed(seeds[0], dismissed) then [] else [Copy(seeds[0])]) + ServedHead(seeds[1..], dismissed)
  }

  function AddedIds(seeds: seq<Seed>, dismissed: set<string>): set<string> {
    if seeds == [] then {}
    else
      (if Dismissed(seeds[0], dismissed) then {}
       else if Truthy(seeds[0].seedId) then {seeds[0].id, "seed:" + seeds[0].seedId.value}
       else {seeds[0].id}) + AddedIds(seeds[1..], dismissed)
  }

  function AllConnections(seeds: seq<Seed>, user: seq<Connection>, dismissed: set<string>): seq<Connection> {
    ServedHead(seeds, dismissed) + Rest(user, seeds, AddedIds(seeds, dismissed))
  }

  // ---------------------------------------------------------------- idempotence

  predicate DistinctSeedIds(seeds: seq<Seed>) {
    && (forall mc <- seeds :: Truthy(mc.seedId))
    && (forall i, j :: 0 <= i < j < |seeds| ==> seeds[i].seedId != seeds[j].seedId)
  }

  predicate DistinctIds(conns: seq<Connection>) {
    forall i, j :: 0 <= i < j < |conns| ==> conns[i].id != conns[j].id
  }

  /** Storage never comes to hold two connections of one id. */
  lemma SaveKeepsDistinctIds(conns: seq<Connection>, c: Connection)
    requires DistinctIds(conns)
    ensures DistinctIds(Save(conns, c))
  {
    if conns != [] && conns[0].id != c.id {
      SaveKeepsDistinctIds(conns[1..], c);
      var after := Save(conns[1..], c);
      forall j | 0 <= j < |after| ensures after[j].id != conns[0].id {
        assert after[j] in after;
      }
    }
  }

  lemma SaveOther(conns: seq<Connection>, c: Connection, seedId: Option<string>)
    requires c.seedId != seedId
    requires FirstCopy(conns, seedId).Some? ==> FirstCopy(conns, seedId).value.id != c.id
    ensures FirstCopy(Save(conns, c), seedId) == FirstCopy(conns, seedId)
  {
    if conns != [] && conns[0].id != c.id {
      assert ([conns[0]] + Save(conns[1..], c))[1..] == Save(conns[1..], c);
      if conns[0].seedId != seedId { SaveOther(conns[1..], c, seedId); }
    } else if conns != [] {
      assert ([c] + conns[1..])[1..] == conns[1..];
    }
  }

  lemma SaveSelf(conns: seq<Connection>, c: Connection)
    requires FirstCopy(conns, c.seedId).None?
    ensures FirstCopy(Save(conns, c), c.seedId) == Some(c)
  {
    if conns != [] && conns[0].id != c.id {
      assert ([conns[0]] + Save(conns[1..], c))[1..] == Save(conns[1..], c);
      SaveSelf(conns[1..], c);
    }
  }

  /** Saving a connection drops any other one of its id. */
  lemma SaveOverwrites(conns: seq<Connection>, c: Connection, dropped: Connection)
    requires DistinctIds(conns) && dropped.id == c.id && dropped != c
    ensures dropped !in Save(conns, c)
  {
    if conns != [] {
      if conns[0].id == c.id {
        forall u | u in conns[1..] ensures u != dropped {
          var k :| 0 <= k < |conns[1..]| && conns[1..][k] == u;
          assert conns[k + 1] == u;
        }
      } else {
        SaveOverwrites(conns[1..], c, dropped);
      }
    }
  }

  /** The copy `c` is what storage answers for its seed after saving `news` iff none of them has its id. */
  lemma {:induction false} CopySurvivesIff(conns: seq<Connection>, news: seq<Seed>, c: Connection)
    requires DistinctIds(conns) && FirstCopy(conns, c.seedId) == Some(c)
    requires forall n <- news :: n.seedId != c.seedId
    ensures FirstCopy(SaveAll(conns, news), c.seedId) == Some(c) <==> forall n <- news :: n.id != c.id
    decreases |news|
  {
    if news != [] {
      var first := Copy(news[0]);
      assert news[0] in news;
      SaveKeepsDistinctIds(conns, first);
      if first.id == c.id {
        SaveOverwrites(conns, first, c);
        StaysGone(Save(conns, first), news[1..], c);
      } else {
        SaveOther(conns, first, c.seedId);
        CopySurvivesIff(Save(conns, first), news[1..], c);
      }
    }
  }

  lemma {:induction false} StaysGone(conns: seq<Connection>, news: seq<Seed>, c: Connection)
    requires c !in conns && forall n <- news :: n.seedId != c.seedId
    ensures c !in SaveAll(conns, news)
    decreases |news|
  {
    if news != [] {
      assert news[0] in news;
      StaysGone(Save(conns, Copy(news[0])), news[1..], c);
    }
  }

  /** No copy of a seed appears unless that seed is saved. */
  lemma {:induction false} NoCopyFromOthers(conns: seq<Connection>, news: seq<Seed>, seedId: Option<string>)
    requires FirstCopy(conns, seedId).None? && forall n <- news :: n.seedId != seedId
    ensures FirstCopy(SaveAll(conns, news), seedId).None?
    decreases |news|
  {
    if news != [] {
      assert news[0] in news;
      SaveOther(conns, Copy(news[0]), seedId);
      NoCopyFromOthers(Save(conns, Copy(news[0])), news[1..], seedId);
    }
  }

  /** The `k`-th new seed is what storage answers for it afterwards iff no later one has its id. */
  lemma {:induction false} NewCopySurvivesIff(conns: seq<Connection>, news: seq<Seed>, k: nat)
    requires DistinctIds(conns) && DistinctSeedIds(news) && k < |news|
    requires FirstCopy(conns, news[k].seedId).None?
    ensures FirstCopy(SaveAll(conns, news), news[k].seedId) == Some(Copy(news[k]))
       <==> forall j :: k < j < |news| ==> news[j].id != news[k].id
    decreases |news|
  {
    hide FirstCopy;
    hide Save;
    hide DistinctIds;
    var first := Copy(news[0]);
    SaveKeepsDistinctIds(conns, first);
    if k == 0 {
      SaveSelf(conns, first);
      CopySurvivesIff(Save(conns, first), news[1..], first);
      assert (forall n <- news[1..] :: n.id != first.id) <==> forall j :: 0 < j < |news| ==> news[j].id != first.id by {
        assert forall j :: 0 < j < |news| ==> news[j] == news[1..][j - 1];
      }
    } else {
      SaveOther(conns, first, news[k].seedId);
      NewCopySurvivesIff(Save(conns, first), news[1..], k - 1);
      assert forall j :: k < j < |news| ==> news[j] == news[1..][j - 1];
    }
  }

  /** Storage answers a seed, from now on, with what the manager just listed for it. */
  ghost predicate Remembered(mc: Seed, user: seq<Connection>, after: seq<Connection>) {
    FirstCopy(after, mc.seedId) == Some(Listed(mc, user))
  }

  /** The seeds whose copy matters: editable and not dismissed. */
  predicate Editable(mc: Seed, dismissed: set<string>) {
    !mc.managed && !Dismissed(mc, dismissed)
  }

  /**
   When nothing the merge saves is lost: the new seeds bring ids of their own, and none of
   them is the id of the stored copy of another seed served as editable.
   */
  ghost predicate IdsApart(seeds: seq<Seed>, user: seq<Connection>, dismissed: set<string>) {
    var news := NewSeeds(seeds, user, dismissed);
    && (forall i, j :: 0 <= i < j < |news| ==> news[i].id != news[j].id)
    && (forall n, mc | n in news && mc in seeds && Editable(mc, dismissed) && FirstCopy(user, mc.seedId).Some? ::
          n.id != FirstCopy(user, mc.seedId).value.id)
  }

  lemma {:induction false} NewSeedsDistinct(seeds: seq<Seed>, user: seq<Connection>, dismissed: set<string>)
    requires DistinctSeedIds(seeds)
    ensures DistinctSeedIds(NewSeeds(seeds, user, dismissed))
    decreases |seeds|
  {
    if seeds != [] {
      NewSeedsDistinct(seeds[1..], user, dismissed);
      var rest := NewSeeds(seeds[1..], user, dismissed);
      forall j | 0 <= j < |rest| ensures rest[j].seedId != seeds[0].seedId {
        assert rest[j] in seeds[1..];
      }
    }
  }

  lemma RememberedIffIdsApart(seeds: seq<Seed>, user: seq<Connection>, dismissed: set<string>)
    requires DistinctSeedIds(seeds) && DistinctIds(user)
    ensures var after := SaveAll(user, NewSeeds(seeds, user, dismissed));
            (forall mc <- seeds :: Editable(mc, dismissed) ==> Remembered(mc, user, after))
            <==> IdsApart(seeds, user, dismissed)
  {
    var news := NewSeeds(seeds, user, dismissed);
    var after := SaveAll(user, news);
    NewSeedsDistinct(seeds, user, dismissed);
    forall mc | mc in seeds && Editable(mc, dismissed) && FirstCopy(user, mc.seedId).Some?
      ensures Remembered(mc, user, after) <==> forall n <- news :: n.id != FirstCopy(user, mc.seedId).value.id
    {
      CopySurvivesIff(user, news, FirstCopy(user, mc.seedId).value);
    }
    forall k | 0 <= k < |news|
      ensures Remembered(news[k], user, after) <==> forall j :: k < j < |news| ==> news[j].id != news[k].id
    {
      assert news[k] in news;
      NewCopySurvivesIff(user, news, k);
    }
    if IdsApart(seeds, user, dismissed) {
      forall mc | mc in seeds && Editable(mc, dismissed) ensures Remembered(mc, user, after) {
        if FirstCopy(user, mc.seedId).None? {
          assert mc in news;
          var k :| 0 <= k < |news| && news[k] == mc;
          assert Remembered(news[k], user, after);
        }
      }
    } else if forall mc <- seeds :: Editable(mc, dismissed) ==> Remembered(mc, user, after) {
      forall i, j | 0 <= i < j < |news| ensures news[i].id != news[j].id {
        assert news[i] in news;
        assert Remembered(news[i], user, after);
      }
      assert false;
    }
  }

  lemma ConsEqual<T>(x: T, xs: seq<T>, y: T, ys: seq<T>)
    ensures [x] + xs == [y] + ys <==> x == y && xs == ys
  {
    if [x] + xs == [y] + ys {
      assert ([x] + xs)[0] == x && ([y] + ys)[0] == y;
      assert xs == ([x] + xs)[1..] && ys == ([y] + ys)[1..];
    }
  }

  lemma {:induction false} HeadsAgreeIff(seeds: seq<Seed>, user: seq<Connection>, after: seq<Connection>,
          dismissed: set<string>)
    ensures |Head(seeds, user, dismissed)| == |Head(seeds, after, dismissed)|
    ensures Head(seeds, user, dismissed) == Head(seeds, after, dismissed)
       <==> forall mc <- seeds :: !Dismissed(mc, dismissed) ==> Listed(mc, user) == Listed(mc, after)
    decreases |seeds|
  {
    if seeds != [] {
      var mc := seeds[0];
      HeadsAgreeIff(seeds[1..], user, after, dismissed);
      assert forall x :: x in seeds <==> x == mc || x in seeds[1..];
      var h1, h2 := Head(seeds[1..], user, dismissed), Head(seeds[1..], after, dismissed);
      if Dismissed(mc, dismissed) {
        assert [] + h1 == h1 && [] + h2 == h2;
      } else {
        ConsEqual(Listed(mc, user), h1, Listed(mc, after), h2);
      }
    }
  }

  /** What is saved for a seed never reaches the rest of the list. */
  lemma RestIgnoresSave(conns: seq<Connection>, c: Connection, seeds: seq<Seed>, taken: set<string>)
    requires FromSeed(c, seeds) && c.id in taken
    ensures Rest(Save(conns, c), seeds, taken) == Rest(conns, seeds, taken)
  {
    if conns == [] {
      assert [c][1..] == [];
    } else if conns[0].id == c.id {
      assert ([c] + conns[1..])[1..] == conns[1..];
    } else {
      assert ([conns[0]] + Save(conns[1..], c))[1..] == Save(conns[1..], c);
      RestIgnoresSave(conns[1..], c, seeds, taken);
    }
  }

  lemma {:induction false} RestIgnoresSaves(conns: seq<Connection>, news: seq<Seed>, seeds: seq<Seed>,
          taken: set<string>)
    requires forall n <- news :: n in seeds && Truthy(n.seedId) && n.id in taken
    ensures Rest(SaveAll(conns, news), seeds, taken) == Rest(conns, seeds, taken)
    decreases |news|
  {
    if news != [] {
      assert news[0] in news;
      RestIgnoresSave(conns, Copy(news[0]), seeds, taken);
      RestIgnoresSaves(Save(conns, Copy(news[0])), news[1..], seeds, taken);
    }
  }

  /** Everything listed for an undismissed seed is in the head. */
  lemma {:induction false} HeadHolds(seeds: seq<Seed>, user: seq<Connection>, dismissed: set<string>, mc: Seed)
    requires mc in seeds && !Dismissed(mc, dismissed)
    ensures Listed(mc, user) in Head(seeds, user, dismissed)
    decreases |seeds|
  {
    if seeds[0] != mc {
      assert mc in seeds[1..];
      HeadHolds(seeds[1..], user, dismissed, mc);
    }
  }

  /** Saving at least one seed that storage had no copy of changes storage. */
  lemma {:induction false} SavingChanges(conns: seq<Connection>, news: seq<Seed>)
    requires news != [] && forall n <- news :: FirstCopy(conns, n.seedId).None?
    ensures SaveAll(conns, news) != conns
  {
    LastSavedStays(conns, news);
    assert news[|news| - 1] in news;
  }

  lemma {:induction false} LastSavedStays(conns: seq<Connection>, news: seq<Seed>)
    requires news != []
    ensures Copy(news[|news| - 1]) in SaveAll(conns, news)
    decreases |news|
  {
    if |news| > 1 {
      LastSavedStays(Save(conns, Copy(news[0])), news[1..]);
    }
  }

  /**
   Main result. For distinct, defined seed ids over any storage, running the merge again on
   the storage it leaves behind gives the same list and the same storage if and only if the
   ids it saves under are apart.
   */
  lemma MergeIdempotentIff(seeds: seq<Seed>, user: seq<Connection>, dismissed: set<string>)
    requires DistinctSeedIds(seeds) && DistinctIds(user)
    ensures var once := Merged(seeds, user, dismissed);
            Merged(seeds, once.1, dismissed) == once <==> IdsApart(seeds, user, dismissed)
  {
    RememberedIffIdsApart(seeds, user, dismissed);
    var after := SaveAll(user, NewSeeds(seeds, user, dismissed));
    if IdsApart(seeds, user, dismissed) {
      RememberedGivesSame(seeds, user, dismissed);
    } else {
      var mc :| mc in seeds && Editable(mc, dismissed) && !Remembered(mc, user, after);
      ForgottenGivesOther(seeds, user, dismissed, mc);
    }
  }

  lemma RememberedGivesSame(seeds: seq<Seed>, user: seq<Connection>, dismissed: set<string>)
    requires DistinctSeedIds(seeds)
    requires var after := SaveAll(user, NewSeeds(seeds, user, dismissed));
             forall mc <- seeds :: Editable(mc, dismissed) ==> Remembered(mc, user, after)
    ensures var once := Merged(seeds, user, dismissed); Merged(seeds, once.1, dismissed) == once
  {
    var news := NewSeeds(seeds, user, dismissed);
    var after := SaveAll(user, news);
    var head := Head(seeds, user, dismissed);
    HeadsAgreeIff(seeds, user, after, dismissed);
    forall n | n in news ensures n.id in Ids(head) {
      HeadHolds(seeds, user, dismissed, n);
    }
    RestIgnoresSaves(user, news, seeds, Ids(head));
    var again := NewSeeds(seeds, after, dismissed);
    assert forall n <- again :: Editable(n, dismissed) && Remembered(n, user, after);
    assert forall i :: 0 <= i < |again| ==> again[i] in again;
  }

  lemma ForgottenGivesOther(seeds: seq<Seed>, user: seq<Connection>, dismissed: set<string>, mc: Seed)
    requires mc in seeds && Editable(mc, dismissed)
    requires !Remembered(mc, user, SaveAll(user, NewSeeds(seeds, user, dismissed)))
    ensures var once := Merged(seeds, user, dismissed); Merged(seeds, once.1, dismissed) != once
  {
    var after := SaveAll(user, NewSeeds(seeds, user, dismissed));
    if FirstCopy(after, mc.seedId).None? {
      var again := NewSeeds(seeds, after, dismissed);
      assert mc in again;
      SavingChanges(after, again);
    } else {
      var head, head2 := Head(seeds, user, dismissed), Head(seeds, after, dismissed);
      HeadsAgreeIff(seeds, user, after, dismissed);
      assert head != head2;
      assert Merged(seeds, user, dismissed).0[..|head|] == head;
      assert Merged(seeds, after, dismissed).0[..|head|] == head2;
    }
  }

  // ---------------------------------------------------------------- seeds as they are served

  /** A served seed's connection id spells its seed id. */
  predicate Served(mc: Seed) {
    mc.seedId.Some? && mc.id == "seed:" + mc.seedId.value
  }

  /** A stored copy keeps the id it was served with, and no other connection has such an id. */
  predicate Kept(u: Connection) {
    if u.seedId.Some? then u.id == "seed:" + u.seedId.value else !("seed:" <= u.id)
  }

  lemma PrefixIsFree(a: string, b: string)
    ensures "seed:" + a == "seed:" + b ==> a == b
  {
    assert ("seed:" + a)[5..] == a && ("seed:" + b)[5..] == b;
  }

  lemma NewSeedsHaveOwnIds(seeds: seq<Seed>, user: seq<Connection>, dismissed: set<string>)
    requires DistinctSeedIds(seeds) && (forall mc <- seeds :: Served(mc)) && forall u <- user :: Kept(u)
    ensures IdsApart(seeds, user, dismissed)
  {
    var news := NewSeeds(seeds, user, dismissed);
    NewSeedsDistinct(seeds, user, dismissed);
    forall i, j | 0 <= i < j < |news| ensures news[i].id != news[j].id {
      assert news[i] in news && news[j] in news && news[i].seedId != news[j].seedId;
      PrefixIsFree(news[i].seedId.value, news[j].seedId.value);
    }
    forall n, mc | n in news && mc in seeds && Editable(mc, dismissed) && FirstCopy(user, mc.seedId).Some?
      ensures n.id != FirstCopy(user, mc.seedId).value.id
    {
      var c := FirstCopy(user, mc.seedId).value;
      PrefixIsFree(n.seedId.value, c.seedId.value);
    }
  }

  lemma {:induction false} SaveAllKeeps(conns: seq<Connection>, news: seq<Seed>)
    requires (forall u <- conns :: Kept(u)) && (forall mc <- news :: Served(mc)) && DistinctIds(conns)
    ensures (forall u <- SaveAll(conns, news) :: Kept(u)) && DistinctIds(SaveAll(conns, news))
    decreases |news|
  {
    if news != [] {
      assert news[0] in news && Kept(Copy(news[0]));
      SaveKeepsDistinctIds(conns, Copy(news[0]));
      SaveAllKeeps(Save(conns, Copy(news[0])), news[1..]);
    }
  }

  /**
   Main result for the payloads the server sends and the storage such merges leave: the merge
   is idempotent on list and storage, and what it leaves is such a storage again.
   */
  lemma ServedMergeIsIdempotent(seeds: seq<Seed>, user: seq<Connection>, dismissed: set<string>)
    requires DistinctSeedIds(seeds) && DistinctIds(user)
    requires (forall mc <- seeds :: Served(mc)) && forall u <- user :: Kept(u)
    ensures var once := Merged(seeds, user, dismissed);
            && Merged(seeds, once.1, dismissed) == once
            && DistinctIds(once.1) && forall u <- once.1 :: Kept(u)
  {
    NewSeedsHaveOwnIds(seeds, user, dismissed);
    MergeIdempotentIff(seeds, user, dismissed);
    SaveAllKeeps(user, NewSeeds(seeds, user, dismissed));
  }

  // ---------------------------------------------------------------- what the list holds

  lemma {:induction false} HeadComesFrom(seeds: seq<Seed>, user: seq<Connection>, dismissed: set<string>, c: Connection)
    requires c in Head(seeds, user, dismissed)
    ensures exists mc :: mc in seeds && !Dismissed(mc, dismissed) && c == Listed(mc, user)
    decreases |seeds|
  {
    if !Dismissed(seeds[0], dismissed) && c == Listed(seeds[0], user) {
    } else {
      assert c in Head(seeds[1..], user, dismissed);
      HeadComesFrom(seeds[1..], user, dismissed, c);
    }
  }

  lemma RestComesFrom(user: seq<Connection>, seeds: seq<Seed>, taken: set<string>)
    ensures forall c <- Rest(user, seeds, taken) :: c in user && !FromSeed(c, seeds) && c.id !in taken
  {
  }

  /** No connection of a dismissed editable seed is listed, not even a copy still in storage. */
  lemma NeverListsDismissed(seeds: seq<Seed>, user: seq<Connection>, dismissed: set<string>, mc: Seed, c: Connection)
    requires DistinctSeedIds(seeds) && mc in seeds && Dismissed(mc, dismissed)
    requires c in Merged(seeds, user, dismissed).0
    ensures c.seedId != mc.seedId
  {
    RestComesFrom(user, seeds, Ids(Head(seeds, user, dismissed)));
    if c in Head(seeds, user, dismissed) {
      HeadComesFrom(seeds, user, dismissed, c);
    }
  }

  /** The user's connections of no served seed, in storage order. */
  function Own(user: seq<Connection>, seeds: seq<Seed>): seq<Connection> {
    if user == [] then []
    else (if FromSeed(user[0], seeds) then [] else [user[0]]) + Own(user[1..], seeds)
  }

  lemma {:induction false} RestIsOwnIff(user: seq<Connection>, seeds: seq<Seed>, taken: set<string>)
    ensures |Rest(user, seeds, taken)| <= |Own(user, seeds)|
    ensures Rest(user, seeds, taken) == Own(user, seeds) <==> forall u <- Own(user, seeds) :: u.id !in taken
    decreases |user|
  {
    if user != [] {
      RestIsOwnIff(user[1..], seeds, taken);
      var own, rest := Own(user[1..], seeds), Rest(user[1..], seeds, taken);
      if FromSeed(user[0], seeds) {
        assert [] + own == own && [] + rest == rest;
      } else {
        assert Own(user, seeds) == [user[0]] + own;
        assert forall u :: u in Own(user, seeds) <==> u == user[0] || u in own;
        if user[0].id in taken {
          assert [] + rest == rest;
        } else {
          ConsEqual(user[0], rest, user[0], own);
        }
      }
    }
  }

  /**
   After the seeds comes every user connection of no served seed, once and in storage order,
   if and only if none of them has the id of a connection listed for a seed.
   */
  lemma KeepsOwnConnectionsIff(seeds: seq<Seed>, user: seq<Connection>, dismissed: set<string>)
    ensures var head := Head(seeds, user, dismissed);
            Merged(seeds, user, dismissed).0 == head + Own(user, seeds)
            <==> forall u <- Own(user, seeds) :: u.id !in Ids(head)
  {
    var head := Head(seeds, user, dismissed);
    RestIsOwnIff(user, seeds, Ids(head));
    var list := Merged(seeds, user, dismissed).0;
    assert list[|head|..] == Rest(user, seeds, Ids(head));
    assert (head + Own(user, seeds))[|head|..] == Own(user, seeds);
  }

  function SeedsOf(conns: seq<Connection>): seq<Option<string>> {
    seq(|conns|, i requires 0 <= i < |conns| => conns[i].seedId)
  }

  lemma {:induction false} HeadsListSameSeeds(seeds: seq<Seed>, user: seq<Connection>, dismissed: set<string>)
    ensures SeedsOf(ServedHead(seeds, dismissed)) == SeedsOf(Head(seeds, user, dismissed))
    decreases |seeds|
  {
    hide SeedsOf;
    hide Dismissed;
    hide Listed;
    hide FirstCopy;
    if seeds != [] {
      HeadsListSameSeeds(seeds[1..], user, dismissed);
      var h1, h2 := ServedHead(seeds[1..], dismissed), Head(seeds[1..], user, dismissed);
      if Dismissed(seeds[0], dismissed) {
        assert [] + h1 == h1 && [] + h2 == h2;
      } else {
        ListedIsOfTheSeed(seeds[0], user);
        SeedsOfCons(Copy(seeds[0]), h1);
        SeedsOfCons(Listed(seeds[0], user), h2);
      }
    }
  }

  lemma ListedIsOfTheSeed(mc: Seed, user: seq<Connection>)
    ensures Copy(mc).seedId == Listed(mc, user).seedId == mc.seedId
  {
  }

  lemma SeedsOfCons(c: Connection, rest: seq<Connection>)
    ensures SeedsOf([c] + rest) == [c.seedId] + SeedsOf(rest)
  {
  }

  /**
   The two hooks list the same seeds in the same order, and when no own connection collides
   with an id either of them takes, the same remaining connections after them.
   */
  lemma HooksAgree(seeds: seq<Seed>, user: seq<Connection>, dismissed: set<string>)
    ensures SeedsOf(ServedHead(seeds, dismissed)) == SeedsOf(Head(seeds, user, dismissed))
    ensures (forall u <- Own(user, seeds) ::
               u.id !in Ids(Head(seeds, user, dismissed)) && u.id !in AddedIds(seeds, dismissed)) ==>
            && AllConnections(seeds, user, dismissed) == ServedHead(seeds, dismissed) + Own(user, seeds)
            && Merged(seeds, user, dismissed).0 == Head(seeds, user, dismissed) + Own(user, seeds)
  {
    HeadsListSameSeeds(seeds, user, dismissed);
    RestIsOwnIff(user, seeds, Ids(Head(seeds, user, dismissed)));
    RestIsOwnIff(user, seeds, AddedIds(seeds, dismissed));
  }

  lemma OwnIdsAreFree(seeds: seq<Seed>, user: seq<Connection>, dismissed: set<string>, u: Connection)
    requires DistinctSeedIds(seeds) && (forall mc <- seeds :: Served(mc)) && forall v <- user :: Kept(v)
    requires u in user && !FromSeed(u, seeds)
    ensures u.id !in Ids(Head(seeds, user, dismissed)) && u.id !in AddedIds(seeds, dismissed)
  {
    forall c | c in Head(seeds, user, dismissed) ensures c.id != u.id {
      HeadComesFrom(seeds, user, dismissed, c);
      var mc :| mc in seeds && !Dismissed(mc, dismissed) && c == Listed(mc, user);
      assert c.seedId == mc.seedId && c.id == "seed:" + mc.seedId.value;
      NotTheSeedsId(seeds, mc, u);
    }
    AddedIdsAreServed(seeds, dismissed, u);
  }

  lemma NotTheSeedsId(seeds: seq<Seed>, mc: Seed, u: Connection)
    requires mc in seeds && Truthy(mc.seedId) && Kept(u) && !FromSeed(u, seeds)
    ensures u.id != "seed:" + mc.seedId.value
  {
    if u.seedId.Some? {
      PrefixIsFree(u.seedId.value, mc.seedId.value);
      assert mc.seedId in SeedIds(seeds);
    } else {
      assert ("seed:" + mc.seedId.value)[..5] == "seed:";
    }
  }

  lemma {:induction false} AddedIdsAreServed(seeds: seq<Seed>, dismissed: set<string>, u: Connection)
    requires (forall mc <- seeds :: Served(mc) && Truthy(mc.seedId)) && Kept(u) && !FromSeed(u, seeds)
    ensures u.id !in AddedIds(seeds, dismissed)
    decreases |seeds|
  {
    if seeds != [] {
      NotTheSeedsId(seeds, seeds[0], u);
      assert SeedIds(seeds[1..]) <= SeedIds(seeds);
      AddedIdsAreServed(seeds[1..], dismissed, u);
    }
  }

  lemma OwnComesFrom(user: seq<Connection>, seeds: seq<Seed>)
    ensures forall u <- Own(user, seeds) :: u in user && !FromSeed(u, seeds)
  {
  }

  // ---------------------------------------------------------------- what each seed is listed as

  /** How many of the first `k` seeds are listed. */
  function ListedBefore(seeds: seq<Seed>, k: nat, dismissed: set<string>): nat
    requires k <= |seeds|
  {
    if k == 0 then 0
    else ListedBefore(seeds, k - 1, dismissed) + if Dismissed(seeds[k - 1], dismissed) then 0 else 1
  }

  lemma ListedBeforeBehind(first: Seed, rest: seq<Seed>, k: nat, dismissed: set<string>)
    requires k <= |rest|
    ensures ListedBefore([first] + rest, k + 1, dismissed)
         == (if Dismissed(first, dismissed) then 0 else 1) + ListedBefore(rest, k, dismissed)
  {
    if k > 0 {
      ListedBeforeBehind(first, rest, k - 1, dismissed);
    }
  }

  lemma {:induction false} HeadAt(seeds: seq<Seed>, user: seq<Connection>, dismissed: set<string>, k: nat)
    requires k < |seeds| && !Dismissed(seeds[k], dismissed)
    ensures var at := ListedBefore(seeds, k, dismissed);
            at < |Head(seeds, user, dismissed)| && Head(seeds, user, dismissed)[at] == Listed(seeds[k], user)
    decreases |seeds|
  {
    hide Listed;
    hide Dismissed;
    if k > 0 {
      HeadAt(seeds[1..], user, dismissed, k - 1);
      assert seeds == [seeds[0]] + seeds[1..];
      ListedBeforeBehind(seeds[0], seeds[1..], k - 1, dismissed);
    }
  }

  lemma {:induction false} ServedHeadAt(seeds: seq<Seed>, dismissed: set<string>, k: nat)
    requires k < |seeds| && !Dismissed(seeds[k], dismissed)
    ensures var at := ListedBefore(seeds, k, dismissed);
            at < |ServedHead(seeds, dismissed)| && ServedHead(seeds, dismissed)[at] == Copy(seeds[k])
    decreases |seeds|
  {
    hide Copy;
    hide Dismissed;
    if k > 0 {
      ServedHeadAt(seeds[1..], dismissed, k - 1);
      assert seeds == [seeds[0]] + seeds[1..];
      ListedBeforeBehind(seeds[0], seeds[1..], k - 1, dismissed);
    }
  }

  lemma FirstCopyAt(conns: seq<Connection>, seedId: Option<string>, i: nat)
    requires i < |conns| && conns[i].seedId == seedId && forall j :: 0 <= j < i ==> conns[j].seedId != seedId
    ensures FirstCopy(conns, seedId) == Some(conns[i])
  {
    if i > 0 {
      FirstCopyAt(conns[1..], seedId, i - 1);
    }
  }

  /**
   What each seed is listed as, in the order served and without the dismissed ones. A managed
   seed is listed as served, every field of it, whatever storage holds. An editable one is
   listed as the first stored connection of its seed id, as it is, if there is one, and else as
   served. The lighter hook lists each as served.
   */
  lemma EachSeedIsListed(seeds: seq<Seed>, user: seq<Connection>, dismissed: set<string>, k: nat, i: nat)
    requires k < |seeds| && (seeds[k].managed || !Truthy(seeds[k].seedId) || seeds[k].seedId.value !in dismissed)
    requires i <= |user| && forall j :: 0 <= j < i ==> user[j].seedId != seeds[k].seedId
    requires i < |user| ==> user[i].seedId == seeds[k].seedId
    ensures var mc, at := seeds[k], ListedBefore(seeds, k, dismissed);
            var asServed := Connection(mc.id, mc.seedId, mc.managed, mc.settings);
            && at < |Merged(seeds, user, dismissed).0| && at < |AllConnections(seeds, user, dismissed)|
            && Merged(seeds, user, dismissed).0[at] == (if mc.managed || i == |user| then asServed else user[i])
            && AllConnections(seeds, user, dismissed)[at] == asServed
  {
    hide Head;
    hide ServedHead;
    hide Rest;
    hide SaveAll;
    hide NewSeeds;
    hide ListedBefore;
    HeadAt(seeds, user, dismissed, k);
    ServedHeadAt(seeds, dismissed, k);
    if i < |user| {
      FirstCopyAt(user, seeds[k].seedId, i);
    }
  }

  lemma {:induction false} SavedStays(conns: seq<Connection>, news: seq<Seed>, c: Connection)
    requires c in conns && forall n <- news :: n.id != c.id
    ensures c in SaveAll(conns, news)
    decreases |news|
  {
    if news != [] {
      assert news[0] in news;
      SavedStays(Save(conns, Copy(news[0])), news[1..], c);
    }
  }

  lemma {:induction false} NewIsSaved(conns: seq<Connection>, news: seq<Seed>, k: nat)
    requires k < |news| && forall i, j :: 0 <= i < j < |news| ==> news[i].id != news[j].id
    ensures Copy(news[k]) in SaveAll(conns, news)
    decreases |news|
  {
    var after, rest := Save(conns, Copy(news[0])), news[1..];
    assert forall i :: 0 <= i < |rest| ==> rest[i] == news[i + 1];
    if k == 0 {
      SavedStays(after, rest, Copy(news[0]));
    } else {
      NewIsSaved(after, rest, k - 1);
    }
  }

  lemma {:induction false} OnlyNewIsSaved(conns: seq<Connection>, news: seq<Seed>)
    ensures forall u <- SaveAll(conns, news) :: u in conns || exists n <- news :: u == Copy(n)
    decreases |news|
  {
    if news != [] {
      OnlyNewIsSaved(Save(conns, Copy(news[0])), news[1..]);
      assert forall n <- news[1..] :: n in news;
      assert news[0] in news;
    }
  }

  /** And a new editable seed is found in storage afterwards, as served, under its seed id. */
  lemma NewSeedIsStored(seeds: seq<Seed>, user: seq<Connection>, dismissed: set<string>, mc: Seed)
    requires DistinctSeedIds(seeds) && DistinctIds(user)
    requires (forall n <- seeds :: Served(n)) && forall u <- user :: Kept(u)
    requires mc in seeds && !mc.managed && mc.seedId.value !in dismissed && forall u <- user :: u.seedId != mc.seedId
    ensures var stored := Merged(seeds, user, dismissed).1;
            && Connection(mc.id, mc.seedId, false, mc.settings) in stored
            && forall u <- stored :: u.seedId == mc.seedId ==> u == Connection(mc.id, mc.seedId, false, mc.settings)
  {
    var news := NewSeeds(seeds, user, dismissed);
    NewSeedsHaveOwnIds(seeds, user, dismissed);
    assert New(mc, user, dismissed);
    var k :| 0 <= k < |news| && news[k] == mc;
    NewIsSaved(user, news, k);
    OnlyNewIsSaved(user, news);
    forall u | u in SaveAll(user, news) && u.seedId == mc.seedId ensures u == Copy(mc) {
      var n :| n in news && u == Copy(n);
    }
  }

  /** On such payloads and storage no id collides: both hooks append every own connection, once and in order. */
  lemma ServedListsKeepOwn(seeds: seq<Seed>, user: seq<Connection>, dismissed: set<string>)
    requires DistinctSeedIds(seeds) && (forall mc <- seeds :: Served(mc)) && forall u <- user :: Kept(u)
    ensures Merged(seeds, user, dismissed).0 == Head(seeds, user, dismissed) + Own(user, seeds)
    ensures AllConnections(seeds, user, dismissed) == ServedHead(seeds, dismissed) + Own(user, seeds)
  {
    OwnComesFrom(user, seeds);
    forall u | u in Own(user, seeds)
      ensures u.id !in Ids(Head(seeds, user, dismissed)) && u.id !in AddedIds(seeds, dismissed)
    {
      OwnIdsAreFree(seeds, user, dismissed, u);
    }
    HooksAgree(seeds, user, dismissed);
  }

  /** Whose connections are the user's own, and which ids the lighter hook takes for taken, in full. */
  lemma OwnAndTaken(seeds: seq<Seed>, user: seq<Connection>, dismissed: set<string>, u: Connection, id: string)
    ensures u in Own(user, seeds) <==>
              u in user && !(u.seedId.Some? && u.seedId.value != "" && exists mc <- seeds :: mc.seedId == u.seedId)
    ensures id in AddedIds(seeds, dismissed) <==>
              exists mc <- seeds ::
                && !(!mc.managed && mc.seedId.Some? && mc.seedId.value != "" && mc.seedId.value in dismissed)
                && (id == mc.id || (mc.seedId.Some? && mc.seedId.value != "" && id == "seed:" + mc.seedId.value))
  {
    OwnAre(seeds, user, u);
    TakenAre(seeds, dismissed, id);
  }

  lemma {:induction false} OwnAre(seeds: seq<Seed>, user: seq<Connection>, u: Connection)
    ensures u in Own(user, seeds) <==>
              u in user && !(u.seedId.Some? && u.seedId.value != "" && exists mc <- seeds :: mc.seedId == u.seedId)
    decreases |user|
  {
    if user != [] {
      OwnAre(seeds, user[1..], u);
      assert user == [user[0]] + user[1..];
    }
  }

  lemma {:induction false} TakenAre(seeds: seq<Seed>, dismissed: set<string>, id: string)
    ensures id in AddedIds(seeds, dismissed) <==>
              exists mc <- seeds ::
                && !(!mc.managed && mc.seedId.Some? && mc.seedId.value != "" && mc.seedId.value in dismissed)
                && (id == mc.id || (mc.seedId.Some? && mc.seedId.value != "" && id == "seed:" + mc.seedId.value))
    decreases |seeds|
  {
    if seeds != [] {
      TakenAre(seeds[1..], dismissed, id);
      assert forall mc :: mc in seeds <==> mc == seeds[0] || mc in seeds[1..];
    }
  }
}
