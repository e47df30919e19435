/** The slot-map store: clients and monitors under keys that are never reused, an
    order vector, a key list per monitor, and two reverse indexes. */
module NewWm {
  import opened Wrappers
  import opened WmViews

  type Key = nat

  datatype NewClient = NewClient(win: U32, geometry: ClientGeometry, state: ClientState, mon: Option<Key>)

  datatype Store = Store(
    clients: map<Key, NewClient>,
    monitors: map<Key, I32>,
    order: seq<Key>,
    lists: map<Key, seq<Key>>,
    clientToKey: map<U32, Key>,
    numToKey: map<I32, Key>,
    nextClient: Key,
    nextMonitor: Key)

  const EMPTY := Store(map[], map[], [], map[], map[], map[], 0, 0)

  // ----- the index invariant -----

  /** `order[k]` is the latest monitor with number `num`. */
  ghost predicate IsLatest(s: Store, num: I32, k: int) {
    && 0 <= k < |s.order|
    && s.order[k] in s.monitors && s.monitors[s.order[k]] == num
    && forall a :: k < a < |s.order| && s.order[a] in s.monitors ==> s.monitors[s.order[a]] != num
  }

  ghost predicate KeysOk(s: Store) {
    && (forall k :: k in s.clients ==> k < s.nextClient)
    && (forall m :: m in s.monitors ==> m < s.nextMonitor)
    && Distinct(s.order)
    && (forall a :: 0 <= a < |s.order| ==> s.order[a] in s.monitors)
    && (forall m :: m in s.monitors ==> m in s.order)
    && s.lists.Keys == s.monitors.Keys
  }

  /** Every listed key is live, listed once, and belongs to the listing monitor. */
  ghost predicate ListOk(s: Store, m: Key)
    requires m in s.lists
  {
    && Distinct(s.lists[m])
    && forall j :: 0 <= j < |s.lists[m]| ==>
         s.lists[m][j] in s.clients && s.clients[s.lists[m][j]].mon == Some(m)
  }

  /** A live key is listed by its own monitor. */
  ghost predicate Owned(s: Store, k: Key)
    requires k in s.clients
  {
    var mon := s.clients[k].mon;
    mon.Some? && mon.value in s.lists && k in s.lists[mon.value]
  }

  ghost predicate LeadsToLatest(s: Store, num: I32)
    requires num in s.numToKey
  {
    exists k :: IsLatest(s, num, k) && s.order[k] == s.numToKey[num]
  }

  ghost predicate IndexOk(s: Store) {
    && (forall w :: w in s.clientToKey ==> s.clientToKey[w] in s.clients && s.clients[s.clientToKey[w]].win == w)
    && (forall m :: m in s.monitors ==> s.monitors[m] in s.numToKey)
    && (forall n {:trigger LeadsToLatest(s, n)} :: n in s.numToKey ==> LeadsToLatest(s, n))
  }

  ghost predicate Shape(s: Store) {
    KeysOk(s) && forall m {:trigger ListOk(s, m)} :: m in s.lists ==> ListOk(s, m)
  }

  ghost predicate Inv(s: Store) {
    && Shape(s)
    && (forall k {:trigger Owned(s, k)} :: k in s.clients ==> Owned(s, k))
    && IndexOk(s)
  }

  /** Every live client is the one its window id leads to. Holds as long as no id
      is added while a client with that id is present. */
  ghost predicate Indexed(s: Store) {
    forall k :: k in s.clients ==>
      s.clients[k].win in s.clientToKey && s.clientToKey[s.clients[k].win] == k
  }

  // ----- operations -----

  function Without(list: seq<Key>, key: Key): (r: seq<Key>)
    ensures key !in r
    ensures forall k :: k in r <==> k in list && k != key
    ensures |r| <= |list|
  {
    if list == [] then []
    else if list[0] == key then Without(list[1..], key)
    else [list[0]] + Without(list[1..], key)
  }

  function StoreAddMonitor(s: Store, num: I32): Store {
    var key := s.nextMonitor;
    s.(monitors := s.monitors[key := num], order := s.order + [key], lists := s.lists[key := []],
       numToKey := s.numToKey[num := key], nextMonitor := key + 1)
  }

  ghost function StoreAddClient(s: Store, win: U32, num: I32): Store
    requires Inv(s)
  {
    if num !in s.numToKey then s else
    assert LeadsToLatest(s, num);
    var m := s.numToKey[num];
    var key := s.nextClient;
    s.(clients := s.clients[key := NewClient(win, ClientGeometry(0, 0, win, 0), Normal, Some(m))],
       lists := s.lists[m := s.lists[m] + [key]],
       clientToKey := s.clientToKey[win := key],
       nextClient := key + 1)
  }

  ghost function StoreRemove(s: Store, win: U32): Store
    requires Inv(s)
  {
    if win !in s.clientToKey then s else
    var key := s.clientToKey[win];
    assert Owned(s, key);
    var m := s.clients[key].mon.value;
    s.(clients := s.clients - {key}, lists := s.lists[m := Without(s.lists[m], key)],
       clientToKey := s.clientToKey - {win})
  }

  function StoreSet(s: Store, key: Key, g: ClientGeometry): Store
    requires key in s.clients
  {
    s.(clients := s.clients[key := s.clients[key].(geometry := g)])
  }

  ghost function StoreUpdate(s: Store, win: U32, g: ClientGeometry): Store
    requires Inv(s)
  {
    if win in s.clientToKey then StoreSet(s, s.clientToKey[win], g) else s
  }

  predicate Swappable(s: Store, win1: U32, win2: U32) {
    win1 in s.clientToKey && win2 in s.clientToKey && s.clientToKey[win1] != s.clientToKey[win2]
  }

  ghost function StoreSwap(s: Store, win1: U32, win2: U32): Store
    requires Inv(s)
  {
    if !Swappable(s, win1, win2) then s else
    var k1, k2 := s.clientToKey[win1], s.clientToKey[win2];
    StoreSet(StoreSet(s, k1, s.clients[k2].geometry), k2, s.clients[k1].geometry)
  }

  // ----- every operation keeps the invariant, duplicate ids included -----

  lemma AddMonitorKeepsInv(s: Store, num: I32)
    requires Inv(s)
    ensures Inv(StoreAddMonitor(s, num))
    ensures Indexed(s) ==> Indexed(StoreAddMonitor(s, num))
  {
    var t := StoreAddMonitor(s, num);
    assert s.nextMonitor !in s.order;
    forall m | m in t.lists ensures ListOk(t, m) {
      if m in s.lists { assert ListOk(s, m); }
    }
    forall k | k in t.clients ensures Owned(t, k) { assert Owned(s, k); }
    forall n | n in t.numToKey ensures LeadsToLatest(t, n) {
      if n == num {
        assert IsLatest(t, n, |s.order|);
      } else {
        assert LeadsToLatest(s, n);
        var k :| IsLatest(s, n, k) && s.order[k] == s.numToKey[n];
        assert IsLatest(t, n, k);
      }
    }
  }

  lemma AddClientKeepsInv(s: Store, win: U32, num: I32)
    requires Inv(s)
    ensures Inv(StoreAddClient(s, win, num))
    ensures Indexed(s) && win !in s.clientToKey ==> Indexed(StoreAddClient(s, win, num))
  {
    if num !in s.numToKey { return; }
    var t := StoreAddClient(s, win, num);
    assert s.numToKey[num] in s.lists by { assert LeadsToLatest(s, num); }
    forall m | m in t.lists ensures ListOk(t, m) { assert ListOk(s, m); }
    forall k | k in t.clients ensures Owned(t, k) {
      if k != s.nextClient { assert Owned(s, k); }
    }
    KeepsLatest(s, t);
  }

  lemma {:induction false} WithoutDistinct(list: seq<Key>, key: Key)
    requires Distinct(list)
    ensures Distinct(Without(list, key))
  {
    if list != [] {
      assert list[0] !in list[1..];
      WithoutDistinct(list[1..], key);
    }
  }

  lemma RemoveKeepsInv(s: Store, win: U32)
    requires Inv(s)
    ensures Inv(StoreRemove(s, win))
    ensures Indexed(s) ==> Indexed(StoreRemove(s, win))
  {
    if win !in s.clientToKey { return; }
    var t := StoreRemove(s, win);
    var key := s.clientToKey[win];
    assert Owned(s, key);
    forall m | m in t.lists ensures ListOk(t, m) {
      assert ListOk(s, m);
      WithoutDistinct(s.lists[m], key);
      forall j | 0 <= j < |t.lists[m]| ensures t.lists[m][j] in t.clients && t.clients[t.lists[m][j]].mon == Some(m) {
        assert t.lists[m][j] in s.lists[m];
      }
    }
    forall k | k in t.clients ensures Owned(t, k) { assert Owned(s, k); }
    KeepsLatest(s, t);
  }

  lemma SetKeepsInv(s: Store, key: Key, g: ClientGeometry)
    requires Inv(s) && key in s.clients
    ensures Inv(StoreSet(s, key, g))
    ensures Indexed(s) ==> Indexed(StoreSet(s, key, g))
  {
    var t := StoreSet(s, key, g);
    forall m | m in t.lists ensures ListOk(t, m) { assert ListOk(s, m); }
    forall k | k in t.clients ensures Owned(t, k) { assert Owned(s, k); }
    KeepsLatest(s, t);
  }

  lemma SwapKeepsInv(s: Store, win1: U32, win2: U32)
    requires Inv(s)
    ensures Inv(StoreSwap(s, win1, win2))
    ensures Indexed(s) ==> Indexed(StoreSwap(s, win1, win2))
  {
    if Swappable(s, win1, win2) {
      var k1, k2 := s.clientToKey[win1], s.clientToKey[win2];
      SetKeepsInv(s, k1, s.clients[k2].geometry);
      SetKeepsInv(StoreSet(s, k1, s.clients[k2].geometry), k2, s.clients[k1].geometry);
    }
  }

  lemma KeepsLatest(s: Store, t: Store)
    requires IndexOk(s) && t.monitors == s.monitors && t.order == s.order && t.numToKey == s.numToKey
    ensures forall n {:trigger LeadsToLatest(t, n)} :: n in t.numToKey ==> LeadsToLatest(t, n)
  {
    forall n | n in t.numToKey ensures LeadsToLatest(t, n) {
      assert LeadsToLatest(s, n);
      var k :| IsLatest(s, n, k) && s.order[k] == s.numToKey[n];
      assert IsLatest(t, n, k);
    }
  }

  ghost predicate StandsAt(s: Store, k: Key, m: Key, j: int) {
    m in s.lists && 0 <= j < |s.lists[m]| && s.lists[m][j] == k
  }

  /** A live key stands at exactly one place: one index of its own monitor's list. */
  lemma ListedOnce(s: Store, k: Key)
    requires Inv(s) && k in s.clients
    ensures exists m: Key, j :: StandsAt(s, k, m, j) && s.clients[k].mon == Some(m)
    ensures forall m: Key, j, a: Key, b :: StandsAt(s, k, m, j) && StandsAt(s, k, a, b) ==> m == a && j == b
  {
    assert Owned(s, k);
    var m := s.clients[k].mon.value;
    var j :| 0 <= j < |s.lists[m]| && s.lists[m][j] == k;
    assert StandsAt(s, k, m, j);
    forall m: Key, j, a: Key, b | StandsAt(s, k, m, j) && StandsAt(s, k, a, b)
      ensures m == a && j == b
    {
      assert ListOk(s, m) && ListOk(s, a);
    }
  }

  /** Swapping the same two windows twice restores the store. */
  lemma SwapTwice(s: Store, win1: U32, win2: U32)
    requires Inv(s)
    ensures Inv(StoreSwap(s, win1, win2))
    ensures StoreSwap(StoreSwap(s, win1, win2), win1, win2) == s
  {
    SwapKeepsInv(s, win1, win2);
    if Swappable(s, win1, win2) {
      var t := StoreSwap(StoreSwap(s, win1, win2), win1, win2);
      assert t.clients == s.clients;
    }
  }

  /** The indexed client then has the geometry that was given and is otherwise as it
      was, and so are all other clients. */
  lemma UpdateSetsIndexed(s: Store, win: U32, g: ClientGeometry)
    requires Inv(s) && win in s.clientToKey
    ensures var t, key := StoreUpdate(s, win, g), s.clientToKey[win];
            && t.clients.Keys == s.clients.Keys && t == s.(clients := t.clients)
            && t.clients[key] == NewClient(win, g, s.clients[key].state, s.clients[key].mon)
            && forall k :: k in s.clients && k != key ==> t.clients[k] == s.clients[k]
  {
  }

  /** Each of the two clients then has the geometry the other one had. */
  lemma SwapExchangesIndexed(s: Store, win1: U32, win2: U32)
    requires Inv(s) && win1 in s.clientToKey && win2 in s.clientToKey && win1 != win2
    ensures var t, k1, k2 := StoreSwap(s, win1, win2), s.clientToKey[win1], s.clientToKey[win2];
            && t.clients.Keys == s.clients.Keys && t == s.(clients := t.clients)
            && t.clients[k1] == NewClient(win1, s.clients[k2].geometry, s.clients[k1].state, s.clients[k1].mon)
            && t.clients[k2] == NewClient(win2, s.clients[k1].geometry, s.clients[k2].state, s.clients[k2].mon)
            && forall k :: k in s.clients && k != k1 && k != k2 ==> t.clients[k] == s.clients[k]
  {
  }

  // ----- the store as an object -----

  class NewWM {
    var clients: map<Key, NewClient>
    var monitors: map<Key, I32>
    var monitorOrder: seq<Key>
    var monitorClients: map<Key, seq<Key>>
    var clientToKey: map<U32, Key>
    var monitorNumToKey: map<I32, Key>
    var nextClient: Key
    var nextMonitor: Key

    ghost function State(): Store
      reads this
    {
      Store(clients, monitors, monitorOrder, monitorClients, clientToKey, monitorNumToKey, nextClient, nextMonitor)
    }

    ghost predicate Valid()
      reads this
    {
      Inv(State())
    }

    constructor ()
      ensures Valid() && State() == EMPTY
    {
      clients, monitors, monitorOrder, monitorClients := map[], map[], [], map[];
      clientToKey, monitorNumToKey, nextClient, nextMonitor := map[], map[], 0, 0;
    }

    method AddMonitor(num: I32) returns (key: Key)
      requires Valid()
      modifies this
      ensures Valid() && State() == StoreAddMonitor(old(State()), num)
      ensures key !in old(monitors) && key in monitors
    {
      AddMonitorKeepsInv(State(), num);
      key := nextMonitor;
      monitors, nextMonitor := monitors[key := num], nextMonitor + 1;
      monitorOrder := monitorOrder + [key];
      monitorClients := monitorClients[key := []];
      monitorNumToKey := monitorNumToKey[num := key];
      assert State() == StoreAddMonitor(old(State()), num);
    }

    method AddClient(win: U32, num: I32) returns (r: Option<Key>)
      requires Valid()
      modifies this
      ensures Valid() && State() == StoreAddClient(old(State()), win, num)
      ensures r.Some? <==> num in old(monitorNumToKey)
      ensures r.Some? ==> r.value !in old(clients) && r.value in clients
    {
      if num !in monitorNumToKey { return None; }
      AddClientKeepsInv(State(), win, num);
      var m := monitorNumToKey[num];
      assert m in monitorClients by { assert LeadsToLatest(State(), num); }
      var key := nextClient;
      clients := clients[key := NewClient(win, ClientGeometry(0, 0, win, 0), Normal, Some(m))];
      nextClient := key + 1;
      monitorClients := monitorClients[m := monitorClients[m] + [key]];
      clientToKey := clientToKey[win := key];
      assert State() == StoreAddClient(old(State()), win, num);
      r := Some(key);
    }

    method FindClient(win: U32) returns (r: Option<NewClient>)
      requires Valid()
      ensures r == if win in clientToKey then Some(clients[clientToKey[win]]) else None
      ensures r.Some? ==> r.value.win == win
    {
      if win !in clientToKey { return None; }
      var key := clientToKey[win];
      r := if key in clients then Some(clients[key]) else None;
    }

    method RemoveClient(win: U32) returns (ok: bool)
      requires Valid()
      modifies this
      ensures Valid() && State() == StoreRemove(old(State()), win)
      ensures ok == (win in old(clientToKey))
    {
      if win !in clientToKey { return false; }
      RemoveKeepsInv(State(), win);
      assert Owned(State(), clientToKey[win]);
      var key := clientToKey[win];
      clientToKey := clientToKey - {win};
      if key in clients {
        var client := clients[key];
        clients := clients - {key};
        if client.mon.Some? && client.mon.value in monitorClients {
          var list := monitorClients[client.mon.value];
          monitorClients := monitorClients[client.mon.value := Without(list, key)];
        }
        assert State() == StoreRemove(old(State()), win);
        return true;
      }
      return false;
    }

    method UpdateClientGeometry(win: U32, g: ClientGeometry) returns (ok: bool)
      requires Valid()
      modifies this
      ensures Valid() && State() == StoreUpdate(old(State()), win, g)
      ensures ok == (win in old(clientToKey))
    {
      if win in clientToKey {
        SetKeepsInv(State(), clientToKey[win], g);
        var key := clientToKey[win];
        if key in clients {
          clients := clients[key := clients[key].(geometry := g)];
          return true;
        }
      }
      return false;
    }

    /** Reads both geometries with an unchecked lookup, then writes both. */
    method SwapAdjacentClients(win1: U32, win2: U32) returns (ok: bool)
      requires Valid()
      modifies this
      ensures Valid() && State() == StoreSwap(old(State()), win1, win2)
      ensures ok == Swappable(old(State()), win1, win2)
    {
      SwapKeepsInv(State(), win1, win2);
      if win1 in clientToKey && win2 in clientToKey && clientToKey[win1] != clientToKey[win2] {
        var k1, k2 := clientToKey[win1], clientToKey[win2];
        var geom1, geom2 := clients[k1].geometry, clients[k2].geometry;
        if k1 in clients { clients := clients[k1 := clients[k1].(geometry := geom2)]; }
        if k2 in clients { clients := clients[k2 := clients[k2].(geometry := geom1)]; }
        return true;
      }
      return false;
    }

    /** Checks both keys first, then swaps through a temporary. */
    method SwapAdjacentClientsSafe(win1: U32, win2: U32) returns (ok: bool)
      requires Valid()
      modifies this
      ensures Valid() && State() == StoreSwap(old(State()), win1, win2)
      ensures ok == Swappable(old(State()), win1, win2)
    {
      SwapKeepsInv(State(), win1, win2);
      if win1 in clientToKey && win2 in clientToKey {
        var k1, k2 := clientToKey[win1], clientToKey[win2];
        if k1 == k2 { return false; }
        if k1 in clients && k2 in clients {
          var temp := clients[k1].geometry;
          clients := clients[k1 := clients[k1].(geometry := clients[k2].geometry)];
          clients := clients[k2 := clients[k2].(geometry := temp)];
          return true;
        }
      }
      return false;
    }

    method TraverseAllClients() returns (total: nat)
      requires Valid()
      ensures total == StoreTotal(State())
    {
      total := 0;
      ghost var s := State();
      for i := 0 to |monitorOrder|
        invariant total == OrderWidth(s, monitorOrder, i)
      {
        var m := monitorOrder[i];
        if m in monitorClients {
          assert ListOk(s, m);
          var keys := monitorClients[m];
          ghost var before := total;
          for j := 0 to |keys|
            invariant total == before + ListWidth(s, keys, j)
          {
            total := total + clients[keys[j]].geometry.w;
          }
        }
      }
    }
  }

  function ListWidth(s: Store, keys: seq<Key>, n: nat): nat
    requires n <= |keys|
  {
    if n == 0 then 0
    else ListWidth(s, keys, n - 1) + if keys[n - 1] in s.clients then s.clients[keys[n - 1]].geometry.w else 0
  }

  function OrderWidth(s: Store, order: seq<Key>, n: nat): nat
    requires n <= |order|
  {
    if n == 0 then 0
    else
      var m := order[n - 1];
      OrderWidth(s, order, n - 1) + if m in s.lists then ListWidth(s, s.lists[m], |s.lists[m]|) else 0
  }

  function StoreTotal(s: Store): nat {
    OrderWidth(s, s.order, |s.order|)
  }
}
