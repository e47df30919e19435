/** The slot-map store refines the linked-list store: read backwards, its order
    vector and key lists are the other store's chains, and both give the same
    answers on every run that never adds a present id and never swaps a present
    window with itself. */
module WmRefinement {
  import opened Wrappers
  import opened WmViews
  import opened NewWm

  // ----- the store read backwards -----

  function Seen(s: Store, k: Key): ClientView {
    if k in s.clients
    then ClientView(s.clients[k].win, s.clients[k].geometry, s.clients[k].state)
    else FreshClient(0)
  }

  /** The `i`th monitor of the store read backwards. */
  function Nth(s: Store, i: nat): Key
    requires i < |s.order|
  {
    s.order[|s.order| - 1 - i]
  }

  ghost predicate ListMirror(cs: seq<ClientView>, s: Store, keys: seq<Key>) {
    |cs| == |keys| && forall j :: 0 <= j < |cs| ==> cs[j] == Seen(s, keys[|keys| - 1 - j])
  }

  ghost predicate MonitorMirror(mv: MonitorView, s: Store, m: Key) {
    && m in s.monitors && mv.num == s.monitors[m]
    && m in s.lists && ListMirror(mv.clients, s, s.lists[m])
  }

  /** `v` is `s` with its monitor order and every key list reversed. */
  ghost predicate IsMirror(v: View, s: Store) {
    && |v| == |s.order|
    && forall i {:trigger MonitorMirror(v[i], s, Nth(s, i))} :: 0 <= i < |v| ==> MonitorMirror(v[i], s, Nth(s, i))
  }

  /** Key `k` is shown at `(i, j)` of the mirrored view. */
  ghost predicate Place(s: Store, k: Key, i: nat, j: nat) {
    i < |s.order| && InList(s, k, Nth(s, i), j)
  }

  ghost predicate InList(s: Store, k: Key, m: Key, j: nat) {
    m in s.lists && j < |s.lists[m]| && s.lists[m][|s.lists[m]| - 1 - j] == k
  }

  lemma PlaceShows(v: View, s: Store, k: Key, i: nat, j: nat)
    requires IsMirror(v, s) && Place(s, k, i, j)
    ensures InRange(v, i, j) && v[i].clients[j] == Seen(s, k)
    ensures Nth(s, i) in s.monitors && v[i].num == s.monitors[Nth(s, i)]
  {
    assert MonitorMirror(v[i], s, Nth(s, i));
  }

  lemma Locate(s: Store, k: Key) returns (i: nat, j: nat)
    requires Inv(s) && k in s.clients
    ensures Place(s, k, i, j)
  {
    assert Owned(s, k);
    var m := s.clients[k].mon.value;
    var a :| 0 <= a < |s.order| && s.order[a] == m;
    var b :| 0 <= b < |s.lists[m]| && s.lists[m][b] == k;
    i, j := |s.order| - 1 - a, |s.lists[m]| - 1 - b;
  }

  lemma PlaceOwned(s: Store, k: Key, i: nat, j: nat)
    requires Shape(s) && Place(s, k, i, j)
    ensures k in s.clients && s.clients[k].mon == Some(Nth(s, i))
  {
    assert ListOk(s, Nth(s, i));
  }

  /** Every position of the view shows a live key. */
  lemma Shown(v: View, s: Store, i: nat, j: nat) returns (k: Key)
    requires Shape(s) && IsMirror(v, s) && InRange(v, i, j)
    ensures k in s.clients && Place(s, k, i, j) && v[i].clients[j] == Seen(s, k)
  {
    var m := Nth(s, i);
    assert MonitorMirror(v[i], s, m);
    k := s.lists[m][|s.lists[m]| - 1 - j];
    PlaceOwned(s, k, i, j);
  }

  /** Under unique ids the reverse index and the walk find the same client. */
  lemma FindAgrees(v: View, s: Store, win: U32)
    requires Inv(s) && Indexed(s) && IsMirror(v, s)
    ensures Find(v, win).Some? <==> win in s.clientToKey
    ensures win in s.clientToKey ==> Place(s, s.clientToKey[win], Find(v, win).value.0, Find(v, win).value.1)
  {
    if win in s.clientToKey {
      var i, j := Locate(s, s.clientToKey[win]);
      PlaceShows(v, s, s.clientToKey[win], i, j);
    }
    if Find(v, win).Some? {
      var (a, b) := Find(v, win).value;
      var k := Shown(v, s, a, b);
    }
  }

  // ----- each edit of the store is the same edit of its mirror -----

  lemma MirrorAddMonitor(v: View, s: Store, num: I32)
    requires Shape(s) && IsMirror(v, s)
    ensures IsMirror(AddMonitor(v, num), StoreAddMonitor(s, num))
  {
    var t, w := StoreAddMonitor(s, num), AddMonitor(v, num);
    forall i | 0 <= i < |w| ensures MonitorMirror(w[i], t, Nth(t, i)) {
      if i > 0 { assert MonitorMirror(v[i - 1], s, Nth(s, i - 1)); }
    }
  }

  /** `t` differs from `s` at most in the list and the clients of one monitor. */
  ghost predicate EditedAt(s: Store, t: Store, own: Key) {
    && t.order == s.order && t.monitors == s.monitors && t.lists.Keys == s.lists.Keys
    && (forall m :: m in s.lists && m != own ==> t.lists[m] == s.lists[m])
    && (forall k :: k in s.clients && s.clients[k].mon != Some(own) ==> Seen(s, k) == Seen(t, k))
  }

  /** Such a difference changes one entry of the mirror. */
  lemma EditOne(v: View, s: Store, t: Store, i: nat, mv: MonitorView)
    requires Shape(s) && IsMirror(v, s) && i < |s.order| && EditedAt(s, t, Nth(s, i))
    requires MonitorMirror(mv, t, Nth(s, i))
    ensures IsMirror(v[i := mv], t)
  {
    forall a | 0 <= a < |v| && a != i ensures MonitorMirror(v[a], t, Nth(t, a)) {
      assert MonitorMirror(v[a], s, Nth(s, a)) && ListOk(s, Nth(s, a));
    }
  }

  lemma FindMonitorAgrees(v: View, s: Store, num: I32)
    requires Inv(s) && IsMirror(v, s)
    ensures FindMonitor(v, num).Some? <==> num in s.numToKey
    ensures num in s.numToKey ==> Nth(s, FindMonitor(v, num).value) == s.numToKey[num]
  {
    var r := FindMonitor(v, num);
    if r.Some? { assert MonitorMirror(v[r.value], s, Nth(s, r.value)); }
    if num in s.numToKey {
      assert LeadsToLatest(s, num);
      var k :| IsLatest(s, num, k) && s.order[k] == s.numToKey[num];
      var i := |s.order| - 1 - k;
      assert MonitorMirror(v[i], s, Nth(s, i));
    }
  }

  lemma MirrorAddClient(v: View, s: Store, win: U32, num: I32)
    requires Inv(s) && IsMirror(v, s)
    ensures IsMirror(AddClient(v, win, num), StoreAddClient(s, win, num))
  {
    FindMonitorAgrees(v, s, num);
    if num in s.numToKey {
      var t, i := StoreAddClient(s, win, num), FindMonitor(v, num).value;
      var own := Nth(s, i);
      assert MonitorMirror(v[i], s, own) && ListOk(s, own);
      var mv := v[i].(clients := [FreshClient(win)] + v[i].clients);
      assert MonitorMirror(mv, t, own);
      EditOne(v, s, t, i, mv);
    }
  }

  lemma {:induction false} WithoutAt(list: seq<Key>, p: nat)
    requires p < |list| && Distinct(list)
    ensures Without(list, list[p]) == list[..p] + list[p + 1..]
  {
    if p == 0 {
      WithoutMissing(list[1..], list[0]);
    } else {
      WithoutAt(list[1..], p - 1);
      assert list[1..][p - 1] == list[p];
      assert list[..p] + list[p + 1..] == [list[0]] + (list[1..][..p - 1] + list[1..][p..]);
    }
  }

  lemma {:induction false} WithoutMissing(list: seq<Key>, k: Key)
    requires k !in list
    ensures Without(list, k) == list
  {
    if list != [] { WithoutMissing(list[1..], k); }
  }

  lemma MirrorRemove(v: View, s: Store, win: U32, i: nat, j: nat)
    requires Inv(s) && IsMirror(v, s) && win in s.clientToKey && Place(s, s.clientToKey[win], i, j)
    ensures InRange(v, i, j) && IsMirror(RemoveAt(v, i, j), StoreRemove(s, win))
  {
    var t, key, own := StoreRemove(s, win), s.clientToKey[win], Nth(s, i);
    PlaceOwned(s, key, i, j);
    assert MonitorMirror(v[i], s, own) && ListOk(s, own);
    WithoutAt(s.lists[own], |s.lists[own]| - 1 - j);
    var mv := v[i].(clients := v[i].clients[..j] + v[i].clients[j + 1..]);
    assert MonitorMirror(mv, t, own);
    EditOne(v, s, t, i, mv);
  }

  lemma MirrorSet(v: View, s: Store, key: Key, g: ClientGeometry, i: nat, j: nat)
    requires Shape(s) && IsMirror(v, s) && key in s.clients && Place(s, key, i, j)
    ensures InRange(v, i, j) && IsMirror(SetGeometryAt(v, i, j, g), StoreSet(s, key, g))
  {
    var t, own := StoreSet(s, key, g), Nth(s, i);
    PlaceOwned(s, key, i, j);
    assert MonitorMirror(v[i], s, own) && ListOk(s, own);
    var mv := v[i].(clients := v[i].clients[j := v[i].clients[j].(geometry := g)]);
    assert MonitorMirror(mv, t, own);
    EditOne(v, s, t, i, mv);
  }

  lemma MirrorSwap(v: View, s: Store, win1: U32, win2: U32, p: (nat, nat), q: (nat, nat))
    requires Inv(s) && IsMirror(v, s) && Swappable(s, win1, win2)
    requires Place(s, s.clientToKey[win1], p.0, p.1) && Place(s, s.clientToKey[win2], q.0, q.1)
    ensures InRange(v, p.0, p.1) && InRange(v, q.0, q.1)
    ensures IsMirror(SwapAt(v, p, q), StoreSwap(s, win1, win2))
  {
    var k1, k2 := s.clientToKey[win1], s.clientToKey[win2];
    var g1, g2 := s.clients[k1].geometry, s.clients[k2].geometry;
    PlaceShows(v, s, k1, p.0, p.1);
    PlaceShows(v, s, k2, q.0, q.1);
    MirrorSet(v, s, k1, g2, p.0, p.1);
    SetKeepsInv(s, k1, g2);
    MirrorSet(SetGeometryAt(v, p.0, p.1, g2), StoreSet(s, k1, g2), k2, g1, q.0, q.1);
  }

  // ----- the traversal total, forwards and backwards -----

  lemma {:induction false} ListWidthIsWidth(cs: seq<ClientView>, s: Store, keys: seq<Key>, n: nat)
    requires ListMirror(cs, s, keys) && n <= |keys| && forall j :: 0 <= j < |keys| ==> keys[j] in s.clients
    ensures ListWidth(s, keys, n) == Width(cs[|cs| - n..])
  {
    if n > 0 {
      ListWidthIsWidth(cs, s, keys, n - 1);
      assert cs[|cs| - n..][1..] == cs[|cs| - (n - 1)..];
    }
  }

  lemma MonitorWidth(v: View, s: Store, i: nat)
    requires Shape(s) && IsMirror(v, s) && i < |v|
    ensures Nth(s, i) in s.lists
    ensures var list := s.lists[Nth(s, i)]; ListWidth(s, list, |list|) == Width(v[i].clients)
  {
    assert MonitorMirror(v[i], s, Nth(s, i)) && ListOk(s, Nth(s, i));
    var cs, list := v[i].clients, s.lists[Nth(s, i)];
    ListWidthIsWidth(cs, s, list, |list|);
    assert cs[0..] == cs;
  }

  lemma {:induction false} OrderTotal(v: View, s: Store, n: nat)
    requires Shape(s) && IsMirror(v, s) && n <= |v|
    ensures OrderWidth(s, s.order, n) == Total(v[|v| - n..])
  {
    if n > 0 {
      OrderTotal(v, s, n - 1);
      MonitorWidth(v, s, |v| - n);
      assert v[|v| - n..][1..] == v[|v| - (n - 1)..];
    }
  }

  /** The slot-map traversal sums what the linked-list traversal sums. */
  lemma TotalsAgree(v: View, s: Store)
    requires Shape(s) && IsMirror(v, s)
    ensures StoreTotal(s) == Total(v)
  {
    OrderTotal(v, s, |v|);
    assert v[0..] == v;
  }

  function MirrorRow(s: Store, m: Key): (mv: MonitorView)
    requires m in s.monitors && m in s.lists
    ensures MonitorMirror(mv, s, m)
  {
    var list := s.lists[m];
    MonitorView(s.monitors[m], seq(|list|, j requires 0 <= j < |list| => Seen(s, list[|list| - 1 - j])))
  }

  /** Every well-formed store has a mirror. */
  lemma MirrorOf(s: Store) returns (v: View)
    requires Shape(s)
    ensures IsMirror(v, s)
  {
    v := seq(|s.order|, i requires 0 <= i < |s.order| =>
      var m := Nth(s, i);
      if m in s.monitors && m in s.lists then MirrorRow(s, m) else MonitorView(0, []));
    forall i | 0 <= i < |v| ensures MonitorMirror(v[i], s, Nth(s, i)) {
      assert s.order[|s.order| - 1 - i] in s.monitors;
    }
  }

  /** What each operation does to the slot-map traversal total, on every state,
      duplicate ids included. */
  lemma TotalAfterAdd(s: Store, win: U32, num: I32)
    requires Inv(s)
    ensures StoreTotal(StoreAddClient(s, win, num)) == StoreTotal(s) + if num in s.numToKey then win else 0
  {
    var v := MirrorOf(s);
    MirrorAddClient(v, s, win, num);
    AddClientKeepsInv(s, win, num);
    TotalsAgree(v, s);
    TotalsAgree(AddClient(v, win, num), StoreAddClient(s, win, num));
    FindMonitorAgrees(v, s, num);
    if num in s.numToKey {
      TotalPush(v, FindMonitor(v, num).value, FreshClient(win));
    }
  }

  lemma TotalAfterRemove(s: Store, win: U32)
    requires Inv(s)
    ensures StoreTotal(StoreRemove(s, win)) ==
            StoreTotal(s) - if win in s.clientToKey then s.clients[s.clientToKey[win]].geometry.w else 0
  {
    if win in s.clientToKey {
      var v := MirrorOf(s);
      var i, j := Locate(s, s.clientToKey[win]);
      MirrorRemove(v, s, win, i, j);
      RemoveKeepsInv(s, win);
      PlaceShows(v, s, s.clientToKey[win], i, j);
      TotalsAgree(v, s);
      TotalsAgree(RemoveAt(v, i, j), StoreRemove(s, win));
      TotalRemove(v, i, j);
    }
  }

  lemma TotalAfterSwap(s: Store, win1: U32, win2: U32)
    requires Inv(s)
    ensures StoreTotal(StoreSwap(s, win1, win2)) == StoreTotal(s)
  {
    if Swappable(s, win1, win2) {
      var v := MirrorOf(s);
      var i, j := Locate(s, s.clientToKey[win1]);
      var a, b := Locate(s, s.clientToKey[win2]);
      MirrorSwap(v, s, win1, win2, (i, j), (a, b));
      SwapKeepsInv(s, win1, win2);
      TotalsAgree(v, s);
      TotalsAgree(SwapAt(v, (i, j), (a, b)), StoreSwap(s, win1, win2));
      TotalSwap(v, (i, j), (a, b));
    }
  }

  // ----- runs -----

  datatype Op =
    | OpAddMonitor(num: I32)
    | OpAddClient(win: U32, num: I32)
    | OpFind(win: U32)
    | OpRemove(win: U32)
    | OpUpdate(win: U32, geometry: ClientGeometry)
    | OpSwap(win1: U32, win2: U32)
    | OpTraverse

  datatype Answer = Done | Flag(ok: bool) | Found(client: Option<(ClientView, I32)>) | Sum(total: nat)

  function OldStep(v: View, op: Op): (View, Answer) {
    match op
    case OpAddMonitor(num) => (AddMonitor(v, num), Done)
    case OpAddClient(win, num) => (AddClient(v, win, num), Flag(FindMonitor(v, num).Some?))
    case OpFind(win) =>
      (match Find(v, win)
       case None => (v, Found(None))
       case Some((i, j)) => (v, Found(Some((v[i].clients[j], v[i].num)))))
    case OpRemove(win) => (Remove(v, win), Flag(Find(v, win).Some?))
    case OpUpdate(win, g) => (Update(v, win, g), Flag(Find(v, win).Some?))
    case OpSwap(a, b) => (Swap(v, a, b), Flag(Find(v, a).Some? && Find(v, b).Some?))
    case OpTraverse => (v, Sum(Total(v)))
  }

  ghost function NewStep(s: Store, op: Op): (r: (Store, Answer))
    requires Inv(s)
    ensures Inv(r.0)
  {
    match op
    case OpAddMonitor(num) => AddMonitorKeepsInv(s, num); (StoreAddMonitor(s, num), Done)
    case OpAddClient(win, num) =>
      AddClientKeepsInv(s, win, num); (StoreAddClient(s, win, num), Flag(num in s.numToKey))
    case OpFind(win) =>
      if win !in s.clientToKey then (s, Found(None)) else
      var key := s.clientToKey[win];
      assert Owned(s, key);
      (s, Found(Some((Seen(s, key), s.monitors[s.clients[key].mon.value]))))
    case OpRemove(win) => RemoveKeepsInv(s, win); (StoreRemove(s, win), Flag(win in s.clientToKey))
    case OpUpdate(win, g) =>
      if win !in s.clientToKey then (s, Flag(false)) else
      SetKeepsInv(s, s.clientToKey[win], g); (StoreUpdate(s, win, g), Flag(true))
    case OpSwap(a, b) => SwapKeepsInv(s, a, b); (StoreSwap(s, a, b), Flag(Swappable(s, a, b)))
    case OpTraverse => (s, Sum(StoreTotal(s)))
  }

  /** The two calls on which the stores part ways by design are excluded: adding a
      present id, and swapping a present window with itself. */
  ghost predicate Admissible(v: View, op: Op) {
    match op
    case OpAddClient(win, num) => FindMonitor(v, num).Some? ==> Absent(v, win)
    case OpSwap(a, b) => a == b ==> Absent(v, a)
    case _ => true
  }

  ghost predicate AdmissibleRun(v: View, ops: seq<Op>)
    decreases |ops|
  {
    ops == [] || (Admissible(v, ops[0]) && AdmissibleRun(OldStep(v, ops[0]).0, ops[1..]))
  }

  function OldRun(v: View, ops: seq<Op>): seq<Answer>
    decreases |ops|
  {
    if ops == [] then [] else var (w, a) := OldStep(v, ops[0]); [a] + OldRun(w, ops[1..])
  }

  function OldAfter(v: View, ops: seq<Op>): View
    decreases |ops|
  {
    if ops == [] then v else OldAfter(OldStep(v, ops[0]).0, ops[1..])
  }

  ghost function NewRun(s: Store, ops: seq<Op>): seq<Answer>
    requires Inv(s)
    decreases |ops|
  {
    if ops == [] then [] else var (t, a) := NewStep(s, ops[0]); [a] + NewRun(t, ops[1..])
  }

  ghost function NewAfter(s: Store, ops: seq<Op>): (t: Store)
    requires Inv(s)
    ensures Inv(t)
    decreases |ops|
  {
    if ops == [] then s else NewAfter(NewStep(s, ops[0]).0, ops[1..])
  }

  /** The index after any run whatever, ids added twice included: every live client
      stands at exactly one place, in the list of its own monitor; every listed key
      is live; every index entry leads to a live client with that id. */
  lemma EveryRunIndexed(ops: seq<Op>)
    ensures Inv(EMPTY)
    ensures var s := NewAfter(EMPTY, ops);
            && (forall k :: k in s.clients ==> exists m: Key, j :: StandsAt(s, k, m, j) && s.clients[k].mon == Some(m))
            && (forall k, m: Key, j, a: Key, b :: StandsAt(s, k, m, j) && StandsAt(s, k, a, b) ==> m == a && j == b)
            && (forall k, m: Key, j :: StandsAt(s, k, m, j) ==> k in s.clients)
            && (forall w :: w in s.clientToKey ==>
                s.clientToKey[w] in s.clients && s.clients[s.clientToKey[w]].win == w)
  {
    var s := NewAfter(EMPTY, ops);
    forall k, m: Key, j | StandsAt(s, k, m, j) ensures k in s.clients {
      assert ListOk(s, m);
    }
    forall k | k in s.clients
      ensures exists m: Key, j :: StandsAt(s, k, m, j) && s.clients[k].mon == Some(m)
      ensures forall m: Key, j, a: Key, b :: StandsAt(s, k, m, j) && StandsAt(s, k, a, b) ==> m == a && j == b
    {
      ListedOnce(s, k);
    }
  }

  ghost predicate Related(v: View, s: Store) {
    Inv(s) && Indexed(s) && IsMirror(v, s)
  }

  lemma AddAgrees(v: View, s: Store, win: U32, num: I32)
    requires Related(v, s) && Admissible(v, OpAddClient(win, num))
    ensures FindMonitor(v, num).Some? <==> num in s.numToKey
    ensures Related(AddClient(v, win, num), StoreAddClient(s, win, num))
  {
    FindMonitorAgrees(v, s, num);
    FindAgrees(v, s, win);
    AddClientKeepsInv(s, win, num);
    MirrorAddClient(v, s, win, num);
  }

  lemma RemoveAgrees(v: View, s: Store, win: U32)
    requires Related(v, s)
    ensures Find(v, win).Some? <==> win in s.clientToKey
    ensures Related(Remove(v, win), StoreRemove(s, win))
  {
    FindAgrees(v, s, win);
    RemoveKeepsInv(s, win);
    if win in s.clientToKey {
      var (i, j) := Find(v, win).value;
      MirrorRemove(v, s, win, i, j);
    }
  }

  lemma UpdateAgrees(v: View, s: Store, win: U32, g: ClientGeometry)
    requires Related(v, s)
    ensures Find(v, win).Some? <==> win in s.clientToKey
    ensures Related(Update(v, win, g), StoreUpdate(s, win, g))
  {
    FindAgrees(v, s, win);
    if win in s.clientToKey {
      var (i, j) := Find(v, win).value;
      SetKeepsInv(s, s.clientToKey[win], g);
      MirrorSet(v, s, s.clientToKey[win], g, i, j);
    }
  }

  lemma SwapAgrees(v: View, s: Store, a: U32, b: U32)
    requires Related(v, s) && Admissible(v, OpSwap(a, b))
    ensures (Find(v, a).Some? && Find(v, b).Some?) <==> Swappable(s, a, b)
    ensures Related(Swap(v, a, b), StoreSwap(s, a, b))
  {
    FindAgrees(v, s, a);
    FindAgrees(v, s, b);
    SwapKeepsInv(s, a, b);
    if Swappable(s, a, b) {
      MirrorSwap(v, s, a, b, Find(v, a).value, Find(v, b).value);
    }
  }

  lemma LookupAgrees(v: View, s: Store, win: U32)
    requires Related(v, s)
    ensures NewStep(s, OpFind(win)).1 == OldStep(v, OpFind(win)).1
  {
    FindAgrees(v, s, win);
    if win in s.clientToKey {
      var (i, j) := Find(v, win).value;
      PlaceShows(v, s, s.clientToKey[win], i, j);
      PlaceOwned(s, s.clientToKey[win], i, j);
    }
  }

  lemma StepAgrees(v: View, s: Store, op: Op)
    requires Related(v, s) && Admissible(v, op)
    ensures NewStep(s, op).1 == OldStep(v, op).1
    ensures Related(OldStep(v, op).0, NewStep(s, op).0)
  {
    match op
    case OpAddMonitor(num) =>
      AddMonitorKeepsInv(s, num);
      MirrorAddMonitor(v, s, num);
    case OpAddClient(win, num) => AddAgrees(v, s, win, num);
    case OpFind(win) => LookupAgrees(v, s, win);
    case OpRemove(win) => RemoveAgrees(v, s, win);
    case OpUpdate(win, g) => UpdateAgrees(v, s, win, g);
    case OpSwap(a, b) => SwapAgrees(v, s, a, b);
    case OpTraverse => TotalsAgree(v, s);
  }

  /** Refinement: on every admissible run the stores answer alike, call by call, and
      afterwards the new lists are again the reverse of the old ones. */
  lemma {:induction false} RunsAgree(v: View, s: Store, ops: seq<Op>)
    requires Related(v, s) && AdmissibleRun(v, ops)
    ensures NewRun(s, ops) == OldRun(v, ops)
    ensures Related(OldAfter(v, ops), NewAfter(s, ops))
    decreases |ops|
  {
    if ops != [] {
      StepAgrees(v, s, ops[0]);
      RunsAgree(OldStep(v, ops[0]).0, NewStep(s, ops[0]).0, ops[1..]);
    }
  }

  lemma RunsAgreeFromStart(ops: seq<Op>)
    requires AdmissibleRun([], ops)
    ensures Inv(EMPTY) && NewRun(EMPTY, ops) == OldRun([], ops)
    ensures IsMirror(OldAfter([], ops), NewAfter(EMPTY, ops)) && Indexed(NewAfter(EMPTY, ops))
  {
    RunsAgree([], EMPTY, ops);
  }

  /** Calls that tell the stores apart after an inadmissible one. */
  function Telltale(op: Op): seq<Op> {
    if op.OpAddClient? then [OpRemove(op.win), OpFind(op.win)] else []
  }

  /** Excluding those two calls is exactly right: from related states the stores
      agree on every admissible continuation of a call iff the call is admissible. */
  lemma AgreeIffAdmissible(v: View, s: Store, op: Op)
    requires Related(v, s)
    ensures Admissible(v, op) <==>
            forall rest :: AdmissibleRun(OldStep(v, op).0, rest) ==> NewRun(s, [op] + rest) == OldRun(v, [op] + rest)
  {
    if Admissible(v, op) {
      forall rest | AdmissibleRun(OldStep(v, op).0, rest) ensures NewRun(s, [op] + rest) == OldRun(v, [op] + rest) {
        assert ([op] + rest)[1..] == rest;
        RunsAgree(v, s, [op] + rest);
      }
    } else if op.OpSwap? {
      FindAgrees(v, s, op.win1);
      assert AdmissibleRun(OldStep(v, op).0, []) && [op] + [] == [op];
      assert OldRun(v, [op])[0] == Flag(true) && NewRun(s, [op])[0] == Flag(false);
    } else {
      FindMonitorAgrees(v, s, op.num);
      DuplicateDiverges(v, s, op.win, op.num);
      TelltaleAdmissible(OldStep(v, op).0, op);
    }
  }

  /** After a present id is added again and removed once, the walk still finds the
      other client while the index has forgotten the id. */
  lemma DuplicateDiverges(v: View, s: Store, win: U32, num: I32)
    requires Inv(s) && num in s.numToKey && FindMonitor(v, num).Some? && !Absent(v, win)
    ensures var op := OpAddClient(win, num); NewRun(s, [op] + Telltale(op)) != OldRun(v, [op] + Telltale(op))
  {
    IndexForgets(s, win, num);
    WalkRemembers(v, win, num);
    var a, b, c := OpAddClient(win, num), OpRemove(win), OpFind(win);
    LookupDiffers(OldStep(OldStep(v, a).0, b).0, NewStep(NewStep(s, a).0, b).0, win);
    ThirdDiffers(v, s, a, b, c);
  }

  lemma ThirdDiffers(v: View, s: Store, a: Op, b: Op, c: Op)
    requires Inv(s)
    requires NewRun(NewStep(NewStep(s, a).0, b).0, [c]) != OldRun(OldStep(OldStep(v, a).0, b).0, [c])
    ensures NewRun(s, [a] + [b, c]) != OldRun(v, [a] + [b, c])
  {
    TailDiffers(OldStep(v, a).0, NewStep(s, a).0, b, [c]);
    assert [b] + [c] == [b, c];
    TailDiffers(v, s, a, [b, c]);
  }

  lemma TelltaleAdmissible(v: View, op: Op)
    ensures AdmissibleRun(v, Telltale(op))
  {
    if op.OpAddClient? {
      assert Telltale(op)[1..] == [OpFind(op.win)] && [OpFind(op.win)][1..] == [];
    }
  }

  lemma LookupDiffers(v: View, s: Store, win: U32)
    requires Inv(s) && win !in s.clientToKey && Find(v, win).Some?
    ensures NewRun(s, [OpFind(win)]) != OldRun(v, [OpFind(win)])
  {
    assert NewRun(s, [OpFind(win)])[0] == Found(None);
    assert OldRun(v, [OpFind(win)])[0] != Found(None);
  }

  lemma TailDiffers(v: View, s: Store, op: Op, rest: seq<Op>)
    requires Inv(s) && NewRun(NewStep(s, op).0, rest) != OldRun(OldStep(v, op).0, rest)
    ensures NewRun(s, [op] + rest) != OldRun(v, [op] + rest)
  {
    assert ([op] + rest)[1..] == rest;
    assert NewRun(s, [op] + rest)[1..] == NewRun(NewStep(s, op).0, rest);
    assert OldRun(v, [op] + rest)[1..] == OldRun(OldStep(v, op).0, rest);
  }

  lemma IndexForgets(s: Store, win: U32, num: I32)
    requires Inv(s) && num in s.numToKey
    ensures var t := NewStep(s, OpAddClient(win, num)).0; win !in NewStep(t, OpRemove(win)).0.clientToKey
  {
  }

  lemma WalkRemembers(v: View, win: U32, num: I32)
    requires FindMonitor(v, num).Some? && !Absent(v, win)
    ensures Find(Remove(AddClient(v, win, num), win), win).Some?
  {
    var (i, j) := Find(v, win).value;
    var m := FindMonitor(v, num).value;
    var w := AddClient(v, win, num);
    assert InRange(w, m, 0) && w[m].clients[0].win == win;
    var j' := if i == m then j + 1 else j;
    assert InRange(w, i, j') && w[i].clients[j'].win == win && (i, j') != (m, 0);
    SecondSurvives(w, win, m, 0, i, j');
  }

  lemma SecondSurvives(w: View, win: U32, i: nat, j: nat, a: nat, b: nat)
    requires InRange(w, i, j) && InRange(w, a, b) && (i, j) != (a, b)
    requires w[i].clients[j].win == win && w[a].clients[b].win == win
    ensures Find(Remove(w, win), win).Some?
  {
    var (p, q) := Find(w, win).value;
    var (c, d) := if (p, q) == (i, j) then (a, b) else (i, j);
    var r := Remove(w, win);
    var d' := if c == p && d > q then d - 1 else d;
    assert InRange(r, c, d') && r[c].clients[d'] == w[c].clients[d];
  }
}
