/** What a window-manager store holds, stripped of its representation: monitors
    in walk order, each with its clients in walk order. The linked-list store
    walks newest first, so an addition is a prepend here. */
module WmViews {
  import opened Wrappers

  type U32 = n: int | 0 <= n < 0x1_0000_0000
  type I32 = n: int | -0x8000_0000 <= n < 0x8000_0000

  datatype ClientGeometry = ClientGeometry(x: I32, y: I32, w: U32, h: U32)
  datatype ClientState = Normal | Minimized | Fullscreen
  datatype ClientView = ClientView(win: U32, geometry: ClientGeometry, state: ClientState)
  datatype MonitorView = MonitorView(num: I32, clients: seq<ClientView>)
  type View = seq<MonitorView>

  /** A client as it is first added: its width is its window id. */
  function FreshClient(win: U32): ClientView {
    ClientView(win, ClientGeometry(0, 0, win, 0), Normal)
  }

  // ----- positions -----

  predicate InRange(v: View, i: int, j: int) {
    0 <= i < |v| && 0 <= j < |v[i].clients|
  }

  /** No client of the first `i` monitors, and none of the first `j` clients of
      monitor `i`, has id `win`. */
  ghost predicate NoneBefore(v: View, win: U32, i: nat, j: nat) {
    && (forall a, b :: 0 <= a < i && InRange(v, a, b) ==> v[a].clients[b].win != win)
    && (forall b :: 0 <= b < j && InRange(v, i, b) ==> v[i].clients[b].win != win)
  }

  ghost predicate Absent(v: View, win: U32) {
    forall a, b :: InRange(v, a, b) ==> v[a].clients[b].win != win
  }

  /** `(i, j)` is where a walk looking for `win` stops. */
  ghost predicate IsFirst(v: View, win: U32, i: nat, j: nat) {
    InRange(v, i, j) && v[i].clients[j].win == win && NoneBefore(v, win, i, j)
  }

  ghost predicate IsFirstMonitor(v: View, num: I32, i: nat) {
    i < |v| && v[i].num == num && forall a :: 0 <= a < i ==> v[a].num != num
  }

  function IndexFrom(cs: seq<ClientView>, win: U32, from: nat): (j: nat)
    requires from <= |cs| && forall b :: 0 <= b < from ==> cs[b].win != win
    ensures j <= |cs|
    ensures j < |cs| ==> cs[j].win == win
    ensures forall b :: 0 <= b < j ==> cs[b].win != win
    decreases |cs| - from
  {
    if from == |cs| || cs[from].win == win then from else IndexFrom(cs, win, from + 1)
  }

  function FindFrom(v: View, win: U32, i: nat): (r: Option<(nat, nat)>)
    requires i <= |v|
    requires NoneBefore(v, win, i, 0)
    ensures r.None? ==> Absent(v, win)
    ensures r.Some? ==> IsFirst(v, win, r.value.0, r.value.1)
    decreases |v| - i
  {
    if i == |v| then None
    else
      var j := IndexFrom(v[i].clients, win, 0);
      if j < |v[i].clients| then Some((i, j)) else FindFrom(v, win, i + 1)
  }

  function Find(v: View, win: U32): (r: Option<(nat, nat)>)
    ensures r.None? <==> Absent(v, win)
    ensures r.Some? ==> IsFirst(v, win, r.value.0, r.value.1)
  {
    FindFrom(v, win, 0)
  }

  lemma FirstIsFind(v: View, win: U32, i: nat, j: nat)
    requires IsFirst(v, win, i, j)
    ensures Find(v, win) == Some((i, j))
  {
    var r := Find(v, win);
    assert InRange(v, i, j);
    var (a, b) := r.value;
    assert InRange(v, a, b);
  }

  function FindMonitorFrom(v: View, num: I32, i: nat): (r: Option<nat>)
    requires i <= |v| && forall a :: 0 <= a < i ==> v[a].num != num
    ensures r.None? ==> forall a :: 0 <= a < |v| ==> v[a].num != num
    ensures r.Some? ==> IsFirstMonitor(v, num, r.value)
    decreases |v| - i
  {
    if i == |v| then None
    else if v[i].num == num then Some(i)
    else FindMonitorFrom(v, num, i + 1)
  }

  function FindMonitor(v: View, num: I32): (r: Option<nat>)
    ensures r.None? ==> forall a :: 0 <= a < |v| ==> v[a].num != num
    ensures r.Some? ==> IsFirstMonitor(v, num, r.value)
  {
    FindMonitorFrom(v, num, 0)
  }

  // ----- edits at a position -----

  function AddMonitor(v: View, num: I32): View {
    [MonitorView(num, [])] + v
  }

  function PushAt(v: View, i: nat, c: ClientView): View
    requires i < |v|
  {
    v[i := v[i].(clients := [c] + v[i].clients)]
  }

  function RemoveAt(v: View, i: nat, j: nat): View
    requires InRange(v, i, j)
  {
    v[i := v[i].(clients := v[i].clients[..j] + v[i].clients[j + 1..])]
  }

  function SetGeometryAt(v: View, i: nat, j: nat, g: ClientGeometry): View
    requires InRange(v, i, j)
  {
    v[i := v[i].(clients := v[i].clients[j := v[i].clients[j].(geometry := g)])]
  }

  function GeometryAt(v: View, p: (nat, nat)): ClientGeometry
    requires InRange(v, p.0, p.1)
  {
    v[p.0].clients[p.1].geometry
  }

  // ----- the operations of the linked-list store -----

  function AddClient(v: View, win: U32, num: I32): View {
    match FindMonitor(v, num)
    case None => v
    case Some(i) => PushAt(v, i, FreshClient(win))
  }

  function Remove(v: View, win: U32): View {
    match Find(v, win)
    case None => v
    case Some((i, j)) => RemoveAt(v, i, j)
  }

  function Update(v: View, win: U32, g: ClientGeometry): View {
    match Find(v, win)
    case None => v
    case Some((i, j)) => SetGeometryAt(v, i, j, g)
  }

  function SwapAt(v: View, p: (nat, nat), q: (nat, nat)): View
    requires InRange(v, p.0, p.1) && InRange(v, q.0, q.1)
  {
    SetGeometryAt(SetGeometryAt(v, p.0, p.1, GeometryAt(v, q)), q.0, q.1, GeometryAt(v, p))
  }

  function Swap(v: View, win1: U32, win2: U32): View {
    match (Find(v, win1), Find(v, win2))
    case (Some(p), Some(q)) => SwapAt(v, p, q)
    case _ => v
  }

  // ----- what an operation changes, in terms of where a walk stops -----

  /** The two views have the same monitors with equally many clients, and every client
      keeps its id and its state. */
  ghost predicate SameClients(v: View, u: View) {
    && |u| == |v|
    && (forall i :: 0 <= i < |v| ==> u[i].num == v[i].num && |u[i].clients| == |v[i].clients|)
    && (forall i, j :: InRange(v, i, j) ==>
          u[i].clients[j].win == v[i].clients[j].win && u[i].clients[j].state == v[i].clients[j].state)
  }

  /** A new client is not yet placed, is as wide as its id, is normal, and is met first
      on the first monitor with the number. */
  lemma AddPutsFirst(v: View, win: U32, num: I32, i: nat)
    requires IsFirstMonitor(v, num, i)
    ensures var u := AddClient(v, win, num);
            && |u| == |v| && u[i].num == num
            && u[i].clients == [ClientView(win, ClientGeometry(0, 0, win, 0), Normal)] + v[i].clients
            && forall a :: 0 <= a < |v| && a != i ==> u[a] == v[a]
  {
    assert FindMonitor(v, num) == Some(i);
  }

  /** Of the clients of that monitor exactly the first match is gone; the others keep
      their order, and no other monitor is touched. */
  lemma RemoveTakesFirst(v: View, win: U32, i: nat, j: nat)
    requires IsFirst(v, win, i, j)
    ensures var u := Remove(v, win);
            && |u| == |v| && u[i].num == v[i].num && |u[i].clients| == |v[i].clients| - 1
            && (forall b :: 0 <= b < |u[i].clients| ==> u[i].clients[b] == v[i].clients[if b < j then b else b + 1])
            && forall a :: 0 <= a < |v| && a != i ==> u[a] == v[a]
  {
    FirstIsFind(v, win, i, j);
  }

  /** The first match then has the geometry that was given; no other client changes. */
  lemma UpdateSetsFirst(v: View, win: U32, g: ClientGeometry, i: nat, j: nat)
    requires IsFirst(v, win, i, j)
    ensures var u := Update(v, win, g);
            && SameClients(v, u) && u[i].clients[j].geometry == g
            && forall a, b :: InRange(v, a, b) && (a, b) != (i, j) ==> u[a].clients[b] == v[a].clients[b]
  {
    FirstIsFind(v, win, i, j);
  }

  /** Each first match then has the geometry the other one had; no other client changes. */
  lemma SwapExchanges(v: View, win1: U32, win2: U32, p: (nat, nat), q: (nat, nat))
    requires IsFirst(v, win1, p.0, p.1) && IsFirst(v, win2, q.0, q.1)
    ensures var u := Swap(v, win1, win2);
            && SameClients(v, u)
            && u[p.0].clients[p.1].geometry == v[q.0].clients[q.1].geometry
            && u[q.0].clients[q.1].geometry == v[p.0].clients[p.1].geometry
            && forall a: nat, b: nat :: InRange(v, a, b) && (a, b) != p && (a, b) != q ==>
                 u[a].clients[b] == v[a].clients[b]
  {
    FirstIsFind(v, win1, p.0, p.1);
    FirstIsFind(v, win2, q.0, q.1);
  }

  // ----- the traversal total and what each edit does to it -----

  function Width(cs: seq<ClientView>): (r: nat) {
    if cs == [] then 0 else cs[0].geometry.w + Width(cs[1..])
  }

  function Total(v: View): (r: nat) {
    if v == [] then 0 else Width(v[0].clients) + Total(v[1..])
  }

  function Count(v: View): nat {
    if v == [] then 0 else |v[0].clients| + Count(v[1..])
  }

  lemma {:induction false} WidthSplit(a: seq<ClientView>, b: seq<ClientView>)
    ensures Width(a + b) == Width(a) + Width(b)
  {
    if a == [] {
      assert a + b == b;
    } else {
      assert (a + b)[1..] == a[1..] + b;
      WidthSplit(a[1..], b);
    }
  }

  lemma {:induction false} TotalSplit(a: View, b: View)
    ensures Total(a + b) == Total(a) + Total(b)
  {
    if a == [] {
      assert a + b == b;
    } else {
      assert (a + b)[1..] == a[1..] + b;
      TotalSplit(a[1..], b);
    }
  }

  lemma TotalReplace(v: View, i: nat, m: MonitorView)
    requires i < |v|
    ensures Total(v[i := m]) == Total(v) - Width(v[i].clients) + Width(m.clients)
  {
    var rest := v[i + 1..];
    assert v == v[..i] + ([v[i]] + rest);
    assert v[i := m] == v[..i] + ([m] + rest);
    TotalSplit(v[..i], [v[i]] + rest);
    TotalSplit(v[..i], [m] + rest);
    assert ([v[i]] + rest)[1..] == rest && ([m] + rest)[1..] == rest;
  }

  lemma WidthAround(cs: seq<ClientView>, j: nat)
    requires j < |cs|
    ensures Width(cs) == Width(cs[..j]) + cs[j].geometry.w + Width(cs[j + 1..])
  {
    assert cs == cs[..j] + ([cs[j]] + cs[j + 1..]);
    WidthSplit(cs[..j], [cs[j]] + cs[j + 1..]);
    assert ([cs[j]] + cs[j + 1..])[1..] == cs[j + 1..];
  }

  lemma TotalPush(v: View, i: nat, c: ClientView)
    requires i < |v|
    ensures Total(PushAt(v, i, c)) == Total(v) + c.geometry.w
  {
    var m := v[i].(clients := [c] + v[i].clients);
    TotalReplace(v, i, m);
    assert m.clients[1..] == v[i].clients;
  }

  lemma TotalRemove(v: View, i: nat, j: nat)
    requires InRange(v, i, j)
    ensures Total(RemoveAt(v, i, j)) == Total(v) - v[i].clients[j].geometry.w
  {
    var cs := v[i].clients;
    TotalReplace(v, i, v[i].(clients := cs[..j] + cs[j + 1..]));
    WidthAround(cs, j);
    WidthSplit(cs[..j], cs[j + 1..]);
  }

  lemma TotalSet(v: View, i: nat, j: nat, g: ClientGeometry)
    requires InRange(v, i, j)
    ensures Total(SetGeometryAt(v, i, j, g)) == Total(v) - v[i].clients[j].geometry.w + g.w
  {
    var cs := v[i].clients;
    var cs' := cs[j := cs[j].(geometry := g)];
    TotalReplace(v, i, v[i].(clients := cs'));
    WidthAround(cs, j);
    WidthAround(cs', j);
    assert cs'[..j] == cs[..j] && cs'[j + 1..] == cs[j + 1..];
  }

  /** Swapping two positions, equal or not, conserves the total. */
  lemma TotalSwap(v: View, p: (nat, nat), q: (nat, nat))
    requires InRange(v, p.0, p.1) && InRange(v, q.0, q.1)
    ensures Total(SwapAt(v, p, q)) == Total(v)
  {
    var mid := SetGeometryAt(v, p.0, p.1, GeometryAt(v, q));
    TotalSet(v, p.0, p.1, GeometryAt(v, q));
    TotalSet(mid, q.0, q.1, GeometryAt(v, p));
  }

  /** The u64 accumulator of a traversal cannot overflow while a store holds at
      most 2^32 clients. */
  lemma {:induction false} TotalFitsU64(v: View)
    ensures Total(v) <= Count(v) * 0xFFFF_FFFF
    ensures Count(v) <= 0x1_0000_0000 ==> Total(v) < 0x1_0000_0000_0000_0000
  {
    if v != [] {
      TotalFitsU64(v[1..]);
      WidthBound(v[0].clients);
    }
  }

  lemma {:induction false} WidthBound(cs: seq<ClientView>)
    ensures Width(cs) <= |cs| * 0xFFFF_FFFF
  {
    if cs != [] { WidthBound(cs[1..]); }
  }
}
