/** Both window-manager stores answer like a plain dictionary from window ids to
    clients: no chains, no keys, no lists, no reverse indexes. */
module WmTable {
  import opened Wrappers
  import opened WmViews
  import opened NewWm
  import opened WmRefinement

  datatype Entry = Entry(geometry: ClientGeometry, state: ClientState, num: I32)

  /** The monitor numbers that were ever added, and the clients by their ids. */
  datatype Table = Table(nums: set<I32>, clients: map<U32, Entry>)

  const BLANK := Table({}, map[])

  ghost function Widths(clients: map<U32, Entry>): nat
    decreases |clients|
  {
    if clients == map[] then 0
    else
      var w :| w in clients;
      clients[w].geometry.w + Widths(clients - {w})
  }

  /** The table and the answer after one call. */
  ghost function TableStep(t: Table, op: Op): (Table, Answer) {
    match op
    case OpAddMonitor(num) => (t.(nums := t.nums + {num}), Done)
    case OpAddClient(win, num) =>
      if num !in t.nums then (t, Flag(false))
      else (t.(clients := t.clients[win := Entry(ClientGeometry(0, 0, win, 0), Normal, num)]), Flag(true))
    case OpFind(win) =>
      if win !in t.clients then (t, Found(None))
      else
        var e := t.clients[win];
        (t, Found(Some((ClientView(win, e.geometry, e.state), e.num))))
    case OpRemove(win) => (t.(clients := t.clients - {win}), Flag(win in t.clients))
    case OpUpdate(win, g) =>
      if win !in t.clients then (t, Flag(false))
      else (t.(clients := t.clients[win := t.clients[win].(geometry := g)]), Flag(true))
    case OpSwap(a, b) =>
      if a !in t.clients || b !in t.clients || a == b then (t, Flag(false))
      else
        var x, y := t.clients[a], t.clients[b];
        (t.(clients := t.clients[a := x.(geometry := y.geometry)][b := y.(geometry := x.geometry)]), Flag(true))
    case OpTraverse => (t, Sum(Widths(t.clients)))
  }

  ghost function TableRun(t: Table, ops: seq<Op>): (r: seq<Answer>)
    ensures |r| == |ops|
    decreases |ops|
  {
    if ops == [] then [] else var (u, a) := TableStep(t, ops[0]); [a] + TableRun(u, ops[1..])
  }

  // ----- the slot-map store as a table -----

  ghost function EntryOf(s: Store, k: Key): Entry
    requires Inv(s) && k in s.clients
  {
    assert Owned(s, k);
    Entry(s.clients[k].geometry, s.clients[k].state, s.monitors[s.clients[k].mon.value])
  }

  ghost function TableOf(s: Store): Table
    requires Inv(s)
  {
    Table(s.numToKey.Keys, map w | w in s.clientToKey :: EntryOf(s, s.clientToKey[w]))
  }

  lemma AddEntries(s: Store, win: U32, num: I32)
    requires Inv(s) && num in s.numToKey && Inv(StoreAddClient(s, win, num))
    ensures EntryOf(StoreAddClient(s, win, num), s.nextClient) == Entry(ClientGeometry(0, 0, win, 0), Normal, num)
    ensures forall w :: w in s.clientToKey && w != win ==>
        EntryOf(StoreAddClient(s, win, num), s.clientToKey[w]) == EntryOf(s, s.clientToKey[w])
  {
    assert LeadsToLatest(s, num);
  }

  lemma AddIsTable(s: Store, win: U32, num: I32)
    requires Inv(s)
    ensures Inv(StoreAddClient(s, win, num))
    ensures TableOf(StoreAddClient(s, win, num)) == TableStep(TableOf(s), OpAddClient(win, num)).0
  {
    AddClientKeepsInv(s, win, num);
    if num in s.numToKey {
      AddEntries(s, win, num);
      assert StoreAddClient(s, win, num).clientToKey == s.clientToKey[win := s.nextClient];
      assert TableOf(StoreAddClient(s, win, num)).clients == TableStep(TableOf(s), OpAddClient(win, num)).0.clients;
    }
  }

  lemma AddMonitorIsTable(s: Store, num: I32)
    requires Inv(s)
    ensures Inv(StoreAddMonitor(s, num))
    ensures TableOf(StoreAddMonitor(s, num)) == TableStep(TableOf(s), OpAddMonitor(num)).0
  {
    AddMonitorKeepsInv(s, num);
    var t := StoreAddMonitor(s, num);
    forall w | w in s.clientToKey ensures EntryOf(t, t.clientToKey[w]) == EntryOf(s, s.clientToKey[w]) {
      assert Owned(s, s.clientToKey[w]);
    }
    assert TableOf(t).clients == TableOf(s).clients;
  }

  lemma RemoveIsTable(s: Store, win: U32)
    requires Inv(s)
    ensures Inv(StoreRemove(s, win))
    ensures TableOf(StoreRemove(s, win)) == TableStep(TableOf(s), OpRemove(win)).0
  {
    RemoveKeepsInv(s, win);
    assert TableOf(StoreRemove(s, win)).clients == TableOf(s).clients - {win};
  }

  lemma SetIsTable(s: Store, win: U32, g: ClientGeometry)
    requires Inv(s) && win in s.clientToKey
    ensures Inv(StoreSet(s, s.clientToKey[win], g))
    ensures TableOf(StoreSet(s, s.clientToKey[win], g)) == TableStep(TableOf(s), OpUpdate(win, g)).0
  {
    SetKeepsInv(s, s.clientToKey[win], g);
    var t := TableOf(s).clients;
    assert TableOf(StoreSet(s, s.clientToKey[win], g)).clients == t[win := t[win].(geometry := g)];
  }

  /** A swap is two updates. */
  lemma SwapIsUpdates(t: Table, a: U32, b: U32)
    requires a in t.clients && b in t.clients && a != b
    ensures TableStep(TableStep(t, OpUpdate(a, t.clients[b].geometry)).0, OpUpdate(b, t.clients[a].geometry)).0 ==
            TableStep(t, OpSwap(a, b)).0
  {
  }

  lemma SwapIsTable(s: Store, a: U32, b: U32)
    requires Inv(s)
    ensures Inv(StoreSwap(s, a, b))
    ensures TableOf(StoreSwap(s, a, b)) == TableStep(TableOf(s), OpSwap(a, b)).0
  {
    SwapKeepsInv(s, a, b);
    if Swappable(s, a, b) {
      SwapIsUpdates(TableOf(s), a, b);
      var x, y := s.clients[s.clientToKey[a]].geometry, s.clients[s.clientToKey[b]].geometry;
      SetIsTable(s, a, y);
      var mid := StoreSet(s, s.clientToKey[a], y);
      assert b in mid.clientToKey && StoreSwap(s, a, b) == StoreSet(mid, mid.clientToKey[b], x);
      SetIsTable(mid, b, x);
    }
  }

  /** One call on the store is the same call on its table, whatever was called before. */
  lemma StepIsTable(s: Store, op: Op)
    requires Inv(s)
    ensures TableOf(NewStep(s, op).0) == TableStep(TableOf(s), op).0
  {
    match op
    case OpAddMonitor(num) => AddMonitorIsTable(s, num);
    case OpAddClient(win, num) => AddIsTable(s, win, num);
    case OpRemove(win) => RemoveIsTable(s, win);
    case OpUpdate(win, g) => if win in s.clientToKey { SetIsTable(s, win, g); }
    case OpSwap(a, b) => SwapIsTable(s, a, b);
    case _ =>
  }

  lemma AnswerIsTable(s: Store, op: Op)
    requires Inv(s) && !op.OpTraverse?
    ensures NewStep(s, op).1 == TableStep(TableOf(s), op).1
  {
  }

  lemma {:induction false} RunIsTable(s: Store, ops: seq<Op>)
    requires Inv(s)
    ensures |NewRun(s, ops)| == |ops|
    ensures forall k :: 0 <= k < |ops| && !ops[k].OpTraverse? ==> NewRun(s, ops)[k] == TableRun(TableOf(s), ops)[k]
    decreases |ops|
  {
    if ops != [] {
      StepIsTable(s, ops[0]);
      if !ops[0].OpTraverse? { AnswerIsTable(s, ops[0]); }
      RunIsTable(NewStep(s, ops[0]).0, ops[1..]);
    }
  }

  /** On every run whatever, ids added twice and windows swapped with themselves
      included, the slot-map store answers every call but a traversal like the table. */
  lemma EveryRunIsTable(ops: seq<Op>)
    ensures Inv(EMPTY) && |NewRun(EMPTY, ops)| == |ops|
    ensures forall k :: 0 <= k < |ops| && !ops[k].OpTraverse? ==> NewRun(EMPTY, ops)[k] == TableRun(BLANK, ops)[k]
  {
    assert TableOf(EMPTY) == BLANK;
    RunIsTable(EMPTY, ops);
  }

  // ----- the traversal -----

  lemma {:induction false} WidthsPick(clients: map<U32, Entry>, w: U32)
    requires w in clients
    ensures Widths(clients) == clients[w].geometry.w + Widths(clients - {w})
    decreases |clients|
  {
    var u :| u in clients && Widths(clients) == clients[u].geometry.w + Widths(clients - {u});
    if u != w {
      WidthsPick(clients - {u}, w);
      WidthsPick(clients - {w}, u);
      assert clients - {u} - {w} == clients - {w} - {u};
    }
  }

  lemma WidthsPut(clients: map<U32, Entry>, w: U32, e: Entry)
    ensures Widths(clients[w := e]) == Widths(clients - {w}) + e.geometry.w
    ensures w in clients ==> Widths(clients) == Widths(clients - {w}) + clients[w].geometry.w
  {
    WidthsPick(clients[w := e], w);
    assert clients[w := e] - {w} == clients - {w};
    if w in clients { WidthsPick(clients, w); } else { assert clients - {w} == clients; }
  }

  lemma TotalAfterUpdate(s: Store, win: U32, g: ClientGeometry)
    requires Inv(s)
    ensures StoreTotal(StoreUpdate(s, win, g)) ==
            if win in s.clientToKey then StoreTotal(s) - s.clients[s.clientToKey[win]].geometry.w + g.w
            else StoreTotal(s)
  {
    if win in s.clientToKey {
      var v := MirrorOf(s);
      var key := s.clientToKey[win];
      var i, j := Locate(s, key);
      MirrorSet(v, s, key, g, i, j);
      SetKeepsInv(s, key, g);
      PlaceShows(v, s, key, i, j);
      TotalsAgree(v, s);
      TotalsAgree(SetGeometryAt(v, i, j, g), StoreSet(s, key, g));
      TotalSet(v, i, j, g);
    }
  }

  lemma TotalAfterMonitor(s: Store, num: I32)
    requires Inv(s)
    ensures StoreTotal(StoreAddMonitor(s, num)) == StoreTotal(s)
  {
    var v := MirrorOf(s);
    MirrorAddMonitor(v, s, num);
    AddMonitorKeepsInv(s, num);
    TotalsAgree(v, s);
    TotalsAgree(AddMonitor(v, num), StoreAddMonitor(s, num));
    assert AddMonitor(v, num)[1..] == v;
  }

  lemma SwapKeepsWidths(t: Table, a: U32, b: U32)
    ensures Widths(TableStep(t, OpSwap(a, b)).0.clients) == Widths(t.clients)
  {
    if a in t.clients && b in t.clients && a != b {
      var x, y := t.clients[a], t.clients[b];
      var mid := t.clients[a := x.(geometry := y.geometry)];
      WidthsPut(t.clients, a, x.(geometry := y.geometry));
      WidthsPut(mid, b, y.(geometry := x.geometry));
    }
  }

  /** The traversal sums the widths of the table. */
  ghost predicate TotalIsTable(s: Store)
    requires Inv(s)
  {
    StoreTotal(s) == Widths(TableOf(s).clients)
  }

  lemma EditKeepsTotal(s: Store, op: Op)
    requires Inv(s) && TotalIsTable(s) && (op.OpRemove? || op.OpUpdate?)
    ensures StoreTotal(NewStep(s, op).0) == Widths(TableStep(TableOf(s), op).0.clients)
  {
    var clients: map<U32, Entry> := TableOf(s).clients;
    match op
    case OpRemove(win) =>
      TotalAfterRemove(s, win);
      if win in clients { WidthsPick(clients, win); } else { assert clients - {win} == clients; }
    case OpUpdate(win, g) =>
      TotalAfterUpdate(s, win, g);
      if win in clients { WidthsPut(clients, win, clients[win].(geometry := g)); }
  }

  lemma AddKeepsTotal(s: Store, win: U32, num: I32)
    requires Inv(s) && TotalIsTable(s) && (num !in s.numToKey || win !in s.clientToKey)
    ensures StoreTotal(StoreAddClient(s, win, num)) == Widths(TableStep(TableOf(s), OpAddClient(win, num)).0.clients)
  {
    var clients: map<U32, Entry> := TableOf(s).clients;
    TotalAfterAdd(s, win, num);
    if num in s.numToKey {
      WidthsPut(clients, win, Entry(ClientGeometry(0, 0, win, 0), Normal, num));
      assert clients - {win} == clients;
    }
  }

  lemma StepKeepsTotal(s: Store, op: Op)
    requires Inv(s) && TotalIsTable(s)
    requires op.OpAddClient? ==> op.num !in s.numToKey || op.win !in s.clientToKey
    ensures TotalIsTable(NewStep(s, op).0)
  {
    StepIsTable(s, op);
    match op
    case OpAddMonitor(num) => TotalAfterMonitor(s, num);
    case OpAddClient(win, num) => AddKeepsTotal(s, win, num);
    case OpSwap(a, b) =>
      TotalAfterSwap(s, a, b);
      SwapKeepsWidths(TableOf(s), a, b);
    case OpFind(win) =>
    case OpTraverse =>
    case _ => EditKeepsTotal(s, op);
  }

  lemma {:induction false} PairIsTable(v: View, s: Store, ops: seq<Op>)
    requires Related(v, s) && AdmissibleRun(v, ops) && TotalIsTable(s)
    ensures OldRun(v, ops) == TableRun(TableOf(s), ops)
    decreases |ops|
  {
    if ops != [] {
      var op := ops[0];
      if op.OpAddClient? {
        FindMonitorAgrees(v, s, op.num);
        FindAgrees(v, s, op.win);
      }
      StepIsTable(s, op);
      if !op.OpTraverse? { AnswerIsTable(s, op); }
      StepKeepsTotal(s, op);
      StepAgrees(v, s, op);
      PairIsTable(OldStep(v, op).0, NewStep(s, op).0, ops[1..]);
    }
  }

  /** On every admissible run both stores answer every call like the table, traversals
      included. */
  lemma AdmissibleRunIsTable(ops: seq<Op>)
    requires AdmissibleRun([], ops)
    ensures Inv(EMPTY) && OldRun([], ops) == NewRun(EMPTY, ops) == TableRun(BLANK, ops)
  {
    RunsAgree([], EMPTY, ops);
    assert TableOf(EMPTY) == BLANK && BLANK.clients == map[];
    PairIsTable([], EMPTY, ops);
  }
}
