/** The linked-list store: a chain of monitors, each heading a chain of clients
    that point back at it. The ghost sequences name the nodes of every chain, so
    that Valid() can say the chains are acyclic and disjoint. */
module OldWm {
  import opened Wrappers
  import opened WmViews

  class OldClient {
    var win: U32
    var geometry: ClientGeometry
    var state: ClientState
    var next: OldClient?
    var mon: OldMonitor?

    constructor (win: U32, next: OldClient?, mon: OldMonitor)
      ensures this.win == win && geometry == ClientGeometry(0, 0, win, 0) && state == Normal
      ensures this.next == next && this.mon == mon
    {
      this.win, this.geometry, this.state := win, ClientGeometry(0, 0, win, 0), Normal;
      this.next, this.mon := next, mon;
    }
  }

  class OldMonitor {
    var num: I32
    var clients: OldClient?
    var next: OldMonitor?

    constructor (num: I32, next: OldMonitor?)
      ensures this.num == num && clients == null && this.next == next
    {
      this.num, this.clients, this.next := num, null, next;
    }
  }

  ghost function ClientAt(s: seq<OldClient>, j: nat): OldClient? {
    if j < |s| then s[j] else null
  }

  /** One monitor with the nodes of its chain and what they store. */
  datatype Row = Row(mon: OldMonitor, chain: seq<OldClient>, stored: MonitorView)

  ghost function MonitorAt(rows: seq<Row>, i: nat): OldMonitor? {
    if i < |rows| then rows[i].mon else null
  }

  ghost function Stored(rows: seq<Row>): (v: View)
    ensures |v| == |rows| && forall i :: 0 <= i < |v| ==> v[i] == rows[i].stored
  {
    seq(|rows|, i requires 0 <= i < |rows| => rows[i].stored)
  }

  /** The chain of `m` holds exactly the nodes `c`, in order, without repetition,
      each pointing back at `m`, and `mv` is what they store. */
  ghost predicate Chain(m: OldMonitor, c: seq<OldClient>, mv: MonitorView)
    reads m, c
  {
    && m.num == mv.num
    && m.clients == ClientAt(c, 0)
    && Distinct(c)
    && |mv.clients| == |c|
    && (forall j {:trigger c[j].next} :: 0 <= j < |c| ==> c[j].next == ClientAt(c, j + 1))
    && (forall j :: 0 <= j < |c| ==>
      c[j].mon == m && mv.clients[j] == ClientView(c[j].win, c[j].geometry, c[j].state))
  }

  /** A new node at the head of one chain. */
  method Prepend(m: OldMonitor, win: U32, ghost c: seq<OldClient>, ghost mv: MonitorView) returns (n: OldClient)
    requires Chain(m, c, mv)
    modifies m`clients
    ensures fresh(n)
    ensures Chain(m, [n] + c, mv.(clients := [FreshClient(win)] + mv.clients))
  {
    n := new OldClient(win, m.clients, m);
    m.clients := n;
    ghost var c' := [n] + c;
    assert forall k :: 1 <= k < |c'| ==> c'[k] == c[k - 1];
  }

  /** Taking node `j` out of one chain. */
  method Relink(mon: OldMonitor, prev: OldClient?, client: OldClient,
                ghost c: seq<OldClient>, ghost mv: MonitorView, ghost j: nat)
    requires Chain(mon, c, mv)
    requires j < |c| && client == c[j] && prev == if j == 0 then null else c[j - 1]
    modifies mon`clients, c`next
    ensures Chain(mon, c[..j] + c[j + 1..], mv.(clients := mv.clients[..j] + mv.clients[j + 1..]))
  {
    var next := client.next;
    if prev != null {
      prev.next := next;
    } else {
      mon.clients := next;
    }
    ghost var c' := c[..j] + c[j + 1..];
    assert forall k :: 0 <= k < |c'| ==> c'[k] == if k < j then c[k] else c[k + 1];
  }

  class OldWM {
    var monitors: OldMonitor?

    ghost var rows: seq<Row>
    ghost var nodes: set<object>

    ghost function View(): View
      reads this
    {
      Stored(rows)
    }

    ghost predicate RowOk(r: Row)
      reads this, nodes
      requires r.mon in nodes
    {
      && (forall j :: 0 <= j < |r.chain| ==> r.chain[j] in nodes)
      && Chain(r.mon, r.chain, r.stored)
    }

    /** The monitor chain holds the rows in order, no monitor twice, and so does
        the client chain of every row. */
    ghost predicate Valid()
      reads this, nodes
    {
      && this !in nodes
      && monitors == MonitorAt(rows, 0)
      && (forall i :: 0 <= i < |rows| ==> rows[i].mon in nodes)
      && (forall i {:trigger RowOk(rows[i])} :: 0 <= i < |rows| ==> RowOk(rows[i]))
      && (forall a, b {:trigger rows[a].mon, rows[b].mon} :: 0 <= a < b < |rows| ==> rows[a].mon != rows[b].mon)
      && (forall i {:trigger rows[i].mon.next} :: 0 <= i < |rows| ==> rows[i].mon.next == MonitorAt(rows, i + 1))
    }

    constructor ()
      ensures Valid() && View() == [] && fresh(nodes)
    {
      monitors, rows, nodes := null, [], {};
    }

    /** No node lies on two chains: the back-pointers tell the chains apart. */
    lemma ChainsDisjoint(i: nat, j: nat, a: nat, b: nat)
      requires Valid()
      requires i < |rows| && j < |rows[i].chain| && a < |rows| && b < |rows[a].chain|
      ensures rows[i].chain[j] == rows[a].chain[b] <==> i == a && j == b
      ensures rows[i].chain[j].mon == rows[i].mon
    {
      assert RowOk(rows[i]) && RowOk(rows[a]);
    }

    method AddMonitor(num: I32)
      requires Valid()
      modifies this
      ensures Valid() && fresh(nodes - old(nodes))
      ensures View() == WmViews.AddMonitor(old(View()), num)
    {
      var m := new OldMonitor(num, monitors);
      monitors := m;
      rows, nodes := [Row(m, [], MonitorView(num, []))] + rows, nodes + {m};
      RowPrepended(num);
    }

    /** A fresh monitor at the head of the chain leaves every other row as it was. */
    twostate lemma RowPrepended(num: I32)
      requires old(Valid()) && rows != [] && rows[1..] == old(rows)
      requires rows[0].chain == [] && rows[0].stored == MonitorView(num, [])
      requires monitors == rows[0].mon && monitors !in old(nodes) && nodes == old(nodes) + {monitors}
      requires this !in nodes && monitors.num == num && monitors.clients == null && monitors.next == old(monitors)
      requires unchanged(old(nodes))
      ensures Valid() && View() == WmViews.AddMonitor(old(View()), num)
    {
      forall i | 0 <= i < |rows| ensures RowOk(rows[i]) && rows[i].mon.next == MonitorAt(rows, i + 1) {
        if i > 0 {
          assert rows[i] == old(rows)[i - 1];
          assert old(RowOk(rows[i - 1]) && rows[i - 1].mon.next == MonitorAt(rows, i));
        }
      }
    }

    method FindMonitor(num: I32) returns (r: OldMonitor?)
      requires Valid()
      ensures match WmViews.FindMonitor(View(), num)
              case None => r == null
              case Some(i) => i < |rows| && r == rows[i].mon
    {
      var current := monitors;
      ghost var i: nat := 0;
      while current != null
        invariant i <= |rows| && current == MonitorAt(rows, i)
        invariant forall a :: 0 <= a < i ==> View()[a].num != num
        decreases |rows| - i
      {
        assert RowOk(rows[i]);
        if current.num == num {
          FirstMonitorIsFind(View(), num, i);
          return current;
        }
        current := current.next;
        i := i + 1;
      }
      return null;
    }

    method AddClient(win: U32, num: I32) returns (ok: bool)
      requires Valid()
      modifies this, nodes
      ensures Valid() && fresh(nodes - old(nodes))
      ensures View() == WmViews.AddClient(old(View()), win, num)
      ensures ok == WmViews.FindMonitor(old(View()), num).Some?
    {
      var m := FindMonitor(num);
      if m == null { return false; }
      ghost var i := WmViews.FindMonitor(View(), num).value;
      ghost var row := rows[i];
      assert RowOk(row);
      var c := Prepend(m, win, row.chain, row.stored);
      nodes := nodes + {c};
      ghost var stored := row.stored.(clients := [FreshClient(win)] + row.stored.clients);
      rows := rows[i := Row(m, [c] + row.chain, stored)];
      RowEdited(i, rows[i]);
      return true;
    }

    /** Editing row `i`, and no node outside its chain, keeps the store valid and
        edits the view at `i` alone. */
    twostate lemma RowEdited(i: nat, new r: Row)
      requires i < |old(rows)| && rows == old(rows)[i := r] && r.mon == old(rows)[i].mon
      requires old(Valid()) && old(nodes) <= nodes && this !in nodes && monitors == old(monitors)
      requires RowOk(r)
      requires forall m: OldMonitor :: m in old(nodes) ==> m.next == old(m.next)
      requires forall m: OldMonitor :: m in old(nodes) && m != r.mon ==> unchanged(m)
      requires forall c: OldClient :: c in old(nodes) && old(c.mon) != r.mon ==> unchanged(c)
      ensures Valid() && View() == old(View())[i := r.stored]
    {
      forall a | 0 <= a < |rows| ensures RowOk(rows[a]) {
        if a != i { assert old(RowOk(rows[a])); }
      }
      assert MonitorAt(rows, 0) == MonitorAt(old(rows), 0);
      forall a | 0 <= a < |rows| ensures rows[a].mon.next == MonitorAt(rows, a + 1) {
        assert old(rows[a].mon.next) == MonitorAt(old(rows), a + 1);
      }
    }

    method FindClient(win: U32) returns (r: OldClient?)
      requires Valid()
      ensures match Find(View(), win)
              case None => r == null
              case Some((i, j)) =>
                && i < |rows| && j < |rows[i].chain| && r == rows[i].chain[j] && r in nodes
                && r.mon == rows[i].mon && ClientView(r.win, r.geometry, r.state) == View()[i].clients[j]
    {
      var mon := monitors;
      ghost var i: nat := 0;
      while mon != null
        invariant i <= |rows| && mon == MonitorAt(rows, i)
        invariant NoneBefore(View(), win, i, 0)
        decreases |rows| - i
      {
        assert RowOk(rows[i]);
        var client := mon.clients;
        ghost var j: nat := 0;
        while client != null
          invariant j <= |rows[i].chain| && client == ClientAt(rows[i].chain, j)
          invariant NoneBefore(View(), win, i, j)
          decreases |rows[i].chain| - j
        {
          if client.win == win {
            FirstIsFind(View(), win, i, j);
            return client;
          }
          client := client.next;
          j := j + 1;
        }
        mon := mon.next;
        i := i + 1;
      }
      return null;
    }

    method RemoveClient(win: U32) returns (ok: bool)
      requires Valid()
      modifies this, nodes
      ensures Valid() && nodes == old(nodes)
      ensures View() == Remove(old(View()), win)
      ensures ok == Find(old(View()), win).Some?
    {
      var mon := monitors;
      ghost var i: nat := 0;
      while mon != null
        invariant Valid() && unchanged(this) && unchanged(nodes)
        invariant i <= |rows| && mon == MonitorAt(rows, i)
        invariant NoneBefore(View(), win, i, 0)
        decreases |rows| - i
      {
        assert RowOk(rows[i]);
        var prev: OldClient? := null;
        var client := mon.clients;
        ghost var j: nat := 0;
        while client != null
          invariant j <= |rows[i].chain| && client == ClientAt(rows[i].chain, j)
          invariant prev == if j == 0 then null else rows[i].chain[j - 1]
          invariant NoneBefore(View(), win, i, j)
          decreases |rows[i].chain| - j
        {
          if client.win == win {
            FirstIsFind(View(), win, i, j);
            Unlink(mon, prev, client, i, j);
            return true;
          }
          prev := client;
          client := client.next;
          j := j + 1;
        }
        mon := mon.next;
        i := i + 1;
      }
      return false;
    }

    /** The relinking step of a removal, as it affects the whole store. */
    method Unlink(mon: OldMonitor, prev: OldClient?, client: OldClient, ghost i: nat, ghost j: nat)
      requires Valid()
      requires i < |rows| && mon == rows[i].mon && j < |rows[i].chain| && client == rows[i].chain[j]
      requires prev == if j == 0 then null else rows[i].chain[j - 1]
      requires InRange(View(), i, j)
      modifies this, nodes
      ensures Valid() && nodes == old(nodes)
      ensures View() == RemoveAt(old(View()), i, j)
    {
      ghost var Row(_, c, stored) := rows[i];
      assert RowOk(rows[i]);
      Relink(mon, prev, client, c, stored, j);
      stored := stored.(clients := stored.clients[..j] + stored.clients[j + 1..]);
      rows := rows[i := Row(mon, c[..j] + c[j + 1..], stored)];
      RowEdited(i, rows[i]);
    }

    /** Overwriting the geometry of one node. */
    method SetGeometry(client: OldClient, g: ClientGeometry, ghost i: nat, ghost j: nat)
      requires Valid()
      requires i < |rows| && j < |rows[i].chain| && client == rows[i].chain[j] && InRange(View(), i, j)
      modifies this, client
      ensures Valid() && nodes == old(nodes)
      ensures View() == SetGeometryAt(old(View()), i, j, g)
      ensures |rows| == |old(rows)| && forall a :: 0 <= a < |rows| ==> rows[a].chain == old(rows[a].chain)
    {
      ghost var Row(m, c, stored) := rows[i];
      assert RowOk(rows[i]);
      client.geometry := g;
      stored := stored.(clients := stored.clients[j := stored.clients[j].(geometry := g)]);
      rows := rows[i := Row(m, c, stored)];
      RowEdited(i, rows[i]);
    }

    method UpdateClientGeometry(win: U32, g: ClientGeometry) returns (ok: bool)
      requires Valid()
      modifies this, nodes
      ensures Valid() && nodes == old(nodes)
      ensures View() == Update(old(View()), win, g)
      ensures ok == Find(old(View()), win).Some?
    {
      var client := FindClient(win);
      if client == null { return false; }
      ghost var (i, j) := Find(View(), win).value;
      SetGeometry(client, g, i, j);
      return true;
    }

    method SwapAdjacentClients(win1: U32, win2: U32) returns (ok: bool)
      requires Valid()
      modifies this, nodes
      ensures Valid() && nodes == old(nodes)
      ensures View() == Swap(old(View()), win1, win2)
      ensures ok == (Find(old(View()), win1).Some? && Find(old(View()), win2).Some?)
    {
      var client1 := FindClient(win1);
      var client2 := FindClient(win2);
      if client1 == null || client2 == null { return false; }
      ghost var (i, j) := Find(View(), win1).value;
      ghost var (a, b) := Find(View(), win2).value;
      assert RowOk(rows[i]) && RowOk(rows[a]);
      var geom1, geom2 := client1.geometry, client2.geometry;
      SetGeometry(client1, geom2, i, j);
      SetGeometry(client2, geom1, a, b);
      return true;
    }

    method TraverseAllClients() returns (total: nat)
      requires Valid()
      ensures total == Total(View())
    {
      ghost var v := View();
      total := 0;
      var mon := monitors;
      ghost var i: nat := 0;
      assert v[0..] == v;
      while mon != null
        invariant i <= |rows| && mon == MonitorAt(rows, i)
        invariant total + Total(v[i..]) == Total(v)
        decreases |rows| - i
      {
        assert RowOk(rows[i]);
        ghost var cs := v[i].clients;
        ghost var rest := Total(v[i + 1..]);
        assert v[i..][1..] == v[i + 1..];
        var client := mon.clients;
        ghost var j: nat := 0;
        assert cs[0..] == cs;
        while client != null
          invariant j <= |rows[i].chain| && client == ClientAt(rows[i].chain, j)
          invariant total + Width(cs[j..]) + rest == Total(v)
          decreases |rows[i].chain| - j
        {
          assert cs[j..][1..] == cs[j + 1..];
          total := total + client.geometry.w;
          client := client.next;
          j := j + 1;
        }
        mon := mon.next;
        i := i + 1;
      }
    }
  }

  lemma FirstMonitorIsFind(v: View, num: I32, i: nat)
    requires IsFirstMonitor(v, num, i)
    ensures WmViews.FindMonitor(v, num) == Some(i)
  {
  }
}
