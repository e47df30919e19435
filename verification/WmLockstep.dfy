/** The two store objects, driven with the same calls. */
module WmLockstep {
  import opened Wrappers
  import opened WmViews
  import opened NewWm
  import opened WmRefinement
  import OldWm

  /** Two objects in related states, sharing no node. */
  ghost predicate Paired(chains: OldWm.OldWM, slots: NewWM)
    reads chains, chains.nodes, slots
  {
    && chains.Valid() && slots.Valid() && slots !in chains.nodes
    && Related(chains.View(), slots.State())
  }

  method OldCall(wm: OldWm.OldWM, op: Op) returns (a: Answer)
    requires wm.Valid()
    modifies wm, wm.nodes
    ensures wm.Valid() && fresh(wm.nodes - old(wm.nodes))
    ensures (wm.View(), a) == OldStep(old(wm.View()), op)
  {
    match op
    case OpAddMonitor(num) =>
      wm.AddMonitor(num);
      a := Done;
    case OpAddClient(win, num) =>
      var ok := wm.AddClient(win, num);
      a := Flag(ok);
    case OpFind(win) =>
      var c := wm.FindClient(win);
      if c == null {
        a := Found(None);
      } else {
        ghost var i := Find(wm.View(), win).value.0;
        assert wm.RowOk(wm.rows[i]);
        a := Found(Some((ClientView(c.win, c.geometry, c.state), c.mon.num)));
      }
    case OpRemove(win) =>
      var ok := wm.RemoveClient(win);
      a := Flag(ok);
    case OpUpdate(win, g) =>
      var ok := wm.UpdateClientGeometry(win, g);
      a := Flag(ok);
    case OpSwap(win1, win2) =>
      var ok := wm.SwapAdjacentClients(win1, win2);
      a := Flag(ok);
    case OpTraverse =>
      var total := wm.TraverseAllClients();
      a := Sum(total);
  }

  method NewCall(wm: NewWM, op: Op) returns (a: Answer)
    requires wm.Valid()
    modifies wm
    ensures wm.Valid() && (wm.State(), a) == NewStep(old(wm.State()), op)
  {
    match op
    case OpAddMonitor(num) =>
      var key := wm.AddMonitor(num);
      a := Done;
    case OpAddClient(win, num) =>
      var r := wm.AddClient(win, num);
      a := Flag(r.Some?);
    case OpFind(win) =>
      var r := wm.FindClient(win);
      if r.None? {
        a := Found(None);
      } else {
        assert Owned(wm.State(), wm.clientToKey[win]);
        var c := r.value;
        a := Found(Some((ClientView(c.win, c.geometry, c.state), wm.monitors[c.mon.value])));
      }
    case OpRemove(win) =>
      var ok := wm.RemoveClient(win);
      a := Flag(ok);
    case OpUpdate(win, g) =>
      var ok := wm.UpdateClientGeometry(win, g);
      a := Flag(ok);
    case OpSwap(win1, win2) =>
      var ok := wm.SwapAdjacentClients(win1, win2);
      a := Flag(ok);
    case OpTraverse =>
      var total := wm.TraverseAllClients();
      a := Sum(total);
  }

  /** The same admissible call on both objects: same answer, still paired. */
  method BothCall(chains: OldWm.OldWM, slots: NewWM, op: Op) returns (a: Answer, b: Answer)
    requires Paired(chains, slots) && Admissible(chains.View(), op)
    modifies chains, chains.nodes, slots
    ensures a == b && Paired(chains, slots) && fresh(chains.nodes - old(chains.nodes))
    ensures (chains.View(), a) == OldStep(old(chains.View()), op)
  {
    StepAgrees(chains.View(), slots.State(), op);
    a := OldCall(chains, op);
    b := NewCall(slots, op);
  }

  /** Both objects, driven from empty through any admissible run: the same answers,
      those of the run, and the lists of one are the reverse of the other's. */
  method BothRun(ops: seq<Op>) returns (chains: OldWm.OldWM, slots: NewWM, a: seq<Answer>, b: seq<Answer>)
    requires AdmissibleRun([], ops)
    ensures a == b == OldRun([], ops)
    ensures Paired(chains, slots) && chains.View() == OldAfter([], ops)
  {
    chains := new OldWm.OldWM();
    slots := new NewWM();
    a, b := [], [];
    assert ops[0..] == ops;
    for i := 0 to |ops|
      invariant Paired(chains, slots) && fresh(chains) && fresh(slots) && fresh(chains.nodes)
      invariant AdmissibleRun(chains.View(), ops[i..]) && OldAfter(chains.View(), ops[i..]) == OldAfter([], ops)
      invariant a == b && a + OldRun(chains.View(), ops[i..]) == OldRun([], ops)
    {
      assert ops[i..][0] == ops[i] && ops[i..][1..] == ops[i + 1..];
      ghost var v := chains.View();
      var x, y := BothCall(chains, slots, ops[i]);
      assert OldRun(v, ops[i..]) == [x] + OldRun(chains.View(), ops[i + 1..]);
      assert a + ([x] + OldRun(chains.View(), ops[i + 1..])) == (a + [x]) + OldRun(chains.View(), ops[i + 1..]);
      a, b := a + [x], b + [y];
    }
  }
}
