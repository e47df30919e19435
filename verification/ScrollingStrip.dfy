/** The strip of columns of the scrolling layout: three parallel vectors and a
    focused column, edited and compacted in place. */
module ScrollingStrip {
  import opened Wrappers

  type Key = nat

  datatype Strip = Strip(
    columns: seq<seq<Key>>,
    widths: seq<real>,
    focuses: seq<Option<Key>>,
    focused: Option<nat>,
    attach: bool)

  const EMPTY := Strip([], [], [], None, false)

  // ----- the clients of a strip -----

  /** All clients, column by column. */
  function Flat(cols: seq<seq<Key>>): seq<Key> {
    if cols == [] then [] else Flat(cols[..|cols| - 1]) + cols[|cols| - 1]
  }

  /** Every client stands at one place. */
  ghost predicate Once(cols: seq<seq<Key>>) {
    forall k :: multiset(Flat(cols))[k] <= 1
  }

  lemma {:induction false} FlatHas(cols: seq<seq<Key>>, k: Key)
    ensures k in Flat(cols) <==> exists i :: 0 <= i < |cols| && k in cols[i]
  {
    if cols != [] {
      var n := |cols| - 1;
      FlatHas(cols[..n], k);
      assert forall i :: 0 <= i < n ==> cols[..n][i] == cols[i];
    }
  }

  lemma {:induction false} FlatSplit(a: seq<seq<Key>>, b: seq<seq<Key>>)
    ensures Flat(a + b) == Flat(a) + Flat(b)
  {
    if b == [] {
      assert a + b == a;
    } else {
      var n := |b| - 1;
      FlatSplit(a, b[..n]);
      assert (a + b)[..|a + b| - 1] == a + b[..n];
    }
  }

  /** In terms of positions: two places with the same client are the same place. */
  lemma OncePlaces(cols: seq<seq<Key>>, i: nat, j: nat, a: nat, b: nat)
    requires Once(cols) && i < |cols| && j < |cols[i]| && a < |cols| && b < |cols[a]|
    ensures cols[i][j] == cols[a][b] <==> i == a && j == b
  {
    if i == a {
      if j < b { TwoInColumn(cols, i, j, b); }
      if b < j { TwoInColumn(cols, i, b, j); }
    } else if i < a {
      TwoColumns(cols, i, j, a, b);
    } else {
      TwoColumns(cols, a, b, i, j);
    }
  }

  lemma TwoInColumn(cols: seq<seq<Key>>, i: nat, j: nat, b: nat)
    requires i < |cols| && j < b < |cols[i]|
    ensures cols[i][j] == cols[i][b] ==> multiset(Flat(cols))[cols[i][j]] >= 2
  {
    Around(cols, i);
    var c := cols[i];
    assert c == c[..b] + c[b..];
    assert c[j] in c[..b] && c[b] in c[b..];
  }

  lemma TwoColumns(cols: seq<seq<Key>>, i: nat, j: nat, a: nat, b: nat)
    requires i < a < |cols| && j < |cols[i]| && b < |cols[a]|
    ensures cols[i][j] == cols[a][b] ==> multiset(Flat(cols))[cols[i][j]] >= 2
  {
    Around(cols, a);
    assert cols[..a][i] == cols[i];
    FlatHas(cols[..a], cols[i][j]);
    assert cols[a][b] in cols[a];
  }

  lemma Around(cols: seq<seq<Key>>, i: nat)
    requires i < |cols|
    ensures Flat(cols) == Flat(cols[..i]) + cols[i] + Flat(cols[i + 1..])
  {
    assert cols == cols[..i + 1] + cols[i + 1..];
    FlatSplit(cols[..i + 1], cols[i + 1..]);
    FlatOneMore(cols, i);
  }

  lemma FlatOneMore(cols: seq<seq<Key>>, i: nat)
    requires i < |cols|
    ensures Flat(cols[..i + 1]) == Flat(cols[..i]) + cols[i]
  {
    assert cols[..i + 1][..i] == cols[..i];
  }

  // ----- operations on values -----

  function Resized<T>(s: seq<T>, n: nat, d: T): (r: seq<T>)
    ensures |r| == n && forall i :: 0 <= i < n ==> r[i] == if i < |s| then s[i] else d
  {
    if n <= |s| then s[..n] else s + seq(n - |s|, _ => d)
  }

  function Ensured(x: Strip): Strip {
    x.(widths := Resized(x.widths, |x.columns|, 1.0), focuses := Resized(x.focuses, |x.columns|, None))
  }

  /** The first column from `from` on that holds the client, or the number of columns. */
  function Position(cols: seq<seq<Key>>, k: Key, from: nat): (i: nat)
    requires from <= |cols|
    ensures from <= i <= |cols|
    ensures i < |cols| ==> k in cols[i]
    ensures forall j :: from <= j < i ==> k !in cols[j]
    decreases |cols| - from
  {
    if from == |cols| || k in cols[from] then from else Position(cols, k, from + 1)
  }

  function Remember(x: Strip, k: Key): Strip {
    var e := Ensured(x);
    var i := Position(e.columns, k, 0);
    if i < |e.columns| then e.(focuses := e.focuses[i := Some(k)], focused := Some(i)) else e
  }

  function FocusedIndex(x: Strip): Option<nat> {
    if x.focused.Some? && x.focused.value < |x.columns| then x.focused else None
  }

  function Insert(x: Strip, k: Key): Strip {
    if k in Flat(x.columns) then x
    else
      var e := Ensured(x);
      var at := FocusedIndex(e);
      if e.attach && at.Some? then
        var i := at.value;
        e.(columns := e.columns[i := e.columns[i] + [k]], focuses := e.focuses[i := Some(k)], focused := Some(i))
      else
        e.(columns := e.columns + [[k]], widths := e.widths + [1.0], focuses := e.focuses + [Some(k)],
           focused := Some(|e.columns|))
  }

  /** The focus a kept column gets: its own if it still holds that client, else its
      first client. */
  function Settle(col: seq<Key>, focus: Option<Key>): Option<Key>
    requires col != []
  {
    if focus.Some? && focus.value in col then focus else Some(col[0])
  }

  /** The columns kept among the first `n`, by their old numbers. */
  function Kept(cols: seq<seq<Key>>, n: nat): (ks: seq<nat>)
    requires n <= |cols|
    ensures forall j :: 0 <= j < |ks| ==> ks[j] < n && cols[ks[j]] != []
  {
    if n == 0 then []
    else if cols[n - 1] == [] then Kept(cols, n - 1)
    else Kept(cols, n - 1) + [n - 1]
  }

  /** They are all the non-empty ones, in their old order. */
  lemma {:induction false} KeptIs(cols: seq<seq<Key>>, n: nat, i: nat)
    requires n <= |cols|
    ensures i in Kept(cols, n) <==> i < n && cols[i] != []
    ensures forall a, b :: 0 <= a < b < |Kept(cols, n)| ==> Kept(cols, n)[a] < Kept(cols, n)[b]
  {
    if n > 0 { KeptIs(cols, n - 1, i); }
  }

  /** How many of the first `n` columns are not empty. */
  function NonEmpty(cols: seq<seq<Key>>, n: nat): nat
    requires n <= |cols|
  {
    if n == 0 then 0 else NonEmpty(cols, n - 1) + if cols[n - 1] == [] then 0 else 1
  }

  lemma {:induction false} KeptCount(cols: seq<seq<Key>>, n: nat)
    requires n <= |cols|
    ensures |Kept(cols, n)| == NonEmpty(cols, n)
  {
    if n > 0 { KeptCount(cols, n - 1); }
  }

  lemma KeptOneMore(cols: seq<seq<Key>>, n: nat)
    requires n < |cols|
    ensures Kept(cols, n + 1) == Kept(cols, n) + if cols[n] == [] then [] else [n]
  {
  }

  /** A column that is not empty goes to the place given by the non-empty ones before it. */
  lemma {:induction false} KeptPlace(cols: seq<seq<Key>>, n: nat, i: nat)
    requires i < n <= |cols| && cols[i] != []
    ensures NonEmpty(cols, i) < |Kept(cols, n)| && Kept(cols, n)[NonEmpty(cols, i)] == i
  {
    KeptOneMore(cols, n - 1);
    if i == n - 1 { KeptCount(cols, i); } else { KeptPlace(cols, n - 1, i); }
  }

  /** Where the focus of the first `n` columns goes, if its column is kept. */
  function Refocus(x: Strip, n: nat): Option<nat>
    requires n <= |x.columns|
  {
    if x.focused.Some? && x.focused.value < n && x.columns[x.focused.value] != []
    then Some(NonEmpty(x.columns, x.focused.value)) else None
  }

  ghost predicate Aligned(x: Strip) { |x.widths| == |x.columns| == |x.focuses| }

  /** `y` is `x` without its empty columns: columns, widths and focuses move together,
      a focused column that is kept stays focused, and otherwise the first is. */
  ghost predicate Compacts(x: Strip, y: Strip)
    requires Aligned(x)
  {
    var ks := Kept(x.columns, |x.columns|);
    && |y.columns| == |y.widths| == |y.focuses| == |ks| && y.attach == x.attach
    && (forall j :: 0 <= j < |ks| ==>
          && y.columns[j] == x.columns[ks[j]] && y.widths[j] == x.widths[ks[j]]
          && y.focuses[j] == Settle(x.columns[ks[j]], x.focuses[ks[j]]))
    && y.focused ==
       if Refocus(x, |x.columns|).Some? then Refocus(x, |x.columns|) else if ks != [] then Some(0) else None
  }

  /** The compaction determines the result. */
  lemma CompactsOneWay(x: Strip, y: Strip)
    requires Aligned(x) && Compacts(x, y)
    ensures y == Compaction(x)
  {
    var z := Compaction(x);
    assert y.columns == z.columns && y.widths == z.widths && y.focuses == z.focuses;
  }

  ghost function Compaction(x: Strip): (y: Strip)
    requires Aligned(x)
    ensures Compacts(x, y)
  {
    var ks := Kept(x.columns, |x.columns|);
    Strip(seq(|ks|, j requires 0 <= j < |ks| => x.columns[ks[j]]),
          seq(|ks|, j requires 0 <= j < |ks| => x.widths[ks[j]]),
          seq(|ks|, j requires 0 <= j < |ks| => Settle(x.columns[ks[j]], x.focuses[ks[j]])),
          if Refocus(x, |x.columns|).Some? then Refocus(x, |x.columns|) else if ks != [] then Some(0) else None,
          x.attach)
  }

  ghost function Retain(x: Strip): Strip { Compaction(Ensured(x)) }

  function SetFocused(x: Strip, i: nat): Strip { if i < |x.columns| then x.(focused := Some(i)) else x }

  // ----- synchronising with the visible clients -----

  function Only(col: seq<Key>, visible: seq<Key>): seq<Key> {
    if col == [] then []
    else
      var rest, last := Only(col[..|col| - 1], visible), col[|col| - 1];
      if last in visible then rest + [last] else rest
  }

  function OnlyAll(cols: seq<seq<Key>>, visible: seq<Key>): (r: seq<seq<Key>>)
    ensures |r| == |cols|
  {
    if cols == [] then [] else OnlyAll(cols[..|cols| - 1], visible) + [Only(cols[|cols| - 1], visible)]
  }

  lemma OnlyOneMore(cols: seq<seq<Key>>, i: nat, visible: seq<Key>)
    requires i < |cols|
    ensures var now := OnlyAll(cols[..i], visible) + cols[i..];
            && now[i] == cols[i]
            && now[i := Only(cols[i], visible)] == OnlyAll(cols[..i + 1], visible) + cols[i + 1..]
  {
    assert cols[..i + 1][..i] == cols[..i];
  }

  function Strangers(visible: seq<Key>, present: seq<Key>): seq<Key> {
    if visible == [] then []
    else
      var rest, last := Strangers(visible[..|visible| - 1], present), visible[|visible| - 1];
      if last in present then rest else rest + [last]
  }

  function InsertAll(x: Strip, ks: seq<Key>): Strip {
    if ks == [] then x else Insert(InsertAll(x, ks[..|ks| - 1]), ks[|ks| - 1])
  }

  function Filtered(x: Strip, visible: seq<Key>): Strip {
    Ensured(x).(columns := OnlyAll(x.columns, visible))
  }

  ghost function Sync(x: Strip, visible: seq<Key>): Strip {
    var r := Retain(Filtered(x, visible));
    InsertAll(r, Strangers(visible, Flat(r.columns)))
  }

  /** The compaction after `i` columns: the kept ones stand in front, the columns
      still to come are untouched. */
  ghost predicate Progress(x: Strip, i: nat, kept: seq<seq<Key>>, ws: seq<real>, fs: seq<Option<Key>>)
    requires Aligned(x) && i <= |x.columns|
  {
    var ks := Kept(x.columns, i);
    && |ws| == |fs| == |x.columns| && |kept| == |ks| <= i
    && (forall j :: 0 <= j < |ks| ==>
          && kept[j] == x.columns[ks[j]] && ws[j] == x.widths[ks[j]]
          && fs[j] == Settle(x.columns[ks[j]], x.focuses[ks[j]]))
    && (forall j :: i <= j < |x.columns| ==> ws[j] == x.widths[j] && fs[j] == x.focuses[j])
  }

  lemma KeepColumn(x: Strip, i: nat, kept: seq<seq<Key>>, ws: seq<real>, fs: seq<Option<Key>>)
    requires Aligned(x) && i < |x.columns| && x.columns[i] != [] && Progress(x, i, kept, ws, fs)
    ensures Progress(x, i + 1, kept + [x.columns[i]], ws[|kept| := ws[i]], fs[|kept| := Settle(x.columns[i], fs[i])])
  {
    assert Kept(x.columns, i + 1) == Kept(x.columns, i) + [i];
  }

  lemma SkipColumn(x: Strip, i: nat, kept: seq<seq<Key>>, ws: seq<real>, fs: seq<Option<Key>>)
    requires Aligned(x) && i < |x.columns| && x.columns[i] == [] && Progress(x, i, kept, ws, fs)
    ensures Progress(x, i + 1, kept, ws, fs) && Kept(x.columns, i + 1) == Kept(x.columns, i)
  {
  }

  // ----- the object -----

  class ScrollingState {
    var columns: seq<seq<Key>>
    var columnWidthFactors: seq<real>
    var focusedClients: seq<Option<Key>>
    var focusedColumn: Option<nat>
    var attachNewWindows: bool

    function Value(): Strip
      reads this
    {
      Strip(columns, columnWidthFactors, focusedClients, focusedColumn, attachNewWindows)
    }

    constructor ()
      ensures Value() == EMPTY
    {
      columns, columnWidthFactors, focusedClients := [], [], [];
      focusedColumn, attachNewWindows := None, false;
    }

    method EnsureColumnMetadata()
      modifies this
      ensures Value() == Ensured(old(Value()))
    {
      columnWidthFactors := Resized(columnWidthFactors, |columns|, 1.0);
      focusedClients := Resized(focusedClients, |columns|, None);
    }

    method RememberFocus(k: Key)
      modifies this
      ensures Value() == Remember(old(Value()), k)
    {
      EnsureColumnMetadata();
      var i := Position(columns, k, 0);
      if i < |columns| {
        focusedClients := focusedClients[i := Some(k)];
        focusedColumn := Some(i);
      }
    }

    method InsertNewClient(k: Key)
      modifies this
      ensures Value() == Insert(old(Value()), k)
    {
      FlatHas(columns, k);
      if exists i :: 0 <= i < |columns| && k in columns[i] { return; }
      EnsureColumnMetadata();
      if attachNewWindows && focusedColumn.Some? && focusedColumn.value < |columns| {
        var i := focusedColumn.value;
        columns := columns[i := columns[i] + [k]];
        focusedClients := focusedClients[i := Some(k)];
        focusedColumn := Some(i);
        return;
      }
      columns := columns + [[k]];
      columnWidthFactors := columnWidthFactors + [1.0];
      focusedClients := focusedClients + [Some(k)];
      focusedColumn := Some(|columns| - 1);
    }

    method RetainNonEmptyColumns()
      modifies this
      ensures Value() == Retain(old(Value()))
    {
      EnsureColumnMetadata();
      var y := Compacted(Value());
      columns, columnWidthFactors, focusedClients, focusedColumn := y.columns, y.widths, y.focuses, y.focused;
    }

    method SetFocusedColumn(i: nat)
      modifies this
      ensures Value() == SetFocused(old(Value()), i)
    {
      if i < |columns| {
        focusedColumn := Some(i);
      }
    }

    /** Clients that are gone leave, empty columns go, new clients come last. */
    method SyncScrollingColumns(visible: seq<Key>) returns (added: seq<Key>)
      modifies this
      ensures Value() == Sync(old(Value()), visible)
      ensures added == Strangers(visible, Flat(Retain(Filtered(old(Value()), visible)).columns))
    {
      EnsureColumnMetadata();
      HideOthers(visible);
      RetainNonEmptyColumns();
      added := Strangers(visible, Flat(columns));
      Admit(added);
    }

    method HideOthers(visible: seq<Key>)
      modifies this
      ensures Value() == old(Value()).(columns := OnlyAll(old(columns), visible))
    {
      ghost var cols := columns;
      for i := 0 to |columns|
        invariant |columns| == |cols| && columns == OnlyAll(cols[..i], visible) + cols[i..]
        invariant Value() == old(Value()).(columns := columns)
      {
        OnlyOneMore(cols, i, visible);
        columns := columns[i := Only(columns[i], visible)];
      }
      assert cols[..|cols|] == cols;
    }

    method Admit(added: seq<Key>)
      modifies this
      ensures Value() == InsertAll(old(Value()), added)
    {
      for i := 0 to |added|
        invariant Value() == InsertAll(old(Value()), added[..i])
      {
        assert added[..i + 1][..i] == added[..i];
        InsertNewClient(added[i]);
      }
      assert added[..|added|] == added;
    }
  }

  method Compacted(x: Strip) returns (y: Strip)
    requires Aligned(x)
    ensures y == Compaction(x)
  {
    var kept, ws, fs, retained := Compact(x);
    var focused := if retained.Some? then retained else FirstFocus(fs[..|kept|], 0);
    CompactionDone(x, kept, ws, fs, retained);
    y := Strip(kept, ws[..|kept|], fs[..|kept|], focused, x.attach);
    CompactsOneWay(x, y);
  }

  lemma CompactionDone(x: Strip, kept: seq<seq<Key>>, ws: seq<real>, fs: seq<Option<Key>>, retained: Option<nat>)
    requires Aligned(x) && Progress(x, |x.columns|, kept, ws, fs)
    requires retained == Refocus(x, |x.columns|)
    ensures var f := if retained.Some? then retained else FirstFocus(fs[..|kept|], 0);
            Compacts(x, Strip(kept, ws[..|kept|], fs[..|kept|], f, x.attach))
  {
    assert kept != [] ==> fs[..|kept|][0].Some?;
  }

  /** Compacts the three vectors in place: widths and focuses are overwritten from the
      front while they are still being read further back. */
  method Compact(x: Strip) returns (kept: seq<seq<Key>>, ws: seq<real>, fs: seq<Option<Key>>, retained: Option<nat>)
    requires Aligned(x)
    ensures Progress(x, |x.columns|, kept, ws, fs)
    ensures retained == Refocus(x, |x.columns|)
  {
    kept, ws, fs, retained := [], x.widths, x.focuses, None;
    for i := 0 to |x.columns|
      invariant Progress(x, i, kept, ws, fs)
      invariant retained == Refocus(x, i)
    {
      if x.columns[i] == [] {
        SkipColumn(x, i, kept, ws, fs);
        continue;
      }
      KeepColumn(x, i, kept, ws, fs);
      KeptCount(x.columns, i);
      ws := ws[|kept| := ws[i]];
      fs := fs[|kept| := Settle(x.columns[i], fs[i])];
      if x.focused == Some(i) {
        retained := Some(|kept|);
      }
      kept := kept + [x.columns[i]];
    }
  }

  function FirstFocus(fs: seq<Option<Key>>, from: nat): (r: Option<nat>)
    requires from <= |fs|
    ensures r.Some? ==> from <= r.value < |fs| && fs[r.value].Some? && forall i :: from <= i < r.value ==> fs[i].None?
    ensures r.None? ==> forall i :: from <= i < |fs| ==> fs[i].None?
    decreases |fs| - from
  {
    if from == |fs| then None else if fs[from].Some? then Some(from) else FirstFocus(fs, from + 1)
  }

  // ----- what every operation keeps -----

  /** The vectors are aligned, every client stands at one place, no column is empty,
      every column remembers a client, and a column is focused unless there is none. */
  ghost predicate Sound(x: Strip) { Once(x.columns) && Shaped(x) }

  ghost predicate Shaped(x: Strip) {
    && Aligned(x)
    && (forall i :: 0 <= i < |x.columns| ==> x.columns[i] != [] && x.focuses[i].Some?)
    && (x.focused.Some? <==> x.columns != [])
    && (x.focused.Some? ==> x.focused.value < |x.columns|)
  }

  /** Column `i` remembers a client that it does not hold. */
  ghost predicate Stale(x: Strip, i: nat) {
    i < |x.columns| && i < |x.focuses| && x.focuses[i].Some? && x.focuses[i].value !in x.columns[i]
  }

  /** Sound, and every column remembers one of its own clients. */
  ghost predicate Settled(x: Strip) { Sound(x) && forall i: nat :: !Stale(x, i) }

  lemma {:induction false} FlatKept(cols: seq<seq<Key>>, n: nat, kept: seq<seq<Key>>)
    requires n <= |cols| && |kept| == |Kept(cols, n)|
    requires forall j :: 0 <= j < |kept| ==> kept[j] == cols[Kept(cols, n)[j]]
    ensures Flat(kept) == Flat(cols[..n])
  {
    if n > 0 {
      FlatOneMore(cols, n - 1);
      if cols[n - 1] == [] {
        FlatKept(cols, n - 1, kept);
      } else {
        FlatKept(cols, n - 1, kept[..|kept| - 1]);
      }
    }
  }

  /** Compaction keeps every client, in order, and settles any strip without
      repetitions, whatever its widths and focuses were. */
  lemma RetainSettles(x: Strip)
    ensures Flat(Retain(x).columns) == Flat(x.columns)
    ensures Once(x.columns) ==> Settled(Retain(x))
  {
    var e, y := Ensured(x), Retain(x);
    FlatKept(e.columns, |e.columns|, y.columns);
    if Refocus(e, |e.columns|).Some? { KeptPlace(e.columns, |e.columns|, e.focused.value); }
    assert e.columns[..|e.columns|] == e.columns;
  }

  /** Where a column goes: one that is not empty keeps its clients and its width, stands
      after exactly the non-empty columns that were before it, remembers its old focus
      if that is still one of its clients and its first client if not, and stays
      focused if it was. */
  lemma RetainMoves(x: Strip, i: nat)
    requires i < |x.columns| && x.columns[i] != []
    ensures var y, j := Retain(x), NonEmpty(x.columns, i);
            && j < |y.columns| == |y.widths| == |y.focuses|
            && y.columns[j] == x.columns[i]
            && y.widths[j] == (if i < |x.widths| then x.widths[i] else 1.0)
            && y.focuses[j] == (if i < |x.focuses| && x.focuses[i].Some? && x.focuses[i].value in x.columns[i]
                                then x.focuses[i] else Some(x.columns[i][0]))
            && (x.focused == Some(i) ==> y.focused == Some(j))
  {
    var e := Ensured(x);
    KeptPlace(e.columns, |e.columns|, i);
  }

  /** Where the focus goes when its column is empty or gone: to the first column, if
      there is one. */
  lemma RetainRefocuses(x: Strip)
    requires x.focused.Some? ==> x.focused.value >= |x.columns| || x.columns[x.focused.value] == []
    ensures Retain(x).focused == if NonEmpty(x.columns, |x.columns|) > 0 then Some(0) else None
    ensures |Retain(x).columns| == NonEmpty(x.columns, |x.columns|)
  {
    var e := Ensured(x);
    KeptCount(e.columns, |e.columns|);
  }

  lemma EnsuredAligned(x: Strip)
    requires Aligned(x)
    ensures Ensured(x) == x
  {
    assert Ensured(x).widths == x.widths && Ensured(x).focuses == x.focuses;
  }

  /** A settled strip is compacted already. */
  lemma RetainIdle(x: Strip)
    requires Settled(x)
    ensures Retain(x) == x
  {
    EnsuredAligned(x);
    AllKept(x.columns, |x.columns|);
    if x.focused.Some? {
      AllKept(x.columns, x.focused.value);
      KeptCount(x.columns, x.focused.value);
    }
    forall i | 0 <= i < |x.columns| ensures Settle(x.columns[i], x.focuses[i]) == x.focuses[i] {
      assert !Stale(x, i);
    }
    CompactsOneWay(x, x);
  }

  lemma {:induction false} AllKept(cols: seq<seq<Key>>, n: nat)
    requires n <= |cols| && forall i :: 0 <= i < |cols| ==> cols[i] != []
    ensures |Kept(cols, n)| == n && forall j :: 0 <= j < n ==> Kept(cols, n)[j] == j
  {
    if n > 0 { AllKept(cols, n - 1); }
  }

  lemma PutAt(cols: seq<seq<Key>>, i: nat, k: Key)
    requires i < |cols|
    ensures multiset(Flat(cols[i := cols[i] + [k]])) == multiset(Flat(cols)) + multiset{k}
  {
    var grown := cols[i := cols[i] + [k]];
    Around(cols, i);
    Around(grown, i);
    assert grown[..i] == cols[..i] && grown[i + 1..] == cols[i + 1..];
  }

  /** An insertion adds exactly the client, once, and nothing if it is there. */
  lemma InsertAdds(x: Strip, k: Key)
    ensures k in Flat(x.columns) ==> Insert(x, k) == x
    ensures k !in Flat(x.columns) ==> multiset(Flat(Insert(x, k).columns)) == multiset(Flat(x.columns)) + multiset{k}
    ensures !x.attach && k !in Flat(x.columns) ==> Flat(Insert(x, k).columns) == Flat(x.columns) + [k]
  {
    if k !in Flat(x.columns) {
      var e := Ensured(x);
      if e.attach && FocusedIndex(e).Some? {
        PutAt(x.columns, FocusedIndex(e).value, k);
      } else {
        assert (x.columns + [[k]])[..|x.columns|] == x.columns;
      }
    }
  }

  lemma CountIs(cols: seq<seq<Key>>, k: Key)
    requires Once(cols)
    ensures multiset(Flat(cols))[k] == if k in Flat(cols) then 1 else 0
  {
    assert k in multiset(Flat(cols)) <==> k in Flat(cols);
  }

  lemma InsertCounts(x: Strip, k: Key)
    requires Once(x.columns)
    ensures Once(Insert(x, k).columns)
    ensures forall c :: c in Flat(Insert(x, k).columns) <==> c in Flat(x.columns) || c == k
  {
    InsertAdds(x, k);
    var y := Insert(x, k);
    forall c
      ensures multiset(Flat(y.columns))[c] <= 1
      ensures c in Flat(y.columns) <==> c in Flat(x.columns) || c == k
    {
      CountIs(x.columns, c);
      assert c in multiset(Flat(y.columns)) <==> c in Flat(y.columns);
    }
  }

  lemma InsertShaped(x: Strip, k: Key)
    requires Shaped(x)
    ensures Shaped(Insert(x, k))
  {
    EnsuredAligned(x);
  }

  lemma InsertFresh(x: Strip, k: Key, i: nat)
    requires Aligned(x) && !Stale(x, i)
    ensures !Stale(Insert(x, k), i)
  {
    EnsuredAligned(x);
  }

  lemma InsertKeeps(x: Strip, k: Key)
    requires Sound(x)
    ensures Sound(Insert(x, k)) && (Settled(x) ==> Settled(Insert(x, k)))
    ensures forall c :: c in Flat(Insert(x, k).columns) <==> c in Flat(x.columns) || c == k
  {
    InsertCounts(x, k);
    InsertShaped(x, k);
    if Settled(x) {
      forall i: nat ensures !Stale(Insert(x, k), i) { InsertFresh(x, k, i); }
    }
  }

  lemma RememberKeeps(x: Strip, k: Key)
    requires Sound(x)
    ensures Sound(Remember(x, k)) && (Settled(x) ==> Settled(Remember(x, k)))
    ensures Remember(x, k).columns == x.columns && Remember(x, k).widths == x.widths
    ensures k in Flat(x.columns) ==>
              var y := Remember(x, k);
              y.focused.Some? && k in y.columns[y.focused.value] && y.focuses[y.focused.value] == Some(k)
  {
    EnsuredAligned(x);
    FlatHas(x.columns, k);
    var y := Remember(x, k);
    if Settled(x) {
      forall i: nat ensures !Stale(y, i) { assert !Stale(x, i); }
    }
  }

  // ----- synchronisation -----

  lemma {:induction false} OnlyCounts(col: seq<Key>, visible: seq<Key>, k: Key)
    ensures multiset(Only(col, visible))[k] == if k in visible then multiset(col)[k] else 0
  {
    if col != [] {
      var n := |col| - 1;
      OnlyCounts(col[..n], visible, k);
      assert col == col[..n] + [col[n]];
    }
  }

  lemma {:induction false} OnlyAllCounts(cols: seq<seq<Key>>, visible: seq<Key>, k: Key)
    ensures multiset(Flat(OnlyAll(cols, visible)))[k] == if k in visible then multiset(Flat(cols))[k] else 0
  {
    if cols != [] {
      var n := |cols| - 1;
      OnlyAllCounts(cols[..n], visible, k);
      OnlyCounts(cols[n], visible, k);
      assert OnlyAll(cols, visible)[..n] == OnlyAll(cols[..n], visible);
    }
  }

  lemma {:induction false} StrangersHas(visible: seq<Key>, present: seq<Key>, k: Key)
    ensures k in Strangers(visible, present) <==> k in visible && k !in present
  {
    if visible != [] {
      var n := |visible| - 1;
      StrangersHas(visible[..n], present, k);
      assert visible == visible[..n] + [visible[n]];
    }
  }

  lemma {:induction false} InsertAllKeeps(x: Strip, ks: seq<Key>)
    requires Settled(x)
    ensures Settled(InsertAll(x, ks)) && forall c :: c in Flat(InsertAll(x, ks).columns) <==>
        c in Flat(x.columns) || c in ks
  {
    if ks != [] {
      var n := |ks| - 1;
      InsertAllKeeps(x, ks[..n]);
      InsertKeeps(InsertAll(x, ks[..n]), ks[n]);
      assert ks == ks[..n] + [ks[n]];
    }
  }

  /** Synchronisation: from any strip without repetitions the result is settled and
      holds exactly the visible clients, each once, however often one is listed. */
  lemma SyncHoldsVisible(x: Strip, visible: seq<Key>)
    requires Once(x.columns)
    ensures Settled(Sync(x, visible))
    ensures forall k :: multiset(Flat(Sync(x, visible).columns))[k] == if k in visible then 1 else 0
  {
    var f := Filtered(x, visible);
    forall k ensures multiset(Flat(f.columns))[k] == if k in visible then multiset(Flat(x.columns))[k] else 0 {
      OnlyAllCounts(x.columns, visible, k);
    }
    RetainSettles(f);
    var r := Retain(f);
    var added := Strangers(visible, Flat(r.columns));
    InsertAllKeeps(r, added);
    var y := Sync(x, visible);
    forall k ensures multiset(Flat(y.columns))[k] == if k in visible then 1 else 0 {
      StrangersHas(visible, Flat(r.columns), k);
      CountIs(r.columns, k);
      CountIs(y.columns, k);
    }
  }
}
