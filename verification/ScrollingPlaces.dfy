/** Where every call on the strip leaves each column: its clients in order, its width,
    its remembered client and its place. */
module ScrollingPlaces {
  import opened Wrappers
  import opened ScrollingStrip
  import opened ScrollingCommands

  // ----- columns before and after -----

  /** The width a column is treated as having, also when the vector is too short. */
  function WidthAt(x: Strip, i: nat): real { if i < |x.widths| then x.widths[i] else 1.0 }

  function FocusAt(x: Strip, i: nat): Option<Key> { if i < |x.focuses| then x.focuses[i] else None }

  /** Column `j` of `y` is column `i` of `x`, with its width and its focus. */
  ghost predicate SameColumn(x: Strip, i: nat, y: Strip, j: nat) {
    && i < |x.columns| && j < |y.columns| && j < |y.widths| && j < |y.focuses|
    && y.columns[j] == x.columns[i] && y.widths[j] == WidthAt(x, i) && y.focuses[j] == FocusAt(x, i)
  }

  /** Column `j` of `y` has these clients, this width and this focus. */
  ghost predicate ColumnIs(y: Strip, j: int, col: seq<Key>, width: real, focus: Option<Key>) {
    && 0 <= j < |y.columns| && j < |y.widths| && j < |y.focuses|
    && y.columns[j] == col && y.widths[j] == width && y.focuses[j] == focus
  }

  /** `c` is the first column that holds the client. */
  ghost predicate FirstColumn(cols: seq<seq<Key>>, k: Key, c: nat) {
    c < |cols| && k in cols[c] && forall i :: 0 <= i < c ==> k !in cols[i]
  }

  ghost predicate Nowhere(cols: seq<seq<Key>>, k: Key) {
    forall i :: 0 <= i < |cols| ==> k !in cols[i]
  }

  lemma PositionIs(cols: seq<seq<Key>>, k: Key, c: nat)
    ensures FirstColumn(cols, k, c) ==> Position(cols, k, 0) == c
    ensures Nowhere(cols, k) ==> Position(cols, k, 0) == |cols|
  {
  }

  // ----- moving -----

  /** Columns `c` and `d` have changed places, and nothing else but the focus has. */
  ghost predicate Exchanged(x: Strip, y: Strip, c: nat, d: nat) {
    && |y.columns| == |y.widths| == |y.focuses| == |x.columns| && y.attach == x.attach
    && SameColumn(x, c, y, d) && SameColumn(x, d, y, c)
    && forall i: nat :: i < |x.columns| && i != c && i != d ==> SameColumn(x, i, y, i)
  }

  /** A move exchanges the client's column with its right or left neighbour, which takes
      clients, width and focus along, and focuses it; at the end of the strip it does
      nothing. */
  lemma MoveExchanges(x: Strip, k: Key, c: nat)
    requires FirstColumn(x.columns, k, c)
    ensures c + 1 < |x.columns| ==>
              Exchanged(x, Move(x, k, true), c, c + 1) && Move(x, k, true).focused == Some(c + 1)
    ensures c > 0 ==> Exchanged(x, Move(x, k, false), c, c - 1) && Move(x, k, false).focused == Some(c - 1)
    ensures c + 1 == |x.columns| ==> Move(x, k, true) == x
    ensures c == 0 ==> Move(x, k, false) == x
  {
    PositionIs(x.columns, k, c);
  }

  // ----- remembering and resizing -----

  /** Only the first column that holds the client is touched. */
  lemma RememberSets(x: Strip, k: Key, c: nat)
    requires FirstColumn(x.columns, k, c)
    ensures var y := Remember(x, k);
            && |y.columns| == |y.widths| == |y.focuses| == |x.columns| && y.attach == x.attach
            && ColumnIs(y, c, x.columns[c], WidthAt(x, c), Some(k)) && y.focused == Some(c)
            && forall i: nat :: i < |x.columns| && i != c ==> SameColumn(x, i, y, i)
  {
    PositionIs(x.columns, k, c);
  }

  lemma SetWidthSets(x: Strip, k: Key, factor: real, c: nat)
    requires FirstColumn(x.columns, k, c)
    ensures var y := SetWidth(x, k, factor);
            && |y.columns| == |y.widths| == |y.focuses| == |x.columns|
            && y.focused == x.focused && y.attach == x.attach
            && ColumnIs(y, c, x.columns[c], factor, FocusAt(x, c))
            && forall i: nat :: i < |x.columns| && i != c ==> SameColumn(x, i, y, i)
  {
    PositionIs(x.columns, k, c);
  }

  /** A client that is nowhere in the strip moves nothing. */
  lemma StrangerMovesNothing(x: Strip, k: Key, right: bool, factor: real)
    requires Nowhere(x.columns, k)
    ensures Move(x, k, right) == Expel(x, k, right) == SetWidth(x, k, factor) == x
    ensures Consume(x, k, right) == Remember(x, k) == Ensured(x)
  {
    PositionIs(x.columns, k, 0);
  }

  // ----- inserting -----

  /** In attach mode a new client goes to the end of the focused column, else it opens a
      column of its own, of the default width, at the end of the strip; it is focused
      either way. */
  lemma InsertPlaces(x: Strip, k: Key)
    requires k !in Flat(x.columns)
    ensures var y := Insert(x, k);
            && y.attach == x.attach && |y.columns| == |y.widths| == |y.focuses|
            && if x.attach && x.focused.Some? && x.focused.value < |x.columns| then
                 var c := x.focused.value;
                 && |y.columns| == |x.columns| && y.focused == Some(c)
                 && ColumnIs(y, c, x.columns[c] + [k], WidthAt(x, c), Some(k))
                 && forall i: nat :: i < |x.columns| && i != c ==> SameColumn(x, i, y, i)
               else
                 && |y.columns| == |x.columns| + 1 && y.focused == Some(|x.columns|)
                 && ColumnIs(y, |x.columns|, [k], 1.0, Some(k))
                 && forall i: nat :: i < |x.columns| ==> SameColumn(x, i, y, i)
  {
  }

  // ----- merging -----

  /** Column numbers after column `c` has gone, if it has. */
  function Closed(i: nat, c: nat, gone: bool): int { if gone && i > c then i - 1 else i }

  lemma {:induction false} NonEmptyBut(cols: seq<seq<Key>>, n: nat, c: nat)
    requires n <= |cols| && c < |cols| && forall i :: 0 <= i < |cols| && i != c ==> cols[i] != []
    ensures NonEmpty(cols, n) == Closed(n, c, cols[c] == [])
  {
    if n > 0 { NonEmptyBut(cols, n - 1, c); }
  }

  lemma IndexOfIs(cols: seq<seq<Key>>, c: nat, p: nat)
    requires Once(cols) && c < |cols| && p < |cols[c]|
    ensures IndexOf(cols[c], cols[c][p]) == p
    ensures FirstColumn(cols, cols[c][p], c)
    ensures forall t :: 0 <= t < |cols| && t != c ==> cols[c][p] !in cols[t]
  {
    OncePlaces(cols, c, IndexOf(cols[c], cols[c][p]), c, p);
    forall t | 0 <= t < |cols| && t != c ensures cols[c][p] !in cols[t] {
      if cols[c][p] in cols[t] {
        var q :| 0 <= q < |cols[t]| && cols[t][q] == cols[c][p];
        OncePlaces(cols, c, p, t, q);
      }
    }
  }

  lemma DroppedIsGone(cols: seq<seq<Key>>, c: nat, p: nat)
    requires Once(cols) && c < |cols| && p < |cols[c]|
    ensures cols[c][p] !in Drop(cols[c], p)
  {
    DropLoses(cols, c, p);
  }

  /** The strip between the edit of a merge and its compaction. */
  ghost predicate Between(x: Strip, z: Strip, c: nat, p: nat, t: nat)
    requires c < |x.columns| && p < |x.columns[c]| && t < |x.columns| && t != c && Aligned(x)
  {
    var k := x.columns[c][p];
    && Aligned(z) && z.columns == x.columns[c := Drop(x.columns[c], p)][t := x.columns[t] + [k]]
    && z.widths == x.widths && z.focused == Some(t) && z.attach == x.attach
    && z.focuses == x.focuses[c := Some(k)][t := Some(k)]
  }

  lemma MergeBetween(x: Strip, c: nat, p: nat, t: nat)
    requires Sound(x) && c < |x.columns| && p < |x.columns[c]| && t < |x.columns| && t != c
    ensures var k := x.columns[c][p];
            var r := Remember(x, k);
            k in r.columns[c] && Between(x, Remember(r.(columns := Shift(r.columns, k, c, t)), k), c, p, t)
  {
    var k := x.columns[c][p];
    IndexOfIs(x.columns, c, p);
    DroppedIsGone(x.columns, c, p);
    PositionIs(x.columns, k, c);
    EnsuredAligned(x);
    var r := Remember(x, k);
    var m := r.(columns := Shift(r.columns, k, c, t));
    PositionIs(m.columns, k, t);
    EnsuredAligned(m);
  }

  /** Column `j` of `y` is column `i` of `x`, but for a focus that was stale. */
  ghost predicate StillColumn(x: Strip, i: nat, y: Strip, j: int) {
    && i < |x.columns| && 0 <= j < |y.columns| && j < |y.widths| && j < |y.focuses|
    && y.columns[j] == x.columns[i] && y.widths[j] == WidthAt(x, i)
    && (!Stale(x, i) ==> y.focuses[j] == FocusAt(x, i))
  }

  /** What a merge of the client at place `p` of column `c` into column `t` amounts to:
      the client is the last one of `t` and remembered and focused there; it has left
      `c`, which goes if it was alone; every other column is as it was. */
  ghost predicate MergedInto(x: Strip, y: Strip, c: nat, p: nat, t: nat)
    requires c < |x.columns| && p < |x.columns[c]| && t < |x.columns|
  {
    var k, gone := x.columns[c][p], |x.columns[c]| == 1;
    && |y.columns| == |y.widths| == |y.focuses| == |x.columns| - (if gone then 1 else 0)
    && y.attach == x.attach && y.focused == Some(if gone && t > c then t - 1 else t)
    && ColumnIs(y, Closed(t, c, gone), x.columns[t] + [k], WidthAt(x, t), Some(k))
    && (!gone ==>
          y.columns[c] == x.columns[c][..p] + x.columns[c][p + 1..] && y.widths[c] == WidthAt(x, c))
    && (forall i: nat :: i < |x.columns| && i != c && i != t ==> StillColumn(x, i, y, Closed(i, c, gone)))
  }

  /** Compaction when at most column `c` is empty. */
  lemma RetainBut(z: Strip, c: nat, i: nat)
    requires Aligned(z) && c < |z.columns| && forall j :: 0 <= j < |z.columns| && j != c ==> z.columns[j] != []
    requires i < |z.columns| && z.columns[i] != []
    ensures var y, gone := Retain(z), z.columns[c] == [];
            && |y.columns| == |y.widths| == |y.focuses| == |z.columns| - (if gone then 1 else 0)
            && ColumnIs(y, Closed(i, c, gone), z.columns[i], z.widths[i], Settle(z.columns[i], z.focuses[i]))
            && (z.focused == Some(i) ==> y.focused == Some(Closed(i, c, gone)))
  {
    NonEmptyBut(z.columns, i, c);
    NonEmptyBut(z.columns, |z.columns|, c);
    EnsuredAligned(z);
    KeptCount(z.columns, |z.columns|);
    RetainMoves(z, i);
  }

  lemma TargetAfter(x: Strip, z: Strip, c: nat, p: nat, t: nat)
    requires Sound(x) && c < |x.columns| && p < |x.columns[c]| && t < |x.columns| && t != c && Between(x, z, c, p, t)
    ensures var y, gone := Retain(z), |x.columns[c]| == 1;
            && |y.columns| == |y.widths| == |y.focuses| == |x.columns| - (if gone then 1 else 0)
            && y.attach == x.attach && y.focused == Some(if gone && t > c then t - 1 else t)
            && ColumnIs(y, Closed(t, c, gone), x.columns[t] + [x.columns[c][p]], WidthAt(x, t), Some(x.columns[c][p]))
  {
    assert z.columns[c] == Drop(x.columns[c], p) && z.columns[t] == x.columns[t] + [x.columns[c][p]];
    RetainBut(z, c, t);
  }

  lemma SourceAfter(x: Strip, z: Strip, c: nat, p: nat, t: nat)
    requires Sound(x) && c < |x.columns| && p < |x.columns[c]| && t < |x.columns| && t != c && Between(x, z, c, p, t)
    requires |x.columns[c]| > 1
    ensures var y := Retain(z);
            && c < |y.columns| && c < |y.widths|
            && y.columns[c] == x.columns[c][..p] + x.columns[c][p + 1..] && y.widths[c] == WidthAt(x, c)
  {
    assert z.columns[c] == Drop(x.columns[c], p);
    RetainBut(z, c, c);
  }

  lemma OtherAfter(x: Strip, z: Strip, c: nat, p: nat, t: nat, i: nat)
    requires Sound(x) && c < |x.columns| && p < |x.columns[c]| && t < |x.columns| && t != c && Between(x, z, c, p, t)
    requires i < |x.columns| && i != c && i != t
    ensures StillColumn(x, i, Retain(z), Closed(i, c, |x.columns[c]| == 1))
  {
    assert z.columns[c] == Drop(x.columns[c], p) && z.columns[i] == x.columns[i] && z.focuses[i] == x.focuses[i];
    RetainBut(z, c, i);
  }

  lemma MergePlaces(x: Strip, c: nat, p: nat, t: nat)
    requires Sound(x) && c < |x.columns| && p < |x.columns[c]| && t < |x.columns| && t != c
    ensures var k := x.columns[c][p];
            k in Remember(x, k).columns[c] && MergedInto(x, Merge(Remember(x, k), k, c, t), c, p, t)
  {
    var k := x.columns[c][p];
    MergeBetween(x, c, p, t);
    var r := Remember(x, k);
    var z := Remember(r.(columns := Shift(r.columns, k, c, t)), k);
    TargetAfter(x, z, c, p, t);
    if |x.columns[c]| > 1 { SourceAfter(x, z, c, p, t); }
    var gone := |x.columns[c]| == 1;
    forall i: nat | i < |x.columns| && i != c && i != t ensures StillColumn(x, i, Retain(z), Closed(i, c, gone)) {
      OtherAfter(x, z, c, p, t, i);
    }
  }

  /** Consuming to the right merges into the right neighbour, consuming to the left into
      the left one; without that neighbour the client is only remembered. */
  lemma ConsumeMerges(x: Strip, c: nat, p: nat, right: bool)
    requires Sound(x) && c < |x.columns| && p < |x.columns[c]|
    ensures var y := Consume(x, x.columns[c][p], right);
            if right && c + 1 < |x.columns| then MergedInto(x, y, c, p, c + 1)
            else if !right && c > 0 then MergedInto(x, y, c, p, c - 1)
            else y == Remember(x, x.columns[c][p])
  {
    var k := x.columns[c][p];
    IndexOfIs(x.columns, c, p);
    PositionIs(x.columns, k, c);
    RememberColumns(x, k);
    if if right then c + 1 < |x.columns| else c > 0 {
      var t := if right then c + 1 else c - 1;
      MergePlaces(x, c, p, t);
      assert Consume(x, k, right) == Merge(Remember(x, k), k, c, t);
    }
  }

  // ----- expelling and dropping -----

  /** Where a column stands after one was inserted at `at`. */
  function Shifted(i: nat, at: nat): nat { if i < at then i else i + 1 }

  lemma OpenPlaces(x: Strip, at: nat, k: Key, width: real)
    requires Aligned(x) && at <= |x.columns|
    ensures var y := OpenColumn(x, at, k, width);
            && |y.columns| == |y.widths| == |y.focuses| == |x.columns| + 1
            && y.focused == Some(at) && y.attach == x.attach
            && ColumnIs(y, at, [k], width, Some(k))
            && forall i: nat :: i < |x.columns| ==> SameColumn(x, i, y, Shifted(i, at))
  {
  }

  /** A client that shares its column gets one of its own, as wide, on the side asked
      for, and focused; its old column keeps the others in order, its width and even
      its memory; all other columns are as they were. */
  ghost predicate Expelled(x: Strip, y: Strip, c: nat, p: nat, own: nat, left: nat)
    requires c < |x.columns| && p < |x.columns[c]|
  {
    && |y.columns| == |y.widths| == |y.focuses| == |x.columns| + 1
    && y.attach == x.attach && y.focused == Some(own)
    && ColumnIs(y, own, [x.columns[c][p]], WidthAt(x, c), Some(x.columns[c][p]))
    && ColumnIs(y, left, x.columns[c][..p] + x.columns[c][p + 1..], WidthAt(x, c), FocusAt(x, c))
    && (forall i: nat :: i < |x.columns| && i != c ==> SameColumn(x, i, y, Shifted(i, c)))
  }

  lemma ExpelPlaces(x: Strip, c: nat, p: nat)
    requires Once(x.columns) && c < |x.columns| && p < |x.columns[c]|
    ensures var k := x.columns[c][p];
            if |x.columns[c]| > 1 then
              && Expelled(x, Expel(x, k, true), c, p, c + 1, c)
              && Expelled(x, Expel(x, k, false), c, p, c, c + 1)
            else Expel(x, k, true) == Expel(x, k, false) == x
  {
    var k := x.columns[c][p];
    IndexOfIs(x.columns, c, p);
    PositionIs(x.columns, k, c);
    if |x.columns[c]| > 1 {
      ExpelSide(x, c, p, true);
      ExpelSide(x, c, p, false);
    }
  }

  lemma ExpelSide(x: Strip, c: nat, p: nat, right: bool)
    requires c < |x.columns| && p < |x.columns[c]| && |x.columns[c]| > 1
    requires Position(x.columns, x.columns[c][p], 0) == c && IndexOf(x.columns[c], x.columns[c][p]) == p
    ensures Expelled(x, Expel(x, x.columns[c][p], right), c, p, if right then c + 1 else c, if right then c else c + 1)
  {
    var k, e, at := x.columns[c][p], Ensured(x), if right then c + 1 else c;
    var z := TakeOut(e, c, k);
    OpenPlaces(z, at, k, e.widths[c]);
    assert Expel(x, k, right) == OpenColumn(z, at, k, e.widths[c]);
    OpenOverTakeOut(x, c, p, OpenColumn(z, at, k, e.widths[c]), at);
  }

  lemma OpenOverTakeOut(x: Strip, c: nat, p: nat, y: Strip, at: nat)
    requires c < |x.columns| && p < |x.columns[c]| && at in {c, c + 1}
    requires IndexOf(x.columns[c], x.columns[c][p]) == p
    requires var z := TakeOut(Ensured(x), c, x.columns[c][p]);
             forall i: nat :: i < |x.columns| ==> SameColumn(z, i, y, Shifted(i, at))
    ensures ColumnIs(y, Shifted(c, at), x.columns[c][..p] + x.columns[c][p + 1..], WidthAt(x, c), FocusAt(x, c))
    ensures forall i: nat :: i < |x.columns| && i != c ==> SameColumn(x, i, y, Shifted(i, c))
  {
    var z := TakeOut(Ensured(x), c, x.columns[c][p]);
    assert SameColumn(z, c, y, Shifted(c, at));
    forall i: nat | i < |x.columns| && i != c ensures SameColumn(x, i, y, Shifted(i, c)) {
      assert SameColumn(z, i, y, Shifted(i, at)) && Shifted(i, at) == Shifted(i, c);
    }
  }

  /** Taking a client out of a list that may hold it once. */
  lemma {:induction false} ExceptIs(col: seq<Key>, k: Key, p: nat)
    requires p <= |col| && k !in col[..p] && (p < |col| ==> col[p] == k && k !in col[p + 1..])
    ensures Except(col, k) == if p == |col| then col else col[..p] + col[p + 1..]
  {
    if col != [] {
      var n := |col| - 1;
      assert col == col[..n] + [col[n]];
      if p < n {
        assert col[p + 1..] == col[..n][p + 1..] + [col[n]];
        assert col[..n][..p] == col[..p];
        ExceptIs(col[..n], k, p);
      } else {
        assert col[..p] == if p == n then col[..n] else col;
        assert col[..n][..n] == col[..n];
        ExceptIs(col[..n], k, n);
      }
    }
  }

  lemma {:induction false} ExceptAllAt(cols: seq<seq<Key>>, k: Key, i: nat)
    requires i < |cols|
    ensures ExceptAll(cols, k)[i] == Except(cols[i], k)
  {
    if i < |cols| - 1 { ExceptAllAt(cols[..|cols| - 1], k, i); }
  }

  /** A dropped client opens a column of the given width at the given place, or at the
      end, and is focused; every column that has other clients keeps them in order, with
      its width, and the columns stay in order. */
  lemma DropInPlaces(x: Strip, k: Key, width: real, index: nat, i: nat)
    requires i < |x.columns| && Except(x.columns[i], k) != []
    ensures var y, rest := DropIn(x, k, width, index), ExceptAll(x.columns, k);
            var at := if index < NonEmpty(rest, |rest|) then index else NonEmpty(rest, |rest|);
            var j := Shifted(NonEmpty(rest, i), at);
            && y.focused == Some(at) && ColumnIs(y, at, [k], width, Some(k))
            && j < |y.columns| == |y.widths| == |y.focuses| == NonEmpty(rest, |rest|) + 1
            && y.columns[j] == Except(x.columns[i], k) && y.widths[j] == WidthAt(x, i)
  {
    var f := Ensured(x).(columns := ExceptAll(x.columns, k));
    var r := Retain(f);
    EnsuredAligned(f);
    KeptCount(f.columns, |f.columns|);
    ExceptAllAt(x.columns, k, i);
    RetainMoves(f, i);
    OpenPlaces(r, if index < |r.columns| then index else |r.columns|, k, width);
    assert SameColumn(r, NonEmpty(f.columns, i), DropIn(x, k, width, index),
        Shifted(NonEmpty(f.columns, i), if index < |r.columns| then index else |r.columns|));
  }

  // ----- synchronising -----

  lemma {:induction false} OnlySplit(a: seq<Key>, b: seq<Key>, visible: seq<Key>)
    ensures Only(a + b, visible) == Only(a, visible) + Only(b, visible)
  {
    if b == [] {
      assert a + b == a;
    } else {
      var n := |b| - 1;
      OnlySplit(a, b[..n], visible);
      assert (a + b)[..|a + b| - 1] == a + b[..n];
    }
  }

  lemma {:induction false} OnlyFlat(cols: seq<seq<Key>>, visible: seq<Key>)
    ensures Flat(OnlyAll(cols, visible)) == Only(Flat(cols), visible)
  {
    if cols != [] {
      var n := |cols| - 1;
      OnlyFlat(cols[..n], visible);
      OnlySplit(Flat(cols[..n]), cols[n], visible);
      assert OnlyAll(cols, visible)[..n] == OnlyAll(cols[..n], visible);
    }
  }

  /** Filtering keeps the visible clients in their order: those on either side of one of
      them stay on that side. */
  lemma OnlyKeepsOrder(col: seq<Key>, visible: seq<Key>, i: nat)
    requires i < |col|
    ensures Only(col, visible) ==
            Only(col[..i], visible) + (if col[i] in visible then [col[i]] else []) + Only(col[i + 1..], visible)
  {
    assert col == col[..i] + ([col[i]] + col[i + 1..]);
    OnlySplit(col[..i], [col[i]] + col[i + 1..], visible);
    OnlySplit([col[i]], col[i + 1..], visible);
    assert [col[i]][..0] == [];
  }

  lemma {:induction false} StrangersSplit(a: seq<Key>, b: seq<Key>, present: seq<Key>)
    ensures Strangers(a + b, present) == Strangers(a, present) + Strangers(b, present)
  {
    if b == [] {
      assert a + b == a;
    } else {
      var n := |b| - 1;
      StrangersSplit(a, b[..n], present);
      assert (a + b)[..|a + b| - 1] == a + b[..n];
    }
  }

  /** The new clients come in the order in which they are listed. */
  lemma StrangersKeepOrder(visible: seq<Key>, present: seq<Key>, i: nat)
    requires i < |visible|
    ensures Strangers(visible, present) ==
            Strangers(visible[..i], present) + (if visible[i] in present then [] else [visible[i]])
            + Strangers(visible[i + 1..], present)
  {
    assert visible == visible[..i] + ([visible[i]] + visible[i + 1..]);
    StrangersSplit(visible[..i], [visible[i]] + visible[i + 1..], present);
    StrangersSplit([visible[i]], visible[i + 1..], present);
    assert [visible[i]][..0] == [];
  }

  lemma {:induction false} StrangersDistinct(visible: seq<Key>, present: seq<Key>)
    requires Distinct(visible)
    ensures Distinct(Strangers(visible, present))
  {
    if visible != [] {
      var n := |visible| - 1;
      StrangersDistinct(visible[..n], present);
      StrangersHas(visible[..n], present, visible[n]);
      assert visible[n] !in visible[..n];
    }
  }

  lemma OnlyHas(col: seq<Key>, visible: seq<Key>, k: Key)
    ensures k in Only(col, visible) <==> k in col && k in visible
  {
    OnlyCounts(col, visible, k);
    assert k in multiset(Only(col, visible)) <==> k in Only(col, visible);
    assert k in multiset(col) <==> k in col;
  }

  lemma {:induction false} StrangersAgree(visible: seq<Key>, a: seq<Key>, b: seq<Key>)
    requires forall k :: k in visible ==> (k in a <==> k in b)
    ensures Strangers(visible, a) == Strangers(visible, b)
  {
    if visible != [] {
      var n := |visible| - 1;
      assert visible == visible[..n] + [visible[n]];
      StrangersAgree(visible[..n], a, b);
    }
  }

  /** Without attach mode new clients open columns of their own, one after the other. */
  lemma {:induction false} InsertAllOpens(x: Strip, ks: seq<Key>)
    requires !x.attach && Distinct(ks) && forall k :: k in ks ==> k !in Flat(x.columns)
    ensures !InsertAll(x, ks).attach
    ensures Flat(InsertAll(x, ks).columns) == Flat(x.columns) + ks
  {
    if ks != [] {
      var n := |ks| - 1;
      assert ks == ks[..n] + [ks[n]];
      InsertAllOpens(x, ks[..n]);
      assert ks[n] !in ks[..n];
      InsertAdds(InsertAll(x, ks[..n]), ks[n]);
    }
  }

  /** So a synchronised strip reads: the old clients that are still visible, in their
      order, then the new ones in the order in which they are listed. */
  lemma SyncReads(x: Strip, visible: seq<Key>)
    requires !x.attach && Distinct(visible)
    ensures Flat(Sync(x, visible).columns) == Only(Flat(x.columns), visible) + Strangers(visible, Flat(x.columns))
  {
    var f := Filtered(x, visible);
    var r := Retain(f);
    RetainSettles(f);
    OnlyFlat(x.columns, visible);
    forall k | k in visible ensures k in Flat(r.columns) <==> k in Flat(x.columns) {
      OnlyHas(Flat(x.columns), visible, k);
    }
    StrangersAgree(visible, Flat(r.columns), Flat(x.columns));
    var added := Strangers(visible, Flat(r.columns));
    StrangersDistinct(visible, Flat(r.columns));
    forall k | k in added ensures k !in Flat(r.columns) { StrangersHas(visible, Flat(r.columns), k); }
    InsertAllOpens(r, added);
  }

  lemma {:induction false} InsertAllGrows(x: Strip, ks: seq<Key>, j: nat)
    requires Aligned(x) && j < |x.columns|
    ensures var y := InsertAll(x, ks);
            && Aligned(y) && j < |y.columns| && x.columns[j] <= y.columns[j] && y.widths[j] == x.widths[j]
  {
    if ks != [] {
      InsertAllGrows(x, ks[..|ks| - 1], j);
      EnsuredAligned(InsertAll(x, ks[..|ks| - 1]));
    }
  }

  lemma {:induction false} OnlyAllAt(cols: seq<seq<Key>>, visible: seq<Key>, i: nat)
    requires i < |cols|
    ensures OnlyAll(cols, visible)[i] == Only(cols[i], visible)
  {
    if i < |cols| - 1 { OnlyAllAt(cols[..|cols| - 1], visible, i); }
  }

  /** A column with a visible client keeps its visible clients in front and its width,
      and stands after exactly those columns before it that also have one. */
  lemma SyncPlaces(x: Strip, visible: seq<Key>, i: nat)
    requires i < |x.columns| && Only(x.columns[i], visible) != []
    ensures var y, j := Sync(x, visible), NonEmpty(OnlyAll(x.columns, visible), i);
            && j < |y.columns| && j < |y.widths|
            && Only(x.columns[i], visible) <= y.columns[j] && y.widths[j] == WidthAt(x, i)
  {
    var f := Filtered(x, visible);
    var r := Retain(f);
    EnsuredAligned(f);
    OnlyAllAt(x.columns, visible, i);
    RetainMoves(f, i);
    InsertAllGrows(r, Strangers(visible, Flat(r.columns)), NonEmpty(f.columns, i));
  }
}
