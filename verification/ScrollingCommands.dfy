/** The commands that edit the strip through its vectors: moving, merging, expelling,
    dropping and resizing columns. */
module ScrollingCommands {
  import opened Wrappers
  import opened ScrollingStrip

  // ----- edits of a vector -----

  function Drop<T>(s: seq<T>, i: nat): seq<T>
    requires i < |s|
  {
    s[..i] + s[i + 1..]
  }

  function InsertAt<T>(s: seq<T>, i: nat, v: T): seq<T>
    requires i <= |s|
  {
    s[..i] + [v] + s[i..]
  }

  function Swapped<T>(s: seq<T>, i: nat, j: nat): seq<T>
    requires i < |s| && j < |s|
  {
    s[i := s[j]][j := s[i]]
  }

  function IndexOf(col: seq<Key>, k: Key): (i: nat)
    requires k in col
    ensures i < |col| && col[i] == k
  {
    if col[0] == k then 0 else 1 + IndexOf(col[1..], k)
  }

  function Except(col: seq<Key>, k: Key): seq<Key> {
    if col == [] then []
    else
      var rest, last := Except(col[..|col| - 1], k), col[|col| - 1];
      if last == k then rest else rest + [last]
  }

  function ExceptAll(cols: seq<seq<Key>>, k: Key): (r: seq<seq<Key>>)
    ensures |r| == |cols|
  {
    if cols == [] then [] else ExceptAll(cols[..|cols| - 1], k) + [Except(cols[|cols| - 1], k)]
  }

  // ----- the commands on values -----

  /** The column next to `c` in a direction, if there is one. */
  function Beside(n: nat, c: nat, right: bool): Option<nat>
    requires c < n
  {
    if right then (if c + 1 >= n then None else Some(c + 1)) else (if c == 0 then None else Some(c - 1))
  }

  function Move(x: Strip, k: Key, right: bool): Strip {
    var c := Position(x.columns, k, 0);
    if c == |x.columns| || Beside(|x.columns|, c, right).None? then x
    else
      var t, e := Beside(|x.columns|, c, right).value, Ensured(x);
      e.(columns := Swapped(e.columns, c, t), widths := Swapped(e.widths, c, t),
         focuses := Swapped(e.focuses, c, t), focused := Some(t))
  }

  /** Client `k` leaves column `c` for the end of column `t`. */
  function Shift(cols: seq<seq<Key>>, k: Key, c: nat, t: nat): seq<seq<Key>>
    requires c < |cols| && t < |cols| && k in cols[c]
  {
    var without := cols[c := Drop(cols[c], IndexOf(cols[c], k))];
    without[t := without[t] + [k]]
  }

  ghost function Consume(x: Strip, k: Key, right: bool): Strip {
    var r := Remember(x, k);
    var c := Position(r.columns, k, 0);
    if c == |r.columns| || Beside(|r.columns|, c, right).None? then r
    else Merge(r, k, c, Beside(|r.columns|, c, right).value)
  }

  ghost function Merge(r: Strip, k: Key, c: nat, t: nat): Strip
    requires c < |r.columns| && t < |r.columns| && k in r.columns[c]
  {
    Retain(Remember(r.(columns := Shift(r.columns, k, c, t)), k))
  }

  /** The command does something: the client shares its column. */
  predicate Expels(x: Strip, k: Key) {
    var c := Position(x.columns, k, 0);
    c < |x.columns| && |x.columns[c]| > 1
  }

  /** A new column for `k`, which becomes the focused one. */
  function OpenColumn(x: Strip, at: nat, k: Key, width: real): Strip
    requires Aligned(x) && at <= |x.columns|
  {
    x.(columns := InsertAt(x.columns, at, [k]), widths := InsertAt(x.widths, at, width),
       focuses := InsertAt(x.focuses, at, Some(k)), focused := Some(at))
  }

  /** Client `k` leaves column `c`. */
  function TakeOut(x: Strip, c: nat, k: Key): Strip
    requires c < |x.columns| && k in x.columns[c]
  {
    x.(columns := x.columns[c := Drop(x.columns[c], IndexOf(x.columns[c], k))])
  }

  function Expel(x: Strip, k: Key, right: bool): Strip {
    if !Expels(x, k) then x
    else
      var c, e := Position(x.columns, k, 0), Ensured(x);
      OpenColumn(TakeOut(e, c, k), if right then c + 1 else c, k, e.widths[c])
  }

  ghost function DropIn(x: Strip, k: Key, width: real, index: nat): Strip {
    var r := Retain(Ensured(x).(columns := ExceptAll(x.columns, k)));
    OpenColumn(r, if index < |r.columns| then index else |r.columns|, k, width)
  }

  function SetWidth(x: Strip, k: Key, factor: real): Strip {
    var c := Position(x.columns, k, 0);
    if c == |x.columns| then x else Ensured(x).(widths := Ensured(x).widths[c := factor])
  }

  // ----- the commands on the object -----

  method ScrollingMoveColumn(state: ScrollingState, k: Key, right: bool)
    modifies state
    ensures state.Value() == Move(old(state.Value()), k, right)
  {
    var c := Position(state.columns, k, 0);
    if c == |state.columns| || Beside(|state.columns|, c, right).None? { return; }
    var t := Beside(|state.columns|, c, right).value;
    state.EnsureColumnMetadata();
    state.columns := Swapped(state.columns, c, t);
    state.columnWidthFactors := Swapped(state.columnWidthFactors, c, t);
    state.focusedClients := Swapped(state.focusedClients, c, t);
    state.SetFocusedColumn(t);
  }

  method ScrollingConsume(state: ScrollingState, k: Key, right: bool)
    modifies state
    ensures state.Value() == Consume(old(state.Value()), k, right)
  {
    state.RememberFocus(k);
    var c := Position(state.columns, k, 0);
    if c == |state.columns| || Beside(|state.columns|, c, right).None? { return; }
    var t := Beside(|state.columns|, c, right).value;
    state.columns := state.columns[c := Drop(state.columns[c], IndexOf(state.columns[c], k))];
    state.columns := state.columns[t := state.columns[t] + [k]];
    state.RememberFocus(k);
    state.RetainNonEmptyColumns();
  }

  method ScrollingExpel(state: ScrollingState, k: Key, right: bool)
    modifies state
    ensures state.Value() == Expel(old(state.Value()), k, right)
  {
    var c := Position(state.columns, k, 0);
    if c == |state.columns| || |state.columns[c]| <= 1 { return; }
    state.EnsureColumnMetadata();
    state.columns := state.columns[c := Drop(state.columns[c], IndexOf(state.columns[c], k))];
    Open(state, if right then c + 1 else c, k, state.columnWidthFactors[c]);
  }

  method AttachScrolling(state: ScrollingState, k: Key, width: real, index: nat)
    modifies state
    ensures state.Value() == DropIn(old(state.Value()), k, width, index)
  {
    state.EnsureColumnMetadata();
    state.columns := ExceptAll(state.columns, k);
    state.RetainNonEmptyColumns();
    Open(state, if index < |state.columns| then index else |state.columns|, k, width);
  }

  method Open(state: ScrollingState, at: nat, k: Key, width: real)
    requires Aligned(state.Value()) && at <= |state.columns|
    modifies state
    ensures state.Value() == OpenColumn(old(state.Value()), at, k, width)
  {
    state.columns := InsertAt(state.columns, at, [k]);
    state.columnWidthFactors := InsertAt(state.columnWidthFactors, at, width);
    state.focusedClients := InsertAt(state.focusedClients, at, Some(k));
    state.focusedColumn := Some(at);
  }

  // ----- no command loses or doubles a client -----

  lemma AroundCounts(cols: seq<seq<Key>>, i: nat)
    requires i < |cols|
    ensures multiset(Flat(cols)) ==
            multiset(Flat(cols[..i])) + multiset(cols[i]) + multiset(Flat(cols[i + 1..]))
  {
    Around(cols, i);
  }

  lemma ReplaceCounts(cols: seq<seq<Key>>, i: nat, col: seq<Key>)
    requires i < |cols|
    ensures multiset(Flat(cols[i := col])) + multiset(cols[i]) == multiset(Flat(cols)) + multiset(col)
  {
    var other := cols[i := col];
    AroundCounts(cols, i);
    AroundCounts(other, i);
    assert other[..i] == cols[..i] && other[i + 1..] == cols[i + 1..];
  }

  lemma DropCounts(col: seq<Key>, i: nat)
    requires i < |col|
    ensures multiset(col) == multiset(Drop(col, i)) + multiset{col[i]}
  {
    assert col == col[..i] + [col[i]] + col[i + 1..];
  }

  lemma FlatDrop(cols: seq<seq<Key>>, c: nat, i: nat)
    requires c < |cols| && i < |cols[c]|
    ensures multiset(Flat(cols)) == multiset(Flat(cols[c := Drop(cols[c], i)])) + multiset{cols[c][i]}
  {
    var less, rest := cols[c := Drop(cols[c], i)], multiset(Drop(cols[c], i));
    ReplaceCounts(cols, c, Drop(cols[c], i));
    DropCounts(cols[c], i);
    assert multiset(Flat(less)) + (rest + multiset{cols[c][i]}) == (multiset(Flat(less)) + multiset{cols[c][i]}) + rest;
    Cancel(multiset(Flat(less)) + multiset{cols[c][i]}, multiset(Flat(cols)), rest);
  }

  lemma FlatInsertAt(cols: seq<seq<Key>>, i: nat, col: seq<Key>)
    requires i <= |cols|
    ensures multiset(Flat(InsertAt(cols, i, col))) == multiset(Flat(cols)) + multiset(col)
  {
    var more := InsertAt(cols, i, col);
    AroundCounts(more, i);
    assert more[..i] == cols[..i] && more[i + 1..] == cols[i..];
    FlatHalves(cols, i);
  }

  lemma FlatHalves(cols: seq<seq<Key>>, i: nat)
    requires i <= |cols|
    ensures multiset(Flat(cols)) == multiset(Flat(cols[..i])) + multiset(Flat(cols[i..]))
  {
    assert cols == cols[..i] + cols[i..];
    FlatSplit(cols[..i], cols[i..]);
  }

  lemma FlatSwapped(cols: seq<seq<Key>>, i: nat, j: nat)
    requires i < |cols| && j < |cols|
    ensures multiset(Flat(Swapped(cols, i, j))) == multiset(Flat(cols))
  {
    var mid := cols[i := cols[j]];
    ReplaceCounts(cols, i, cols[j]);
    ReplaceCounts(mid, j, cols[i]);
    assert mid[j] == cols[j];
    Cancel(multiset(Flat(Swapped(cols, i, j))), multiset(Flat(cols)), multiset(cols[j]));
  }

  lemma Cancel(a: multiset<Key>, b: multiset<Key>, m: multiset<Key>)
    requires a + m == b + m
    ensures a == b
  {
    assert a == (a + m) - m && b == (b + m) - m;
  }

  lemma {:induction false} ExceptCounts(col: seq<Key>, k: Key, c: Key)
    ensures multiset(Except(col, k))[c] == if c == k then 0 else multiset(col)[c]
  {
    if col != [] {
      var n := |col| - 1;
      ExceptCounts(col[..n], k, c);
      assert col == col[..n] + [col[n]];
    }
  }

  lemma {:induction false} ExceptAllCounts(cols: seq<seq<Key>>, k: Key, c: Key)
    ensures multiset(Flat(ExceptAll(cols, k)))[c] == if c == k then 0 else multiset(Flat(cols))[c]
  {
    if cols != [] {
      var n := |cols| - 1;
      ExceptAllCounts(cols[..n], k, c);
      ExceptCounts(cols[n], k, c);
      assert ExceptAll(cols, k)[..n] == ExceptAll(cols[..n], k);
    }
  }

  lemma MoveKeepsClients(x: Strip, k: Key, right: bool)
    ensures multiset(Flat(Move(x, k, right).columns)) == multiset(Flat(x.columns))
  {
    var c := Position(x.columns, k, 0);
    if c < |x.columns| && Beside(|x.columns|, c, right).Some? {
      var t := Beside(|x.columns|, c, right).value;
      FlatSwapped(x.columns, c, t);
    }
  }

  lemma ShiftCounts(cols: seq<seq<Key>>, k: Key, c: nat, t: nat)
    requires c < |cols| && t < |cols| && k in cols[c]
    ensures multiset(Flat(Shift(cols, k, c, t))) == multiset(Flat(cols))
  {
    FlatDrop(cols, c, IndexOf(cols[c], k));
    PutAt(cols[c := Drop(cols[c], IndexOf(cols[c], k))], t, k);
  }

  /** Merging keeps every client, and settles whatever has no repetitions. */
  lemma MergeSettles(r: Strip, k: Key, c: nat, t: nat)
    requires c < |r.columns| && t < |r.columns| && k in r.columns[c]
    ensures multiset(Flat(Merge(r, k, c, t).columns)) == multiset(Flat(r.columns))
    ensures Once(r.columns) ==> Settled(Merge(r, k, c, t))
  {
    ShiftCounts(r.columns, k, c, t);
    var m := r.(columns := Shift(r.columns, k, c, t));
    RememberColumns(m, k);
    RetainSettles(Remember(m, k));
  }

  lemma RememberColumns(x: Strip, k: Key)
    ensures Remember(x, k).columns == x.columns
  {
  }

  lemma ConsumeKeepsClients(x: Strip, k: Key, right: bool)
    ensures multiset(Flat(Consume(x, k, right).columns)) == multiset(Flat(x.columns))
  {
    var r := Remember(x, k);
    RememberColumns(x, k);
    var c := Position(r.columns, k, 0);
    if c < |r.columns| && Beside(|r.columns|, c, right).Some? {
      MergeSettles(r, k, c, Beside(|r.columns|, c, right).value);
    }
  }

  lemma ExpelKeepsClients(x: Strip, k: Key, right: bool)
    ensures multiset(Flat(Expel(x, k, right).columns)) == multiset(Flat(x.columns))
  {
    if Expels(x, k) {
      var c := Position(x.columns, k, 0);
      FlatDrop(x.columns, c, IndexOf(x.columns[c], k));
      FlatInsertAt(TakeOut(x, c, k).columns, if right then c + 1 else c, [k]);
    }
  }

  lemma DropInCounts(x: Strip, k: Key, width: real, index: nat, c: Key)
    ensures multiset(Flat(DropIn(x, k, width, index).columns))[c] == if c == k then 1 else multiset(Flat(x.columns))[c]
  {
    var f := Ensured(x).(columns := ExceptAll(x.columns, k));
    var r := Retain(f);
    RetainSettles(f);
    ExceptAllCounts(x.columns, k, c);
    FlatInsertAt(r.columns, if index < |r.columns| then index else |r.columns|, [k]);
  }

  // ----- what every run keeps -----

  datatype Op =
    | OpInsert(k: Key)
    | OpRemember(k: Key)
    | OpSetFocused(i: nat)
    | OpRetain
    | OpSync(visible: seq<Key>)
    | OpAttach(on: bool)
    | OpMove(k: Key, right: bool)
    | OpConsume(k: Key, right: bool)
    | OpExpel(k: Key, right: bool)
    | OpDropIn(k: Key, width: real, index: nat)
    | OpSetWidth(k: Key, factor: real)

  ghost function Apply(x: Strip, op: Op): Strip {
    match op
    case OpInsert(k) => Insert(x, k)
    case OpRemember(k) => Remember(x, k)
    case OpSetFocused(i) => SetFocused(x, i)
    case OpRetain => Retain(x)
    case OpSync(visible) => Sync(x, visible)
    case OpAttach(on) => x.(attach := on)
    case OpMove(k, right) => Move(x, k, right)
    case OpConsume(k, right) => Consume(x, k, right)
    case OpExpel(k, right) => Expel(x, k, right)
    case OpDropIn(k, width, index) => DropIn(x, k, width, index)
    case OpSetWidth(k, factor) => SetWidth(x, k, factor)
  }

  /** The expelled client is the one its old column remembers. */
  predicate Forgets(x: Strip, op: Op) {
    && op.OpExpel? && Expels(x, op.k)
    && Position(x.columns, op.k, 0) < |x.focuses| && x.focuses[Position(x.columns, op.k, 0)] == Some(op.k)
  }

  lemma MoveSteps(x: Strip, k: Key, right: bool)
    requires Sound(x)
    ensures Sound(Move(x, k, right)) && (Settled(x) ==> Settled(Move(x, k, right)))
  {
    MoveKeepsClients(x, k, right);
    EnsuredAligned(x);
    var y, c := Move(x, k, right), Position(x.columns, k, 0);
    if c < |x.columns| && Beside(|x.columns|, c, right).Some? && Settled(x) {
      var t := Beside(|x.columns|, c, right).value;
      forall i: nat ensures !Stale(y, i) { assert !Stale(x, if i == c then t else if i == t then c else i); }
    }
  }

  lemma ConsumeSteps(x: Strip, k: Key, right: bool)
    requires Sound(x)
    ensures Sound(Consume(x, k, right)) && (Settled(x) ==> Settled(Consume(x, k, right)))
  {
    RememberKeeps(x, k);
    var r := Remember(x, k);
    var c := Position(r.columns, k, 0);
    if c < |r.columns| && Beside(|r.columns|, c, right).Some? {
      MergeSettles(r, k, c, Beside(|r.columns|, c, right).value);
    }
  }

  lemma InsertAtIs<T>(s: seq<T>, at: nat, v: T, i: nat)
    requires at <= |s| && i <= |s|
    ensures |InsertAt(s, at, v)| == |s| + 1
    ensures InsertAt(s, at, v)[i] == if i < at then s[i] else if i == at then v else s[i - 1]
  {
  }

  lemma OpenShaped(x: Strip, at: nat, k: Key, width: real)
    requires Aligned(x) && at <= |x.columns|
    requires forall i :: 0 <= i < |x.columns| ==> x.columns[i] != [] && x.focuses[i].Some?
    ensures Shaped(OpenColumn(x, at, k, width))
  {
    var y := OpenColumn(x, at, k, width);
    forall i | 0 <= i < |y.columns| ensures y.columns[i] != [] && y.focuses[i].Some? {
      InsertAtIs(x.columns, at, [k], i);
      InsertAtIs(x.focuses, at, Some(k), i);
    }
  }

  /** The new column is not stale, and the others are as stale as they were. */
  lemma OpenStale(x: Strip, at: nat, k: Key, width: real, i: nat)
    requires Aligned(x) && at <= |x.columns|
    ensures Stale(OpenColumn(x, at, k, width), i) <==>
            (i < at && Stale(x, i)) || (i > at && Stale(x, i - 1))
  {
    if i <= |x.columns| {
      InsertAtIs(x.columns, at, [k], i);
      InsertAtIs(x.focuses, at, Some(k), i);
    }
  }

  lemma DropInSettles(x: Strip, k: Key, width: real, index: nat)
    requires Once(x.columns)
    ensures Settled(DropIn(x, k, width, index))
  {
    var f, y := Ensured(x).(columns := ExceptAll(x.columns, k)), DropIn(x, k, width, index);
    forall c ensures multiset(Flat(f.columns))[c] <= 1 && multiset(Flat(y.columns))[c] <= 1 {
      ExceptAllCounts(x.columns, k, c);
      DropInCounts(x, k, width, index, c);
    }
    RetainSettles(f);
    OpenSettled(Retain(f), if index < |Retain(f).columns| then index else |Retain(f).columns|, k, width);
  }

  lemma OpenSettled(x: Strip, at: nat, k: Key, width: real)
    requires Settled(x) && at <= |x.columns|
    ensures var y := OpenColumn(x, at, k, width); Shaped(y) && forall i: nat :: !Stale(y, i)
  {
    OpenShaped(x, at, k, width);
    forall i: nat ensures !Stale(OpenColumn(x, at, k, width), i) { OpenStale(x, at, k, width, i); }
  }

  lemma TakeOutStale(x: Strip, c: nat, k: Key, i: nat)
    requires Settled(x) && c < |x.columns| && k in x.columns[c]
    ensures Stale(TakeOut(x, c, k), i) <==> i == c && x.focuses[c] == Some(k)
  {
    DropLoses(x.columns, c, IndexOf(x.columns[c], k));
    assert !Stale(x, i);
  }

  lemma ExpelShaped(x: Strip, k: Key, right: bool)
    requires Shaped(x)
    ensures Shaped(Expel(x, k, right))
  {
    EnsuredAligned(x);
    if Expels(x, k) {
      var c := Position(x.columns, k, 0);
      OpenShaped(TakeOut(x, c, k), if right then c + 1 else c, k, x.widths[c]);
    }
  }

  /** After an expulsion the old column is stale iff it remembered the expelled client;
      no other column becomes stale. */
  lemma ExpelSteps(x: Strip, k: Key, right: bool)
    requires Sound(x)
    ensures Sound(Expel(x, k, right))
    ensures Settled(x) ==> (Settled(Expel(x, k, right)) <==> !Forgets(x, OpExpel(k, right)))
  {
    ExpelKeepsClients(x, k, right);
    ExpelShaped(x, k, right);
    if Settled(x) && Expels(x, k) { ExpelStale(x, k, right); }
  }

  lemma ExpelStale(x: Strip, k: Key, right: bool)
    requires Settled(x) && Expels(x, k)
    ensures (forall i: nat :: !Stale(Expel(x, k, right), i)) <==> !Forgets(x, OpExpel(k, right))
  {
    var c := Position(x.columns, k, 0);
    var z, at := TakeOut(x, c, k), if right then c + 1 else c;
    var left := if right then c else c + 1;
    EnsuredAligned(x);
    var y := Expel(x, k, right);
    assert y == OpenColumn(z, at, k, x.widths[c]);
    forall i: nat ensures Stale(y, i) <==> i == left && x.focuses[c] == Some(k) {
      OpenStale(z, at, k, x.widths[c], i);
      TakeOutStale(x, c, k, i);
      if i > 0 { TakeOutStale(x, c, k, i - 1); }
    }
    assert Stale(y, left) <==> Forgets(x, OpExpel(k, right));
  }

  lemma DropLoses(cols: seq<seq<Key>>, c: nat, i: nat)
    requires Once(cols) && c < |cols| && i < |cols[c]|
    ensures forall k :: k in Drop(cols[c], i) <==> k in cols[c] && k != cols[c][i]
  {
    var col := cols[c];
    forall j: nat | j < |col| ensures col[j] == col[i] <==> j == i { OncePlaces(cols, c, j, c, i); }
    forall k | k in col && k != col[i] ensures k in Drop(col, i) {
      var j :| 0 <= j < |col| && col[j] == k;
      assert Drop(col, i)[if j < i then j else j - 1] == k;
    }
  }

  lemma SetWidthSteps(x: Strip, k: Key, factor: real)
    requires Sound(x)
    ensures Sound(SetWidth(x, k, factor)) && (Settled(x) ==> Settled(SetWidth(x, k, factor)))
  {
    EnsuredAligned(x);
    forall i: nat ensures Stale(SetWidth(x, k, factor), i) == Stale(x, i) {}
  }

  /** What a call keeps: soundness always, and settledness unless it forgets. */
  ghost predicate Keeps(x: Strip, y: Strip, forgets: bool) {
    Sound(y) && (Settled(x) ==> (Settled(y) <==> !forgets))
  }

  lemma MoveKeeps(x: Strip, op: Op)
    requires Sound(x) && op.OpMove?
    ensures Keeps(x, Apply(x, op), Forgets(x, op))
  {
    MoveSteps(x, op.k, op.right);
  }

  lemma ConsumeKeeps(x: Strip, op: Op)
    requires Sound(x) && op.OpConsume?
    ensures Keeps(x, Apply(x, op), Forgets(x, op))
  {
    ConsumeSteps(x, op.k, op.right);
  }

  lemma ExpelKeeps(x: Strip, op: Op)
    requires Sound(x) && op.OpExpel?
    ensures Keeps(x, Apply(x, op), Forgets(x, op))
  {
    ExpelSteps(x, op.k, op.right);
  }

  lemma DropInKeeps(x: Strip, op: Op)
    requires Sound(x) && op.OpDropIn?
    ensures Keeps(x, Apply(x, op), Forgets(x, op))
  {
    DropInSettles(x, op.k, op.width, op.index);
  }

  lemma SetWidthKeeps(x: Strip, op: Op)
    requires Sound(x) && op.OpSetWidth?
    ensures Keeps(x, Apply(x, op), Forgets(x, op))
  {
    SetWidthSteps(x, op.k, op.factor);
  }

  /** The calls that are the strip's own. */
  predicate Own(op: Op) {
    op.OpInsert? || op.OpRemember? || op.OpSetFocused? || op.OpRetain? || op.OpSync? || op.OpAttach?
  }

  lemma OwnKeeps(x: Strip, op: Op)
    requires Sound(x) && Own(op)
    ensures Keeps(x, Apply(x, op), Forgets(x, op))
  {
    match op
    case OpInsert(k) => InsertKeeps(x, k);
    case OpRemember(k) => RememberKeeps(x, k);
    case OpRetain => RetainSettles(x);
    case OpSync(visible) => SyncHoldsVisible(x, visible);
    case OpSetFocused(i) => SameFocuses(x, SetFocused(x, i));
    case OpAttach(on) => SameFocuses(x, x.(attach := on));
  }

  lemma EachKeeps(x: Strip, op: Op)
    requires Sound(x)
    ensures Keeps(x, Apply(x, op), Forgets(x, op))
  {
    if Own(op) {
      OwnKeeps(x, op);
    } else {
      match op
      case OpMove(k, right) => MoveKeeps(x, op);
      case OpConsume(k, right) => ConsumeKeeps(x, op);
      case OpExpel(k, right) => ExpelKeeps(x, op);
      case OpDropIn(k, width, index) => DropInKeeps(x, op);
      case OpSetWidth(k, factor) => SetWidthKeeps(x, op);
    }
  }

  /** Every call keeps a sound strip sound. A settled strip stays settled unless a
      column's remembered client is expelled from it. */
  lemma StepKeeps(x: Strip, op: Op)
    requires Sound(x)
    ensures Sound(Apply(x, op))
    ensures Settled(x) ==> (Settled(Apply(x, op)) <==> !Forgets(x, op))
  {
    EachKeeps(x, op);
  }

  lemma SameFocuses(x: Strip, y: Strip)
    requires x.columns == y.columns && x.focuses == y.focuses
    ensures (forall i: nat :: !Stale(x, i)) <==> (forall i: nat :: !Stale(y, i))
  {
    forall i: nat ensures Stale(x, i) == Stale(y, i) {}
  }

  ghost function After(x: Strip, ops: seq<Op>): Strip {
    if ops == [] then x else Apply(After(x, ops[..|ops| - 1]), ops[|ops| - 1])
  }

  /** After any run from the empty strip everything is sound, and the next compaction
      or synchronisation, which every rearrangement makes, settles it. */
  lemma {:induction false} EveryRunSound(ops: seq<Op>, visible: seq<Key>)
    ensures Sound(After(EMPTY, ops))
    ensures Settled(Retain(After(EMPTY, ops))) && Settled(Sync(After(EMPTY, ops), visible))
  {
    if ops != [] {
      EveryRunSound(ops[..|ops| - 1], visible);
      StepKeeps(After(EMPTY, ops[..|ops| - 1]), ops[|ops| - 1]);
    }
    RetainSettles(After(EMPTY, ops));
    SyncHoldsVisible(After(EMPTY, ops), visible);
  }

  /** It happens: expelling the client that a column of two remembers. */
  lemma ExpelLeavesStale(a: Key, b: Key)
    requires a != b
    ensures var x := Strip([[a, b]], [1.0], [Some(b)], Some(0), true);
            Settled(x) && Forgets(x, OpExpel(b, true)) && Stale(Expel(x, b, true), 0)
  {
    var x := Strip([[a, b]], [1.0], [Some(b)], Some(0), true);
    assert Flat([[a, b]]) == [a, b] by { assert [[a, b]][..0] == []; }
    assert Settled(x);
    EnsuredAligned(x);
    OpenStale(TakeOut(x, 0, b), 1, b, 1.0, 0);
    TakeOutStale(x, 0, b, 0);
  }
}
