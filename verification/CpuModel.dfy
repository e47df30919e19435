/** The CPU model read from a bounded prefix of cpuinfo. */
module CpuModel {
  import opened Wrappers
  import opened Text

  const NEWLINE: Byte := 10
  const COLON: Byte := 58
  const MODEL_CHARS := 160
  const MODEL_NAME: seq<Byte> := [109, 111, 100, 101, 108, 32, 110, 97, 109, 101]
  const HARDWARE: seq<Byte> := [72, 97, 114, 100, 119, 97, 114, 101]

  predicate IsSpace(b: Byte) { 9 <= b <= 13 || b == 32 }

  function StripLeft(s: seq<Byte>): seq<Byte> {
    if s != [] && IsSpace(s[0]) then StripLeft(s[1..]) else s
  }

  function StripRight(s: seq<Byte>): seq<Byte> {
    if s != [] && IsSpace(s[|s| - 1]) then StripRight(s[..|s| - 1]) else s
  }

  function Strip(s: seq<Byte>): seq<Byte> { StripRight(StripLeft(s)) }

  ghost predicate AllSpace(s: seq<Byte>) { forall i :: 0 <= i < |s| ==> IsSpace(s[i]) }

  lemma {:induction false} StripLeftIs(s: seq<Byte>) returns (a: seq<Byte>)
    ensures s == a + StripLeft(s) && AllSpace(a)
    ensures StripLeft(s) != [] ==> !IsSpace(StripLeft(s)[0])
  {
    a := [];
    if s != [] && IsSpace(s[0]) {
      var b := StripLeftIs(s[1..]);
      a := [s[0]] + b;
    }
  }

  lemma {:induction false} StripRightIs(s: seq<Byte>) returns (b: seq<Byte>)
    ensures s == StripRight(s) + b && AllSpace(b)
    ensures StripRight(s) != [] ==> !IsSpace(StripRight(s)[|StripRight(s)| - 1])
  {
    b := [];
    if s != [] && IsSpace(s[|s| - 1]) {
      var n := |s| - 1;
      var a := StripRightIs(s[..n]);
      b := a + [s[n]];
      assert s == s[..n] + [s[n]];
    }
  }

  /** Stripping removes exactly the white space around a text. */
  lemma StripIs(s: seq<Byte>) returns (a: seq<Byte>, b: seq<Byte>)
    ensures s == a + Strip(s) + b && AllSpace(a) && AllSpace(b)
    ensures var t := Strip(s); t != [] ==> !IsSpace(t[0]) && !IsSpace(t[|t| - 1])
  {
    a := StripLeftIs(s);
    b := StripRightIs(StripLeft(s));
    assert Strip(s) != [] ==> Strip(s)[0] == StripLeft(s)[0];
  }

  /** Where the first colon of a line is; the length of the line if there is none. */
  function ColonAt(line: seq<Byte>): (i: nat)
    ensures i <= |line|
  {
    if line == [] || line[0] == COLON then 0 else 1 + ColonAt(line[1..])
  }

  lemma {:induction false} ColonAtIs(line: seq<Byte>)
    ensures COLON !in line[..ColonAt(line)] && (ColonAt(line) < |line| ==> line[ColonAt(line)] == COLON)
  {
    if line != [] && line[0] != COLON {
      ColonAtIs(line[1..]);
      assert line[..ColonAt(line)] == [line[0]] + line[1..][..ColonAt(line[1..])];
    }
  }

  /** The line names the processor. */
  predicate Deciding(line: seq<Byte>) {
    var i := ColonAt(line);
    i < |line| && Strip(line[..i]) in {MODEL_NAME, HARDWARE}
  }

  predicate Reportable(value: seq<Byte>) {
    1 <= |value| <= MODEL_CHARS && forall i :: 0 <= i < |value| ==> 32 <= value[i] <= 126
  }

  function Value(line: seq<Byte>): seq<Byte>
    requires Deciding(line)
  {
    Strip(line[ColonAt(line) + 1..])
  }

  /** The lines of a text that end in a line feed. */
  function CompleteLines(data: seq<Byte>): seq<seq<Byte>> {
    var parts := Split(data, NEWLINE);
    parts[..|parts| - 1]
  }

  /** The first deciding line, if any, and what it reports. */
  ghost predicate DecidedBy(lines: seq<seq<Byte>>, i: nat) {
    i < |lines| && Deciding(lines[i]) && forall j :: 0 <= j < i ==> !Deciding(lines[j])
  }

  ghost predicate Undecided(lines: seq<seq<Byte>>) {
    forall i :: 0 <= i < |lines| ==> !Deciding(lines[i])
  }

  /** What the text as a whole says the model is. */
  function Model(lines: seq<seq<Byte>>): Option<seq<Byte>> {
    if lines == [] then None
    else if Deciding(lines[0]) then (if Reportable(Value(lines[0])) then Some(Value(lines[0])) else None)
    else Model(lines[1..])
  }

  lemma {:induction false} FirstDecides(lines: seq<seq<Byte>>, n: nat)
    requires DecidedBy(lines, n)
    ensures Model(lines) == if Reportable(Value(lines[n])) then Some(Value(lines[n])) else None
  {
    if n > 0 { FirstDecides(lines[1..], n - 1); }
  }

  lemma {:induction false} NoneDecides(lines: seq<seq<Byte>>)
    requires Undecided(lines)
    ensures Model(lines) == None
  {
    if lines != [] { NoneDecides(lines[1..]); }
  }

  method FirstModel(lines: seq<seq<Byte>>) returns (r: Option<seq<Byte>>)
    ensures r == Model(lines)
  {
    for n := 0 to |lines|
      invariant forall j :: 0 <= j < n ==> !Deciding(lines[j])
    {
      if Deciding(lines[n]) {
        FirstDecides(lines, n);
        var value := Value(lines[n]);
        if !(1 <= |value| <= MODEL_CHARS) { return None; }
        if exists i :: 0 <= i < |value| && (value[i] < 32 || value[i] > 126) { return None; }
        return Some(value);
      }
    }
    NoneDecides(lines);
    return None;
  }

  /** A reported model is printable, of bounded length, and the value of the first
      deciding line. */
  lemma {:induction false} ReportedIsFirst(lines: seq<seq<Byte>>) returns (n: nat)
    requires Model(lines).Some?
    ensures DecidedBy(lines, n) && Reportable(Value(lines[n])) && Model(lines).value == Value(lines[n])
  {
    if Deciding(lines[0]) {
      n := 0;
    } else {
      var m := ReportedIsFirst(lines[1..]);
      n := m + 1;
      assert forall j :: 1 <= j <= n ==> lines[j] == lines[1..][j - 1];
    }
  }

  // ----- the form of a deciding line -----

  function Bytes(s: string): seq<Byte>
    requires forall i :: 0 <= i < |s| ==> s[i] < '\U{100}'
  {
    seq(|s|, i requires 0 <= i < |s| => s[i] as int)
  }

  lemma KeysAre()
    ensures MODEL_NAME == Bytes("model name") && HARDWARE == Bytes("Hardware")
  {
  }

  lemma {:induction false} StripLeftOf(a: seq<Byte>, t: seq<Byte>)
    requires AllSpace(a) && t != [] && !IsSpace(t[0])
    ensures StripLeft(a + t) == t
  {
    if a == [] {
      assert a + t == t;
    } else {
      assert (a + t)[1..] == a[1..] + t;
      StripLeftOf(a[1..], t);
    }
  }

  lemma {:induction false} StripRightOf(t: seq<Byte>, b: seq<Byte>)
    requires AllSpace(b) && t != [] && !IsSpace(t[|t| - 1])
    ensures StripRight(t + b) == t
  {
    if b == [] {
      assert t + b == t;
    } else {
      var n := |b| - 1;
      assert (t + b)[..|t + b| - 1] == t + b[..n];
      StripRightOf(t, b[..n]);
    }
  }

  lemma {:induction false} ColonAtOf(head: seq<Byte>, rest: seq<Byte>)
    requires COLON !in head
    ensures ColonAt(head + [COLON] + rest) == |head|
  {
    var line := head + [COLON] + rest;
    if head != [] {
      assert line[1..] == head[1..] + [COLON] + rest;
      ColonAtOf(head[1..], rest);
    }
  }

  /** The line is one of the two keys, with white space around it or not, a colon and
      anything else. */
  ghost predicate KeyLine(line: seq<Byte>, a: seq<Byte>, key: seq<Byte>, b: seq<Byte>, rest: seq<Byte>) {
    && line == a + key + b + [COLON] + rest && AllSpace(a) && AllSpace(b)
    && (key == Bytes("model name") || key == Bytes("Hardware"))
  }

  lemma KeyLineDecides(line: seq<Byte>, a: seq<Byte>, key: seq<Byte>, b: seq<Byte>, rest: seq<Byte>)
    requires KeyLine(line, a, key, b, rest)
    ensures Deciding(line) && Value(line) == Strip(rest)
  {
    KeysAre();
    ColonAtOf(a + key + b, rest);
    assert line[..|a + key + b|] == a + (key + b);
    StripLeftOf(a, key + b);
    StripRightOf(key, b);
    assert line[|a + key + b| + 1..] == rest;
  }

  lemma DecidingIsKeyLine(line: seq<Byte>) returns (a: seq<Byte>, key: seq<Byte>, b: seq<Byte>, rest: seq<Byte>)
    requires Deciding(line)
    ensures KeyLine(line, a, key, b, rest) && Value(line) == Strip(rest)
  {
    KeysAre();
    ColonAtIs(line);
    var i := ColonAt(line);
    key, rest := Strip(line[..i]), line[i + 1..];
    a, b := StripIs(line[..i]);
    assert line == line[..i] + [COLON] + rest;
  }

  lemma DecidingIff(line: seq<Byte>)
    ensures Deciding(line) <==> exists a, key, b, rest :: KeyLine(line, a, key, b, rest)
  {
    if Deciding(line) { var a, key, b, rest := DecidingIsKeyLine(line); }
    if a, key, b, rest :| KeyLine(line, a, key, b, rest) { KeyLineDecides(line, a, key, b, rest); }
  }

  /** The line a model is read from, spelled out: key, colon, model, each with white
      space around it or not; no earlier line has such a key. The model begins and ends
      with something other than white space. */
  lemma ReportedLine(lines: seq<seq<Byte>>)
    returns (n: nat, a: seq<Byte>, key: seq<Byte>, b: seq<Byte>, c: seq<Byte>, d: seq<Byte>)
    requires Model(lines).Some?
    ensures var m := Model(lines).value;
            && n < |lines| && KeyLine(lines[n], a, key, b, c + m + d) && AllSpace(c) && AllSpace(d)
            && 1 <= |m| <= 160 && (forall i :: 0 <= i < |m| ==> 32 <= m[i] <= 126)
            && m[0] != 32 && m[|m| - 1] != 32
    ensures forall j :: 0 <= j < n ==> !exists p, k, q, r :: KeyLine(lines[j], p, k, q, r)
  {
    n := ReportedIsFirst(lines);
    var rest;
    a, key, b, rest := DecidingIsKeyLine(lines[n]);
    c, d := StripIs(rest);
    forall j | 0 <= j < n ensures !exists p, k, q, r :: KeyLine(lines[j], p, k, q, r) { DecidingIff(lines[j]); }
  }

  method CpuModel(read: Option<seq<Byte>>) returns (r: Option<seq<Byte>>)
    ensures r == if read.Some? then Model(CompleteLines(read.value)) else None
    ensures r.Some? ==> Reportable(r.value)
  {
    if read.None? { return None; }
    r := FirstModel(CompleteLines(read.value));
    if r.Some? {
      ghost var n := ReportedIsFirst(CompleteLines(read.value));
    }
  }

  // ----- truncation -----

  lemma {:induction false} SplitOfPrefix(head: seq<Byte>, tail: seq<Byte>)
    ensures CompleteLines(head) <= CompleteLines(head + tail)
  {
    var whole := head + tail;
    var h, w := Split(head, NEWLINE), Split(whole, NEWLINE);
    if head != [] {
      assert whole[1..] == head[1..] + tail;
      SplitOfPrefix(head[1..], tail);
      var hs, ws := Split(head[1..], NEWLINE), Split(whole[1..], NEWLINE);
      assert CompleteLines(head[1..]) == hs[..|hs| - 1] && CompleteLines(whole[1..]) == ws[..|ws| - 1];
      assert |hs| <= |ws|;
      if head[0] == NEWLINE {
        assert CompleteLines(head) == [[]] + hs[..|hs| - 1];
        assert CompleteLines(whole) == [[]] + ws[..|ws| - 1];
      } else if |hs| > 1 {
        assert hs[0] == hs[..|hs| - 1][0] == ws[..|ws| - 1][0] == ws[0];
        assert CompleteLines(head) == [[head[0]] + hs[0]] + hs[1..|hs| - 1];
        assert CompleteLines(whole) == [[head[0]] + ws[0]] + ws[1..|ws| - 1];
        assert hs[1..|hs| - 1] == hs[..|hs| - 1][1..] && ws[1..|ws| - 1] == ws[..|ws| - 1][1..];
      }
    }
  }

  lemma {:induction false} ModelOfPrefix(lines: seq<seq<Byte>>, more: seq<seq<Byte>>)
    requires lines <= more
    ensures Model(lines) == if Undecided(lines) then None else Model(more)
  {
    if lines != [] {
      assert lines[1..] <= more[1..];
      ModelOfPrefix(lines[1..], more[1..]);
      if !Deciding(lines[0]) {
        assert Undecided(lines) <==> Undecided(lines[1..]) by {
          assert forall i :: 1 <= i < |lines| ==> lines[i] == lines[1..][i - 1];
        }
      }
    }
  }

  /** A bounded read may stop anywhere: the answer is that of the whole file when
      the part read holds a complete deciding line, and None otherwise. A cut line
      is never reported. */
  lemma TruncationIsSafe(content: seq<Byte>, k: nat)
    requires k <= |content|
    ensures CompleteLines(content[..k]) <= CompleteLines(content)
    ensures Model(CompleteLines(content[..k])) ==
            if Undecided(CompleteLines(content[..k])) then None else Model(CompleteLines(content))
  {
    assert content == content[..k] + content[k..];
    SplitOfPrefix(content[..k], content[k..]);
    ModelOfPrefix(CompleteLines(content[..k]), CompleteLines(content));
  }

  /** Two bounded reads of one file never report different models. */
  lemma ReadsNeverDisagree(content: seq<Byte>, j: nat, k: nat)
    requires j <= |content| && k <= |content|
    ensures var a, b := Model(CompleteLines(content[..j])), Model(CompleteLines(content[..k]));
            a.Some? && b.Some? ==> a == b == Model(CompleteLines(content))
  {
    TruncationIsSafe(content, j);
    TruncationIsSafe(content, k);
  }
}
