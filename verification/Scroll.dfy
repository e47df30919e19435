/** Gesture phases for GTK scroll events. */
module Scroll {
  import opened Wrappers

  type Time = real

  datatype Point = Point(x: real, y: real)
  datatype Direction = Up | Down | Left | Right | Smooth | Unknown
  datatype MouseDelta = LineDelta(x: real, y: real) | PixelDelta(x: real, y: real) | OtherDelta
  datatype TouchPhase = TouchStarted | TouchMoved | TouchEnded | TouchCancelled | TouchOther
  datatype ScrollDelta = Lines(x: real, y: real) | PhysicalPixels(x: real, y: real, scale: real)
  datatype ScrollPhase = Started | Moved | Ended | Cancelled
  datatype Packet = Wheel(point: Point, delta: ScrollDelta, phase: ScrollPhase)

  predicate Whole(x: real) { x == x.Floor as real }

  function PointerScroll(point: Point, delta: MouseDelta, phase: TouchPhase, scale: real, linux: bool): Packet {
    var d := match delta
      case LineDelta(x, y) => Lines(x, y)
      case PixelDelta(x, y) => PhysicalPixels(x, y, scale)
      case OtherDelta => Lines(0.0, 0.0);
    var notch := linux && d.Lines? && (d.x != 0.0 || d.y != 0.0) && Whole(d.x) && Whole(d.y);
    var p := match phase
      case TouchStarted => Started
      case TouchMoved => Moved
      case TouchEnded => if notch then Started else Ended
      case TouchCancelled => Cancelled
      case TouchOther => Moved;
    Wheel(point, d, p)
  }

  /** A line delta by whole notches, at least one. */
  predicate IsPulse(delta: MouseDelta) {
    delta.LineDelta? && Whole(delta.x) && Whole(delta.y) && (delta.x != 0.0 || delta.y != 0.0)
  }

  /** On Linux a discrete pulse that is marked as ended starts a gesture; a zero or a
      fractional delta so marked, and any on other systems, ends one. */
  lemma PulsesStart(point: Point, delta: MouseDelta, phase: TouchPhase, scale: real, linux: bool)
    ensures var p := PointerScroll(point, delta, phase, scale, linux).phase;
            && (p == Started <==> phase.TouchStarted? || (phase.TouchEnded? && linux && IsPulse(delta)))
            && (p == Ended <==> phase.TouchEnded? && !(linux && IsPulse(delta)))
            && (p == Cancelled <==> phase.TouchCancelled?)
    ensures var p := PointerScroll(point, delta, phase, scale, linux);
            p.point == point && p.delta ==
              match delta
              case LineDelta(x, y) => Lines(x, y)
              case PixelDelta(x, y) => PhysicalPixels(x, y, scale)
              case OtherDelta => Lines(0.0, 0.0)
  {
  }

  // ----- the GTK bridge -----

  datatype Event = Event(point: Point, direction: Direction, dx: real, dy: real, stop: bool, now: Time)
  datatype State = State(last: Option<Time>, smooth: bool)

  const FRESH := State(None, false)

  /** Elapsed time, never negative. */
  function Elapsed(last: Time, now: Time): Time { if now > last then now - last else 0.0 }

  function Step(s: State, e: Event, idle: Time): (State, Option<Packet>) {
    match e.direction
    case Unknown => (s, None)
    case Smooth =>
      var expired := s.last.None? || Elapsed(s.last.value, e.now) >= idle;
      var phase := if e.stop then Ended else if !s.smooth || expired then Started else Moved;
      (State(Some(e.now), true), Some(Wheel(e.point, Lines(-e.dx, -e.dy), phase)))
    case _ => (State(Some(e.now), false), Some(Wheel(e.point, Notch(e.direction), Started)))
  }

  function Notch(d: Direction): ScrollDelta {
    match d
    case Up => Lines(0.0, 1.0)
    case Down => Lines(0.0, -1.0)
    case Left => Lines(1.0, 0.0)
    case Right => Lines(-1.0, 0.0)
    case _ => Lines(0.0, 0.0)
  }

  class GtkScrollState {
    var last: Option<Time>
    var smooth: bool

    constructor ()
      ensures Value() == FRESH
    {
      last, smooth := None, false;
    }

    function Value(): State
      reads this
    {
      State(last, smooth)
    }

    method GtkScrollInput(e: Event, idle: Time) returns (r: Option<Packet>)
      modifies this
      ensures (Value(), r) == Step(old(Value()), e, idle)
    {
      var x, y, phase, isSmooth := 0.0, 0.0, Started, false;
      match e.direction {
        case Up => y := 1.0;
        case Down => y := -1.0;
        case Left => x := 1.0;
        case Right => x := -1.0;
        case Smooth =>
          var expired := last.None? || Elapsed(last.value, e.now) >= idle;
          if e.stop {
            phase := Ended;
          } else if !smooth || expired {
            phase := Started;
          } else {
            phase := Moved;
          }
          x, y, isSmooth := -e.dx, -e.dy, true;
        case Unknown => return None;
      }
      last, smooth := Some(e.now), isSmooth;
      if !isSmooth {
        return Some(PointerScroll(e.point, LineDelta(x, y), TouchStarted, 1.0, true));
      }
      return Some(Wheel(e.point, Lines(x, y), phase));
    }
  }

  // ----- whole traces -----

  function After(es: seq<Event>, idle: Time): State {
    if es == [] then FRESH else Step(After(es[..|es| - 1], idle), es[|es| - 1], idle).0
  }

  /** What the bridge emits for event `i` of a trace. */
  function PacketAt(es: seq<Event>, i: nat, idle: Time): Option<Packet>
    requires i < |es|
  {
    Step(After(es[..i], idle), es[i], idle).1
  }

  /** The latest event before `i` that emitted a packet. */
  function Previous(es: seq<Event>, i: nat): (r: Option<nat>)
    requires i <= |es|
    ensures r.Some? ==> r.value < i && !es[r.value].direction.Unknown?
    ensures forall j :: (if r.Some? then r.value + 1 else 0) <= j < i ==> es[j].direction.Unknown?
  {
    if i == 0 then None
    else if es[i - 1].direction.Unknown? then Previous(es, i - 1)
    else Some(i - 1)
  }

  /** A smooth event opens a segment after nothing, after a notch, and after a gap
      of at least `idle`. */
  predicate Opens(es: seq<Event>, i: nat, idle: Time)
    requires i < |es|
  {
    && es[i].direction.Smooth?
    && match Previous(es, i)
       case None => true
       case Some(j) => !es[j].direction.Smooth? || Elapsed(es[j].now, es[i].now) >= idle
  }

  lemma {:induction false} AfterIs(es: seq<Event>, i: nat, idle: Time)
    requires i <= |es|
    ensures After(es[..i], idle) ==
            match Previous(es, i)
            case None => FRESH
            case Some(j) => State(Some(es[j].now), es[j].direction.Smooth?)
  {
    if i > 0 {
      AfterIs(es, i - 1, idle);
      assert es[..i][..i - 1] == es[..i - 1];
    }
  }

  /** The packet of an event is decided by the event and its predecessor alone. */
  lemma PacketIs(es: seq<Event>, i: nat, idle: Time)
    requires i < |es|
    ensures PacketAt(es, i, idle) ==
            match es[i].direction
            case Unknown => None
            case Smooth =>
              Some(Wheel(es[i].point, Lines(-es[i].dx, -es[i].dy),
                         if es[i].stop then Ended else if Opens(es, i, idle) then Started else Moved))
            case Up => Some(Wheel(es[i].point, Lines(0.0, 1.0), Started))
            case Down => Some(Wheel(es[i].point, Lines(0.0, -1.0), Started))
            case Left => Some(Wheel(es[i].point, Lines(1.0, 0.0), Started))
            case Right => Some(Wheel(es[i].point, Lines(-1.0, 0.0), Started))
  {
    AfterIs(es, i, idle);
  }

  /** Events `a..b` are one smooth segment: no notch, opened at `a` and not again. */
  ghost predicate Segment(es: seq<Event>, a: nat, b: nat, idle: Time) {
    && a < b <= |es| && Opens(es, a, idle)
    && (forall i :: a <= i < b ==> es[i].direction.Smooth? || es[i].direction.Unknown?)
    && (forall i :: a < i < b ==> !Opens(es, i, idle))
  }

  /** One segment has at most one start, at its first packet, present iff that
      packet is not a stop; whatever follows, also after a stop, only moves or ends. */
  lemma SegmentStartsOnce(es: seq<Event>, a: nat, b: nat, i: nat, idle: Time)
    requires Segment(es, a, b, idle) && a <= i < b && es[i].direction.Smooth?
    ensures PacketAt(es, i, idle).Some?
    ensures PacketAt(es, i, idle).value.phase == Started <==> i == a && !es[a].stop
    ensures PacketAt(es, i, idle).value.phase == Ended <==> es[i].stop
    ensures PacketAt(es, i, idle).value.phase == Moved <==> i > a && !es[i].stop
  {
    PacketIs(es, i, idle);
  }

  /** Segments that share an event share their opening. */
  lemma SegmentsDisjoint(es: seq<Event>, a: nat, b: nat, c: nat, d: nat, i: nat, idle: Time)
    requires Segment(es, a, b, idle) && Segment(es, c, d, idle) && a <= i < b && c <= i < d
    ensures a == c
  {
  }

  /** Every smooth event lies in a segment. */
  lemma {:induction false} SegmentOf(es: seq<Event>, i: nat, idle: Time) returns (a: nat)
    requires i < |es| && es[i].direction.Smooth?
    ensures a <= i && Segment(es, a, i + 1, idle)
    decreases i
  {
    if Opens(es, i, idle) {
      a := i;
    } else {
      var j := Previous(es, i).value;
      a := SegmentOf(es, j, idle);
      forall k | a < k < i + 1 ensures !Opens(es, k, idle) {
        if k <= j { assert k < j + 1; }
      }
    }
  }

  /** A gesture restarts exactly where a segment opens with something other than a
      stop; so the starts of a trace are its notches and those openings. */
  lemma StartsAre(es: seq<Event>, i: nat, idle: Time)
    requires i < |es|
    ensures (PacketAt(es, i, idle).Some? && PacketAt(es, i, idle).value.phase == Started) <==>
            (es[i].direction in {Up, Down, Left, Right} || (Opens(es, i, idle) && !es[i].stop))
  {
    PacketIs(es, i, idle);
  }

  // ----- the idle time of the bridge -----

  function BridgeIdle(policy: Time, gestureIdle: Time): Time {
    if policy == 0.0 then gestureIdle else policy
  }

  /** The latest event before `i` that emitted a packet is `j`. */
  ghost predicate Follows(es: seq<Event>, i: nat, j: nat) {
    && j < i < |es| && es[j].direction != Unknown
    && forall k :: j < k < i ==> es[k].direction == Unknown
  }

  /** Behind the bridge, of two smooth packets in a row the second one, unless it is a
      stop, starts a gesture of its own iff it comes at least the idle time of the policy
      after the first, or the default idle time if the policy has none; else it moves. */
  lemma GapDecides(es: seq<Event>, i: nat, j: nat, policy: Time, gestureIdle: Time)
    requires policy >= 0.0 && gestureIdle > 0.0 && Follows(es, i, j)
    requires es[j].direction.Smooth? && es[i].direction.Smooth? && !es[i].stop
    ensures var r := PacketAt(es, i, BridgeIdle(policy, gestureIdle));
            && r.Some?
            && var gap := es[i].now - es[j].now;
               r.value.phase == if gap >= (if policy > 0.0 then policy else gestureIdle) then Started else Moved
  {
    PacketIs(es, i, BridgeIdle(policy, gestureIdle));
    assert Previous(es, i) == Some(j);
  }

  /** A smooth packet that is no stop starts a gesture when it is the first of all or
      follows a notch, whatever the times. */
  lemma FreshSmoothStarts(es: seq<Event>, i: nat, idle: Time)
    requires i < |es| && es[i].direction.Smooth? && !es[i].stop
    requires forall j: nat :: Follows(es, i, j) ==> !es[j].direction.Smooth?
    ensures PacketAt(es, i, idle).Some? && PacketAt(es, i, idle).value.phase == Started
  {
    PacketIs(es, i, idle);
    if Previous(es, i).Some? { assert Follows(es, i, Previous(es, i).value); }
  }

  /** So behind the bridge a smooth packet that follows another one without delay, or
      with a clock that went back, never restarts the gesture. */
  lemma BridgeKeepsGesture(es: seq<Event>, i: nat, policy: Time, gestureIdle: Time)
    requires policy >= 0.0 && gestureIdle > 0.0
    requires i < |es| && es[i].direction.Smooth? && Previous(es, i).Some?
    requires var e := es[Previous(es, i).value]; e.direction.Smooth? && es[i].now <= e.now
    ensures var r := PacketAt(es, i, BridgeIdle(policy, gestureIdle));
            r.Some? && r.value.phase == if es[i].stop then Ended else Moved
  {
    PacketIs(es, i, BridgeIdle(policy, gestureIdle));
  }

  /** Why zero is replaced: with no idle time, and only then, no trace ever has a
      moving packet, since every packet starts a gesture of its own. */
  lemma NeverMovesIffNoIdle(idle: Time)
    requires idle >= 0.0
    ensures idle == 0.0 <==>
            forall es: seq<Event>, i: nat :: i < |es| && PacketAt(es, i, idle).Some? ==>
                PacketAt(es, i, idle).value.phase != Moved
  {
    if idle == 0.0 {
      forall es: seq<Event>, i: nat | i < |es| && PacketAt(es, i, idle).Some?
        ensures PacketAt(es, i, idle).value.phase != Moved
      {
        PacketIs(es, i, idle);
      }
    } else {
      var e := Event(Point(0.0, 0.0), Smooth, 0.0, 0.0, false, 0.0);
      PacketIs([e, e], 1, idle);
      assert Previous([e, e], 1) == Some(0);
      assert PacketAt([e, e], 1, idle).value.phase == Moved;
    }
  }
}
