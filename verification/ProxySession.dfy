/** A proxied session: two pumps and the task that owns them, interleaved at
    every await in any order, with failures and cancellation anywhere. */
module ProxySession {
  import opened Wrappers
  import opened ProxyForward

  // ----- one pump, await by await -----

  datatype Stop = AtEof | AtCut | Broken | Cancelled
  datatype Pc = Top | Pausing | Reading(size: nat) | Holding | Stopped(how: Stop)

  /** `consumed` bytes were read; `held` is the part of the last chunk that has
      not been written yet; `transferred` is the loop variable of the source. */
  datatype Pump = Pump(
    pc: Pc,
    transferred: nat,
    paused: bool,
    consumed: nat,
    held: seq<Byte>,
    delivered: seq<Byte>,
    halfClosed: bool)

  const IDLE := Pump(Top, 0, false, 0, [], [], false)

  datatype Channel = Channel(policy: Direction, stream: Stream)

  datatype PumpAct =
    | Decide          // the checks at the top of the loop
    | Wake            // a finite pause is over
    | Got(n: nat)     // a read returns n bytes
    | GotEof          // a read returns nothing: half-close the target
    | Push(k: nat)    // the transport takes k more bytes of the held chunk
    | Break           // a read or a write fails

  function ReadSize(d: Direction, p: Pump, chunk: nat): int {
    var size: int := chunk;
    var size := if d.disconnectAfter.Some? && d.disconnectAfter.value - p.transferred < size
                then d.disconnectAfter.value - p.transferred else size;
    if !p.paused && d.pauseAfter.Some? && d.pauseAfter.value - p.transferred < size
    then d.pauseAfter.value - p.transferred else size
  }

  function StartRead(d: Direction, p: Pump, chunk: nat): Option<Pump> {
    var size := ReadSize(d, p, chunk);
    if size >= 0 then Some(p.(pc := Reading(size))) else None
  }

  function Take(c: Channel, p: Pump, n: nat): Pump
    requires p.consumed + n <= |c.stream.data|
  {
    p.(consumed := p.consumed + n, held := c.stream.data[p.consumed..p.consumed + n])
  }

  function PumpStep(c: Channel, chunk: nat, p: Pump, a: PumpAct): Option<Pump> {
    var d := c.policy;
    match (p.pc, a)
    case (Top, Decide) =>
      if d.disconnectAfter.Some? && p.transferred >= d.disconnectAfter.value then Some(p.(pc := Stopped(AtCut)))
      else if !p.paused && d.pauseAfter.Some? && p.transferred >= d.pauseAfter.value then
        Some(p.(pc := Pausing, paused := true))
      else StartRead(d, p, chunk)
    case (Pausing, Wake) => if d.pauseSeconds != 0.0 then StartRead(d, p, chunk) else None
    case (Reading(size), Got(n)) =>
      if 1 <= n <= size && p.consumed + n <= |c.stream.data| then Some(Take(c, p, n).(pc := Holding)) else None
    case (Reading(_), GotEof) =>
      if p.consumed == |c.stream.data| && c.stream.closes
      then Some(p.(pc := Stopped(AtEof), halfClosed := true)) else None
    case (Holding, Push(k)) =>
      if !(1 <= k <= |p.held|) then None
      else
        var q := p.(delivered := p.delivered + p.held[..k], held := p.held[k..]);
        Some(if k == |p.held| then q.(pc := Top, transferred := p.consumed) else q)
    case (Reading(_), Break) => Some(p.(pc := Stopped(Broken)))
    case (Holding, Break) => Some(p.(pc := Stopped(Broken)))
    case _ => None
  }

  /** Cancellation strikes at the await; a read that had just completed loses its bytes. */
  function PumpCancel(c: Channel, p: Pump, took: nat): Option<Pump> {
    if p.pc.Stopped? then None
    else if took == 0 then Some(p.(pc := Stopped(Cancelled)))
    else if p.pc.Reading? && took <= p.pc.size && p.consumed + took <= |c.stream.data|
    then Some(Take(c, p, took).(pc := Stopped(Cancelled)))
    else None
  }

  // ----- what holds of a pump at every await -----

  ghost predicate Boundaries(d: Direction, p: Pump, n: int) {
    && (d.disconnectAfter.Some? ==> n <= d.disconnectAfter.value)
    && (!p.paused && d.pauseAfter.Some? ==> n <= d.pauseAfter.value)
  }

  ghost predicate PumpInv(c: Channel, chunk: nat, p: Pump) {
    var d, n := c.policy, |c.stream.data|;
    && p.consumed <= n
    && p.delivered + p.held == c.stream.data[..p.consumed]
    && |p.held| <= chunk
    && Boundaries(d, p, p.consumed)
    && (p.paused ==> PauseReached(d, p.consumed))
    && (p.paused && d.pauseSeconds == 0.0 ==>
        (p.pc == Pausing || p.pc == Stopped(Cancelled)) && d.pauseAfter == Some(p.consumed))
    && (p.pc.Top? || p.pc.Pausing? || p.pc.Reading? || p.pc == Stopped(AtEof) || p.pc == Stopped(AtCut) ==>
          p.held == [] && p.transferred == p.consumed)
    && (p.pc.Pausing? ==> p.paused && Below(d.disconnectAfter, p.consumed))
    && (p.pc.Reading? ==> 1 <= p.pc.size <= chunk && Boundaries(d, p, p.consumed + p.pc.size))
    && (p.pc.Holding? ==> p.held != [])
    && (p.halfClosed <==> p.pc == Stopped(AtEof))
    && (p.pc == Stopped(AtEof) ==>
          p.consumed == n && c.stream.closes && Below(d.disconnectAfter, n)
          && (!p.paused ==> Below(d.pauseAfter, n)))
    && (p.pc == Stopped(AtCut) ==> d.disconnectAfter == Some(p.consumed))
  }

  ghost predicate Below(boundary: Option<int>, n: int) {
    boundary.Some? ==> n < boundary.value
  }

  lemma ReadKeepsInv(c: Channel, chunk: nat, p: Pump)
    requires Accepted(c.policy) && chunk >= 1 && PumpInv(c, chunk, p) && (p.pc.Top? || p.pc.Pausing?)
    requires Below(c.policy.disconnectAfter, p.transferred)
    requires !p.paused ==> Below(c.policy.pauseAfter, p.transferred)
    requires p.paused ==> c.policy.pauseSeconds != 0.0
    ensures StartRead(c.policy, p, chunk).Some? && PumpInv(c, chunk, StartRead(c.policy, p, chunk).value)
  {
  }

  lemma GotKeepsInv(c: Channel, chunk: nat, p: Pump, n: nat)
    requires PumpInv(c, chunk, p) && PumpStep(c, chunk, p, Got(n)).Some?
    ensures PumpInv(c, chunk, PumpStep(c, chunk, p, Got(n)).value)
  {
    var q := PumpStep(c, chunk, p, Got(n)).value;
    assert c.stream.data[..q.consumed] == c.stream.data[..p.consumed] + q.held;
    assert p.held == [] && p.delivered + p.held == p.delivered;
  }

  lemma PushKeepsInv(c: Channel, chunk: nat, p: Pump, k: nat)
    requires PumpInv(c, chunk, p) && PumpStep(c, chunk, p, Push(k)).Some?
    ensures PumpInv(c, chunk, PumpStep(c, chunk, p, Push(k)).value)
    ensures p.delivered <= PumpStep(c, chunk, p, Push(k)).value.delivered
  {
    var q := PumpStep(c, chunk, p, Push(k)).value;
    assert q.delivered + q.held == p.delivered + p.held;
  }

  lemma StepKeepsInv(c: Channel, chunk: nat, p: Pump, a: PumpAct)
    requires Accepted(c.policy) && chunk >= 1 && PumpInv(c, chunk, p) && PumpStep(c, chunk, p, a).Some?
    ensures PumpInv(c, chunk, PumpStep(c, chunk, p, a).value)
    ensures p.delivered <= PumpStep(c, chunk, p, a).value.delivered
  {
    match a
    case Decide =>
      if PumpStep(c, chunk, p, a).value.pc.Reading? { ReadKeepsInv(c, chunk, p); }
    case Wake => ReadKeepsInv(c, chunk, p);
    case Got(n) => GotKeepsInv(c, chunk, p, n);
    case Push(k) => PushKeepsInv(c, chunk, p, k);
    case GotEof =>
    case Break =>
  }

  lemma CancelKeepsInv(c: Channel, chunk: nat, p: Pump, took: nat)
    requires Accepted(c.policy) && chunk >= 1 && PumpInv(c, chunk, p) && PumpCancel(c, p, took).Some?
    ensures PumpInv(c, chunk, PumpCancel(c, p, took).value)
    ensures PumpCancel(c, p, took).value.delivered == p.delivered
  {
    var q := PumpCancel(c, p, took).value;
    if took > 0 { assert c.stream.data[..q.consumed] == c.stream.data[..p.consumed] + q.held; }
  }

  /** Nothing but a failure or a cancellation can happen to the pump any more. */
  ghost predicate Quiescent(c: Channel, chunk: nat, p: Pump) {
    forall a :: a != Break ==> PumpStep(c, chunk, p, a).None?
  }

  function EndOf(p: Pump): End {
    match p.pc
    case Stopped(AtEof) => Eof
    case Stopped(_) => Disconnected
    case Pausing => Parked
    case _ => Starved
  }

  lemma MovesOn(c: Channel, chunk: nat, p: Pump)
    requires Accepted(c.policy) && chunk >= 1 && PumpInv(c, chunk, p)
    ensures p.pc.Top? || p.pc.Holding? ==> !Quiescent(c, chunk, p)
  {
    if p.pc.Top? { assert PumpStep(c, chunk, p, Decide).Some?; }
    if p.pc.Holding? { assert PumpStep(c, chunk, p, Push(1)).Some?; }
  }

  /** Chunking independence for every schedule: a pump that came to rest without
      failing or being cancelled delivered what the policy promises of the
      stream, rests for the promised reason and paused iff it was to. */
  lemma RestIsPromised(c: Channel, chunk: nat, p: Pump)
    requires Accepted(c.policy) && chunk >= 1 && PumpInv(c, chunk, p) && Quiescent(c, chunk, p)
    requires p.pc != Stopped(Broken) && p.pc != Stopped(Cancelled)
    ensures p.delivered == Delivered(c.policy, c.stream) && EndOf(p) == Ending(c.policy, c.stream)
    ensures p.paused <==> PauseReached(c.policy, |c.stream.data|)
  {
    MovesOn(c, chunk, p);
    assert p.pc.Stopped? ==> p.pc.how == AtEof || p.pc.how == AtCut;
    assert p.held == [] && p.delivered + p.held == p.delivered;
    if p.pc.Pausing? { assert PumpStep(c, chunk, p, Wake).None?; }
    if p.pc.Reading? {
      assert PumpStep(c, chunk, p, Got(1)).None? && PumpStep(c, chunk, p, GotEof).None?;
    }
  }

  /** Work left in a pump: every step of it, whatever the schedule, uses some up. */
  function Fuel(c: Channel, p: Pump): int {
    5 * (|c.stream.data| - p.consumed) + |p.held| +
    match p.pc
    case Top => 3
    case Pausing => 2
    case Reading(_) => 1
    case Holding => 3
    case Stopped(_) => 0
  }

  function PumpRun(c: Channel, chunk: nat, p: Pump, acts: seq<PumpAct>): Option<Pump>
    decreases |acts|
  {
    if acts == [] then Some(p)
    else
      match PumpStep(c, chunk, p, acts[0])
      case None => None
      case Some(q) => PumpRun(c, chunk, q, acts[1..])
  }

  lemma StepUsesFuel(c: Channel, chunk: nat, p: Pump, a: PumpAct)
    requires PumpInv(c, chunk, p) && PumpStep(c, chunk, p, a).Some?
    ensures var q := PumpStep(c, chunk, p, a).value;
            && Fuel(c, q) < Fuel(c, p)
            && q.pc != Stopped(Cancelled) && (q.pc == Stopped(Broken) ==> a == Break)
  {
  }

  lemma {:induction false} PumpRunUsesFuel(c: Channel, chunk: nat, p: Pump, acts: seq<PumpAct>)
    requires Accepted(c.policy) && chunk >= 1 && PumpInv(c, chunk, p) && PumpRun(c, chunk, p, acts).Some?
    ensures var q := PumpRun(c, chunk, p, acts).value;
            && PumpInv(c, chunk, q) && |acts| + Fuel(c, q) <= Fuel(c, p)
            && (q.pc in {Stopped(Broken), Stopped(Cancelled)} ==> p.pc == q.pc || Break in acts)
    decreases |acts|
  {
    if acts != [] {
      StepKeepsInv(c, chunk, p, acts[0]);
      StepUsesFuel(c, chunk, p, acts[0]);
      PumpRunUsesFuel(c, chunk, PumpStep(c, chunk, p, acts[0]).value, acts[1..]);
    }
  }

  /** Every schedule of an undisturbed pump ends within a bound set by the stream
      alone, and wherever it ends the promise of the policy is met. */
  lemma EveryScheduleMeetsPromise(c: Channel, chunk: nat, acts: seq<PumpAct>)
    requires Accepted(c.policy) && chunk >= 1 && PumpRun(c, chunk, IDLE, acts).Some? && Break !in acts
    ensures |acts| <= 5 * |c.stream.data| + 3
    ensures var p := PumpRun(c, chunk, IDLE, acts).value;
            Quiescent(c, chunk, p) ==>
              && p.delivered == Delivered(c.policy, c.stream) && EndOf(p) == Ending(c.policy, c.stream)
              && (p.paused <==> PauseReached(c.policy, |c.stream.data|))
  {
    PumpRunUsesFuel(c, chunk, IDLE, acts);
    var p := PumpRun(c, chunk, IDLE, acts).value;
    if Quiescent(c, chunk, p) { RestIsPromised(c, chunk, p); }
  }

  // ----- the session task -----

  /** `Stopping`: interrupted, but still at the first gather, which has passed the
      cancellation on to both pumps. `Waiting`: in the clean-up, at the gather of
      the cancelled pumps. */
  datatype Phase = Fresh | Connecting | Pumping | Stopping | Waiting | Finished
  datatype Socket = NoSocket | Open | Closed
  datatype Side = Up | Down

  /** `eager`: a gather over tasks that are all done completes without suspending,
      as from Python 3.12 on; before that it suspends all the same. */
  datatype Config = Config(up: Channel, down: Channel, chunk: nat, eager: bool)

  predicate Usable(cfg: Config) {
    cfg.chunk >= 1 && Accepted(cfg.up.policy) && Accepted(cfg.down.policy)
  }

  /** `late` records a cancellation that struck while the task was already
      waiting for its cancelled pumps. */
  datatype Session = Session(
    phase: Phase,
    started: bool,
    up: Pump,
    down: Pump,
    client: Socket,
    upstream: Socket,
    late: bool)

  const NEW := Session(Fresh, false, IDLE, IDLE, Open, NoSocket, false)

  datatype Act =
    | Start
    | CancelFresh                        // cancelled before the first step: no clean-up code runs
    | OpenUpstream
    | AttemptFailed
    | Connected
    | Abort                              // no address, timeout or cancellation while connecting
    | OnPump(side: Side, act: PumpAct)
    | Gathered                           // both pumps ended, or one raised
    | Interrupt                          // session timeout or cancellation while pumping
    | StopPump(side: Side, took: nat)    // a cancelled pump ends
    | CancelAgain                        // cancelled while the first one is still being passed on
    | Resume                             // both pumps ended, the clean-up begins
    | CancelLate                         // cancelled while waiting in the clean-up
    | Finish

  function Of(x: Session, side: Side): Pump { if side.Up? then x.up else x.down }

  function Chan(cfg: Config, side: Side): Channel { if side.Up? then cfg.up else cfg.down }

  function With(x: Session, side: Side, p: Option<Pump>): Option<Session> {
    match p
    case None => None
    case Some(q) => Some(if side.Up? then x.(up := q) else x.(down := q))
  }

  predicate Raised(p: Pump) { p.pc == Stopped(AtCut) || p.pc == Stopped(Broken) }

  function CloseSocket(s: Socket): Socket { if s.Open? then Closed else s }

  function SessionStep(cfg: Config, x: Session, a: Act): Option<Session> {
    match (x.phase, a)
    case (Fresh, Start) => Some(x.(phase := Connecting, started := true))
    case (Fresh, CancelFresh) => Some(x.(phase := Finished))
    case (Connecting, OpenUpstream) => if x.upstream.Open? then None else Some(x.(upstream := Open))
    case (Connecting, AttemptFailed) => if x.upstream.Open? then Some(x.(upstream := Closed)) else None
    case (Connecting, Connected) => if x.upstream.Open? then Some(x.(phase := Pumping)) else None
    case (Connecting, Abort) => Some(Close(x))
    case (Pumping, OnPump(side, act)) => With(x, side, PumpStep(Chan(cfg, side), cfg.chunk, Of(x, side), act))
    case (Pumping, Gathered) =>
      if (x.up.pc == x.down.pc == Stopped(AtEof)) || Raised(x.up) || Raised(x.down)
      then Some(CleanUp(cfg, x)) else None
    case (Pumping, Interrupt) => Some(x.(phase := Stopping))
    case (Stopping, StopPump(side, took)) => With(x, side, PumpCancel(Chan(cfg, side), Of(x, side), took))
    case (Stopping, CancelAgain) => Some(x)
    case (Stopping, Resume) => if BothStopped(x) then Some(CleanUp(cfg, x)) else None
    case (Waiting, StopPump(side, took)) => With(x, side, PumpCancel(Chan(cfg, side), Of(x, side), took))
    case (Waiting, CancelLate) => Some(x.(late := true))
    case (Waiting, Finish) =>
      if !BothStopped(x) then None
      else if x.late then Some(x.(phase := Finished))
      else Some(Close(x))
    case _ => None
  }

  predicate BothStopped(x: Session) { x.up.pc.Stopped? && x.down.pc.Stopped? }

  function Close(x: Session): Session {
    x.(phase := Finished, client := CloseSocket(x.client), upstream := CloseSocket(x.upstream))
  }

  /** Entering the clean-up: it waits for the pumps unless nothing is left to wait for. */
  function CleanUp(cfg: Config, x: Session): Session {
    if cfg.eager && BothStopped(x) then Close(x) else x.(phase := Waiting)
  }

  ghost predicate SessionInv(cfg: Config, x: Session) {
    && PumpInv(cfg.up, cfg.chunk, x.up)
    && PumpInv(cfg.down, cfg.chunk, x.down)
    && (x.late ==> x.phase in {Waiting, Finished} && x.started)
    && (cfg.eager && (x.phase == Waiting || x.late) ==> Raised(x.up) || Raised(x.down))
    && (x.phase == Finished || (x.started <==> x.phase != Fresh))
    && match x.phase
       case Fresh => x.client == Open && x.upstream == NoSocket && x.up == x.down == IDLE
       case Connecting => x.client == Open && x.up == x.down == IDLE
       case Pumping =>
         && x.client == x.upstream == Open
         && x.up.pc != Stopped(Cancelled) && x.down.pc != Stopped(Cancelled)
       case Stopping => x.client == x.upstream == Open
       case Waiting => x.client == x.upstream == Open
       case Finished =>
         && x.client == (if x.started && !x.late then Closed else Open)
         && (x.upstream == Open <==> x.late)
  }

  lemma NewInv(cfg: Config)
    requires Usable(cfg)
    ensures SessionInv(cfg, NEW)
  {
  }

  lemma OnPumpKeepsInv(cfg: Config, x: Session, side: Side, act: PumpAct)
    requires Usable(cfg) && SessionInv(cfg, x) && SessionStep(cfg, x, OnPump(side, act)).Some?
    ensures var y := SessionStep(cfg, x, OnPump(side, act)).value;
            SessionInv(cfg, y) && x.up.delivered <= y.up.delivered && x.down.delivered <= y.down.delivered
  {
    StepKeepsInv(Chan(cfg, side), cfg.chunk, Of(x, side), act);
  }

  lemma StopPumpKeepsInv(cfg: Config, x: Session, side: Side, took: nat)
    requires Usable(cfg) && SessionInv(cfg, x) && SessionStep(cfg, x, StopPump(side, took)).Some?
    ensures var y := SessionStep(cfg, x, StopPump(side, took)).value;
            SessionInv(cfg, y) && x.up.delivered <= y.up.delivered && x.down.delivered <= y.down.delivered
  {
    CancelKeepsInv(Chan(cfg, side), cfg.chunk, Of(x, side), took);
  }

  lemma SessionStepKeepsInv(cfg: Config, x: Session, a: Act)
    requires Usable(cfg) && SessionInv(cfg, x) && SessionStep(cfg, x, a).Some?
    ensures var y := SessionStep(cfg, x, a).value;
            SessionInv(cfg, y) && x.up.delivered <= y.up.delivered && x.down.delivered <= y.down.delivered
  {
    match a
    case OnPump(side, act) => OnPumpKeepsInv(cfg, x, side, act);
    case StopPump(side, took) => StopPumpKeepsInv(cfg, x, side, took);
    case _ =>
      var y := SessionStep(cfg, x, a).value;
      assert y.up == x.up && y.down == x.down;
  }

  /** Running a schedule; None when some step of it is not possible. */
  function SessionRun(cfg: Config, x: Session, acts: seq<Act>): Option<Session>
    decreases |acts|
  {
    if acts == [] then Some(x)
    else
      match SessionStep(cfg, x, acts[0])
      case None => None
      case Some(y) => SessionRun(cfg, y, acts[1..])
  }

  // ----- what a reader of the proxy relies on -----

  /** One direction, at any moment: a prefix was delivered, at most one chunk was
      read beyond it, a half-close means that the whole stream went through, and a
      pump at rest has kept the promise of its policy. */
  ghost predicate DirectionSafe(c: Channel, chunk: nat, p: Pump)
    requires Accepted(c.policy)
  {
    && p.delivered <= c.stream.data
    && p.consumed <= |c.stream.data|
    && |p.delivered| <= p.consumed <= |p.delivered| + chunk
    && p.delivered + p.held == c.stream.data[..p.consumed]
    && (p.halfClosed ==> p.delivered == c.stream.data && c.stream.closes)
    && (p.pc == Stopped(AtCut) ==>
        p.delivered == Delivered(c.policy, c.stream) && Ending(c.policy, c.stream) == Disconnected)
    && |p.delivered| <= DeliveredCount(c.policy, |c.stream.data|)
    && (Quiescent(c, chunk, p) && p.pc != Stopped(Broken) && p.pc != Stopped(Cancelled) ==>
          && p.delivered == Delivered(c.policy, c.stream) && EndOf(p) == Ending(c.policy, c.stream)
          && (p.paused <==> PauseReached(c.policy, |c.stream.data|)))
  }

  ghost predicate SessionSafe(cfg: Config, x: Session)
    requires Usable(cfg)
  {
    && DirectionSafe(cfg.up, cfg.chunk, x.up)
    && DirectionSafe(cfg.down, cfg.chunk, x.down)
    && (x.phase == Finished ==>
          && (x.client == Closed <==> x.started && !x.late)
          && (x.upstream == Open <==> x.late))
  }

  lemma InvGivesDirectionSafe(c: Channel, chunk: nat, p: Pump)
    requires Accepted(c.policy) && chunk >= 1 && PumpInv(c, chunk, p)
    ensures DirectionSafe(c, chunk, p)
  {
    if Quiescent(c, chunk, p) && p.pc != Stopped(Broken) && p.pc != Stopped(Cancelled) {
      RestIsPromised(c, chunk, p);
    }
    assert p.delivered == (p.delivered + p.held)[..|p.delivered|];
    assert p.delivered == c.stream.data[..|p.delivered|];
  }

  lemma {:induction false} RunKeepsInv(cfg: Config, x: Session, acts: seq<Act>)
    requires Usable(cfg) && SessionInv(cfg, x) && SessionRun(cfg, x, acts).Some?
    ensures SessionInv(cfg, SessionRun(cfg, x, acts).value)
    decreases |acts|
  {
    if acts != [] {
      SessionStepKeepsInv(cfg, x, acts[0]);
      RunKeepsInv(cfg, SessionStep(cfg, x, acts[0]).value, acts[1..]);
    }
  }

  /** Interleaving safety: every schedule of a session, from its creation. */
  lemma EverySessionSafe(cfg: Config, acts: seq<Act>)
    requires Usable(cfg) && SessionRun(cfg, NEW, acts).Some?
    ensures SessionSafe(cfg, SessionRun(cfg, NEW, acts).value)
  {
    NewInv(cfg);
    RunKeepsInv(cfg, NEW, acts);
    var x := SessionRun(cfg, NEW, acts).value;
    InvGivesDirectionSafe(cfg.up, cfg.chunk, x.up);
    InvGivesDirectionSafe(cfg.down, cfg.chunk, x.down);
  }

  /** A session whose two pumps both reached end of stream passed both on in full. */
  lemma BothEofMeansAllDelivered(cfg: Config, acts: seq<Act>)
    requires Usable(cfg) && SessionRun(cfg, NEW, acts).Some?
    requires var x := SessionRun(cfg, NEW, acts).value; x.up.pc == Stopped(AtEof) && x.down.pc == Stopped(AtEof)
    ensures var x := SessionRun(cfg, NEW, acts).value;
            && x.up.delivered == cfg.up.stream.data == Delivered(cfg.up.policy, cfg.up.stream)
            && x.down.delivered == cfg.down.stream.data == Delivered(cfg.down.policy, cfg.down.stream)
  {
    NewInv(cfg);
    RunKeepsInv(cfg, NEW, acts);
  }

  // ----- every session comes to an end, or waits for a stated reason -----

  /** Failures, time-outs and cancellations: what the outside may or may not do. */
  predicate Disturbs(a: Act) {
    || a in {CancelFresh, AttemptFailed, Abort, Interrupt, CancelAgain, CancelLate}
    || (a.OnPump? && a.act == Break)
  }

  /** Only a disturbance could still move the session. */
  ghost predicate AtRest(cfg: Config, x: Session) {
    forall a :: !Disturbs(a) ==> SessionStep(cfg, x, a).None?
  }

  /** The gather of the pumps is over as soon as either of them raised, or both passed
      on the end of their stream, and not before. */
  lemma GatherEndsIff(cfg: Config, x: Session)
    requires x.phase == Pumping
    ensures SessionStep(cfg, x, Gathered).Some? <==>
            || (exists side :: Raised(Of(x, side)))
            || (forall side :: Of(x, side).pc == Stopped(AtEof))
  {
    assert Of(x, Up) == x.up && Of(x, Down) == x.down;
  }

  lemma PumpsAtRest(cfg: Config, x: Session, side: Side)
    requires AtRest(cfg, x) && x.phase == Pumping
    ensures Quiescent(Chan(cfg, side), cfg.chunk, Of(x, side))
  {
    forall a | a != Break ensures PumpStep(Chan(cfg, side), cfg.chunk, Of(x, side), a).None? {
      assert SessionStep(cfg, x, OnPump(side, a)).None?;
    }
  }

  lemma RestsWherePossible(cfg: Config, x: Session)
    requires AtRest(cfg, x)
    ensures x.phase == Finished || x.phase == Pumping
  {
    assert SessionStep(cfg, x, Start).None?;
    assert SessionStep(cfg, x, OpenUpstream).None? && SessionStep(cfg, x, Connected).None?;
    assert SessionStep(cfg, x, StopPump(Up, 0)).None? && SessionStep(cfg, x, StopPump(Down, 0)).None?;
    assert SessionStep(cfg, x, Resume).None? && SessionStep(cfg, x, Finish).None?;
  }

  /** Both directions of a session that waits: each has delivered what its policy
      promises, neither was cut, and at least one is parked or waits for its source. */
  ghost predicate WaitsForReason(cfg: Config, x: Session)
    requires Usable(cfg)
  {
    && x.phase == Pumping && x.client == x.upstream == Open
    && (forall side :: Of(x, side).delivered == Delivered(Chan(cfg, side).policy, Chan(cfg, side).stream))
    && (forall side :: Ending(Chan(cfg, side).policy, Chan(cfg, side).stream) != Disconnected)
    && exists side :: Ending(Chan(cfg, side).policy, Chan(cfg, side).stream) in {Parked, Starved}
  }

  lemma RestHasReason(cfg: Config, x: Session)
    requires Usable(cfg) && SessionInv(cfg, x) && AtRest(cfg, x)
    ensures x.phase == Finished || WaitsForReason(cfg, x)
  {
    RestsWherePossible(cfg, x);
    if x.phase == Pumping {
      assert SessionStep(cfg, x, Gathered).None?;
      GatherEndsIff(cfg, x);
      forall side
        ensures Of(x, side).delivered == Delivered(Chan(cfg, side).policy, Chan(cfg, side).stream)
        ensures Ending(Chan(cfg, side).policy, Chan(cfg, side).stream) == EndOf(Of(x, side)) != Disconnected
      {
        assert !Raised(Of(x, side));
        PumpsAtRest(cfg, x, side);
        RestIsPromised(Chan(cfg, side), cfg.chunk, Of(x, side));
      }
      var side :| Of(x, side).pc != Stopped(AtEof);
      assert EndOf(Of(x, side)) != Eof;
    }
  }

  /** In every schedule: a session that nothing but a failure, a time-out or a
      cancellation can move any more is finished, or both sockets are open and it waits
      for a reason stated by streams and policies alone. So it is finished whenever
      either policy cuts its stream, and whenever both streams end undisturbed. */
  lemma EverySessionRests(cfg: Config, acts: seq<Act>)
    requires Usable(cfg) && SessionRun(cfg, NEW, acts).Some? && AtRest(cfg, SessionRun(cfg, NEW, acts).value)
    ensures var x := SessionRun(cfg, NEW, acts).value;
            && (x.phase == Finished || WaitsForReason(cfg, x))
            && ((exists side :: Ending(Chan(cfg, side).policy, Chan(cfg, side).stream) == Disconnected) ==>
                x.phase == Finished)
            && ((forall side :: Ending(Chan(cfg, side).policy, Chan(cfg, side).stream) == Eof) ==>
                x.phase == Finished)
  {
    NewInv(cfg);
    RunKeepsInv(cfg, NEW, acts);
    RestHasReason(cfg, SessionRun(cfg, NEW, acts).value);
  }

  lemma {:induction false} RunSplit(cfg: Config, x: Session, a: seq<Act>, b: seq<Act>)
    requires SessionRun(cfg, x, a).Some?
    ensures SessionRun(cfg, x, a + b) == SessionRun(cfg, SessionRun(cfg, x, a).value, b)
    decreases |a|
  {
    if a == [] {
      assert a + b == b;
    } else {
      assert (a + b)[1..] == a[1..] + b;
      RunSplit(cfg, SessionStep(cfg, x, a[0]).value, a[1..], b);
    }
  }

  lemma OneStep(cfg: Config, x: Session, a: Act)
    requires SessionStep(cfg, x, a).Some?
    ensures SessionRun(cfg, x, [a]) == SessionStep(cfg, x, a)
  {
    assert [a][1..] == [];
  }

  lemma StopSide(cfg: Config, x: Session, side: Side) returns (acts: seq<Act>)
    requires x.phase in {Stopping, Waiting}
    ensures forall a :: a in acts ==> !Disturbs(a)
    ensures SessionRun(cfg, x, acts).Some?
    ensures var y := SessionRun(cfg, x, acts).value;
            && y == x.(up := y.up, down := y.down) && Of(y, side).pc.Stopped?
            && Of(y, if side.Up? then Down else Up) == Of(x, if side.Up? then Down else Up)
  {
    acts := if Of(x, side).pc.Stopped? then [] else [StopPump(side, 0)];
    if acts != [] { OneStep(cfg, x, StopPump(side, 0)); }
  }

  lemma StopBoth(cfg: Config, x: Session) returns (acts: seq<Act>)
    requires x.phase in {Stopping, Waiting}
    ensures forall a :: a in acts ==> !Disturbs(a)
    ensures SessionRun(cfg, x, acts).Some?
    ensures var y := SessionRun(cfg, x, acts).value; y == x.(up := y.up, down := y.down) && BothStopped(y)
  {
    var a := StopSide(cfg, x, Up);
    var mid := SessionRun(cfg, x, a).value;
    var b := StopSide(cfg, mid, Down);
    RunSplit(cfg, x, a, b);
    acts := a + b;
  }

  /** The clean-up, once it waits, goes through undisturbed and closes both sockets. */
  lemma WaitingCloses(cfg: Config, x: Session) returns (acts: seq<Act>)
    requires x.phase == Waiting && !x.late && x.client == x.upstream == Open
    ensures forall a :: a in acts ==> !Disturbs(a)
    ensures var r := SessionRun(cfg, x, acts);
            r.Some? && r.value.phase == Finished && r.value.client == r.value.upstream == Closed
  {
    var stops := StopBoth(cfg, x);
    var y := SessionRun(cfg, x, stops).value;
    RunSplit(cfg, x, stops, [Finish]);
    OneStep(cfg, y, Finish);
    acts := stops + [Finish];
  }

  /** From a pump that was cut or failed, on either side, and from an interruption, the
      session can always go on to its end by itself and then has closed both sockets. */
  lemma StoppedSessionCloses(cfg: Config, x: Session) returns (acts: seq<Act>)
    requires Usable(cfg) && SessionInv(cfg, x)
    requires x.phase == Stopping || (x.phase == Pumping && exists side :: Raised(Of(x, side)))
    ensures forall a :: a in acts ==> !Disturbs(a)
    ensures var r := SessionRun(cfg, x, acts);
            r.Some? && r.value.phase == Finished && r.value.client == r.value.upstream == Closed
  {
    var stops := [];
    if x.phase == Stopping { stops := StopBoth(cfg, x); }
    var y := SessionRun(cfg, x, stops).value;
    var a := if x.phase == Stopping then Resume else Gathered;
    if a == Gathered { GatherEndsIff(cfg, y); }
    RunSplit(cfg, x, stops, [a]);
    OneStep(cfg, y, a);
    var z := SessionStep(cfg, y, a).value;
    var rest := [];
    if z.phase == Waiting { rest := WaitingCloses(cfg, z); }
    RunSplit(cfg, x, stops + [a], rest);
    acts := stops + [a] + rest;
  }

  // ----- which sockets a session leaves open -----

  lemma StepFlags(cfg: Config, x: Session, a: Act)
    requires SessionStep(cfg, x, a).Some?
    ensures var y := SessionStep(cfg, x, a).value;
            (y.started <==> x.started || a == Start) && (y.late <==> x.late || a == CancelLate)
  {
  }

  lemma {:induction false} FlagsAre(cfg: Config, x: Session, acts: seq<Act>)
    requires SessionRun(cfg, x, acts).Some?
    ensures var y := SessionRun(cfg, x, acts).value;
            && (y.started <==> x.started || Start in acts)
            && (y.late <==> x.late || CancelLate in acts)
    decreases |acts|
  {
    if acts != [] {
      StepFlags(cfg, x, acts[0]);
      FlagsAre(cfg, SessionStep(cfg, x, acts[0]).value, acts[1..]);
    }
  }

  /** A finished session leaves its client socket to its callback iff it never took
      a first step or was cancelled while waiting in the clean-up, and leaves the
      upstream socket open iff it was so cancelled. A cancellation that comes while
      an earlier one is being passed on changes nothing. With eager gathers the
      wait, and so the leak, needs a pump that raised. */
  lemma SocketsLeftOpen(cfg: Config, acts: seq<Act>)
    requires Usable(cfg) && SessionRun(cfg, NEW, acts).Some? && SessionRun(cfg, NEW, acts).value.phase == Finished
    ensures var x := SessionRun(cfg, NEW, acts).value;
            && (x.client == Open <==> Start !in acts || CancelLate in acts)
            && (x.upstream == Open <==> CancelLate in acts)
            && (cfg.eager && CancelLate in acts ==> Raised(x.up) || Raised(x.down))
  {
    NewInv(cfg);
    RunKeepsInv(cfg, NEW, acts);
    FlagsAre(cfg, NEW, acts);
  }

  const OPENING := [Start, OpenUpstream, Connected]

  /** A session with both sockets open and its pumps about to run. */
  const RUNNING := NEW.(phase := Pumping, started := true, upstream := Open)

  lemma Opens(cfg: Config, acts: seq<Act>)
    ensures SessionRun(cfg, NEW, OPENING + acts) == SessionRun(cfg, RUNNING, acts)
  {
    var connecting := NEW.(phase := Connecting, started := true);
    RunCons(cfg, NEW, Start, [OpenUpstream, Connected] + acts);
    RunCons(cfg, connecting, OpenUpstream, [Connected] + acts);
    RunCons(cfg, connecting.(upstream := Open), Connected, acts);
    assert OPENING + acts == [Start] + ([OpenUpstream, Connected] + acts);
    assert [OpenUpstream, Connected] + acts == [OpenUpstream] + ([Connected] + acts);
  }

  lemma RunCons(cfg: Config, x: Session, a: Act, rest: seq<Act>)
    requires SessionStep(cfg, x, a).Some?
    ensures SessionRun(cfg, x, [a] + rest) == SessionRun(cfg, SessionStep(cfg, x, a).value, rest)
  {
    assert ([a] + rest)[1..] == rest;
  }

  /** It happens: the up pump cuts the session, and while the clean-up waits for the
      other one the task is cancelled. */
  lemma LateCancelLeavesUpstreamOpen(cfg: Config)
    requires cfg.up.policy.disconnectAfter == Some(0)
    ensures var r := SessionRun(cfg, NEW, OPENING +
        [OnPump(Up, Decide), Gathered, CancelLate, StopPump(Down, 0), Finish]);
            r.Some? && r.value.phase == Finished && r.value.upstream == Open
  {
    Opens(cfg, [OnPump(Up, Decide), Gathered, CancelLate, StopPump(Down, 0), Finish]);
  }

  /** Before eager gathers an interrupted session can leak as well, if the second
      cancellation comes after its pumps have ended. */
  lemma LateCancelAfterInterrupt(cfg: Config)
    requires !cfg.eager
    ensures var r := SessionRun(cfg, NEW, OPENING +
        [Interrupt, StopPump(Up, 0), StopPump(Down, 0), Resume, CancelLate, Finish]);
            r.Some? && r.value.phase == Finished && r.value.upstream == Open
  {
    Opens(cfg, [Interrupt, StopPump(Up, 0), StopPump(Down, 0), Resume, CancelLate, Finish]);
    var stopping := RUNNING.(phase := Stopping);
    var ended := IDLE.(pc := Stopped(Cancelled));
    RunCons(cfg, RUNNING, Interrupt, [StopPump(Up, 0), StopPump(Down, 0), Resume, CancelLate, Finish]);
    RunCons(cfg, stopping, StopPump(Up, 0), [StopPump(Down, 0), Resume, CancelLate, Finish]);
    RunCons(cfg, stopping.(up := ended), StopPump(Down, 0), [Resume, CancelLate, Finish]);
  }
}
