/** The proxy itself: an accept loop under an admission limit, session tasks with
    their done-callbacks, and close(), interleaved in any order. */
module ProxyServer {
  import opened Wrappers
  import opened ProxyForward
  import opened ProxySession

  type Id = nat

  /** What the constructor of the proxy accepts. */
  datatype Settings = Settings(c2s: Direction, s2c: Direction, chunkBytes: nat, maxConnections: nat, eager: bool)

  predicate Admitted(g: Settings) {
    && Accepted(g.c2s) && Accepted(g.s2c)
    && 1 <= g.chunkBytes <= 1048576 && 1 <= g.maxConnections <= 1024
  }

  /** A session task. `discarded` and `swept` say which done-callbacks have run:
      the one that drops it from the session set, then the one that closes the
      client socket. */
  datatype Task = Task(cfg: Config, session: Session, discarded: bool, swept: bool)

  datatype Stage = Unstarted | Listening | StoppingAccept | Draining(awaited: set<Id>) | Shut

  /** `dropped`: connections accepted just as the accept task was cancelled. */
  datatype Proxy = Proxy(stage: Stage, sessions: set<Id>, tasks: map<Id, Task>, next: Id, refused: nat, dropped: nat)

  const BLANK := Proxy(Unstarted, {}, map[], 0, 0, 0)

  datatype Event =
    | Listen
    | Arrive(up: Stream, down: Stream)   // a client connects
    | OnSession(id: Id, act: Act)
    | Discard(id: Id)                    // first done-callback
    | Sweep(id: Id)                      // second done-callback
    | CallClose                          // close(): cancel the accept task
    | AcceptStopped(lost: bool)          // cancel every session, wait for all; an accept may have been lost
    | SessionsGathered                   // all awaited sessions are done

  predicate ClientClosed(t: Task) { t.swept || t.session.client.Closed? }

  predicate Ended(t: Task) { t.session.phase.Finished? }

  function Admit(g: Settings, x: Proxy, up: Stream, down: Stream): Proxy {
    if |x.sessions| >= g.maxConnections then x.(refused := x.refused + 1)
    else
      var cfg := Config(Channel(g.c2s, up), Channel(g.s2c, down), g.chunkBytes, g.eager);
      x.(tasks := x.tasks[x.next := Task(cfg, NEW, false, false)], sessions := x.sessions +
          {x.next}, next := x.next + 1)
  }

  function OnTask(x: Proxy, id: Id, act: Act): Option<Proxy>
    requires id in x.tasks
  {
    var t := x.tasks[id];
    match SessionStep(t.cfg, t.session, act)
    case None => None
    case Some(s) => Some(x.(tasks := x.tasks[id := t.(session := s)]))
  }

  function Step(g: Settings, x: Proxy, e: Event): Option<Proxy> {
    match e
    case Listen => if x.stage.Unstarted? then Some(x.(stage := Listening)) else None
    case Arrive(up, down) => if x.stage.Listening? then Some(Admit(g, x, up, down)) else None
    case OnSession(id, act) => if id in x.tasks then OnTask(x, id, act) else None
    case Discard(id) =>
      if id in x.tasks && Ended(x.tasks[id]) && !x.tasks[id].discarded
      then Some(x.(sessions := x.sessions - {id}, tasks := x.tasks[id := x.tasks[id].(discarded := true)]))
      else None
    case Sweep(id) =>
      if id in x.tasks && x.tasks[id].discarded && !x.tasks[id].swept
      then Some(x.(tasks := x.tasks[id := x.tasks[id].(swept := true)]))
      else None
    case CallClose =>
      if x.stage.Listening? then Some(x.(stage := StoppingAccept))
      else if x.stage.Unstarted? then Some(x.(stage := Draining(x.sessions)))
      else None
    case AcceptStopped(lost) =>
      if x.stage.StoppingAccept?
      then Some(x.(stage := Draining(x.sessions), dropped := x.dropped + if lost then 1 else 0))
      else None
    case SessionsGathered =>
      if x.stage.Draining? && forall id :: id in x.stage.awaited && id in x.tasks ==> Ended(x.tasks[id])
      then Some(x.(stage := Shut, sessions := {}))
      else None
  }

  // ----- what holds at every moment -----

  ghost predicate TaskOk(g: Settings, x: Proxy, id: Id)
    requires id in x.tasks
  {
    var t := x.tasks[id];
    && id < x.next
    && Usable(t.cfg) && t.cfg.chunk == g.chunkBytes && t.cfg.up.policy == g.c2s && t.cfg.down.policy == g.s2c
    && t.cfg.eager == g.eager
    && SessionInv(t.cfg, t.session)
    && (t.swept ==> t.discarded)
    && (t.discarded ==> Ended(t))
    && (!x.stage.Shut? ==> (id in x.sessions <==> !t.discarded))
    && (x.stage.Draining? && id !in x.stage.awaited ==> Ended(t))
    && (x.stage.Shut? ==> Ended(t))
  }

  ghost predicate ProxyInv(g: Settings, x: Proxy) {
    && |x.sessions| <= g.maxConnections
    && x.sessions <= x.tasks.Keys
    && (forall id {:trigger TaskOk(g, x, id)} :: id in x.tasks ==> TaskOk(g, x, id))
    && (x.stage.Unstarted? ==> x.tasks == map[])
    && (x.stage.Shut? ==> x.sessions == {})
  }

  lemma ArrivalKeepsInv(g: Settings, x: Proxy, up: Stream, down: Stream)
    requires Admitted(g) && ProxyInv(g, x) && x.stage.Listening?
    ensures ProxyInv(g, Admit(g, x, up, down))
  {
    var y := Admit(g, x, up, down);
    forall id | id in y.tasks ensures TaskOk(g, y, id) {
      if id in x.tasks { assert TaskOk(g, x, id); }
    }
  }

  lemma StepKeepsProxyInv(g: Settings, x: Proxy, e: Event)
    requires Admitted(g) && ProxyInv(g, x) && Step(g, x, e).Some?
    ensures ProxyInv(g, Step(g, x, e).value)
  {
    var y := Step(g, x, e).value;
    if e.Arrive? {
      ArrivalKeepsInv(g, x, e.up, e.down);
      return;
    }
    forall id | id in y.tasks ensures TaskOk(g, y, id) {
      assert TaskOk(g, x, id);
      if e.OnSession? && e.id == id {
        SessionStepKeepsInv(x.tasks[id].cfg, x.tasks[id].session, e.act);
      }
    }
  }

  function Run(g: Settings, x: Proxy, es: seq<Event>): Option<Proxy>
    decreases |es|
  {
    if es == [] then Some(x)
    else
      match Step(g, x, es[0])
      case None => None
      case Some(y) => Run(g, y, es[1..])
  }

  lemma {:induction false} RunKeepsProxyInv(g: Settings, x: Proxy, es: seq<Event>)
    requires Admitted(g) && ProxyInv(g, x) && Run(g, x, es).Some?
    ensures ProxyInv(g, Run(g, x, es).value)
    decreases |es|
  {
    if es != [] {
      StepKeepsProxyInv(g, x, es[0]);
      RunKeepsProxyInv(g, Step(g, x, es[0]).value, es[1..]);
    }
  }

  // ----- what a user of the proxy relies on -----

  /** No done-callback is waiting to run. */
  ghost predicate CallbacksDone(g: Settings, x: Proxy) {
    forall id :: Step(g, x, Discard(id)).None? && Step(g, x, Sweep(id)).None?
  }

  /** Admission: the session set stays within the limit and, until close() has
      returned, holds exactly the tasks whose discard has not run; so with no
      callback pending it holds exactly the unfinished ones. Every direction of
      every session is safe. */
  lemma EveryProxyRunSafe(g: Settings, es: seq<Event>)
    requires Admitted(g) && Run(g, BLANK, es).Some?
    ensures var x := Run(g, BLANK, es).value;
            && |x.sessions| <= g.maxConnections
            && (forall id :: id in x.sessions ==> id in x.tasks)
            && (forall id :: id in x.tasks ==>
                Usable(x.tasks[id].cfg) && SessionSafe(x.tasks[id].cfg, x.tasks[id].session))
            && (CallbacksDone(g, x) ==> forall id :: id in x.sessions <==> id in x.tasks && !Ended(x.tasks[id]))
  {
    RunKeepsProxyInv(g, BLANK, es);
    var x := Run(g, BLANK, es).value;
    forall id | id in x.tasks
      ensures Usable(x.tasks[id].cfg) && SessionSafe(x.tasks[id].cfg, x.tasks[id].session)
      ensures CallbacksDone(g, x) ==> (id in x.sessions <==> !Ended(x.tasks[id]))
    {
      assert TaskOk(g, x, id);
      var t := x.tasks[id];
      InvGivesDirectionSafe(t.cfg.up, t.cfg.chunk, t.session.up);
      InvGivesDirectionSafe(t.cfg.down, t.cfg.chunk, t.session.down);
      if CallbacksDone(g, x) { assert Step(g, x, Discard(id)).None?; }
    }
  }

  /** A connection was taken from the listener. */
  predicate Brings(e: Event) { e.Arrive? || (e.AcceptStopped? && e.lost) }

  function Arrivals(es: seq<Event>): nat {
    if es == [] then 0 else (if Brings(es[0]) then 1 else 0) + Arrivals(es[1..])
  }

  /** Task numbers are handed out one after the other. */
  ghost predicate Numbered(x: Proxy) {
    forall id: Id :: id in x.tasks <==> id < x.next
  }

  /** 1 once the accept task has stopped. */
  function Closing(stage: Stage): nat { if stage.Draining? || stage.Shut? then 1 else 0 }

  lemma StepCounts(g: Settings, x: Proxy, e: Event)
    requires Numbered(x) && Step(g, x, e).Some?
    ensures var y := Step(g, x, e).value;
            && Numbered(y) && (x.dropped <= Closing(x.stage) ==> y.dropped <= Closing(y.stage))
            && y.next + y.refused + y.dropped == x.next + x.refused + x.dropped + if Brings(e) then 1 else 0
  {
  }

  lemma {:induction false} ArrivalsCounted(g: Settings, x: Proxy, es: seq<Event>)
    requires Numbered(x) && x.dropped <= Closing(x.stage) && Run(g, x, es).Some?
    ensures var y := Run(g, x, es).value;
            && Numbered(y) && y.dropped <= Closing(y.stage)
            && y.next + y.refused + y.dropped == x.next + x.refused + x.dropped + Arrivals(es)
    decreases |es|
  {
    if es != [] {
      StepCounts(g, x, es[0]);
      ArrivalsCounted(g, Step(g, x, es[0]).value, es[1..]);
    }
  }

  /** Conservation: every connection ever accepted got a session task of its own or
      was refused, but for at most one that was lost as close() cancelled the accept
      task; and refusal happens exactly when the session set is full. */
  lemma EveryArrivalAccounted(g: Settings, es: seq<Event>, up: Stream, down: Stream)
    requires Admitted(g) && Run(g, BLANK, es).Some?
    ensures var x := Run(g, BLANK, es).value;
            && |x.tasks| + x.refused + x.dropped == Arrivals(es)
            && x.dropped <= Closing(x.stage)
            && Admit(g, x, up, down).refused == x.refused + (if |x.sessions| == g.maxConnections then 1 else 0)
  {
    RunKeepsProxyInv(g, BLANK, es);
    ArrivalsCounted(g, BLANK, es);
    var x := Run(g, BLANK, es).value;
    CountBelow(x.tasks.Keys, x.next);
  }

  lemma {:induction false} CountBelow(ids: set<Id>, n: nat)
    requires forall id: Id :: id in ids <==> id < n
    ensures |ids| == n
  {
    if n == 0 {
      assert ids == {};
    } else {
      CountBelow(ids - {n - 1}, n - 1);
    }
  }

  /** Clean-up: once a finished task's callbacks have run its client socket is
      closed, however the task ended, also when it never took a first step. */
  lemma FinishedClientsClose(g: Settings, es: seq<Event>, id: Id)
    requires Admitted(g) && Run(g, BLANK, es).Some?
    requires var x := Run(g, BLANK, es).value; id in x.tasks && Ended(x.tasks[id]) && CallbacksDone(g, x)
    ensures ClientClosed(Run(g, BLANK, es).value.tasks[id])
  {
    RunKeepsProxyInv(g, BLANK, es);
    var x := Run(g, BLANK, es).value;
    assert TaskOk(g, x, id);
    assert Step(g, x, Discard(id)).None? && Step(g, x, Sweep(id)).None?;
  }

  predicate StartedIn(x: Proxy, id: Id) { id in x.tasks && x.tasks[id].session.started }

  predicate LateIn(x: Proxy, id: Id) { id in x.tasks && x.tasks[id].session.late }

  lemma StepTaskFlags(g: Settings, x: Proxy, e: Event, id: Id)
    requires Numbered(x) && Step(g, x, e).Some?
    ensures var y := Step(g, x, e).value;
            && Numbered(y)
            && (StartedIn(y, id) <==> StartedIn(x, id) || e == OnSession(id, Start))
            && (LateIn(y, id) <==> LateIn(x, id) || e == OnSession(id, CancelLate))
  {
    match e
    case OnSession(i, act) => StepFlags(x.tasks[i].cfg, x.tasks[i].session, act);
    case Arrive(up, down) =>
    case Discard(i) =>
    case Sweep(i) =>
    case _ =>
      assert Step(g, x, e).value.tasks == x.tasks;
  }

  lemma {:induction false} TaskFlagsAre(g: Settings, x: Proxy, es: seq<Event>, id: Id)
    requires Numbered(x) && Run(g, x, es).Some?
    ensures var y := Run(g, x, es).value;
            && (StartedIn(y, id) <==> StartedIn(x, id) || OnSession(id, Start) in es)
            && (LateIn(y, id) <==> LateIn(x, id) || OnSession(id, CancelLate) in es)
    decreases |es|
  {
    if es != [] {
      StepTaskFlags(g, x, es[0], id);
      TaskFlagsAre(g, Step(g, x, es[0]).value, es[1..], id);
    }
  }

  /** Without that callback the clean-up would be incomplete: a finished task has
      left its client open iff it took no first step or was cancelled while waiting
      in the clean-up, and its upstream open iff it was so cancelled. */
  lemma OwnCleanUpIsPartial(g: Settings, es: seq<Event>, id: Id)
    requires Admitted(g) && Run(g, BLANK, es).Some?
    requires var x := Run(g, BLANK, es).value; id in x.tasks && Ended(x.tasks[id])
    ensures var s := Run(g, BLANK, es).value.tasks[id].session;
            && (s.client.Open? <==> OnSession(id, Start) !in es || OnSession(id, CancelLate) in es)
            && (s.upstream.Open? <==> OnSession(id, CancelLate) in es)
            && (g.eager && OnSession(id, CancelLate) in es ==> Raised(s.up) || Raised(s.down))
  {
    RunKeepsProxyInv(g, BLANK, es);
    assert TaskOk(g, Run(g, BLANK, es).value, id);
    TaskFlagsAre(g, BLANK, es, id);
  }

  /** After close(): no session is registered, none can start and none takes
      another step, whatever happens next; only callbacks are left. */
  lemma {:induction false} ShutIsFinal(g: Settings, x: Proxy, es: seq<Event>)
    requires Admitted(g) && ProxyInv(g, x) && x.stage.Shut? && Run(g, x, es).Some?
    ensures var y := Run(g, x, es).value;
            && y.stage.Shut? && y.sessions == {} && y.tasks.Keys == x.tasks.Keys
            && forall id :: id in x.tasks ==> Ended(x.tasks[id]) && y.tasks[id].session == x.tasks[id].session
    decreases |es|
  {
    forall id | id in x.tasks ensures Ended(x.tasks[id]) { assert TaskOk(g, x, id); }
    if es != [] {
      StepKeepsProxyInv(g, x, es[0]);
      var z := Step(g, x, es[0]).value;
      assert !es[0].OnSession? by {
        if es[0].OnSession? { FinishedTakesNoStep(x.tasks[es[0].id].cfg, x.tasks[es[0].id].session, es[0].act); }
      }
      ShutIsFinal(g, z, es[1..]);
    }
  }

  lemma FinishedTakesNoStep(cfg: Config, s: Session, a: Act)
    ensures s.phase.Finished? ==> SessionStep(cfg, s, a).None?
  {
  }

  lemma EveryShutdownIsFinal(g: Settings, es: seq<Event>, more: seq<Event>)
    requires Admitted(g) && Run(g, BLANK, es).Some? && Run(g, BLANK, es).value.stage.Shut?
    requires Run(g, Run(g, BLANK, es).value, more).Some?
    ensures var x := Run(g, BLANK, es).value;
            var y := Run(g, x, more).value;
            && y.sessions == {} && y.tasks.Keys == x.tasks.Keys
            && (forall id :: id in y.tasks ==> Ended(y.tasks[id]) && y.tasks[id].session == x.tasks[id].session)
            && (CallbacksDone(g, y) ==> forall id :: id in y.tasks ==> ClientClosed(y.tasks[id]))
  {
    RunKeepsProxyInv(g, BLANK, es);
    var x := Run(g, BLANK, es).value;
    ShutIsFinal(g, x, more);
    RunKeepsProxyInv(g, x, more);
    var y := Run(g, x, more).value;
    if CallbacksDone(g, y) {
      forall id | id in y.tasks ensures ClientClosed(y.tasks[id]) {
        assert TaskOk(g, y, id);
        assert Step(g, y, Discard(id)).None? && Step(g, y, Sweep(id)).None?;
      }
    }
  }

  // ----- which client is served how -----

  /** An accepted connection with room for it becomes a session of its own, with the
      streams it brought under the policies of its directions; without room it is
      refused. Either way nothing else changes. */
  lemma ArrivalServed(g: Settings, x: Proxy, up: Stream, down: Stream)
    requires Numbered(x) && x.stage.Listening?
    ensures var y := Step(g, x, Arrive(up, down)).value;
            if |x.sessions| < g.maxConnections then
              && y == x.(tasks := y.tasks, sessions := x.sessions + {x.next}, next := x.next + 1)
              && x.next !in x.tasks && y.tasks.Keys == x.tasks.Keys + {x.next}
              && (forall id :: id in x.tasks ==> y.tasks[id] == x.tasks[id])
              && var t := y.tasks[x.next];
                 && t.cfg == Config(Channel(g.c2s, up), Channel(g.s2c, down), g.chunkBytes, g.eager)
                 && t.session.phase == Fresh && !t.discarded && !t.swept
            else y == x.(refused := x.refused + 1)
  {
  }

  lemma TasksKeepConfig(g: Settings, x: Proxy, e: Event, id: Id)
    requires Numbered(x) && Step(g, x, e).Some? && id in Step(g, x, e).value.tasks
    ensures var cfg := Step(g, x, e).value.tasks[id].cfg;
            if id in x.tasks then cfg == x.tasks[id].cfg
            else e == Arrive(cfg.up.stream, cfg.down.stream)
  {
  }

  lemma {:induction false} StreamsCome(g: Settings, x: Proxy, es: seq<Event>, id: Id)
    requires Numbered(x) && Run(g, x, es).Some? && id in Run(g, x, es).value.tasks
    ensures var cfg := Run(g, x, es).value.tasks[id].cfg;
            if id in x.tasks then cfg == x.tasks[id].cfg
            else Arrive(cfg.up.stream, cfg.down.stream) in es
    decreases |es|
  {
    if es != [] {
      StepCounts(g, x, es[0]);
      var y := Step(g, x, es[0]).value;
      StreamsCome(g, y, es[1..], id);
      if id in y.tasks { TasksKeepConfig(g, x, es[0], id); }
    }
  }

  /** Every task serves a connection that arrived: its upstream gets a prefix of what
      that client sent, never more than the first policy lets through, and the client
      a prefix of what upstream answered, never more than the second one does. */
  lemma EveryTaskServesItsClient(g: Settings, es: seq<Event>, id: Id) returns (up: Stream, down: Stream)
    requires Admitted(g) && Run(g, BLANK, es).Some? && id in Run(g, BLANK, es).value.tasks
    ensures Arrive(up, down) in es
    ensures var s := Run(g, BLANK, es).value.tasks[id].session;
            && s.up.delivered <= up.data && |s.up.delivered| <= DeliveredCount(g.c2s, |up.data|)
            && s.down.delivered <= down.data && |s.down.delivered| <= DeliveredCount(g.s2c, |down.data|)
  {
    RunKeepsProxyInv(g, BLANK, es);
    StreamsCome(g, BLANK, es, id);
    var t := Run(g, BLANK, es).value.tasks[id];
    assert TaskOk(g, Run(g, BLANK, es).value, id);
    up, down := t.cfg.up.stream, t.cfg.down.stream;
    InvGivesDirectionSafe(t.cfg.up, t.cfg.chunk, t.session.up);
    InvGivesDirectionSafe(t.cfg.down, t.cfg.chunk, t.session.down);
  }

  // ----- every proxy comes to rest -----

  /** What happens by itself: what a session does undisturbed, the callbacks, the end
      of the accept task, and close() going on. While close() waits, every session it
      waits for has been cancelled. */
  predicate Urgent(x: Proxy, e: Event) {
    match e
    case OnSession(_, act) => !Disturbs(act) || (x.stage.Draining? && act in {CancelFresh, Abort, Interrupt})
    case Discard(_) => true
    case Sweep(_) => true
    case AcceptStopped(_) => true
    case SessionsGathered => true
    case _ => false
  }

  ghost predicate ProxyAtRest(g: Settings, x: Proxy) {
    forall e :: Urgent(x, e) ==> Step(g, x, e).None?
  }

  lemma SessionsAtRest(g: Settings, x: Proxy, id: Id)
    requires ProxyAtRest(g, x) && id in x.tasks
    ensures AtRest(x.tasks[id].cfg, x.tasks[id].session)
    ensures x.stage.Draining? ==> SessionStep(x.tasks[id].cfg, x.tasks[id].session, Interrupt).None?
  {
    var t := x.tasks[id];
    forall act | !Disturbs(act) || (x.stage.Draining? && act == Interrupt)
      ensures SessionStep(t.cfg, t.session, act).None?
    {
      assert Urgent(x, OnSession(id, act));
      assert Step(g, x, OnSession(id, act)).None?;
    }
  }

  lemma TaskAtRest(g: Settings, x: Proxy, id: Id)
    requires Admitted(g) && ProxyInv(g, x) && ProxyAtRest(g, x) && id in x.tasks
    ensures Usable(x.tasks[id].cfg)
    ensures Ended(x.tasks[id]) || (!x.stage.Draining? && WaitsForReason(x.tasks[id].cfg, x.tasks[id].session))
  {
    assert TaskOk(g, x, id);
    SessionsAtRest(g, x, id);
    RestHasReason(x.tasks[id].cfg, x.tasks[id].session);
  }

  lemma RestIsStable(g: Settings, x: Proxy)
    requires Admitted(g) && ProxyInv(g, x) && ProxyAtRest(g, x)
    ensures CallbacksDone(g, x) && (x.stage.Unstarted? || x.stage.Listening? || x.stage.Shut?)
  {
    forall id ensures Step(g, x, Discard(id)).None? && Step(g, x, Sweep(id)).None? {
      assert Urgent(x, Discard(id)) && Urgent(x, Sweep(id));
    }
    assert Step(g, x, AcceptStopped(false)).None? && Step(g, x, SessionsGathered).None?;
    if x.stage.Draining? {
      forall id | id in x.tasks ensures Ended(x.tasks[id]) { TaskAtRest(g, x, id); }
    }
  }

  /** In every run: a proxy that nothing moves by itself any more has run all callbacks,
      and each of its tasks is over with its client closed, or is registered and waits
      for a reason stated by streams and policies. close() is then either not called or
      has returned, and in the latter case every task is over. */
  lemma EveryProxyRests(g: Settings, es: seq<Event>)
    requires Admitted(g) && Run(g, BLANK, es).Some? && ProxyAtRest(g, Run(g, BLANK, es).value)
    ensures var x := Run(g, BLANK, es).value;
            && CallbacksDone(g, x) && (x.stage.Unstarted? || x.stage.Listening? || x.stage.Shut?)
            && (forall id :: id in x.tasks ==>
                  && Usable(x.tasks[id].cfg)
                  && if id in x.sessions then WaitsForReason(x.tasks[id].cfg, x.tasks[id].session)
                     else Ended(x.tasks[id]) && ClientClosed(x.tasks[id]))
            && (x.stage.Shut? ==> x.sessions == {})
  {
    RunKeepsProxyInv(g, BLANK, es);
    var x := Run(g, BLANK, es).value;
    RestIsStable(g, x);
    forall id | id in x.tasks
      ensures Usable(x.tasks[id].cfg)
      ensures if id in x.sessions then WaitsForReason(x.tasks[id].cfg, x.tasks[id].session)
              else Ended(x.tasks[id]) && ClientClosed(x.tasks[id])
    {
      assert TaskOk(g, x, id);
      TaskAtRest(g, x, id);
      assert Step(g, x, Discard(id)).None? && Step(g, x, Sweep(id)).None?;
    }
  }
}
