/**
  The runtime a destination coordinator drives: which sinks are attached to the PCM router,
  and which sinks and metadata publishers have been started and not yet stopped.

  Every operation may fail in several ways; which ones do is a fault pattern over the number of
  operations performed so far. The effect of a fault is the one `PcmSinkRouter.attach` and
  `PcmSinkRouter.detach` have for ordinary exceptions.
 */
module Runtime {

  /**
    What a coordinator asks for. A destination is built with one sink and at most one publisher,
    so one serial number names both.
   */
  datatype Operation =
    | Attach(serial: nat)
    | Detach(serial: nat, stop: bool)
    | Stop(serial: nat)
    | StartMetadata(serial: nat)
    | StopMetadata(serial: nat)

  datatype Fault = Fault(
    // it raises before it has done anything, as a stopped runtime does when asked to attach
    refused: bool,
    // the sink or publisher raises when it is started or stopped
    fails: bool,
    // a sink that raises when started runs nevertheless
    partlyOpen: bool,
    // `sink.stop()` raises where the router swallows it
    unstopped: bool)

  const CALM := Fault(false, false, false, false)

  datatype Environment = Environment(routerRunning: bool, faults: (nat, Operation) -> Fault)

  /** What is true of one sink and its publisher, and which of its operations have gone wrong. */
  datatype Status = Status(
    attached: bool,
    live: bool,
    publishing: bool,
    // the latest attachment raised
    attachFailed: bool,
    // a detach-and-stop raised
    detachFailed: bool,
    // a stop failed, noticed by the caller or not
    unstopped: bool,
    publisherUnstopped: bool)

  const IDLE := Status(false, false, false, false, false, false, false)

  type World = map<nat, Status>

  function At(w: World, s: nat): Status {
    if s in w then w[s] else IDLE
  }

  ghost function Attached(w: World): set<nat> {
    set s | s in w && w[s].attached
  }

  datatype Ending = Returned | StopSwallowed | Raised

  datatype Entry = Entry(operation: Operation, ending: Ending)

  /** The world, and the log of what has been invoked and how it ended. */
  datatype Machine = Machine(world: World, log: seq<Entry>) {
    predicate LastRaised() {
      log != [] && log[|log| - 1].ending.Raised?
    }
  }

  /**
    `attach_sink`. A sink that does not start is unattached again and stopped, but that stop may
    fail unnoticed. A sink that is attached is left alone.
   */
  function AttachEffect(st: Status, fault: Fault, routerRunning: bool): (Status, Ending) {
    if fault.refused then (st.(attachFailed := true), Ending.Raised)
    else if st.attached then (st.(attachFailed := false), Returned)
    else if !routerRunning then (st.(attached := true, attachFailed := false), Returned)
    else if !fault.fails then (st.(attached := true, live := true, attachFailed := false), Returned)
    else
      (st.(live := fault.unstopped && (st.live || fault.partlyOpen), unstopped := st.unstopped || fault.unstopped,
           attachFailed := true), Ending.Raised)
  }

  /**
    `detach_sink`. A detach that raises leaves the sink attached. A sink that is not attached is
    left alone, and the router swallows a failing `stop`.
   */
  function DetachEffect(st: Status, stop: bool, fault: Fault): (Status, Ending) {
    if fault.refused then (st.(detachFailed := st.detachFailed || stop), Ending.Raised)
    else if !st.attached then (st, Returned)
    else if !stop then (st.(attached := false), Returned)
    else if fault.unstopped then (st.(attached := false, unstopped := true), StopSwallowed)
    else (st.(attached := false, live := false), Returned)
  }

  function Effect(st: Status, op: Operation, fault: Fault, routerRunning: bool): (Status, Ending) {
    match op
    case Attach(_) => AttachEffect(st, fault, routerRunning)
    case Detach(_, stop) => DetachEffect(st, stop, fault)
    case Stop(_) =>
      if fault.fails then (st.(unstopped := true), Ending.Raised) else (st.(live := false), Returned)
    case StartMetadata(_) =>
      if fault.refused then (st, Ending.Raised)
      else (st.(publishing := true), if fault.fails then Ending.Raised else Returned)
    case StopMetadata(_) =>
      if fault.fails then (st.(publisherUnstopped := true), Ending.Raised) else (st.(publishing := false), Returned)
  }

  function Perform(m: Machine, op: Operation, env: Environment): Machine {
    var (st, ending) := Effect(At(m.world, op.serial), op, env.faults(|m.log|, op), env.routerRunning);
    Machine(m.world[op.serial := st], m.log + [Entry(op, ending)])
  }

  // What a stretch of operations leaves alone, and which of them raised.

  /** The two worlds agree on every resource outside `x`. */
  ghost predicate SameOutside(w: World, w': World, x: set<nat>) {
    forall s: nat | s !in x :: At(w, s) == At(w', s)
  }

  /** `m'` comes from `m` by operations on the resources in `x` only. */
  ghost predicate Operates(m: Machine, m': Machine, x: set<nat>) {
    && m.log <= m'.log
    && (forall i | |m.log| <= i < |m'.log| :: m'.log[i].operation.serial in x)
    && SameOutside(m.world, m'.world, x)
  }

  lemma OperatesComposes(m: Machine, m': Machine, m'': Machine, x: set<nat>, y: set<nat>)
    requires Operates(m, m', x) && Operates(m', m'', y)
    ensures Operates(m, m'', x + y)
  {
  }

  /** No resource from serial number `next` on has been operated on. */
  ghost predicate Bounded(w: World, next: nat) {
    forall s: nat | s >= next :: At(w, s) == IDLE
  }

  /** The operations that raised, in order. */
  function RaisedOps(log: seq<Entry>): seq<Operation> {
    if log == [] then [] else
      var last := log[|log| - 1];
      RaisedOps(log[..|log| - 1]) + if last.ending.Raised? then [last.operation] else []
  }

  /** Between `m` and `m'` the router swallowed a failing stop of this sink. */
  ghost predicate Swallowed(m: Machine, m': Machine, s: nat) {
    exists i | |m.log| <= i < |m'.log| :: m'.log[i] == Entry(Detach(s, true), StopSwallowed)
  }

  lemma PerformOperates(m0: Machine, m: Machine, op: Operation, env: Environment, x: set<nat>)
    requires Operates(m0, m, x) && op.serial in x
    ensures Operates(m0, Perform(m, op, env), x)
  {
  }

  lemma PerformRaises(m: Machine, op: Operation, env: Environment)
    ensures var m' := Perform(m, op, env);
            RaisedOps(m'.log) == RaisedOps(m.log) + if m'.LastRaised() then [op] else []
  {
    var m' := Perform(m, op, env);
    assert m'.log[..|m'.log| - 1] == m.log;
  }

  /**
    A detach-and-stop that raises changes nothing but its own record. One that returns leaves the
    sink unattached, and running only if it ran and was not attached, or its stop was swallowed.
   */
  lemma DetachStops(m: Machine, s: nat, env: Environment)
    ensures var m' := Perform(m, Detach(s, true), env);
            var st, st' := At(m.world, s), At(m'.world, s);
            && (st'.attached <==> st.attached && m'.LastRaised())
            && (st'.live <==> st.live && (m'.LastRaised() || !st.attached || Swallowed(m, m', s)))
            && st'.publishing == st.publishing && st'.publisherUnstopped == st.publisherUnstopped
            && st'.attachFailed == st.attachFailed
            && (m'.LastRaised() ==> st'.detachFailed) && (st.unstopped ==> st'.unstopped)
            && (st'.live && st.attached ==> st'.unstopped || st'.detachFailed)
  {
    var m' := Perform(m, Detach(s, true), env);
    var fault := env.faults(|m.log|, Detach(s, true));
    assert At(m'.world, s) == DetachEffect(At(m.world, s), true, fault).0;
    assert m'.log[|m.log|] == Entry(Detach(s, true), DetachEffect(At(m.world, s), true, fault).1);
  }

  class DaemonRuntime {
    const environment: Environment
    var world: World
    var log: seq<Entry>

    constructor (environment: Environment)
      ensures this.environment == environment
      ensures Now() == Machine(map[], [])
    {
      this.environment := environment;
      world, log := map[], [];
    }

    function Now(): Machine
      reads this
    {
      Machine(world, log)
    }

    /** Note how an operation ended. */
    method Record(op: Operation, st: Status, ending: Ending)
      requires (st, ending)
            == Effect(At(world, op.serial), op, environment.faults(|log|, op), environment.routerRunning)
      modifies this
      ensures Now() == Perform(old(Now()), op, environment)
      ensures Now().LastRaised() <==> ending.Raised?
      ensures At(world, op.serial) == st
    {
      world := world[op.serial := st];
      log := log + [Entry(op, ending)];
    }

    /** `_start_subscriber`: a sink that raises is unattached again and stopped. */
    static method StartSubscriber(st: Status, fault: Fault) returns (st': Status, ok: bool)
      ensures ok == !fault.fails
      ensures ok ==> st' == st.(live := true)
      ensures !ok ==> st' == st.(attached := false, live := fault.unstopped && (st.live || fault.partlyOpen),
                                 unstopped := st.unstopped || fault.unstopped)
    {
      ok := !fault.fails;
      if ok {
        return st.(live := true), ok;
      }
      var live := st.live || fault.partlyOpen;
      st' := st.(attached := false);
      st' := if fault.unstopped then st'.(live := live, unstopped := true) else st'.(live := false);
    }

    method AttachSink(s: nat) returns (ok: bool)
      modifies this
      ensures Now() == Perform(old(Now()), Attach(s), environment) && ok == !Now().LastRaised()
      ensures ok ==> At(world, s).attached && !At(world, s).attachFailed
      ensures ok && environment.routerRunning && !At(old(world), s).attached ==> At(world, s).live
      ensures ok && (!environment.routerRunning || At(old(world), s).attached) ==>
                At(world, s).live == At(old(world), s).live
      ensures !ok ==> (At(world, s).attached <==> At(old(world), s).attached)
      ensures !ok && At(world, s).live ==> At(old(world), s).live || At(world, s).unstopped
    {
      var fault := environment.faults(|log|, Attach(s));
      var st := At(world, s);
      ok := true;
      if fault.refused {
        ok := false;
      } else if !st.attached {
        st := st.(attached := true);
        if environment.routerRunning {
          st, ok := StartSubscriber(st, fault);
        }
      }
      Record(Attach(s), st.(attachFailed := !ok), if ok then Returned else Ending.Raised);
    }

    method DetachSink(s: nat, stop: bool) returns (ok: bool)
      modifies this
      ensures Now() == Perform(old(Now()), Detach(s, stop), environment) && ok == !Now().LastRaised()
      ensures ok ==> !At(world, s).attached
      ensures !ok ==> At(world, s).attached == At(old(world), s).attached && At(world, s).live == At(old(world), s).live
      ensures ok && (!stop || !At(old(world), s).attached) ==> At(world, s).live == At(old(world), s).live
    {
      var fault := environment.faults(|log|, Detach(s, stop));
      var st := At(world, s);
      var ending := Returned;
      if fault.refused {
        ending := Ending.Raised;
        st := st.(detachFailed := st.detachFailed || stop);
      } else if st.attached {
        st := st.(attached := false);
        if stop {
          if fault.unstopped {
            ending := StopSwallowed;
            st := st.(unstopped := true);
          } else {
            st := st.(live := false);
          }
        }
      }
      Record(Detach(s, stop), st, ending);
      ok := !ending.Raised?;
    }

    /** `sink.stop()` */
    method StopSink(s: nat) returns (ok: bool)
      modifies this
      ensures Now() == Perform(old(Now()), Stop(s), environment) && ok == !Now().LastRaised()
    {
      var st := At(world, s);
      ok := !environment.faults(|log|, Stop(s)).fails;
      st := if ok then st.(live := false) else st.(unstopped := true);
      Record(Stop(s), st, if ok then Returned else Ending.Raised);
    }

    /** `publisher.start()` followed by the submission of the current radio state. */
    method StartPublisher(s: nat) returns (ok: bool)
      modifies this
      ensures Now() == Perform(old(Now()), StartMetadata(s), environment) && ok == !Now().LastRaised()
    {
      var fault := environment.faults(|log|, StartMetadata(s));
      var st := At(world, s);
      if !fault.refused {
        st := st.(publishing := true);
      }
      ok := !fault.refused && !fault.fails;
      Record(StartMetadata(s), st, if ok then Returned else Ending.Raised);
    }

    /** `publisher.stop()` */
    method StopPublisher(s: nat) returns (ok: bool)
      modifies this
      ensures Now() == Perform(old(Now()), StopMetadata(s), environment) && ok == !Now().LastRaised()
    {
      var st := At(world, s);
      ok := !environment.faults(|log|, StopMetadata(s)).fails;
      st := if ok then st.(publishing := false) else st.(publisherUnstopped := true);
      Record(StopMetadata(s), st, if ok then Returned else Ending.Raised);
    }
  }
}
