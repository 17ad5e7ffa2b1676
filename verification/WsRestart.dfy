/**
 The websocket restart protocol: one supervisor that connects, starts a ping and a read routine and
 waits for them to stop before it connects again, and the routines themselves, which share a counter,
 a flag and a stop channel. Whatever happens under the lock is one step; steps interleave freely.
 */
module WsRestart {

  // ---- What the routines share ----------------------------------------------------------------

  /** Stop channels are numbered as they are made; `closed` lists them in the order of their closing. */
  datatype Shared = Shared(stop: nat, closed: seq<nat>, active: bool, count: int)

  function NewChannel(s: Shared): Shared {
    s.(stop := s.stop + 1, active := true)
  }

  /** Nothing is ever sent on a stop channel, so a receive succeeds only when it is closed. */
  function Stop(s: Shared, channel: nat): Shared {
    if channel in s.closed then s else s.(closed := s.closed + [channel])
  }

  function Increase(s: Shared): (Shared, bool) {
    if s.active then (s.(count := s.count + 1), true) else (s, false)
  }

  function Decrease(s: Shared): Shared {
    s.(count := if s.count - 1 < 0 then 0 else s.count - 1)
  }

  // ---- The processes --------------------------------------------------------------------------

  /** `Failed` has met an error and is about to stop the others; `Leaving` is about to give its count back. */
  datatype Phase = Running | Failed | Leaving | Ended

  datatype Routine = Routine(channel: nat, phase: Phase)

  /** Where the supervisor is; a counted routine is about to be spawned. */
  datatype Supervisor =
    | Connecting
    | Connected
    | BeforePing
    | PingCounted
    | BeforeRead
    | ReadCounted
    | Listening
    | Stopped
    | Draining
    | Panicked

  datatype System = System(shared: Shared, supervisor: Supervisor, routines: seq<Routine>)

  const NewShared := Shared(0, [], false, 0)

  const Initial := System(NewShared, Connecting, [])

  datatype Action =
    | Supervise(ok: bool)
    | Fail(i: nat)
    | Move(i: nat)
    | StopOutside

  function Spawn(s: System): seq<Routine> {
    s.routines + [Routine(s.shared.stop, Running)]
  }

  /** The supervisor's next step; `ok` says whether dialing, subscribing or waiting goes well. */
  function SuperviseStep(s: System, ok: bool): System {
    var sh := s.shared;
    match s.supervisor
    case Connecting => if ok then System(NewChannel(sh), Connected, s.routines) else s.(supervisor := Panicked)
    case Connected => s.(shared := sh.(active := true), supervisor := if ok then BeforePing else Panicked)
    case BeforePing =>
      var (sh', started) := Increase(sh);
      s.(shared := sh', supervisor := if started then PingCounted else BeforeRead)
    case PingCounted => s.(routines := Spawn(s), supervisor := BeforeRead)
    case BeforeRead =>
      var (sh', started) := Increase(sh);
      s.(shared := sh', supervisor := if started then ReadCounted else Listening)
    case ReadCounted => s.(routines := Spawn(s), supervisor := Listening)
    case Listening => if sh.stop in sh.closed then s.(supervisor := Stopped) else s
    case Stopped => s.(shared := sh.(active := false), supervisor := Draining)
    case Draining =>
      if !ok then s.(supervisor := Panicked)
      else if sh.count == 0 then s.(supervisor := Connecting) else s
    case Panicked => s
  }

  function SetPhase(s: System, i: nat, phase: Phase): seq<Routine>
    requires i < |s.routines|
  {
    s.routines[i := s.routines[i].(phase := phase)]
  }

  /** The next step of a routine that does not meet an error. */
  function MoveStep(s: System, i: nat): System
    requires i < |s.routines|
  {
    var r := s.routines[i];
    match r.phase
    case Running => if r.channel in s.shared.closed then s.(routines := SetPhase(s, i, Leaving)) else s
    case Failed => s.(shared := Stop(s.shared, r.channel), routines := SetPhase(s, i, Leaving))
    case Leaving => s.(shared := Decrease(s.shared), routines := SetPhase(s, i, Ended))
    case Ended => s
  }

  /** One step of the system; what cannot happen now changes nothing, and a panic ends the process. */
  function Step(s: System, a: Action): System {
    if s.supervisor.Panicked? then s
    else
      match a
      case Supervise(ok) => SuperviseStep(s, ok)
      case Fail(i) =>
        if i < |s.routines| && s.routines[i].phase.Running? then s.(routines := SetPhase(s, i, Failed)) else s
      case Move(i) => if i < |s.routines| then MoveStep(s, i) else s
      case StopOutside => s.(shared := Stop(s.shared, s.shared.stop))
  }

  function Run(s: System, actions: seq<Action>): System
    decreases |actions|
  {
    if actions == [] then s else Run(Step(s, actions[0]), actions[1..])
  }

  // ---- The invariant --------------------------------------------------------------------------

  function Live(rs: seq<Routine>): nat {
    if rs == [] then 0 else Live(rs[..|rs| - 1]) + if rs[|rs| - 1].phase.Ended? then 0 else 1
  }

  /** A routine that is counted but not spawned yet. */
  function Counted(p: Supervisor): nat {
    if p.PingCounted? || p.ReadCounted? then 1 else 0
  }

  /** How many routines the current connection can have at this point. */
  function Bound(p: Supervisor): nat {
    match p
    case Connecting => 0
    case Connected => 0
    case BeforePing => 0
    case PingCounted => 1
    case BeforeRead => 1
    case _ => 2
  }

  predicate Active(p: Supervisor) {
    !p.Connecting? && !p.Draining? && !p.Panicked?
  }

  predicate AllDistinct(s: seq<nat>) {
    forall i, j | 0 <= i < j < |s| :: s[i] != s[j]
  }

  /** Channels are closed at most once, and not before they are made. */
  ghost predicate ClosedOnce(sh: Shared) {
    AllDistinct(sh.closed) && forall c | c in sh.closed :: c <= sh.stop
  }

  /** Whoever is still there listens to the current channel, and leaves only once it is closed. */
  ghost predicate RoutineFits(r: Routine, sh: Shared) {
    && (r.phase.Ended? || r.channel == sh.stop)
    && (r.phase.Leaving? ==> sh.stop in sh.closed)
  }

  ghost predicate RoutinesFit(rs: seq<Routine>, sh: Shared) {
    forall i | 0 <= i < |rs| :: RoutineFits(rs[i], sh)
  }

  ghost predicate SupervisorFits(p: Supervisor, sh: Shared) {
    && (Active(p) ==> sh.active)
    && (p.Draining? ==> !sh.active)
    && (p.Stopped? || p.Draining? ==> sh.stop in sh.closed)
  }

  ghost predicate Inv(s: System) {
    && s.shared.count == Live(s.routines) + Counted(s.supervisor) <= Bound(s.supervisor)
    && RoutinesFit(s.routines, s.shared) && SupervisorFits(s.supervisor, s.shared) && ClosedOnce(s.shared)
  }

  lemma LiveSpawn(rs: seq<Routine>, r: Routine)
    ensures Live(rs + [r]) == Live(rs) + if r.phase.Ended? then 0 else 1
  {
    assert (rs + [r])[..|rs|] == rs;
  }

  lemma {:induction false} LiveSet(rs: seq<Routine>, i: nat, phase: Phase)
    requires i < |rs|
    ensures Live(rs[i := rs[i].(phase := phase)])
         == Live(rs) - (if rs[i].phase.Ended? then 0 else 1) + if phase.Ended? then 0 else 1
  {
    var n := |rs| - 1;
    var changed := rs[i := rs[i].(phase := phase)];
    if i < n {
      LiveSet(rs[..n], i, phase);
      assert changed[..n] == rs[..n][i := rs[i].(phase := phase)];
    } else {
      assert changed[..n] == rs[..n];
    }
  }

  lemma {:induction false} NoneLive(rs: seq<Routine>)
    requires Live(rs) == 0
    ensures forall i | 0 <= i < |rs| :: rs[i].phase.Ended?
  {
    if rs != [] {
      NoneLive(rs[..|rs| - 1]);
      assert forall i | 0 <= i < |rs| - 1 :: rs[i] == rs[..|rs| - 1][i];
    }
  }

  lemma {:induction false} SomeLive(rs: seq<Routine>, i: nat)
    requires i < |rs| && !rs[i].phase.Ended?
    ensures Live(rs) > 0
  {
    if i < |rs| - 1 {
      SomeLive(rs[..|rs| - 1], i);
    }
  }

  lemma ConnectKeepsInv(s: System)
    requires Inv(s) && s.supervisor.Connecting?
    ensures Inv(SuperviseStep(s, true))
  {
    NoneLive(s.routines);
  }

  lemma SpawnedFit(rs: seq<Routine>, sh: Shared, r: Routine)
    requires RoutinesFit(rs, sh) && RoutineFits(r, sh)
    ensures RoutinesFit(rs + [r], sh)
  {
  }

  lemma SpawnKeepsInv(s: System, ok: bool)
    requires Inv(s) && (s.supervisor.PingCounted? || s.supervisor.ReadCounted?)
    ensures Inv(SuperviseStep(s, ok))
  {
    var r := Routine(s.shared.stop, Running);
    LiveSpawn(s.routines, r);
    SpawnedFit(s.routines, s.shared, r);
    assert SuperviseStep(s, ok).routines == s.routines + [r];
    assert SuperviseStep(s, ok).shared == s.shared;
  }

  lemma SuperviseKeepsInv(s: System, ok: bool)
    requires Inv(s)
    ensures Inv(SuperviseStep(s, ok))
  {
    match s.supervisor
    case Connecting =>
      if ok {
        ConnectKeepsInv(s);
      }
    case PingCounted => SpawnKeepsInv(s, ok);
    case ReadCounted => SpawnKeepsInv(s, ok);
    case _ =>
  }

  lemma MoveKeepsInv(s: System, i: nat)
    requires Inv(s) && i < |s.routines|
    ensures Inv(MoveStep(s, i))
  {
    assert RoutineFits(s.routines[i], s.shared);
    LiveSet(s.routines, i, Leaving);
    LiveSet(s.routines, i, Ended);
    if !s.routines[i].phase.Ended? {
      SomeLive(s.routines, i);
    }
  }

  lemma StepKeepsInv(s: System, a: Action)
    requires Inv(s)
    ensures Inv(Step(s, a))
  {
    match a
    case Supervise(ok) => SuperviseKeepsInv(s, ok);
    case Fail(i) =>
      if i < |s.routines| {
        LiveSet(s.routines, i, Failed);
      }
    case Move(i) =>
      if i < |s.routines| {
        MoveKeepsInv(s, i);
      }
    case StopOutside =>
  }

  lemma {:induction false} RunKeepsInv(s: System, actions: seq<Action>)
    requires Inv(s)
    ensures Inv(Run(s, actions))
    decreases |actions|
  {
    if actions != [] {
      StepKeepsInv(s, actions[0]);
      RunKeepsInv(Step(s, actions[0]), actions[1..]);
    }
  }

  // ---- What every run keeps -------------------------------------------------------------------

  /**
   However the steps interleave, the counter is the number of routines that are running or about to:
   at most two.
   */
  lemma CounterIsExact(actions: seq<Action>)
    ensures var s := Run(Initial, actions); s.shared.count == Live(s.routines) + Counted(s.supervisor) <= 2
  {
    RunKeepsInv(Initial, actions);
  }

  /** A new connection is made only when no routine of an earlier one is left. */
  lemma NewConnectionAtZero(actions: seq<Action>, a: Action)
    ensures var s := Run(Initial, actions);
            Step(s, a).shared.stop != s.shared.stop ==>
              s.shared.count == 0 && forall i | 0 <= i < |s.routines| :: s.routines[i].phase.Ended?
  {
    RunKeepsInv(Initial, actions);
    var s := Run(Initial, actions);
    if Live(s.routines) == 0 {
      NoneLive(s.routines);
    }
  }

  /** A routine still there belongs to the current connection: the one whose channel it would close. */
  lemma RoutinesAreCurrent(actions: seq<Action>, i: nat)
    requires i < |Run(Initial, actions).routines| && !Run(Initial, actions).routines[i].phase.Ended?
    ensures Run(Initial, actions).routines[i].channel == Run(Initial, actions).shared.stop
  {
    RunKeepsInv(Initial, actions);
    assert RoutineFits(Run(Initial, actions).routines[i], Run(Initial, actions).shared);
  }

  /** No channel is closed twice, and none before it was made. */
  lemma ChannelsCloseOnce(actions: seq<Action>)
    ensures var sh := Run(Initial, actions).shared; AllDistinct(sh.closed) && forall c | c in sh.closed :: c <= sh.stop
  {
    RunKeepsInv(Initial, actions);
  }

  /** Neither test of the counter ever bites: a start is never refused, and no count falls below zero. */
  lemma NothingIsRefused(actions: seq<Action>, i: nat)
    ensures var s := Run(Initial, actions);
            && (s.supervisor.BeforePing? || s.supervisor.BeforeRead? ==> Increase(s.shared).1)
            && (i < |s.routines| && s.routines[i].phase.Leaving? ==> Decrease(s.shared).count == s.shared.count - 1)
  {
    RunKeepsInv(Initial, actions);
    var s := Run(Initial, actions);
    if i < |s.routines| && s.routines[i].phase.Leaving? {
      SomeLive(s.routines, i);
    }
  }

  // ---- Draining -------------------------------------------------------------------------------

  /** The steps the routines still have to take. */
  function Remaining(rs: seq<Routine>): nat {
    if rs == [] then 0 else Remaining(rs[..|rs| - 1]) + StepsLeft(rs[|rs| - 1].phase)
  }

  function StepsLeft(p: Phase): nat {
    match p
    case Running => 3
    case Failed => 2
    case Leaving => 1
    case Ended => 0
  }

  lemma {:induction false} RemainingSet(rs: seq<Routine>, i: nat, phase: Phase)
    requires i < |rs|
    ensures Remaining(rs[i := rs[i].(phase := phase)]) == Remaining(rs) - StepsLeft(rs[i].phase) + StepsLeft(phase)
  {
    var n := |rs| - 1;
    var changed := rs[i := rs[i].(phase := phase)];
    if i < n {
      RemainingSet(rs[..n], i, phase);
      assert changed[..n] == rs[..n][i := rs[i].(phase := phase)];
    } else {
      assert changed[..n] == rs[..n];
    }
  }

  /**
   While the supervisor drains, no step starts a routine or stands still: whatever changes the system
   brings the routines nearer to their end, or ends the wait.
   */
  lemma DrainingOnlyShrinks(s: System, a: Action)
    requires Inv(s) && s.supervisor.Draining?
    ensures var s' := Step(s, a);
            || s' == s || !s'.supervisor.Draining?
            || (Remaining(s'.routines) < Remaining(s.routines) && |s'.routines| == |s.routines|)
  {
    if (a.Fail? || a.Move?) && a.i < |s.routines| {
      RemainingSet(s.routines, a.i, Failed);
      RemainingSet(s.routines, a.i, Leaving);
      RemainingSet(s.routines, a.i, Ended);
    }
  }

  lemma {:induction false} LiveIndex(rs: seq<Routine>) returns (i: nat)
    requires Live(rs) > 0
    ensures i < |rs| && !rs[i].phase.Ended?
  {
    i := |rs| - 1;
    if rs[i].phase.Ended? {
      i := LiveIndex(rs[..i]);
    }
  }

  /** A drain cannot get stuck: from any of its states the routines can end and the supervisor go on. */
  lemma {:induction false} DrainCanFinish(s: System) returns (actions: seq<Action>)
    requires Inv(s) && s.supervisor.Draining?
    ensures Run(s, actions).supervisor.Connecting? && Run(s, actions).shared.count == 0 && Run(s, actions).shared.stop == s.shared.stop
    ensures forall a | a in actions :: a.Move? || a == Supervise(true)
    decreases Remaining(s.routines)
  {
    if s.shared.count == 0 {
      actions := [Supervise(true)];
      assert actions[1..] == [];
    } else {
      var i := LiveIndex(s.routines);
      assert RoutineFits(s.routines[i], s.shared);
      var s' := Step(s, Move(i));
      RemainingSet(s.routines, i, Leaving);
      RemainingSet(s.routines, i, Ended);
      StepKeepsInv(s, Move(i));
      var rest := DrainCanFinish(s');
      actions := [Move(i)] + rest;
      assert actions[1..] == rest;
    }
  }

  // ---- One connection after the other ---------------------------------------------------------

  lemma {:induction false} RunAppend(s: System, a: seq<Action>, b: seq<Action>)
    ensures Run(s, a + b) == Run(Run(s, a), b)
    decreases |a|
  {
    if a == [] {
      assert a + b == b;
    } else {
      assert (a + b)[0] == a[0] && (a + b)[1..] == a[1..] + b;
      RunAppend(Step(s, a[0]), a[1..], b);
    }
  }

  /** How far the supervisor is from its next connection. */
  function Rank(s: System): nat {
    match s.supervisor
    case Connecting => 0
    case Draining => 1
    case Stopped => 2
    case Listening => if s.shared.stop in s.shared.closed then 3 else 4
    case ReadCounted => 5
    case BeforeRead => 6
    case PingCounted => 7
    case BeforePing => 8
    case Connected => 9
    case Panicked => 10
  }

  /** A schedule of turns without errors, in which somebody may close the connection from outside. */
  predicate GoesWell(a: Action) {
    a.Move? || a.StopOutside? || a == Supervise(true)
  }

  /** Before it drains, some turn without errors brings the supervisor nearer to its next connection. */
  lemma TurnsOn(s: System) returns (a: Action)
    requires Inv(s) && !s.supervisor.Panicked? && !s.supervisor.Connecting? && !s.supervisor.Draining?
    ensures GoesWell(a) && Rank(Step(s, a)) < Rank(s)
    ensures Inv(Step(s, a)) && !Step(s, a).supervisor.Panicked? && Step(s, a).shared.stop == s.shared.stop
  {
    a := if s.supervisor.Listening? && s.shared.stop !in s.shared.closed then StopOutside else Supervise(true);
    StepKeepsInv(s, a);
  }

  /** Wherever a run has come to, short of a panic, the next connection can still be made. */
  lemma {:induction false} CanReconnect(s: System) returns (actions: seq<Action>)
    requires Inv(s) && !s.supervisor.Panicked?
    ensures Run(s, actions).supervisor.Connected? && Run(s, actions).shared.stop == s.shared.stop + 1
    ensures forall a | a in actions :: GoesWell(a)
    decreases Rank(s)
  {
    if s.supervisor.Connecting? {
      actions := [Supervise(true)];
      assert actions[1..] == [];
    } else if s.supervisor.Draining? {
      var drain := DrainCanFinish(s);
      RunKeepsInv(s, drain);
      var rest := CanReconnect(Run(s, drain));
      RunAppend(s, drain, rest);
      actions := drain + rest;
    } else {
      var a := TurnsOn(s);
      var rest := CanReconnect(Step(s, a));
      actions := [a] + rest;
      assert actions[1..] == rest;
    }
  }

  /** How many routines were started for a channel. */
  function Started(rs: seq<Routine>, channel: nat): nat {
    if rs == [] then 0 else Started(rs[..|rs| - 1], channel) + if rs[|rs| - 1].channel == channel then 1 else 0
  }

  /** The routines a connection has been given where the supervisor is now. */
  predicate GivenSoFar(p: Supervisor, started: nat) {
    match p
    case Connecting => true
    case Panicked => true
    case Connected => started == 0
    case BeforePing => started == 0
    case PingCounted => started == 0
    case BeforeRead => started == 1
    case ReadCounted => started == 1
    case _ => started == 2
  }

  ghost predicate StartedInv(s: System) {
    (forall i | 0 <= i < |s.routines| :: s.routines[i].channel <= s.shared.stop) && GivenSoFar(s.supervisor, Started(s.routines, s.shared.stop))
  }

  lemma {:induction false} NoneStarted(rs: seq<Routine>, channel: nat)
    requires forall i | 0 <= i < |rs| :: rs[i].channel < channel
    ensures Started(rs, channel) == 0
  {
    if rs != [] {
      NoneStarted(rs[..|rs| - 1], channel);
    }
  }

  lemma {:induction false} StartedSet(rs: seq<Routine>, i: nat, phase: Phase, channel: nat)
    requires i < |rs|
    ensures Started(rs[i := rs[i].(phase := phase)], channel) == Started(rs, channel)
  {
    var n := |rs| - 1;
    var changed := rs[i := rs[i].(phase := phase)];
    if i < n {
      StartedSet(rs[..n], i, phase, channel);
      assert changed[..n] == rs[..n][i := rs[i].(phase := phase)];
    } else {
      assert changed[..n] == rs[..n];
    }
  }

  lemma ConnectKeepsStarted(s: System)
    requires StartedInv(s) && s.supervisor.Connecting?
    ensures StartedInv(SuperviseStep(s, true))
  {
    NoneStarted(s.routines, s.shared.stop + 1);
  }

  lemma SpawnKeepsStarted(s: System, ok: bool)
    requires StartedInv(s) && (s.supervisor.PingCounted? || s.supervisor.ReadCounted?)
    ensures StartedInv(SuperviseStep(s, ok))
  {
    var more := Spawn(s);
    assert more[..|more| - 1] == s.routines;
    assert Started(more, s.shared.stop) == Started(s.routines, s.shared.stop) + 1;
  }

  lemma SuperviseKeepsStarted(s: System, ok: bool)
    requires Inv(s) && StartedInv(s)
    ensures StartedInv(SuperviseStep(s, ok))
  {
    match s.supervisor
    case Connecting =>
      if ok {
        ConnectKeepsStarted(s);
      }
    case PingCounted => SpawnKeepsStarted(s, ok);
    case ReadCounted => SpawnKeepsStarted(s, ok);
    case _ =>
  }

  lemma PhaseKeepsStarted(s: System, s': System, i: nat, phase: Phase)
    requires StartedInv(s) && i < |s.routines|
    requires s'.routines == SetPhase(s, i, phase) && s'.supervisor == s.supervisor && s'.shared.stop == s.shared.stop
    ensures StartedInv(s')
  {
    StartedSet(s.routines, i, phase, s.shared.stop);
  }

  lemma MoveKeepsStarted(s: System, i: nat)
    requires StartedInv(s) && i < |s.routines|
    ensures StartedInv(MoveStep(s, i))
  {
    if MoveStep(s, i) != s {
      PhaseKeepsStarted(s, MoveStep(s, i), i, MoveStep(s, i).routines[i].phase);
    }
  }

  lemma StepKeepsStarted(s: System, a: Action)
    requires Inv(s) && StartedInv(s)
    ensures StartedInv(Step(s, a))
  {
    match a
    case Supervise(ok) => SuperviseKeepsStarted(s, ok);
    case Fail(i) =>
      if Step(s, a) != s {
        PhaseKeepsStarted(s, Step(s, a), i, Failed);
      }
    case Move(i) =>
      if i < |s.routines| {
        MoveKeepsStarted(s, i);
      }
    case StopOutside =>
  }

  lemma {:induction false} RunKeepsStarted(s: System, actions: seq<Action>)
    requires Inv(s) && StartedInv(s)
    ensures StartedInv(Run(s, actions))
    decreases |actions|
  {
    if actions != [] {
      StepKeepsInv(s, actions[0]);
      StepKeepsStarted(s, actions[0]);
      RunKeepsStarted(Step(s, actions[0]), actions[1..]);
    }
  }

  /** A supervisor that listens has given its connection exactly two routines. */
  lemma TwoRoutinesEach(actions: seq<Action>)
    ensures var s := Run(Initial, actions); s.supervisor.Listening? ==> Started(s.routines, s.shared.stop) == 2
  {
    RunKeepsStarted(Initial, actions);
  }

  // ---- The same in place ----------------------------------------------------------------------

  /** The client's shared fields; each method holds the lock from its first line to its last. */
  class WsClient {
    var wsStop: nat
    var closed: seq<nat>
    var wsActive: bool
    var wsActiveRoutines: int

    ghost function Value(): Shared
      reads this
    {
      Shared(wsStop, closed, wsActive, wsActiveRoutines)
    }

    constructor ()
      ensures Value() == NewShared
    {
      wsStop, closed, wsActive, wsActiveRoutines := 0, [], false, 0;
    }

    /** Makes the stop channel of a new connection, which nobody can have closed yet. */
    method ReplaceStop()
      requires ClosedOnce(Value())
      modifies this`wsStop, this`wsActive
      ensures ClosedOnce(Value()) && wsStop !in closed && wsActive
      ensures Value() == NewChannel(old(Value()))
    {
      wsStop := wsStop + 1;
      wsActive := true;
    }

    /** Closes the channel a routine was started with, and no other; whoever comes second closes nothing. */
    method StopWsRoutines(channel: nat)
      requires ClosedOnce(Value()) && channel <= wsStop
      modifies this`closed
      ensures ClosedOnce(Value()) && channel in closed
      ensures forall c | c != channel :: c in closed <==> c in old(closed)
      ensures channel in old(closed) ==> closed == old(closed)
      ensures Value() == Stop(old(Value()), channel)
    {
      if channel !in closed {
        closed := closed + [channel];
      }
    }

    /** A routine may start only while the connection is active; then it is counted. */
    method IncreaseWsRoutines() returns (ok: bool)
      modifies this`wsActiveRoutines
      ensures ok <==> wsActive
      ensures wsActiveRoutines == old(wsActiveRoutines) + if ok then 1 else 0
    {
      if wsActive {
        wsActiveRoutines := wsActiveRoutines + 1;
      }
      ok := wsActive;
    }

    /** A counted routine gives its count back; the floor is there for a count that was not given. */
    method DecreaseWsRoutines()
      modifies this`wsActiveRoutines
      ensures wsActiveRoutines >= 0
      ensures old(wsActiveRoutines) >= 1 ==> wsActiveRoutines == old(wsActiveRoutines) - 1
      ensures old(wsActiveRoutines) < 1 ==> wsActiveRoutines == 0
    {
      wsActiveRoutines := wsActiveRoutines - 1;
      if wsActiveRoutines < 0 {
        wsActiveRoutines := 0;
      }
    }

    method MarkWs(active: bool)
      modifies this`wsActive
      ensures wsActive == active
    {
      wsActive := active;
    }

    method IsZeroWsRoutines() returns (zero: bool)
      ensures zero <==> wsActiveRoutines == 0
    {
      zero := wsActiveRoutines == 0;
    }
  }

  /** The supervisor and its routines around one client: a method is what one of them does at one turn. */
  class Subscriber {
    const client: WsClient
    var supervisor: Supervisor
    var routines: seq<Routine>

    ghost function Value(): System
      reads this, client
    {
      System(client.Value(), supervisor, routines)
    }

    constructor ()
      ensures Value() == Initial && Inv(Value()) && fresh(client)
    {
      client := new WsClient();
      supervisor, routines := Connecting, [];
    }

    /** The supervisor's turn: it takes the system where `Step` does, and the invariant holds on. */
    method Supervise(ok: bool)
      requires Inv(Value())
      modifies this, client
      ensures Value() == old(Step(Value(), Action.Supervise(ok))) && Inv(Value())
    {
      StepKeepsInv(Value(), Action.Supervise(ok));
      match supervisor
      case Connecting => Connect(ok);
      case Connected =>
        client.MarkWs(true);
        supervisor := if ok then BeforePing else Panicked;
      case BeforePing =>
        var started := client.IncreaseWsRoutines();
        supervisor := if started then PingCounted else BeforeRead;
      case PingCounted =>
        routines := routines + [Routine(client.wsStop, Running)];
        supervisor := BeforeRead;
      case BeforeRead =>
        var started := client.IncreaseWsRoutines();
        supervisor := if started then ReadCounted else Listening;
      case ReadCounted =>
        routines := routines + [Routine(client.wsStop, Running)];
        supervisor := Listening;
      case Listening =>
        if client.wsStop in client.closed {
          supervisor := Stopped;
        }
      case Stopped =>
        client.MarkWs(false);
        supervisor := Draining;
      case Draining => Drain(ok);
      case Panicked =>
    }

    method Connect(ok: bool)
      requires Inv(Value()) && supervisor.Connecting?
      modifies this`supervisor, client`wsStop, client`wsActive
      ensures Value() == old(SuperviseStep(Value(), ok))
    {
      if ok {
        client.ReplaceStop();
        supervisor := Connected;
      } else {
        supervisor := Panicked;
      }
    }

    method Drain(ok: bool)
      requires supervisor.Draining?
      modifies this`supervisor
      ensures Value() == old(SuperviseStep(Value(), ok))
    {
      if !ok {
        supervisor := Panicked;
      } else {
        var zero := client.IsZeroWsRoutines();
        if zero {
          supervisor := Connecting;
        }
      }
    }

    /** Routine `i` meets an error. */
    method FailRoutine(i: nat)
      requires Inv(Value()) && i < |routines| && routines[i].phase.Running? && !supervisor.Panicked?
      modifies this`routines
      ensures Value() == old(Step(Value(), Fail(i))) && Inv(Value())
    {
      StepKeepsInv(Value(), Fail(i));
      routines := routines[i := routines[i].(phase := Failed)];
    }

    /** Routine `i`'s turn: it sees the channel closed, closes its own channel, or gives its count back. */
    method MoveRoutine(i: nat)
      requires Inv(Value()) && i < |routines| && !supervisor.Panicked?
      modifies this`routines, client`closed, client`wsActiveRoutines
      ensures Value() == old(Step(Value(), Move(i))) && Inv(Value())
    {
      StepKeepsInv(Value(), Move(i));
      assert RoutineFits(routines[i], client.Value());
      var r := routines[i];
      match r.phase
      case Running =>
        if r.channel in client.closed {
          routines := routines[i := r.(phase := Leaving)];
        }
      case Failed =>
        client.StopWsRoutines(r.channel);
        routines := routines[i := r.(phase := Leaving)];
      case Leaving =>
        client.DecreaseWsRoutines();
        routines := routines[i := r.(phase := Ended)];
      case Ended =>
    }

    /** Somebody else closes the connection. */
    method CloseWs()
      requires Inv(Value()) && !supervisor.Panicked?
      modifies client`closed
      ensures Value() == old(Step(Value(), StopOutside)) && Inv(Value())
    {
      StepKeepsInv(Value(), StopOutside);
      client.StopWsRoutines(client.wsStop);
    }
  }
}
