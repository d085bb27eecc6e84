/**
 * TCPAdapter of src/upstream/adapters.go with certificate-authority TLS or none: its critical sections, and
 * goroutines that interleave between them. The lock is released while a connection is dialed.
 */
module TcpClient {
  import opened Options

  /** What the adapter's fields and the operating system hold. A connection is known by its place among the dials. */
  datatype Shared = Shared(
    config: int,           // identity of the TLS configuration
    generation: nat,
    closed: bool,
    conn: Option<nat>,
    failed: bool,          // err != nil
    open: map<nat, int>,   // connections not yet closed, with the configuration each was dialed with
    dialed: nat,           // connections dialed so far
    dials: seq<int>)       // when each dial attempt started

  /** What ensureConnected finds in its first critical section. */
  datatype Found = Connected | Unavailable | MustDial(config: int, generation: nat)

  function CloseInstalled(s: Shared): Shared {
    if s.conn == None then s else s.(conn := None, open := s.open - {s.conn.value})
  }

  /** First section of ensureConnected; `dead` is what the test read says about an installed connection. */
  function Look(s: Shared, dead: bool): (Shared, Found) {
    var s' := if dead then CloseInstalled(s) else s;
    if s'.conn.Some? then (s', Connected)
    else if s'.closed then (s', Unavailable)
    else (s', MustDial(s'.config, s'.generation))
  }

  /** dialLimited refuses to dial again within the retry interval. */
  predicate MayDial(s: Shared, retryInterval: int, now: int) {
    s.dials == [] || now - s.dials[|s.dials| - 1] >= retryInterval
  }

  function DialFailed(s: Shared): Shared {
    s.(failed := true)
  }

  /** A new connection, dialed with a configuration. */
  function DialSucceeded(s: Shared, config: int): Shared {
    s.(open := s.open[s.dialed := config], dialed := s.dialed + 1)
  }

  datatype Outcome = Installed | Discard(connected: bool)

  /** Second section of ensureConnected. */
  function Install(s: Shared, c: nat, generation: nat): (Shared, Outcome) {
    if s.closed || s.generation != generation then (s, Discard(false))
    else if s.conn.Some? then (s, Discard(true))
    else (s.(conn := Some(c), failed := false), Installed)
  }

  function CloseConn(s: Shared, c: nat): Shared {
    s.(open := s.open - {c})
  }

  /** The critical section of ReloadTLSConfig. */
  function Reload(s: Shared, config: int): Shared {
    CloseInstalled(s).(config := config, generation := s.generation + 1)
  }

  /** Close */
  function Close(s: Shared): Shared {
    CloseInstalled(s).(closed := true)
  }

  class TCPAdapter {
    const retryInterval: int
    var config: int
    var generation: nat
    var closed: bool
    var conn: Option<nat>
    var failed: bool
    var open: map<nat, int>
    var dialed: nat
    var dials: seq<int>

    function Value(): Shared
      reads this
    {
      Shared(config, generation, closed, conn, failed, open, dialed, dials)
    }

    /** newTCPAdapter: one dial at once; its failure is not fatal. */
    constructor (config: int, retryInterval: int, now: int, ok: bool)
      ensures this.retryInterval == retryInterval && Value() == Initial(config, now, ok)
    {
      this.retryInterval := retryInterval;
      this.config, generation, closed := config, 0, false;
      dials := [now];
      if ok {
        conn, failed, open, dialed := Some(0), false, map[0 := config], 1;
      } else {
        conn, failed, open, dialed := None, true, map[], 0;
      }
    }

    method Drop()
      modifies this
      ensures Value() == CloseInstalled(old(Value()))
    {
      if conn.Some? {
        open := open - {conn.value};
        conn := None;
      }
    }

    method LookForConnection(dead: bool) returns (found: Found)
      modifies this
      ensures (Value(), found) == Look(old(Value()), dead)
    {
      if conn.Some? && dead { Drop(); }
      if conn.Some? { return Connected; }
      if closed { return Unavailable; }
      return MustDial(config, generation);
    }

    /** dialLimited and dialConfig; `ok` is whether the network lets the dial succeed. */
    method Dial(dialConfig: int, now: int, ok: bool) returns (c: Option<nat>)
      modifies this
      ensures var s := old(Value());
              var started := s.(dials := s.dials + [now]);
              if !MayDial(s, retryInterval, now) then c == None && Value() == DialFailed(s)
              else if !ok then c == None && Value() == DialFailed(started)
              else c == Some(s.dialed) && Value() == DialSucceeded(started, dialConfig)
    {
      if |dials| > 0 && retryInterval - (now - dials[|dials| - 1]) > 0 {
        failed := true;
        return None;
      }
      dials := dials + [now];
      if !ok {
        failed := true;
        return None;
      }
      c := Some(dialed);
      open := open[dialed := dialConfig];
      dialed := dialed + 1;
    }

    method InstallConnection(c: nat, dialGeneration: nat) returns (outcome: Outcome)
      modifies this
      ensures (Value(), outcome) == Install(old(Value()), c, dialGeneration)
    {
      if closed || generation != dialGeneration { return Discard(false); }
      if conn.Some? { return Discard(true); }
      conn := Some(c);
      failed := false;
      return Installed;
    }

    method CloseConnection(c: nat)
      modifies this
      ensures Value() == CloseConn(old(Value()), c)
    {
      open := open - {c};
    }

    /** The end of ensureConnected: a connection that is not installed is closed. */
    method FinishConnect(c: nat, dialGeneration: nat) returns (connected: bool)
      modifies this
      ensures var (s, outcome) := Install(old(Value()), c, dialGeneration);
              match outcome
              case Installed => connected && Value() == s && conn == Some(c)
              case Discard(other) => connected == other && Value() == CloseConn(s, c) && c !in open && conn == old(conn)
    {
      var outcome := InstallConnection(c, dialGeneration);
      match outcome
      case Installed => connected := true;
      case Discard(other) =>
        CloseConnection(c);
        connected := other;
    }

    method ReloadTLSConfig(newConfig: int)
      modifies this
      ensures Value() == Reload(old(Value()), newConfig)
    {
      config := newConfig;
      generation := generation + 1;
      Drop();
    }

    method Shutdown()
      modifies this
      ensures Value() == Close(old(Value()))
    {
      closed := true;
      Drop();
    }
  }

  // Interleavings

  function Initial(config: int, now: int, ok: bool): Shared {
    if ok then Shared(config, 0, false, Some(0), false, map[0 := config], 1, [now])
    else Shared(config, 0, false, None, true, map[], 0, [now])
  }

  /**
   * Where a goroutine is within SendMessage; `again` marks its second attempt. Between two phases another
   * goroutine may run any of its own steps.
   */
  datatype Phase =
    | Waiting(config: int, generation: nat, again: bool)                // for dialMu
    | Dialing(config: int, generation: nat, again: bool)                // holding dialMu
    | Holding(c: nat, generation: nat, again: bool)                     // a new connection, not yet installed
    | Discarding(c: nat, connected: bool, again: bool)                  // about to close it
    | Ready(again: bool)                                                // ensureConnected returned true
    | Writing(c: nat, again: bool)
    | Reconnecting
    | Restarting                                                        // the old connection is closed

  /** What goroutine w does in one phase, with what its surroundings decide. */
  datatype Step =
    | Send(dead: bool)
    | StartDial(now: int)
    | EndDial(ok: bool)
    | TryInstall
    | CloseHeld
    | TakeConn
    | Written(ok: bool)
    | Reconnect
    | SendAgain(dead: bool)

  /** The step belongs to the phase; None is a goroutine outside SendMessage. */
  predicate Fits(phase: Option<Phase>, step: Step) {
    match phase
    case None => step.Send?
    case Some(Waiting(_, _, _)) => step.StartDial?
    case Some(Dialing(_, _, _)) => step.EndDial?
    case Some(Holding(_, _, _)) => step.TryInstall?
    case Some(Discarding(_, _, _)) => step.CloseHeld?
    case Some(Ready(_)) => step.TakeConn?
    case Some(Writing(_, _)) => step.Written?
    case Some(Reconnecting) => step.Reconnect?
    case Some(Restarting) => step.SendAgain?
  }

  /** ensureConnected from its start. */
  function Ensure(s: Shared, dead: bool, again: bool): (Shared, Option<Phase>) {
    var (s', found) := Look(s, dead);
    match found
    case Connected => (s', Some(Ready(again)))
    case Unavailable => (s', None)
    case MustDial(config, generation) => (s', Some(Waiting(config, generation, again)))
  }

  /** One step of a goroutine: the adapter and the goroutine afterwards. */
  function Act(s: Shared, phase: Option<Phase>, step: Step, retryInterval: int): (Shared, Option<Phase>)
    requires Fits(phase, step)
  {
    match step
    case Send(dead) => Ensure(s, dead, false)
    case StartDial(now) =>
      var p := phase.value;
      if !MayDial(s, retryInterval, now) then (DialFailed(s), None)
      else (s.(dials := s.dials + [now]), Some(Dialing(p.config, p.generation, p.again)))
    case EndDial(ok) =>
      var p := phase.value;
      if !ok then (DialFailed(s), None)
      else (DialSucceeded(s, p.config), Some(Holding(s.dialed, p.generation, p.again)))
    case TryInstall =>
      var p := phase.value;
      var (s', outcome) := Install(s, p.c, p.generation);
      (s', Some(if outcome.Installed? then Ready(p.again) else Discarding(p.c, outcome.connected, p.again)))
    case CloseHeld =>
      var p := phase.value;
      (CloseConn(s, p.c), if p.connected then Some(Ready(p.again)) else None)
    case TakeConn => (s, if s.conn == None then None else Some(Writing(s.conn.value, phase.value.again)))
    case Written(ok) => (s, if ok || phase.value.again then None else Some(Reconnecting))
    case Reconnect => if s.closed then (s, None) else (CloseInstalled(s), Some(Restarting))
    case SendAgain(dead) => Ensure(s, dead, true)
  }

  datatype System = System(shared: Shared, threads: map<nat, Phase>)

  datatype Event = Run(w: nat, step: Step) | ReloadConfig(config: int) | Shutdown

  function PhaseOf(s: System, w: nat): Option<Phase> {
    if w in s.threads then Some(s.threads[w]) else None
  }

  /** Any goroutine may take its next step, but only one may hold dialMu. */
  predicate Enabled(s: System, e: Event) {
    e.Run? ==>
      Fits(PhaseOf(s, e.w), e.step) && (e.step.StartDial? ==> forall v :: v in s.threads ==> !s.threads[v].Dialing?)
  }

  function Next(s: System, retryInterval: int, e: Event): System
    requires Enabled(s, e)
  {
    match e
    case Run(w, step) =>
      var (shared, phase) := Act(s.shared, PhaseOf(s, w), step, retryInterval);
      System(shared, if phase == None then s.threads - {w} else s.threads[w := phase.value])
    case ReloadConfig(config) => s.(shared := Reload(s.shared, config))
    case Shutdown => s.(shared := Close(s.shared))
  }

  // What every step keeps

  /** The connection a goroutine holds outside the adapter. */
  function HeldBy(p: Phase): Option<nat> {
    if p.Holding? || p.Discarding? then Some(p.c) else None
  }

  /** The installed connection is open and was dialed with the current configuration; none is installed after Close. */
  predicate Current(s: Shared) {
    && (s.conn.Some? ==> s.conn.value in s.open && s.open[s.conn.value] == s.config && s.conn.value < s.dialed)
    && (s.closed ==> s.conn == None)
  }

  /** What a goroutine remembers agrees with the adapter as long as no reload has happened since. */
  predicate Remembers(s: Shared, p: Phase) {
    match p
    case Waiting(config, generation, _) => generation <= s.generation && (generation == s.generation ==> config == s.config)
    case Dialing(config, generation, _) => generation <= s.generation && (generation == s.generation ==> config == s.config)
    case Holding(c, generation, _) =>
      generation <= s.generation && c < s.dialed && c in s.open && s.conn != Some(c)
      && (generation == s.generation ==> s.open[c] == s.config)
    case Discarding(c, _, _) => c < s.dialed && c in s.open && s.conn != Some(c)
    case _ => true
  }

  /** The adapter may change under a goroutine, but not the connection it holds, nor the configuration of a generation. */
  predicate Respects(s: Shared, s': Shared, c: nat) {
    && s.generation <= s'.generation && (s.generation == s'.generation ==> s.config == s'.config) && s.dialed <= s'.dialed
    && (c in s.open && s.conn != Some(c) ==> c in s'.open && s'.open[c] == s.open[c] && s'.conn != Some(c))
  }

  predicate Spaced(dials: seq<int>, retryInterval: int) {
    forall i :: 0 <= i < |dials| - 1 ==> dials[i + 1] - dials[i] >= retryInterval
  }

  predicate MineRemembers(s: Shared, phase: Option<Phase>) {
    phase.Some? ==> Remembers(s, phase.value)
  }

  predicate Mine(phase: Option<Phase>, c: nat) {
    phase.Some? && HeldBy(phase.value) == Some(c)
  }

  /** One step keeps the adapter current, and leaves a goroutine that remembers. */
  lemma ActKeeps(s: Shared, phase: Option<Phase>, step: Step, retryInterval: int)
    requires Fits(phase, step) && Current(s) && MineRemembers(s, phase)
    ensures var (s', phase') := Act(s, phase, step, retryInterval);
            Current(s') && MineRemembers(s', phase')
  {
  }

  /** It respects a connection that another goroutine holds. */
  lemma ActRespects(s: Shared, phase: Option<Phase>, step: Step, retryInterval: int, c: nat)
    requires Fits(phase, step) && !Mine(phase, c)
    ensures var (s', phase') := Act(s, phase, step, retryInterval);
            c < s.dialed ==> Respects(s, s', c) && !Mine(phase', c)
    ensures var s' := Act(s, phase, step, retryInterval).0;
            s.generation == s'.generation && s.config == s'.config && s.dialed <= s'.dialed
  {
  }

  /** An open connection is installed, the goroutine's own, or neither before and after. */
  lemma ActAccounts(s: Shared, phase: Option<Phase>, step: Step, retryInterval: int, c: nat)
    requires Fits(phase, step) && (c in s.open ==> c < s.dialed)
    ensures var (s', phase') := Act(s, phase, step, retryInterval);
            c in s'.open ==>
              c < s'.dialed
              && (s'.conn == Some(c) || Mine(phase', c) || (c in s.open && s.conn != Some(c) && !Mine(phase, c)))
  {
  }

  lemma ActSpaces(s: Shared, phase: Option<Phase>, step: Step, retryInterval: int)
    requires Fits(phase, step) && Spaced(s.dials, retryInterval)
    ensures Spaced(Act(s, phase, step, retryInterval).0.dials, retryInterval)
  {
  }

  /** Only a goroutine that starts to dial is dialing afterwards. */
  lemma ActDials(s: Shared, phase: Option<Phase>, step: Step, retryInterval: int)
    requires Fits(phase, step)
    ensures var phase' := Act(s, phase, step, retryInterval).1;
            phase'.Some? && phase'.value.Dialing? ==> step.StartDial?
  {
  }

  // All goroutines

  predicate AllRemember(s: System) {
    forall w :: w in s.threads ==> Remembers(s.shared, s.threads[w])
  }

  /** No connection is held by two goroutines. */
  predicate SoleHolders(s: System) {
    forall w, v :: w in s.threads && v in s.threads && w != v && HeldBy(s.threads[w]).Some? ==>
      HeldBy(s.threads[w]) != HeldBy(s.threads[v])
  }

  predicate OneDials(s: System) {
    forall w, v :: w in s.threads && v in s.threads && w != v && s.threads[w].Dialing? ==> !s.threads[v].Dialing?
  }

  predicate Held(s: System, c: nat) {
    exists w :: w in s.threads && HeldBy(s.threads[w]) == Some(c)
  }

  /** A connection is installed, held by the goroutine that dialed it, or closed. */
  predicate Accounted(s: System, c: nat) {
    c in s.shared.open ==> c < s.shared.dialed && (s.shared.conn == Some(c) || Held(s, c))
  }

  ghost predicate Safe(s: System, retryInterval: int) {
    && Current(s.shared) && Spaced(s.shared.dials, retryInterval)
    && AllRemember(s) && SoleHolders(s) && OneDials(s) && forall c :: Accounted(s, c)
  }

  lemma RunRemembers(s: System, retryInterval: int, w: nat, step: Step)
    requires Current(s.shared) && AllRemember(s) && SoleHolders(s) && Enabled(s, Run(w, step))
    ensures Current(Next(s, retryInterval, Run(w, step)).shared)
    ensures AllRemember(Next(s, retryInterval, Run(w, step)))
  {
    var phase := PhaseOf(s, w);
    ActKeeps(s.shared, phase, step, retryInterval);
    var s' := Next(s, retryInterval, Run(w, step));
    forall v | v in s'.threads ensures Remembers(s'.shared, s'.threads[v]) {
      if v != w {
        assert Remembers(s.shared, s.threads[v]);
        OtherRemembers(s.shared, phase, step, retryInterval, s.threads[v]);
      }
    }
  }

  lemma OtherRemembers(s: Shared, phase: Option<Phase>, step: Step, retryInterval: int, p: Phase)
    requires Fits(phase, step) && Remembers(s, p) && (HeldBy(p).Some? ==> !Mine(phase, HeldBy(p).value))
    ensures Remembers(Act(s, phase, step, retryInterval).0, p)
  {
    var c := match HeldBy(p) case Some(c) => c case None => FreshId(phase);
    ActRespects(s, phase, step, retryInterval, c);
  }

  /** Some connection that the goroutine does not hold. */
  function FreshId(phase: Option<Phase>): (c: nat)
    ensures !Mine(phase, c)
  {
    if Mine(phase, 0) then 1 else 0
  }

  lemma RunHolders(s: System, retryInterval: int, w: nat, step: Step)
    requires AllRemember(s) && SoleHolders(s) && OneDials(s) && Enabled(s, Run(w, step))
    ensures SoleHolders(Next(s, retryInterval, Run(w, step))) && OneDials(Next(s, retryInterval, Run(w, step)))
  {
    var phase := PhaseOf(s, w);
    var s' := Next(s, retryInterval, Run(w, step));
    ActDials(s.shared, phase, step, retryInterval);
    forall v | v in s'.threads && v != w && HeldBy(s'.threads[v]).Some?
      ensures w in s'.threads ==> HeldBy(s'.threads[w]) != HeldBy(s'.threads[v])
    {
      assert Remembers(s.shared, s.threads[v]);
      ActRespects(s.shared, phase, step, retryInterval, HeldBy(s.threads[v]).value);
    }
  }

  lemma RunAccounts(s: System, retryInterval: int, w: nat, step: Step, c: nat)
    requires Accounted(s, c) && Enabled(s, Run(w, step))
    ensures Accounted(Next(s, retryInterval, Run(w, step)), c)
  {
    var phase := PhaseOf(s, w);
    var s' := Next(s, retryInterval, Run(w, step));
    ActAccounts(s.shared, phase, step, retryInterval, c);
    if c in s'.shared.open && s'.shared.conn != Some(c) {
      if Mine(Act(s.shared, phase, step, retryInterval).1, c) {
        assert HeldBy(s'.threads[w]) == Some(c);
      } else {
        var v :| v in s.threads && HeldBy(s.threads[v]) == Some(c);
        assert v != w && HeldBy(s'.threads[v]) == Some(c);
      }
    }
  }

  /** Reload and Close change the adapter only. */
  lemma GlobalKeeps(s: System, retryInterval: int, e: Event)
    requires Safe(s, retryInterval) && !e.Run?
    ensures Safe(Next(s, retryInterval, e), retryInterval)
  {
    var s' := Next(s, retryInterval, e);
    forall v | v in s'.threads ensures Remembers(s'.shared, s'.threads[v]) { assert Remembers(s.shared, s.threads[v]); }
    forall c ensures Accounted(s', c) {
      assert Accounted(s, c);
      if c in s'.shared.open { assert Held(s, c) ==> Held(s', c); }
    }
  }

  lemma NextSafe(s: System, retryInterval: int, e: Event)
    requires Safe(s, retryInterval) && Enabled(s, e)
    ensures Safe(Next(s, retryInterval, e), retryInterval)
  {
    match e
    case Run(w, step) =>
      RunRemembers(s, retryInterval, w, step);
      RunHolders(s, retryInterval, w, step);
      ActSpaces(s.shared, PhaseOf(s, w), step, retryInterval);
      forall c ensures Accounted(Next(s, retryInterval, e), c) {
        assert Accounted(s, c);
        RunAccounts(s, retryInterval, w, step, c);
      }
    case _ => GlobalKeeps(s, retryInterval, e);
  }

  /** The system reached by a list of events, if each is enabled in turn. */
  function After(s: System, retryInterval: int, es: seq<Event>): Option<System> {
    if es == [] then Some(s)
    else
      match After(s, retryInterval, es[..|es| - 1])
      case None => None
      case Some(s1) => if Enabled(s1, es[|es| - 1]) then Some(Next(s1, retryInterval, es[|es| - 1])) else None
  }

  lemma {:induction false} AfterSafe(s: System, retryInterval: int, es: seq<Event>, s': System)
    requires Safe(s, retryInterval) && After(s, retryInterval, es) == Some(s')
    ensures Safe(s', retryInterval)
  {
    if es != [] {
      var s1 := After(s, retryInterval, es[..|es| - 1]).value;
      AfterSafe(s, retryInterval, es[..|es| - 1], s1);
      NextSafe(s1, retryInterval, es[|es| - 1]);
    }
  }

  /**
   * In every interleaving of sending goroutines, reloads and Close: the installed connection was dialed with the
   * current configuration, nothing is installed after Close, every dialed connection is installed, held by one
   * goroutine, or closed, and dial attempts are apart by the retry interval.
   */
  lemma EveryRunIsSafe(config: int, retryInterval: int, now: int, ok: bool, es: seq<Event>, s: System, c: nat)
    requires After(System(Initial(config, now, ok), map[]), retryInterval, es) == Some(s)
    ensures s.shared.conn.Some? ==>
              s.shared.conn.value in s.shared.open && s.shared.open[s.shared.conn.value] == s.shared.config && !s.shared.closed
    ensures c in s.shared.open ==> s.shared.conn == Some(c) || Held(s, c)
    ensures SoleHolders(s) && OneDials(s) && Spaced(s.shared.dials, retryInterval)
  {
    var s0 := System(Initial(config, now, ok), map[]);
    assert forall x :: Accounted(s0, x);
    AfterSafe(s0, retryInterval, es, s);
    assert Accounted(s, c);
  }
}
