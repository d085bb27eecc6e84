/** That the TCP client does connect: when a dialed connection is installed, and that a goroutine can always send. */
module TcpProgress {
  import opened Options
  import opened TcpClient

  // What the first look finds

  /**
   * A goroutine that starts to send goes on with a live connection. A dead one is closed and no longer installed. Without
   * connection it waits to dial with the current configuration and generation, unless the adapter is closed.
   */
  lemma LooksFirst(s: System, retryInterval: int, w: nat, dead: bool)
    requires w !in s.threads && Current(s.shared)
    ensures var s' := Next(s, retryInterval, Run(w, Send(dead)));
            if s.shared.conn.Some? && !dead then s'.shared == s.shared && PhaseOf(s', w) == Some(Ready(false))
            else
              && s'.shared == s.shared.(conn := None, open := s'.shared.open)
              && s'.shared.open == s.shared.open - (if s.shared.conn.Some? then {s.shared.conn.value} else {})
              && PhaseOf(s', w) == if s.shared.closed then None else Some(Waiting(s.shared.config, s.shared.generation, false))
  {
  }

  /** A dial that is refused because the last is not long enough ago ends the call, as does one that fails. */
  lemma DialEnds(s: System, retryInterval: int, w: nat, now: int)
    requires w in s.threads
    ensures s.threads[w].Waiting? && s.shared.dials != [] && now - s.shared.dials[|s.shared.dials| - 1] < retryInterval
            && Enabled(s, Run(w, StartDial(now))) ==>
              var s' := Next(s, retryInterval, Run(w, StartDial(now)));
              PhaseOf(s', w) == None && s'.shared == s.shared.(failed := true)
    ensures s.threads[w].Dialing? ==>
              var s' := Next(s, retryInterval, Run(w, EndDial(false)));
              PhaseOf(s', w) == None && s'.shared == s.shared.(failed := true)
  {
  }

  /** A new adapter: if its dial succeeds, the first message needs no other. */
  lemma StartsConnected(config: int, now: int, ok: bool, retryInterval: int, w: nat)
    ensures var s := Next(System(Initial(config, now, ok), map[]), retryInterval, Run(w, Send(false)));
            PhaseOf(s, w) == (if ok then Some(Ready(false)) else Some(Waiting(config, 0, false)))
            && s.shared.dials == [now] && s.shared.open == if ok then map[0 := config] else map[]
  {
  }

  /** A successful write ends the call; so does a second failure. */
  lemma WriteEnds(s: System, retryInterval: int, w: nat, ok: bool)
    requires w in s.threads && s.threads[w].Writing?
    ensures var s' := Next(s, retryInterval, Run(w, Written(ok)));
            s'.shared == s.shared && PhaseOf(s', w) == if ok || s.threads[w].again then None else Some(Reconnecting)
  {
  }

  // When a dialed connection is installed

  /** Nothing stands against a connection of this generation. */
  predicate Welcome(s: Shared, generation: nat) {
    !s.closed && s.generation == generation && s.conn == None
  }

  /** Another connection of the current configuration is installed meanwhile. */
  predicate Superfluous(s: Shared, generation: nat) {
    !s.closed && s.generation == generation && s.conn.Some?
  }

  /**
   * A goroutine that holds a new connection installs it exactly if the adapter is open, has not been reloaded since the
   * goroutine looked, and has no other connection. Beside another connection it closes its own and goes on to send; else
   * it closes its own and gives up.
   */
  lemma InstalledIff(s: System, retryInterval: int, w: nat)
    requires AllRemember(s) && w in s.threads && s.threads[w].Holding?
    ensures var p := s.threads[w];
            var s' := Next(s, retryInterval, Run(w, TryInstall));
            && (s'.shared.conn == Some(p.c) <==> Welcome(s.shared, p.generation))
            && PhaseOf(s', w) == Some(if Welcome(s.shared, p.generation) then Ready(p.again)
                                      else Discarding(p.c, Superfluous(s.shared, p.generation), p.again))
            && s'.shared == if Welcome(s.shared, p.generation) then s.shared.(conn := Some(p.c), failed := false) else s.shared
  {
    assert Remembers(s.shared, s.threads[w]);
  }

  lemma DiscardedIsClosed(s: System, retryInterval: int, w: nat)
    requires w in s.threads && s.threads[w].Discarding?
    ensures var p := s.threads[w];
            var s' := Next(s, retryInterval, Run(w, CloseHeld));
            p.c !in s'.shared.open && PhaseOf(s', w) == if p.connected then Some(Ready(p.again)) else None
  {
  }

  // Connecting fails only after a reload or Close

  /** What a goroutine remembers is of this generation. */
  predicate OfGeneration(p: Phase, generation: nat) {
    p.Waiting? || p.Dialing? || p.Holding? ==> p.generation == generation
  }

  predicate Quiet(es: seq<Event>) {
    forall i :: 0 <= i < |es| ==> es[i].Run?
  }

  lemma ActIsQuiet(s: Shared, phase: Option<Phase>, step: Step, retryInterval: int)
    requires Fits(phase, step) && (phase.Some? ==> OfGeneration(phase.value, s.generation))
    ensures var (s', phase') := Act(s, phase, step, retryInterval);
            s'.generation == s.generation && s'.closed == s.closed && s'.config == s.config
            && (phase'.Some? ==> OfGeneration(phase'.value, s.generation))
  {
  }

  lemma OthersAreQuiet(s: Shared, phase: Option<Phase>, step: Step, retryInterval: int)
    requires Fits(phase, step)
    ensures var s' := Act(s, phase, step, retryInterval).0;
            s'.generation == s.generation && s'.closed == s.closed && s'.config == s.config
  {
  }

  /** While nothing is reloaded or closed, a goroutine that has looked since the last reload stays up to date. */
  lemma {:induction false} QuietKeeps(s: System, retryInterval: int, es: seq<Event>, w: nat, s': System)
    requires After(s, retryInterval, es) == Some(s') && Quiet(es)
    requires w in s.threads ==> OfGeneration(s.threads[w], s.shared.generation)
    ensures s'.shared.generation == s.shared.generation && s'.shared.closed == s.shared.closed
    ensures s'.shared.config == s.shared.config
    ensures w in s'.threads ==> OfGeneration(s'.threads[w], s'.shared.generation)
  {
    if es != [] {
      var s1, e := After(s, retryInterval, es[..|es| - 1]).value, es[|es| - 1];
      QuietKeeps(s, retryInterval, es[..|es| - 1], w, s1);
      OthersAreQuiet(s1.shared, PhaseOf(s1, e.w), e.step, retryInterval);
      if e.w == w { ActIsQuiet(s1.shared, PhaseOf(s1, w), e.step, retryInterval); }
    }
  }

  /**
   * Between the look of a goroutine at an open adapter and its attempt to install a connection, any other goroutines may
   * run: as long as nothing is reloaded or closed, the attempt ends with a connection installed, its own or another.
   */
  lemma ConnectsUnlessChanged(s: System, retryInterval: int, es: seq<Event>, w: nat, s': System)
    requires Safe(s, retryInterval) && !s.shared.closed && (w in s.threads ==> OfGeneration(s.threads[w], s.shared.generation))
    requires After(s, retryInterval, es) == Some(s') && Quiet(es) && w in s'.threads && s'.threads[w].Holding?
    ensures var s2 := Next(s', retryInterval, Run(w, TryInstall));
            s2.shared.conn.Some? && w in s2.threads
            && (s2.threads[w].Ready? || (s2.threads[w].Discarding? && s2.threads[w].connected))
  {
    QuietKeeps(s, retryInterval, es, w, s');
    AfterSafe(s, retryInterval, es, s');
    InstalledIff(s', retryInterval, w);
  }

  // Reload and Close

  predicate NoReload(es: seq<Event>) {
    forall i :: 0 <= i < |es| ==> !es[i].ReloadConfig?
  }

  lemma {:induction false} KeepsConfig(s: System, retryInterval: int, es: seq<Event>, s': System)
    requires After(s, retryInterval, es) == Some(s') && NoReload(es)
    ensures s'.shared.config == s.shared.config
  {
    if es != [] {
      var s1, e := After(s, retryInterval, es[..|es| - 1]).value, es[|es| - 1];
      KeepsConfig(s, retryInterval, es[..|es| - 1], s1);
      if e.Run? { OthersAreQuiet(s1.shared, PhaseOf(s1, e.w), e.step, retryInterval); }
    }
  }

  /** After a reload, and until the next, only connections dialed with the new configuration are ever installed. */
  lemma ReloadTakesEffect(s: System, retryInterval: int, config: int, es: seq<Event>, s': System)
    requires Safe(s, retryInterval) && NoReload(es)
    requires After(Next(s, retryInterval, ReloadConfig(config)), retryInterval, es) == Some(s')
    ensures s'.shared.conn.Some? ==> s'.shared.conn.value in s'.shared.open && s'.shared.open[s'.shared.conn.value] == config
  {
    var s1 := Next(s, retryInterval, ReloadConfig(config));
    NextSafe(s, retryInterval, ReloadConfig(config));
    AfterSafe(s1, retryInterval, es, s');
    KeepsConfig(s1, retryInterval, es, s');
  }

  /** Closed, and nobody writes but those that had taken the connection before. */
  predicate Ended(s: System, s': System) {
    s'.shared.closed && s'.shared.conn == None
    && forall w :: w in s'.threads && s'.threads[w].Writing? ==> w in s.threads && s.threads[w] == s'.threads[w]
  }

  lemma StaysEnded(s: System, retryInterval: int, s1: System, e: Event)
    requires Ended(s, s1) && Enabled(s1, e)
    ensures Ended(s, Next(s1, retryInterval, e))
  {
  }

  /** Close is final: no connection is installed again, and no goroutine that is not writing yet will write. */
  lemma {:induction false} CloseIsFinal(s: System, retryInterval: int, es: seq<Event>, s': System)
    requires After(Next(s, retryInterval, Shutdown), retryInterval, es) == Some(s')
    ensures Ended(s, s')
  {
    if es != [] {
      var s1, e := After(Next(s, retryInterval, Shutdown), retryInterval, es[..|es| - 1]).value, es[|es| - 1];
      CloseIsFinal(s, retryInterval, es[..|es| - 1], s1);
      StaysEnded(s, retryInterval, s1, e);
    }
  }

  // Progress

  /** The dial of a goroutine is let through at this time: nobody else dials, and the last attempt is long enough ago. */
  predicate LetThrough(s: System, retryInterval: int, now: int) {
    && (forall v :: v in s.threads ==> !s.threads[v].Dialing?)
    && (s.shared.dials == [] || now - s.shared.dials[|s.shared.dials| - 1] >= retryInterval)
  }

  lemma AfterSnoc(s: System, retryInterval: int, es: seq<Event>, e: Event)
    requires After(s, retryInterval, es).Some? && Enabled(After(s, retryInterval, es).value, e)
    ensures After(s, retryInterval, es + [e]) == Some(Next(After(s, retryInterval, es).value, retryInterval, e))
  {
    assert (es + [e])[..|es|] == es;
  }

  /** Only goroutine w runs. */
  predicate Alone(es: seq<Event>, w: nat) {
    forall i :: 0 <= i < |es| ==> es[i].Run? && es[i].w == w
  }

  /** Goroutine w is about to write on the installed connection, which has the current configuration. */
  predicate Writes(s: System, w: nat, again: bool) {
    w in s.threads && s.threads[w].Writing? && s.threads[w].again == again
    && s.shared.conn == Some(s.threads[w].c) && s.threads[w].c in s.shared.open
    && s.shared.open[s.threads[w].c] == s.shared.config
  }

  lemma {:induction false} AfterConcat(s: System, retryInterval: int, es: seq<Event>, fs: seq<Event>)
    requires After(s, retryInterval, es).Some? && After(After(s, retryInterval, es).value, retryInterval, fs).Some?
    ensures After(s, retryInterval, es + fs) == After(After(s, retryInterval, es).value, retryInterval, fs)
  {
    if fs == [] {
      assert es + fs == es;
    } else {
      assert (es + fs)[..|es + fs| - 1] == es + fs[..|fs| - 1];
      AfterConcat(s, retryInterval, es, fs[..|fs| - 1]);
    }
  }

  /** One event in front of others. */
  lemma AfterCons(s: System, retryInterval: int, e: Event, es: seq<Event>)
    requires Enabled(s, e) && After(Next(s, retryInterval, e), retryInterval, es).Some?
    ensures After(s, retryInterval, [e] + es) == After(Next(s, retryInterval, e), retryInterval, es)
  {
    AfterSnoc(s, retryInterval, [], e);
    assert [] + [e] == [e];
    AfterConcat(s, retryInterval, [e], es);
  }

  lemma AloneCons(e: Event, es: seq<Event>, w: nat)
    requires e.Run? && e.w == w && Alone(es, w)
    ensures Alone([e] + es, w)
  {
  }

  /** An open adapter with a connection: the goroutine takes it. */
  lemma TakesAndWrites(s: System, retryInterval: int, w: nat) returns (es: seq<Event>, s': System)
    requires Current(s.shared) && s.shared.conn.Some? && w in s.threads && s.threads[w].Ready?
    ensures Alone(es, w) && After(s, retryInterval, es) == Some(s') && Writes(s', w, s.threads[w].again)
    ensures s'.shared == s.shared
  {
    s' := Next(s, retryInterval, Run(w, TakeConn));
    es := [Run(w, TakeConn)] + [];
    AfterCons(s, retryInterval, Run(w, TakeConn), []);
  }

  /** A new connection of the current generation: the goroutine installs and takes it. */
  lemma InstallsAndWrites(s: System, retryInterval: int, w: nat) returns (es: seq<Event>, s': System)
    requires Current(s.shared) && w in s.threads && s.threads[w].Holding? && Welcome(s.shared, s.threads[w].generation)
    requires var c := s.threads[w].c; c in s.shared.open && s.shared.open[c] == s.shared.config && c < s.shared.dialed
    ensures Alone(es, w) && After(s, retryInterval, es) == Some(s') && Writes(s', w, s.threads[w].again)
    ensures s'.shared.conn == Some(s.threads[w].c)
  {
    var s1 := Next(s, retryInterval, Run(w, TryInstall));
    es, s' := TakesAndWrites(s1, retryInterval, w);
    AfterCons(s, retryInterval, Run(w, TryInstall), es);
    AloneCons(Run(w, TryInstall), es, w);
    es := [Run(w, TryInstall)] + es;
  }

  /** From a dial that may start, to the write. */
  lemma DialsAndWrites(s: System, retryInterval: int, w: nat, now: int) returns (es: seq<Event>, s': System)
    requires Current(s.shared) && !s.shared.closed && s.shared.conn == None && LetThrough(s, retryInterval, now)
    requires w in s.threads && s.threads[w].Waiting? && s.threads[w].generation == s.shared.generation
    requires s.threads[w].config == s.shared.config
    ensures Alone(es, w) && After(s, retryInterval, es) == Some(s') && Writes(s', w, s.threads[w].again)
    ensures s'.shared.conn == Some(s.shared.dialed)
  {
    var s1 := Next(s, retryInterval, Run(w, StartDial(now)));
    var s2 := Next(s1, retryInterval, Run(w, EndDial(true)));
    es, s' := InstallsAndWrites(s2, retryInterval, w);
    AfterCons(s1, retryInterval, Run(w, EndDial(true)), es);
    AloneCons(Run(w, EndDial(true)), es, w);
    es := [Run(w, EndDial(true))] + es;
    AfterCons(s, retryInterval, Run(w, StartDial(now)), es);
    AloneCons(Run(w, StartDial(now)), es, w);
    es := [Run(w, StartDial(now))] + es;
  }

  /** From the start of ensureConnected, for the first or the second attempt, to the write. */
  lemma EnsuresAndWrites(s: System, retryInterval: int, w: nat, step: Step, now: int) returns (es: seq<Event>, s': System)
    requires Current(s.shared) && !s.shared.closed && LetThrough(s, retryInterval, now)
    requires (step.Send? && w !in s.threads) || (step.SendAgain? && PhaseOf(s, w) == Some(Restarting))
    ensures Alone(es, w) && After(s, retryInterval, es) == Some(s') && Writes(s', w, step.SendAgain?)
    ensures s.shared.conn == None ==> s'.shared.conn == Some(s.shared.dialed)
  {
    var s1 := Next(s, retryInterval, Run(w, step));
    if s1.threads[w].Ready? {
      es, s' := TakesAndWrites(s1, retryInterval, w);
    } else {
      es, s' := DialsAndWrites(s1, retryInterval, w, now);
    }
    AfterCons(s, retryInterval, Run(w, step), es);
    AloneCons(Run(w, step), es, w);
    es := [Run(w, step)] + es;
  }

  /**
   * Progress. In any open system that has been reached, whether or not a connection is installed or alive, a goroutine
   * that starts to send and then runs alone gets to write on a connection of the current configuration, if a dial is let
   * through and succeeds.
   */
  lemma SenderWrites(s: System, retryInterval: int, w: nat, dead: bool, now: int) returns (es: seq<Event>, s': System)
    requires Safe(s, retryInterval) && !s.shared.closed && w !in s.threads && LetThrough(s, retryInterval, now)
    ensures Alone(es, w) && After(s, retryInterval, es) == Some(s') && Writes(s', w, false)
  {
    es, s' := EnsuresAndWrites(s, retryInterval, w, Send(dead), now);
  }

  /** A failed write and the start of reconnect drop the connection. */
  lemma DropsAfterFailure(s: System, retryInterval: int, w: nat) returns (es: seq<Event>, s': System)
    requires !s.shared.closed && Writes(s, w, false)
    ensures Alone(es, w) && After(s, retryInterval, es) == Some(s')
    ensures PhaseOf(s', w) == Some(Restarting) && s'.shared.conn == None && !s'.shared.closed
    ensures s'.shared.dialed == s.shared.dialed && s'.shared.dials == s.shared.dials
    ensures forall v :: v in s'.threads && v != w ==> v in s.threads && s'.threads[v] == s.threads[v]
  {
    var e1, e2 := Run(w, Written(false)), Run(w, Reconnect);
    AfterSnoc(s, retryInterval, [], e1);
    AfterSnoc(s, retryInterval, [] + [e1], e2);
    es := [] + [e1] + [e2];
    s' := After(s, retryInterval, es).value;
  }

  /** After a failed write the goroutine drops the connection and gets to write once more, on a new one. */
  lemma SenderWritesAgain(s: System, retryInterval: int, w: nat, dead: bool, now: int) returns (es: seq<Event>, s': System)
    requires Safe(s, retryInterval) && !s.shared.closed && Writes(s, w, false) && LetThrough(s, retryInterval, now)
    ensures Alone(es, w) && After(s, retryInterval, es) == Some(s') && Writes(s', w, true)
    ensures s'.shared.conn == Some(s.shared.dialed) != s.shared.conn
  {
    var first, s2 := DropsAfterFailure(s, retryInterval, w);
    AfterSafe(s, retryInterval, first, s2);
    var rest;
    rest, s' := EnsuresAndWrites(s2, retryInterval, w, SendAgain(dead), now);
    AfterConcat(s, retryInterval, first, rest);
    es := first + rest;
  }
}
