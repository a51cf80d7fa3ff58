/** The per-volume mount state machine of zookeeper_plugin/volumes.py
    (Volume.on_mount, on_unmount, mount, unmount, alive) as functions on a value.
    The helper process is abstract: absent, running, or exited with a return code
    that the plugin has not yet collected. When it exits is not up to the plugin,
    so each step that waits for it takes what the wait observed as an argument. */
module MountMachine {
  import opened Wrappers
  import opened Commandline

  /** `Volume.process`: None, or a Popen whose return code is unset (Running) or set. */
  datatype Process = NoProcess | Running | Exited(rc: int)

  /** The calls the volume makes on the outside world, in order. */
  datatype Effect = Spawn(argv: seq<Value>) | Terminate | CloseLog(file: string)

  /** What `mount` prepares before spawning: the argument vector and, in debug
      mode, the two log files it opens for the helper's output. */
  datatype Launch = Launch(argv: seq<Value>, logs: Option<seq<string>>)

  /** `refcount`, `process`, `last_rc_code`, `fds_to_close`, and the calls made so far. */
  datatype MountState = MountState(refcount: int, process: Process, lastRc: Option<int>,
                                   logs: seq<string>, effects: seq<Effect>)

  /** The state after a call, and whether the call returned or raised. */
  datatype Step = Step(state: MountState, outcome: Outcome)

  /** The state after `alive`, and its answer. */
  datatype Probe = Probe(state: MountState, alive: bool)

  /** The state of a newly constructed volume. */
  function Initial(): MountState
  {
    MountState(0, NoProcess, None, [], [])
  }

  /** A helper process exists only while someone holds the volume. */
  predicate Inv(s: MountState)
  {
    s.process != NoProcess ==> s.refcount >= 1
  }

  /** `while fds_to_close: fds_to_close.pop().close()`: closes from the end. */
  function CloseLogs(logs: seq<string>): seq<Effect>
  {
    if |logs| == 0 then [] else [CloseLog(logs[|logs| - 1])] + CloseLogs(logs[..|logs| - 1])
  }

  /** The `alive` property: false without a process; an exited process is
      collected (return code recorded, log files closed, handle dropped). */
  function Alive(s: MountState): (p: Probe)
    ensures p.alive <==> s.process.Running?
    ensures p.alive || s.process == NoProcess ==> p.state == s
    ensures !p.alive ==> p.state.process == NoProcess && p.state.refcount == s.refcount
    ensures s.process.Exited? ==>
              && p.state.lastRc == Some(s.process.rc) && p.state.logs == []
              && p.state.effects == s.effects + CloseLogs(s.logs)
  {
    match s.process
    case NoProcess => Probe(s, false)
    case Running => Probe(s, true)
    case Exited(rc) =>
      Probe(s.(process := NoProcess, lastRc := Some(rc), logs := [],
               effects := s.effects + CloseLogs(s.logs)), false)
  }

  /** Not code of the plugin: the helper stops on its own with return code `rc`. */
  function HelperExits(s: MountState, rc: int): MountState
  {
    if s.process.Running? then s.(process := Exited(rc)) else s
  }

  /** `mount`: open the debug logs, spawn, sleep through the grace period, then
      probe. `startupExit` is the return code of a helper that died within the
      grace period, None if it is still running. */
  function Mount(s: MountState, launch: Launch, startupExit: Option<int>): Step
  {
    var s1 := if launch.logs.Some? then s.(logs := launch.logs.value) else s;
    if !Spawnable(launch.argv) then Step(s1, Raised(PopenTypeError))
    else
      var s2 := s1.(process := Running, effects := s1.effects + [Spawn(launch.argv)]);
      var s3 := if startupExit.Some? then s2.(process := Exited(startupExit.value)) else s2;
      var p := Alive(s3);
      if p.alive then Step(p.state, Done)
      else Step(p.state, Raised(MountException(startupExit.value)))
  }

  /** `unmount`: wait briefly, which raises AttributeError when no process is
      recorded (`None.wait`); otherwise probe; a live helper is sent SIGTERM
      and probed again after ten seconds; one still alive then reaches
      `os.killpg(pgid)`, which raises because the signal argument is missing.
      `termExit` is the return code seen after the SIGTERM, None if it was
      still running. */
  function Unmount(s: MountState, termExit: Option<int>): Step
  {
    if s.process == NoProcess then Step(s, Raised(AttributeError))
    else
    var p := Alive(s);
    if !p.alive then Step(p.state.(process := NoProcess), Done)
    else
      var s1 := p.state.(effects := p.state.effects + [Terminate]);
      match termExit
      case None => Step(s1, Raised(KillpgTypeError))
      case Some(rc) =>
        var q := Alive(s1.(process := Exited(rc)));
        Step(q.state.(process := NoProcess), Done)
  }

  /** `on_mount`: spawn only when nobody holds the volume and no process is
      recorded; count the holder unless the spawn raised. */
  function OnMount(s: MountState, launch: Launch, startupExit: Option<int>): Step
  {
    if s.refcount == 0 && s.process == NoProcess then
      var r := Mount(s, launch, startupExit);
      if r.outcome.Raised? then r
      else Step(r.state.(refcount := r.state.refcount + 1), Done)
    else Step(s.(refcount := s.refcount + 1), Done)
  }

  /** `on_unmount`: tear down when the last holder leaves and a process is
      recorded; then subtract one, with no floor, unless the teardown raised. */
  function OnUnmount(s: MountState, termExit: Option<int>): Step
  {
    if s.refcount == 1 && s.process != NoProcess then
      var r := Unmount(s, termExit);
      if r.outcome.Raised? then r
      else Step(r.state.(refcount := r.state.refcount - 1), Done)
    else Step(s.(refcount := s.refcount - 1), Done)
  }

  // ----- Counting the calls on the outside world -----

  function Spawns(es: seq<Effect>): nat
  {
    if |es| == 0 then 0 else Spawns(es[..|es| - 1]) + (if es[|es| - 1].Spawn? then 1 else 0)
  }

  function Terminations(es: seq<Effect>): nat
  {
    if |es| == 0 then 0 else Terminations(es[..|es| - 1]) + (if es[|es| - 1].Terminate? then 1 else 0)
  }

  lemma {:induction false} CountsAppend(a: seq<Effect>, b: seq<Effect>)
    ensures Spawns(a + b) == Spawns(a) + Spawns(b)
    ensures Terminations(a + b) == Terminations(a) + Terminations(b)
  {
    if |b| > 0 {
      assert (a + b)[..|a + b| - 1] == a + b[..|b| - 1];
      CountsAppend(a, b[..|b| - 1]);
    } else {
      assert a + b == a;
    }
  }

  /** Closing log files neither spawns nor terminates anything. */
  lemma {:induction false} CloseLogsCountsNothing(logs: seq<string>)
    ensures Spawns(CloseLogs(logs)) == 0 && Terminations(CloseLogs(logs)) == 0
  {
    if |logs| > 0 {
      CloseLogsCountsNothing(logs[..|logs| - 1]);
      CountsAppend([CloseLog(logs[|logs| - 1])], CloseLogs(logs[..|logs| - 1]));
      assert [CloseLog(logs[|logs| - 1])][..0] == [];
    }
  }

  /** Every log file is closed once, the last opened first. */
  lemma {:induction false} CloseLogsReversed(logs: seq<string>)
    ensures |CloseLogs(logs)| == |logs|
    ensures forall i :: 0 <= i < |logs| ==> CloseLogs(logs)[i] == CloseLog(logs[|logs| - 1 - i])
  {
    if |logs| > 0 {
      var init := logs[..|logs| - 1];
      CloseLogsReversed(init);
      forall i | 1 <= i < |logs| ensures CloseLogs(logs)[i] == CloseLog(logs[|logs| - 1 - i]) {
        assert CloseLogs(logs)[i] == CloseLogs(init)[i - 1];
        assert init[|init| - 1 - (i - 1)] == logs[|logs| - 1 - i];
      }
    }
  }

  // ----- One call at a time -----

  /** `on_mount` spawns exactly when the volume is idle (count 0, no process)
      and the vector can be spawned; the count rises by one exactly when it
      returns; when it raises, the count is unchanged and no process is kept,
      so the next call tries again. */
  lemma OnMountSpec(s: MountState, launch: Launch, startupExit: Option<int>)
    ensures var r := OnMount(s, launch, startupExit);
      && Spawns(r.state.effects)
         == Spawns(s.effects) + (if s.refcount == 0 && s.process == NoProcess && Spawnable(launch.argv) then 1 else 0)
      && Terminations(r.state.effects) == Terminations(s.effects)
      && (r.outcome == Done ==> r.state.refcount == s.refcount + 1)
      && (r.outcome.Raised? ==>
            && s.refcount == 0 && s.process == NoProcess
            && r.state.refcount == s.refcount && r.state.process == NoProcess)
      && (r.outcome == Raised(PopenTypeError) <==> s.refcount == 0 && s.process == NoProcess && !Spawnable(launch.argv))
      && (r.outcome.Raised? && !r.outcome.error.PopenTypeError? ==>
            startupExit.Some? && r.outcome.error == MountException(startupExit.value)
            && r.state.lastRc == startupExit)
  {
    var s1 := if launch.logs.Some? then s.(logs := launch.logs.value) else s;
    var s2 := s1.(process := Running, effects := s1.effects + [Spawn(launch.argv)]);
    CountsAppend(s1.effects, [Spawn(launch.argv)]);
    assert [Spawn(launch.argv)][..0] == [];
    if startupExit.Some? {
      CountsAppend(s2.effects, CloseLogs(s2.logs));
      CloseLogsCountsNothing(s2.logs);
    }
  }

  /** `on_unmount` sends SIGTERM exactly when the last holder leaves while the
      helper runs; it returns with the count one lower (below zero when
      nobody held the volume), and after the last holder leaves no process is
      kept; it raises only when the helper outlives SIGTERM, and then
      nothing but the SIGTERM has happened. */
  lemma OnUnmountSpec(s: MountState, termExit: Option<int>)
    ensures var r := OnUnmount(s, termExit);
      && Terminations(r.state.effects)
         == Terminations(s.effects) + (if s.refcount == 1 && s.process == Running then 1 else 0)
      && Spawns(r.state.effects) == Spawns(s.effects)
      && (r.outcome == Done ==> r.state.refcount == s.refcount - 1)
      && (r.outcome == Done && s.refcount == 1 ==> r.state.process == NoProcess)
      && (r.outcome.Raised? <==> s.refcount == 1 && s.process == Running && termExit.None?)
      && (r.outcome.Raised? ==>
            r.outcome.error == KillpgTypeError && r.state.refcount == 1 && r.state.process == Running)
  {
    var p := Alive(s);
    if s.process.Exited? {
      CountsAppend(s.effects, CloseLogs(s.logs));
      CloseLogsCountsNothing(s.logs);
    }
    if s.process == Running {
      var s1 := s.(effects := s.effects + [Terminate]);
      CountsAppend(s.effects, [Terminate]);
      assert [Terminate][..0] == [];
      CountsAppend(s1.effects, CloseLogs(s1.logs));
      CloseLogsCountsNothing(s1.logs);
    }
  }

  /** `unmount` raises exactly without a process (nothing changes) or with a
      helper that outlives SIGTERM (nothing but the SIGTERM happens); when it
      returns, no process is recorded and exactly one SIGTERM was sent iff the
      helper was running. */
  lemma UnmountSpec(s: MountState, termExit: Option<int>)
    ensures var r := Unmount(s, termExit);
      && (r.outcome == Raised(AttributeError) <==> s.process == NoProcess)
      && (r.outcome == Raised(KillpgTypeError) <==> s.process == Running && termExit.None?)
      && (r.outcome.Raised? <==> s.process == NoProcess || (s.process == Running && termExit.None?))
      && (s.process == NoProcess ==> r.state == s)
      && (r.outcome == Raised(KillpgTypeError) ==> r.state == s.(effects := s.effects + [Terminate]))
      && (r.outcome.Done? ==> r.state.process == NoProcess && r.state.refcount == s.refcount)
      && Spawns(r.state.effects) == Spawns(s.effects)
      && Terminations(r.state.effects) == Terminations(s.effects) + (if s.process == Running then 1 else 0)
  {
    if s.process.Exited? {
      CountsAppend(s.effects, CloseLogs(s.logs));
      CloseLogsCountsNothing(s.logs);
    }
    if s.process == Running {
      var s1 := s.(effects := s.effects + [Terminate]);
      CountsAppend(s.effects, [Terminate]);
      assert [Terminate][..0] == [];
      CountsAppend(s1.effects, CloseLogs(s1.logs));
      CloseLogsCountsNothing(s1.logs);
    }
  }

  /** The first mount of a new volume with a spawnable vector whose helper
      survives the grace period: one spawn, one holder, a running helper. */
  lemma FirstMount(launch: Launch)
    requires Spawnable(launch.argv)
    ensures var r := OnMount(Initial(), launch, None);
      && r.outcome == Done && r.state.refcount == 1 && r.state.process == Running
      && Spawns(r.state.effects) == 1 && Terminations(r.state.effects) == 0
  {
    OnMountSpec(Initial(), launch, None);
  }

  /** A helper that died while the volume is held is not restarted by further
      mounts: the count rises and the dead process stays recorded. */
  lemma CrashedHelperNotRespawned(s: MountState, launch: Launch, startupExit: Option<int>)
    requires s.refcount >= 1 && s.process.Exited?
    ensures OnMount(s, launch, startupExit)
            == Step(s.(refcount := s.refcount + 1), Done)
  {
  }

  /** Every step keeps "a process only while held". */
  lemma {:induction false} InvPreserved(s: MountState, launch: Launch, startupExit: Option<int>,
                                        termExit: Option<int>, rc: int)
    requires Inv(s)
    ensures Inv(OnMount(s, launch, startupExit).state)
    ensures Inv(OnUnmount(s, termExit).state)
    ensures Inv(HelperExits(s, rc))
    ensures Inv(Alive(s).state)
  {
    OnMountSpec(s, launch, startupExit);
    OnUnmountSpec(s, termExit);
  }

  // ----- Many calls -----

  /** `n` calls of `on_mount` whose helpers survive the grace period. */
  function MountMany(s: MountState, launch: Launch, n: nat): MountState
    decreases n
  {
    if n == 0 then s else MountMany(OnMount(s, launch, None).state, launch, n - 1)
  }

  /** `n` calls of `on_unmount`, a helper that stops on SIGTERM with `rc`. */
  function UnmountMany(s: MountState, n: nat, rc: int): MountState
    decreases n
  {
    if n == 0 then s else UnmountMany(OnUnmount(s, Some(rc)).state, n - 1, rc)
  }

  lemma {:induction false} MountsWhileHeld(s: MountState, launch: Launch, n: nat)
    requires s.refcount >= 1
    ensures MountMany(s, launch, n) == s.(refcount := s.refcount + n)
    decreases n
  {
    if n > 0 {
      MountsWhileHeld(s.(refcount := s.refcount + 1), launch, n - 1);
    }
  }

  /** From an idle volume, `n >= 1` mounts spawn the helper exactly once and
      leave the count at `n`. */
  lemma {:induction false} SpawnOnce(s: MountState, launch: Launch, n: nat)
    requires s.refcount == 0 && s.process == NoProcess && Spawnable(launch.argv) && n >= 1
    ensures var t := MountMany(s, launch, n);
      && t.refcount == n && t.process == Running
      && Spawns(t.effects) == Spawns(s.effects) + 1
      && Terminations(t.effects) == Terminations(s.effects)
  {
    var r := OnMount(s, launch, None);
    OnMountSpec(s, launch, None);
    assert r.outcome == Done && r.state.process == Running && r.state.refcount == 1;
    assert Spawns(r.state.effects) == Spawns(s.effects) + 1;
    assert Terminations(r.state.effects) == Terminations(s.effects);
    MountsWhileHeld(r.state, launch, n - 1);
    assert MountMany(s, launch, n) == MountMany(r.state, launch, n - 1);
  }

  /** With `n >= 1` holders of a running helper, `n` unmounts stop it exactly
      once, at the last one, and leave the count at 0 and no process. */
  lemma {:induction false} TeardownOnce(s: MountState, n: nat, rc: int)
    requires s.refcount == n && n >= 1 && s.process == Running
    ensures var t := UnmountMany(s, n, rc);
      && t.refcount == 0 && t.process == NoProcess
      && Terminations(t.effects) == Terminations(s.effects) + 1
      && Spawns(t.effects) == Spawns(s.effects)
    decreases n
  {
    if n == 1 {
      OnUnmountSpec(s, Some(rc));
    } else {
      assert OnUnmount(s, Some(rc)).state == s.(refcount := n - 1);
      TeardownOnce(s.(refcount := n - 1), n - 1, rc);
    }
  }

  /** `n` mounts then `n` unmounts of an idle volume: the helper is started
      once and stopped once, and the count is back at 0. */
  lemma BalancedUse(s: MountState, launch: Launch, n: nat, rc: int)
    requires s.refcount == 0 && s.process == NoProcess && Spawnable(launch.argv) && n >= 1
    ensures var t := UnmountMany(MountMany(s, launch, n), n, rc);
      && t.refcount == 0 && t.process == NoProcess
      && Spawns(t.effects) == Spawns(s.effects) + 1
      && Terminations(t.effects) == Terminations(s.effects) + 1
  {
    SpawnOnce(s, launch, n);
    TeardownOnce(MountMany(s, launch, n), n, rc);
  }

  /** A helper that dies in the grace period raises MountException and leaves
      the count at 0; the next `on_mount` spawns again. */
  lemma RetryAfterFailedMount(s: MountState, launch: Launch, rc: int)
    requires s.refcount == 0 && s.process == NoProcess && Spawnable(launch.argv)
    ensures var r1 := OnMount(s, launch, Some(rc));
      var r2 := OnMount(r1.state, launch, None);
      && r1.outcome == Raised(MountException(rc)) && r1.state.refcount == 0
      && r1.state.process == NoProcess && r1.state.lastRc == Some(rc)
      && r2.outcome == Done && r2.state.refcount == 1 && r2.state.process == Running
      && Spawns(r2.state.effects) == Spawns(s.effects) + 2
  {
    OnMountSpec(s, launch, Some(rc));
    var r1 := OnMount(s, launch, Some(rc));
    OnMountSpec(r1.state, launch, None);
  }

  /** An unmount nobody asked for drives the count to -1, and the next mount
      then returns success without starting a helper. */
  lemma UnbalancedUnmount(launch: Launch, startupExit: Option<int>, termExit: Option<int>)
    ensures var r1 := OnUnmount(Initial(), termExit);
      var r2 := OnMount(r1.state, launch, startupExit);
      && r1.outcome == Done && r1.state.refcount == -1
      && r2.outcome == Done && r2.state.refcount == 0 && r2.state.process == NoProcess
      && r2.state.effects == []
  {
  }
}
