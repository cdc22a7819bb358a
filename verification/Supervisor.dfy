/** The supervisor of the Core process: one task that owns the config, the versioned state and at
    most one child process, driven by the arms of its event loop. */
module Supervision {
  import opened Configuration
  import opened Versioning
  import opened Retry
  import SyncNetwork

  type Pid = nat

  const CORE_CONNECT_TIMEOUT := 30_000
  const CORE_HEALTHY_WINDOW := 60_000

  datatype DaemonState =
    | Stopped
    | Starting
    | Running(pid: Pid)
    | Reconnecting(attempt: nat, nextRetrySecs: nat)
    | Crashed(exitCode: Option<int>)
  {
    predicate IsRunning() { Running? || Starting? }
    predicate IsActive() { IsRunning() || Reconnecting? || Crashed? }
  }

  /** How an attempt to spawn the resolved program ends. With `LogUnavailable` the process exists
      but its log file cannot be opened: the handle is dropped, which kills the process, and
      nobody watches for its exit. */
  datatype SpawnOutcome = Spawned | SpawnFailed | LogUnavailable

  /** What the loop recognises in a line of Core output. */
  datatype CoreLine = CoreLine(ready: bool, connected: bool, disconnected: bool, ours: bool)

  /** The operating system's side: processes alive, sent a kill, with an exit watcher, with an
      exit message not yet received, and every pid ever handed out. */
  datatype Processes = Processes(live: set<Pid>, signalled: set<Pid>, watched: set<Pid>, exits: set<Pid>,
      spawned: set<Pid>)

  /** No process is out of reach: whoever is alive has been sent its kill or is the owned child
      whose kill handle is still held. The owned child is alive or its exit is on the way. */
  ghost predicate ProcessesInOrder(os: Processes, childPid: Option<Pid>, childKill: Option<Pid>)
  {
    && os.live + os.signalled + os.watched + os.exits <= os.spawned
    && os.live !! os.exits
    && (forall p :: p in os.live ==> p in os.signalled || childKill == Some(p))
    && (childKill.Some? ==> childKill == childPid)
    && (childPid.Some? ==> childPid.value in os.spawned
                           && ((childPid.value in os.live && childPid.value in os.watched) || childPid.value in os.exits))
  }

  ghost predicate PhaseInOrder(state: DaemonState, childPid: Option<Pid>)
  {
    (state.Running? <==> childPid.Some?) && (state.Running? ==> childPid == Some(state.pid))
  }

  /** Exactly one thing will wake the supervisor again, and the state says which: a resolution in
      flight while Starting, the owned child's exit while Running, the restart timer otherwise. */
  ghost predicate OneWakeUp(state: DaemonState, resolving: bool, childPid: Option<Pid>, restartAt: Option<nat>)
  {
    match state
    case Stopped => false
    case Starting => resolving && childPid.None? && restartAt.None?
    case Running(pid) => !resolving && childPid == Some(pid) && restartAt.None?
    case Reconnecting(_, _) => !resolving && childPid.None? && restartAt.Some?
    case Crashed(_) => !resolving && childPid.None? && restartAt.Some?
  }

  ghost predicate RetriesInOrder(backoff: nat, fastFailCount: nat, delays: seq<nat>, afterHealthy: bool)
  {
    && BackoffAfter(|delays|, backoff)
    && (forall k :: 0 <= k < |delays| ==> delays[k] == RetryDelay(k, afterHealthy))
    && (if |delays| == 0 then !afterHealthy && fastFailCount == 0
        else fastFailCount == Failures(|delays| - 1, afterHealthy))
  }

  /** A process ends; its watcher, if any, queues the exit message. */
  function Exited(os: Processes, p: Pid): Processes
  {
    os.(live := os.live - {p}, exits := if p in os.watched then os.exits + {p} else os.exits)
  }

  /** A spawn attempt as the operating system sees it: a failed one leaves nothing, one whose log is
      unavailable a process that has been sent its kill and that nobody watches. */
  function AfterSpawn(os: Processes, spawn: SpawnOutcome, p: Pid): Processes
  {
    match spawn
    case SpawnFailed => os
    case LogUnavailable => os.(spawned := os.spawned + {p}, live := os.live + {p}, signalled := os.signalled + {p})
    case Spawned => os.(spawned := os.spawned + {p}, live := os.live + {p}, watched := os.watched + {p})
  }

  lemma ExitKeepsOrder(os: Processes, p: Pid, childPid: Option<Pid>, childKill: Option<Pid>)
    requires ProcessesInOrder(os, childPid, childKill) && p in os.live
    ensures ProcessesInOrder(Exited(os, p), childPid, childKill)
  {
  }

  /** What a delivery of the network model, with the daemon's own rollback, makes of a machine that has
      this state in memory and this document in its file. */
  function AsDelivered(was: Versioned, incoming: Versioned, file: Config): Versioned
  {
    var machine := SyncNetwork.Machine(SyncNetwork.Copy(was, {}), SyncNetwork.Copy(was.(config := file), {}));
    SyncNetwork.Received(machine, SyncNetwork.Copy(incoming, {}), SyncNetwork.ConfigOnly).mem.v
  }

  lemma MergeIsADelivery(was: Versioned, incoming: Versioned, file: Config, reply: Versioned)
    requires
      var merged := Merged(was, incoming);
      var news := Updates(was, incoming);
      var refused := news && !Configuration.Valid(merged.config);
      && reply.stamps == merged.stamps && reply.clock == merged.clock
      && reply.config == if !news then was.config else if refused then file else merged.config
    ensures reply == AsDelivered(was, incoming, file)
  {
    if !Updates(was, incoming) {
      MergeWithoutNews(was, incoming);
    }
  }

  class Supervisor {
    const versioned: VersionedConfig
    const origin: string
    const platform: Platform
    var config: Config

    var state: DaemonState
    var desiredRunning: bool
    var childPid: Option<Pid>
    var childKill: Option<Pid> // the child the kill handle belongs to
    var restartAt: Option<nat>
    var coreResolving: bool
    var backoff: nat
    var fastFailCount: nat
    var coreReadyAt: Option<nat>
    var coreConnectDeadline: Option<nat>

    var os: Processes

    // History: what the owned child was started from, and the retry delays armed since the
    // counters were last reset.
    ghost var layout: CoreLayout
    ghost var startedFrom: Config
    ghost var delays: seq<nat>
    ghost var afterHealthy: bool

    // ---------- invariants ----------

    /** Holds between any two turns of the event loop. */
    ghost predicate Good()
      reads this
    {
      && Configuration.Valid(config)
      && ProcessesInOrder(os, childPid, childKill) && PhaseInOrder(state, childPid)
      && (desiredRunning <==> state.IsActive())
      && (desiredRunning ==> OneWakeUp(state, coreResolving, childPid, restartAt)
                             && RetriesInOrder(backoff, fastFailCount, delays, afterHealthy))
      && (!desiredRunning ==> childPid.None? && restartAt.None?)
    }

    /** The owned child was started from a config with the same Core inputs as the live one. */
    ghost predicate FreshCore()
      reads this
    {
      childPid.Some? ==> !CoreInputsDiffer(startedFrom, config)
    }

    /** No stale Core: role, screen layout, settings and command line the owned child was started
        with are what the live config generates now. */
    lemma FreshCoreMeansSameArtefacts()
      requires FreshCore() && childPid.Some?
      ensures ArtefactsOf(layout, startedFrom, platform) == ArtefactsOf(layout, config, platform)
    {
      SameCoreInputsSameArtefacts(layout, startedFrom, config, platform);
    }

    /** Between resets the armed delays never shrink and stay within half a second and five minutes. */
    lemma DelaysNeverShrink(j: nat, k: nat)
      requires Good() && desiredRunning && j <= k < |delays|
      ensures MIN_BACKOFF <= delays[j] <= delays[k] <= CIRCUIT_BREAKER_MAX
    {
      RetryDelaysGrow(j, k, afterHealthy);
    }

    /** `config` and the versioned state carry the same document. */
    ghost predicate Mirrored()
      reads this, versioned
    {
      config == versioned.config
    }

    constructor (config: Config, v: Versioned, origin: string, platform: Platform)
      requires Configuration.Valid(config) && v.config == config
      ensures Good() && FreshCore() && Mirrored() && !desiredRunning && fresh(versioned) && versioned.View() == v
      ensures this.config == config && this.origin == origin && this.platform == platform
      ensures state == Stopped && !coreResolving && os == Processes({}, {}, {}, {}, {})
      ensures RetriesInOrder(backoff, fastFailCount, delays, afterHealthy) && delays == []
    {
      this.versioned := new VersionedConfig(v);
      this.config, this.origin, this.platform := config, origin, platform;
      state, desiredRunning, childPid, childKill, restartAt := Stopped, false, None, None, None;
      coreResolving, backoff, fastFailCount, coreReadyAt, coreConnectDeadline := false, MIN_BACKOFF, 0, None, None;
      os := Processes({}, {}, {}, {}, {});
      layout, startedFrom := Unified(""), config;
      delays, afterHealthy := [], false;
      new;
      assert Doubled(MIN_BACKOFF, 0) == MIN_BACKOFF;
    }

    // ---------- the Core's lifecycle ----------

    /** A process ends, whenever the operating system likes. */
    method ProcessExits(p: Pid)
      requires Good() && p in os.live
      modifies `os
      ensures Good() && os == Exited(old(os), p)
    {
      ExitKeepsOrder(os, p, childPid, childKill);
      os := Exited(os, p);
    }

    /** Begin starting the Core. A child already owned is left alone; otherwise the state is
        Starting with a resolution in flight, and no timer is left armed. */
    method StartCore()
      requires ProcessesInOrder(os, childPid, childKill) && PhaseInOrder(state, childPid)
      modifies `restartAt, `state, `coreResolving
      ensures ProcessesInOrder(os, childPid, childKill) && PhaseInOrder(state, childPid) && restartAt.None?
      ensures if childPid.Some? then state == old(state) && coreResolving == old(coreResolving)
              else state == Starting && coreResolving
    {
      restartAt := None;
      if state.Running? || childKill.Some? {
        return;
      }
      state := Starting;
      if coreResolving {
        return;
      }
      coreResolving := true;
    }

    /** Retire whatever child is owned. `arrivals` are the exit messages that come out of the
        channel before the two-second wait ends, in order; a stale one does not end the wait.
        Afterwards every process alive has been sent its kill. */
    method StopCore(arrivals: seq<Pid>)
      requires ProcessesInOrder(os, childPid, childKill)
      modifies `restartAt, `coreConnectDeadline, `coreReadyAt, `childPid, `childKill, `os, `state
      ensures ProcessesInOrder(os, None, None) && os.spawned == old(os).spawned
      ensures state == Stopped && childPid.None? && childKill.None? && restartAt.None?
      ensures coreConnectDeadline.None? && coreReadyAt.None?
      ensures forall p :: p in os.live ==> p in os.signalled
      ensures os.signalled == if old(childKill).Some? then old(os).signalled + {old(childKill).value}
              else old(os).signalled
      ensures os.live <= old(os).live && old(os).live - os.live <= set p | p in arrivals
    {
      restartAt, coreConnectDeadline, coreReadyAt := None, None, None;
      var pid := childPid;
      childPid := None;
      if childKill.Some? {
        os := os.(signalled := os.signalled + {childKill.value});
        childKill := None;
        var i, waiting := 0, true;
        while i < |arrivals| && waiting
          modifies `os
          invariant 0 <= i <= |arrivals|
          invariant ProcessesInOrder(os, None, None) && os.spawned == old(os).spawned
          invariant os.signalled == old(os).signalled + {old(childKill).value}
          invariant os.live <= old(os).live && old(os).live - os.live <= set p | p in arrivals
        {
          var exited := arrivals[i];
          if exited in os.live && exited in os.watched {
            ExitKeepsOrder(os, exited, None, None);
            os := Exited(os, exited);
          }
          if exited in os.exits {
            os := os.(exits := os.exits - {exited});
            waiting := Some(exited) != pid;
          }
          i := i + 1;
        }
      }
      state := Stopped;
    }

    /** Retire the child, if any, and begin again as if nothing had failed before. */
    method RestartCore(arrivals: seq<Pid>)
      requires Configuration.Valid(config) && ProcessesInOrder(os, childPid, childKill) && PhaseInOrder(state, childPid)
      requires desiredRunning
      modifies this
      ensures Good() && FreshCore() && desiredRunning && state == Starting && delays == []
      ensures config == old(config) && os.spawned == old(os).spawned
    {
      fastFailCount, backoff := 0, MIN_BACKOFF;
      delays, afterHealthy := [], false;
      StopCore(arrivals);
      StartCore();
      assert Doubled(MIN_BACKOFF, 0) == MIN_BACKOFF;
    }

    /** Arm the restart timer. The delay is the closed-form one for this many retries. */
    method ScheduleRestart(now: nat) returns (delay: nat)
      requires BackoffAfter(|delays|, backoff) && fastFailCount == Failures(|delays|, afterHealthy)
      requires forall k :: 0 <= k < |delays| ==> delays[k] == RetryDelay(k, afterHealthy)
      modifies `backoff, `restartAt, `delays
      ensures RetriesInOrder(backoff, fastFailCount, delays, afterHealthy) && delays == old(delays) + [delay]
      ensures restartAt == Some(now + delay)
    {
      ArmedIsRetryDelay(|delays|, afterHealthy, backoff, config.role);
      var (wait, next) := RestartBackoff(backoff, config.role);
      delay := wait;
      if fastFailCount >= MAX_FAST_FAILS {
        delay := CircuitBreakerDelay(fastFailCount);
      }
      backoff := next;
      restartAt := Some(now + delay);
      delays := delays + [delay];
    }

    /** Count what just ended, as a failure or as a session healthy enough to reset the counters,
        and arm the next retry. */
    method CountAndSchedule(healthy: bool, now: nat) returns (delay: nat)
      requires RetriesInOrder(backoff, fastFailCount, delays, afterHealthy)
      modifies `fastFailCount, `backoff, `restartAt, `delays, `afterHealthy
      ensures RetriesInOrder(backoff, fastFailCount, delays, afterHealthy) && restartAt == Some(now + delay)
      ensures delays == (if healthy then [] else old(delays)) + [delay]
      ensures fastFailCount == if healthy then 0 else SaturatingInc(old(fastFailCount))
      ensures afterHealthy == (healthy || old(afterHealthy))
    {
      if healthy {
        fastFailCount, backoff := 0, MIN_BACKOFF;
        delays, afterHealthy := [], true;
        assert Doubled(MIN_BACKOFF, 0) == MIN_BACKOFF;
      } else {
        fastFailCount := SaturatingInc(fastFailCount);
      }
      delay := ScheduleRestart(now);
    }

    /** Resolution, artefacts or spawn went wrong: that counts once and arms one retry. */
    method StartFailed(now: nat)
      requires Configuration.Valid(config) && ProcessesInOrder(os, childPid, childKill) && childPid.None?
      requires desiredRunning && !coreResolving
      requires RetriesInOrder(backoff, fastFailCount, delays, afterHealthy)
      modifies `fastFailCount, `backoff, `restartAt, `delays, `afterHealthy, `state
      ensures Good() && state == Crashed(None) && afterHealthy == old(afterHealthy)
      ensures |delays| == |old(delays)| + 1 && restartAt == Some(now + delays[|old(delays)|])
    {
      var _ := CountAndSchedule(false, now);
      state := Crashed(None);
    }

    /** Spawn the Core from the live config. Only a watched process becomes the owned child. */
    method SpawnChild(resolved: CoreLayout, spawn: SpawnOutcome, pid: Pid, now: nat) returns (ok: bool)
      requires ProcessesInOrder(os, childPid, childKill) && childPid.None? && pid !in os.spawned
      modifies `os, `childKill, `childPid, `state, `coreReadyAt, `coreConnectDeadline,
               `layout, `startedFrom
      ensures ProcessesInOrder(os, childPid, childKill) && ok == spawn.Spawned?
      ensures ok ==> state == Running(pid) && childPid == childKill == Some(pid) && layout == resolved && startedFrom == config
      ensures !ok ==> state == old(state) && childPid.None? && childKill.None?
      ensures ok ==> coreReadyAt.None? && coreConnectDeadline == Some(now + 30_000)
      ensures !ok ==> coreReadyAt == old(coreReadyAt) && coreConnectDeadline == old(coreConnectDeadline)
      ensures os == AfterSpawn(old(os), spawn, pid)
      ensures spawn.Spawned? ==> pid in os.live && pid in os.watched && pid !in os.signalled
      ensures spawn.LogUnavailable? ==> pid in os.live && pid in os.signalled && pid !in os.watched
      ensures os.spawned == if spawn.SpawnFailed? then old(os).spawned else old(os).spawned + {pid}
    {
      match spawn
      case SpawnFailed =>
        return false;
      case LogUnavailable =>
        os := os.(spawned := os.spawned + {pid}, live := os.live + {pid}, signalled := os.signalled + {pid});
        return false;
      case Spawned =>
        os := os.(spawned := os.spawned + {pid}, live := os.live + {pid}, watched := os.watched + {pid});
        childKill, childPid := Some(pid), Some(pid);
        state := Running(pid);
        coreReadyAt, coreConnectDeadline := None, Some(now + CORE_CONNECT_TIMEOUT);
        layout, startedFrom := resolved, config;
        return true;
    }

    /** The command line for the live config, which is valid, so the failure branch is dead. */
    method CommandFor(resolved: CoreLayout) returns (command: Command)
      requires Configuration.Valid(config)
      ensures BuildCommand(resolved, config, platform) == Success(command)
    {
      var built := BuildCommand(resolved, config, platform);
      if built.Failure? {
        assert false;
      }
      command := built.value;
    }

    /** The result of a resolution. A child is spawned from the live config unless nobody wants
        one any more; every failure arms a retry. The branch for an unusable command line cannot
        be reached. */
    method OnCoreResolved(outcome: Result<CoreLayout, string>, artefactsWritten: bool, spawn: SpawnOutcome, pid: Pid,
        now: nat)
      requires Good() && coreResolving && pid !in os.spawned
      modifies `coreResolving, `os, `childKill, `childPid, `state, `coreReadyAt,
               `coreConnectDeadline, `layout, `startedFrom, `fastFailCount, `backoff, `restartAt, `delays, `afterHealthy
      ensures Good() && FreshCore() && !coreResolving
      ensures !desiredRunning ==> state == old(state) && os == old(os)
      ensures desiredRunning ==> os == if outcome.Success? && artefactsWritten then AfterSpawn(old(os), spawn, pid) else old(os)
      ensures childPid.Some? ==> coreReadyAt.None? && coreConnectDeadline == Some(now + 30_000)
      ensures afterHealthy == old(afterHealthy) && (childPid.Some? ==> delays == old(delays))
      ensures desiredRunning ==>
                if outcome.Success? && artefactsWritten && spawn.Spawned?
                then state == Running(pid) && childKill == Some(pid) && restartAt.None? && layout == outcome.value
                else
                  && state == Crashed(None) && |delays| == |old(delays)| + 1
                  && restartAt == Some(now + delays[|old(delays)|])
    {
      coreResolving := false;
      if !desiredRunning {
        return;
      }
      // No child is running and no kill handle is held, so a check for a Core already running would
      // never fire here.
      assert !state.Running? && childKill.None?;
      if outcome.Failure? || !artefactsWritten {
        StartFailed(now);
        return;
      }
      SpawnOrRetry(outcome.value, spawn, pid, now);
    }

    method SpawnOrRetry(resolved: CoreLayout, spawn: SpawnOutcome, pid: Pid, now: nat)
      requires Configuration.Valid(config) && ProcessesInOrder(os, childPid, childKill) && childPid.None?
      requires pid !in os.spawned
      requires desiredRunning && !coreResolving && restartAt.None?
      requires RetriesInOrder(backoff, fastFailCount, delays, afterHealthy)
      modifies `os, `childKill, `childPid, `state, `coreReadyAt,
               `coreConnectDeadline, `layout, `startedFrom, `fastFailCount, `backoff, `restartAt, `delays, `afterHealthy
      ensures Good() && FreshCore() && afterHealthy == old(afterHealthy) && (spawn.Spawned? ==> delays == old(delays))
      ensures os == AfterSpawn(old(os), spawn, pid)
      ensures spawn.Spawned? ==> coreReadyAt.None? && coreConnectDeadline == Some(now + 30_000)
      ensures if spawn.Spawned?
              then state == Running(pid) && childKill == Some(pid) && restartAt.None? && layout == resolved
              else
                && state == Crashed(None) && |delays| == |old(delays)| + 1
                && restartAt == Some(now + delays[|old(delays)|])
    {
      var _ := CommandFor(resolved);
      var ok := SpawnChild(resolved, spawn, pid, now);
      if !ok {
        StartFailed(now);
      }
    }

    /** A child's exit. One from a superseded child changes nothing; the owned child's exit arms
        exactly one retry, and resets the counters exactly if the child had been ready for a minute. */
    method HandleChildExit(pid: Pid, code: Option<int>, now: nat)
      requires Good() && pid in os.exits
      modifies `os, `childPid, `childKill, `coreConnectDeadline, `coreReadyAt, `fastFailCount, `backoff, `restartAt,
               `delays, `afterHealthy, `state
      ensures Good() && (old(FreshCore()) ==> FreshCore()) && os == old(os).(exits := old(os).exits - {pid})
      ensures old(childPid) != Some(pid) ==>
                Unchanged(old(state), old(childPid), old(childKill), old(restartAt), old(backoff), old(fastFailCount),
                          old(coreReadyAt), old(coreConnectDeadline), old(delays))
      ensures old(childPid) == Some(pid) ==>
                && childPid.None? && childKill.None?
                && AfterExit(old(coreReadyAt).Some? && now >= old(coreReadyAt).value + 60_000,
                             old(delays), old(afterHealthy), old(fastFailCount), code, now)
    {
      var owned := ReceiveExit(pid);
      if !owned {
        return;
      }
      var delay := RetryAfterExit(code, now);
      assert delays[..|delays| - 1] + [delay] == delays;
    }

    /** The owned child is gone: one retry is armed and the state says so. */
    method RetryAfterExit(code: Option<int>, now: nat) returns (delay: nat)
      requires Configuration.Valid(config) && ProcessesInOrder(os, childPid, childKill) && childPid.None?
      requires desiredRunning && !coreResolving
      requires RetriesInOrder(backoff, fastFailCount, delays, afterHealthy)
      modifies `coreConnectDeadline, `coreReadyAt, `fastFailCount, `backoff, `restartAt, `delays, `afterHealthy, `state
      ensures Good() && restartAt == Some(now + delay) && coreReadyAt.None? && coreConnectDeadline.None?
      ensures var reset := old(coreReadyAt).Some? && now >= old(coreReadyAt).value + 60_000;
              && delays == (if reset then [] else old(delays)) + [delay] && afterHealthy == (reset || old(afterHealthy))
              && fastFailCount == if reset then 0 else SaturatingInc(old(fastFailCount))
      ensures state == if config.role == Client then Reconnecting(SaturatingInc(fastFailCount), delay / 1000)
                       else Crashed(code)
    {
      coreConnectDeadline := None;
      var healthy := coreReadyAt.Some? && now >= coreReadyAt.value + CORE_HEALTHY_WINDOW;
      coreReadyAt := None;
      delay := CountAndSchedule(healthy, now);
      state := if config.role == Client then Reconnecting(SaturatingInc(fastFailCount), delay / 1000)
          else Crashed(code);
    }

    /** One retry is armed, counted from scratch after a reset and as one more failure otherwise; a
        client shows which attempt comes next and when, a server the exit code. */
    ghost predicate AfterExit(reset: bool, delays: seq<nat>, afterHealthy: bool, fastFailCount: nat, code: Option<int>,
                              now: nat)
      reads this
    {
      && |this.delays| == (if reset then 1 else |delays| + 1)
      && this.delays[..|this.delays| - 1] == (if reset then [] else delays)
      && this.afterHealthy == (reset || afterHealthy)
      && this.fastFailCount == (if reset then 0 else SaturatingInc(fastFailCount))
      && restartAt == Some(now + this.delays[|this.delays| - 1])
      && coreReadyAt.None? && coreConnectDeadline.None?
      && state == if config.role == Client
                  then Reconnecting(SaturatingInc(this.fastFailCount), this.delays[|this.delays| - 1] / 1000)
                  else Crashed(code)
    }

    /** Take an exit message out of the queue, and let go of the child if it is the owned one. */
    method ReceiveExit(pid: Pid) returns (owned: bool)
      requires ProcessesInOrder(os, childPid, childKill) && pid in os.exits
      modifies `os, `childPid, `childKill
      ensures ProcessesInOrder(os, childPid, childKill) && os == old(os).(exits := old(os).exits - {pid})
      ensures owned == (old(childPid) == Some(pid))
      ensures if owned then childPid.None? && childKill.None?
              else childPid == old(childPid) && childKill == old(childKill)
    {
      os := os.(exits := os.exits - {pid});
      owned := childPid == Some(pid);
      if owned { childPid, childKill := None, None; }
    }

    /** Everything an exit could have touched is as given. */
    ghost predicate Unchanged(state: DaemonState, childPid: Option<Pid>, childKill: Option<Pid>, restartAt: Option<nat>,
                              backoff: nat, fastFailCount: nat, coreReadyAt: Option<nat>,
                              coreConnectDeadline: Option<nat>, delays: seq<nat>)
      reads this
    {
      && this.state == state && this.childPid == childPid && this.childKill == childKill && this.restartAt == restartAt
      && this.backoff == backoff && this.fastFailCount == fastFailCount && this.coreReadyAt == coreReadyAt
      && this.coreConnectDeadline == coreConnectDeadline && this.delays == delays
    }

    // ---------- the other arms of the loop ----------

    /** The stall watchdog: the child gets its kill but stays owned until its exit arrives. */
    method OnCoreStalled()
      requires Good()
      modifies `coreConnectDeadline, `childKill, `os
      ensures Good() && childKill.None? && coreConnectDeadline.None?
      ensures os == if old(childKill).Some? then old(os).(signalled := old(os).signalled + {old(childKill).value})
              else old(os)
    {
      coreConnectDeadline := None;
      if childKill.Some? {
        os := os.(signalled := os.signalled + {childKill.value});
        childKill := None;
      }
    }

    method OnRestartDue()
      requires Good() && restartAt.Some?
      modifies `restartAt, `state, `coreResolving
      ensures Good() && state == Starting && coreResolving
    {
      restartAt := None;
      StartCore();
    }

    /** A line of Core output. Only the owned child's lines count; a client whose Core reports a
        lost server without exiting is killed so that its exit drives the reconnect. */
    method OnCoreLog(pid: Pid, line: CoreLine, now: nat)
      requires Good()
      modifies `coreReadyAt, `coreConnectDeadline, `childKill, `os
      ensures Good()
      ensures coreReadyAt == if childPid == Some(pid) && line.ready && old(coreReadyAt).None? then Some(now)
                             else old(coreReadyAt)
      ensures coreConnectDeadline == if childPid == Some(pid) && (line.connected || (config.role == Server && line.ready))
                                     then None else old(coreConnectDeadline)
      ensures if childPid == Some(pid) && config.role == Client && line.disconnected && !line.ours && old(childKill).Some?
              then childKill.None? && os == old(os).(signalled := old(os).signalled + {old(childKill).value})
              else childKill == old(childKill) && os == old(os)
    {
      if childPid == Some(pid) {
        if line.ready && coreReadyAt.None? {
          coreReadyAt := Some(now);
        }
        if line.connected || (config.role == Server && line.ready) {
          coreConnectDeadline := None;
        }
        if !line.ours && config.role == Client && line.disconnected && childKill.Some? {
          os := os.(signalled := os.signalled + {childKill.value});
          childKill := None;
        }
      }
    }

    method Start()
      requires Good()
      modifies `desiredRunning, `fastFailCount, `backoff, `delays, `afterHealthy, `restartAt, `state, `coreResolving
      ensures Good() && desiredRunning && delays == [] && restartAt.None?
      ensures if childPid.None? then state == Starting && coreResolving else state == old(state)
    {
      desiredRunning := true;
      fastFailCount, backoff := 0, MIN_BACKOFF;
      delays, afterHealthy := [], false;
      assert Doubled(MIN_BACKOFF, 0) == MIN_BACKOFF;
      StartCore();
    }

    /** The daemon's launch: the Core is brought up unless the user stopped it last time. */
    method Launch(userStopped: bool)
      requires Good() && !desiredRunning && RetriesInOrder(backoff, fastFailCount, delays, afterHealthy)
      modifies `desiredRunning, `restartAt, `state, `coreResolving
      ensures Good() && desiredRunning == !userStopped
      ensures if userStopped then state == Stopped else state == Starting && coreResolving
    {
      if !userStopped {
        desiredRunning := true;
        StartCore();
      }
    }

    /** After a Stop nothing is owned, nothing will restart it, and every process still alive has
        been sent its kill. */
    method Stop(arrivals: seq<Pid>)
      requires Good()
      modifies this
      ensures Good() && FreshCore() && !desiredRunning && state == Stopped && config == old(config)
      ensures childPid.None? && restartAt.None? && fastFailCount == 0
      ensures forall p :: p in os.live ==> p in os.signalled
    {
      desiredRunning := false;
      fastFailCount := 0;
      StopCore(arrivals);
    }

    method Restart(arrivals: seq<Pid>)
      requires Good()
      modifies this
      ensures Good() && FreshCore() && desiredRunning && state == Starting && config == old(config) && delays == []
    {
      desiredRunning := true;
      RestartCore(arrivals);
    }

    /** The loop's exit path: the Core is stopped, so no process is left unsignalled. */
    method Shutdown(arrivals: seq<Pid>)
      requires Good()
      modifies this
      ensures ProcessesInOrder(os, childPid, childKill) && childPid.None? && forall p :: p in os.live ==> p in os.signalled
    {
      StopCore(arrivals);
    }

    // ---------- config edits ----------

    /** Promote a validated document to the live one. The Core is bounced exactly when it is
        wanted and one of its inputs changed. */
    method ApplyLocalEdit(newConfig: Config, arrivals: seq<Pid>) returns (changed: bool)
      requires Good() && Configuration.Valid(newConfig)
      modifies this, versioned
      ensures Good() && (old(FreshCore()) ==> FreshCore()) && Mirrored() && config == newConfig
      ensures versioned.View() == Edited(old(versioned.View()), newConfig, origin)
      ensures changed <==> old(versioned.config) != newConfig
      ensures desiredRunning == old(desiredRunning)
      ensures desiredRunning && CoreInputsDiffer(old(config), newConfig) ==> state == Starting && delays == []
      ensures !(desiredRunning && CoreInputsDiffer(old(config), newConfig)) ==>
                state == old(state) && childPid == old(childPid) && restartAt == old(restartAt)
    {
      var differ := CoreInputsDiffer(config, newConfig);
      changed := versioned.ApplyLocal(newConfig, origin);
      config := newConfig;
      if desiredRunning && differ {
        RestartCore(arrivals);
      }
    }

    /** A SetConfig request: refused without any effect if the document is invalid or cannot be
        saved. */
    method SetConfig(newConfig: Config, saved: bool, arrivals: seq<Pid>) returns (ok: bool)
      requires Good()
      modifies this, versioned
      ensures Good() && (old(FreshCore()) ==> FreshCore())
      ensures ok <==> Configuration.Valid(newConfig) && saved
      ensures if ok then config == newConfig && Mirrored() && versioned.View() == Edited(old(versioned.View()), newConfig, origin)
              else config == old(config) && versioned.View() == old(versioned.View())
      ensures desiredRunning == old(desiredRunning)
      ensures if ok && desiredRunning && CoreInputsDiffer(old(config), newConfig) then state == Starting && delays == []
              else state == old(state) && childPid == old(childPid) && restartAt == old(restartAt)
    {
      var error := Validate(newConfig);
      if error.Some? || !saved {
        return false;
      }
      var _ := ApplyLocalEdit(newConfig, arrivals);
      return true;
    }

    /** A change of the config file; loading it has already validated it. */
    method HandleConfigChanged(loaded: Config, arrivals: seq<Pid>)
      requires Good() && Configuration.Valid(loaded)
      modifies this, versioned
      ensures Good() && (old(FreshCore()) ==> FreshCore()) && config == loaded && desiredRunning == old(desiredRunning)
      ensures versioned.View() == if loaded == old(config) then old(versioned.View())
                                  else Edited(old(versioned.View()), loaded, origin)
      ensures if desiredRunning && CoreInputsDiffer(old(config), loaded) then state == Starting && delays == []
              else state == old(state) && childPid == old(childPid) && restartAt == old(restartAt)
    {
      if loaded != config {
        var _ := ApplyLocalEdit(loaded, arrivals);
      }
    }

    /** A peer's state. `reload` is what the config file holds if it can be read. Accepted news
        becomes the live document; a refused merge reloads the file and touches no process. The
        two copies of the document part exactly when the merge is refused and the file cannot be
        read; an owned Core goes stale exactly when it is refused and the file has other inputs. */
    method HandleMerge(incoming: Versioned, reload: Option<Config>, arrivals: seq<Pid>) returns (reply: Versioned)
      requires Good() && (reload.Some? ==> Configuration.Valid(reload.value))
      modifies this, versioned
      ensures Good() && reply == versioned.View() && desiredRunning == old(desiredRunning)
      ensures
        var merged := Merged(old(versioned.View()), incoming);
        var news := Updates(old(versioned.View()), incoming);
        var refused := news && !Configuration.Valid(merged.config);
        && reply.stamps == merged.stamps && reply.clock == merged.clock
        && (!news ==> config == old(config) && reply.config == old(versioned.config))
        && (news && !refused ==> config == reply.config == merged.config)
        && (refused ==> reply.config == (if reload.Some? then reload.value else merged.config)
                        && config == (if reload.Some? then reload.value else old(config)))
        && (!news || refused ==> state == old(state) && childPid == old(childPid) && os == old(os))
        && (news && !refused ==>
              if desiredRunning && CoreInputsDiffer(old(config), merged.config) then state == Starting && delays == []
              else state == old(state) && childPid == old(childPid) && os == old(os))
        && (reload.Some? ==> reply == AsDelivered(old(versioned.View()), incoming, reload.value))
        && (old(Mirrored()) ==> (Mirrored() <==> !(refused && reload.None?)))
        && (old(FreshCore()) ==>
              (FreshCore() <==> !(refused && childPid.Some? && reload.Some? && CoreInputsDiffer(old(config), reload.value))))
    {
      ghost var was := versioned.View();
      var outcome := versioned.Merge(incoming);
      if outcome.NoChange? {
        MergeWithoutNews(was, incoming);
        if reload.Some? { MergeIsADelivery(was, incoming, reload.value, versioned.View()); }
        return versioned.View();
      }
      var error := Validate(versioned.config);
      if error.Some? {
        if reload.Some? {
          versioned.config := reload.value;
          config := reload.value;
          MergeIsADelivery(was, incoming, reload.value, versioned.View());
        }
        return versioned.View();
      }
      var differ := CoreInputsDiffer(config, versioned.config);
      config := versioned.config;
      if desiredRunning && differ {
        RestartCore(arrivals);
      }
      if reload.Some? { MergeIsADelivery(was, incoming, reload.value, versioned.View()); }
      return versioned.View();
    }

    // ---------- whole runs ----------

    /** One turn of the loop. An arm that is not ready is skipped. Reports whether it was a refused
        merge whose reload brought other Core inputs under a running child. */
    method Turn(arm: Arm) returns (staleReload: bool)
      requires Good()
      modifies this, versioned
      ensures Good()
      ensures old(FreshCore()) && !staleReload ==> FreshCore()
      ensures arm == RestartDue && old(restartAt).Some? ==> state == Starting && coreResolving
      ensures arm == CoreStalled && old(coreConnectDeadline).Some? ==> childKill.None? && coreConnectDeadline.None?
      ensures arm.ProcessDies? && arm.pid in old(os).live ==> os == Exited(old(os), arm.pid)
      ensures arm.Resolved? && old(coreResolving) && arm.newPid !in old(os).spawned ==> !coreResolving
      ensures arm.ChildExit? && arm.exited in old(os).exits ==> arm.exited !in os.exits && childPid != Some(arm.exited)
      ensures arm.Requested? && !arm.request.SetConfigRequest? ==> desiredRunning == !arm.request.StopRequest?
      ensures arm.FileChanged? && Configuration.Valid(arm.config) ==> config == arm.config
      ensures arm.CoreLog? && childPid == Some(arm.source) && arm.line.ready ==> coreReadyAt.Some?
      ensures staleReload == (arm.PeerState?
                              && ReloadsUnder(old(versioned.View()), old(config), old(childPid), arm.incoming, arm.reload))
      ensures arm.PeerState? ==> versioned.stamps == Merged(old(versioned.View()), arm.incoming).stamps
    {
      staleReload := false;
      match arm
      case ProcessDies(p) => if p in os.live { ProcessExits(p); }
      case CoreStalled => if coreConnectDeadline.Some? { OnCoreStalled(); }
      case RestartDue => if restartAt.Some? { OnRestartDue(); }
      case Resolved(outcome, written, spawn, pid, now) =>
        if coreResolving && pid !in os.spawned { OnCoreResolved(outcome, written, spawn, pid, now); }
      case CoreLog(pid, line, now) => OnCoreLog(pid, line, now);
      case ChildExit(pid, code, now) => if pid in os.exits { HandleChildExit(pid, code, now); }
      case Requested(request, arrivals) => HandleRequest(request, arrivals);
      case FileChanged(c, arrivals) =>
        var error := Validate(c);
        if error.None? { HandleConfigChanged(c, arrivals); }
      case PeerState(incoming, reload, arrivals) =>
        staleReload := OnPeerState(incoming, reload, arrivals);
    }

    /** A client's request. */
    method HandleRequest(request: Request, arrivals: seq<Pid>)
      requires Good()
      modifies this, versioned
      ensures Good() && (old(FreshCore()) ==> FreshCore())
      ensures match request
              case SetConfigRequest(c, saved) =>
                && desiredRunning == old(desiredRunning)
                && config == if Configuration.Valid(c) && saved then c else old(config)
              case _ => desiredRunning == !request.StopRequest? && config == old(config)
      ensures request.StopRequest? ==> state == Stopped && childPid.None?
      ensures request.RestartRequest? || (request.StartRequest? && old(childPid).None?) ==> state == Starting
      ensures request.StartRequest? && old(childPid).Some? ==> state == old(state) && childPid == old(childPid)
    {
      match request
      case StartRequest => Start();
      case StopRequest => Stop(arrivals);
      case RestartRequest => Restart(arrivals);
      case SetConfigRequest(c, saved) => var _ := SetConfig(c, saved, arrivals);
    }

    /** A peer's state in whole runs: a config file that does not validate counts as unreadable. */
    method OnPeerState(incoming: Versioned, reload: Option<Config>, arrivals: seq<Pid>) returns (staleReload: bool)
      requires Good()
      modifies this, versioned
      ensures Good() && versioned.stamps == Merged(old(versioned.View()), incoming).stamps
      ensures old(FreshCore()) && !staleReload ==> FreshCore()
      ensures staleReload == ReloadsUnder(old(versioned.View()), old(config), old(childPid), incoming, reload)
    {
      var readable := reload;
      if reload.Some? {
        var error := Validate(reload.value);
        if error.Some? { readable := None; }
      }
      var was, child := config, childPid.Some?;
      var merged := Merged(versioned.View(), incoming);
      var refused := Updates(versioned.View(), incoming) && !Configuration.Valid(merged.config);
      var _ := HandleMerge(incoming, readable, arrivals);
      staleReload := refused && child && readable.Some? && CoreInputsDiffer(was, readable.value);
    }

    /** Any sequence of turns, from any good state: the invariant survives every one of them, and
        the owned Core is never stale unless a refused merge reloaded a file with other inputs. */
    method Run(arms: seq<Arm>) returns (staleReload: bool)
      requires Good() && FreshCore()
      modifies this, versioned
      ensures Good()
      ensures !staleReload ==> FreshCore()
      ensures staleReload ==> exists i :: 0 <= i < |arms| && arms[i].PeerState?
    {
      staleReload := false;
      for i := 0 to |arms|
        invariant Good()
        invariant !staleReload ==> FreshCore()
        invariant staleReload ==> exists k :: 0 <= k < i && arms[k].PeerState?
      {
        var stale := Turn(arms[i]);
        staleReload := staleReload || stale;
      }
    }
  }

  // ---------- a crash loop ----------

  /** The owned child, which was never ready for a minute, dies, and its successor comes up. */
  method CrashRound(s: Supervisor, pid: Pid, next: Pid, layout: CoreLayout, now: nat)
    requires s.Good() && s.childPid == Some(pid) && pid in s.os.live && pid in s.os.watched && next !in s.os.spawned
    requires s.coreReadyAt.Some? ==> now < s.coreReadyAt.value + 60_000
    modifies s
    ensures s.Good() && s.childPid == Some(next) && next in s.os.live && next in s.os.watched && s.coreReadyAt.None?
    ensures |s.delays| == |old(s.delays)| + 1 && s.afterHealthy == old(s.afterHealthy)
    ensures s.os.spawned == old(s.os).spawned + {next}
  {
    s.ProcessExits(pid);
    s.HandleChildExit(pid, Some(1), now);
    s.OnRestartDue();
    s.OnCoreResolved(Success(layout), true, Spawned, next, now);
  }

  /** A Core that keeps dying: the retries are armed at half a second, one, two and four seconds, then
      the circuit breaker opens. */
  method CrashLoop(name: string, origin: string, platform: Platform, layout: CoreLayout, rounds: nat)
    returns (s: Supervisor)
    ensures s.Good() && |s.delays| == rounds && !s.afterHealthy
    ensures forall k :: 0 <= k < rounds ==> s.delays[k] == RetryDelay(k, false)
    ensures rounds >= 5 ==> s.delays[..5] == [500, 1_000, 2_000, 4_000, 60_000]
  {
    s := Started(name, origin, platform, layout, 0);
    for i := 0 to rounds
      invariant fresh(s) && s.Good() && s.childPid == Some(i) && i in s.os.live && i in s.os.watched && s.coreReadyAt.None?
      invariant |s.delays| == i && !s.afterHealthy
      invariant forall p :: p in s.os.spawned ==> p <= i
    {
      CrashRound(s, i, i + 1, layout, i);
    }
    RetryTable(0);
  }

  // ---------- runs in which a refused merge does harm ----------

  /** The peer's document, with screens this machine is not among, and stamps later than its own. */
  function Foreign(name: string): Versioned
  {
    Versioned(OneScreen(name, 24800), AllStamped(LamportTime(2, "peer")), 2)
  }

  lemma ForeignIsRefused(name: string, other: string, port: nat, origin: string)
    requires name != other
    ensures Configuration.Valid(OneScreen(name, port))
    ensures
      var mine := Initial(OneScreen(name, port), origin);
      Updates(mine, Foreign(other)) && !Configuration.Valid(Merged(mine, Foreign(other)).config)
  {
    var mine := Initial(OneScreen(name, port), origin);
    assert OneScreen(name, port).screens[0].name == name;
    assert Wins(mine, Foreign(other), Screens);
    var merged := Merged(mine, Foreign(other)).config;
    assert merged.screens == OneScreen(other, 24800).screens && merged.serverName == name;
    assert !IsScreen(merged, name);
  }

  /** A supervisor whose Core has just come up. */
  method Started(name: string, origin: string, platform: Platform, layout: CoreLayout, pid: Pid) returns (s: Supervisor)
    ensures fresh(s) && fresh(s.versioned) && s.Good() && s.FreshCore() && s.Mirrored()
    ensures s.config == OneScreen(name, 24800) && s.childPid == Some(pid)
    ensures s.versioned.View() == Initial(OneScreen(name, 24800), origin)
    ensures pid in s.os.live && pid in s.os.watched && s.os.spawned == {pid}
    ensures s.coreReadyAt.None? && s.delays == [] && !s.afterHealthy
  {
    assert OneScreen(name, 24800).screens[0].name == name;
    s := new Supervisor(OneScreen(name, 24800), Initial(OneScreen(name, 24800), origin), origin, platform);
    s.Launch(false);
    s.OnCoreResolved(Success(layout), true, Spawned, pid, 0);
  }

  /** A peer's state is refused while the config file has been given another port: the document is
      reloaded under the running Core, which goes on with the old port. */
  method StaleCoreRun(name: string, other: string, origin: string, platform: Platform, layout: CoreLayout, pid: Pid)
    returns (s: Supervisor)
    requires name != other
    ensures s.Good() && s.childPid == Some(pid) && !s.FreshCore()
  {
    s := Started(name, origin, platform, layout, pid);
    ForeignIsRefused(name, other, 24800, origin);
    ForeignIsRefused(name, other, 24801, origin);
    var _ := s.HandleMerge(Foreign(other), Some(OneScreen(name, 24801)), []);
  }

  /** The same with a config file that cannot be read: the live document and the versioned one part. */
  method PartedRun(name: string, other: string, origin: string, platform: Platform, layout: CoreLayout, pid: Pid)
    returns (s: Supervisor)
    requires name != other
    ensures s.Good() && !s.Mirrored() && !Configuration.Valid(s.versioned.config)
  {
    s := Started(name, origin, platform, layout, pid);
    ForeignIsRefused(name, other, 24800, origin);
    var _ := s.HandleMerge(Foreign(other), None, []);
  }

  /** A refused merge reloads a readable file with other Core inputs under an owned child. */
  predicate ReloadsUnder(mine: Versioned, config: Config, child: Option<Pid>, incoming: Versioned, reload: Option<Config>)
  {
    && Updates(mine, incoming) && !Configuration.Valid(Merged(mine, incoming).config) && child.Some?
    && reload.Some? && Configuration.Valid(reload.value) && CoreInputsDiffer(config, reload.value)
  }

  datatype Request = StartRequest | StopRequest | RestartRequest | SetConfigRequest(config: Config, saved: bool)

  /** What can happen next, with the choices the environment makes. */
  datatype Arm =
    | ProcessDies(pid: Pid)
    | CoreStalled
    | RestartDue
    | Resolved(outcome: Result<CoreLayout, string>, written: bool, spawn: SpawnOutcome, newPid: Pid, now: nat)
    | CoreLog(source: Pid, line: CoreLine, now: nat)
    | ChildExit(exited: Pid, code: Option<int>, now: nat)
    | Requested(request: Request, arrivals: seq<Pid>)
    | FileChanged(config: Config, arrivals: seq<Pid>)
    | PeerState(incoming: Versioned, reload: Option<Config>, arrivals: seq<Pid>)
}
