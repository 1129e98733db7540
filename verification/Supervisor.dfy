/** The supervisor of per-workspace servers (web/api/app/supervisor.py). A critical section under the
    lock may await a spawn, so it is two steps with the lock held between them; every other stretch
    between awaits is one step. The class does the steps in place; the lemmas are about every
    interleaving of them. */
module Supervisor {
  import opened Common

  const MAX_RETRIES := 5

  datatype ServerState = Starting | Ready | Failed

  /** Where the monitor task of a handle is: waiting for the process, sleeping before a restart, or
      returned. */
  datatype Watch = Watching | Backoff | GaveUp

  /** `serial` is the identity of the handle object. */
  datatype Handle = Handle(
    serial: nat, port: nat, state: ServerState, retries: nat, lastUsed: real, watch: Watch)

  /** Who holds the lock across a spawn, for which workspace, and the port and handle in the making. */
  datatype Lock =
    | Free
    | Ensuring(workspace: string, port: nat, serial: nat)
    | Restarting(workspace: string, oldSerial: nat, port: nat, serial: nat)

  datatype State = State(
    cap: int, handles: map<string, Handle>, monitors: set<string>, nextPort: nat, nextSerial: nat, lock: Lock)

  // ---- what each step does ----

  /** `kept` is what remains of `handles` after the least recently used have gone, as few as make
      room for one more under the cap. */
  ghost predicate RoomMade(cap: int, handles: map<string, Handle>, kept: map<string, Handle>) {
    && kept.Keys <= handles.Keys
    && (forall w :: w in kept ==> kept[w] == handles[w])
    && (forall gone, w :: gone in handles && gone !in kept && w in kept ==>
          handles[gone].lastUsed <= handles[w].lastUsed)
    && |kept| == if cap > 0 && |handles| >= cap then cap - 1 else |handles|
  }

  /** Room is made for a server that is not there yet; the monitors of those that go are dropped. */
  ghost predicate RoomFor(s: State, kept: map<string, Handle>, left: set<string>, workspace: string) {
    && (if workspace in s.handles then kept == s.handles else RoomMade(s.cap, s.handles, kept))
    && left == s.monitors - (s.handles.Keys - kept.Keys)
  }

  /** `ensure` finds no live server and, room made, has a port for a new one. */
  ghost predicate EnsureBegins(s: State, s': State, workspace: string) {
    && s.lock == Free
    && (workspace in s.handles ==> s.handles[workspace].state == Failed)
    && RoomFor(s, s'.handles, s'.monitors, workspace)
    && s'.cap == s.cap && s.nextPort < s'.nextPort && s'.nextSerial == s.nextSerial + 1
    && s'.lock.Ensuring? && s'.lock.workspace == workspace && s'.lock.serial == s.nextSerial
    && s.nextPort <= s'.lock.port < s'.nextPort
  }

  /** `ensure` finds no port: the servers taken out to make room stay out. */
  ghost predicate EnsureFails(s: State, s': State, workspace: string) {
    && s.lock == Free
    && (workspace in s.handles ==> s.handles[workspace].state == Failed)
    && RoomFor(s, s'.handles, s'.monitors, workspace)
    && s'.cap == s.cap && s.nextPort <= s'.nextPort && s'.nextSerial == s.nextSerial && s'.lock == Free
  }

  /** The new server is registered, ready or failed, and gets a monitor. */
  ghost predicate EnsureEnds(s: State, s': State, ready: bool, now: real) {
    && s.lock.Ensuring?
    && s' == s.(
         handles := s.handles[s.lock.workspace :=
           Handle(s.lock.serial, s.lock.port, if ready then Ready else Failed, 0, now, Watching)],
         monitors := s.monitors + {s.lock.workspace},
         lock := Free)
  }

  ghost predicate Stops(s: State, s': State, workspace: string) {
    s.lock == Free && s' == s.(handles := s.handles - {workspace}, monitors := s.monitors - {workspace})
  }

  /** `acquire` marks a use; it takes no lock. */
  ghost predicate Touches(s: State, s': State, workspace: string, now: real) {
    && workspace in s.handles
    && s' == s.(handles := s.handles[workspace := s.handles[workspace].(lastUsed := now)])
  }

  /** A monitor sees its process end: it will restart the server, or gives up. */
  ghost predicate Exits(s: State, s': State, workspace: string) {
    && s.lock == Free
    && workspace in s.handles && s.handles[workspace].watch == Watching
    && var h := s.handles[workspace];
       s' == s.(handles := s.handles[workspace :=
         if h.retries + 1 > MAX_RETRIES
         then h.(retries := h.retries + 1, state := Failed, watch := GaveUp)
         else h.(retries := h.retries + 1, watch := Backoff)])
  }

  ghost predicate RestartBegins(s: State, s': State, workspace: string) {
    && s.lock == Free
    && workspace in s.handles && s.handles[workspace].watch == Backoff
    && s'.handles == s.handles && s'.monitors == s.monitors && s'.cap == s.cap
    && s.nextPort < s'.nextPort && s'.nextSerial == s.nextSerial + 1
    && s'.lock.Restarting? && s'.lock.workspace == workspace
    && s'.lock.oldSerial == s.handles[workspace].serial && s'.lock.serial == s.nextSerial
    && s.nextPort <= s'.lock.port < s'.nextPort
  }

  /** The replacement takes the old handle's place; a restart is not a use. */
  ghost predicate RestartEnds(s: State, s': State, ready: bool) {
    && s.lock.Restarting? && s.lock.workspace in s.handles
    && var h := s.handles[s.lock.workspace];
       s' == s.(
         handles := s.handles[s.lock.workspace :=
           Handle(s.lock.serial, s.lock.port, if ready then Ready else Failed,
                  if ready then 0 else h.retries, h.lastUsed, Watching)],
         lock := Free)
  }

  /** The monitor finds no port and dies with the lock released. */
  ghost predicate RestartFails(s: State, s': State, workspace: string) {
    && s.lock == Free
    && workspace in s.handles && s.handles[workspace].watch == Backoff
    && s.nextPort <= s'.nextPort
    && s' == s.(nextPort := s'.nextPort, handles := s.handles[workspace := s.handles[workspace].(watch := GaveUp)])
  }

  /** The task that holds the lock is cancelled in the middle of its spawn. */
  ghost predicate Aborts(s: State, s': State) {
    s.lock != Free && s' == s.(lock := Free)
  }

  ghost predicate Next(s: State, s': State) {
    || (exists w :: EnsureBegins(s, s', w))
    || (exists w :: EnsureFails(s, s', w))
    || (exists ready, now :: EnsureEnds(s, s', ready, now))
    || (exists w :: Stops(s, s', w))
    || (exists w, now :: Touches(s, s', w, now))
    || (exists w :: Exits(s, s', w))
    || (exists w :: RestartBegins(s, s', w))
    || (exists ready :: RestartEnds(s, s', ready))
    || (exists w :: RestartFails(s, s', w))
    || Aborts(s, s')
  }

  // ---- what every interleaving keeps ----

  ghost predicate PortsDistinct(s: State) {
    && (forall w :: w in s.handles ==> s.handles[w].port < s.nextPort && s.handles[w].serial < s.nextSerial)
    && (forall v, w :: v in s.handles && w in s.handles && v != w ==>
          s.handles[v].port != s.handles[w].port && s.handles[v].serial != s.handles[w].serial)
    && (s.lock != Free ==>
          && s.lock.port < s.nextPort && s.lock.serial < s.nextSerial
          && forall w :: w in s.handles ==>
               s.handles[w].port != s.lock.port && s.handles[w].serial != s.lock.serial)
  }

  /** With the server in the making, no more servers than the cap. */
  ghost predicate WithinCap(s: State) {
    s.cap > 0 ==>
      && |s.handles| <= s.cap
      && (s.lock.Ensuring? && s.lock.workspace !in s.handles ==> |s.handles| < s.cap)
  }

  /** A restart is under way only for a registered handle; no handle is restarted more than
      `MAX_RETRIES` times in a row. */
  ghost predicate RestartsBounded(s: State) {
    && (s.lock.Restarting? ==>
          s.lock.workspace in s.handles && s.handles[s.lock.workspace].serial == s.lock.oldSerial)
    && (s.lock.Restarting? ==> s.handles[s.lock.workspace].watch == Backoff)
    && forall w :: w in s.handles ==>
         var h := s.handles[w];
         && (h.watch == Watching ==> h.retries <= MAX_RETRIES)
         && (h.watch == Backoff ==> 0 < h.retries <= MAX_RETRIES)
         && (h.retries > MAX_RETRIES ==> h.watch == GaveUp && h.state == Failed && h.retries == MAX_RETRIES + 1)
  }

  ghost predicate Inv(s: State) {
    && s.monitors == s.handles.Keys
    && PortsDistinct(s) && WithinCap(s) && RestartsBounded(s)
  }

  lemma CardinalityOfInsert(handles: map<string, Handle>, w: string, h: Handle)
    ensures |handles[w := h]| == if w in handles then |handles| else |handles| + 1
  {
    assert handles[w := h].Keys == handles.Keys + {w};
  }

  lemma CardinalityOfSubmap(a: map<string, Handle>, b: map<string, Handle>)
    requires b.Keys <= a.Keys
    ensures |b| <= |a|
  {
    assert a.Keys == b.Keys + (a.Keys - b.Keys);
    assert |a.Keys| == |b.Keys| + |a.Keys - b.Keys|;
  }

  lemma EnsureKeepsInv(s: State, s': State, w: string)
    requires Inv(s) && (EnsureBegins(s, s', w) || EnsureFails(s, s', w))
    ensures Inv(s')
  {
    EnsureKeepsMonitors(s, s', w);
    EnsureKeepsPorts(s, s', w);
    EnsureKeepsCap(s, s', w);
    assert RestartsBounded(s');
  }

  lemma EnsureKeepsMonitors(s: State, s': State, w: string)
    requires s.monitors == s.handles.Keys && (EnsureBegins(s, s', w) || EnsureFails(s, s', w))
    ensures s'.monitors == s'.handles.Keys
  {
  }

  lemma EnsureKeepsPorts(s: State, s': State, w: string)
    requires PortsDistinct(s) && (EnsureBegins(s, s', w) || EnsureFails(s, s', w))
    ensures PortsDistinct(s')
  {
    assert forall v :: v in s'.handles ==> v in s.handles && s'.handles[v] == s.handles[v];
  }

  lemma EnsureKeepsCap(s: State, s': State, w: string)
    requires WithinCap(s) && (EnsureBegins(s, s', w) || EnsureFails(s, s', w))
    ensures WithinCap(s')
  {
  }

  /** The monitors that go are those of the servers that go. */
  lemma EvictedMonitors(
      handles: map<string, Handle>, kept: map<string, Handle>, monitors: set<string>, left: set<string>)
    requires monitors == handles.Keys && left == kept.Keys && kept.Keys <= handles.Keys
    ensures left == monitors - (handles.Keys - kept.Keys)
  {
  }

  lemma EnsureEndKeepsInv(s: State, s': State, ready: bool, now: real)
    requires Inv(s) && EnsureEnds(s, s', ready, now)
    ensures Inv(s')
  {
    CardinalityOfInsert(s.handles, s.lock.workspace, s'.handles[s.lock.workspace]);
    assert s'.monitors == s'.handles.Keys;
    assert PortsDistinct(s');
    assert WithinCap(s');
    assert RestartsBounded(s');
  }

  lemma StopKeepsInv(s: State, s': State, w: string)
    requires Inv(s) && Stops(s, s', w)
    ensures Inv(s')
  {
    CardinalityOfSubmap(s.handles, s'.handles);
    assert s'.monitors == s'.handles.Keys;
  }

  lemma ExitKeepsInv(s: State, s': State, w: string)
    requires Inv(s) && Exits(s, s', w)
    ensures Inv(s')
  {
    HandleUpdateKeepsPorts(s, s', w, s'.handles[w]);
    assert RestartsBounded(s');
  }

  lemma RestartBeginKeepsInv(s: State, s': State, w: string)
    requires Inv(s) && RestartBegins(s, s', w)
    ensures Inv(s')
  {
    assert PortsDistinct(s') && WithinCap(s') && RestartsBounded(s');
  }

  lemma RestartFailKeepsInv(s: State, s': State, w: string)
    requires Inv(s) && RestartFails(s, s', w)
    ensures Inv(s')
  {
    HandleUpdateKeepsPorts(s, s', w, s'.handles[w]);
    assert RestartsBounded(s');
  }

  /** A new state of the same handle leaves keys, ports and the number of handles as they were. */
  lemma HandleUpdateKeepsPorts(s: State, s': State, w: string, h: Handle)
    requires s.monitors == s.handles.Keys && PortsDistinct(s) && WithinCap(s) && w in s.handles
    requires h.port == s.handles[w].port && h.serial == s.handles[w].serial
    requires s.nextPort <= s'.nextPort
    requires s' == s.(handles := s.handles[w := h], nextPort := s'.nextPort)
    ensures s'.monitors == s'.handles.Keys && PortsDistinct(s') && WithinCap(s')
  {
    CardinalityOfInsert(s.handles, w, h);
    assert s'.handles.Keys == s.handles.Keys;
    assert forall v :: v in s'.handles ==>
      s'.handles[v].port == s.handles[v].port && s'.handles[v].serial == s.handles[v].serial;
  }

  lemma TouchKeepsInv(s: State, s': State, w: string, now: real)
    requires Inv(s) && Touches(s, s', w, now)
    ensures Inv(s')
  {
    HandleUpdateKeepsPorts(s, s', w, s'.handles[w]);
    assert RestartsBounded(s');
  }

  lemma RestartEndKeepsInv(s: State, s': State, ready: bool)
    requires Inv(s) && RestartEnds(s, s', ready)
    ensures Inv(s')
  {
    CardinalityOfInsert(s.handles, s.lock.workspace, s'.handles[s.lock.workspace]);
    assert s'.handles.Keys == s.handles.Keys;
  }

  /** Every step keeps the cap, the key agreement, distinct ports and the restart bound. */
  lemma StepKeepsInv(s: State, s': State)
    requires Inv(s) && Next(s, s')
    ensures Inv(s') && s'.cap == s.cap
  {
    if w :| EnsureBegins(s, s', w) {
      EnsureKeepsInv(s, s', w);
    } else if w :| EnsureFails(s, s', w) {
      EnsureKeepsInv(s, s', w);
    } else if ready, now :| EnsureEnds(s, s', ready, now) {
      EnsureEndKeepsInv(s, s', ready, now);
    } else if w :| Stops(s, s', w) {
      StopKeepsInv(s, s', w);
    } else if w :| Exits(s, s', w) {
      ExitKeepsInv(s, s', w);
    } else if w :| RestartBegins(s, s', w) {
      RestartBeginKeepsInv(s, s', w);
    } else if w :| RestartFails(s, s', w) {
      RestartFailKeepsInv(s, s', w);
    } else if w, now :| Touches(s, s', w, now) {
      TouchKeepsInv(s, s', w, now);
    } else if ready :| RestartEnds(s, s', ready) {
      RestartEndKeepsInv(s, s', ready);
    }
  }

  ghost predicate Start(s: State) {
    s.handles == map[] && s.monitors == {} && s.lock == Free
  }

  ghost predicate StepAt(run: seq<State>, i: int) {
    0 <= i < |run| - 1 && Next(run[i], run[i + 1])
  }

  ghost predicate IsRun(run: seq<State>) {
    run != [] && Start(run[0]) && forall i {:trigger StepAt(run, i)} :: 0 <= i < |run| - 1 ==> StepAt(run, i)
  }

  lemma {:induction false} RunHoldsInv(run: seq<State>, k: nat)
    requires k < |run| && IsRun(run)
    ensures Inv(run[k]) && run[k].cap == run[0].cap
  {
    if k > 0 {
      RunHoldsInv(run, k - 1);
      assert StepAt(run, k - 1);
      StepKeepsInv(run[k - 1], run[k]);
    }
  }

  /** In every run, at every moment: at most `cap` servers when the cap is positive, a monitor for
      each, and no two on one port. */
  lemma RunKeepsInv(run: seq<State>, k: nat)
    requires k < |run| && IsRun(run)
    ensures Inv(run[k]) && run[k].cap == run[0].cap
    ensures run[k].cap > 0 ==> |run[k].handles| <= run[k].cap
    ensures run[k].monitors == run[k].handles.Keys
    ensures forall v, w :: v in run[k].handles && w in run[k].handles && v != w ==>
              run[k].handles[v].port != run[k].handles[w].port
  {
    RunHoldsInv(run, k);
  }

  /** Only `ensure` brings a workspace's server up: a stopped one is never restarted. */
  lemma OnlyEnsureAdds(s: State, s': State, w: string)
    requires Inv(s) && Next(s, s')
    requires w !in s.handles && w in s'.handles
    ensures s.lock.Ensuring? && s.lock.workspace == w
  {
    if v :| EnsureBegins(s, s', v) || EnsureFails(s, s', v) {
    } else if v :| Stops(s, s', v) || Exits(s, s', v) || RestartBegins(s, s', v) || RestartFails(s, s', v) {
    } else if v, now :| Touches(s, s', v, now) {
    } else if ready :| RestartEnds(s, s', ready) {
    }
  }

  /** The step registers a new server of workspace `w`. */
  ghost predicate Registers(s: State, s': State, w: string) {
    s.lock.Ensuring? && s.lock.workspace == w && exists ready, now :: EnsureEnds(s, s', ready, now)
  }

  lemma OnlyRegisteringAdds(s: State, s': State, w: string)
    requires Inv(s) && Next(s, s')
    requires w !in s.handles && w in s'.handles
    ensures Registers(s, s', w)
  {
    OnlyEnsureAdds(s, s', w);
    assert exists ready, now :: EnsureEnds(s, s', ready, now);
  }

  /** From `i` to `j` no new server of workspace `w` is registered. */
  ghost predicate NoneRegistered(run: seq<State>, w: string, i: nat, j: nat)
    requires i <= j < |run|
  {
    forall m {:trigger StepAt(run, m)} :: i <= m < j && StepAt(run, m) ==> !Registers(run[m], run[m + 1], w)
  }

  /** So a server that was stopped, by a call or for being idle, stays down until an `ensure` for it ends,
      whatever other tasks do meanwhile. */
  lemma {:induction false} StoppedStaysDown(run: seq<State>, w: string, i: nat, j: nat)
    requires IsRun(run) && i <= j < |run| && w !in run[i].handles
    requires NoneRegistered(run, w, i, j)
    ensures w !in run[j].handles
    decreases j
  {
    if i < j {
      StoppedStaysDown(run, w, i, j - 1);
      RunHoldsInv(run, j - 1);
      assert StepAt(run, j - 1);
      if w in run[j].handles {
        OnlyRegisteringAdds(run[j - 1], run[j], w);
      }
    }
  }

  /** Step `k`, between `i` and `j`, stops server `w`, which is not registered again. */
  ghost predicate StoppedForGood(run: seq<State>, w: string, i: nat, k: nat, j: nat)
    requires j < |run|
  {
    i <= k < j && Stops(run[k], run[k + 1], w) && NoneRegistered(run, w, k + 1, j)
  }

  /** Reaping amid the steps of other tasks: when the stops of all servers found idle are over, none of them
      is up that no `ensure` has brought back since. */
  lemma ReapedAmidOthers(run: seq<State>, idle: set<string>, i: nat, j: nat)
    requires IsRun(run) && i <= j < |run|
    requires forall w :: w in idle ==> exists k: nat :: StoppedForGood(run, w, i, k, j)
    ensures forall w :: w in idle ==> w !in run[j].handles
  {
    forall w | w in idle ensures w !in run[j].handles {
      var k: nat :| StoppedForGood(run, w, i, k, j);
      StoppedStaysDown(run, w, k + 1, j);
    }
  }

  /** The servers unused for longer than `idle`; none when that is not positive. */
  function IdleAt(s: State, idle: real, now: real): set<string> {
    set w | w in s.handles && idle > 0.0 && now - s.handles[w].lastUsed > idle
  }

  ghost predicate StopsAt(run: seq<State>, k: int, w: string) {
    0 <= k < |run| - 1 && Stops(run[k], run[k + 1], w)
  }

  /** A reaping that scans the table in state `i` and is over in state `j`: it stops `names[n]` in step
      `steps[n]`, and these are the servers found idle. */
  ghost predicate Reaping(
      run: seq<State>, idle: real, now: real, i: nat, names: seq<string>, steps: seq<nat>, j: nat)
    requires i <= j < |run|
  {
    && |names| == |steps| && Distinct(names)
    && (forall w :: w in names <==> w in IdleAt(run[i], idle, now))
    && (forall n :: 0 <= n < |steps| ==> i <= steps[n] < j && StopsAt(run, steps[n], names[n]))
  }

  /** Amid the steps of any other tasks, a reaping takes down exactly the servers that were idle at its scan:
      each is gone after its stop, for as long as no `ensure` brings it back, and no other is touched. */
  lemma ReapingStopsTheIdle(
      run: seq<State>, idle: real, now: real, i: nat, names: seq<string>, steps: seq<nat>, j: nat, w: string)
    requires IsRun(run) && i <= j < |run| && Reaping(run, idle, now, i, names, steps, j)
    ensures w in IdleAt(run[i], idle, now) ==>
              exists n :: 0 <= n < |steps| && names[n] == w && w !in run[steps[n] + 1].handles
                          && (NoneRegistered(run, w, steps[n] + 1, j) ==> w !in run[j].handles)
    ensures w !in IdleAt(run[i], idle, now) ==>
              forall n :: 0 <= n < |steps| && w in run[steps[n]].handles ==>
                w in run[steps[n] + 1].handles && run[steps[n] + 1].handles[w] == run[steps[n]].handles[w]
  {
    if w in IdleAt(run[i], idle, now) {
      assert w in names;
      var n :| 0 <= n < |names| && names[n] == w;
      assert StopsAt(run, steps[n], names[n]);
      if NoneRegistered(run, w, steps[n] + 1, j) {
        StoppedStaysDown(run, w, steps[n] + 1, j);
      }
    } else {
      forall n | 0 <= n < |steps| && w in run[steps[n]].handles
        ensures w in run[steps[n] + 1].handles && run[steps[n] + 1].handles[w] == run[steps[n]].handles[w]
      {
        assert StopsAt(run, steps[n], names[n]) && names[n] in names;
      }
    }
  }

  /** What was idle at the scan is stopped even if it has been used since. */
  lemma ServerInUseMayBeReaped(s: State, w: string, idle: real, now: real)
    requires Inv(s) && s.lock == Free && w in IdleAt(s, idle, now)
    ensures exists used, stopped: State ::
              Touches(s, used, w, now) && w !in IdleAt(used, idle, now)
              && Stops(used, stopped, w) && w !in stopped.handles
  {
    var used := s.(handles := s.handles[w := s.handles[w].(lastUsed := now)]);
    var stopped := used.(handles := used.handles - {w}, monitors := used.monitors - {w});
    assert Touches(s, used, w, now) && Stops(used, stopped, w);
  }

  lemma EvictsOne(cap: int, handles: map<string, Handle>, kept: map<string, Handle>, gone: string)
    requires RoomMade(cap, handles, kept) && (cap > 0 ==> |handles| <= cap)
    requires gone in handles && gone !in kept
    ensures cap > 0 && |handles| == cap && kept.Keys == handles.Keys - {gone}
  {
    var rest := handles.Keys - {gone} - kept.Keys;
    assert handles.Keys == kept.Keys + rest + {gone};
    assert |handles.Keys| == |kept.Keys| + |rest| + 1;
  }

  /** Besides an explicit stop, a server leaves only to make room, and then no server that stays was
      used longer ago. */
  lemma OnlyLeastRecentlyUsedAreEvicted(s: State, s': State, gone: string, kept: string)
    requires Inv(s) && Next(s, s') && !Stops(s, s', gone)
    requires gone in s.handles && gone !in s'.handles && kept in s'.handles
    ensures kept in s.handles && s.handles[gone].lastUsed <= s.handles[kept].lastUsed
    ensures s.cap > 0 && |s.handles| == s.cap && s'.handles.Keys == s.handles.Keys - {gone}
  {
    assert exists w :: EnsureBegins(s, s', w) || EnsureFails(s, s', w);
    EvictsOne(s.cap, s.handles, s'.handles, gone);
  }

  // ---- how often a server is restarted ----

  /** The step puts a server of workspace `w` in place that has come up, in a restart. */
  ghost predicate RestartsReady(s: State, s': State, w: string) {
    RestartEnds(s, s', true) && s.lock.workspace == w
  }

  /** What a step makes of the count: an exit adds one; a server that came up in a restart, or is new, begins at
      nought; nothing else changes it. */
  lemma StepOnRetries(s: State, s': State, w: string)
    requires Inv(s) && Next(s, s') && w in s'.handles
    ensures Registers(s, s', w) || RestartsReady(s, s', w) ==> s'.handles[w].retries == 0
    ensures !Registers(s, s', w) && !RestartsReady(s, s', w) ==>
              && w in s.handles
              && s'.handles[w].retries == s.handles[w].retries + if Exits(s, s', w) then 1 else 0
  {
    if w !in s.handles {
      OnlyRegisteringAdds(s, s', w);
    } else if !Registers(s, s', w) && !RestartsReady(s, s', w) && !Exits(s, s', w) {
      OthersKeepTheCount(s, s', w);
    }
  }

  lemma OthersKeepTheCount(s: State, s': State, w: string)
    requires Inv(s) && Next(s, s') && w in s.handles && w in s'.handles
    requires !Registers(s, s', w) && !RestartsReady(s, s', w) && !Exits(s, s', w)
    ensures s'.handles[w].retries == s.handles[w].retries
  {
    if ready, now :| EnsureEnds(s, s', ready, now) {
      assert s.lock.workspace == w ==> Registers(s, s', w);
    } else if v :| EnsureBegins(s, s', v) || EnsureFails(s, s', v) {
    } else if v :| Stops(s, s', v) || RestartBegins(s, s', v) || RestartFails(s, s', v) || Exits(s, s', v) {
    } else if v, now :| Touches(s, s', v, now) {
    } else if ready :| RestartEnds(s, s', ready) {
    }
  }

  /** A server that came up after a restart is ready, with all its attempts before it, and its use is as it was;
      one that did not has failed, with as many behind it as before. A new one begins likewise, just used. */
  lemma FreshServers(s: State, s': State, ready: bool, now: real)
    ensures RestartEnds(s, s', ready) ==>
              var h, h' := s.handles[s.lock.workspace], s'.handles[s.lock.workspace];
              && (h'.state == Ready <==> ready) && (h'.state == Failed <==> !ready)
              && h'.retries == (if ready then 0 else h.retries) && h'.lastUsed == h.lastUsed && h'.watch == Watching
    ensures EnsureEnds(s, s', ready, now) ==>
              var h' := s'.handles[s.lock.workspace];
              && (h'.state == Ready <==> ready) && (h'.state == Failed <==> !ready)
              && h'.retries == 0 && h'.lastUsed == now && h'.watch == Watching
  {
  }

  /** How many exits of `w` there are from `i` to `j`. */
  ghost function ExitCount(run: seq<State>, w: string, i: nat, j: nat): nat
    requires i <= j < |run|
    decreases j - i
  {
    if i == j then 0 else ExitCount(run, w, i, j - 1) + if Exits(run[j - 1], run[j], w) then 1 else 0
  }

  /** From `i` to `j` no server of `w` is registered, nor comes up in a restart. */
  ghost predicate NeverReady(run: seq<State>, w: string, i: nat, j: nat)
    requires i <= j < |run|
  {
    forall m {:trigger StepAt(run, m)} :: i <= m < j && StepAt(run, m) ==>
      !Registers(run[m], run[m + 1], w) && !RestartsReady(run[m], run[m + 1], w)
  }

  /** Five restarts in a row: in a stretch of any run in which the server never comes up again, every exit is
      counted, there are at most six from a fresh start, and after the last the supervisor has given up. */
  lemma {:induction false} AtMostFiveRestarts(run: seq<State>, w: string, i: nat, j: nat)
    requires IsRun(run) && i <= j < |run| && NeverReady(run, w, i, j)
    ensures w in run[j].handles ==>
              w in run[i].handles && run[j].handles[w].retries == run[i].handles[w].retries + ExitCount(run, w, i, j)
    ensures w !in run[i].handles ==> ExitCount(run, w, i, j) == 0
    ensures w in run[i].handles ==> run[i].handles[w].retries + ExitCount(run, w, i, j) <= 6
    ensures w in run[j].handles && run[i].handles[w].retries + ExitCount(run, w, i, j) == 6 ==>
              run[j].handles[w].watch == GaveUp && run[j].handles[w].state == Failed
    decreases j
  {
    RunHoldsInv(run, j);
    if i < j {
      AtMostFiveRestarts(run, w, i, j - 1);
      RunHoldsInv(run, j - 1);
      assert StepAt(run, j - 1);
      if w in run[j].handles {
        StepOnRetries(run[j - 1], run[j], w);
      }
    }
  }

  /** A monitor gives up at the sixth exit in a row, and when it finds no port for a replacement; the count
      and the use of the server stay as they are. */
  lemma WhoGivesUp(s: State, s': State, w: string)
    requires Inv(s) && Next(s, s') && w in s.handles && w in s'.handles && s.handles[w].watch != GaveUp
    ensures s'.handles[w].watch == GaveUp <==>
              RestartFails(s, s', w) || (Exits(s, s', w) && s.handles[w].retries == 5)
    ensures s'.handles[w].watch == GaveUp ==>
              s'.handles[w].lastUsed == s.handles[w].lastUsed && s'.handles[w].serial == s.handles[w].serial
  {
  }

  /** Once given up, a server is left alone: until it is stopped or replaced by an `ensure`, it is the one it
      was, and no exit and no restart of it is seen. */
  lemma {:induction false} GivenUpForGood(run: seq<State>, w: string, i: nat, j: nat)
    requires IsRun(run) && i <= j < |run| && NoneRegistered(run, w, i, j)
    requires w in run[i].handles && run[i].handles[w].watch == GaveUp
    ensures ExitCount(run, w, i, j) == 0
    ensures w in run[j].handles ==>
              && run[j].handles[w].serial == run[i].handles[w].serial && run[j].handles[w].watch == GaveUp
              && run[j].handles[w].retries == run[i].handles[w].retries
    ensures run[j].lock.Restarting? ==> run[j].lock.workspace != w
    decreases j
  {
    RunHoldsInv(run, j);
    if i < j {
      GivenUpForGood(run, w, i, j - 1);
      RunHoldsInv(run, j - 1);
      assert StepAt(run, j - 1);
      if w in run[j].handles {
        if w !in run[j - 1].handles {
          OnlyRegisteringAdds(run[j - 1], run[j], w);
        }
        StepOnGivenUp(run[j - 1], run[j], w);
      }
    }
  }

  lemma StepOnGivenUp(s: State, s': State, w: string)
    requires Inv(s) && Next(s, s') && !Registers(s, s', w)
    requires w in s.handles && w in s'.handles && s.handles[w].watch == GaveUp
    ensures s'.handles[w] == s.handles[w].(lastUsed := s'.handles[w].lastUsed) && !Exits(s, s', w)
  {
  }

  // ---- how many processes run ----

  /** The table, the processes that run (by the serial of their handle), those that some task is to tear
      down, and those that the `ensure` in progress has taken out to make room. */
  datatype Census = Census(table: State, running: set<nat>, due: set<nat>, evicted: set<nat>)

  function Serials(handles: map<string, Handle>): set<nat> {
    set w | w in handles :: handles[w].serial
  }

  /** The servers that count as running at once: those in the table and the one in the making, which may be
      there to replace one of them. */
  function Counted(s: State): set<nat> {
    match s.lock
    case Free => Serials(s.handles)
    case Ensuring(w, _, serial) => Serials(s.handles - {w}) + {serial}
    case Restarting(w, _, _, serial) => Serials(s.handles - {w}) + {serial}
  }

  lemma {:induction false} SerialsAtMost(handles: map<string, Handle>)
    ensures |Serials(handles)| <= |handles|
    decreases |handles|
  {
    if handles != map[] {
      var w :| w in handles;
      var rest := handles - {w};
      assert rest[w := handles[w]] == handles;
      CardinalityOfInsert(rest, w, handles[w]);
      SerialsAtMost(rest);
      assert Serials(handles) == Serials(rest) + {handles[w].serial};
    }
  }

  lemma CountedAtMost(s: State)
    requires Inv(s) && s.cap > 0
    ensures |Counted(s)| <= s.cap
  {
    if s.lock == Free {
      SerialsAtMost(s.handles);
    } else {
      ReplacedAtMost(s, s.lock.workspace);
    }
  }

  lemma ReplacedAtMost(s: State, w: string)
    requires Inv(s) && s.cap > 0 && s.lock != Free && s.lock.workspace == w
    ensures |Serials(s.handles - {w})| + 1 <= s.cap
  {
    SerialsAtMost(s.handles - {w});
    RemovedOne(s.handles, w);
  }

  lemma RemovedOne(handles: map<string, Handle>, w: string)
    ensures |handles - {w}| == if w in handles then |handles| - 1 else |handles|
  {
    if w in handles {
      assert (handles - {w})[w := handles[w]] == handles;
      CardinalityOfInsert(handles - {w}, w, handles[w]);
    } else {
      assert handles - {w} == handles;
    }
  }

  /** When the promise holds that at most `cap` servers run at once: whenever no process runs on that was
      taken out of the table, or replaced in it. */
  lemma WithinCapUnlessStray(x: Census)
    requires Inv(x.table) && x.table.cap > 0 && x.running <= Counted(x.table)
    ensures |x.running| <= x.table.cap
  {
    CountedAtMost(x.table);
    assert Counted(x.table) == x.running + (Counted(x.table) - x.running);
  }

  lemma {:induction false} SerialsExactly(handles: map<string, Handle>)
    requires forall v, w :: v in handles && w in handles && v != w ==> handles[v].serial != handles[w].serial
    ensures |Serials(handles)| == |handles|
    decreases |handles|
  {
    if handles != map[] {
      var w :| w in handles;
      var rest := handles - {w};
      assert rest[w := handles[w]] == handles;
      CardinalityOfInsert(rest, w, handles[w]);
      SerialsExactly(rest);
      assert Serials(handles) == Serials(rest) + {handles[w].serial};
    }
  }

  /** And it fails in every `ensure` of one more server at the cap, from the spawn until the evicted one is
      torn down. */
  lemma EvictionExceedsCap(s: State, s': State, w: string)
    requires Inv(s) && EnsureBegins(s, s', w) && s.cap > 0 && |s.handles| == s.cap
    ensures |Serials(s.handles) + {s'.lock.serial}| == s.cap + 1
  {
    SerialsExactly(s.handles);
    assert s'.lock.serial !in Serials(s.handles);
  }

  /** One step of the table and what it does to the processes; a process may also end by itself, or be torn
      down by the task it is due to. */
  ghost predicate CensusStep(x: Census, y: Census) {
    || (exists w ::
          EnsureBegins(x.table, y.table, w) && y.running <= x.running + {y.table.lock.serial}
          && y.due == x.due && y.evicted == Serials(x.table.handles) - Serials(y.table.handles))
    || (exists w :: EnsureFails(x.table, y.table, w) && y == x.(table := y.table, evicted := {}))
    || (exists ready, now ::
          EnsureEnds(x.table, y.table, ready, now)
          && y == x.(table := y.table, due := x.due + x.evicted, evicted := {}))
    || (exists w ::
          Stops(x.table, y.table, w)
          && y == x.(table := y.table, due := x.due + (Serials(x.table.handles) - Serials(y.table.handles))))
    || (Aborts(x.table, y.table) && y == x.(table := y.table, evicted := {}))
    || (TableKept(x.table, y.table) && y == x.(table := y.table))
    || (exists w ::
          RestartBegins(x.table, y.table, w) && y.running <= x.running + {y.table.lock.serial}
          && y.due == x.due && y.evicted == x.evicted)
    || (exists serial :: serial in x.due && y == x.(running := x.running - {serial}, due := x.due - {serial}))
    || (exists serial :: y == x.(running := x.running - {serial}))
  }

  /** The steps that neither start nor stop a process. */
  ghost predicate TableKept(s: State, s': State) {
    || (exists w, now :: Touches(s, s', w, now))
    || (exists w :: Exits(s, s', w))
    || (exists ready :: RestartEnds(s, s', ready))
    || (exists w :: RestartFails(s, s', w))
  }

  /** A process that nobody has in hand: its handle is in no table and in no making, and no task is to tear it
      down. */
  predicate Orphan(x: Census, serial: nat) {
    && serial < x.table.nextSerial && serial !in x.due && serial !in x.evicted
    && serial !in Serials(x.table.handles)
    && (x.table.lock == Free || x.table.lock.serial != serial)
  }

  /** It stays one whatever happens: nothing but its own end will stop it. */
  lemma OrphanStays(x: Census, y: Census, serial: nat)
    requires CensusStep(x, y) && Orphan(x, serial)
    ensures Orphan(y, serial)
  {
  }

  /** Evicted servers become orphans when the `ensure` that took them out finds no port, or is cancelled. */
  lemma FailedEnsureOrphans(x: Census, y: Census, w: string, serial: nat)
    requires Inv(x.table) && EnsureFails(x.table, y.table, w) && y == x.(table := y.table, evicted := {})
    requires serial in Serials(x.table.handles) - Serials(y.table.handles) && serial !in x.due
    ensures CensusStep(x, y) && Orphan(y, serial)
  {
  }

  /** So does a failed server that an `ensure` replaces, should its process still run. */
  lemma ReplacedServerIsOrphaned(x: Census, y: Census, ready: bool, now: real)
    requires Inv(x.table) && EnsureEnds(x.table, y.table, ready, now) && x.table.lock.workspace in x.table.handles
    requires y == x.(table := y.table, due := x.due + x.evicted, evicted := {})
    requires x.table.handles[x.table.lock.workspace].serial !in x.due + x.evicted
    ensures CensusStep(x, y) && Orphan(y, x.table.handles[x.table.lock.workspace].serial)
  {
  }

  lemma AbortedEnsureOrphans(x: Census, y: Census, serial: nat)
    requires Inv(x.table) && Aborts(x.table, y.table) && y == x.(table := y.table, evicted := {})
    requires serial in x.evicted && serial < x.table.nextSerial
    requires serial !in x.due && serial !in Serials(x.table.handles)
    ensures CensusStep(x, y) && Orphan(y, serial)
  {
  }

  // ---- the supervisor itself ----

  class McpSupervisor {
    const maxServers: int
    var handles: map<string, Handle>
    var monitors: set<string>
    var nextPort: nat
    var nextSerial: nat
    var lock: Lock

    constructor (maxServers: int, portBase: nat)
      ensures Start(S()) && S().cap == maxServers && Inv(S())
    {
      this.maxServers := maxServers;
      handles := map[];
      monitors := {};
      nextPort := portBase;
      nextSerial := 0;
      lock := Free;
    }

    function S(): State
      reads this
    {
      State(maxServers, handles, monitors, nextPort, nextSerial, lock)
    }

    /** A server that no other was used before. */
    method Oldest() returns (oldest: string)
      requires handles != map[]
      ensures oldest in handles
      ensures forall w :: w in handles ==> handles[oldest].lastUsed <= handles[w].lastUsed
    {
      oldest :| oldest in handles;
      var rest := handles.Keys - {oldest};
      while rest != {}
        invariant oldest in handles && rest <= handles.Keys
        invariant forall w :: w in handles && w !in rest ==> handles[oldest].lastUsed <= handles[w].lastUsed
        decreases rest
      {
        var w :| w in rest;
        if handles[w].lastUsed < handles[oldest].lastUsed {
          oldest := w;
        }
        rest := rest - {w};
      }
    }

    /** Take the least recently used servers out of the table until there is room under the cap. */
    method MakeRoom()
      requires monitors == handles.Keys
      modifies this`handles, this`monitors
      ensures RoomMade(maxServers, old(handles), handles)
      ensures monitors == handles.Keys
    {
      while maxServers > 0 && |handles| >= maxServers
        invariant monitors == handles.Keys && handles.Keys <= old(handles).Keys
        invariant forall w :: w in handles ==> handles[w] == old(handles)[w]
        invariant forall gone, w :: gone in old(handles) && gone !in handles && w in handles ==>
                    old(handles)[gone].lastUsed <= old(handles)[w].lastUsed
        invariant |handles| <= |old(handles)|
        invariant maxServers > 0 && |old(handles)| >= maxServers ==> |handles| >= maxServers - 1
        invariant !(maxServers > 0 && |old(handles)| >= maxServers) ==> |handles| == |old(handles)|
        decreases |handles|
      {
        var oldest := Oldest();
        monitors := monitors - {oldest};
        CardinalityOfInsert(handles - {oldest}, oldest, handles[oldest]);
        assert (handles - {oldest})[oldest := handles[oldest]] == handles;
        handles := handles - {oldest};
        assert monitors == handles.Keys;
      }
    }

    /** The next port that nothing listens on, of at most a thousand. */
    method AllocPort(isFree: nat -> bool) returns (port: Option<nat>)
      modifies this`nextPort
      ensures port.Some? ==>
                && isFree(port.value) && nextPort == port.value + 1
                && old(nextPort) <= port.value < old(nextPort) + 1000
      ensures port.None? ==> nextPort == old(nextPort) + 1000
      ensures forall p: nat :: old(nextPort) <= p < nextPort && port != Some(p) ==> !isFree(p)
    {
      var tries := 0;
      while tries < 1000
        invariant tries <= 1000 && nextPort == old(nextPort) + tries
        invariant forall p: nat :: old(nextPort) <= p < nextPort ==> !isFree(p)
      {
        var candidate := nextPort;
        nextPort := nextPort + 1;
        if isFree(candidate) {
          return Some(candidate);
        }
        tries := tries + 1;
      }
      return None;
    }

    /** `ensure` up to its spawn: `live` when a server is there, `None` when no port is free. */
    method EnsureBegin(workspace: string, isFree: nat -> bool) returns (live: bool, port: Option<nat>)
      requires Inv(S()) && lock == Free
      modifies this
      ensures Inv(S())
      ensures live == (workspace in old(handles) && old(handles)[workspace].state != Failed)
      ensures live ==> S() == old(S())
      ensures !live && port.Some? ==> EnsureBegins(old(S()), S(), workspace) && lock.port == port.value
      ensures !live && port.None? ==> EnsureFails(old(S()), S(), workspace)
    {
      if workspace in handles && handles[workspace].state != Failed {
        return true, None;
      }
      live := false;
      MakeRoomFor(workspace);
      port := BeginSpawn(workspace, isFree);
      EnsureKeepsInv(old(S()), S(), workspace);
    }

    method MakeRoomFor(workspace: string)
      requires monitors == handles.Keys
      modifies this`handles, this`monitors
      ensures RoomFor(old(S()), handles, monitors, workspace)
    {
      ghost var s := S();
      if workspace !in handles {
        MakeRoom();
      }
      EvictedMonitors(s.handles, handles, s.monitors, monitors);
    }

    /** Find a port for a new server and hold the lock while it is spawned. */
    method BeginSpawn(workspace: string, isFree: nat -> bool) returns (port: Option<nat>)
      modifies this`nextPort, this`nextSerial, this`lock
      ensures old(nextPort) <= nextPort
      ensures port.None? ==> nextSerial == old(nextSerial) && lock == old(lock)
      ensures port.Some? ==>
                && old(nextPort) <= port.value < nextPort && nextSerial == old(nextSerial) + 1
                && lock == Ensuring(workspace, port.value, old(nextSerial))
    {
      port := AllocPort(isFree);
      if port.Some? {
        lock := Ensuring(workspace, port.value, nextSerial);
        nextSerial := nextSerial + 1;
      }
    }

    /** The spawn has ended, ready or not: register the server and start its monitor. */
    method EnsureEnd(ready: bool, now: real)
      requires Inv(S()) && lock.Ensuring?
      modifies this
      ensures EnsureEnds(old(S()), S(), ready, now) && Inv(S())
      ensures handles[old(lock).workspace].state == if ready then Ready else Failed
    {
      ghost var s := S();
      handles := handles[lock.workspace :=
        Handle(lock.serial, lock.port, if ready then Ready else Failed, 0, now, Watching)];
      monitors := monitors + {lock.workspace};
      lock := Free;
      EnsureEndKeepsInv(s, S(), ready, now);
    }

    /** `acquire` of a server that is there. */
    method Touch(workspace: string, now: real)
      requires Inv(S())
      modifies this
      ensures Inv(S())
      ensures if workspace in old(handles) then Touches(old(S()), S(), workspace, now) else S() == old(S())
    {
      ghost var s := S();
      if workspace in handles {
        handles := handles[workspace := handles[workspace].(lastUsed := now)];
        TouchKeepsInv(s, S(), workspace, now);
      }
    }

    method Stop(workspace: string)
      requires Inv(S()) && lock == Free
      modifies this
      ensures Stops(old(S()), S(), workspace) && Inv(S())
    {
      ghost var s := S();
      monitors := monitors - {workspace};
      handles := handles - {workspace};
      StopKeepsInv(s, S(), workspace);
    }

    /** The scan that a reaping begins with. */
    method IdleServers(idle: real, now: real) returns (stale: set<string>)
      ensures stale == IdleAt(S(), idle, now)
    {
      if idle <= 0.0 {
        return {};
      }
      return set w | w in handles && now - handles[w].lastUsed > idle;
    }

    /** Stop every server unused for longer than `idle`. With no step of another task between the
        stops, exactly the idle ones are gone. */
    method ReapIdle(idle: real, now: real)
      requires Inv(S()) && lock == Free
      modifies this
      ensures Inv(S()) && lock == Free
      ensures idle <= 0.0 ==> S() == old(S())
      ensures idle > 0.0 ==> forall w :: w in handles <==> w in old(handles) && now - old(handles)[w].lastUsed <= idle
      ensures forall w :: w in handles ==> handles[w] == old(handles)[w]
    {
      if idle <= 0.0 {
        return;
      }
      var stale := IdleServers(idle, now);
      assert forall w :: w in stale <==> w in handles && now - handles[w].lastUsed > idle;
      var rest := stale;
      while rest != {}
        invariant Inv(S()) && lock == Free && rest <= stale
        invariant forall w :: w in handles <==> w in old(handles) && (w in stale ==> w in rest)
        invariant forall w :: w in handles ==> handles[w] == old(handles)[w]
        decreases rest
      {
        var w :| w in rest;
        Stop(w);
        rest := rest - {w};
      }
    }

    /** The monitor, once the process of the handle with this serial has ended. It does nothing for a
        handle that is no longer the registered one. */
    method ProcessExited(workspace: string, serial: nat) returns (restart: bool)
      requires Inv(S()) && lock == Free
      requires workspace in handles && handles[workspace].serial == serial ==> handles[workspace].watch == Watching
      modifies this
      ensures Inv(S())
      ensures if workspace in old(handles) && old(handles)[workspace].serial == serial
              then Exits(old(S()), S(), workspace) else S() == old(S())
      ensures restart <==> workspace in old(handles) && old(handles)[workspace].serial == serial
                           && old(handles)[workspace].retries < MAX_RETRIES
    {
      if workspace !in handles || handles[workspace].serial != serial {
        return false;
      }
      ghost var s := S();
      var h := handles[workspace];
      h := h.(retries := h.retries + 1);
      restart := h.retries <= MAX_RETRIES;
      h := if restart then h.(watch := Backoff) else h.(state := Failed, watch := GaveUp);
      handles := handles[workspace := h];
      assert Exits(s, S(), workspace);
      ExitKeepsInv(s, S(), workspace);
    }

    /** The monitor, after its backoff. */
    method RestartBegin(workspace: string, serial: nat, isFree: nat -> bool) returns (begun: bool)
      requires Inv(S()) && lock == Free
      requires workspace in handles && handles[workspace].serial == serial ==> handles[workspace].watch == Backoff
      modifies this
      ensures Inv(S())
      ensures begun ==> RestartBegins(old(S()), S(), workspace) && lock.oldSerial == serial
      ensures !begun ==> S() == old(S()) || RestartFails(old(S()), S(), workspace)
      ensures !begun && S() != old(S()) ==> handles[workspace].watch == GaveUp
    {
      if workspace !in handles || handles[workspace].serial != serial {
        return false;
      }
      ghost var s := S();
      var port := AllocPort(isFree);
      begun := port.Some?;
      if begun {
        lock := Restarting(workspace, serial, port.value, nextSerial);
        nextSerial := nextSerial + 1;
        RestartBeginKeepsInv(s, S(), workspace);
      } else {
        handles := handles[workspace := handles[workspace].(watch := GaveUp)];
        RestartFailKeepsInv(s, S(), workspace);
      }
    }

    method RestartEnd(ready: bool)
      requires Inv(S()) && lock.Restarting?
      modifies this
      ensures RestartEnds(old(S()), S(), ready) && Inv(S())
      ensures handles[old(lock).workspace].retries == if ready then 0 else old(handles)[old(lock).workspace].retries
      ensures handles[old(lock).workspace].state == if ready then Ready else Failed
    {
      ghost var s := S();
      var h := handles[lock.workspace];
      handles := handles[lock.workspace :=
        Handle(lock.serial, lock.port, if ready then Ready else Failed,
               if ready then 0 else h.retries, h.lastUsed, Watching)];
      lock := Free;
      RestartEndKeepsInv(s, S(), ready);
    }
  }
}
