/** The lease protocol as a timed step system: any number of consoles on any number of hosts, one
    lease file and one clock. What runs between two awaits of `take_over`, `hold` and the shutdown
    path is one step. Sleeps end on time: the clock never passes a deadline. */
module LeaseProtocol {
  import opened Common
  import opened Lease

  /** Where a console is. `Draining` is the shutdown path: no heartbeat any more, the release still
      to come. */
  datatype Phase =
    | Standby(wake: real)
    | Waiting(until: real)
    | Serving(next: real)
    | Draining
    | Stopped

  datatype Console = Console(host: string, generation: int, displaced: string, phase: Phase)

  datatype State = State(interval: real, now: real, file: Option<Holder>, consoles: map<string, Console>)

  datatype Event =
    | Start(id: string, host: string)
    | Wake(id: string)
    | WaitOver(id: string)
    | Beat(id: string)
    | Drain(id: string)
    | Release(id: string)
    | Crash(id: string)
    | Tick(dt: real)

  predicate IsServing(s: State, id: string) {
    id in s.consoles && s.consoles[id].phase.Serving?
  }

  /** The console still beats, or is about to. */
  predicate IsLive(s: State, id: string) {
    id in s.consoles && (s.consoles[id].phase.Serving? || s.consoles[id].phase.Waiting?)
  }

  predicate InTime(c: Console, now: real) {
    match c.phase
    case Standby(t) => now <= t
    case Waiting(t) => now <= t
    case Serving(t) => now <= t
    case _ => true
  }

  predicate Enabled(s: State, e: Event) {
    match e
    case Start(id, _) => id !in s.consoles && !(s.file.Some? && s.file.value.id == id)
    case Wake(id) => id in s.consoles && s.consoles[id].phase == Standby(s.now)
    case WaitOver(id) => id in s.consoles && s.consoles[id].phase == Waiting(s.now)
    case Beat(id) => id in s.consoles && s.consoles[id].phase == Serving(s.now)
    case Drain(id) => id in s.consoles && s.consoles[id].phase.Serving?
    case Release(id) => id in s.consoles && s.consoles[id].phase.Draining?
    case Crash(id) => id in s.consoles && !s.consoles[id].phase.Stopped?
    case Tick(dt) => dt > 0.0 && forall id :: id in s.consoles ==> InTime(s.consoles[id], s.now + dt)
  }

  function WithPhase(s: State, id: string, p: Phase): State
    requires id in s.consoles
  {
    s.(consoles := s.consoles[id := s.consoles[id].(phase := p)])
  }

  /** `take_over` from its check on: stand by, or take and wait for a live holder. */
  function Attempt(s: State, id: string, host: string): State {
    if HeldBack(s.file, id, host, s.now, s.interval) then
      s.(consoles := s.consoles[id := Console(host, 0, "", Standby(s.now + s.interval))])
    else
      var h := Taken(s.file, id, host, s.now, s.interval);
      var p := if Alive(s.file, id, s.now, s.interval)
               then Waiting(s.now + 1.5 * s.interval) else Serving(s.now + s.interval);
      s.(file := Some(h), consoles := s.consoles[id := Console(host, h.generation, h.displaced, p)])
  }

  function Renew(s: State, id: string): State
    requires id in s.consoles
  {
    if Lost(s.file, id) then WithPhase(s, id, Stopped)
    else
      var c := s.consoles[id];
      WithPhase(s, id, Serving(s.now + s.interval))
        .(file := Some(Holder(id, c.generation, c.host, s.now, c.displaced)))
  }

  function Apply(s: State, e: Event): State
    requires Enabled(s, e)
  {
    match e
    case Start(id, host) => Attempt(s, id, host)
    case Wake(id) => Attempt(s, id, s.consoles[id].host)
    case WaitOver(id) => WithPhase(s, id, Serving(s.now + s.interval))
    case Beat(id) => Renew(s, id)
    case Drain(id) => WithPhase(s, id, Draining)
    case Release(id) => WithPhase(s, id, Stopped).(file := Released(s.file, id))
    case Crash(id) => WithPhase(s, id, Stopped)
    case Tick(dt) => s.(now := s.now + dt)
  }

  /** A deadline lies ahead, by at most the sleep that set it. */
  predicate Timely(c: Console, now: real, interval: real) {
    match c.phase
    case Standby(t) => now <= t <= now + interval
    case Waiting(t) => now <= t <= now + 1.5 * interval
    case Serving(t) => now <= t <= now + interval
    case _ => true
  }

  /** The lease file agrees with the console it names, and its heartbeat with that console's
      next deadline. */
  predicate FileAgrees(s: State) {
    s.file.Some? ==>
      var h := s.file.value;
      && h.heartbeat <= s.now
      && (h.id in s.consoles ==>
            var c := s.consoles[h.id];
            && !c.phase.Standby?
            && h.host == c.host && h.displaced == c.displaced && h.generation == c.generation
            && (c.phase.Waiting? ==> h.heartbeat >= c.phase.until - 1.5 * s.interval)
            && (c.phase.Serving? ==> h.heartbeat >= c.phase.next - 2.5 * s.interval))
  }

  ghost predicate Inv(s: State) {
    && s.interval > 0.0
    && FileAgrees(s)
    && forall id :: id in s.consoles ==> Timely(s.consoles[id], s.now, s.interval)
  }

  /** No console yet; the file may be absent or left over from an earlier deployment. */
  ghost predicate Initial(s: State) {
    && s.interval > 0.0
    && s.consoles == map[]
    && (s.file.Some? ==> s.file.value.heartbeat <= s.now)
  }

  predicate StepAt(states: seq<State>, events: seq<Event>, i: nat)
    requires i < |events| < |states|
  {
    Enabled(states[i], events[i]) && states[i + 1] == Apply(states[i], events[i])
  }

  ghost predicate IsRun(states: seq<State>, events: seq<Event>) {
    && |states| == |events| + 1
    && Inv(states[0])
    && forall i :: 0 <= i < |events| ==> StepAt(states, events, i)
  }

  lemma InitialHoldsInv(s: State)
    requires Initial(s)
    ensures Inv(s)
  {
  }

  /** So every run from a first state is a run in the sense of the lemmas below. */
  lemma RunFromStart(states: seq<State>, events: seq<Event>)
    requires |states| == |events| + 1 && Initial(states[0])
    requires forall i :: 0 <= i < |events| ==> StepAt(states, events, i)
    ensures IsRun(states, events)
  {
    InitialHoldsInv(states[0]);
  }

  lemma StepKeepsInv(s: State, e: Event)
    requires Inv(s) && Enabled(s, e)
    ensures Inv(Apply(s, e))
  {
    match e
    case Tick(dt) =>
      forall id | id in s.consoles ensures Timely(s.consoles[id], s.now + dt, s.interval) {
        assert InTime(s.consoles[id], s.now + dt);
      }
    case _ =>
  }

  lemma {:induction false} RunKeepsInv(states: seq<State>, events: seq<Event>, k: nat)
    requires IsRun(states, events) && k < |states|
    ensures Inv(states[k]) && states[k].interval == states[0].interval
  {
    if k > 0 {
      RunKeepsInv(states, events, k - 1);
      assert StepAt(states, events, k - 1);
      StepKeepsInv(states[k - 1], events[k - 1]);
    }
  }

  /** A live holder is never older than two and a half intervals, so the three-interval test
      calls a holder gone only when it stopped beating. */
  lemma LiveHolderIsNeverStale(states: seq<State>, events: seq<Event>, k: nat)
    requires IsRun(states, events) && k < |states|
    requires states[k].file.Some? && IsLive(states[k], states[k].file.value.id)
    ensures states[k].now - states[k].file.value.heartbeat <= 2.5 * states[k].interval
    ensures !Stale(states[k].file.value, states[k].now, states[k].interval)
  {
    RunKeepsInv(states, events, k);
    assert Timely(states[k].consoles[states[k].file.value.id], states[k].now, states[k].interval);
  }

  // ---- one heartbeat interval ----

  /** Console `a` serves at every state from `i` to `j`. */
  ghost predicate ServesThrough(states: seq<State>, a: string, i: nat, j: nat)
    requires i <= j < |states|
  {
    forall m :: i <= m <= j ==> IsServing(states[m], a)
  }

  /** The lease file names a console other than `a`. */
  predicate NamesOther(s: State, a: string) {
    s.file.Some? && s.file.value.id != a
  }

  /** A console that serves past its deadline has beaten at that deadline. */
  lemma {:induction false} BeatsAtDeadline(states: seq<State>, events: seq<Event>, a: string, i: nat, j: nat)
    returns (k: nat)
    requires IsRun(states, events) && i <= j < |states|
    requires ServesThrough(states, a, i, j)
    requires states[j].now > states[i].consoles[a].phase.next
    ensures i <= k < j && StepAt(states, events, k) && events[k] == Beat(a)
    ensures !NamesOther(states[k], a)
    ensures states[k].now == states[i].consoles[a].phase.next
    decreases j - i
  {
    RunKeepsInv(states, events, i);
    assert Timely(states[i].consoles[a], states[i].now, states[i].interval);
    assert i < j;
    assert StepAt(states, events, i);
    assert IsServing(states[i + 1], a);
    if events[i] == Beat(a) {
      k := i;
    } else {
      assert states[i + 1].consoles[a] == states[i].consoles[a];
      k := BeatsAtDeadline(states, events, a, i + 1, j);
    }
  }

  /** The deadline of a serving console is at most one interval away. */
  lemma DeadlineWithinInterval(states: seq<State>, events: seq<Event>, a: string, i: nat)
    requires IsRun(states, events) && i < |states| && IsServing(states[i], a)
    ensures states[i].now <= states[i].consoles[a].phase.next <= states[i].now + states[0].interval
  {
    RunKeepsInv(states, events, i);
    assert Timely(states[i].consoles[a], states[i].now, states[i].interval);
  }

  /** A console that serves while the file names someone else stops, or holds the lease again,
      within one interval: no such stretch of any run is longer. */
  lemma StrayServingEndsWithinInterval(states: seq<State>, events: seq<Event>, a: string, i: nat, j: nat)
    requires IsRun(states, events) && i <= j < |states|
    requires ServesThrough(states, a, i, j)
    requires forall m :: i <= m <= j ==> NamesOther(states[m], a)
    ensures states[j].now - states[i].now <= states[0].interval
  {
    assert IsServing(states[i], a);
    DeadlineWithinInterval(states, events, a, i);
    if states[j].now > states[i].consoles[a].phase.next {
      var k := BeatsAtDeadline(states, events, a, i, j);
    }
  }

  /** The console named by the file cannot write it before `since` plus one and a half intervals:
      it waits until then, or has stopped, or was never part of this deployment. */
  predicate Passive(s: State, id: string, since: real) {
    id in s.consoles ==>
      var p := s.consoles[id].phase;
      p.Stopped? || (p.Waiting? && p.until >= since + 1.5 * s.interval)
  }

  /** Since `since` the file has always named `keeper` or a console that took it and still waits. */
  predicate Guarded(s: State, keeper: Option<string>, since: real) {
    && s.file.Some?
    && s.file.value.heartbeat >= since
    && (keeper == Some(s.file.value.id) || Passive(s, s.file.value.id, since))
  }

  /** For one and a half intervals after a heartbeat at `since`, the file is never absent and never goes to a
      console that was already serving. */
  lemma StepKeepsGuarded(s: State, e: Event, keeper: Option<string>, since: real)
    requires Inv(s) && Enabled(s, e)
    requires Guarded(s, keeper, since)
    requires Apply(s, e).now < since + 1.5 * s.interval
    requires keeper.Some? ==> IsServing(s, keeper.value) && IsServing(Apply(s, e), keeper.value)
    ensures Guarded(Apply(s, e), keeper, since)
  {
    var s' := Apply(s, e);
    assert s.now <= s'.now;
    match e
    case Start(id, host) => AttemptKeepsGuarded(s, id, host, keeper, since);
    case Wake(id) => AttemptKeepsGuarded(s, id, s.consoles[id].host, keeper, since);
    case _ =>
  }

  lemma AttemptKeepsGuarded(s: State, id: string, host: string, keeper: Option<string>, since: real)
    requires Inv(s) && Guarded(s, keeper, since) && s.now < since + 1.5 * s.interval
    requires s.file.value.id != id && keeper != Some(id)
    requires since <= s.now
    ensures Guarded(Attempt(s, id, host), keeper, since)
  {
  }

  lemma {:induction false} WindowStaysGuarded(
      states: seq<State>, events: seq<Event>, keeper: Option<string>, since: real, i: nat, j: nat)
    requires IsRun(states, events) && i <= j < |states|
    requires Guarded(states[i], keeper, since)
    requires states[j].now < since + 1.5 * states[0].interval
    requires keeper.Some? ==> ServesThrough(states, keeper.value, i, j)
    ensures Guarded(states[j], keeper, since)
    decreases j
  {
    if i < j {
      RunKeepsInv(states, events, j - 1);
      ClockIsMonotone(states, events, j - 1, j);
      assert StepAt(states, events, j - 1);
      WindowStaysGuarded(states, events, keeper, since, i, j - 1);
      StepKeepsGuarded(states[j - 1], events[j - 1], keeper, since);
    }
  }

  /** Once `a` has renewed, no console that serves beside it renews within the next interval. */
  lemma SecondBeatIsLost(states: seq<State>, events: seq<Event>, a: string, b: string, ka: nat, kb: nat)
    requires IsRun(states, events) && ka < kb < |events| && a != b
    requires events[ka] == Beat(a) && events[kb] == Beat(b)
    requires ServesThrough(states, a, ka, kb + 1) && IsServing(states[kb], b)
    requires states[kb].now <= states[ka].now + states[0].interval
    ensures !IsServing(states[kb + 1], b)
  {
    RunKeepsInv(states, events, ka);
    assert StepAt(states, events, ka) && StepAt(states, events, kb);
    assert IsServing(states[ka + 1], a);
    assert Guarded(states[ka + 1], Some(a), states[ka].now);
    assert states[kb + 1].now == states[kb].now;
    WindowStaysGuarded(states, events, Some(a), states[ka].now, ka + 1, kb);
  }

  /** The promise of the protocol's header: two consoles never run together for more than one
      heartbeat interval, whatever any number of other consoles do. */
  lemma TwoServeTogetherAtMostOneInterval(states: seq<State>, events: seq<Event>, a: string, b: string, i: nat, j: nat)
    requires IsRun(states, events) && i <= j < |states| && a != b
    requires ServesThrough(states, a, i, j) && ServesThrough(states, b, i, j)
    ensures states[j].now - states[i].now <= states[0].interval
  {
    assert IsServing(states[i], a) && IsServing(states[i], b);
    DeadlineWithinInterval(states, events, a, i);
    DeadlineWithinInterval(states, events, b, i);
    if states[j].now > states[i].now + states[0].interval {
      var ka := BeatsAtDeadline(states, events, a, i, j);
      var kb := BeatsAtDeadline(states, events, b, i, j);
      if ka < kb {
        ClockIsMonotone(states, events, i, ka);
        SecondBeatIsLost(states, events, a, b, ka, kb);
      } else {
        ClockIsMonotone(states, events, i, kb);
        SecondBeatIsLost(states, events, b, a, kb, ka);
      }
    }
  }

  lemma {:induction false} ClockIsMonotone(states: seq<State>, events: seq<Event>, i: nat, j: nat)
    requires IsRun(states, events) && i <= j < |states|
    ensures states[i].now <= states[j].now
    decreases j
  {
    if i < j {
      ClockIsMonotone(states, events, i, j - 1);
      assert StepAt(states, events, j - 1);
    }
  }

  // ---- taking over from a live holder ----

  /** At step `i` console `b` takes the lease. */
  predicate Takes(states: seq<State>, events: seq<Event>, i: nat, b: string)
    requires i < |events| < |states|
  {
    && (events[i] == Wake(b) || (events[i].Start? && events[i].id == b))
    && states[i + 1].file.Some? && states[i + 1].file.value.id == b
  }

  /** It takes it from a live holder and starts its wait. */
  predicate TakesOver(states: seq<State>, events: seq<Event>, i: nat, b: string)
    requires i < |events| < |states|
  {
    Takes(states, events, i, b) && Alive(states[i].file, b, states[i].now, states[i].interval)
  }

  lemma TakeOverStartsGuard(states: seq<State>, events: seq<Event>, i: nat, b: string)
    requires IsRun(states, events) && i < |events| && TakesOver(states, events, i, b)
    ensures Guarded(states[i + 1], None, states[i].now)
    ensures states[i + 1].now == states[i].now
    ensures b in states[i + 1].consoles
    ensures states[i + 1].consoles[b].phase == Waiting(states[i].now + 1.5 * states[0].interval)
    ensures forall id :: id != b ==> IsServing(states[i + 1], id) == IsServing(states[i], id)
  {
    RunKeepsInv(states, events, i);
    assert StepAt(states, events, i);
  }

  /** A console serving when a live holder is displaced serves no longer than one interval. */
  lemma DisplacedServesAtMostOneInterval(states: seq<State>, events: seq<Event>, i: nat, b: string, c: string, j: nat)
    requires IsRun(states, events) && i < |events| && TakesOver(states, events, i, b)
    requires i < j < |states| && b != c
    requires ServesThrough(states, c, i, j)
    ensures states[j].now <= states[i].now + states[0].interval
  {
    TakeOverStartsGuard(states, events, i, b);
    assert IsServing(states[i + 1], c);
    DeadlineWithinInterval(states, events, c, i + 1);
    if states[j].now > states[i].now + states[0].interval {
      var k := BeatsAtDeadline(states, events, c, i + 1, j);
      WindowStaysGuarded(states, events, None, states[i].now, i + 1, k);
      RunKeepsInv(states, events, k);
    }
  }

  /** A console that served, then did not, never serves again: its id is used once. */
  lemma {:induction false} ServingNeverReturns(states: seq<State>, events: seq<Event>, c: string, i: nat, j: nat)
    requires IsRun(states, events) && i <= j < |states|
    requires c in states[i].consoles
    requires !states[i].consoles[c].phase.Standby? && !states[i].consoles[c].phase.Waiting?
    ensures c in states[j].consoles
    ensures !states[j].consoles[c].phase.Standby? && !states[j].consoles[c].phase.Waiting?
    ensures !IsServing(states[i], c) ==> !IsServing(states[j], c)
    decreases j
  {
    if i < j {
      ServingNeverReturns(states, events, c, i, j - 1);
      assert StepAt(states, events, j - 1);
    }
  }

  lemma ServesAllAlong(states: seq<State>, events: seq<Event>, c: string, i: nat, j: nat)
    requires IsRun(states, events) && i <= j < |states|
    requires IsServing(states[i], c) && IsServing(states[j], c)
    ensures ServesThrough(states, c, i, j)
  {
    forall m | i <= m <= j ensures IsServing(states[m], c) {
      ServingNeverReturns(states, events, c, i, m);
      ServingNeverReturns(states, events, c, m, j);
    }
  }

  /** A console that waits cannot serve before its wait is over. */
  lemma {:induction false} WaitLastsToItsEnd(states: seq<State>, events: seq<Event>, b: string, i: nat, j: nat)
    requires IsRun(states, events) && i <= j < |states|
    requires b in states[i].consoles && states[i].consoles[b].phase.Waiting?
    ensures b in states[j].consoles && !states[j].consoles[b].phase.Standby?
    ensures states[j].consoles[b].phase.Waiting? ==> states[j].consoles[b].phase == states[i].consoles[b].phase
    ensures IsServing(states[j], b) ==> states[j].now >= states[i].consoles[b].phase.until
    decreases j
  {
    if i < j {
      WaitLastsToItsEnd(states, events, b, i, j - 1);
      ClockIsMonotone(states, events, j - 1, j);
      assert StepAt(states, events, j - 1);
    }
  }

  /** When a console that took over starts to serve, every console that was serving when it took
      the lease has stopped. It need not have kept the lease through its wait. */
  lemma OldWritersStopBeforeNewOneServes(states: seq<State>, events: seq<Event>, i: nat, b: string, c: string, j: nat)
    requires IsRun(states, events) && i < |events| && TakesOver(states, events, i, b)
    requires i < j < |states| && IsServing(states[j], b)
    requires b != c && IsServing(states[i], c)
    ensures c in states[j].consoles && (states[j].consoles[c].phase.Stopped? || states[j].consoles[c].phase.Draining?)
  {
    RunKeepsInv(states, events, i);
    TakeOverStartsGuard(states, events, i, b);
    WaitLastsToItsEnd(states, events, b, i + 1, j);
    ServingNeverReturns(states, events, c, i, j);
    if IsServing(states[j], c) {
      ServesAllAlong(states, events, c, i, j);
      DisplacedServesAtMostOneInterval(states, events, i, b, c, j);
    }
  }

  /** Neither serving nor able to before one and a half intervals after `since`. */
  predicate CannotServe(s: State, id: string, since: real) {
    id in s.consoles ==>
      var p := s.consoles[id].phase;
      !p.Serving? && (p.Waiting? ==> p.until >= since + 1.5 * s.interval)
  }

  lemma {:induction false} NoNewServerInWindow(
      states: seq<State>, events: seq<Event>, since: real, c: string, i: nat, j: nat)
    requires IsRun(states, events) && i <= j < |states|
    requires Guarded(states[i], None, since) && CannotServe(states[i], c, since)
    requires states[j].now < since + 1.5 * states[0].interval
    ensures CannotServe(states[j], c, since)
    decreases j
  {
    if i < j {
      ClockIsMonotone(states, events, j - 1, j);
      NoNewServerInWindow(states, events, since, c, i, j - 1);
      WindowStaysGuarded(states, events, None, since, i, j - 1);
      RunKeepsInv(states, events, j - 1);
      assert StepAt(states, events, j - 1);
      StepKeepsCannotServe(states[j - 1], events[j - 1], c, since);
    }
  }

  lemma StepKeepsCannotServe(s: State, e: Event, c: string, since: real)
    requires Inv(s) && Enabled(s, e)
    requires Guarded(s, None, since) && CannotServe(s, c, since)
    requires s.now < since + 1.5 * s.interval
    ensures CannotServe(Apply(s, e), c, since)
  {
  }

  /** Console `c` waits, at this moment, out a hand-over of its own. */
  predicate IsWaiting(s: State, c: string) {
    c in s.consoles && s.consoles[c].phase.Waiting?
  }

  /** A console that waited and serves began to serve when its wait was over. */
  lemma {:induction false} WaitEnds(states: seq<State>, events: seq<Event>, c: string, i: nat, j: nat) returns (m: nat)
    requires IsRun(states, events) && i <= j < |states|
    requires IsWaiting(states[i], c) && IsServing(states[j], c)
    ensures i < m <= j && states[m].now == states[i].consoles[c].phase.until
    ensures IsServing(states[m], c)
    ensures states[m].consoles[c].phase.next == states[i].consoles[c].phase.until + states[0].interval
    decreases j - i
  {
    RunKeepsInv(states, events, i);
    assert StepAt(states, events, i);
    if events[i] == WaitOver(c) {
      m := i + 1;
    } else {
      WaitLastsToItsEnd(states, events, c, i, i + 1);
      WaiterMustWaitOn(states, events, c, i, j);
      m := WaitEnds(states, events, c, i + 1, j);
    }
  }

  lemma WaiterMustWaitOn(states: seq<State>, events: seq<Event>, c: string, i: nat, j: nat)
    requires IsRun(states, events) && i < j < |states|
    requires IsWaiting(states[i], c) && IsServing(states[j], c) && events[i] != WaitOver(c)
    ensures IsWaiting(states[i + 1], c)
  {
    assert StepAt(states, events, i);
    if !IsWaiting(states[i + 1], c) {
      ServingNeverReturns(states, events, c, i + 1, j);
    }
  }

  /** Until one and a half intervals after the take, the only consoles to serve are those that served at the
      take and have not been asked to renew since, and those whose own wait was on and ended since, at most
      one interval ago. */
  lemma OnlyOldConsolesServe(states: seq<State>, events: seq<Event>, i: nat, b: string, c: string, j: nat)
    requires IsRun(states, events) && i < |events| && TakesOver(states, events, i, b)
    requires i < j < |states| && IsServing(states[j], c)
    requires states[j].now < states[i].now + 1.5 * states[0].interval
    ensures IsServing(states[i], c) || IsWaiting(states[i], c)
    ensures IsServing(states[i], c) ==> states[j].now <= states[i].consoles[c].phase.next
    ensures IsWaiting(states[i], c) ==>
              var until := states[i].consoles[c].phase.until;
              until <= states[j].now <= until + states[0].interval
  {
    TakeOverStartsGuard(states, events, i, b);
    RunKeepsInv(states, events, i + 1);
    assert StepAt(states, events, i);
    if c == b {
      WaitLastsToItsEnd(states, events, b, i + 1, j);
    } else if IsServing(states[i], c) {
      ServesAllAlong(states, events, c, i + 1, j);
      LostInGuardedWindow(states, events, i, b, c, i + 1, j);
    } else if !IsWaiting(states[i], c) {
      NoNewServerInWindow(states, events, states[i].now, c, i + 1, j);
    } else {
      var m := WaitEnds(states, events, c, i, j);
      ClockIsMonotone(states, events, m, j);
      ServesAllAlong(states, events, c, m, j);
      LostInGuardedWindow(states, events, i, b, c, m, j);
    }
  }

  /** No deadline of a console other than the one that took over passes in the guarded window. */
  lemma LostInGuardedWindow(states: seq<State>, events: seq<Event>, i: nat, b: string, c: string, m: nat, j: nat)
    requires IsRun(states, events) && i < |events| && TakesOver(states, events, i, b)
    requires i < m <= j < |states| && ServesThrough(states, c, m, j)
    requires states[j].now < states[i].now + 1.5 * states[0].interval
    ensures states[j].now <= states[m].consoles[c].phase.next
  {
    assert IsServing(states[m], c);
    if states[j].now > states[m].consoles[c].phase.next {
      TakeOverStartsGuard(states, events, i, b);
      var k := BeatsAtDeadline(states, events, c, m, j);
      ClockIsMonotone(states, events, k, j);
      WindowStaysGuarded(states, events, None, states[i].now, i + 1, k);
      RunKeepsInv(states, events, k);
    }
  }

  /** From `i` to `j`, `c` neither shuts down nor crashes. */
  ghost predicate KeepsRunning(events: seq<Event>, c: string, i: nat, j: nat)
    requires i <= j <= |events|
  {
    forall m :: i <= m < j ==> events[m] != Drain(c) && events[m] != Crash(c)
  }

  /** And they do serve: a console that keeps running serves for one interval from the end of its wait. */
  lemma {:induction false} WaiterServesItsInterval(states: seq<State>, events: seq<Event>, c: string, i: nat, j: nat)
    requires IsRun(states, events) && i <= j < |states|
    requires IsWaiting(states[i], c) && KeepsRunning(events, c, i, j)
    requires states[j].now < states[i].consoles[c].phase.until + states[0].interval
    ensures IsWaiting(states[j], c) || IsServing(states[j], c)
    ensures IsWaiting(states[j], c) ==> states[j].now <= states[i].consoles[c].phase.until
    ensures IsWaiting(states[j], c) ==> states[j].consoles[c].phase == states[i].consoles[c].phase
    ensures IsServing(states[j], c) ==>
              states[j].consoles[c].phase.next == states[i].consoles[c].phase.until + states[0].interval
    decreases j
  {
    RunKeepsInv(states, events, j);
    if i < j {
      ClockIsMonotone(states, events, j - 1, j);
      WaiterServesItsInterval(states, events, c, i, j - 1);
      RunKeepsInv(states, events, j - 1);
      assert StepAt(states, events, j - 1);
    }
    if IsWaiting(states[j], c) {
      assert Timely(states[j].consoles[c], states[j].now, states[j].interval);
    }
  }

  /** And a console that keeps running serves up to its deadline. */
  lemma {:induction false} ServesToItsDeadline(states: seq<State>, events: seq<Event>, c: string, i: nat, j: nat)
    requires IsRun(states, events) && i <= j < |states|
    requires IsServing(states[i], c) && KeepsRunning(events, c, i, j)
    requires states[j].now < states[i].consoles[c].phase.next
    ensures IsServing(states[j], c) && states[j].consoles[c].phase == states[i].consoles[c].phase
    decreases j
  {
    if i < j {
      ClockIsMonotone(states, events, j - 1, j);
      ServesToItsDeadline(states, events, c, i, j - 1);
      assert StepAt(states, events, j - 1);
    }
  }

  /** At time `t` console `c`, as it is in `s`, will be serving and not yet have been asked to renew. */
  predicate CoversAt(s: State, c: string, t: real) {
    || (IsServing(s, c) && t < s.consoles[c].phase.next)
    || (IsWaiting(s, c) && s.consoles[c].phase.until < t < s.consoles[c].phase.until + s.interval)
  }

  /** `t` is no moment at which, as things are in `s`, a wait ends or a renewal is due. */
  predicate AwayFromDeadlines(s: State, t: real) {
    forall c :: c in s.consoles ==>
      match s.consoles[c].phase
      case Serving(next) => t != next
      case Waiting(until) => t != until && t != until + s.interval
      case _ => true
  }

  /** The other half of the hand-over, which the header denies: at any time before the new console's wait is
      over, some console serves exactly when one does that served at the take and is not yet due to renew,
      or that was mid-wait and has come out since. Where there is none, no console can serve. */
  lemma HandOverLeavesAGap(states: seq<State>, events: seq<Event>, i: nat, b: string, j: nat)
    requires IsRun(states, events) && i < |events| && TakesOver(states, events, i, b)
    requires i < j < |states| && states[j].now < states[i].now + 1.5 * states[0].interval
    requires AwayFromDeadlines(states[i], states[j].now)
    requires forall c :: IsLive(states[i], c) ==> KeepsRunning(events, c, i, j)
    ensures (exists c :: IsServing(states[j], c)) <==> exists c :: CoversAt(states[i], c, states[j].now)
  {
    RunKeepsInv(states, events, i);
    if c :| IsServing(states[j], c) {
      OnlyOldConsolesServe(states, events, i, b, c, j);
      assert CoversAt(states[i], c, states[j].now);
    }
    if c :| CoversAt(states[i], c, states[j].now) {
      assert IsLive(states[i], c);
      if IsServing(states[i], c) {
        ServesToItsDeadline(states, events, c, i, j);
      } else {
        WaiterServesItsInterval(states, events, c, i, j);
      }
      assert IsServing(states[j], c);
    }
  }

  /** In particular, between one interval after the take and one and a half, only consoles serve whose own
      wait was on at the take. */
  lemma OnlyOldWaitersServeInGap(states: seq<State>, events: seq<Event>, i: nat, b: string, c: string, j: nat)
    requires IsRun(states, events) && i < |events| && TakesOver(states, events, i, b)
    requires i < j < |states| && IsServing(states[j], c)
    requires states[i].now + states[0].interval < states[j].now < states[i].now + 1.5 * states[0].interval
    ensures IsWaiting(states[i], c)
    ensures states[i].consoles[c].phase.until <= states[j].now <= states[i].consoles[c].phase.until + states[0].interval
  {
    OnlyOldConsolesServe(states, events, i, b, c, j);
    if IsServing(states[i], c) {
      DeadlineWithinInterval(states, events, c, i);
    }
  }

  /** Four consoles with hosts of their own: `a` displaces `p`, `c` displaces `a`, and `b` displaces `c`
      while `a` serves and `c` waits. */
  function FourConsoles(p: string, a: string, c: string, b: string): (events: seq<Event>)
    ensures |events| == 15
  {
    [ Start(p, p), Start(a, a), Tick(2.0), Beat(p), Start(c, c), Tick(0.5), Tick(0.5), WaitOver(a), Tick(1.0),
      Start(b, b), Tick(1.0), WaitOver(c), Beat(a), Tick(2.0), WaitOver(b) ]
  }

  /** The states of that run, at a heartbeat interval of two. */
  function FourConsoleStates(p: string, a: string, c: string, b: string): (states: seq<State>)
    ensures |states| == 16
  {
    var byA, byC, byB := Some(Holder(a, 2, a, 0.0, p)), Some(Holder(c, 3, c, 2.0, a)), Some(Holder(b, 4, b, 4.0, c));
    var pOn, pOff := Console(p, 1, "", Serving(2.0)), Console(p, 1, "", Stopped);
    var aWait, aOn, aOff := Console(a, 2, p, Waiting(3.0)), Console(a, 2, p, Serving(5.0)), Console(a, 2, p, Stopped);
    var cWait, cOn := Console(c, 3, a, Waiting(5.0)), Console(c, 3, a, Serving(7.0));
    var bWait, bOn := Console(b, 4, c, Waiting(7.0)), Console(b, 4, c, Serving(9.0));
    [ State(2.0, 0.0, None, map[]),
      State(2.0, 0.0, Some(Holder(p, 1, p, 0.0, "")), map[p := pOn]),
      State(2.0, 0.0, byA, map[p := pOn, a := aWait]),
      State(2.0, 2.0, byA, map[p := pOn, a := aWait]),
      State(2.0, 2.0, byA, map[p := pOff, a := aWait]),
      State(2.0, 2.0, byC, map[p := pOff, a := aWait, c := cWait]),
      State(2.0, 2.5, byC, map[p := pOff, a := aWait, c := cWait]),
      State(2.0, 3.0, byC, map[p := pOff, a := aWait, c := cWait]),
      State(2.0, 3.0, byC, map[p := pOff, a := aOn, c := cWait]),
      State(2.0, 4.0, byC, map[p := pOff, a := aOn, c := cWait]),
      State(2.0, 4.0, byB, map[p := pOff, a := aOn, c := cWait, b := bWait]),
      State(2.0, 5.0, byB, map[p := pOff, a := aOn, c := cWait, b := bWait]),
      State(2.0, 5.0, byB, map[p := pOff, a := aOn, c := cOn, b := bWait]),
      State(2.0, 5.0, byB, map[p := pOff, a := aOff, c := cOn, b := bWait]),
      State(2.0, 7.0, byB, map[p := pOff, a := aOff, c := cOn, b := bWait]),
      State(2.0, 7.0, byB, map[p := pOff, a := aOff, c := cOn, b := bOn]) ]
  }

  predicate FourDistinct(p: string, a: string, c: string, b: string) {
    && p != "" && a != "" && c != "" && b != ""
    && p != a && p != c && p != b && a != c && a != b && c != b
  }

  lemma StepsToFirstTakeOver(p: string, a: string, c: string, b: string, k: nat)
    requires FourDistinct(p, a, c, b) && k < 2
    ensures StepAt(FourConsoleStates(p, a, c, b), FourConsoles(p, a, c, b), k)
  {
  }

  lemma StepsToFirstStop(p: string, a: string, c: string, b: string, k: nat)
    requires FourDistinct(p, a, c, b) && 2 <= k < 5
    ensures StepAt(FourConsoleStates(p, a, c, b), FourConsoles(p, a, c, b), k)
  {
  }

  lemma StepsToFirstService(p: string, a: string, c: string, b: string, k: nat)
    requires FourDistinct(p, a, c, b) && 5 <= k < 9
    ensures StepAt(FourConsoleStates(p, a, c, b), FourConsoles(p, a, c, b), k)
  {
  }

  lemma StepsToSecondTakeOver(p: string, a: string, c: string, b: string, k: nat)
    requires FourDistinct(p, a, c, b) && 9 <= k < 12
    ensures StepAt(FourConsoleStates(p, a, c, b), FourConsoles(p, a, c, b), k)
  {
  }

  lemma StepsToSecondService(p: string, a: string, c: string, b: string, k: nat)
    requires FourDistinct(p, a, c, b) && 12 <= k < 15
    ensures StepAt(FourConsoleStates(p, a, c, b), FourConsoles(p, a, c, b), k)
  {
  }

  ghost predicate SomeoneServes(s: State) {
    exists c :: IsServing(s, c)
  }

  /** Both kinds of hand-over occur, from an empty deployment: in the one by `a` a moment comes when no
      console serves; in the one by `b` none does, because `c` comes out of its wait. */
  lemma HandOversWithAndWithoutAGap(p: string, a: string, c: string, b: string)
    requires FourDistinct(p, a, c, b)
    ensures var states, events := FourConsoleStates(p, a, c, b), FourConsoles(p, a, c, b);
            && IsRun(states, events) && Initial(states[0])
            && TakesOver(states, events, 1, a) && !SomeoneServes(states[6]) && IsServing(states[8], a)
            && TakesOver(states, events, 9, b) && IsServing(states[15], b)
            && forall m :: 9 <= m <= 15 ==> SomeoneServes(states[m])
  {
    var states, events := FourConsoleStates(p, a, c, b), FourConsoles(p, a, c, b);
    forall k | 0 <= k < |events| ensures StepAt(states, events, k) {
      if k < 2 {
        StepsToFirstTakeOver(p, a, c, b, k);
      } else if k < 5 {
        StepsToFirstStop(p, a, c, b, k);
      } else if k < 9 {
        StepsToFirstService(p, a, c, b, k);
      } else if k < 12 {
        StepsToSecondTakeOver(p, a, c, b, k);
      } else {
        StepsToSecondService(p, a, c, b, k);
      }
    }
    RunFromStart(states, events);
    forall m | 9 <= m <= 15 ensures SomeoneServes(states[m]) {
      assert IsServing(states[m], if m < 12 then a else c);
    }
  }

  // ---- last start wins ----

  /** The step is no attempt to take the lease, or one that ends in standing by. */
  predicate TakesNothing(s: State, e: Event) {
    match e
    case Start(id, host) => HeldBack(s.file, id, host, s.now, s.interval)
    case Wake(id) => id in s.consoles && HeldBack(s.file, id, s.consoles[id].host, s.now, s.interval)
    case _ => true
  }

  /** After step `i` and up to `j` no console takes the lease, and `b` keeps running. */
  ghost predicate Unchallenged(states: seq<State>, events: seq<Event>, b: string, i: nat, j: nat)
    requires i < j <= |events| < |states|
  {
    forall m :: i < m < j ==> TakesNothing(states[m], events[m]) && events[m] != Drain(b) && events[m] != Crash(b)
  }

  lemma {:induction false} LastTakerHolds(states: seq<State>, events: seq<Event>, i: nat, b: string, j: nat)
    requires IsRun(states, events) && i < |events| && Takes(states, events, i, b)
    requires i < j < |states| && Unchallenged(states, events, b, i, j)
    ensures states[j].file.Some? && states[j].file.value.id == b && IsLive(states[j], b)
    decreases j
  {
    RunKeepsInv(states, events, j - 1);
    assert StepAt(states, events, j - 1);
    if i + 1 < j {
      LastTakerHolds(states, events, i, b, j - 1);
    }
  }

  /** Without a take a console that is not waiting or serving comes to neither. */
  lemma {:induction false} OutsiderStaysOut(
      states: seq<State>, events: seq<Event>, i: nat, b: string, c: string, j: nat)
    requires IsRun(states, events) && i < j < |states| && Unchallenged(states, events, b, i, j)
    requires !IsLive(states[i + 1], c)
    ensures !IsLive(states[j], c)
    decreases j
  {
    if i + 1 < j {
      OutsiderStaysOut(states, events, i, b, c, j - 1);
      assert StepAt(states, events, j - 1);
    }
  }

  /** A console that serves while `b` keeps the lease does not serve past its deadline. */
  lemma LastTakerOutlasts(states: seq<State>, events: seq<Event>, i: nat, b: string, c: string, m: nat, j: nat)
    requires IsRun(states, events) && i < |events| && Takes(states, events, i, b) && b != c
    requires i < m <= j < |states| && Unchallenged(states, events, b, i, j)
    requires IsServing(states[m], c) && IsServing(states[j], c)
    ensures states[j].now <= states[m].consoles[c].phase.next
  {
    if states[j].now > states[m].consoles[c].phase.next {
      ServesAllAlong(states, events, c, m, j);
      var k := BeatsAtDeadline(states, events, c, m, j);
      LastTakerHolds(states, events, i, b, k);
    }
  }

  /** Last start wins: a console that takes the lease, and after which no other takes it, holds it for
      as long as it runs, however many stand by; after its wait it serves, and one interval later no other
      does. */
  lemma LastStartWins(states: seq<State>, events: seq<Event>, i: nat, b: string, c: string, j: nat)
    requires IsRun(states, events) && i < |events| && Takes(states, events, i, b) && b != c
    requires i < j < |states| && Unchallenged(states, events, b, i, j)
    ensures states[j].file.Some? && states[j].file.value.id == b && IsLive(states[j], b)
    ensures states[j].now > states[i].now + 1.5 * states[0].interval ==> IsServing(states[j], b)
    ensures states[j].now > states[i].now + 2.5 * states[0].interval ==> !IsServing(states[j], c)
  {
    LastTakerHolds(states, events, i, b, j);
    LastTakerServes(states, events, i, b, j);
    if IsServing(states[j], c) {
      RunKeepsInv(states, events, i + 1);
      assert StepAt(states, events, i);
      if !IsLive(states[i + 1], c) {
        OutsiderStaysOut(states, events, i, b, c, j);
      } else if IsServing(states[i + 1], c) {
        DeadlineWithinInterval(states, events, c, i + 1);
        LastTakerOutlasts(states, events, i, b, c, i + 1, j);
      } else {
        assert Timely(states[i + 1].consoles[c], states[i + 1].now, states[i + 1].interval);
        var m := WaitEnds(states, events, c, i + 1, j);
        LastTakerOutlasts(states, events, i, b, c, m, j);
      }
    }
  }

  lemma LastTakerServes(states: seq<State>, events: seq<Event>, i: nat, b: string, j: nat)
    requires IsRun(states, events) && i < |events| && Takes(states, events, i, b)
    requires i < j < |states| && Unchallenged(states, events, b, i, j) && IsLive(states[j], b)
    ensures states[j].now > states[i].now + 1.5 * states[0].interval ==> IsServing(states[j], b)
  {
    RunKeepsInv(states, events, i);
    RunKeepsInv(states, events, j);
    assert StepAt(states, events, i);
    if IsWaiting(states[i + 1], b) {
      WaitLastsToItsEnd(states, events, b, i + 1, j);
      assert Timely(states[j].consoles[b], states[j].now, states[j].interval);
    } else {
      ServingNeverReturns(states, events, b, i + 1, j);
    }
  }

  // ---- standing by ----

  /** The host whose console `e` attempts to take the lease, if it is such a step. */
  function AttemptingHost(s: State, e: Event): Option<string> {
    match e
    case Start(_, host) => Some(host)
    case Wake(id) => if id in s.consoles then Some(s.consoles[id].host) else None
    case _ => None
  }

  /** The holder `b` lives and its mark names `host`. */
  predicate Displacing(s: State, b: string, host: string) {
    && s.file.Some? && s.file.value.id == b && s.file.value.displaced == host
    && IsLive(s, b)
  }

  /** From `i` to `j`, `b` neither shuts down nor crashes, and only consoles of `host` try to start. */
  ghost predicate OnlyHostRestarts(states: seq<State>, events: seq<Event>, b: string, host: string, i: nat, j: nat)
    requires i <= j <= |events| < |states|
  {
    forall m :: i <= m < j ==>
      && events[m] != Drain(b) && events[m] != Crash(b)
      && AttemptingHost(states[m], events[m]) in {None, Some(host)}
  }

  /** Exactly what keeps the mark: the holder goes on, and only consoles of the displaced host attempt to
      take the lease; these stand by. */
  lemma StepKeepsDisplacing(s: State, e: Event, b: string, host: string)
    requires Inv(s) && Enabled(s, e) && Displacing(s, b, host)
    ensures Displacing(Apply(s, e), b, host) <==>
              e != Drain(b) && e != Crash(b) && AttemptingHost(s, e) in {None, Some(host)}
    ensures AttemptingHost(s, e) == Some(host) ==>
              Apply(s, e).file == s.file && Apply(s, e).consoles[e.id].phase == Standby(s.now + s.interval)
  {
    assert Timely(s.consoles[b], s.now, s.interval);
  }

  /** From `i` to `j` the holder lives and keeps its mark. */
  ghost predicate DisplacingThrough(states: seq<State>, b: string, host: string, i: nat, j: nat)
    requires i <= j < |states|
  {
    forall m :: i <= m <= j ==> Displacing(states[m], b, host)
  }

  /** When the lease cannot swing back: the holder keeps the lease and its mark through a stretch of a run
      exactly when it neither shuts down nor crashes in it and no console of another host than the
      displaced one attempts to take it. */
  lemma {:induction false} LeaseCannotSwingBack(
      states: seq<State>, events: seq<Event>, b: string, host: string, i: nat, j: nat)
    requires IsRun(states, events) && i <= j < |states| && Displacing(states[i], b, host)
    ensures DisplacingThrough(states, b, host, i, j) <==> OnlyHostRestarts(states, events, b, host, i, j)
    ensures OnlyHostRestarts(states, events, b, host, i, j) ==>
              states[j].file.Some? && states[j].file.value.generation == states[i].file.value.generation
    decreases j
  {
    if i < j {
      LeaseCannotSwingBack(states, events, b, host, i, j - 1);
      RunKeepsInv(states, events, j - 1);
      assert StepAt(states, events, j - 1);
      assert OnlyHostRestarts(states, events, b, host, i, j) ==> OnlyHostRestarts(states, events, b, host, i, j - 1);
      if DisplacingThrough(states, b, host, i, j - 1) {
        assert Displacing(states[j - 1], b, host);
        StepKeepsDisplacing(states[j - 1], events[j - 1], b, host);
        if Displacing(states[j], b, host) {
          StepKeepsGeneration(states[j - 1], events[j - 1], b, host);
        }
      }
    }
  }

  /** A renewal writes the generation its console took. */
  lemma StepKeepsGeneration(s: State, e: Event, b: string, host: string)
    requires Inv(s) && Enabled(s, e) && Displacing(s, b, host) && Displacing(Apply(s, e), b, host)
    ensures Apply(s, e).file.value.generation == s.file.value.generation
  {
  }

  /** What happens otherwise: a console of any other host, the holder's own or a third, erases the mark,
      and a console of the displaced host takes the lease back in its turn. */
  lemma OtherHostErasesMark(s: State, b: string, host: string, other: string, newId: string, backId: string)
    requires Inv(s) && Displacing(s, b, host) && host != "" && host != s.file.value.host
    requires other != host && Enabled(s, Start(newId, other))
    requires backId !in s.consoles && backId != newId && backId != b
    ensures var s1 := Apply(s, Start(newId, other));
            && s1.file.value.id == newId
            && s1.file.value.displaced == (if other == s.file.value.host then "" else s.file.value.host)
            && Enabled(s1, Start(backId, host))
            && Apply(s1, Start(backId, host)).file.value.id == backId
  {
    assert Timely(s.consoles[b], s.now, s.interval);
  }

  /** So does the holder's crash followed by its platform's restart of it. */
  lemma CrashAndRestartErasesMark(s: State, b: string, host: string, newId: string, backId: string)
    requires Inv(s) && Displacing(s, b, host) && host != "" && host != s.file.value.host
    requires newId !in s.consoles && newId != b && backId !in s.consoles && backId != newId && backId != b
    ensures var s1 := Apply(s, Crash(b));
            && Enabled(s1, Start(newId, s.file.value.host))
            && var s2 := Apply(s1, Start(newId, s.file.value.host));
               && s2.file.value.id == newId && s2.file.value.displaced == ""
               && Enabled(s2, Start(backId, host))
               && Apply(s2, Start(backId, host)).file.value.id == backId
  {
    assert Timely(s.consoles[b], s.now, s.interval);
  }

  // ---- renewal ----

  /** A beat keeps its console serving exactly if the file names no other, and then leaves the file naming it,
      renewed; a file that is gone is written anew, and another's is left alone. */
  lemma BeatKeepsExactly(s: State, b: string)
    requires Inv(s) && Enabled(s, Beat(b))
    ensures var s' := Apply(s, Beat(b));
            && (IsServing(s', b) <==> !NamesOther(s, b))
            && (NamesOther(s, b) ==> s'.file == s.file && s'.consoles[b].phase == Stopped)
            && (!NamesOther(s, b) ==>
                  && s'.file.Some? && s'.file.value.id == b && s'.file.value.heartbeat == s.now
                  && s'.consoles[b].phase == Serving(s.now + s.interval))
  {
  }

  // ---- release ----

  /** A release frees the lease if it is the console's own, and leaves any other alone. */
  lemma ReleaseFrees(s: State, b: string, c: string, host: string)
    requires Inv(s) && Enabled(s, Release(b)) && c !in s.consoles
    ensures var s1 := Apply(s, Release(b));
            && (NamesOther(s, b) ==> s1.file == s.file)
            && (!NamesOther(s, b) ==>
                  && s1.file == None && Enabled(s1, Start(c, host))
                  && var s2 := Apply(s1, Start(c, host));
                     IsServing(s2, c) && s2.file.value.id == c && s2.file.value.displaced == "")
  {
  }

  /** From `i` to `j` nobody writes the lease file. */
  ghost predicate NobodyWrites(events: seq<Event>, i: nat, j: nat)
    requires i <= j <= |events|
  {
    forall m :: i <= m < j ==> !events[m].Start? && !events[m].Wake? && !events[m].Beat?
  }

  /** So in any run, once the holder has released the lease, it stays free until some console writes it; and
      the first that starts, or wakes, serves at once and marks no host. */
  lemma {:induction false} ReleasedIsFree(states: seq<State>, events: seq<Event>, b: string, i: nat, j: nat)
    requires IsRun(states, events) && i < |events| && events[i] == Release(b) && !NamesOther(states[i], b)
    requires i < j < |states| && NobodyWrites(events, i + 1, j)
    ensures states[j].file == None
    ensures j < |events| && (events[j].Start? || events[j].Wake?) ==>
              && IsServing(states[j + 1], events[j].id)
              && states[j + 1].file.Some? && states[j + 1].file.value.displaced == ""
    decreases j
  {
    assert StepAt(states, events, j - 1);
    if i + 1 < j {
      ReleasedIsFree(states, events, b, i, j - 1);
    }
    if j < |events| {
      assert StepAt(states, events, j);
    }
  }

  // ---- standing by comes to an end ----

  predicate StandsBy(s: State, c: string) {
    c in s.consoles && s.consoles[c].phase.Standby?
  }

  /** What a console that stands by does at its wake: it takes the lease exactly when no live holder's mark
      names its host any more, and serves at once exactly when no live holder is there at all. */
  lemma WakeTakesExactly(s: State, c: string)
    requires Inv(s) && Enabled(s, Wake(c))
    ensures var h := s.consoles[c].host;
            && (StandsBy(Apply(s, Wake(c)), c) <==> HeldBack(s.file, c, h, s.now, s.interval))
            && (IsServing(Apply(s, Wake(c)), c) <==> !Alive(s.file, c, s.now, s.interval))
            && (!StandsBy(Apply(s, Wake(c)), c) ==>
                  Apply(s, Wake(c)).file == Some(Taken(s.file, c, h, s.now, s.interval)))
  {
  }

  /** A console that stands by, and does not crash, wakes in time, and until then its phase is left alone. */
  lemma {:induction false} WakesInTime(states: seq<State>, events: seq<Event>, c: string, i: nat, j: nat)
    returns (m: nat)
    requires IsRun(states, events) && i <= j < |states| && StandsBy(states[i], c)
    requires forall n :: i <= n < j ==> events[n] != Crash(c)
    requires states[j].now > states[i].consoles[c].phase.wake
    ensures i <= m < j && events[m] == Wake(c) && states[m].now == states[i].consoles[c].phase.wake
    ensures StandsBy(states[m], c) && states[m].consoles[c] == states[i].consoles[c]
    decreases j - i
  {
    RunKeepsInv(states, events, i);
    assert Timely(states[i].consoles[c], states[i].now, states[i].interval);
    assert i < j && StepAt(states, events, i);
    if events[i] == Wake(c) {
      m := i;
    } else {
      assert StandsBy(states[i + 1], c) && states[i + 1].consoles[c] == states[i].consoles[c];
      m := WakesInTime(states, events, c, i + 1, j);
    }
  }

  /** So in any run, once the clock has passed its wake, such a console has taken the lease then, exactly if
      no live holder's mark named its host, and has served from then, exactly if there was no live holder. */
  lemma StandbyIsDecidedAtWake(states: seq<State>, events: seq<Event>, c: string, i: nat, j: nat)
    returns (m: nat)
    requires IsRun(states, events) && i <= j < |states| && StandsBy(states[i], c)
    requires forall n :: i <= n < j ==> events[n] != Crash(c)
    requires states[j].now > states[i].consoles[c].phase.wake
    ensures i <= m < j && states[m].now == states[i].consoles[c].phase.wake <= states[i].now + states[0].interval
    ensures Takes(states, events, m, c) <==>
              !HeldBack(states[m].file, c, states[i].consoles[c].host, states[m].now, states[0].interval)
    ensures IsServing(states[m + 1], c) <==> !Alive(states[m].file, c, states[m].now, states[0].interval)
  {
    m := WakesInTime(states, events, c, i, j);
    RunKeepsInv(states, events, i);
    RunKeepsInv(states, events, m);
    assert Timely(states[i].consoles[c], states[i].now, states[i].interval);
    assert StepAt(states, events, m);
    WakeTakesExactly(states[m], c);
  }

  /** A console stands by only behind a heartbeat that is, at its next wake, at most four intervals old. */
  predicate StandbyFresh(s: State, c: string) {
    StandsBy(s, c) && s.file.Some? ==> s.file.value.heartbeat >= s.consoles[c].phase.wake - 4.0 * s.interval
  }

  lemma StepKeepsStandbyFresh(s: State, e: Event, c: string)
    requires Inv(s) && Enabled(s, e) && StandbyFresh(s, c)
    ensures StandbyFresh(Apply(s, e), c)
  {
    assert c in s.consoles ==> Timely(s.consoles[c], s.now, s.interval);
  }

  lemma {:induction false} StandbyStaysFresh(states: seq<State>, events: seq<Event>, c: string, k: nat)
    requires IsRun(states, events) && Initial(states[0]) && k < |states|
    ensures StandbyFresh(states[k], c)
  {
    if k > 0 {
      StandbyStaysFresh(states, events, c, k - 1);
      RunKeepsInv(states, events, k - 1);
      assert StepAt(states, events, k - 1);
      StepKeepsStandbyFresh(states[k - 1], events[k - 1], c);
    }
  }

  /** While the lease file is absent a console that stands by has not yet come to its wake. */
  lemma {:induction false} AbsentFileIsTaken(states: seq<State>, events: seq<Event>, c: string, i: nat, j: nat)
    requires IsRun(states, events) && i <= j < |states|
    requires forall m :: i <= m <= j ==> StandsBy(states[m], c) && states[m].file == None
    ensures StandsBy(states[i], c) && StandsBy(states[j], c)
    ensures states[j].consoles[c].phase == states[i].consoles[c].phase
    decreases j
  {
    if i < j {
      AbsentFileIsTaken(states, events, c, i, j - 1);
      assert StandsBy(states[j - 1], c) && StandsBy(states[j], c) && states[j].file == None;
      assert StepAt(states, events, j - 1);
    }
  }

  /** Standing by ends: as long as it lasts and nobody writes or removes the lease file, the clock is at most
      four intervals past the file's heartbeat, or one interval past the moment it was found absent. By
      then the console has taken the lease, or another has. */
  lemma StandbyEndsInTime(states: seq<State>, events: seq<Event>, c: string, i: nat, j: nat)
    requires IsRun(states, events) && Initial(states[0]) && i <= j < |states|
    requires forall m :: i <= m <= j ==> StandsBy(states[m], c) && states[m].file == states[i].file
    ensures states[i].file.Some? ==> states[j].now <= states[i].file.value.heartbeat + 4.0 * states[0].interval
    ensures states[i].file.None? ==> states[j].now <= states[i].now + states[0].interval
  {
    assert StandsBy(states[i], c) && StandsBy(states[j], c) && states[j].file == states[i].file;
    RunKeepsInv(states, events, i);
    RunKeepsInv(states, events, j);
    assert Timely(states[i].consoles[c], states[i].now, states[i].interval);
    assert Timely(states[j].consoles[c], states[j].now, states[j].interval);
    StandbyStaysFresh(states, events, c, j);
    if states[i].file.None? {
      AbsentFileIsTaken(states, events, c, i, j);
    }
  }
}
