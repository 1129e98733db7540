/** The job runner (web/api/app/runner.py): one queue and one worker per workspace. Whatever runs
    between two awaits is one step; a worker's phase says at which await it is. */
module Runner {
  import opened Common

  datatype Status = Queued | Running | Succeeded | Failed | Cancelled | TimedOut

  datatype Stage = Pending | Active | Passed | Broken | Stopped | Skipped

  /** Where a run is: in its queue, with its worker, or done with; `Lost` when its worker failed
      before it had begun, the one end that calls nobody back. */
  datatype Place = InQueue | AtWorker | Done | Lost

  datatype Run = Run(workspace: string, status: Status, chained: bool, stages: seq<Stage>, place: Place)

  /** The await a worker is at. */
  datatype Phase =
    | Idle
    | Preparing(run: string)
    | Logging(run: string, stage: nat)
    | Spawning(run: string, stage: nat)
    | Live(run: string, stage: nat)
    | Faulted(run: string)

  /** A workspace's queue and worker; `accepted` and `taken` are all runs ever put and got. */
  datatype Lane = Lane(queue: seq<string>, phase: Phase, accepted: seq<string>, taken: seq<string>)

  /** `fired` counts completion callbacks; `granted` are the runs for which `cancel` answered yes. */
  datatype State = State(
    depth: int,
    runs: map<string, Run>,
    lanes: map<string, Lane>,
    live: set<string>,
    cancelled: set<string>,
    callbacks: set<string>,
    fired: multiset<string>,
    granted: set<string>)

  datatype Event =
    | Submit(id: string, workspace: string, chained: bool, stageCount: nat, callback: bool)
    | Cancel(id: string)
    | Take(workspace: string)
    | Prepared(workspace: string)
    | PrepareFault(workspace: string)
    | Logged(workspace: string)
    | Spawned(workspace: string)
    | Exited(workspace: string, code: int)
    | Fault(workspace: string)
    | FaultLogged(workspace: string)

  // ---- pieces of the steps ----

  function StatusFor(id: string, code: int, cancelled: set<string>): Status {
    if id in cancelled then Cancelled
    else if code == 124 then TimedOut
    else if code == 0 then Succeeded
    else Failed
  }

  function NewStages(chained: bool, count: nat): seq<Stage> {
    if chained then seq(count, _ => Pending) else []
  }

  /** Fire the run's callback, once. */
  function Notify(s: State, id: string): State {
    if id in s.callbacks then s.(callbacks := s.callbacks - {id}, fired := s.fired + multiset{id}) else s
  }

  function SetStatus(s: State, id: string, status: Status): State
    requires id in s.runs
  {
    s.(runs := s.runs[id := s.runs[id].(status := status)])
  }

  function SetStages(s: State, id: string, stages: seq<Stage>): State
    requires id in s.runs
  {
    s.(runs := s.runs[id := s.runs[id].(stages := stages)])
  }

  function SetPhase(s: State, workspace: string, phase: Phase): State
    requires workspace in s.lanes
  {
    s.(lanes := s.lanes[workspace := s.lanes[workspace].(phase := phase)])
  }

  /** The end of `_execute`: forget the process and the cancellation, write the final status, call
      back, and let the worker take the next run. */
  function Finish(s: State, workspace: string, id: string, final: Status): State
    requires id in s.runs && workspace in s.lanes
  {
    var s1 := s.(live := s.live - {id}, cancelled := s.cancelled - {id},
                 runs := s.runs[id := s.runs[id].(status := final, place := Done)]);
    SetPhase(Notify(s1, id), workspace, Idle)
  }

  /** The head of the stage loop: the chain is over, or was cancelled, or goes on to stage `i`. */
  function ChainHead(s: State, workspace: string, id: string, i: nat): State
    requires id in s.runs && workspace in s.lanes
  {
    var stages := s.runs[id].stages;
    if i >= |stages| then Finish(s, workspace, id, StatusFor(id, 0, s.cancelled))
    else if id in s.cancelled then Finish(SetStages(s, id, stages[i := Stopped]), workspace, id, Cancelled)
    else SetPhase(s, workspace, Logging(id, i))
  }

  /** The stages after stage `i` has exited. */
  function AfterStage(stages: seq<Stage>, i: nat, code: int): seq<Stage>
    requires i < |stages|
  {
    if code == 0 then stages[i := Passed]
    else stages[..i] + [Broken] + seq(|stages| - i - 1, _ => Skipped)
  }

  function Full(depth: int, queue: seq<string>): bool {
    0 < depth <= |queue|
  }

  // ---- the steps ----

  predicate At(s: State, workspace: string) {
    workspace in s.lanes && (s.lanes[workspace].phase.Idle? || s.lanes[workspace].phase.run in s.runs)
  }

  predicate Enabled(s: State, e: Event) {
    match e
    case Submit(id, _, _, _, _) => id !in s.runs
    case Cancel(_) => true
    case Take(w) => At(s, w) && s.lanes[w].phase.Idle? && s.lanes[w].queue != [] && s.lanes[w].queue[0] in s.runs
    case Prepared(w) => At(s, w) && s.lanes[w].phase.Preparing?
    case PrepareFault(w) => At(s, w) && s.lanes[w].phase.Preparing?
    case Logged(w) =>
      && At(s, w) && s.lanes[w].phase.Logging?
      && s.lanes[w].phase.stage < |s.runs[s.lanes[w].phase.run].stages|
    case Spawned(w) => At(s, w) && s.lanes[w].phase.Spawning?
    case Exited(w, _) =>
      && At(s, w) && s.lanes[w].phase.Live?
      && (s.runs[s.lanes[w].phase.run].chained ==> s.lanes[w].phase.stage < |s.runs[s.lanes[w].phase.run].stages|)
    case Fault(w) =>
      At(s, w) && (s.lanes[w].phase.Logging? || s.lanes[w].phase.Spawning? || s.lanes[w].phase.Live?)
    case FaultLogged(w) => At(s, w) && s.lanes[w].phase.Faulted?
  }

  function Added(s: State, id: string, run: Run, callback: bool): State {
    s.(runs := s.runs[id := run], callbacks := if callback then s.callbacks + {id} else s.callbacks)
  }

  function LaneOf(s: State, w: string): Lane {
    if w in s.lanes then s.lanes[w] else Lane([], Idle, [], [])
  }

  /** The run is put into its workspace's queue, made if need be, unless that is full. */
  function Put(s: State, w: string, id: string): State {
    var lane := LaneOf(s, w);
    s.(lanes := s.lanes[w := if Full(s.depth, lane.queue) then lane
                             else lane.(queue := lane.queue + [id], accepted := lane.accepted + [id])])
  }

  function Refused(s: State, id: string): State
    requires id in s.runs
  {
    Notify(s.(runs := s.runs[id := s.runs[id].(status := Failed, place := Done)]), id)
  }

  function Submitted(s: State, id: string, w: string, chained: bool, stageCount: nat, callback: bool): State {
    var s1 := Added(s, id, Run(w, Queued, chained, NewStages(chained, stageCount), InQueue), callback);
    if Full(s.depth, LaneOf(s, w).queue) then Refused(Put(s1, w, id), id) else Put(s1, w, id)
  }

  function CancelStep(s: State, id: string): State {
    var s1 := s.(cancelled := s.cancelled + {id});
    if id in s.live then s1.(granted := s.granted + {id})
    else if id in s.runs && s.runs[id].status == Queued then
      Notify(SetStatus(s1, id, Cancelled).(granted := s.granted + {id}), id)
    else s1
  }

  function TakeStep(s: State, w: string): State
    requires Enabled(s, Take(w))
  {
    var lane := s.lanes[w];
    var id := lane.queue[0];
    var lane' := lane.(queue := lane.queue[1..], taken := lane.taken + [id]);
    if id in s.cancelled then
      Notify(s.(lanes := s.lanes[w := lane'],
                runs := s.runs[id := s.runs[id].(status := Cancelled, place := Done)]), id)
    else
      s.(lanes := s.lanes[w := lane'.(phase := Preparing(id))],
         runs := s.runs[id := s.runs[id].(place := AtWorker)])
  }

  function ExitStep(s: State, w: string, code: int): State
    requires Enabled(s, Exited(w, code))
  {
    var id, i := s.lanes[w].phase.run, s.lanes[w].phase.stage;
    if !s.runs[id].chained then Finish(s, w, id, StatusFor(id, code, s.cancelled))
    else
      var s1 := SetStages(s, id, AfterStage(s.runs[id].stages, i, code));
      if code != 0 then Finish(s1, w, id, StatusFor(id, code, s.cancelled))
      else ChainHead(s1, w, id, i + 1)
  }

  function Apply(s: State, e: Event): State
    requires Enabled(s, e)
  {
    match e
    case Submit(id, w, chained, stageCount, callback) => Submitted(s, id, w, chained, stageCount, callback)
    case Cancel(id) => CancelStep(s, id)
    case Take(w) => TakeStep(s, w)
    case Prepared(w) =>
      var id := s.lanes[w].phase.run;
      var s1 := SetStatus(s, id, Running);
      if s.runs[id].chained then ChainHead(s1, w, id, 0) else SetPhase(s1, w, Spawning(id, 0))
    case PrepareFault(w) =>
      var id := s.lanes[w].phase.run;
      SetPhase(s.(runs := s.runs[id := s.runs[id].(status := Failed, place := Lost)]), w, Idle)
    case Logged(w) =>
      var id, i := s.lanes[w].phase.run, s.lanes[w].phase.stage;
      SetPhase(SetStages(s, id, s.runs[id].stages[i := Active]), w, Spawning(id, i))
    case Spawned(w) =>
      var id, i := s.lanes[w].phase.run, s.lanes[w].phase.stage;
      SetPhase(s, w, Live(id, i)).(live := s.live + {id})
    case Exited(w, code) => ExitStep(s, w, code)
    case Fault(w) => SetPhase(s, w, Faulted(s.lanes[w].phase.run))
    case FaultLogged(w) => Finish(s, w, s.lanes[w].phase.run, Failed)
  }

  // ---- what every interleaving keeps ----

  /** The stage list of a chain that has come as far as stage `k`: passed ones, then at most one
      that is active, broken or stopped, then only pending or, after a break, only skipped ones. */
  predicate ShapedAt(stages: seq<Stage>, k: nat) {
    && k <= |stages|
    && (forall i :: 0 <= i < k ==> stages[i] == Passed)
    && (k < |stages| ==>
          && stages[k] in {Pending, Active, Stopped, Broken}
          && forall i :: k < i < |stages| ==> stages[i] == if stages[k] == Broken then Skipped else Pending)
  }

  ghost predicate Shaped(stages: seq<Stage>) {
    exists k: nat :: ShapedAt(stages, k)
  }

  predicate AllPassed(stages: seq<Stage>) {
    forall i :: 0 <= i < |stages| ==> stages[i] == Passed
  }

  /** One run: cancelling it is honoured, its callback fires at most once and is spent when it is
      done, and its stages have the shape of a chain. */
  ghost predicate RunOk(run: Run, granted: bool, cancelled: bool, live: bool, callback: bool, fired: nat) {
    && (granted ==> run.status != Succeeded && run.status != TimedOut)
    && (granted && (run.place == InQueue || run.place == AtWorker) ==> cancelled)
    && (run.status == Succeeded || run.status == TimedOut ==> run.place == Done)
    && (run.place == InQueue ==> run.status == Queued || (run.status == Cancelled && cancelled))
    && (run.place == Done ==> run.status != Queued && run.status != Running)
    && (run.place == Lost ==> run.status == Failed)
    && (run.place == AtWorker ==> run.status in {Queued, Running} || (run.status == Cancelled && cancelled))
    && (live ==> run.place == AtWorker && run.status == Running)
    && fired <= 1
    && (callback ==> fired == 0 && run.place != Done)
    && (!Begun(run) ==> (granted ==> !callback) && (fired > 0 ==> granted))
    && Shaped(run.stages)
    && (run.place == InQueue ==> FirstPending(run.stages))
    && (run.status == Succeeded && run.chained ==> AllPassed(run.stages))
    && (run.place == Done && run.chained && run.stages != [] && AllPassed(run.stages) ==>
          run.status == Succeeded || run.status == Cancelled)
  }

  /** The run has been marked as running, or is done with: until then only cancelling it calls back. */
  predicate Begun(run: Run) {
    run.place == Done || (run.place == AtWorker && run.status == Running)
  }

  /** No stage has begun. */
  predicate FirstPending(stages: seq<Stage>) {
    ShapedAt(stages, 0) && (stages != [] ==> stages[0] == Pending)
  }

  ghost predicate RunInv(s: State, id: string)
    requires id in s.runs
  {
    RunOk(s.runs[id], id in s.granted, id in s.cancelled, id in s.live, id in s.callbacks, s.fired[id])
  }

  /** One lane: the queue holds what was accepted and not yet taken, in order and once; the worker's
      run is at the worker, as far on as the phase says. */
  ghost predicate LaneOk(lane: Lane, w: string, runs: map<string, Run>) {
    && lane.accepted == lane.taken + lane.queue
    && Distinct(lane.accepted)
    && (forall id :: id in lane.accepted ==> id in runs && runs[id].workspace == w)
    && (forall id :: id in lane.queue ==> id in runs && runs[id].place == InQueue)
    && (!lane.phase.Idle? ==> lane.phase.run in runs && PhaseInv(runs[lane.phase.run], w, lane.phase))
  }

  predicate PhaseInv(run: Run, w: string, phase: Phase)
    requires !phase.Idle?
  {
    && run.workspace == w && run.place == AtWorker && (!phase.Preparing? ==> run.status == Running)
    && match phase
       case Preparing(_) => FirstPending(run.stages)
       case Logging(_, i) => run.chained && i < |run.stages| && ShapedAt(run.stages, i) && run.stages[i] == Pending
       case Spawning(_, i) => run.chained ==> i < |run.stages| && ShapedAt(run.stages, i) && run.stages[i] == Active
       case Live(_, i) => run.chained ==> i < |run.stages| && ShapedAt(run.stages, i) && run.stages[i] == Active
       case Faulted(_) => run.chained && run.stages != [] ==> !AllPassed(run.stages)
  }

  ghost predicate Inv(s: State) {
    && (forall id {:trigger RunInv(s, id)} :: id in s.runs ==> RunInv(s, id))
    && (forall w {:trigger LaneOk(s.lanes[w], w, s.runs)} :: w in s.lanes ==> LaneOk(s.lanes[w], w, s.runs))
    && (forall w {:trigger NotYetBegun(s, w)} :: w in s.lanes ==> NotYetBegun(s, w))
    && MarksKnown(s)
    && (forall id :: id in s.runs && s.runs[id].place == AtWorker ==> HeldByLane(s, id))
  }

  /** Only runs there are bear marks. */
  ghost predicate MarksKnown(s: State) {
    && (forall x :: x in s.live || x in s.callbacks || x in s.granted ==> x in s.runs)
    && (forall x :: x in s.fired ==> x in s.runs)
  }

  /** A run that its worker has only begun to prepare is not marked as running. */
  predicate NotYetBegun(s: State, w: string)
    requires w in s.lanes
  {
    s.lanes[w].phase.Preparing? && s.lanes[w].phase.run in s.runs ==> s.runs[s.lanes[w].phase.run].status != Running
  }

  /** The run is the one its workspace's worker is at. */
  predicate HeldByLane(s: State, id: string)
    requires id in s.runs
  {
    && s.runs[id].workspace in s.lanes
    && !s.lanes[s.runs[id].workspace].phase.Idle?
    && s.lanes[s.runs[id].workspace].phase.run == id
  }

  /** Run `x` is as it was, and so are all the marks on it. */
  predicate SameRun(s: State, s': State, x: string) {
    && x in s.runs && x in s'.runs && s'.runs[x] == s.runs[x]
    && (x in s'.granted <==> x in s.granted)
    && (x in s'.cancelled <==> x in s.cancelled)
    && (x in s'.live <==> x in s.live)
    && (x in s'.callbacks <==> x in s.callbacks)
    && s'.fired[x] == s.fired[x]
  }

  predicate SameLane(s: State, s': State, v: string) {
    v in s.lanes && v in s'.lanes && s'.lanes[v] == s.lanes[v]
  }

  /** A step of run `id` in workspace `w`: every other run and every other lane is left alone. */
  ghost predicate StepOf(s: State, s': State, id: string, w: string) {
    && (forall x {:trigger SameRun(s, s', x)} :: x in s.runs && x != id ==> SameRun(s, s', x))
    && (forall x :: x in s'.runs ==> x in s.runs || x == id)
    && (id in s.runs ==> id in s'.runs && s.runs[id].workspace == w)
    && (id in s'.runs ==> s'.runs[id].workspace == w)
    && (forall v {:trigger SameLane(s, s', v)} :: v in s.lanes && v != w ==> SameLane(s, s', v))
    && (forall v :: v in s'.lanes ==> v in s.lanes || v == w)
    && s'.depth == s.depth
    && MarksKnown(s')
  }

  /** The worker's run is not swapped for another: one that is at work stays until it is over. */
  ghost predicate KeepsWorker(s: State, s': State, id: string, w: string) {
    && (w in s.lanes && !s.lanes[w].phase.Idle? && s.lanes[w].phase.run != id ==>
          w in s'.lanes && s'.lanes[w].phase == s.lanes[w].phase)
    && (id in s'.runs && s'.runs[id].place == AtWorker ==> HeldByLane(s', id))
  }

  /** A lane untouched by a step: its own runs have not changed. */
  lemma LaneFrame(lane: Lane, v: string, s: State, s': State, id: string, w: string)
    requires LaneOk(lane, v, s.runs) && v != w && StepOf(s, s', id, w)
    ensures LaneOk(lane, v, s'.runs)
  {
    forall x | x in lane.accepted || x in lane.queue ensures x in s'.runs && s'.runs[x] == s.runs[x] {
      assert x in lane.taken + lane.queue;
      assert SameRun(s, s', x);
    }
    if !lane.phase.Idle? {
      assert SameRun(s, s', lane.phase.run);
    }
  }

  /** What is left to show of a step is its own run and its own lane. */
  lemma StepOfKeepsInv(s: State, s': State, id: string, w: string)
    requires Inv(s) && StepOf(s, s', id, w) && KeepsWorker(s, s', id, w)
    requires id in s'.runs ==> RunInv(s', id)
    requires w in s'.lanes ==> LaneOk(s'.lanes[w], w, s'.runs) && NotYetBegun(s', w)
    ensures Inv(s')
  {
    forall v | v in s'.lanes ensures NotYetBegun(s', v) {
      if v != w {
        assert SameLane(s, s', v) && LaneOk(s.lanes[v], v, s.runs) && NotYetBegun(s, v);
        if s.lanes[v].phase.Preparing? {
          assert SameRun(s, s', s.lanes[v].phase.run);
        }
      }
    }
    forall x | x in s'.runs ensures RunInv(s', x) {
      if x != id {
        assert RunInv(s, x) && SameRun(s, s', x);
      }
    }
    forall v | v in s'.lanes ensures LaneOk(s'.lanes[v], v, s'.runs) {
      if v != w {
        assert SameLane(s, s', v) && LaneOk(s.lanes[v], v, s.runs);
        LaneFrame(s.lanes[v], v, s, s', id, w);
      }
    }
    forall x | x in s'.runs && s'.runs[x].place == AtWorker ensures HeldByLane(s', x) {
      if x != id {
        assert SameRun(s, s', x) && HeldByLane(s, x);
        if s.runs[x].workspace != w {
          assert SameLane(s, s', s.runs[x].workspace);
        }
      }
    }
  }

  // ---- submit ----

  /** The queue takes a new run at its end. */
  lemma QueuedLast(lane: Lane, w: string, runs: map<string, Run>, id: string, run: Run)
    requires LaneOk(lane, w, runs) && id !in runs && run.workspace == w
    ensures run.place == InQueue ==>
              LaneOk(lane.(queue := lane.queue + [id], accepted := lane.accepted + [id]), w, runs[id := run])
    ensures LaneOk(lane, w, runs[id := run])
  {
    Associative(lane.taken, lane.queue, [id]);
  }

  lemma SubmitIsStep(s: State, id: string, w: string, chained: bool, stageCount: nat, callback: bool)
    requires MarksKnown(s) && id !in s.runs
    ensures StepOf(s, Submitted(s, id, w, chained, stageCount, callback), id, w)
  {
    var s' := Submitted(s, id, w, chained, stageCount, callback);
    forall x | x in s.runs && x != id ensures SameRun(s, s', x) {
      SubmitLeavesRun(s, id, w, chained, stageCount, callback, x);
    }
    forall v | v in s.lanes && v != w ensures SameLane(s, s', v) {
    }
  }

  lemma SubmitLeavesRun(s: State, id: string, w: string, chained: bool, stageCount: nat, callback: bool, x: string)
    requires x in s.runs && x != id
    ensures SameRun(s, Submitted(s, id, w, chained, stageCount, callback), x)
  {
  }

  lemma SubmitKeepsWorker(s: State, id: string, w: string, chained: bool, stageCount: nat, callback: bool)
    requires id !in s.runs
    ensures KeepsWorker(s, Submitted(s, id, w, chained, stageCount, callback), id, w)
  {
  }

  lemma SubmitMakesRun(s: State, id: string, w: string, chained: bool, stageCount: nat, callback: bool)
    requires MarksKnown(s) && id !in s.runs
    ensures RunInv(Submitted(s, id, w, chained, stageCount, callback), id)
  {
    assert ShapedAt(NewStages(chained, stageCount), 0);
  }

  lemma SubmitKeepsLane(s: State, id: string, w: string, chained: bool, stageCount: nat, callback: bool)
    requires id !in s.runs && (w in s.lanes ==> LaneOk(s.lanes[w], w, s.runs) && NotYetBegun(s, w))
    ensures var s' := Submitted(s, id, w, chained, stageCount, callback);
            w in s'.lanes && LaneOk(s'.lanes[w], w, s'.runs) && NotYetBegun(s', w)
  {
    var lane := LaneOf(s, w);
    assert LaneOk(lane, w, s.runs);
    var s' := Submitted(s, id, w, chained, stageCount, callback);
    assert s'.runs == s.runs[id := s'.runs[id]];
    QueuedLast(lane, w, s.runs, id, s'.runs[id]);
  }

  lemma SubmitKeepsInv(s: State, id: string, w: string, chained: bool, stageCount: nat, callback: bool)
    requires Inv(s) && id !in s.runs
    ensures Inv(Submitted(s, id, w, chained, stageCount, callback))
  {
    assert w in s.lanes ==> LaneOk(s.lanes[w], w, s.runs) && NotYetBegun(s, w);
    SubmitKeepsLane(s, id, w, chained, stageCount, callback);
    SubmitIsStep(s, id, w, chained, stageCount, callback);
    SubmitKeepsWorker(s, id, w, chained, stageCount, callback);
    SubmitMakesRun(s, id, w, chained, stageCount, callback);
    StepOfKeepsInv(s, Submitted(s, id, w, chained, stageCount, callback), id, w);
  }

  /** A run submitted with a callback is owed one call back, and may have had it at once. */
  lemma SubmittedRunIsOwed(s: State, id: string, w: string, chained: bool, stageCount: nat, callback: bool)
    requires Inv(s) && id !in s.runs
    ensures Owed(Submitted(s, id, w, chained, stageCount, callback), id) == if callback then 1 else 0
    ensures Submitted(s, id, w, chained, stageCount, callback).fired[id] ==
              if callback && Full(s.depth, LaneOf(s, w).queue) then 1 else 0
  {
  }

  // ---- cancel ----

  lemma CancelIsStep(s: State, id: string)
    requires MarksKnown(s) && id in s.runs
    ensures StepOf(s, CancelStep(s, id), id, s.runs[id].workspace)
  {
    var s' := CancelStep(s, id);
    forall x | x in s.runs && x != id ensures SameRun(s, s', x) {
    }
    forall v | v in s.lanes ensures SameLane(s, s', v) {
    }
    assert MarksKnown(s');
  }

  lemma CancelKeepsWorker(s: State, id: string)
    requires id in s.runs && (s.runs[id].place == AtWorker ==> HeldByLane(s, id))
    ensures KeepsWorker(s, CancelStep(s, id), id, s.runs[id].workspace)
  {
  }

  lemma CancelKeepsRun(s: State, id: string)
    requires id in s.runs && RunInv(s, id)
    ensures RunInv(CancelStep(s, id), id)
  {
  }

  /** Marking a run that has not begun, or marking one as running, leaves its lane as it was. */
  lemma StatusIsFree(lane: Lane, w: string, runs: map<string, Run>, id: string, status: Status)
    requires LaneOk(lane, w, runs) && id in runs && (runs[id].status == Queued || status == Running)
    ensures LaneOk(lane, w, runs[id := runs[id].(status := status)])
  {
  }

  lemma CancelKeepsInv(s: State, id: string)
    requires Inv(s)
    ensures Inv(CancelStep(s, id))
  {
    var s' := CancelStep(s, id);
    if id in s.runs {
      var w := s.runs[id].workspace;
      assert RunInv(s, id);
      CancelKeepsRun(s, id);
      CancelIsStep(s, id);
      CancelKeepsWorker(s, id);
      if w in s.lanes {
        assert LaneOk(s.lanes[w], w, s.runs) && NotYetBegun(s, w);
        if s.runs[id].status == Queued {
          StatusIsFree(s.lanes[w], w, s.runs, id, Cancelled);
        }
      }
      StepOfKeepsInv(s, s', id, w);
    } else {
      UnknownCancelKeepsInv(s, id);
    }
  }

  lemma UnknownCancelKeepsInv(s: State, id: string)
    requires Inv(s) && id !in s.runs
    ensures Inv(CancelStep(s, id))
  {
    var s' := CancelStep(s, id);
    assert s' == s.(cancelled := s.cancelled + {id});
    forall x | x in s'.runs ensures RunInv(s', x) {
      assert RunInv(s, x);
    }
    forall v | v in s'.lanes ensures LaneOk(s'.lanes[v], v, s'.runs) && NotYetBegun(s', v) {
      assert LaneOk(s.lanes[v], v, s.runs) && NotYetBegun(s, v);
    }
    forall x | x in s'.runs && s'.runs[x].place == AtWorker ensures HeldByLane(s', x) {
      assert HeldByLane(s, x);
    }
  }

  // ---- a worker's steps ----

  /** The worker of lane `w` is at run `id`. */
  predicate AtRun(s: State, w: string, id: string) {
    id in s.runs && w in s.lanes && !s.lanes[w].phase.Idle? && s.lanes[w].phase.run == id
  }

  lemma AtRunMeans(s: State, w: string, id: string)
    requires Inv(s) && AtRun(s, w, id)
    ensures RunInv(s, id) && s.runs[id].workspace == w && s.runs[id].place == AtWorker
    ensures PhaseInv(s.runs[id], w, s.lanes[w].phase) && LaneOk(s.lanes[w], w, s.runs) && NotYetBegun(s, w)
  {
    assert RunInv(s, id) && LaneOk(s.lanes[w], w, s.runs) && NotYetBegun(s, w);
  }

  /** What a worker does to its own run leaves its queue as it was. */
  lemma WorkLeavesQueue(lane: Lane, w: string, runs: map<string, Run>, id: string, run: Run, phase: Phase)
    requires LaneOk(lane, w, runs) && id in runs && runs[id].place == AtWorker
    requires run.workspace == w && (phase.Idle? || (phase.run == id && PhaseInv(run, w, phase)))
    ensures LaneOk(lane.(phase := phase), w, runs[id := run])
  {
  }

  /** A worker that goes on: its phase and its run's stages move together. */
  function Advance(s: State, w: string, id: string, stages: seq<Stage>, phase: Phase): State
    requires AtRun(s, w, id)
  {
    SetPhase(SetStages(s, id, stages), w, phase)
  }

  lemma AdvanceIsStep(s: State, w: string, id: string, stages: seq<Stage>, phase: Phase)
    requires MarksKnown(s) && AtRun(s, w, id) && s.runs[id].workspace == w && !phase.Idle? && phase.run == id
    ensures StepOf(s, Advance(s, w, id, stages, phase), id, w)
    ensures KeepsWorker(s, Advance(s, w, id, stages, phase), id, w)
  {
  }

  lemma AdvanceKeepsInv(s: State, w: string, id: string, stages: seq<Stage>, phase: Phase)
    requires Inv(s) && AtRun(s, w, id) && !phase.Idle? && !phase.Preparing? && phase.run == id && Shaped(stages)
    requires PhaseInv(s.runs[id].(stages := stages), w, phase)
    ensures Inv(Advance(s, w, id, stages, phase))
  {
    AtRunMeans(s, w, id);
    AdvanceIsStep(s, w, id, stages, phase);
    WorkLeavesQueue(s.lanes[w], w, s.runs, id, s.runs[id].(stages := stages), phase);
    StepOfKeepsInv(s, Advance(s, w, id, stages, phase), id, w);
  }

  /** A worker that is through with its run. */
  function Close(s: State, w: string, id: string, stages: seq<Stage>, final: Status): State
    requires AtRun(s, w, id)
  {
    Finish(SetStages(s, id, stages), w, id, final)
  }

  lemma CloseIsStep(s: State, w: string, id: string, stages: seq<Stage>, final: Status)
    requires MarksKnown(s) && AtRun(s, w, id) && s.runs[id].workspace == w
    ensures StepOf(s, Close(s, w, id, stages, final), id, w)
    ensures KeepsWorker(s, Close(s, w, id, stages, final), id, w)
  {
  }

  predicate MayClose(s: State, id: string, stages: seq<Stage>, final: Status)
    requires id in s.runs
  {
    && final != Queued && final != Running
    && (final == Succeeded || final == TimedOut ==> id !in s.cancelled)
    && (final == Succeeded && s.runs[id].chained ==> AllPassed(stages))
    && (s.runs[id].chained && stages != [] && AllPassed(stages) ==> final == Succeeded || final == Cancelled)
  }

  lemma CloseKeepsRun(s: State, w: string, id: string, stages: seq<Stage>, final: Status)
    requires AtRun(s, w, id) && RunInv(s, id) && s.runs[id].place == AtWorker
    requires Shaped(stages) && MayClose(s, id, stages, final)
    ensures RunInv(Close(s, w, id, stages, final), id)
  {
  }

  lemma CloseKeepsInv(s: State, w: string, id: string, stages: seq<Stage>, final: Status)
    requires Inv(s) && AtRun(s, w, id) && Shaped(stages) && MayClose(s, id, stages, final)
    ensures Inv(Close(s, w, id, stages, final))
  {
    AtRunMeans(s, w, id);
    CloseIsStep(s, w, id, stages, final);
    CloseKeepsRun(s, w, id, stages, final);
    var s' := Close(s, w, id, stages, final);
    WorkLeavesQueue(s.lanes[w], w, s.runs, id, s'.runs[id], Idle);
    StepOfKeepsInv(s, s', id, w);
  }

  lemma SameStages(s: State, id: string)
    requires id in s.runs
    ensures SetStages(s, id, s.runs[id].stages) == s
  {
    assert s.runs[id := s.runs[id]] == s.runs;
  }

  lemma ChainHeadKeepsInv(s: State, w: string, id: string, stages: seq<Stage>, i: nat)
    requires Inv(s) && AtRun(s, w, id) && s.runs[id].chained && s.runs[id].status == Running
    requires ShapedAt(stages, i) && (i < |stages| ==> stages[i] == Pending)
    ensures Inv(ChainHead(SetStages(s, id, stages), w, id, i))
  {
    AtRunMeans(s, w, id);
    if i >= |stages| {
      CloseKeepsInv(s, w, id, stages, StatusFor(id, 0, s.cancelled));
    } else if id in s.cancelled {
      var stopped := stages[i := Stopped];
      assert ShapedAt(stopped, i);
      CloseKeepsInv(s, w, id, stopped, Cancelled);
      assert SetStages(SetStages(s, id, stages), id, stopped).runs == SetStages(s, id, stopped).runs;
    } else {
      AdvanceKeepsInv(s, w, id, stages, Logging(id, i));
    }
  }

  lemma LastTaken(lane: Lane, w: string, runs: map<string, Run>, run: Run, phase: Phase)
    requires LaneOk(lane, w, runs) && lane.queue != []
    requires run.workspace == w && (phase.Idle? || (phase.run == lane.queue[0] && PhaseInv(run, w, phase)))
    ensures LaneOk(lane.(queue := lane.queue[1..], taken := lane.taken + [lane.queue[0]], phase := phase),
                   w, runs[lane.queue[0] := run])
  {
    Associative(lane.taken, [lane.queue[0]], lane.queue[1..]);
    assert [lane.queue[0]] + lane.queue[1..] == lane.queue;
    forall id | id in lane.queue[1..] ensures id in lane.queue && id != lane.queue[0] {
      var j :| 0 <= j < |lane.queue[1..]| && lane.queue[1..][j] == id;
      assert lane.queue[j + 1] == id;
      assert lane.accepted[|lane.taken|] == lane.queue[0] && lane.accepted[|lane.taken| + j + 1] == id;
    }
  }

  lemma TakeIsStep(s: State, w: string)
    requires MarksKnown(s) && Enabled(s, Take(w)) && s.runs[s.lanes[w].queue[0]].workspace == w
    ensures StepOf(s, TakeStep(s, w), s.lanes[w].queue[0], w)
    ensures KeepsWorker(s, TakeStep(s, w), s.lanes[w].queue[0], w)
  {
  }

  lemma TakeKeepsRun(s: State, w: string)
    requires Enabled(s, Take(w)) && RunInv(s, s.lanes[w].queue[0]) && s.runs[s.lanes[w].queue[0]].place == InQueue
    ensures RunInv(TakeStep(s, w), s.lanes[w].queue[0])
  {
  }

  lemma TakeKeepsInv(s: State, w: string)
    requires Inv(s) && Enabled(s, Take(w))
    ensures Inv(TakeStep(s, w))
  {
    var lane := s.lanes[w];
    var id := lane.queue[0];
    assert LaneOk(lane, w, s.runs) && id in lane.queue && RunInv(s, id);
    TakeIsStep(s, w);
    TakeKeepsRun(s, w);
    var s' := TakeStep(s, w);
    LastTaken(lane, w, s.runs, s'.runs[id], if id in s.cancelled then Idle else Preparing(id));
    assert s'.runs == s.runs[id := s'.runs[id]];
    StepOfKeepsInv(s, s', id, w);
  }

  /** "running" written over whatever the status was; the phase only stands in for the one that follows. */
  function MarkRunning(s: State, w: string, id: string): State
    requires AtRun(s, w, id)
  {
    SetPhase(SetStatus(s, id, Running), w, Faulted(id))
  }

  lemma RunningKeepsInv(s: State, w: string, id: string)
    requires Inv(s) && AtRun(s, w, id)
    ensures Inv(MarkRunning(s, w, id)) && AtRun(MarkRunning(s, w, id), w, id)
  {
    AtRunMeans(s, w, id);
    var s' := MarkRunning(s, w, id);
    RunningIsStep(s, w, id);
    WorkLeavesQueue(s.lanes[w], w, s.runs, id, s'.runs[id], Faulted(id));
    StepOfKeepsInv(s, s', id, w);
  }

  lemma RunningIsStep(s: State, w: string, id: string)
    requires MarksKnown(s) && AtRun(s, w, id) && s.runs[id].workspace == w
    ensures StepOf(s, MarkRunning(s, w, id), id, w)
    ensures KeepsWorker(s, MarkRunning(s, w, id), id, w)
  {
  }

  /** Whatever the phase was, the next one replaces it. */
  lemma PhaseIsReplaced(s: State, w: string, id: string, phase: Phase, next: Phase)
    requires w in s.lanes
    ensures SetPhase(SetPhase(s, w, phase), w, next) == SetPhase(s, w, next)
  {
  }

  lemma FinishForgetsPhase(s: State, w: string, id: string, phase: Phase, final: Status)
    requires id in s.runs && w in s.lanes
    ensures Finish(SetPhase(s, w, phase), w, id, final) == Finish(s, w, id, final)
  {
    var lane := s.lanes[w];
    assert s.lanes[w := lane.(phase := phase)][w := lane.(phase := Idle)] == s.lanes[w := lane.(phase := Idle)];
  }

  lemma ChainHeadForgetsPhase(s: State, w: string, id: string, phase: Phase, i: nat)
    requires id in s.runs && w in s.lanes
    ensures ChainHead(SetPhase(s, w, phase), w, id, i) == ChainHead(s, w, id, i)
  {
    var stages := s.runs[id].stages;
    if i >= |stages| {
      FinishForgetsPhase(s, w, id, phase, StatusFor(id, 0, s.cancelled));
    } else if id in s.cancelled {
      FinishForgetsPhase(SetStages(s, id, stages[i := Stopped]), w, id, phase, Cancelled);
    } else {
      PhaseIsReplaced(s, w, id, phase, Logging(id, i));
    }
  }

  lemma PreparedKeepsInv(s: State, w: string)
    requires Inv(s) && Enabled(s, Prepared(w))
    ensures Inv(Apply(s, Prepared(w)))
  {
    var id := s.lanes[w].phase.run;
    AtRunMeans(s, w, id);
    RunningKeepsInv(s, w, id);
    var s1 := MarkRunning(s, w, id);
    SameStages(s1, id);
    if s.runs[id].chained {
      ChainHeadKeepsInv(s1, w, id, s1.runs[id].stages, 0);
      ChainHeadForgetsPhase(SetStatus(s, id, Running), w, id, Faulted(id), 0);
    } else {
      AdvanceKeepsInv(s1, w, id, s1.runs[id].stages, Spawning(id, 0));
      PhaseIsReplaced(SetStatus(s, id, Running), w, id, Faulted(id), Spawning(id, 0));
    }
  }

  lemma PrepareFaultIsStep(s: State, w: string)
    requires MarksKnown(s) && Enabled(s, PrepareFault(w)) && s.runs[s.lanes[w].phase.run].workspace == w
    ensures StepOf(s, Apply(s, PrepareFault(w)), s.lanes[w].phase.run, w)
    ensures KeepsWorker(s, Apply(s, PrepareFault(w)), s.lanes[w].phase.run, w)
  {
  }

  lemma PrepareFaultKeepsInv(s: State, w: string)
    requires Inv(s) && Enabled(s, PrepareFault(w))
    ensures Inv(Apply(s, PrepareFault(w)))
  {
    var id := s.lanes[w].phase.run;
    AtRunMeans(s, w, id);
    PrepareFaultIsStep(s, w);
    var s' := Apply(s, PrepareFault(w));
    WorkLeavesQueue(s.lanes[w], w, s.runs, id, s'.runs[id], Idle);
    StepOfKeepsInv(s, s', id, w);
  }

  lemma SpawnedKeepsInv(s: State, w: string)
    requires Inv(s) && Enabled(s, Spawned(w))
    ensures Inv(Apply(s, Spawned(w)))
  {
    var id, i := s.lanes[w].phase.run, s.lanes[w].phase.stage;
    AtRunMeans(s, w, id);
    SameStages(s, id);
    AdvanceKeepsInv(s, w, id, s.runs[id].stages, Live(id, i));
    var s1 := SetPhase(s, w, Live(id, i));
    AtRunMeans(s1, w, id);
    var s2 := s1.(live := s1.live + {id});
    RegisterIsStep(s1, w, id);
    StepOfKeepsInv(s1, s2, id, w);
  }

  lemma RegisterIsStep(s: State, w: string, id: string)
    requires MarksKnown(s) && AtRun(s, w, id) && s.runs[id].workspace == w
    ensures StepOf(s, s.(live := s.live + {id}), id, w)
    ensures KeepsWorker(s, s.(live := s.live + {id}), id, w)
  {
  }

  lemma ExitedKeepsInv(s: State, w: string, code: int)
    requires Inv(s) && Enabled(s, Exited(w, code))
    ensures Inv(ExitStep(s, w, code))
  {
    var id, i := s.lanes[w].phase.run, s.lanes[w].phase.stage;
    AtRunMeans(s, w, id);
    SameStages(s, id);
    if !s.runs[id].chained {
      CloseKeepsInv(s, w, id, s.runs[id].stages, StatusFor(id, code, s.cancelled));
    } else {
      var stages := AfterStage(s.runs[id].stages, i, code);
      if code != 0 {
        assert ShapedAt(stages, i);
        CloseKeepsInv(s, w, id, stages, StatusFor(id, code, s.cancelled));
      } else {
        assert ShapedAt(stages, i + 1);
        ChainHeadKeepsInv(s, w, id, stages, i + 1);
      }
    }
  }

  lemma StepKeepsInv(s: State, e: Event)
    requires Inv(s) && Enabled(s, e)
    ensures Inv(Apply(s, e))
  {
    match e
    case Submit(id, w, chained, stageCount, callback) => SubmitKeepsInv(s, id, w, chained, stageCount, callback);
    case Cancel(id) => CancelKeepsInv(s, id);
    case Take(w) => TakeKeepsInv(s, w);
    case Prepared(w) => PreparedKeepsInv(s, w);
    case PrepareFault(w) => PrepareFaultKeepsInv(s, w);
    case Logged(w) =>
      var id, i := s.lanes[w].phase.run, s.lanes[w].phase.stage;
      AtRunMeans(s, w, id);
      var stages := s.runs[id].stages[i := Active];
      assert ShapedAt(stages, i);
      AdvanceKeepsInv(s, w, id, stages, Spawning(id, i));
    case Spawned(w) => SpawnedKeepsInv(s, w);
    case Exited(w, code) => ExitedKeepsInv(s, w, code);
    case Fault(w) =>
      var id := s.lanes[w].phase.run;
      AtRunMeans(s, w, id);
      SameStages(s, id);
      AdvanceKeepsInv(s, w, id, s.runs[id].stages, Faulted(id));
    case FaultLogged(w) =>
      var id := s.lanes[w].phase.run;
      AtRunMeans(s, w, id);
      SameStages(s, id);
      CloseKeepsInv(s, w, id, s.runs[id].stages, Failed);
  }

  // ---- whole runs of the system ----

  ghost predicate Initial(s: State) {
    && s.runs == map[] && s.lanes == map[] && s.live == {} && s.callbacks == {} && s.granted == {}
    && s.cancelled == {} && s.fired == multiset{}
  }

  ghost predicate Next(s: State, s': State) {
    exists e :: Enabled(s, e) && s' == Apply(s, e)
  }

  ghost predicate StepAt(states: seq<State>, i: int) {
    0 <= i < |states| - 1 && Next(states[i], states[i + 1])
  }

  /** Any interleaving whatever of submissions, cancellations and the workers' steps. */
  ghost predicate IsRun(states: seq<State>) {
    && states != [] && Initial(states[0])
    && forall i {:trigger StepAt(states, i)} :: 0 <= i < |states| - 1 ==> StepAt(states, i)
  }

  lemma {:induction false} RunKeepsInv(states: seq<State>, i: nat)
    requires IsRun(states) && i < |states|
    ensures Inv(states[i])
    decreases i
  {
    if i > 0 {
      RunKeepsInv(states, i - 1);
      assert StepAt(states, i - 1);
      var e :| Enabled(states[i - 1], e) && states[i] == Apply(states[i - 1], e);
      StepKeepsInv(states[i - 1], e);
    }
  }

  /** A run is not forgotten; once it is over it is never touched again; callbacks are not undone. */
  predicate RunLater(s: State, s': State, id: string)
    requires id in s.runs
  {
    && id in s'.runs && s'.runs[id].workspace == s.runs[id].workspace && s'.runs[id].chained == s.runs[id].chained
    && |s'.runs[id].stages| == |s.runs[id].stages|
    && (s.runs[id].place == Done || s.runs[id].place == Lost ==> s'.runs[id] == s.runs[id])
    && (id in s.granted ==> id in s'.granted)
    && s.fired[id] <= s'.fired[id]
    && Owed(s', id) == Owed(s, id)
    && (s.runs[id].place == Lost ==> s'.fired[id] == s.fired[id])
  }

  /** The calls back that a run has had and is still to have. */
  function Owed(s: State, id: string): nat {
    s.fired[id] + if id in s.callbacks then 1 else 0
  }

  /** A workspace's history is only added to. */
  predicate LaneLater(s: State, s': State, w: string)
    requires w in s.lanes
  {
    w in s'.lanes && s.lanes[w].accepted <= s'.lanes[w].accepted && s.lanes[w].taken <= s'.lanes[w].taken
  }

  ghost predicate Later(s: State, s': State) {
    && (forall id {:trigger RunLater(s, s', id)} :: id in s.runs ==> RunLater(s, s', id))
    && (forall w {:trigger LaneLater(s, s', w)} :: w in s.lanes ==> LaneLater(s, s', w))
  }

  lemma StepIsLater(s: State, e: Event)
    requires Inv(s) && Enabled(s, e)
    ensures Later(s, Apply(s, e))
  {
    forall id | id in s.runs ensures RunLater(s, Apply(s, e), id) {
      assert RunInv(s, id);
      StepIsLaterForRun(s, e, id);
    }
    forall w | w in s.lanes ensures LaneLater(s, Apply(s, e), w) {
      StepIsLaterForLane(s, e, w);
    }
  }

  lemma StepIsLaterForRun(s: State, e: Event, id: string)
    requires Inv(s) && Enabled(s, e) && id in s.runs
    ensures RunLater(s, Apply(s, e), id)
  {
    assert RunInv(s, id);
    match e
    case Submit(_, _, _, _, _) => AskIsLaterForRun(s, e, id);
    case Cancel(_) => AskIsLaterForRun(s, e, id);
    case Take(w) =>
      assert LaneOk(s.lanes[w], w, s.runs) && s.lanes[w].queue[0] in s.lanes[w].queue;
      TakeIsLaterForRun(s, w, id);
    case Exited(w, code) =>
      AtRunMeans(s, w, s.lanes[w].phase.run);
      ExitIsLaterForRun(s, w, code, id);
    case _ =>
      AtRunMeans(s, e.workspace, s.lanes[e.workspace].phase.run);
      WorkIsLaterForRun(s, e, id);
  }

  lemma AskIsLaterForRun(s: State, e: Event, id: string)
    requires Enabled(s, e) && id in s.runs && RunInv(s, id) && (e.Submit? || e.Cancel?)
    ensures RunLater(s, Apply(s, e), id)
  {
  }

  lemma TakeIsLaterForRun(s: State, w: string, id: string)
    requires Enabled(s, Take(w)) && id in s.runs && s.runs[s.lanes[w].queue[0]].place == InQueue
    ensures RunLater(s, TakeStep(s, w), id)
  {
  }

  lemma ChainHeadIsLater(s: State, w: string, own: string, i: nat, id: string)
    requires id in s.runs && AtRun(s, w, own) && s.runs[own].place == AtWorker
    ensures RunLater(s, ChainHead(s, w, own, i), id)
  {
  }

  lemma ExitIsLaterForRun(s: State, w: string, code: int, id: string)
    requires Enabled(s, Exited(w, code)) && id in s.runs && s.runs[s.lanes[w].phase.run].place == AtWorker
    ensures RunLater(s, ExitStep(s, w, code), id)
  {
    var own, i := s.lanes[w].phase.run, s.lanes[w].phase.stage;
    if s.runs[own].chained && code == 0 {
      assert |AfterStage(s.runs[own].stages, i, code)| == |s.runs[own].stages|;
      ChainHeadIsLater(SetStages(s, own, AfterStage(s.runs[own].stages, i, code)), w, own, i + 1, id);
    }
  }

  lemma WorkIsLaterForRun(s: State, e: Event, id: string)
    requires Enabled(s, e) && id in s.runs && !e.Submit? && !e.Cancel? && !e.Take? && !e.Exited?
    requires s.runs[s.lanes[e.workspace].phase.run].place == AtWorker
    ensures RunLater(s, Apply(s, e), id)
  {
    if e.Prepared? {
      var own := s.lanes[e.workspace].phase.run;
      ChainHeadIsLater(SetStatus(s, own, Running), e.workspace, own, 0, id);
    }
  }

  lemma StepIsLaterForLane(s: State, e: Event, w: string)
    requires Enabled(s, e) && w in s.lanes
    ensures LaneLater(s, Apply(s, e), w)
  {
    match e
    case Submit(id, v, chained, stageCount, callback) =>
      SubmitAddsToHistory(s, id, v, chained, stageCount, callback, w);
    case Take(v) => TakeAddsToHistory(s, v, w);
    case _ => WorkLeavesHistory(s, e, w);
  }

  lemma SubmitAddsToHistory(
      s: State, id: string, v: string, chained: bool, stageCount: nat, callback: bool, w: string)
    requires w in s.lanes
    ensures LaneLater(s, Submitted(s, id, v, chained, stageCount, callback), w)
  {
    var s1 := Added(s, id, Run(v, Queued, chained, NewStages(chained, stageCount), InQueue), callback);
    PutAddsToHistory(s1, v, id, w);
    var s2 := Put(s1, v, id);
    assert id in s2.runs && Refused(s2, id).lanes == s2.lanes;
  }

  lemma PutAddsToHistory(s: State, v: string, id: string, w: string)
    requires w in s.lanes
    ensures LaneLater(s, Put(s, v, id), w)
  {
  }

  lemma TakeAddsToHistory(s: State, v: string, w: string)
    requires w in s.lanes && Enabled(s, Take(v))
    ensures LaneLater(s, TakeStep(s, v), w)
  {
  }

  /** Only `submit` and the taking of a run change a workspace's history. */
  predicate SameHistory(s: State, s': State, w: string)
    requires w in s.lanes
  {
    && w in s'.lanes && s'.lanes[w].accepted == s.lanes[w].accepted && s'.lanes[w].taken == s.lanes[w].taken
    && s'.lanes[w].queue == s.lanes[w].queue
  }

  lemma WorkLeavesHistory(s: State, e: Event, w: string)
    requires Enabled(s, e) && w in s.lanes && !e.Submit? && !e.Take?
    ensures SameHistory(s, Apply(s, e), w)
  {
    match e
    case Exited(v, code) =>
      var own, i := s.lanes[v].phase.run, s.lanes[v].phase.stage;
      if s.runs[own].chained && code == 0 {
        ChainHeadLeavesHistory(SetStages(s, own, AfterStage(s.runs[own].stages, i, code)), v, own, i + 1, w);
      }
    case Prepared(v) =>
      ChainHeadLeavesHistory(SetStatus(s, s.lanes[v].phase.run, Running), v, s.lanes[v].phase.run, 0, w);
    case _ =>
  }

  lemma ChainHeadLeavesHistory(s: State, v: string, own: string, i: nat, w: string)
    requires w in s.lanes && AtRun(s, v, own)
    ensures SameHistory(s, ChainHead(s, v, own, i), w)
  {
  }

  lemma LaterIsTransitive(s: State, t: State, u: State)
    requires Later(s, t) && Later(t, u)
    ensures Later(s, u)
  {
    forall id | id in s.runs ensures RunLater(s, u, id) {
      assert RunLater(s, t, id) && RunLater(t, u, id);
    }
    forall w | w in s.lanes ensures LaneLater(s, u, w) {
      assert LaneLater(s, t, w) && LaneLater(t, u, w);
    }
  }

  lemma {:induction false} RunOnlyGoesForward(states: seq<State>, i: nat, j: nat)
    requires IsRun(states) && i <= j < |states|
    ensures Later(states[i], states[j])
    decreases j - i
  {
    if i < j {
      RunOnlyGoesForward(states, i, j - 1);
      RunKeepsInv(states, j - 1);
      assert StepAt(states, j - 1);
      var e :| Enabled(states[j - 1], e) && states[j] == Apply(states[j - 1], e);
      StepIsLater(states[j - 1], e);
      LaterIsTransitive(states[i], states[j - 1], states[j]);
    } else {
      forall id | id in states[i].runs ensures RunLater(states[i], states[j], id) {
      }
      forall w | w in states[i].lanes ensures LaneLater(states[i], states[j], w) {
      }
    }
  }

  // ---- what holds of every run of the system ----

  /** A run that `cancel` has once answered yes to never shows "succeeded" or "timed_out", then or
      at any time after. */
  lemma CancelIsHonoured(states: seq<State>, i: nat, j: nat, id: string)
    requires IsRun(states) && i <= j < |states| && id in states[i].granted
    ensures id in states[j].runs && states[j].runs[id].status !in {Succeeded, TimedOut}
  {
    RunKeepsInv(states, i);
    RunOnlyGoesForward(states, i, j);
    assert RunLater(states[i], states[j], id);
    RunKeepsInv(states, j);
    assert RunInv(states[j], id);
  }

  /** A callback given at submission fires once and no more, and has fired when the run is done; nothing is
      fired any more for a run that its worker failed before beginning it. */
  lemma CallbackFiresOnce(states: seq<State>, i: nat, j: nat, id: string)
    requires IsRun(states) && i <= j < |states| && id in states[i].runs
    ensures states[j].fired[id] <= Owed(states[i], id) <= 1
    ensures id in states[j].runs && Owed(states[j], id) == Owed(states[i], id)
    ensures states[j].runs[id].place == Done ==> states[j].fired[id] == Owed(states[i], id)
    ensures states[i].runs[id].place == Lost ==> states[j].fired[id] == states[i].fired[id]
  {
    RunKeepsInv(states, i);
    RunOnlyGoesForward(states, i, j);
    assert RunInv(states[i], id) && RunLater(states[i], states[j], id);
    RunKeepsInv(states, j);
    assert RunInv(states[j], id);
  }

  /** Exactly when the callback of a run that is over never fires: its worker failed before it had begun,
      and no cancellation had been granted. */
  lemma CallbackIsLostExactly(states: seq<State>, i: nat, j: nat, id: string)
    requires IsRun(states) && i <= j < |states| && id in states[i].runs
    requires Owed(states[i], id) == 1 && (states[i].runs[id].place == Done || states[i].runs[id].place == Lost)
    ensures states[j].fired[id] == 0 <==> states[i].runs[id].place == Lost && id !in states[i].granted
  {
    RunKeepsInv(states, i);
    RunOnlyGoesForward(states, i, j);
    assert RunInv(states[i], id) && RunLater(states[i], states[j], id);
    CallbackFiresOnce(states, i, j, id);
  }

  predicate OneEach(s: State) {
    forall x, y :: x in s.runs && y in s.runs && s.runs[x].place == AtWorker && s.runs[y].place == AtWorker
                   && s.runs[x].workspace == s.runs[y].workspace
                   ==> x == y
  }

  lemma OneAtATime(s: State)
    requires Inv(s)
    ensures OneEach(s)
  {
    forall x, y | x in s.runs && y in s.runs && s.runs[x].place == AtWorker && s.runs[y].place == AtWorker
                  && s.runs[x].workspace == s.runs[y].workspace
      ensures x == y
    {
      assert HeldByLane(s, x) && HeldByLane(s, y);
    }
  }

  /** A workspace's worker is at one run at a time, and takes its runs once each in the order in
      which they were accepted, which nothing later changes. */
  lemma WorkspaceRunsInOrder(states: seq<State>, i: nat, j: nat, w: string)
    requires IsRun(states) && i <= j < |states| && w in states[i].lanes
    ensures w in states[j].lanes
    ensures states[i].lanes[w].accepted <= states[j].lanes[w].accepted
    ensures states[i].lanes[w].taken <= states[j].lanes[w].taken
    ensures states[j].lanes[w].taken <= states[j].lanes[w].accepted
    ensures Distinct(states[j].lanes[w].accepted)
    ensures OneEach(states[j])
  {
    RunOnlyGoesForward(states, i, j);
    RunKeepsInv(states, j);
    assert LaneLater(states[i], states[j], w) && LaneOk(states[j].lanes[w], w, states[j].runs);
    OneAtATime(states[j]);
  }

  /** The stages of a chain always read: some that passed, then at most one that is active, broken
      or stopped, then only pending or only skipped ones; a chain that succeeded passed them all. */
  lemma ChainsKeepTheirShape(states: seq<State>, i: nat, id: string)
    requires IsRun(states) && i < |states| && id in states[i].runs
    ensures Shaped(states[i].runs[id].stages)
    ensures states[i].runs[id].chained && states[i].runs[id].status == Succeeded ==>
              AllPassed(states[i].runs[id].stages)
    ensures var run := states[i].runs[id];
            run.place == Done && run.chained && run.stages != [] && AllPassed(run.stages) ==>
              run.status == Succeeded || run.status == Cancelled
  {
    RunKeepsInv(states, i);
    assert RunInv(states[i], id);
  }

  /** The guards that only keep the steps within bounds never hold a worker up: the step that its
      phase calls for can always be taken. */
  lemma WorkerIsNeverStuck(states: seq<State>, i: nat, w: string)
    requires IsRun(states) && i < |states| && w in states[i].lanes
    ensures states[i].lanes[w].phase.Idle? && states[i].lanes[w].queue != [] ==> Enabled(states[i], Take(w))
    ensures states[i].lanes[w].phase.Preparing? ==> Enabled(states[i], Prepared(w))
    ensures states[i].lanes[w].phase.Logging? ==> Enabled(states[i], Logged(w))
    ensures states[i].lanes[w].phase.Spawning? ==> Enabled(states[i], Spawned(w))
    ensures states[i].lanes[w].phase.Live? ==> forall code :: Enabled(states[i], Exited(w, code))
    ensures states[i].lanes[w].phase.Faulted? ==> Enabled(states[i], FaultLogged(w))
  {
    RunKeepsInv(states, i);
    var lane := states[i].lanes[w];
    assert LaneOk(lane, w, states[i].runs);
    if lane.queue != [] {
      assert lane.queue[0] in lane.queue;
    }
  }

  // ---- the queues ----

  predicate WithinDepth(s: State, w: string) {
    s.depth > 0 && w in s.lanes ==> |s.lanes[w].queue| <= s.depth
  }

  lemma StepStaysWithinDepth(s: State, e: Event, w: string)
    requires Inv(s) && Enabled(s, e) && WithinDepth(s, w)
    ensures Apply(s, e).depth == s.depth && WithinDepth(Apply(s, e), w)
  {
    match e
    case Submit(id, v, chained, stageCount, callback) => SubmitIsStep(s, id, v, chained, stageCount, callback);
    case Take(_) =>
    case _ => WorkStaysWithinDepth(s, e, w);
  }

  lemma WorkStaysWithinDepth(s: State, e: Event, w: string)
    requires Inv(s) && Enabled(s, e) && !e.Submit? && !e.Take? && WithinDepth(s, w)
    ensures Apply(s, e).depth == s.depth && WithinDepth(Apply(s, e), w)
  {
    if w in s.lanes {
      WorkLeavesHistory(s, e, w);
    }
  }

  /** No queue ever holds more runs than its depth. */
  lemma {:induction false} QueuesStayWithinDepth(states: seq<State>, k: nat, w: string)
    requires IsRun(states) && k < |states|
    ensures states[k].depth == states[0].depth && WithinDepth(states[k], w)
  {
    if k > 0 {
      QueuesStayWithinDepth(states, k - 1, w);
      var e := LastStep(states, k);
      StepStaysWithinDepth(states[k - 1], e, w);
    }
  }

  // ---- what an exit leads to ----

  /** The status that an exit code comes to, for a run that is not marked. */
  predicate TellsOf(status: Status, code: int) {
    && (status == Succeeded <==> code == 0)
    && (status == TimedOut <==> code == 124)
    && (status == Failed <==> code != 0 && code != 124)
  }

  /** A process that exits decides its run, unless a stage of the chain is still to come. */
  lemma ExitTellsStatus(s: State, w: string, code: int)
    requires Inv(s) && Enabled(s, Exited(w, code)) && s.lanes[w].phase.run !in s.cancelled
    ensures var id := s.lanes[w].phase.run;
            var run, run' := s.runs[id], Apply(s, Exited(w, code)).runs[id];
            && (run'.place == Done <==> !run.chained || code != 0 || s.lanes[w].phase.stage + 1 == |run.stages|)
            && (run'.place == Done ==> TellsOf(run'.status, code))
  {
    AtRunMeans(s, w, s.lanes[w].phase.run);
  }

  /** And its stage: passed or broken; after a break the others are skipped, and otherwise the next is stopped
      if the run is marked, and left to come if not. */
  lemma ExitTellsStages(s: State, w: string, code: int)
    requires Inv(s) && Enabled(s, Exited(w, code)) && s.runs[s.lanes[w].phase.run].chained
    ensures var id, i := s.lanes[w].phase.run, s.lanes[w].phase.stage;
            var stages, stages' := s.runs[id].stages, Apply(s, Exited(w, code)).runs[id].stages;
            && |stages'| == |stages| && (forall k :: 0 <= k < i ==> stages'[k] == Passed)
            && stages'[i] == (if code == 0 then Passed else Broken)
            && (forall k :: i < k < |stages| ==>
                  stages'[k] == if code != 0 then Skipped
                                else if k == i + 1 && id in s.cancelled then Stopped else Pending)
  {
    AtRunMeans(s, w, s.lanes[w].phase.run);
  }

  /** The step ends run `id`, by the exit of its process with some code, and as that says. */
  ghost predicate EndsByExit(s: State, s': State, id: string) {
    exists w, code :: Enabled(s, Exited(w, code)) && s.lanes[w].phase.run == id && s' == Apply(s, Exited(w, code))
                      && id in s'.runs && TellsOf(s'.runs[id].status, code)
  }

  /** The step ends run `id` because something in it raised. */
  ghost predicate EndsByFault(s: State, s': State, id: string) {
    exists w :: Enabled(s, FaultLogged(w)) && s.lanes[w].phase.run == id && s' == Apply(s, FaultLogged(w))
  }

  lemma UnmarkedEnds(s: State, e: Event, id: string)
    requires Inv(s) && Enabled(s, e) && id in s.runs && s.runs[id].place == AtWorker && id !in s.cancelled
    ensures var s' := Apply(s, e);
            id in s'.runs && s'.runs[id].place == Done ==>
              || EndsByExit(s, s', id)
              || (EndsByFault(s, s', id) && s'.runs[id].status == Failed)
              || (s.runs[id].chained && s.runs[id].stages == [] && s'.runs[id].status == Succeeded)
  {
    assert RunInv(s, id);
    match e
    case Exited(w, code) =>
      AtRunMeans(s, w, s.lanes[w].phase.run);
      if s.lanes[w].phase.run == id {
        ExitTellsStatus(s, w, code);
      } else {
        OthersStayAtWork(s, e, id);
      }
    case FaultLogged(w) =>
      AtRunMeans(s, w, s.lanes[w].phase.run);
      if s.lanes[w].phase.run != id {
        OthersStayAtWork(s, e, id);
      }
    case Prepared(w) =>
      AtRunMeans(s, w, s.lanes[w].phase.run);
    case Take(w) =>
      assert LaneOk(s.lanes[w], w, s.runs) && s.lanes[w].queue[0] in s.lanes[w].queue;
    case _ =>
  }

  lemma OthersStayAtWork(s: State, e: Event, id: string)
    requires Enabled(s, e) && (e.Exited? || e.FaultLogged?)
    requires id in s.runs && s.runs[id].place == AtWorker && s.lanes[e.workspace].phase.run != id
    ensures id in Apply(s, e).runs && Apply(s, e).runs[id].place == AtWorker
  {
  }

  /** In every run of the system, a run that is not marked and comes to its end shows what its process said, or
      "failed" if something in it raised; a chain of no stages succeeds. */
  lemma EndsAsItsProcessSays(states: seq<State>, k: nat, id: string)
    requires IsRun(states) && 0 < k < |states| && id in states[k - 1].runs && id !in states[k - 1].cancelled
    requires states[k - 1].runs[id].place == AtWorker
    ensures id in states[k].runs && states[k].runs[id].place == Done ==>
              || EndsByExit(states[k - 1], states[k], id)
              || (EndsByFault(states[k - 1], states[k], id) && states[k].runs[id].status == Failed)
              || (states[k - 1].runs[id].chained && states[k - 1].runs[id].stages == []
                  && states[k].runs[id].status == Succeeded)
  {
    var e := LastStep(states, k);
    UnmarkedEnds(states[k - 1], e, id);
  }

  // ---- a cancellation that was not granted ----

  /** The worker has begun the run and there is no process yet: `cancel` finds nothing to stop. */
  predicate Starting(s: State, id: string) {
    id in s.runs && s.runs[id].place == AtWorker && s.runs[id].status == Running && id !in s.live
  }

  predicate IsOver(s: State, id: string) {
    id in s.runs && (s.runs[id].place == Done || s.runs[id].place == Lost)
  }

  /** Step `m` is a `cancel` that answers no, and marks the run nevertheless. */
  predicate RefusedAt(states: seq<State>, m: int, id: string) {
    && 0 <= m < |states| - 1 && states[m + 1] == CancelStep(states[m], id)
    && id !in states[m].cancelled && id !in states[m + 1].granted
  }

  lemma OnlyCancelMarks(s: State, e: Event, id: string)
    requires Enabled(s, e) && id !in s.cancelled && id in Apply(s, e).cancelled
    ensures e == Cancel(id)
  {
  }

  /** Such an answer is given to a run not there yet, one being started, or one that is over. */
  lemma RefusedWhen(s: State, id: string)
    requires Inv(s) && id !in s.cancelled && id !in CancelStep(s, id).granted
    ensures id !in s.runs || Starting(s, id) || IsOver(s, id)
  {
    if id in s.runs {
      assert RunInv(s, id);
    }
  }

  /** What a step from `s` to `s'` makes of a run: a mark lasts until the run is over, and the run ends as
      cancelled exactly if it is marked and nothing in it raised. */
  predicate Outcome(s: State, s': State, id: string, raised: bool) {
    && id in s'.runs
    && (id in s.cancelled && !IsOver(s', id) ==> id in s'.cancelled)
    && (s'.runs[id].place == Done ==>
          if raised then s'.runs[id].status == Failed else s'.runs[id].status == Cancelled <==> id in s.cancelled)
  }

  lemma EndsCancelledIffMarked(s: State, e: Event, id: string)
    requires Inv(s) && Enabled(s, e) && id in s.runs && !IsOver(s, id)
    ensures Outcome(s, Apply(s, e), id, e.FaultLogged?)
  {
    assert RunInv(s, id);
    match e
    case Submit(_, _, _, _, _) => AskOutcome(s, e, id);
    case Cancel(_) => AskOutcome(s, e, id);
    case Take(w) => AskOutcome(s, e, id);
    case Exited(w, code) =>
      AtRunMeans(s, w, s.lanes[w].phase.run);
      ExitOutcome(s, w, code, id);
    case _ =>
      AtRunMeans(s, e.workspace, s.lanes[e.workspace].phase.run);
      WorkOutcome(s, e, id);
  }

  lemma AskOutcome(s: State, e: Event, id: string)
    requires Enabled(s, e) && id in s.runs && !IsOver(s, id) && (e.Submit? || e.Cancel? || e.Take?)
    ensures Outcome(s, Apply(s, e), id, false)
  {
  }

  lemma ChainHeadOutcome(s: State, w: string, own: string, i: nat, id: string)
    requires id in s.runs && !IsOver(s, id) && AtRun(s, w, own)
    ensures Outcome(s, ChainHead(s, w, own, i), id, false)
  {
  }

  lemma ExitOutcome(s: State, w: string, code: int, id: string)
    requires Enabled(s, Exited(w, code)) && id in s.runs && !IsOver(s, id)
    ensures Outcome(s, ExitStep(s, w, code), id, false)
  {
    var own, i := s.lanes[w].phase.run, s.lanes[w].phase.stage;
    if s.runs[own].chained && code == 0 {
      ChainHeadOutcome(SetStages(s, own, AfterStage(s.runs[own].stages, i, code)), w, own, i + 1, id);
    }
  }

  lemma WorkOutcome(s: State, e: Event, id: string)
    requires Enabled(s, e) && id in s.runs && !IsOver(s, id)
    requires !e.Submit? && !e.Cancel? && !e.Take? && !e.Exited?
    ensures e.FaultLogged? && s.lanes[e.workspace].phase.run != id ==> !IsOver(Apply(s, e), id)
    ensures Outcome(s, Apply(s, e), id, e.FaultLogged?)
  {
    if e.Prepared? {
      var own := s.lanes[e.workspace].phase.run;
      ChainHeadOutcome(SetStatus(s, own, Running), e.workspace, own, 0, id);
    }
  }

  /** The run is marked, or over and not succeeded. */
  predicate StillMarked(s: State, id: string) {
    if IsOver(s, id) then s.runs[id].status in {Cancelled, Failed} else id in s.cancelled
  }

  lemma MarkStep(s: State, e: Event, id: string)
    requires Inv(s) && Enabled(s, e) && StillMarked(s, id)
    ensures StillMarked(Apply(s, e), id)
  {
    if IsOver(s, id) {
      OverStaysOver(s, e, id);
    } else if id in s.runs {
      KnownMarkStep(s, e, id);
    } else {
      AnyLeavesUnknown(s, e, id);
    }
  }

  lemma KnownMarkStep(s: State, e: Event, id: string)
    requires Inv(s) && Enabled(s, e) && id in s.runs && !IsOver(s, id) && id in s.cancelled
    ensures StillMarked(Apply(s, e), id)
  {
    EndsCancelledIffMarked(s, e, id);
    StepKeepsInv(s, e);
    LostIsFailed(Apply(s, e), id);
  }

  lemma LostIsFailed(s: State, id: string)
    requires Inv(s) && id in s.runs
    ensures s.runs[id].place == Lost ==> s.runs[id].status == Failed
  {
    assert RunInv(s, id);
  }

  lemma LastStep(states: seq<State>, k: nat) returns (e: Event)
    requires IsRun(states) && 0 < k < |states|
    ensures Inv(states[k - 1]) && Enabled(states[k - 1], e) && states[k] == Apply(states[k - 1], e)
  {
    RunKeepsInv(states, k - 1);
    assert StepAt(states, k - 1);
    e :| Enabled(states[k - 1], e) && states[k] == Apply(states[k - 1], e);
  }

  /** In every run of the system: a run that is marked and not over ends, if it ends, as cancelled or, if
      something in it raised, as failed, whatever `cancel` had answered. */
  lemma {:induction false} MarkedEndsCancelled(states: seq<State>, i: nat, j: nat, id: string)
    requires IsRun(states) && i <= j < |states| && StillMarked(states[i], id)
    ensures StillMarked(states[j], id)
    decreases j
  {
    if i < j {
      MarkedEndsCancelled(states, i, j - 1, id);
      var e := LastStep(states, j);
      MarkStep(states[j - 1], e, id);
    }
  }

  lemma OverStaysOver(s: State, e: Event, id: string)
    requires Inv(s) && Enabled(s, e) && IsOver(s, id)
    ensures id in Apply(s, e).runs && Apply(s, e).runs[id] == s.runs[id]
  {
    StepIsLater(s, e);
    assert RunLater(s, Apply(s, e), id);
  }

  /** The cancellation that did it: one refused before the run was there, or while it was being started. */
  ghost predicate CancelledUnheard(states: seq<State>, k: nat, id: string)
    requires k < |states|
  {
    exists m :: m < k && RefusedAt(states, m, id) && (id !in states[m].runs || Starting(states[m], id))
  }

  /** The run is marked, or has ended as cancelled, only because of such a refusal. */
  ghost predicate UnheardIfMarked(states: seq<State>, k: nat, id: string)
    requires k < |states|
  {
    && (id in states[k].cancelled && !IsOver(states[k], id) ==> CancelledUnheard(states, k, id))
    && (id in states[k].runs && states[k].runs[id].place == Done && states[k].runs[id].status == Cancelled ==>
          CancelledUnheard(states, k, id))
  }

  lemma {:induction false} MarkedUnheard(states: seq<State>, k: nat, id: string)
    requires IsRun(states) && k < |states| && id !in states[k].granted
    ensures UnheardIfMarked(states, k, id)
    decreases k
  {
    if k > 0 {
      var e := LastStep(states, k);
      if id in states[k - 1].granted {
        GrantsLast(states[k - 1], e, id);
      }
      MarkedUnheard(states, k - 1, id);
      MarkedUnheardStep(states, k, id, e);
    }
  }

  lemma GrantsLast(s: State, e: Event, id: string)
    requires Inv(s) && Enabled(s, e) && id in s.granted
    ensures id in Apply(s, e).granted
  {
    assert id in s.runs;
    StepIsLater(s, e);
    assert RunLater(s, Apply(s, e), id);
  }

  lemma NewRunIsNotCancelled(s: State, e: Event, id: string)
    requires Inv(s) && Enabled(s, e) && id !in s.runs && id in Apply(s, e).runs
    ensures Apply(s, e).runs[id].status != Cancelled
  {
    AnyLeavesUnknown(s, e, id);
  }

  /** A run that a step brings in is new, queued or refused. */
  lemma AnyLeavesUnknown(s: State, e: Event, id: string)
    requires Inv(s) && Enabled(s, e) && id !in s.runs
    ensures id in s.cancelled ==> id in Apply(s, e).cancelled
    ensures id in Apply(s, e).runs ==>
              Apply(s, e).runs[id].status == if IsOver(Apply(s, e), id) then Failed else Queued
  {
    match e
    case Submit(_, _, _, _, _) => SubmitLeavesUnknown(s, e, id);
    case Cancel(_) =>
    case Take(_) =>
    case _ =>
      AtRunMeans(s, e.workspace, s.lanes[e.workspace].phase.run);
      WorkLeavesUnknown(s, e, id);
  }

  lemma SubmitLeavesUnknown(s: State, e: Event, id: string)
    requires Enabled(s, e) && e.Submit? && id !in s.runs
    ensures id in s.cancelled ==> id in Apply(s, e).cancelled
    ensures id in Apply(s, e).runs ==>
              Apply(s, e).runs[id].status == if IsOver(Apply(s, e), id) then Failed else Queued
  {
  }

  /** A worker adds no run, and takes no mark from a run not there. */
  lemma WorkLeavesUnknown(s: State, e: Event, id: string)
    requires Enabled(s, e) && id !in s.runs && !e.Submit? && !e.Cancel? && !e.Take?
    ensures id !in Apply(s, e).runs && (id in s.cancelled ==> id in Apply(s, e).cancelled)
  {
    match e
    case Exited(w, code) =>
      var own, i := s.lanes[w].phase.run, s.lanes[w].phase.stage;
      if s.runs[own].chained && code == 0 {
        ChainHeadLeavesUnknown(SetStages(s, own, AfterStage(s.runs[own].stages, i, code)), w, own, i + 1, id);
      }
    case Prepared(w) =>
      ChainHeadLeavesUnknown(SetStatus(s, s.lanes[w].phase.run, Running), w, s.lanes[w].phase.run, 0, id);
    case _ =>
  }

  lemma ChainHeadLeavesUnknown(s: State, w: string, own: string, i: nat, id: string)
    requires AtRun(s, w, own) && id !in s.runs
    ensures id !in ChainHead(s, w, own, i).runs
    ensures id in s.cancelled ==> id in ChainHead(s, w, own, i).cancelled
  {
  }

  lemma MarkedUnheardStep(states: seq<State>, k: nat, id: string, e: Event)
    requires 0 < k < |states| && Inv(states[k - 1])
    requires Enabled(states[k - 1], e) && states[k] == Apply(states[k - 1], e) && id !in states[k].granted
    requires UnheardIfMarked(states, k - 1, id)
    ensures UnheardIfMarked(states, k, id)
  {
    var s := states[k - 1];
    if CancelledUnheard(states, k - 1, id) {
      var m :| m < k - 1 && RefusedAt(states, m, id) && (id !in states[m].runs || Starting(states[m], id));
      assert m < k;
    } else if IsOver(s, id) {
      OverStaysOver(s, e, id);
    } else if id in states[k].cancelled {
      OnlyCancelMarks(s, e, id);
      RefusedWhen(s, id);
      assert RefusedAt(states, k - 1, id);
    } else if id in s.runs {
      EndsCancelledIffMarked(s, e, id);
    } else if id in states[k].runs {
      NewRunIsNotCancelled(s, e, id);
    }
  }

  /** So a run that shows "cancelled" without a granted cancellation had been refused one, before it was
      there or while it was being started; and one refused so never succeeds. */
  lemma CancelledWithoutAGrant(states: seq<State>, k: nat, id: string)
    requires IsRun(states) && k < |states| && id in states[k].runs && states[k].runs[id].place == Done
    ensures states[k].runs[id].status == Cancelled && id !in states[k].granted ==> CancelledUnheard(states, k, id)
    ensures CancelledUnheard(states, k, id) ==> states[k].runs[id].status in {Cancelled, Failed}
  {
    if id !in states[k].granted {
      MarkedUnheard(states, k, id);
    }
    if CancelledUnheard(states, k, id) {
      UnheardIsHonoured(states, k, id);
    }
  }

  lemma UnheardIsHonoured(states: seq<State>, k: nat, id: string)
    requires IsRun(states) && k < |states|
    ensures CancelledUnheard(states, k, id) ==> StillMarked(states[k], id)
  {
    if m :| m < k && RefusedAt(states, m, id) && (id !in states[m].runs || Starting(states[m], id)) {
      RefusalMarks(states, m, id);
      MarkedEndsCancelled(states, m + 1, k, id);
    }
  }

  lemma RefusalMarks(states: seq<State>, m: int, id: string)
    requires RefusedAt(states, m, id) && (id !in states[m].runs || Starting(states[m], id))
    ensures StillMarked(states[m + 1], id)
  {
  }

  /** A run that no `cancel` was granted for, and that has run its whole course and ended as cancelled. */
  predicate CancelledAfterAll(s: State, id: string) {
    && id in s.runs && s.runs[id].status == Cancelled && s.runs[id].place == Done
    && id !in s.granted && s.fired[id] == 1
  }

  /** That takes six steps: submit, take, begin, a cancellation refused while the process is being started,
      the process, and its exit with success. */
  lemma SuccessMayShowAsCancelled(depth: int, id: string, w: string)
    ensures exists states: seq<State> :: IsRun(states) && |states| == 7 && CancelledAfterAll(states[6], id)
  {
    SixStepsAreARun(depth, id, w);
    assert CancelledAfterAll(SixSteps(depth, id, w)[6], id);
  }

  /** The one run, at `phase` and marked without a grant. */
  function Unheard(depth: int, id: string, w: string, phase: Phase, live: set<string>): State {
    State(depth, map[id := Run(w, Running, false, [], AtWorker)], map[w := Lane([], phase, [id], [id])],
          live, {id}, {id}, multiset{}, {})
  }

  function SixSteps(depth: int, id: string, w: string): (states: seq<State>)
    ensures |states| == 7
  {
    [ FiveSteps(depth, id, w)[0], FiveSteps(depth, id, w)[1], FiveSteps(depth, id, w)[2],
      Preparation(depth, id, w, Running, Spawning(id, 0), {}, {}, {id}),
      Unheard(depth, id, w, Spawning(id, 0), {}),
      Unheard(depth, id, w, Live(id, 0), {id}),
      State(depth, map[id := Run(w, Cancelled, false, [], Done)], map[w := Lane([], Idle, [id], [id])],
            {}, {}, {}, multiset{id}, {}) ]
  }

  lemma BeginAndRefuse(depth: int, id: string, w: string)
    ensures Next(SixSteps(depth, id, w)[2], SixSteps(depth, id, w)[3])
    ensures Next(SixSteps(depth, id, w)[3], SixSteps(depth, id, w)[4])
  {
    var s2, s3, s4 := SixSteps(depth, id, w)[2], SixSteps(depth, id, w)[3], SixSteps(depth, id, w)[4];
    assert Enabled(s2, Prepared(w)) && Apply(s2, Prepared(w)) == s3;
    assert Enabled(s3, Cancel(id)) && Apply(s3, Cancel(id)) == s4;
  }

  lemma SpawnAndExit(depth: int, id: string, w: string)
    ensures Next(SixSteps(depth, id, w)[4], SixSteps(depth, id, w)[5])
    ensures Next(SixSteps(depth, id, w)[5], SixSteps(depth, id, w)[6])
  {
    var s4, s5, s6 := SixSteps(depth, id, w)[4], SixSteps(depth, id, w)[5], SixSteps(depth, id, w)[6];
    assert Enabled(s4, Spawned(w)) && Apply(s4, Spawned(w)) == s5;
    assert Enabled(s5, Exited(w, 0)) && Apply(s5, Exited(w, 0)) == s6;
  }

  lemma SixStepsAreARun(depth: int, id: string, w: string)
    ensures IsRun(SixSteps(depth, id, w))
  {
    var states := SixSteps(depth, id, w);
    FirstTwoSteps(depth, id, w);
    BeginAndRefuse(depth, id, w);
    SpawnAndExit(depth, id, w);
    assert Next(states[0], states[1]) && Next(states[1], states[2]) && Next(states[2], states[3]);
    assert Next(states[3], states[4]) && Next(states[4], states[5]) && Next(states[5], states[6]);
    forall i | 0 <= i < |states| - 1 ensures StepAt(states, i) {
      assert i == 0 || i == 1 || i == 2 || i == 3 || i == 4 || i == 5;
    }
  }

  // ---- a terminal status is not always final ----

  predicate Terminal(status: Status) {
    status != Queued && status != Running
  }

  /** The worker is about to begin run `id`, and writes its status without looking at the old one. */
  predicate Overwrites(s: State, e: Event, id: string)
    requires Enabled(s, e) && id in s.runs
  {
    match e
    case Prepared(w) => s.lanes[w].phase.run == id && !s.runs[id].chained
    case PrepareFault(w) => s.lanes[w].phase.run == id
    case _ => false
  }

  /** Exactly when a run leaves a terminal status: it was cancelled while its worker was preparing
      it, and the worker then writes "running" (or "failed") over that. */
  lemma TerminalStatusIsLeftExactlyWhenOverwritten(s: State, e: Event, id: string)
    requires Inv(s) && Enabled(s, e) && id in s.runs && Terminal(s.runs[id].status)
    ensures Apply(s, e).runs[id].status != s.runs[id].status <==> Overwrites(s, e, id)
  {
    assert RunInv(s, id);
    match e
    case Submit(_, _, _, _, _) =>
    case Cancel(_) =>
    case Take(w) =>
      assert LaneOk(s.lanes[w], w, s.runs) && s.lanes[w].queue[0] in s.lanes[w].queue;
    case Prepared(w) =>
      AtRunMeans(s, w, s.lanes[w].phase.run);
    case Exited(w, code) =>
      WorkLeavesOthers(s, e, id);
    case _ =>
      WorkLeavesOthers(s, e, id);
  }

  /** Once it has begun, a worker writes the status of its own run alone, and that one reads "running". */
  lemma WorkLeavesOthers(s: State, e: Event, id: string)
    requires Inv(s) && Enabled(s, e) && id in s.runs && Terminal(s.runs[id].status)
    requires !e.Submit? && !e.Cancel? && !e.Take? && !e.Prepared?
    ensures Apply(s, e).runs[id].status != s.runs[id].status <==> Overwrites(s, e, id)
  {
    assert RunInv(s, id);
    AtRunMeans(s, e.workspace, s.lanes[e.workspace].phase.run);
  }

  /** A run, cancelled with a yes while it was being prepared, that has called back and is running. */
  predicate StartedAllTheSame(s: State, id: string) {
    && id in s.granted && s.fired[id] == 1
    && id in s.runs && s.runs[id].status == Running && id in s.live
  }

  /** It does happen, in five steps: submit, take, cancel, and the process is started nevertheless. */
  lemma CancelledRunMayStart(depth: int, id: string, w: string)
    ensures exists states: seq<State> :: IsRun(states) && |states| == 6 && StartedAllTheSame(states[5], id)
  {
    FiveStepsAreARun(depth, id, w);
    assert StartedAllTheSame(FiveSteps(depth, id, w)[5], id);
  }

  function FiveSteps(depth: int, id: string, w: string): (states: seq<State>)
    ensures |states| == 6
  {
    [ State(depth, map[], map[], {}, {}, {}, multiset{}, {}),
      State(depth, map[id := Run(w, Queued, false, [], InQueue)], map[w := Lane([id], Idle, [id], [])],
            {}, {}, {id}, multiset{}, {}),
      Preparation(depth, id, w, Queued, Preparing(id), {}, {}, {id}),
      Preparation(depth, id, w, Cancelled, Preparing(id), {}, {id}, {}),
      Preparation(depth, id, w, Running, Spawning(id, 0), {}, {id}, {}),
      Preparation(depth, id, w, Running, Live(id, 0), {id}, {id}, {}) ]
  }

  lemma FiveStepsAreARun(depth: int, id: string, w: string)
    ensures IsRun(FiveSteps(depth, id, w))
  {
    var states := FiveSteps(depth, id, w);
    FirstTwoSteps(depth, id, w);
    MiddleStep(depth, id, w);
    LastTwoSteps(depth, id, w);
    assert Next(states[0], states[1]) && Next(states[1], states[2]) && Next(states[2], states[3]);
    assert Next(states[3], states[4]) && Next(states[4], states[5]);
    forall i | 0 <= i < |states| - 1 ensures StepAt(states, i) {
      assert i == 0 || i == 1 || i == 2 || i == 3 || i == 4;
    }
  }

  /** A run whose log directory could not be made: it has failed, and its callback is there still. */
  predicate FailedUnheard(s: State, id: string) {
    && id in s.runs && s.runs[id].status == Failed && s.runs[id].place == Lost
    && id in s.callbacks && s.fired[id] == 0
  }

  /** It takes three steps: submit, take, and the failure. */
  lemma PreparationMayFailUnheard(depth: int, id: string, w: string)
    ensures exists states: seq<State> :: IsRun(states) && |states| == 4 && FailedUnheard(states[3], id)
  {
    ThreeStepsAreARun(depth, id, w);
    assert FailedUnheard(ThreeSteps(depth, id, w)[3], id);
  }

  function ThreeSteps(depth: int, id: string, w: string): (states: seq<State>)
    ensures |states| == 4
  {
    [ FiveSteps(depth, id, w)[0], FiveSteps(depth, id, w)[1], FiveSteps(depth, id, w)[2], UnheardState(depth, id, w) ]
  }

  lemma ThreeStepsAreARun(depth: int, id: string, w: string)
    ensures IsRun(ThreeSteps(depth, id, w))
  {
    var states := ThreeSteps(depth, id, w);
    FirstTwoSteps(depth, id, w);
    UnheardStep(depth, id, w);
    assert Next(states[0], states[1]) && Next(states[1], states[2]) && Next(states[2], states[3]);
    forall i | 0 <= i < |states| - 1 ensures StepAt(states, i) {
      assert i == 0 || i == 1 || i == 2;
    }
  }

  function UnheardState(depth: int, id: string, w: string): State {
    State(depth, map[id := Run(w, Failed, false, [], Lost)], map[w := Lane([], Idle, [id], [id])],
          {}, {}, {id}, multiset{}, {})
  }

  lemma UnheardStep(depth: int, id: string, w: string)
    ensures Next(Preparation(depth, id, w, Queued, Preparing(id), {}, {}, {id}), UnheardState(depth, id, w))
  {
    var s := Preparation(depth, id, w, Queued, Preparing(id), {}, {}, {id});
    assert Enabled(s, PrepareFault(w)) && Apply(s, PrepareFault(w)) == UnheardState(depth, id, w);
  }

  /** The one run that was taken, at `phase`; it has called back if it was cancelled. */
  function Preparation(depth: int, id: string, w: string, status: Status, phase: Phase, live: set<string>,
                       cancelled: set<string>, callbacks: set<string>): State
  {
    State(depth, map[id := Run(w, status, false, [], AtWorker)], map[w := Lane([], phase, [id], [id])],
          live, cancelled, callbacks, if cancelled == {} then multiset{} else multiset{id}, cancelled)
  }

  lemma FirstTwoSteps(depth: int, id: string, w: string)
    ensures Next(State(depth, map[], map[], {}, {}, {}, multiset{}, {}),
                 State(depth, map[id := Run(w, Queued, false, [], InQueue)], map[w := Lane([id], Idle, [id], [])],
                       {}, {}, {id}, multiset{}, {}))
    ensures Next(State(depth, map[id := Run(w, Queued, false, [], InQueue)], map[w := Lane([id], Idle, [id], [])],
                       {}, {}, {id}, multiset{}, {}),
                 Preparation(depth, id, w, Queued, Preparing(id), {}, {}, {id}))
  {
    var s0 := State(depth, map[], map[], {}, {}, {}, multiset{}, {});
    var s1 := State(depth, map[id := Run(w, Queued, false, [], InQueue)], map[w := Lane([id], Idle, [id], [])],
                    {}, {}, {id}, multiset{}, {});
    var none: seq<string> := [];
    assert none + [id] == [id] && [id][1..] == none;
    assert Apply(s0, Submit(id, w, false, 0, true)) == s1;
    assert TakeStep(s1, w) == Preparation(depth, id, w, Queued, Preparing(id), {}, {}, {id});
    assert Enabled(s1, Take(w));
  }

  lemma MiddleStep(depth: int, id: string, w: string)
    ensures Next(Preparation(depth, id, w, Queued, Preparing(id), {}, {}, {id}),
                 Preparation(depth, id, w, Cancelled, Preparing(id), {}, {id}, {}))
  {
    var s2 := Preparation(depth, id, w, Queued, Preparing(id), {}, {}, {id});
    var s3 := Preparation(depth, id, w, Cancelled, Preparing(id), {}, {id}, {});
    assert Enabled(s2, Cancel(id)) && Apply(s2, Cancel(id)) == s3;
  }

  lemma LastTwoSteps(depth: int, id: string, w: string)
    ensures Next(Preparation(depth, id, w, Cancelled, Preparing(id), {}, {id}, {}),
                 Preparation(depth, id, w, Running, Spawning(id, 0), {}, {id}, {}))
    ensures Next(Preparation(depth, id, w, Running, Spawning(id, 0), {}, {id}, {}),
                 Preparation(depth, id, w, Running, Live(id, 0), {id}, {id}, {}))
  {
    var s3 := Preparation(depth, id, w, Cancelled, Preparing(id), {}, {id}, {});
    var s4 := Preparation(depth, id, w, Running, Spawning(id, 0), {}, {id}, {});
    assert Enabled(s3, Prepared(w)) && Apply(s3, Prepared(w)) == s4;
    var s5 := Preparation(depth, id, w, Running, Live(id, 0), {id}, {id}, {});
    assert Enabled(s4, Spawned(w)) && Apply(s4, Spawned(w)) == s5;
  }

  // ---- the runner itself ----

  /** What `submit` raises. */
  datatype RunnerError = QueueFull

  /** The runner's fields; `rows` are the stored runs and `lanes` the queues and workers. */
  class JobRunner {
    const depth: int
    var rows: map<string, Run>
    var lanes: map<string, Lane>
    var running: set<string>
    var cancelled: set<string>
    var onDone: set<string>
    ghost var fired: multiset<string>
    ghost var granted: set<string>

    ghost function S(): State
      reads this
    {
      State(depth, rows, lanes, running, cancelled, onDone, fired, granted)
    }

    constructor (depth: int)
      ensures Initial(S()) && Inv(S()) && this.depth == depth
    {
      this.depth := depth;
      rows, lanes, running, cancelled, onDone := map[], map[], {}, {}, {};
      fired, granted := multiset{}, {};
    }

    method NotifyDone(id: string)
      modifies this
      ensures S() == Notify(old(S()), id)
    {
      if id in onDone {
        onDone := onDone - {id};
        fired := fired + multiset{id};
      }
    }

    method Submit(id: string, workspace: string, chained: bool, stageCount: nat, callback: bool)
      returns (r: Result<string, RunnerError>)
      requires Inv(S()) && id !in rows
      modifies this
      ensures S() == Apply(old(S()), Event.Submit(id, workspace, chained, stageCount, callback)) && Inv(S())
      ensures r.Err? <==> 0 < depth <= |LaneOf(old(S()), workspace).queue|
      ensures rows[id].workspace == workspace && rows[id].chained == chained
      ensures |rows[id].stages| == (if chained then stageCount else 0) && forall k :: 0 <= k < |rows[id].stages| ==>
                rows[id].stages[k] == Pending
      ensures r.Ok? ==> rows[id].status == Queued && lanes[workspace].queue == LaneOf(old(S()), workspace).queue + [id]
      ensures r.Err? ==> rows[id].status == Failed && lanes[workspace].queue == LaneOf(old(S()), workspace).queue
      ensures r.Ok? ==> r.value == id
    {
      SubmitKeepsInv(S(), id, workspace, chained, stageCount, callback);
      AddRun(id, Run(workspace, Queued, chained, NewStages(chained, stageCount), InQueue), callback);
      var ok := PutNowait(workspace, id);
      if ok {
        return Ok(id);
      }
      Refuse(id);
      return Err(QueueFull);
    }

    method AddRun(id: string, run: Run, callback: bool)
      modifies this`rows, this`onDone
      ensures S() == Added(old(S()), id, run, callback)
    {
      if callback {
        onDone := onDone + {id};
      }
      rows := rows[id := run];
    }

    /** A run that found no room fails there and then. */
    method Refuse(id: string)
      requires id in rows
      modifies this
      ensures S() == Refused(old(S()), id)
    {
      rows := rows[id := rows[id].(status := Failed, place := Done)];
      NotifyDone(id);
    }

    /** Put a run into its workspace's queue, made if need be, unless the queue is full. */
    method PutNowait(workspace: string, id: string) returns (ok: bool)
      modifies this`lanes
      ensures S() == Put(old(S()), workspace, id)
      ensures ok <==> !Full(depth, LaneOf(old(S()), workspace).queue)
    {
      if workspace !in lanes {
        lanes := lanes[workspace := Lane([], Idle, [], [])];
      }
      var lane := lanes[workspace];
      ok := !(0 < depth <= |lane.queue|);
      if ok {
        lanes := lanes[workspace := lane.(queue := lane.queue + [id], accepted := lane.accepted + [id])];
      }
    }

    method Cancel(id: string) returns (yes: bool)
      requires Inv(S())
      modifies this
      ensures S() == Apply(old(S()), Event.Cancel(id)) && Inv(S())
      ensures yes <==> id in old(running) || (id in old(rows) && old(rows)[id].status == Queued)
      ensures yes ==> id in granted
    {
      ghost var s := S();
      cancelled := cancelled + {id};
      yes := id in running || (id in rows && rows[id].status == Queued);
      if id in running {
        granted := granted + {id};
      } else if yes {
        rows := rows[id := rows[id].(status := Cancelled)];
        granted := granted + {id};
        NotifyDone(id);
      }
      assert S() == CancelStep(s, id);
      CancelKeepsInv(s, id);
    }

    /** The worker gets the next run; a run cancelled in the queue is skipped. */
    method TakeNext(workspace: string) returns (begun: bool)
      requires Inv(S()) && Enabled(S(), Take(workspace))
      modifies this
      ensures S() == Apply(old(S()), Take(workspace)) && Inv(S())
      ensures begun <==> old(lanes)[workspace].queue[0] !in old(cancelled)
    {
      TakeKeepsInv(S(), workspace);
      var lane := lanes[workspace];
      var id := lane.queue[0];
      lane := lane.(queue := lane.queue[1..], taken := lane.taken + [id]);
      begun := id !in cancelled;
      if begun {
        lane := lane.(phase := Preparing(id));
        rows := rows[id := rows[id].(place := AtWorker)];
      } else {
        rows := rows[id := rows[id].(status := Cancelled, place := Done)];
      }
      lanes := lanes[workspace := lane];
      if !begun {
        NotifyDone(id);
      }
    }

    method EndRun(workspace: string, id: string, final: Status)
      requires id in rows && workspace in lanes
      modifies this
      ensures S() == Finish(old(S()), workspace, id, final)
      ensures id !in running && id !in cancelled && lanes[workspace].phase == Idle
      ensures rows[id].status == final && rows[id].place == Done
    {
      running := running - {id};
      cancelled := cancelled - {id};
      rows := rows[id := rows[id].(status := final, place := Done)];
      NotifyDone(id);
      lanes := lanes[workspace := lanes[workspace].(phase := Idle)];
    }

    method NextStage(workspace: string, id: string, i: nat)
      requires id in rows && workspace in lanes
      modifies this
      ensures S() == ChainHead(old(S()), workspace, id, i)
      ensures i < |old(rows)[id].stages| && id in old(cancelled) ==>
                rows[id].stages == old(rows)[id].stages[i := Stopped] && rows[id].status == Cancelled
    {
      var stages := rows[id].stages;
      if i >= |stages| {
        EndRun(workspace, id, StatusFor(id, 0, cancelled));
      } else if id in cancelled {
        rows := rows[id := rows[id].(stages := stages[i := Stopped])];
        EndRun(workspace, id, Cancelled);
      } else {
        lanes := lanes[workspace := lanes[workspace].(phase := Logging(id, i))];
      }
    }

    /** The log directory is there: the run is marked as running and set off. */
    method Begin(workspace: string)
      requires Inv(S()) && Enabled(S(), Prepared(workspace))
      modifies this
      ensures S() == Apply(old(S()), Prepared(workspace)) && Inv(S())
    {
      PreparedKeepsInv(S(), workspace);
      var id := lanes[workspace].phase.run;
      rows := rows[id := rows[id].(status := Running)];
      if rows[id].chained {
        NextStage(workspace, id, 0);
      } else {
        lanes := lanes[workspace := lanes[workspace].(phase := Spawning(id, 0))];
      }
    }

    /** Making the log directory failed: the worker's own handler fails the run and calls nobody back. */
    method BeginFailed(workspace: string)
      requires Inv(S()) && Enabled(S(), PrepareFault(workspace))
      modifies this
      ensures S() == Apply(old(S()), PrepareFault(workspace)) && Inv(S())
    {
      PrepareFaultKeepsInv(S(), workspace);
      var id := lanes[workspace].phase.run;
      rows := rows[id := rows[id].(status := Failed, place := Lost)];
      lanes := lanes[workspace := lanes[workspace].(phase := Idle)];
    }

    /** The stage's heading is in the log: the stage is marked as running and its process started. */
    method StageLogged(workspace: string)
      requires Inv(S()) && Enabled(S(), Logged(workspace))
      modifies this
      ensures S() == Apply(old(S()), Logged(workspace)) && Inv(S())
    {
      StepKeepsInv(S(), Logged(workspace));
      var lane := lanes[workspace];
      var id, i := lane.phase.run, lane.phase.stage;
      rows := rows[id := rows[id].(stages := rows[id].stages[i := Active])];
      lanes := lanes[workspace := lane.(phase := Spawning(id, i))];
    }

    /** Something in the run raised: the reason goes to the log. */
    method Raise(workspace: string)
      requires Inv(S()) && Enabled(S(), Fault(workspace))
      modifies this
      ensures S() == Apply(old(S()), Fault(workspace)) && Inv(S())
    {
      StepKeepsInv(S(), Fault(workspace));
      lanes := lanes[workspace := lanes[workspace].(phase := Faulted(lanes[workspace].phase.run))];
    }

    method EndFailed(workspace: string)
      requires Inv(S()) && Enabled(S(), FaultLogged(workspace))
      modifies this
      ensures S() == Apply(old(S()), FaultLogged(workspace)) && Inv(S())
    {
      StepKeepsInv(S(), FaultLogged(workspace));
      EndRun(workspace, lanes[workspace].phase.run, Failed);
    }

    /** The process is there: `register` keeps it. */
    method Register(workspace: string)
      requires Inv(S()) && Enabled(S(), Spawned(workspace))
      modifies this
      ensures S() == Apply(old(S()), Spawned(workspace)) && Inv(S())
    {
      SpawnedKeepsInv(S(), workspace);
      var lane := lanes[workspace];
      running := running + {lane.phase.run};
      lanes := lanes[workspace := lane.(phase := Live(lane.phase.run, lane.phase.stage))];
    }

    /** The stages of a chain once stage `i` has exited. */
    method MarkStage(stages: seq<Stage>, i: nat, code: int) returns (marked: seq<Stage>)
      requires i < |stages|
      ensures marked == AfterStage(stages, i, code)
      ensures |marked| == |stages| && marked[..i] == stages[..i]
      ensures marked[i] == if code == 0 then Passed else Broken
      ensures forall k :: i < k < |stages| ==> marked[k] == if code == 0 then stages[k] else Skipped
    {
      marked := stages[i := if code == 0 then Passed else Broken];
      if code != 0 {
        var j := i + 1;
        while j < |marked|
          invariant i < j <= |marked| == |stages|
          invariant marked[..i] == stages[..i] && marked[i] == Broken
          invariant forall k :: i < k < j ==> marked[k] == Skipped
        {
          marked := marked[j := Skipped];
          j := j + 1;
        }
        assert marked == marked[..i] + [marked[i]] + marked[i + 1..];
      }
    }

    /** The process has exited with `code`. */
    method Exit(workspace: string, code: int)
      requires Inv(S()) && Enabled(S(), Exited(workspace, code))
      modifies this
      ensures S() == Apply(old(S()), Exited(workspace, code)) && Inv(S())
    {
      ExitedKeepsInv(S(), workspace, code);
      var id, i := lanes[workspace].phase.run, lanes[workspace].phase.stage;
      if !rows[id].chained {
        EndRun(workspace, id, StatusFor(id, code, cancelled));
      } else {
        var marked := MarkStage(rows[id].stages, i, code);
        rows := rows[id := rows[id].(stages := marked)];
        if code != 0 {
          EndRun(workspace, id, StatusFor(id, code, cancelled));
        } else {
          NextStage(workspace, id, i + 1);
        }
      }
    }
  }
}
