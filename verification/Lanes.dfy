/**
 A fixed-size pool of single-task workers. Each event handler runs to its end
 before the next event, so an interleaving is a sequence of events. Task ids
 "t1", "t2", ... are modelled by their numbers.
 */
module Lanes {
  import opened Text

  type TaskId = nat
  type WorkerId = nat

  datatype Outcome = Resolved(result: string) | Rejected(code: string) | Crashed | ShutDown

  /** What can happen to a pool. A message of a worker carries the id it answers. */
  datatype Event =
    | Dispatch
    | Message(worker: WorkerId, id: TaskId, outcome: Outcome)
    | Exit(worker: WorkerId)
    | Shutdown

  /**
   The pool, and three records the source keeps only in its callers' heads:
   the ids handed to a lane so far, the lane each one went to, and the outcome
   of every settled promise.
   */
  datatype State = State(
    size: nat, nextId: nat, down: bool,
    pending: set<TaskId>, waiting: seq<TaskId>,
    lanes: seq<WorkerId>, busy: map<WorkerId, TaskId>, nextWorker: WorkerId,
    started: seq<TaskId>, runsOn: map<TaskId, WorkerId>, settled: map<TaskId, Outcome>)

  // ----- what every handler does ------------------------------------------

  function FirstIdle(lanes: seq<WorkerId>, busy: map<WorkerId, TaskId>): (r: Option<WorkerId>)
    ensures r.Some? ==> r.value in lanes && r.value !in busy
    ensures r.None? ==> forall w :: w in lanes ==> w in busy
  {
    if lanes == [] then None
    else if lanes[0] !in busy then Some(lanes[0])
    else FirstIdle(lanes[1..], busy)
  }

  /** The oldest waiting task goes to lane `w`. */
  function Start(s: State, w: WorkerId): State
    requires s.waiting != []
  {
    var task := s.waiting[0];
    s.(waiting := s.waiting[1..], busy := s.busy[w := task],
       started := s.started + [task], runsOn := s.runsOn[task := w])
  }

  function Pumped(s: State): State
    decreases |s.waiting|
  {
    if s.waiting == [] then s
    else
      match FirstIdle(s.lanes, s.busy)
      case None => s
      case Some(w) => Pumped(Start(s, w))
  }

  function Settle(s: State, id: TaskId, outcome: Outcome): State {
    s.(pending := s.pending - {id}, settled := s.settled[id := outcome])
  }

  function Without(lanes: seq<WorkerId>, w: WorkerId): (r: seq<WorkerId>)
    ensures |r| <= |lanes|
    ensures forall v :: v in r <==> v in lanes && v != w
  {
    if lanes == [] then []
    else (if lanes[0] == w then [] else [lanes[0]]) + Without(lanes[1..], w)
  }

  /** A dead lane and the task it was running. */
  function Buried(s: State, w: WorkerId): State {
    var t := s.(lanes := Without(s.lanes, w), busy := s.busy - {w});
    if w in s.busy && s.busy[w] in s.pending then Settle(t, s.busy[w], Crashed) else t
  }

  function Enqueued(s: State): State {
    s.(nextId := s.nextId + 1, pending := s.pending + {s.nextId}, waiting := s.waiting + [s.nextId])
  }

  function Freed(s: State, w: WorkerId, id: TaskId, outcome: Outcome): State {
    Settle(s.(busy := s.busy - {w}), id, outcome)
  }

  function Respawned(s: State): State {
    s.(lanes := s.lanes + [s.nextWorker], nextWorker := s.nextWorker + 1)
  }

  function Step(s: State, e: Event): State {
    match e
    case Dispatch => if s.down then s else Pumped(Enqueued(s))
    case Message(w, id, outcome) => if id !in s.pending then s else Pumped(Freed(s, w, id, outcome))
    case Exit(w) => if s.down then Buried(s, w) else Pumped(Respawned(Buried(s, w)))
    case Shutdown =>
      s.(down := true, pending := {}, waiting := [],
         settled := map t | t in s.settled.Keys + s.pending ::
                      if t in s.pending then ShutDown else s.settled[t])
  }

  /** A worker answers only ids it was given; only live workers exit. */
  predicate Possible(s: State, e: Event) {
    match e
    case Message(w, id, _) => id in s.runsOn && s.runsOn[id] == w
    case Exit(w) => w in s.lanes
    case _ => true
  }

  function Initial(size: nat): State {
    State(size, 1, false, {}, [], seq(size, i => i), map[], size, [], map[], map[])
  }

  // ----- what holds between handlers --------------------------------------

  predicate Distinct(s: seq<nat>) {
    forall i, j :: 0 <= i < j < |s| ==> s[i] != s[j]
  }

  /** The ids 1, 2, ..., n. */
  function UpTo(n: nat): (r: seq<TaskId>)
    ensures |r| == n && forall i :: 0 <= i < n ==> r[i] == i + 1
  {
    seq(n, i => i + 1)
  }

  ghost predicate LanesOk(s: State) {
    && Distinct(s.lanes) && (forall w :: w in s.lanes ==> w < s.nextWorker)
    && (!s.down ==> |s.lanes| == s.size)
    && (forall w :: w in s.busy ==> w in s.lanes)
  }

  /** Every dispatched id is either pending or settled, and never both. */
  ghost predicate Ledger(s: State) {
    && s.nextId >= 1
    && (forall t :: t in s.pending || t in s.settled <==> 1 <= t < s.nextId)
    && (forall t :: t in s.pending ==> t !in s.settled)
  }

  ghost predicate InFlight(s: State, t: TaskId) {
    t in s.runsOn && s.runsOn[t] in s.busy && s.busy[s.runsOn[t]] == t
  }

  /** Pending ids are the disjoint union of the waiting ids and those in flight. */
  ghost predicate Placed(s: State) {
    && (forall w :: w in s.busy ==> s.busy[w] in s.runsOn && s.runsOn[s.busy[w]] == w)
    && (forall t :: t in s.pending <==> t in s.waiting || (InFlight(s, t) && !s.down))
    && (forall t :: t in s.waiting ==> t !in s.runsOn)
    && (s.down ==> s.pending == {})
  }

  /** Ids start in the order they were dispatched. */
  ghost predicate InOrder(s: State) {
    && s.nextId >= 1
    && (forall t :: t in s.started <==> t in s.runsOn)
    && s.started <= UpTo(s.nextId - 1)
    && (!s.down ==> s.started + s.waiting == UpTo(s.nextId - 1))
  }

  ghost predicate Core(s: State) {
    LanesOk(s) && Ledger(s) && Placed(s) && InOrder(s)
  }

  /** A nonempty queue means no idle lane. */
  ghost predicate Saturated(s: State) {
    s.waiting != [] ==> forall w :: w in s.lanes ==> w in s.busy
  }

  ghost predicate Valid(s: State) {
    Core(s) && Saturated(s)
  }

  lemma StartKeepsOrder(s: State, w: WorkerId)
    requires InOrder(s) && !s.down && s.waiting != []
    ensures InOrder(Start(s, w)) && s.waiting[0] !in s.waiting[1..]
  {
    var t, task := Start(s, w), s.waiting[0];
    var all := UpTo(s.nextId - 1);
    assert s.waiting == all[|s.started|..];
    assert t.started + t.waiting == all;
    forall i | 0 <= i < |t.waiting| ensures t.waiting[i] != task {
      assert t.waiting[i] == all[|s.started| + 1 + i] && task == all[|s.started|];
    }
  }

  lemma StartKeepsPlaced(s: State, w: WorkerId)
    requires Placed(s) && s.waiting != [] && s.waiting[0] !in s.waiting[1..] && w !in s.busy
    requires !s.down
    ensures Placed(Start(s, w))
  {
    var t, task := Start(s, w), s.waiting[0];
    assert task in s.waiting;
    assert forall u :: u in s.waiting <==> u == task || u in t.waiting;
    forall u ensures InFlight(t, u) <==> u == task || InFlight(s, u) {}
  }

  lemma StartKeepsCore(s: State, w: WorkerId)
    requires Core(s) && s.waiting != [] && w in s.lanes && w !in s.busy
    ensures Core(Start(s, w))
  {
    WaitingMeansUp(s);
    StartKeepsOrder(s, w);
    StartKeepsPlaced(s, w);
  }

  lemma WaitingMeansUp(s: State)
    requires Placed(s) && s.waiting != []
    ensures !s.down
  {
    assert s.waiting[0] in s.waiting;
  }

  /** Pumping settles nothing: it only hands out waiting tasks. */
  lemma {:induction false} PumpedOnlyStarts(s: State)
    ensures Pumped(s).settled == s.settled && Pumped(s).pending == s.pending
    ensures Pumped(s).nextId == s.nextId && Pumped(s).down == s.down && Pumped(s).size == s.size
    ensures s.started <= Pumped(s).started
    decreases |s.waiting|
  {
    if s.waiting != [] && FirstIdle(s.lanes, s.busy).Some? {
      PumpedOnlyStarts(Start(s, FirstIdle(s.lanes, s.busy).value));
    }
  }

  lemma {:induction false} PumpedKeepsCore(s: State)
    requires Core(s)
    ensures Valid(Pumped(s))
    decreases |s.waiting|
  {
    if s.waiting != [] && FirstIdle(s.lanes, s.busy).Some? {
      var w := FirstIdle(s.lanes, s.busy).value;
      StartKeepsCore(s, w);
      PumpedKeepsCore(Start(s, w));
    }
  }

  lemma EnqueuedKeepsCore(s: State)
    requires Core(s) && !s.down
    ensures Core(Enqueued(s))
  {
    var t := Enqueued(s);
    assert t.started + t.waiting == (s.started + s.waiting) + [s.nextId];
    assert UpTo(s.nextId) == UpTo(s.nextId - 1) + [s.nextId];
    assert forall u :: u in t.waiting <==> u in s.waiting || u == s.nextId;
    assert s.nextId !in s.started;
    forall u ensures InFlight(t, u) <==> InFlight(s, u) {}
  }

  /** The task running on `w` is settled and leaves its lane. */
  lemma SettleKeepsCore(s: State, w: WorkerId, outcome: Outcome)
    requires Core(s) && !s.down && w in s.busy
    ensures InFlight(s, s.busy[w]) && s.busy[w] in s.pending
    ensures Core(Freed(s, w, s.busy[w], outcome))
  {
    var id := s.busy[w];
    var t := Freed(s, w, id, outcome);
    assert InFlight(s, id);
    forall u ensures u in t.pending <==> u in t.waiting || (InFlight(t, u) && !t.down) {
      assert InFlight(t, u) <==> InFlight(s, u) && u != id;
    }
  }

  lemma {:induction false} WithoutDistinct(lanes: seq<WorkerId>, w: WorkerId)
    requires Distinct(lanes) && w in lanes
    ensures Distinct(Without(lanes, w)) && |Without(lanes, w)| == |lanes| - 1
  {
    var rest := lanes[1..];
    assert lanes == [lanes[0]] + rest;
    if lanes[0] == w {
      assert w !in rest;
      WithoutAbsent(rest, w);
    } else {
      WithoutDistinct(rest, w);
      var r := Without(rest, w);
      assert forall i :: 0 <= i < |r| ==> r[i] in rest;
    }
  }

  lemma {:induction false} WithoutAbsent(lanes: seq<WorkerId>, w: WorkerId)
    requires w !in lanes
    ensures Without(lanes, w) == lanes
  {
    if lanes != [] {
      WithoutAbsent(lanes[1..], w);
      assert lanes == [lanes[0]] + lanes[1..];
    }
  }

  /** Burying a dead lane leaves every other invariant but the lane count. */
  lemma BuriedKeepsRest(s: State, w: WorkerId)
    requires Core(s) && w in s.lanes
    ensures Ledger(Buried(s, w)) && Placed(Buried(s, w)) && InOrder(Buried(s, w))
  {
    if w in s.busy && !s.down {
      SettleKeepsCore(s, w, Crashed);
      var t := Freed(s, w, s.busy[w], Crashed);
      assert Buried(s, w) == t.(lanes := Without(s.lanes, w));
      forall u ensures InFlight(Buried(s, w), u) <==> InFlight(t, u) {}
    } else {
      forall u ensures w !in s.busy ==> (InFlight(Buried(s, w), u) <==> InFlight(s, u)) {}
    }
  }

  lemma BuriedKeepsLanes(s: State, w: WorkerId)
    requires LanesOk(s) && w in s.lanes
    ensures s.down ==> LanesOk(Buried(s, w))
    ensures LanesOk(Respawned(Buried(s, w)))
  {
    WithoutDistinct(s.lanes, w);
    var t := Buried(s, w);
    assert forall i :: 0 <= i < |t.lanes| ==> t.lanes[i] in t.lanes;
  }

  lemma RespawnedKeepsRest(s: State)
    requires Ledger(s) && Placed(s) && InOrder(s)
    ensures Ledger(Respawned(s)) && Placed(Respawned(s)) && InOrder(Respawned(s))
  {
    forall v ensures InFlight(Respawned(s), v) <==> InFlight(s, v) {}
  }

  lemma RespawnedKeepsCore(s: State, w: WorkerId)
    requires Core(s) && w in s.lanes && !s.down
    ensures Core(Respawned(Buried(s, w)))
  {
    BuriedKeepsRest(s, w);
    BuriedKeepsLanes(s, w);
    RespawnedKeepsRest(Buried(s, w));
  }

  /** Nothing settled changes, and nothing already handed out is handed out anew. */
  ghost predicate Extends(s: State, t: State) {
    && (forall id :: id in s.settled ==> id in t.settled && t.settled[id] == s.settled[id])
    && s.started <= t.started && s.nextId <= t.nextId
    && (s.down ==> t.down && t.started == s.started)
  }

  lemma ShutdownKeepsValid(s: State)
    requires Valid(s)
    ensures Valid(Step(s, Shutdown)) && Extends(s, Step(s, Shutdown))
  {
    var t := Step(s, Shutdown);
    forall v ensures InFlight(t, v) <==> InFlight(s, v) {}
  }

  lemma DispatchKeepsValid(s: State)
    requires Valid(s)
    ensures Valid(Step(s, Dispatch)) && Extends(s, Step(s, Dispatch))
  {
    if !s.down {
      EnqueuedKeepsCore(s);
      PumpedKeepsCore(Enqueued(s));
      PumpedOnlyStarts(Enqueued(s));
    }
  }

  lemma MessageKeepsValid(s: State, w: WorkerId, id: TaskId, outcome: Outcome)
    requires Valid(s) && Possible(s, Message(w, id, outcome))
    ensures Valid(Step(s, Message(w, id, outcome))) && Extends(s, Step(s, Message(w, id, outcome)))
  {
    if id in s.pending {
      assert InFlight(s, id);
      SettleKeepsCore(s, w, outcome);
      PumpedKeepsCore(Freed(s, w, id, outcome));
      PumpedOnlyStarts(Freed(s, w, id, outcome));
    }
  }

  lemma BuriedExtends(s: State, w: WorkerId)
    requires Ledger(s)
    ensures var t := Buried(s, w);
            && (forall id :: id in s.settled ==> id in t.settled && t.settled[id] == s.settled[id])
            && s.started == t.started && s.nextId == t.nextId && s.down == t.down
  {
  }

  lemma ExitKeepsValid(s: State, w: WorkerId)
    requires Valid(s) && w in s.lanes
    ensures Valid(Step(s, Exit(w)))
  {
    if s.down {
      BuriedKeepsRest(s, w);
      BuriedKeepsLanes(s, w);
      BuriedExtends(s, w);
      if Buried(s, w).waiting != [] { WaitingMeansUp(s); }
    } else {
      RespawnedKeepsCore(s, w);
      PumpedKeepsCore(Respawned(Buried(s, w)));
    }
  }

  lemma ExitExtends(s: State, w: WorkerId)
    requires Ledger(s)
    ensures Extends(s, Step(s, Exit(w)))
  {
    BuriedExtends(s, w);
    PumpedOnlyStarts(Respawned(Buried(s, w)));
  }

  /** Whatever happens, the invariant survives it and no promise is settled twice. */
  lemma StepKeepsValid(s: State, e: Event)
    requires Valid(s) && Possible(s, e)
    ensures Valid(Step(s, e)) && Extends(s, Step(s, e))
  {
    match e
    case Dispatch => DispatchKeepsValid(s);
    case Message(w, id, outcome) => MessageKeepsValid(s, w, id, outcome);
    case Exit(w) =>
      ExitKeepsValid(s, w);
      ExitExtends(s, w);
    case Shutdown => ShutdownKeepsValid(s);
  }

  ghost predicate Run(s: State, events: seq<Event>, final: State)
    decreases |events|
  {
    if events == [] then s == final
    else Possible(s, events[0]) && Run(Step(s, events[0]), events[1..], final)
  }

  /**
   Every interleaving: the invariant holds at the end, no settled promise has
   changed, and the ids handed out so far are a prefix of those handed out then.
   */
  lemma {:induction false} EveryInterleaving(s: State, events: seq<Event>, final: State)
    requires Valid(s) && Run(s, events, final)
    ensures Valid(final) && Extends(s, final)
    decreases |events|
  {
    if events != [] {
      StepKeepsValid(s, events[0]);
      EveryInterleaving(Step(s, events[0]), events[1..], final);
    }
  }

  lemma InitialIsValid(size: nat)
    requires size >= 1
    ensures Valid(Initial(size))
  {
    assert UpTo(0) == [];
  }

  /** An unsettled task is pending: waiting for a lane, or held by exactly one. */
  lemma UnsettledIsHeldOnce(s: State, t: TaskId)
    requires Valid(s) && 1 <= t < s.nextId && t !in s.settled
    ensures t in s.pending && !s.down
    ensures t in s.waiting <==> !exists w :: w in s.busy && s.busy[w] == t
    ensures forall v, w :: v in s.busy && w in s.busy && s.busy[v] == t && s.busy[w] == t ==> v == w
  {
    if t !in s.waiting {
      assert InFlight(s, t);
    }
  }

  /** After a shutdown no promise is left open, for good. */
  lemma ShutdownSettlesEverything(s: State, events: seq<Event>, final: State)
    requires Valid(s) && s.down && Run(s, events, final)
    ensures final.down && final.pending == {}
    ensures forall t :: t in final.settled <==> 1 <= t < final.nextId
    decreases |events|
  {
    if events == [] {
      assert final.pending == {};
    } else {
      StepKeepsValid(s, events[0]);
      ShutdownSettlesEverything(Step(s, events[0]), events[1..], final);
    }
  }

  // ----- the pool itself --------------------------------------------------

  class Pool {
    const size: nat
    var nextId: nat
    var shuttingDown: bool
    var pending: set<TaskId>
    var waiting: seq<TaskId>
    var lanes: seq<WorkerId>
    var busy: map<WorkerId, TaskId>
    var nextWorker: WorkerId
    ghost var started: seq<TaskId>
    ghost var runsOn: map<TaskId, WorkerId>
    ghost var settled: map<TaskId, Outcome>

    ghost function Now(): State
      reads this
    {
      State(size, nextId, shuttingDown, pending, waiting, lanes, busy, nextWorker,
            started, runsOn, settled)
    }

    constructor (size: nat)
      requires size >= 1
      ensures Now() == Initial(size)
    {
      this.size := size;
      nextId, shuttingDown, pending, waiting, busy := 1, false, {}, [], map[];
      lanes := seq(size, i => i);
      nextWorker := size;
      started, runsOn, settled := [], map[], map[];
    }

    /** The first live worker with nothing to do. */
    method IdleLane() returns (idle: Option<WorkerId>)
      ensures idle == FirstIdle(lanes, busy)
    {
      for i := 0 to |lanes|
        invariant FirstIdle(lanes, busy) == FirstIdle(lanes[i..], busy)
      {
        if lanes[i] !in busy { return Some(lanes[i]); }
        assert lanes[i..][1..] == lanes[i + 1..];
      }
      idle := None;
    }

    method Pump()
      modifies this`waiting, this`busy, this`started, this`runsOn
      ensures Now() == Pumped(old(Now()))
    {
      while waiting != []
        invariant Pumped(Now()) == Pumped(old(Now()))
        decreases |waiting|
      {
        var idle := IdleLane();
        if idle.None? { return; }
        var task := waiting[0];
        waiting := waiting[1..];
        busy := busy[idle.value := task];
        started := started + [task];
        runsOn := runsOn[task := idle.value];
      }
    }

    method OnMessage(worker: WorkerId, id: TaskId, outcome: Outcome)
      modifies this
      ensures Now() == Step(old(Now()), Message(worker, id, outcome))
    {
      if id !in pending { return; }
      pending := pending - {id};
      busy := busy - {worker};
      settled := settled[id := outcome];
      Pump();
    }

    method OnExit(worker: WorkerId)
      modifies this
      ensures Now() == Step(old(Now()), Exit(worker))
    {
      lanes := Without(lanes, worker);
      if worker in busy && busy[worker] in pending {
        pending := pending - {busy[worker]};
        settled := settled[busy[worker] := Crashed];
      }
      busy := busy - {worker};
      assert Now() == Buried(old(Now()), worker);
      if !shuttingDown {
        lanes := lanes + [nextWorker];
        nextWorker := nextWorker + 1;
        assert Now() == Respawned(Buried(old(Now()), worker));
        Pump();
      }
    }

    /** The id of the new task, or None once the pool is shutting down. */
    method OnDispatch() returns (id: Option<TaskId>)
      modifies this
      ensures Now() == Step(old(Now()), Dispatch)
      ensures id == if old(shuttingDown) then None else Some(old(nextId))
    {
      if shuttingDown { return None; }
      id := Some(nextId);
      pending := pending + {nextId};
      waiting := waiting + [nextId];
      nextId := nextId + 1;
      Pump();
    }

    /** Rejects everything pending. The lanes die later, each by its own Exit. */
    method OnShutdown()
      modifies this
      ensures Now() == Step(old(Now()), Shutdown)
    {
      shuttingDown := true;
      ghost var was := Now();
      while pending != {}
        invariant pending <= was.pending
        invariant settled == map t | t in was.settled.Keys + (was.pending - pending) ::
                    if t in was.pending - pending then ShutDown else was.settled[t]
        invariant Now() == was.(pending := pending, settled := settled)
        decreases pending
      {
        var id :| id in pending;
        pending := pending - {id};
        settled := settled[id := ShutDown];
      }
      waiting := [];
    }
  }
}
