/** The coordinator: tasks, phases, timeouts and reassignment. */
module MrCoordinator {
  import opened Text

  datatype TaskType = MapTask | ReduceTask

  datatype Status = Pending | OnGoing | Done

  datatype Phase = MapPhase | ReducePhase | DonePhase

  datatype Task = Task(id: string, input: string, tType: TaskType, status: Status,
                       workerId: string, idx: nat, lastPing: int)

  datatype Job = Job(phase: Phase, tasks: seq<Task>, nReduce: nat, counter: nat)

  /** What a worker asking for work is told. */
  datatype Order = Work(task: Task) | Wait(id: string) | Exit(id: string)

  const TIMEOUT := 10_000

  // ----- the handlers

  function Wanted(phase: Phase): TaskType {
    if phase == ReducePhase then ReduceTask else MapTask
  }

  predicate Open(t: Task, phase: Phase) {
    t.tType == Wanted(phase) && t.status == Pending
  }

  /** The first open task from position i on; the number of tasks if there is none. */
  function FindFrom(j: Job, i: nat): (k: nat)
    requires i <= |j.tasks|
    ensures i <= k <= |j.tasks|
    ensures k < |j.tasks| ==> Open(j.tasks[k], j.phase)
    ensures forall m :: i <= m < k ==> !Open(j.tasks[m], j.phase)
    decreases |j.tasks| - i
  {
    if i == |j.tasks| || Open(j.tasks[i], j.phase) then i else FindFrom(j, i + 1)
  }

  function OnGetTask(j: Job, worker: string, now: int): (Job, Order) {
    var k := FindFrom(j, 0);
    if j.phase == DonePhase then (j.(counter := j.counter + 1), Exit(Itoa(j.counter + 1)))
    else if k == |j.tasks| then (j.(counter := j.counter + 1), Wait(Itoa(j.counter + 1)))
    else
      var t := j.tasks[k].(status := OnGoing, workerId := worker, lastPing := now);
      (j.(tasks := j.tasks[k := t]), Work(t))
  }

  function Pinged(tasks: seq<Task>, worker: string, now: int): seq<Task> {
    seq(|tasks|, i requires 0 <= i < |tasks| =>
        if tasks[i].workerId == worker then tasks[i].(lastPing := now) else tasks[i])
  }

  predicate TimedOut(t: Task, now: int) {
    t.status == OnGoing && now - t.lastPing > TIMEOUT
  }

  function OnCheck(j: Job, k: nat, now: int): Job
    requires k < |j.tasks|
  {
    if TimedOut(j.tasks[k], now) then j.(tasks := j.tasks[k := j.tasks[k].(status := Pending, workerId := "")]) else j
  }

  function Marked(tasks: seq<Task>, id: string, status: Status): seq<Task> {
    seq(|tasks|, i requires 0 <= i < |tasks| => if tasks[i].id == id then tasks[i].(status := status) else tasks[i])
  }

  /** Every task of a type is done. */
  predicate AllDone(tasks: seq<Task>, tType: TaskType) {
    forall i :: 0 <= i < |tasks| && tasks[i].tType == tType ==> tasks[i].status == Done
  }

  function OnUpdate(j: Job, id: string, status: Status): Job {
    var tasks := Marked(j.tasks, id, status);
    var phase :=
      if !AllDone(tasks, MapTask) then j.phase
      else if !AllDone(tasks, ReduceTask) then ReducePhase
      else DonePhase;
    j.(tasks := tasks, phase := phase)
  }

  function InitialTask(files: seq<string>, i: nat): Task {
    if i < |files| then Task(Itoa(i + 1), files[i], MapTask, Pending, "", 0, 0)
    else
      Task(Itoa(i + 1), "mr-*-" + Itoa(i - |files|) + ".json", ReduceTask, Pending, "", i - |files|, 0)
  }

  function InitialTasks(files: seq<string>, nReduce: nat): seq<Task> {
    seq(|files| + nReduce, i requires 0 <= i => InitialTask(files, i))
  }

  class Coordinator {
    var phase: Phase
    var tasks: seq<Task>
    var nReduce: nat
    var counter: nat

    ghost function View(): Job
      reads this
    {
      Job(phase, tasks, nReduce, counter)
    }

    /** The phase says which tasks are done; holds from the start if there is an input file. */
    ghost predicate Valid()
      reads this
    {
      PhaseOk(View())
    }

    constructor (files: seq<string>, nReduce: nat)
      ensures files != [] ==> Valid()
      ensures View() == Job(MapPhase, InitialTasks(files, nReduce), nReduce, |files| + nReduce)
    {
      this.nReduce := nReduce;
      phase, tasks, counter := MapPhase, [], 0;
      new;
      CreateTasks(files, nReduce);
      InitialPhaseOk(files, nReduce);
    }

    /** One map task per file and one reduce task per bucket. */
    method CreateTasks(files: seq<string>, nReduce: nat)
      requires tasks == [] && counter == 0
      modifies this`tasks, this`counter
      ensures tasks == InitialTasks(files, nReduce) && counter == |files| + nReduce
    {
      for i := 0 to |files|
        invariant counter == |tasks| == i
        invariant forall k :: 0 <= k < |tasks| ==> tasks[k] == InitialTask(files, k)
      {
        counter := counter + 1;
        tasks := tasks + [Task(Itoa(counter), files[i], MapTask, Pending, "", 0, 0)];
      }
      for i := 0 to nReduce
        invariant counter == |tasks| == |files| + i
        invariant forall k :: 0 <= k < |tasks| ==> tasks[k] == InitialTask(files, k)
      {
        counter := counter + 1;
        tasks := tasks + [Task(Itoa(counter), "mr-*-" + Itoa(i) + ".json", ReduceTask, Pending, "", i, 0)];
      }
      assert tasks == InitialTasks(files, nReduce);
    }

    method FindPendingTask() returns (k: nat)
      ensures k == FindFrom(View(), 0)
    {
      var tType := if phase == ReducePhase then ReduceTask else MapTask;
      k := 0;
      while k < |tasks| && !(tasks[k].tType == tType && tasks[k].status == Pending)
        invariant k <= |tasks| && FindFrom(View(), 0) == FindFrom(View(), k)
      {
        k := k + 1;
      }
    }

    method GetTask(worker: string, now: int) returns (order: Order)
      modifies this
      ensures (View(), order) == OnGetTask(old(View()), worker, now)
      ensures order.Work? ==>
                order.task.tType == Wanted(old(phase)) && order.task in tasks && order.task.workerId == worker
      ensures phase == old(phase)
      ensures old(Valid()) ==> Valid()
      ensures old(Valid()) ==> (order.Exit? <==> forall i :: 0 <= i < |tasks| ==> old(tasks)[i].status == Done)
      ensures old(Valid()) ==> (order.Work? <==> exists i :: 0 <= i < |old(tasks)| && Due(old(tasks), i))
    {
      ExitIffDone(View(), worker, now);
      KeepsPhaseOk(View(), Event.GetTask(worker, now));
      if phase == DonePhase {
        counter := counter + 1;
        return Exit(Itoa(counter));
      }
      var k := FindPendingTask();
      if k == |tasks| {
        counter := counter + 1;
        return Wait(Itoa(counter));
      }
      var t := tasks[k].(status := OnGoing, workerId := worker, lastPing := now);
      tasks := tasks[k := t];
      order := Work(t);
      assert tasks[k] == t;
    }

    method Ping(worker: string, now: int)
      modifies this`tasks
      ensures tasks == Pinged(old(tasks), worker, now)
      ensures forall i :: 0 <= i < |tasks| ==>
                tasks[i] == if old(tasks)[i].workerId == worker then old(tasks)[i].(lastPing := now) else old(tasks)[i]
      ensures old(Valid()) ==> Valid()
    {
      KeepsPhaseOk(View(), Event.Ping(worker, now));
      for i := 0 to |tasks|
        invariant |tasks| == |old(tasks)|
        invariant forall m :: 0 <= m < i ==> tasks[m] == Pinged(old(tasks), worker, now)[m]
        invariant forall m :: i <= m < |tasks| ==> tasks[m] == old(tasks)[m]
      {
        if tasks[i].workerId == worker {
          tasks := tasks[i := tasks[i].(lastPing := now)];
        }
      }
    }

    method CheckTask(k: nat, now: int)
      requires k < |tasks|
      modifies this`tasks
      ensures View() == OnCheck(old(View()), k, now)
      ensures var t := old(tasks)[k];
              tasks == old(tasks)[k := if t.status == OnGoing && now - t.lastPing > 10_000
                                       then t.(status := Pending, workerId := "") else t]
      ensures old(Valid()) ==> Valid()
    {
      KeepsPhaseOk(View(), Check(k, now));
      if tasks[k].status == OnGoing {
        if now - tasks[k].lastPing > TIMEOUT {
          tasks := tasks[k := tasks[k].(status := Pending, workerId := "")];
        }
      }
    }

    method UpdateTask(id: string, status: Status)
      modifies this`tasks, this`phase
      ensures View() == OnUpdate(old(View()), id, status)
      ensures old(Valid()) && status == Done ==> Valid()
    {
      var mapDone, reduceDone := true, true;
      for i := 0 to |tasks|
        invariant |tasks| == |old(tasks)| && phase == old(phase)
        invariant forall m :: 0 <= m < i ==> tasks[m] == Marked(old(tasks), id, status)[m]
        invariant forall m :: i <= m < |tasks| ==> tasks[m] == old(tasks)[m]
        invariant mapDone == AllDone(tasks[..i], MapTask)
        invariant reduceDone == AllDone(tasks[..i], ReduceTask)
      {
        ghost var before := tasks;
        if tasks[i].id == id {
          tasks := tasks[i := tasks[i].(status := status)];
        }
        assert tasks[..i] == before[..i] && tasks[..i + 1] == tasks[..i] + [tasks[i]];
        AllDoneSnoc(tasks[..i], tasks[i]);
        if tasks[i].tType == MapTask && tasks[i].status != Done {
          mapDone := false;
        } else if tasks[i].tType == ReduceTask && tasks[i].status != Done {
          reduceDone := false;
        }
      }
      assert tasks[..|tasks|] == tasks;
      assert tasks == Marked(old(tasks), id, status);
      if mapDone && !reduceDone {
        phase := ReducePhase;
      } else if mapDone && reduceDone {
        phase := DonePhase;
      }
      KeepsPhaseOk(old(View()), Update(id));
    }

    /** Whether the whole job is finished. */
    method IsDone() returns (b: bool)
      ensures Valid() ==> (b <==> forall i :: 0 <= i < |tasks| ==> tasks[i].status == Done)
    {
      b := phase == DonePhase;
      AllDoneBoth(tasks);
    }
  }

  /** A task that is to be handed out next: a pending map task, or a pending reduce task once
      every map task is done. */
  predicate Due(tasks: seq<Task>, i: nat)
    requires i < |tasks|
  {
    tasks[i].status == Pending && (tasks[i].tType == ReduceTask ==> AllDone(tasks, MapTask))
  }

  /** A worker that asks is told to exit exactly if every task is done, is given work exactly if
      some task is due, and is told to wait otherwise. */
  lemma ExitIffDone(j: Job, worker: string, now: int)
    ensures var order := OnGetTask(j, worker, now).1;
            PhaseOk(j) ==>
              && (order.Exit? <==> forall i :: 0 <= i < |j.tasks| ==> j.tasks[i].status == Done)
              && (order.Work? <==> exists i :: 0 <= i < |j.tasks| && Due(j.tasks, i))
  {
    AllDoneBoth(j.tasks);
    if PhaseOk(j) && j.phase != DonePhase {
      OpenIffDue(j);
    }
  }

  lemma OpenIffDue(j: Job)
    requires PhaseOk(j) && j.phase != DonePhase
    ensures FindFrom(j, 0) < |j.tasks| <==> exists i :: 0 <= i < |j.tasks| && Due(j.tasks, i)
  {
    forall i | 0 <= i < |j.tasks| ensures Open(j.tasks[i], j.phase) <==> Due(j.tasks, i) {
    }
  }

  lemma InitialPhaseOk(files: seq<string>, nReduce: nat)
    ensures files != [] ==> PhaseOk(Job(MapPhase, InitialTasks(files, nReduce), nReduce, |files| + nReduce))
  {
    var tasks := InitialTasks(files, nReduce);
    assert files != [] ==> tasks[0].tType == MapTask && tasks[0].status == Pending;
  }

  lemma AllDoneBoth(tasks: seq<Task>)
    ensures AllDone(tasks, MapTask) && AllDone(tasks, ReduceTask) <==>
            forall i :: 0 <= i < |tasks| ==> tasks[i].status == Done
  {
  }

  lemma AllDoneSnoc(tasks: seq<Task>, t: Task)
    ensures forall ty :: AllDone(tasks + [t], ty) <==> AllDone(tasks, ty) && (t.tType == ty ==> t.status == Done)
  {
    forall ty
      ensures AllDone(tasks + [t], ty) <==> AllDone(tasks, ty) && (t.tType == ty ==> t.status == Done)
    {
      if AllDone(tasks + [t], ty) {
        assert (tasks + [t])[|tasks|] == t;
        forall i | 0 <= i < |tasks| && tasks[i].tType == ty ensures tasks[i].status == Done {
          assert (tasks + [t])[i] == tasks[i];
        }
      }
    }
  }

  // ----- runs

  /** Workers report only completed tasks; a report may name a task that does not exist. */
  datatype Event =
    | GetTask(worker: string, now: int)
    | Ping(worker: string, now: int)
    | Check(k: nat, now: int)
    | Update(id: string)

  function Next(j: Job, e: Event): Job
    requires e.Check? ==> e.k < |j.tasks|
  {
    match e
    case GetTask(w, now) => OnGetTask(j, w, now).0
    case Ping(w, now) => j.(tasks := Pinged(j.tasks, w, now))
    case Check(k, now) => OnCheck(j, k, now)
    case Update(id) => OnUpdate(j, id, Done)
  }

  /** A run over at least one input file. */
  ghost predicate Run(files: seq<string>, run: seq<Job>, events: seq<Event>) {
    && files != [] && |run| == |events| + 1
    && run[0] == Job(MapPhase, InitialTasks(files, run[0].nReduce), run[0].nReduce, |files| + run[0].nReduce)
    && (forall i :: 0 <= i < |events| ==>
          (events[i].Check? ==> events[i].k < |run[i].tasks|) && run[i + 1] == Next(run[i], events[i]))
  }

  /** A task keeps what it was created with, and once done stays done. */
  ghost predicate Advanced(a: Task, b: Task) {
    && a.id == b.id && a.input == b.input && a.tType == b.tType && a.idx == b.idx
    && (a.status == Done ==> b.status == Done)
  }

  function Rank(p: Phase): nat {
    match p case MapPhase => 0 case ReducePhase => 1 case DonePhase => 2
  }

  /** The phase says which tasks are done. */
  ghost predicate PhaseOk(j: Job) {
    && (j.phase == MapPhase <==> !AllDone(j.tasks, MapTask))
    && (j.phase == DonePhase <==> AllDone(j.tasks, MapTask) && AllDone(j.tasks, ReduceTask))
  }

  lemma NextAdvances(j: Job, e: Event)
    requires e.Check? ==> e.k < |j.tasks|
    ensures |Next(j, e).tasks| == |j.tasks| && Next(j, e).nReduce == j.nReduce
    ensures forall i :: 0 <= i < |j.tasks| ==> Advanced(j.tasks[i], Next(j, e).tasks[i])
  {
  }

  /** Only a report completes a task, only a report or a timeout takes it from a worker, and
      only a handout gives it to one. */
  lemma NextStatus(j: Job, e: Event, k: nat)
    requires (e.Check? ==> e.k < |j.tasks|) && k < |j.tasks|
    ensures |Next(j, e).tasks| == |j.tasks|
    ensures var t, st' := j.tasks[k], Next(j, e).tasks[k].status;
            if e.Update? && e.id == t.id then st' == Done
            else if e.Check? && e.k == k && TimedOut(t, e.now) then st' == Pending
            else if HandsOut(j, e, k) then st' == OnGoing
            else st' == t.status
  {
  }

  lemma NextPhaseOk(j: Job, e: Event)
    requires PhaseOk(j) && (e.Check? ==> e.k < |j.tasks|)
    ensures PhaseOk(Next(j, e)) && Rank(j.phase) <= Rank(Next(j, e).phase)
  {
    var j' := Next(j, e);
    NextAdvances(j, e);
    forall ty | AllDone(j.tasks, ty) ensures AllDone(j'.tasks, ty) {
      forall i | 0 <= i < |j'.tasks| && j'.tasks[i].tType == ty ensures j'.tasks[i].status == Done {
        assert Advanced(j.tasks[i], j'.tasks[i]);
      }
    }
    if !e.Update? {
      forall ty | AllDone(j'.tasks, ty) ensures AllDone(j.tasks, ty) {
        forall i | 0 <= i < |j.tasks| && j.tasks[i].tType == ty ensures j.tasks[i].status == Done {
          assert Advanced(j.tasks[i], j'.tasks[i]);
          assert j'.tasks[i].status == Done;
        }
      }
    }
  }

  lemma KeepsPhaseOk(j: Job, e: Event)
    requires e.Check? ==> e.k < |j.tasks|
    ensures PhaseOk(j) ==> PhaseOk(Next(j, e))
  {
    if PhaseOk(j) {
      NextPhaseOk(j, e);
    }
  }

  /** Phase safety: tasks stay done, phases only advance, and the job counts as done exactly
      when every task is done. */
  lemma {:induction false} PhaseSafety(files: seq<string>, run: seq<Job>, events: seq<Event>, i: nat, m: nat)
    requires Run(files, run, events) && i <= m < |run|
    ensures PhaseOk(run[m]) && Rank(run[i].phase) <= Rank(run[m].phase)
    ensures |run[i].tasks| == |run[m].tasks|
    ensures forall k :: 0 <= k < |run[i].tasks| ==> Advanced(run[i].tasks[k], run[m].tasks[k])
    ensures run[m].phase == DonePhase <==> forall k :: 0 <= k < |run[m].tasks| ==> run[m].tasks[k].status == Done
    decreases m
  {
    if m == 0 {
      assert run[0].tasks[0].status == Pending && run[0].tasks[0].tType == MapTask;
    } else {
      PhaseSafety(files, run, events, if i == m then m - 1 else i, m - 1);
      assert run[m - 1 + 1] == Next(run[m - 1], events[m - 1]);
      NextPhaseOk(run[m - 1], events[m - 1]);
      NextAdvances(run[m - 1], events[m - 1]);
    }
  }

  /** No reduce task is handed out before every map task is done. */
  lemma ReduceAfterMap(files: seq<string>, run: seq<Job>, events: seq<Event>, i: nat)
    requires Run(files, run, events) && i < |events| && events[i].GetTask?
    ensures var order := OnGetTask(run[i], events[i].worker, events[i].now).1;
            order.Work? && order.task.tType == ReduceTask ==> AllDone(run[i].tasks, MapTask)
  {
    PhaseSafety(files, run, events, i, i);
  }

  // ----- timeouts

  /** The event hands out task k. */
  ghost predicate HandsOut(j: Job, e: Event, k: nat) {
    e.GetTask? && j.phase != DonePhase && k < |j.tasks| && FindFrom(j, 0) == k
  }

  ghost predicate Timed(e: Event) {
    !e.Update?
  }

  /** Times never go back. */
  ghost predicate Monotone(events: seq<Event>) {
    forall a, b :: 0 <= a <= b < |events| && Timed(events[a]) && Timed(events[b]) ==> events[a].now <= events[b].now
  }

  /** At event r the task handed out at event i is taken back, more than ten seconds after
      the handout and after every ping of its owner. */
  ghost predicate TakenBack(run: seq<Job>, events: seq<Event>, i: nat, r: nat, k: nat)
    requires i < r < |events| <= |run| && events[i].GetTask?
  {
    && events[r].Check? && events[r].k == k && k < |run[r].tasks| && TimedOut(run[r].tasks[k], events[r].now)
    && events[r].now - events[i].now > 10_000
    && forall q :: i < q < r && events[q].Ping? && events[q].worker == events[i].worker ==>
        events[r].now - events[q].now > 10_000
  }

  /** The task is with the worker it was handed to, or done, and its last ping is no older
      than the handout and any ping of the worker. */
  ghost predicate With(run: seq<Job>, events: seq<Event>, i: nat, m: nat, k: nat)
    requires i < m <= |events| < |run| && events[i].GetTask? && k < |run[m].tasks|
  {
    var t := run[m].tasks[k];
    t.status != Pending &&
    (t.status == OnGoing ==>
       && t.workerId == events[i].worker && events[i].now <= t.lastPing
       && forall q :: i < q < m && events[q].Ping? && events[q].worker == events[i].worker ==>
           events[q].now <= t.lastPing)
  }

  lemma WithStep(run: seq<Job>, events: seq<Event>, i: nat, m: nat, k: nat)
    requires Monotone(events) && i < m < |events| < |run| && events[i].GetTask?
    requires k < |run[m].tasks| && With(run, events, i, m, k)
    requires (events[m].Check? ==> events[m].k < |run[m].tasks|) && run[m + 1] == Next(run[m], events[m])
    ensures k < |run[m + 1].tasks|
    ensures With(run, events, i, m + 1, k) || TakenBack(run, events, i, m, k)
  {
    var e, t, t' := events[m], run[m].tasks[k], run[m + 1].tasks[k];
    if t'.status == OnGoing {
      assert t.status == OnGoing && t'.workerId == t.workerId;
      assert t'.lastPing == t.lastPing || (e.Ping? && e.worker == t.workerId && t'.lastPing == e.now);
      forall q | i < q < m + 1 && events[q].Ping? && events[q].worker == events[i].worker
        ensures events[q].now <= t'.lastPing
      {
        assert q < m ==> events[q].now <= t.lastPing;
      }
    }
  }

  lemma WithStart(run: seq<Job>, events: seq<Event>, i: nat, k: nat)
    requires i < |events| < |run| && HandsOut(run[i], events[i], k) && run[i + 1] == Next(run[i], events[i])
    ensures k < |run[i + 1].tasks| && With(run, events, i, i + 1, k)
  {
  }

  lemma {:induction false} WithOrTakenBack(files: seq<string>, run: seq<Job>, events: seq<Event>,
                                           i: nat, m: nat, k: nat)
    requires Run(files, run, events) && Monotone(events)
    requires i < m <= |events| && HandsOut(run[i], events[i], k)
    ensures k < |run[m].tasks|
    ensures With(run, events, i, m, k) || exists r :: i < r < m && TakenBack(run, events, i, r, k)
  {
    var a := m - 1;
    if i == a {
      WithStart(run, events, i, k);
    } else {
      WithOrTakenBack(files, run, events, i, a, k);
      if With(run, events, i, a, k) {
        WithStep(run, events, i, a, k);
      } else {
        NextAdvances(run[a], events[a]);
      }
    }
  }

  /** Exclusivity: two handouts of one task have a timeout between them that took the task
      back more than ten seconds after the first handout and after every ping of its owner.
      Without timeouts each task is handed out at most once. */
  lemma HandedOutTwice(files: seq<string>, run: seq<Job>, events: seq<Event>, i: nat, m: nat, k: nat)
    requires Run(files, run, events) && Monotone(events)
    requires i < m < |events| && HandsOut(run[i], events[i], k) && HandsOut(run[m], events[m], k)
    ensures exists r :: i < r < m && TakenBack(run, events, i, r, k)
  {
    WithOrTakenBack(files, run, events, i, m, k);
  }

  /** The last ping of a task that is out is its handout or a ping of its worker since. */
  ghost predicate PingedAt(run: seq<Job>, events: seq<Event>, i: nat, m: nat, k: nat)
    requires i < m <= |events| < |run| && events[i].GetTask? && k < |run[m].tasks|
  {
    var t := run[m].tasks[k];
    t.workerId == events[i].worker &&
    (t.lastPing == events[i].now ||
     exists q :: i < q < m && events[q].Ping? && events[q].worker == events[i].worker && t.lastPing == events[q].now)
  }

  /** Nothing but the owner's pings touches the task handed out at event i, before event m. */
  ghost predicate LeftAlone(run: seq<Job>, events: seq<Event>, i: nat, m: nat, k: nat)
    requires m <= |events| <= |run|
  {
    forall q :: i < q < m ==> k < |run[q].tasks| && run[q].tasks[k].status == OnGoing
  }

  lemma PingedAtStep(run: seq<Job>, events: seq<Event>, i: nat, m: nat, k: nat)
    requires i < m < |events| < |run| && events[i].GetTask? && k < |run[m].tasks| && PingedAt(run, events, i, m, k)
    requires run[m].tasks[k].status == OnGoing
    requires (events[m].Check? ==> events[m].k < |run[m].tasks|) && run[m + 1] == Next(run[m], events[m])
    ensures k < |run[m + 1].tasks|
    ensures run[m + 1].tasks[k].status == OnGoing ==> PingedAt(run, events, i, m + 1, k)
  {
    var e, t, t' := events[m], run[m].tasks[k], run[m + 1].tasks[k];
    if t'.status == OnGoing {
      assert t'.workerId == t.workerId;
      assert t'.lastPing == t.lastPing || (e.Ping? && e.worker == t.workerId && t'.lastPing == e.now);
    }
  }

  lemma {:induction false} StaysPingedAt(files: seq<string>, run: seq<Job>, events: seq<Event>, i: nat, m: nat, k: nat)
    requires Run(files, run, events) && i < m <= |events| && HandsOut(run[i], events[i], k)
    requires LeftAlone(run, events, i, m, k)
    ensures k < |run[m].tasks|
    ensures run[m].tasks[k].status == OnGoing ==> PingedAt(run, events, i, m, k)
  {
    var a := m - 1;
    if i < a {
      StaysPingedAt(files, run, events, i, a, k);
      PingedAtStep(run, events, i, a, k);
    }
  }

  /** A silent worker loses its task: a task that is out since event i and is looked at more than
      ten seconds after its handout and after every ping of its worker becomes pending, with
      no worker. */
  lemma SilentIsTakenBack(files: seq<string>, run: seq<Job>, events: seq<Event>, i: nat, m: nat, k: nat)
    requires Run(files, run, events) && i < m < |events| && HandsOut(run[i], events[i], k)
    requires LeftAlone(run, events, i, m, k)
    requires events[m].Check? && events[m].k == k && events[m].now - events[i].now > 10_000
    requires forall q :: i < q < m && events[q].Ping? && events[q].worker == events[i].worker ==>
               events[m].now - events[q].now > 10_000
    requires k < |run[m].tasks| && run[m].tasks[k].status == OnGoing
    ensures k < |run[m + 1].tasks| && run[m + 1].tasks[k].status == Pending && run[m + 1].tasks[k].workerId == ""
  {
    StaysPingedAt(files, run, events, i, m, k);
  }

  // ----- ids

  /** Tasks are numbered from one, and the counter is at the last number given. */
  ghost predicate IdsOk(j: Job) {
    && |j.tasks| <= j.counter
    && forall i :: 0 <= i < |j.tasks| ==> j.tasks[i].id == Itoa(i + 1)
  }

  lemma {:induction false} RunIdsOk(files: seq<string>, run: seq<Job>, events: seq<Event>, m: nat)
    requires Run(files, run, events) && m < |run|
    ensures IdsOk(run[m])
  {
    if m > 0 {
      RunIdsOk(files, run, events, m - 1);
      assert run[m - 1 + 1] == Next(run[m - 1], events[m - 1]);
      NextAdvances(run[m - 1], events[m - 1]);
      assert forall i :: 0 <= i < |run[m].tasks| ==> Advanced(run[m - 1].tasks[i], run[m].tasks[i]);
    }
  }

  /** The id told to a worker that is to wait or exit is no task's, so reporting it changes
      nothing; different tasks have different ids. */
  lemma IdsApart(files: seq<string>, run: seq<Job>, events: seq<Event>, m: nat, worker: string, now: int)
    requires Run(files, run, events) && m < |run|
    ensures forall a, b :: 0 <= a < b < |run[m].tasks| ==> run[m].tasks[a].id != run[m].tasks[b].id
    ensures var order := OnGetTask(run[m], worker, now).1;
            !order.Work? ==> OnUpdate(run[m], order.id, Done).tasks == run[m].tasks
  {
    RunIdsOk(files, run, events, m);
    var j := run[m];
    forall a, b | 0 <= a < b < |j.tasks| ensures j.tasks[a].id != j.tasks[b].id {
      if j.tasks[a].id == j.tasks[b].id { ItoaInjective(a + 1, b + 1); }
    }
    var order := OnGetTask(j, worker, now).1;
    if !order.Work? {
      forall a | 0 <= a < |j.tasks| ensures j.tasks[a].id != order.id {
        if j.tasks[a].id == order.id { ItoaInjective(a + 1, j.counter + 1); }
      }
    }
  }
}
