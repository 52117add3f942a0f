/** The distributed program produces the output of the sequential one. */
module MrCorrectness {
  import opened Basics
  import opened Text
  import opened MrData
  import opened MrWorker
  import opened MrSystem
  import C = MrCoordinator
  import Seq = MrSequential

  // ----- the coordinator's part

  /** A step of the system is at most one event of the coordinator. */
  function JobEvent(p: Program, s: Sys, e: Step): Option<C.Event> {
    match e
    case Ask(_, name, now) => Some(C.GetTask(name, now))
    case Beat(name, now) => Some(C.Ping(name, now))
    case Expire(t, now) => Some(C.Check(t, now))
    case Report(w) =>
      if w < |s.workers| && s.workers[w].Reporting? && s.workers[w].t < |s.job.tasks|
      then Some(C.Update(s.job.tasks[s.workers[w].t].id)) else None
    case Stray(id) => Some(C.Update(id))
    case _ => None
  }

  /** Map tasks that are done stay done. */
  lemma MapsStayDone(p: Program, s: Sys, e: Step)
    requires Shape(p, s) && Possible(p, s, e)
    ensures Shape(p, Next(p, s, e))
    ensures forall t :: 0 <= t < |s.job.tasks| ==> C.Advanced(s.job.tasks[t], Next(p, s, e).job.tasks[t])
    ensures C.AllDone(s.job.tasks, C.MapTask) ==> C.AllDone(Next(p, s, e).job.tasks, C.MapTask)
  {
    var s', ev := Next(p, s, e), JobEvent(p, s, e);
    if ev.Some? {
      assert s'.job == C.Next(s.job, ev.value);
      C.NextAdvances(s.job, ev.value);
    } else {
      assert s'.job == s.job;
    }
    AdvancedStayDone(s.job.tasks, s'.job.tasks);
  }

  lemma AdvancedStayDone(a: seq<C.Task>, b: seq<C.Task>)
    requires |a| == |b| && forall t :: 0 <= t < |a| ==> C.Advanced(a[t], b[t])
    ensures C.AllDone(a, C.MapTask) ==> C.AllDone(b, C.MapTask)
  {
    if C.AllDone(a, C.MapTask) {
      forall t | 0 <= t < |b| && b[t].tType == C.MapTask ensures b[t].status == C.Done {
        assert C.Advanced(a[t], b[t]);
      }
    }
  }

  lemma JobStep(p: Program, s: Sys, e: Step)
    requires JobOk(p, s) && Possible(p, s, e)
    ensures JobOk(p, Next(p, s, e))
  {
    var s', ev := Next(p, s, e), JobEvent(p, s, e);
    MapsStayDone(p, s, e);
    forall t | 0 <= t < |s'.job.tasks| ensures C.Advanced(InitialTask(p, t), s'.job.tasks[t]) {
      assert C.Advanced(s.job.tasks[t], s'.job.tasks[t]);
    }
    if ev.Some? {
      assert s'.job == C.Next(s.job, ev.value);
      C.NextPhaseOk(s.job, ev.value);
      C.NextAdvances(s.job, ev.value);
    } else {
      assert s'.job == s.job;
    }
  }

  function InitialTask(p: Program, t: nat): C.Task {
    C.InitialTask(p.files, t)
  }

  /** The step reports task t as done. */
  predicate Reports(s: Sys, e: Step, t: nat) {
    e.Report? && e.w < |s.workers| && s.workers[e.w].Reporting? && s.workers[e.w].t == t
  }

  /** Only a report completes a task, and a completed task stays so. */
  lemma StatusStep(p: Program, s: Sys, e: Step, t: nat)
    requires JobOk(p, s) && Possible(p, s, e) && t < |s.job.tasks|
    ensures |Next(p, s, e).job.tasks| == |s.job.tasks|
    ensures var st, st' := s.job.tasks[t].status, Next(p, s, e).job.tasks[t].status;
            && (st == C.Done ==> st' == C.Done)
            && (st' == C.Done ==> st == C.Done || Reports(s, e, t))
            && (Reports(s, e, t) ==> st' == C.Done)
  {
    if e.Report? {
      ReportStatus(p, s, s.workers[e.w].t, t);
    } else {
      OtherStatus(p, s, e, t);
    }
  }

  lemma OtherStatus(p: Program, s: Sys, e: Step, t: nat)
    requires Shape(p, s) && Possible(p, s, e) && !e.Report? && t < |s.job.tasks|
    ensures |Next(p, s, e).job.tasks| == |s.job.tasks|
    ensures Next(p, s, e).job.tasks[t].status == C.Done <==> s.job.tasks[t].status == C.Done
  {
    if JobEvent(p, s, e).Some? {
      C.NextStatus(s.job, JobEvent(p, s, e).value, t);
    }
  }

  /** A report completes its own task and leaves the others alone. */
  lemma ReportStatus(p: Program, s: Sys, u: nat, t: nat)
    requires JobOk(p, s) && t < |s.job.tasks| && u < |s.job.tasks|
    ensures var tasks := C.OnUpdate(s.job, s.job.tasks[u].id, C.Done).tasks;
            |tasks| == |s.job.tasks| && tasks[t].status == if t == u then C.Done else s.job.tasks[t].status
  {
    DistinctIds(p, s, u, t);
  }

  lemma DistinctIds(p: Program, s: Sys, t: nat, u: nat)
    requires JobOk(p, s) && t < |s.job.tasks| && u < |s.job.tasks|
    ensures s.job.tasks[t].id == s.job.tasks[u].id ==> t == u
  {
    assert C.Advanced(InitialTask(p, t), s.job.tasks[t]) && C.Advanced(InitialTask(p, u), s.job.tasks[u]);
    assert s.job.tasks[t].id == Itoa(t + 1) && s.job.tasks[u].id == Itoa(u + 1);
    if s.job.tasks[t].id == s.job.tasks[u].id {
      ItoaInjective(t + 1, u + 1);
    }
  }

  // ----- what stays true of files

  /** The worker that takes the step, if one does. */
  function Actor(e: Step): Option<nat> {
    match e
    case Beat(_, _) => None
    case Expire(_, _) => None
    case Stray(_) => None
    case _ => Some(e.w)
  }

  /** Output that is being written passes the test. */
  ghost predicate Accepted(p: Program, ok: Accept, s: Sys, e: Step) {
    e.WriteOut? && e.w < |s.workers| && s.workers[e.w].Reading? && s.workers[e.w].t >= |p.files| ==>
      ok(e.lines, s.workers[e.w].t - |p.files|)
  }

  /** An attempt that writes writes the output of its own bucket. */
  ghost predicate OwnOutput(p: Program, s: Sys, e: Step) {
    e.WriteOut? && e.w < |s.workers| && s.workers[e.w].Reading? && s.workers[e.w].t < |s.job.tasks| ==>
      s.job.tasks[s.workers[e.w].t].idx == s.workers[e.w].t - |p.files|
  }

  ghost predicate ActorOk(p: Program, ok: Accept, s: Sys, e: Step)
    requires Shape(p, s)
  {
    Actor(e).Some? && Actor(e).value < |s.workers| ==>
      WorkerOk(p, ok, s, s.workers[Actor(e).value]) && Accepted(p, ok, s, e) && OwnOutput(p, s, e)
  }

  lemma ActorIsOk(p: Program, ok: Accept, s: Sys, e: Step)
    requires Inv(p, ok, s) && Possible(p, s, e) && Accepted(p, ok, s, e)
    ensures ActorOk(p, ok, s, e)
  {
    if e.WriteOut? {
      assert WorkerOk(p, ok, s, s.workers[e.w]);
      TaskSays(p, s, s.workers[e.w].t);
    }
  }

  /** Only the actor moves. */
  lemma OthersStand(p: Program, s: Sys, e: Step, v: nat)
    requires Shape(p, s) && Possible(p, s, e) && v < |s.workers|
    ensures |Next(p, s, e).workers| == |s.workers|
    ensures Actor(e) == Some(v) || Next(p, s, e).workers[v] == s.workers[v]
  {
  }

  /** A worker that has begun to delete goes on to report. */
  lemma BegunStays(p: Program, s: Sys, e: Step, v: nat, t: nat)
    requires Shape(p, s) && Possible(p, s, e) && v < |s.workers| && Begun(p, s.workers[v], t) && !Reports(s, e, t)
    ensures |Next(p, s, e).workers| == |s.workers| && Begun(p, Next(p, s, e).workers[v], t)
  {
  }

  lemma ConsumedStays(p: Program, s: Sys, e: Step, i: nat)
    requires JobOk(p, s) && Possible(p, s, e) && i < p.n && Consumed(p, s, i)
    ensures Shape(p, Next(p, s, e)) && Consumed(p, Next(p, s, e), i)
  {
    var s', t := Next(p, s, e), |p.files| + i;
    MapsStayDone(p, s, e);
    StatusStep(p, s, e, t);
    if s.job.tasks[t].status != C.Done {
      var w :| 0 <= w < |s.workers| && Begun(p, s.workers[w], t);
      if !Reports(s, e, t) {
        BegunStays(p, s, e, w, t);
      }
    }
  }

  /** Deleting a bucket file means its bucket is consumed. */
  lemma PresentStays(p: Program, ok: Accept, s: Sys, e: Step, t: nat, i: nat)
    requires JobOk(p, s) && Possible(p, s, e) && ActorOk(p, ok, s, e) && i < p.n && Present(p, s, t, i)
    ensures Shape(p, Next(p, s, e)) && Present(p, Next(p, s, e), t, i)
  {
    var s' := Next(p, s, e);
    MapsStayDone(p, s, e);
    if Consumed(p, s, i) {
      ConsumedStays(p, s, e, i);
    } else if e.DeleteFile? && s.workers[e.w].names[s.workers[e.w].k] == BucketFile(t, i) {
      assert WorkerOk(p, ok, s, s.workers[e.w]);
      assert s.workers[e.w].names[s.workers[e.w].k] in s.workers[e.w].names;
      assert Begun(p, s'.workers[e.w], |p.files| + i);
    }
  }

  /** The map tasks below m that are not listed. */
  function Missing(ts: seq<nat>, m: nat): seq<nat> {
    if m == 0 then [] else Missing(ts, m - 1) + if m - 1 in ts then [] else [m - 1]
  }

  lemma {:induction false} MissingHas(ts: seq<nat>, m: nat)
    ensures Distinct(Missing(ts, m)) && forall t: nat :: t in Missing(ts, m) <==> t < m && t !in ts
  {
    if m > 0 {
      MissingHas(ts, m - 1);
    }
  }

  lemma {:induction false} MappedConcat(p: Program, a: seq<nat>, b: seq<nat>)
    ensures MappedAll(p, a + b) == MappedAll(p, a) + MappedAll(p, b)
  {
    if b == [] {
      assert a + b == a;
    } else {
      var front, last := b[..|b| - 1], b[|b| - 1];
      MappedConcat(p, a, front);
      assert a + b == (a + front) + [last];
      MappedSnoc(p, a + front, last);
      SumAssociates(MappedAll(p, a), MappedAll(p, front), Mapped(p, last));
    }
  }

  lemma SumAssociates(x: multiset<KV>, y: multiset<KV>, z: multiset<KV>)
    ensures (x + y) + z == x + (y + z)
  {
  }

  /** All pairs are those of the listed tasks and those of the missing ones. */
  lemma TotalSplit(p: Program, ts: seq<nat>)
    requires Distinct(ts) && forall t :: t in ts ==> t < |p.files|
    ensures Total(p) == MappedAll(p, ts) + MappedAll(p, Missing(ts, |p.files|))
  {
    var rest, all := Missing(ts, |p.files|), Range(|p.files|);
    RangeHas(|p.files|);
    MissingHas(ts, |p.files|);
    DistinctConcat(ts, rest);
    DistinctSame(ts + rest, all);
    MappedPermuted(p, ts + rest, all);
    MappedConcat(p, ts, rest);
  }

  /** A pair is among those of some tasks exactly if it is among those of one of them. */
  lemma {:induction false} MappedHas(p: Program, ts: seq<nat>, kv: KV)
    ensures MappedAll(p, ts)[kv] > 0 <==> exists j :: 0 <= j < |ts| && Mapped(p, ts[j])[kv] > 0
  {
    if ts != [] {
      var front := ts[..|ts| - 1];
      MappedHas(p, front, kv);
      if exists j :: 0 <= j < |ts| && Mapped(p, ts[j])[kv] > 0 {
        var j :| 0 <= j < |ts| && Mapped(p, ts[j])[kv] > 0;
        assert j < |front| ==> front[j] == ts[j];
      }
    }
  }

  lemma InputTasks(p: Program, names: seq<FileName>, i: nat)
    requires IsInput(p, names, i)
    ensures Distinct(TasksOf(names)) && forall t: nat :: t in TasksOf(names) <==> BucketFile(t, i) in names
    ensures forall t :: t in TasksOf(names) ==> t < |p.files|
  {
    var ts := TasksOf(names);
    forall a, b | 0 <= a < b < |ts| ensures ts[a] != ts[b] {
      assert names[a] in names && names[b] in names;
    }
    forall t: nat ensures t in ts <==> BucketFile(t, i) in names {
      if t in ts {
        var a :| 0 <= a < |ts| && ts[a] == t;
        assert names[a] in names;
      }
      if BucketFile(t, i) in names {
        var a :| 0 <= a < |names| && names[a] == BucketFile(t, i);
        assert ts[a] == t;
      }
    }
  }

  /** No pair of bucket i is in the multiset. */
  ghost predicate Absent(rest: multiset<KV>, hash: string -> nat, n: nat, i: nat)
    requires n > 0
  {
    forall kv: KV :: Slot(hash, n, kv.key) == i ==> rest[kv] == 0
  }

  /** The missing tasks have no pair of bucket i exactly if the names cover the bucket. */
  lemma CoversIff(p: Program, names: seq<FileName>, i: nat)
    requires p.n > 0 && IsInput(p, names, i)
    ensures var rest := MappedAll(p, Missing(TasksOf(names), |p.files|));
            Covers(p, names, i) <==> Absent(rest, p.hash, p.n, i)
  {
    var missing := Missing(TasksOf(names), |p.files|);
    var rest := MappedAll(p, missing);
    InputTasks(p, names, i);
    MissingHas(TasksOf(names), |p.files|);
    if Covers(p, names, i) {
      forall kv: KV | Slot(p.hash, p.n, kv.key) == i ensures rest[kv] == 0 {
        MappedHas(p, missing, kv);
        forall j | 0 <= j < |missing| ensures Mapped(p, missing[j])[kv] == 0 {
          assert missing[j] in missing;
          assert NoPairs(p, missing[j], i);
        }
      }
    } else {
      var t: nat :| t < |p.files| && BucketFile(t, i) !in names && !NoPairs(p, t, i);
      var kv :| Mapped(p, t)[kv] > 0 && Slot(p.hash, p.n, kv.key) == i;
      assert t in missing;
      var j :| 0 <= j < |missing| && missing[j] == t;
      MappedHas(p, missing, kv);
    }
  }

  lemma {:induction false} NamedTasks(p: Program, names: seq<FileName>, k: nat)
    requires k <= |names| && forall f :: f in names ==> f.BucketFile?
    ensures MappedNamed(p, names, k) == MappedAll(p, TasksOf(names[..k]))
  {
    if k > 0 {
      NamedTasks(p, names, k - 1);
      assert names[k - 1] in names;
      assert TasksOf(names[..k]) == TasksOf(names[..k - 1]) + [names[k - 1].task];
      MappedSnoc(p, TasksOf(names[..k - 1]), names[k - 1].task);
    }
  }

  /** An attempt that has read the files it listed has read the whole bucket if and only if
      they cover it. */
  lemma ReadWhole(p: Program, names: seq<FileName>, kvs: seq<KV>, i: nat)
    requires p.n > 0 && HasRead(p, names, |names|, kvs, i)
    ensures IsBucket(kvs, Total(p), p.hash, p.n, i) <==> Covers(p, names, i)
  {
    NamedTasks(p, names, |names|);
    assert names[..|names|] == names;
    InputTasks(p, names, i);
    TotalSplit(p, TasksOf(names));
    CoversIff(p, names, i);
    WholeIff(kvs, MappedAll(p, TasksOf(names)), MappedAll(p, Missing(TasksOf(names), |p.files|)), p.hash, p.n, i);
  }

  lemma WholeIff(kvs: seq<KV>, read: multiset<KV>, rest: multiset<KV>, hash: string -> nat, n: nat, i: nat)
    requires n > 0 && IsBucket(kvs, read, hash, n, i)
    ensures IsBucket(kvs, read + rest, hash, n, i) <==> Absent(rest, hash, n, i)
  {
    if IsBucket(kvs, read + rest, hash, n, i) {
      forall kv: KV | Slot(hash, n, kv.key) == i ensures rest[kv] == 0 {
        assert multiset(kvs)[kv] == read[kv] == (read + rest)[kv];
      }
    }
  }

  /** Output files are never deleted and change only by being written. */
  lemma OutFileStays(p: Program, ok: Accept, s: Sys, e: Step, i: nat)
    requires Shape(p, s) && Possible(p, s, e) && ActorOk(p, ok, s, e) && OutFile(i) in s.files
    ensures OutFile(i) in Next(p, s, e).files
    ensures Next(p, s, e).files[OutFile(i)] ==
            if e.WriteOut? && s.workers[e.w].t - |p.files| == i then Text(e.lines) else s.files[OutFile(i)]
  {
    if e.DeleteFile? {
      assert WorkerOk(p, ok, s, s.workers[e.w]);
      assert s.workers[e.w].names[s.workers[e.w].k] in s.workers[e.w].names;
    }
  }

  lemma OutStays(p: Program, ok: Accept, s: Sys, e: Step, i: nat)
    requires Shape(p, s) && Possible(p, s, e) && ActorOk(p, ok, s, e) && OutOk(ok, s, i)
    ensures OutOk(ok, Next(p, s, e), i)
  {
    OutFileStays(p, ok, s, e, i);
  }

  lemma FilesStep(p: Program, ok: Accept, s: Sys, e: Step)
    requires Inv(p, ok, s) && Possible(p, s, e)
    ensures FilesOk(p, Next(p, s, e))
  {
    if e.WriteBucket? {
      assert WorkerOk(p, ok, s, s.workers[e.w]);
    }
  }

  lemma ProducedStays(p: Program, ok: Accept, s: Sys, e: Step, t: nat)
    requires JobOk(p, s) && Possible(p, s, e) && ActorOk(p, ok, s, e) && Produced(p, ok, s, t)
    ensures Shape(p, Next(p, s, e)) && Produced(p, ok, Next(p, s, e), t)
  {
    MapsStayDone(p, s, e);
    if t < |p.files| {
      forall i | 0 <= i < p.n ensures Present(p, Next(p, s, e), t, i) {
        PresentStays(p, ok, s, e, t, i);
      }
    } else {
      OutStays(p, ok, s, e, t - |p.files|);
    }
  }

  // ----- workers

  /** The facts about task t that a worker relies on, carried from s to s'. */
  ghost predicate Lasts(p: Program, ok: Accept, s: Sys, s': Sys, t: nat)
    requires Shape(p, s) && Shape(p, s')
  {
    && (C.AllDone(s.job.tasks, C.MapTask) ==> C.AllDone(s'.job.tasks, C.MapTask))
    && (t < |p.files| ==> forall i :: 0 <= i < p.n && Present(p, s, t, i) ==> Present(p, s', t, i))
    && (t >= |p.files| && OutOk(ok, s, t - |p.files|) ==> OutOk(ok, s', t - |p.files|))
  }

  lemma WorkerKept(p: Program, ok: Accept, s: Sys, s': Sys, w: Worker)
    requires Shape(p, s) && Shape(p, s') && WorkerOk(p, ok, s, w)
    requires !w.Idle? && !w.Stopped? ==> Lasts(p, ok, s, s', w.t)
    ensures WorkerOk(p, ok, s', w)
  {
  }

  lemma StepLasts(p: Program, ok: Accept, s: Sys, e: Step, t: nat)
    requires JobOk(p, s) && Possible(p, s, e) && ActorOk(p, ok, s, e)
    ensures Shape(p, Next(p, s, e)) && Lasts(p, ok, s, Next(p, s, e), t)
  {
    if t < |p.files| {
      MapLasts(p, ok, s, e, t);
    } else {
      ReduceLasts(p, ok, s, e, t);
    }
  }

  lemma MapLasts(p: Program, ok: Accept, s: Sys, e: Step, t: nat)
    requires JobOk(p, s) && Possible(p, s, e) && ActorOk(p, ok, s, e) && t < |p.files|
    ensures Shape(p, Next(p, s, e)) && Lasts(p, ok, s, Next(p, s, e), t)
  {
    MapsStayDone(p, s, e);
    PresentsLast(p, ok, s, e, t);
  }

  lemma ReduceLasts(p: Program, ok: Accept, s: Sys, e: Step, t: nat)
    requires Shape(p, s) && Possible(p, s, e) && ActorOk(p, ok, s, e) && t >= |p.files|
    ensures Shape(p, Next(p, s, e)) && Lasts(p, ok, s, Next(p, s, e), t)
  {
    MapsStayDone(p, s, e);
    OutLasts(p, ok, s, e, t - |p.files|);
    LastsOut(p, ok, s, Next(p, s, e), t);
  }

  lemma LastsOut(p: Program, ok: Accept, s: Sys, s': Sys, t: nat)
    requires Shape(p, s) && Shape(p, s') && t >= |p.files|
    requires C.AllDone(s.job.tasks, C.MapTask) ==> C.AllDone(s'.job.tasks, C.MapTask)
    requires OutOk(ok, s, t - |p.files|) ==> OutOk(ok, s', t - |p.files|)
    ensures Lasts(p, ok, s, s', t)
  {
  }

  lemma PresentsLast(p: Program, ok: Accept, s: Sys, e: Step, t: nat)
    requires JobOk(p, s) && Possible(p, s, e) && ActorOk(p, ok, s, e)
    ensures Shape(p, Next(p, s, e))
    ensures forall i :: 0 <= i < p.n && Present(p, s, t, i) ==> Present(p, Next(p, s, e), t, i)
  {
    MapsStayDone(p, s, e);
    forall i | 0 <= i < p.n && Present(p, s, t, i) ensures Present(p, Next(p, s, e), t, i) {
      PresentStays(p, ok, s, e, t, i);
    }
  }

  lemma OutLasts(p: Program, ok: Accept, s: Sys, e: Step, i: nat)
    requires Shape(p, s) && Possible(p, s, e) && ActorOk(p, ok, s, e)
    ensures OutOk(ok, s, i) ==> OutOk(ok, Next(p, s, e), i)
  {
    if OutOk(ok, s, i) {
      OutStays(p, ok, s, e, i);
    }
  }

  /** What is known about a worker stays true when others act. */
  lemma WorkerStays(p: Program, ok: Accept, s: Sys, e: Step, w: Worker)
    requires JobOk(p, s) && Possible(p, s, e) && ActorOk(p, ok, s, e) && WorkerOk(p, ok, s, w)
    ensures Shape(p, Next(p, s, e)) && WorkerOk(p, ok, Next(p, s, e), w)
  {
    MapsStayDone(p, s, e);
    if !w.Idle? && !w.Stopped? {
      StepLasts(p, ok, s, e, w.t);
    }
    WorkerKept(p, ok, s, Next(p, s, e), w);
  }

  /** A reduce task is handed out when all map tasks are done. */
  lemma AskOk(p: Program, ok: Accept, s: Sys, e: Step)
    requires JobOk(p, s) && Possible(p, s, e) && e.Ask?
    ensures Shape(p, Next(p, s, e)) && WorkerOk(p, ok, Next(p, s, e), Next(p, s, e).workers[e.w])
  {
    var s', t := Next(p, s, e), C.FindFrom(s.job, 0);
    MapsStayDone(p, s, e);
    if t < |s.job.tasks| {
      TaskSays(p, s, t);
    }
    if s'.workers[e.w].ReduceHeld? {
      assert C.Advanced(InitialTask(p, t), s.job.tasks[t]);
      assert s.job.phase == C.ReducePhase;
    }
  }

  lemma MapSideOk(p: Program, ok: Accept, s: Sys, e: Step)
    requires JobOk(p, s) && Possible(p, s, e) && ActorOk(p, ok, s, e) && (e.DoMap? || e.WriteBucket? || e.EndMap?)
    ensures Shape(p, Next(p, s, e)) && WorkerOk(p, ok, Next(p, s, e), Next(p, s, e).workers[e.w])
  {
    var s', k := Next(p, s, e), s.workers[e.w];
    MapsStayDone(p, s, e);
    assert WorkerOk(p, ok, s, k);
    if e.DoMap? {
      TaskSays(p, s, k.t);
      forall i | 0 <= i < p.n ensures IsBucket(s'.workers[e.w].buckets[i], Mapped(p, k.t), p.hash, p.n, i) {
        BucketIsBucket(e.pairs, p.hash, p.n, i);
      }
    } else if e.WriteBucket? {
      forall i | 0 <= i < p.n && i !in k.todo - {e.i} ensures Present(p, s', k.t, i) {
        if i != e.i {
          PresentStays(p, ok, s, e, k.t, i);
        }
      }
    } else {
      forall i | 0 <= i < p.n ensures Present(p, s', k.t, i) { PresentStays(p, ok, s, e, k.t, i); }
    }
  }

  /** A glob finds bucket files of its own bucket only. */
  lemma GlobFinds(p: Program, s: Sys, f: FileName, i: nat)
    requires p.n > 0 && FilesOk(p, s) && f in s.files && Selected("mr-*-" + Itoa(i) + ".json", f)
    ensures f.BucketFile? && f.i == i && f.task < |p.files|
  {
    if f.Other? {
      PatternSelects(i, f.name);
    } else {
      GlobSelects(f, i);
    }
  }

  lemma GlobOk(p: Program, s: Sys, names: seq<FileName>, i: nat)
    requires p.n > 0 && FilesOk(p, s) && Listing(s.files, names, "mr-*-" + Itoa(i) + ".json")
    ensures IsInput(p, names, i)
  {
    forall f | f in names ensures f.BucketFile? && f.i == i && f.task < |p.files| {
      var selected := Selected("mr-*-" + Itoa(i) + ".json", f);
      assert f in s.files && selected;
      GlobFinds(p, s, f, i);
    }
  }

  /** Reading one more file adds its pairs. */
  lemma BucketAppend(p: Program, a: seq<KV>, ma: multiset<KV>, b: seq<KV>, mb: multiset<KV>, i: nat)
    requires p.n > 0 && IsBucket(a, ma, p.hash, p.n, i) && IsBucket(b, mb, p.hash, p.n, i)
    ensures IsBucket(a + b, ma + mb, p.hash, p.n, i)
  {
    assert multiset(a + b) == multiset(a) + multiset(b);
  }

  lemma ReadBucket(p: Program, names: seq<FileName>, k: nat, kvs: seq<KV>, f: File, i: nat)
    requires p.n > 0 && HasRead(p, names, k, kvs, i) && k < |names| && names[k].BucketFile?
    requires BucketContent(p, f, names[k].task, i)
    ensures HasRead(p, names, k + 1, kvs + f.kvs, i)
  {
    BucketAppend(p, kvs, MappedNamed(p, names, k), f.kvs, Mapped(p, names[k].task), i);
  }

  lemma NothingRead(p: Program, names: seq<FileName>, i: nat)
    requires p.n > 0 && IsInput(p, names, i)
    ensures HasRead(p, names, 0, [], i)
  {
  }

  /** A listed file that is there holds its bucket. */
  lemma NamedContent(p: Program, s: Sys, names: seq<FileName>, k: nat, i: nat)
    requires p.n > 0 && FilesOk(p, s) && IsInput(p, names, i) && k < |names| && names[k] in s.files
    ensures names[k].BucketFile? && BucketContent(p, s.files[names[k]], names[k].task, i)
  {
    assert names[k] in names;
  }

  /** Once the input of a reduce task is being deleted, or the task is done, its output is there. */
  lemma ConsumedIsOut(p: Program, ok: Accept, s: Sys, i: nat)
    requires Inv(p, ok, s) && i < p.n && Consumed(p, s, i)
    ensures OutOk(ok, s, i)
  {
    var t := |p.files| + i;
    if s.job.tasks[t].status == C.Done {
      assert Produced(p, ok, s, t);
    } else {
      var w :| 0 <= w < |s.workers| && Begun(p, s.workers[w], t);
      assert WorkerOk(p, ok, s, s.workers[w]);
    }
  }

  /** When all map tasks are done every bucket file is there, or its bucket is consumed. */
  lemma InputPresent(p: Program, ok: Accept, s: Sys, t: nat, i: nat)
    requires Inv(p, ok, s) && C.AllDone(s.job.tasks, C.MapTask) && t < |p.files| && i < p.n
    ensures Present(p, s, t, i)
  {
    assert C.Advanced(InitialTask(p, t), s.job.tasks[t]);
    assert s.job.tasks[t].status == C.Done;
    assert Produced(p, ok, s, t);
  }

  /** An attempt whose input has been deleted meanwhile reports, and the output is there. */
  lemma FileGone(p: Program, ok: Accept, s: Sys, e: Step)
    requires Inv(p, ok, s) && Possible(p, s, e) && e.ReadFile?
    requires s.workers[e.w].names[s.workers[e.w].k] !in s.files
    ensures |p.files| <= s.workers[e.w].t && OutOk(ok, s, s.workers[e.w].t - |p.files|)
  {
    var k := s.workers[e.w];
    assert WorkerOk(p, ok, s, k);
    var f := k.names[k.k];
    assert f in k.names && f == BucketFile(f.task, k.t - |p.files|);
    InputPresent(p, ok, s, f.task, k.t - |p.files|);
    ConsumedIsOut(p, ok, s, k.t - |p.files|);
  }

  lemma ReadingGoesOn(p: Program, ok: Accept, s: Sys, t: nat, names: seq<FileName>, k: nat, kvs: seq<KV>)
    requires Shape(p, s) && ReduceRuns(p, s, t)
    requires HasRead(p, names, k, kvs, t - |p.files|)
    ensures WorkerOk(p, ok, s, Reading(t, names, k, kvs))
  {
  }

  /** Reading a file that is there. */
  lemma ReadsOn(p: Program, s: Sys, names: seq<FileName>, k: nat, kvs: seq<KV>, i: nat)
    requires p.n > 0 && FilesOk(p, s) && HasRead(p, names, k, kvs, i) && k < |names| && names[k] in s.files
    ensures HasRead(p, names, k + 1, kvs + Content(s.files[names[k]]), i)
  {
    NamedContent(p, s, names, k, i);
    ReadBucket(p, names, k, kvs, s.files[names[k]], i);
  }

  lemma ReadThereOk(p: Program, ok: Accept, s: Sys, e: Step)
    requires Shape(p, s) && FilesOk(p, s) && Possible(p, s, e) && e.ReadFile? && WorkerOk(p, ok, s, s.workers[e.w])
    requires s.workers[e.w].names[s.workers[e.w].k] in s.files
    ensures Shape(p, Next(p, s, e)) && WorkerOk(p, ok, Next(p, s, e), Next(p, s, e).workers[e.w])
  {
    var k := s.workers[e.w];
    var w := Reading(k.t, k.names, k.k + 1, k.kvs + Content(s.files[k.names[k.k]]));
    assert Next(p, s, e) == s.(workers := s.workers[e.w := w]);
    ReadsOneMore(p, ok, s, Next(p, s, e), k, w);
  }

  lemma ReadsOneMore(p: Program, ok: Accept, s: Sys, s': Sys, k: Worker, w: Worker)
    requires Shape(p, s) && FilesOk(p, s) && k.Reading? && WorkerOk(p, ok, s, k) && s'.job == s.job
    requires k.k < |k.names| && k.names[k.k] in s.files
    requires w == Reading(k.t, k.names, k.k + 1, k.kvs + Content(s.files[k.names[k.k]]))
    ensures WorkerOk(p, ok, s', w)
  {
    ReadsOn(p, s, k.names, k.k, k.kvs, k.t - |p.files|);
    assert ReduceRuns(p, s', k.t);
    ReadingGoesOn(p, ok, s', w.t, w.names, w.k, w.kvs);
  }

  lemma ReadGoneOk(p: Program, ok: Accept, s: Sys, e: Step)
    requires Inv(p, ok, s) && Possible(p, s, e) && e.ReadFile?
    requires s.workers[e.w].names[s.workers[e.w].k] !in s.files
    ensures Shape(p, Next(p, s, e)) && WorkerOk(p, ok, Next(p, s, e), Next(p, s, e).workers[e.w])
  {
    var k := s.workers[e.w];
    assert WorkerOk(p, ok, s, k);
    FileGone(p, ok, s, e);
    assert ReduceRuns(p, s, k.t) && Next(p, s, e) == s.(workers := s.workers[e.w := Reporting(k.t)]);
  }

  lemma ReadOk(p: Program, ok: Accept, s: Sys, e: Step)
    requires Inv(p, ok, s) && Possible(p, s, e) && e.ReadFile?
    ensures Shape(p, Next(p, s, e)) && WorkerOk(p, ok, Next(p, s, e), Next(p, s, e).workers[e.w])
  {
    assert WorkerOk(p, ok, s, s.workers[e.w]);
    if s.workers[e.w].names[s.workers[e.w].k] in s.files {
      ReadThereOk(p, ok, s, e);
    } else {
      ReadGoneOk(p, ok, s, e);
    }
  }

  lemma ReadingStarts(p: Program, ok: Accept, s: Sys, t: nat, names: seq<FileName>)
    requires Shape(p, s) && ReduceRuns(p, s, t) && IsInput(p, names, t - |p.files|)
    ensures WorkerOk(p, ok, s, Reading(t, names, 0, []))
  {
    NothingRead(p, names, t - |p.files|);
    ReadingGoesOn(p, ok, s, t, names, 0, []);
  }

  lemma GlobLists(p: Program, s: Sys, e: Step)
    requires Shape(p, s) && Possible(p, s, e) && e.Glob?
    ensures Listing(s.files, e.names, s.job.tasks[s.workers[e.w].t].input)
    ensures Next(p, s, e) == s.(workers := s.workers[e.w := Reading(s.workers[e.w].t, e.names, 0, [])])
  {
  }

  lemma GlobStepOk(p: Program, ok: Accept, s: Sys, e: Step)
    requires JobOk(p, s) && FilesOk(p, s) && Possible(p, s, e) && e.Glob? && WorkerOk(p, ok, s, s.workers[e.w])
    ensures Shape(p, Next(p, s, e)) && WorkerOk(p, ok, Next(p, s, e), Next(p, s, e).workers[e.w])
  {
    var t := s.workers[e.w].t;
    GlobLists(p, s, e);
    TaskSays(p, s, t);
    GlobOk(p, s, e.names, t - |p.files|);
    ReadingStarts(p, ok, Next(p, s, e), t, e.names);
  }

  lemma WritesOwn(p: Program, ok: Accept, s: Sys, e: Step)
    requires Shape(p, s) && Possible(p, s, e) && e.WriteOut? && ActorOk(p, ok, s, e)
    ensures var k := s.workers[e.w];
            && |p.files| <= k.t < |p.files| + p.n && s.job.tasks[k.t].idx == k.t - |p.files|
            && Next(p, s, e) == Sys(s.job, s.files[OutFile(k.t - |p.files|) := Text(e.lines)],
                                    s.workers[e.w := Deleting(k.t, k.names, 0)])
  {
  }

  lemma DeletingStarts(p: Program, ok: Accept, s: Sys, s': Sys, k: Worker)
    requires Shape(p, s) && s'.job == s.job && k.Reading? && WorkerOk(p, ok, s, k)
    requires |p.files| <= k.t && OutOk(ok, s', k.t - |p.files|)
    ensures WorkerOk(p, ok, s', Deleting(k.t, k.names, 0))
  {
    assert ReduceRuns(p, s', k.t);
  }

  lemma WriteOutOk(p: Program, ok: Accept, s: Sys, e: Step)
    requires Shape(p, s) && Possible(p, s, e) && ActorOk(p, ok, s, e) && e.WriteOut?
    ensures Shape(p, Next(p, s, e)) && WorkerOk(p, ok, Next(p, s, e), Next(p, s, e).workers[e.w])
  {
    WritesOwn(p, ok, s, e);
    DeletingStarts(p, ok, s, Next(p, s, e), s.workers[e.w]);
  }

  /** A deleting attempt that has one file less to delete, or none left, is still in order. */
  lemma DeletingGoesOn(p: Program, ok: Accept, s: Sys, s': Sys, k: Worker)
    requires Shape(p, s) && s'.job == s.job && k.Deleting? && WorkerOk(p, ok, s, k)
    requires |p.files| <= k.t && OutOk(ok, s', k.t - |p.files|)
    ensures k.k < |k.names| ==> WorkerOk(p, ok, s', Deleting(k.t, k.names, k.k + 1))
    ensures WorkerOk(p, ok, s', Reporting(k.t))
  {
    assert ReduceRuns(p, s', k.t);
  }

  lemma DeleteOk(p: Program, ok: Accept, s: Sys, e: Step)
    requires Shape(p, s) && Possible(p, s, e) && e.DeleteFile? && WorkerOk(p, ok, s, s.workers[e.w])
    ensures Shape(p, Next(p, s, e)) && WorkerOk(p, ok, Next(p, s, e), Next(p, s, e).workers[e.w])
  {
    var s', k := Next(p, s, e), s.workers[e.w];
    assert k.names[k.k] in k.names;
    assert s' == Sys(s.job, s.files - {k.names[k.k]}, s.workers[e.w := Deleting(k.t, k.names, k.k + 1)]);
    DeletingGoesOn(p, ok, s, s', k);
  }

  lemma EndReduceOk(p: Program, ok: Accept, s: Sys, e: Step)
    requires Shape(p, s) && Possible(p, s, e) && e.EndReduce? && WorkerOk(p, ok, s, s.workers[e.w])
    ensures Shape(p, Next(p, s, e)) && WorkerOk(p, ok, Next(p, s, e), Next(p, s, e).workers[e.w])
  {
    DeletingGoesOn(p, ok, s, Next(p, s, e), s.workers[e.w]);
  }

  lemma ActorStep(p: Program, ok: Accept, s: Sys, e: Step)
    requires Inv(p, ok, s) && Possible(p, s, e) && Accepted(p, ok, s, e) && Actor(e).Some?
    ensures Shape(p, Next(p, s, e)) && e.w < |s.workers| == |Next(p, s, e).workers|
    ensures WorkerOk(p, ok, Next(p, s, e), Next(p, s, e).workers[e.w])
  {
    ActorIsOk(p, ok, s, e);
    match e
    case Ask(_, _, _) => AskOk(p, ok, s, e);
    case DoMap(_, _) => MapSideOk(p, ok, s, e);
    case WriteBucket(_, _, _) => MapSideOk(p, ok, s, e);
    case EndMap(_) => MapSideOk(p, ok, s, e);
    case Glob(_, _) => GlobStepOk(p, ok, s, e);
    case ReadFile(_) => ReadOk(p, ok, s, e);
    case WriteOut(_, _) => WriteOutOk(p, ok, s, e);
    case DeleteFile(_) => DeleteOk(p, ok, s, e);
    case EndReduce(_) => EndReduceOk(p, ok, s, e);
    case Report(_) =>
  }

  lemma WorkerStep(p: Program, ok: Accept, s: Sys, e: Step, v: nat)
    requires Inv(p, ok, s) && Possible(p, s, e) && Accepted(p, ok, s, e) && v < |s.workers|
    ensures |Next(p, s, e).workers| == |s.workers|
    ensures Shape(p, Next(p, s, e)) && WorkerOk(p, ok, Next(p, s, e), Next(p, s, e).workers[v])
  {
    MapsStayDone(p, s, e);
    OthersStand(p, s, e, v);
    ActorIsOk(p, ok, s, e);
    if Actor(e) == Some(v) {
      ActorStep(p, ok, s, e);
    } else {
      assert WorkerOk(p, ok, s, s.workers[v]);
      WorkerStays(p, ok, s, e, s.workers[v]);
    }
  }

  lemma NextInv(p: Program, ok: Accept, s: Sys, e: Step)
    requires Inv(p, ok, s) && Possible(p, s, e) && Accepted(p, ok, s, e)
    ensures Inv(p, ok, Next(p, s, e))
  {
    var s' := Next(p, s, e);
    JobStep(p, s, e);
    FilesStep(p, ok, s, e);
    WorkersStep(p, ok, s, e);
    DonesStep(p, ok, s, e);
  }

  lemma WorkersStep(p: Program, ok: Accept, s: Sys, e: Step)
    requires Inv(p, ok, s) && Possible(p, s, e) && Accepted(p, ok, s, e)
    ensures var s' := Next(p, s, e);
            Shape(p, s') && forall w :: 0 <= w < |s'.workers| ==> WorkerOk(p, ok, s', s'.workers[w])
  {
    var s' := Next(p, s, e);
    MapsStayDone(p, s, e);
    forall w | 0 <= w < |s'.workers| ensures WorkerOk(p, ok, s', s'.workers[w]) { WorkerStep(p, ok, s, e, w); }
  }

  lemma DonesStep(p: Program, ok: Accept, s: Sys, e: Step)
    requires Inv(p, ok, s) && Possible(p, s, e) && Accepted(p, ok, s, e)
    ensures var s' := Next(p, s, e);
            Shape(p, s') &&
            forall t :: 0 <= t < |s'.job.tasks| && s'.job.tasks[t].status == C.Done ==> Produced(p, ok, s', t)
  {
    var s' := Next(p, s, e);
    MapsStayDone(p, s, e);
    ActorIsOk(p, ok, s, e);
    forall t | 0 <= t < |s'.job.tasks| && s'.job.tasks[t].status == C.Done ensures Produced(p, ok, s', t) {
      DoneStep(p, ok, s, e, t);
    }
  }

  /** A task is reported done when it has been produced. */
  lemma DoneStep(p: Program, ok: Accept, s: Sys, e: Step, t: nat)
    requires JobOk(p, s) && Possible(p, s, e) && ActorOk(p, ok, s, e) && t < |s.job.tasks|
    requires s.job.tasks[t].status == C.Done ==> Produced(p, ok, s, t)
    ensures Shape(p, Next(p, s, e))
    ensures Next(p, s, e).job.tasks[t].status == C.Done ==> Produced(p, ok, Next(p, s, e), t)
  {
    MapsStayDone(p, s, e);
    StatusStep(p, s, e, t);
    if Next(p, s, e).job.tasks[t].status == C.Done {
      ProducedStays(p, ok, s, e, t);
    }
  }

  lemma StartInv(p: Program, ok: Accept, s: Sys)
    requires Start(p, s)
    ensures Inv(p, ok, s)
  {
    assert s.job.tasks[0].status == C.Pending && s.job.tasks[0].tType == C.MapTask;
  }

  /** In every trace, whatever listings missed: a test that accepts every output written
      accepts the output of every reduce task that is done. */
  lemma {:induction false} TraceInv(p: Program, ok: Accept, run: seq<Sys>, steps: seq<Step>, i: nat)
    requires Trace(p, run, steps) && i < |run|
    requires forall k :: 0 <= k < i ==> Accepted(p, ok, run[k], steps[k])
    ensures Inv(p, ok, run[i])
  {
    if i == 0 {
      StartInv(p, ok, run[0]);
    } else {
      TraceInv(p, ok, run, steps, i - 1);
      NextInv(p, ok, run[i - 1], steps[i - 1]);
      assert run[i - 1 + 1] == Next(p, run[i - 1], steps[i - 1]);
    }
  }

  /** When the job is done every output file has been written. */
  lemma DoneOutputs(p: Program, ok: Accept, s: Sys, j: nat)
    requires Inv(p, ok, s) && s.job.phase == C.DonePhase && j < p.n
    ensures OutOk(ok, s, j)
  {
    var t := |p.files| + j;
    assert C.Advanced(InitialTask(p, t), s.job.tasks[t]);
    assert s.job.tasks[t].status == C.Done;
    assert Produced(p, ok, s, t);
  }
}
