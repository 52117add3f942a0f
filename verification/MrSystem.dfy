/** The whole distributed program: the coordinator, any number of workers that may stop or fall
    behind at any point, and the file store they share. File operations succeed, and a file
    appears under its name in one step. */
module MrSystem {
  import opened Basics
  import opened Text
  import opened MrData
  import opened MrWorker
  import opened MrCoordinator

  /** The application and its input: the pairs Map makes of each file, Reduce, the hash, and
      the number of reduce tasks. */
  datatype Program = Program(files: seq<string>, mapf: string -> multiset<KV>, reducef: Reducer,
                             hash: string -> nat, n: nat)

  ghost predicate Runnable(p: Program) {
    p.files != [] && p.n > 0
  }

  // ----- files

  /** Bucket i of map task t, output i, or a file of another kind. */
  datatype FileName = BucketFile(task: nat, i: nat) | OutFile(i: nat) | Other(name: string)

  datatype File = Pairs(kvs: seq<KV>) | Text(lines: seq<string>)

  type Files = map<FileName, File>

  function Render(f: FileName): string {
    match f
    case BucketFile(t, i) => BucketName(Itoa(t + 1), i)
    case OutFile(i) => OutName(i)
    case Other(name) => name
  }

  /** Names of different files are different strings. */
  lemma RenderInjective(f: FileName, g: FileName)
    requires Render(f) == Render(g) && !f.Other? && !g.Other?
    ensures f == g
  {
    match (f, g)
    case (BucketFile(t, i), BucketFile(u, k)) =>
      BucketNameInjective(Itoa(t + 1), i, Itoa(u + 1), k);
      ItoaInjective(t + 1, u + 1);
    case (OutFile(i), OutFile(k)) => OutNameApart(i, k, "", 0);
    case (BucketFile(t, i), OutFile(k)) => OutNameApart(k, k, Itoa(t + 1), i);
    case (OutFile(k), BucketFile(t, i)) => OutNameApart(k, k, Itoa(t + 1), i);
  }

  /** The pattern selects the file. */
  ghost predicate Selected(pattern: string, f: FileName) {
    Matches(pattern, Render(f))
  }

  /** The glob of reduce i selects bucket i of every map task and nothing else of the job's. */
  lemma GlobSelects(f: FileName, i: nat)
    requires !f.Other?
    ensures Selected("mr-*-" + Itoa(i) + ".json", f) <==> f.BucketFile? && f.i == i
  {
    PatternSelects(i, Render(f));
    match f
    case BucketFile(t, k) => GlobSelectsBucket(i, Itoa(t + 1), k);
    case OutFile(k) =>
      forall star: string ensures Render(f) != BucketName(star, i) {
        OutNameApart(k, k, star, i);
      }
  }

  // ----- workers

  /** What a worker is doing with the task it holds: tasks are named by their position. A
      worker that crashed simply takes no more steps. A worker whose task timed out does not
      notice and goes on. */
  datatype Worker =
    | Idle
    | MapHeld(t: nat)
    | MapWriting(t: nat, buckets: seq<seq<KV>>, todo: set<nat>)
    | ReduceHeld(t: nat)
    | Reading(t: nat, names: seq<FileName>, k: nat, kvs: seq<KV>)
    | Deleting(t: nat, names: seq<FileName>, k: nat)
    | Reporting(t: nat)
    | Stopped

  datatype Sys = Sys(job: Job, files: Files, workers: seq<Worker>)

  datatype Step =
    | Ask(w: nat, name: string, now: int)
    | Beat(name: string, now: int)
    | Expire(t: nat, now: int)
    | DoMap(w: nat, pairs: seq<KV>)
    | WriteBucket(w: nat, i: nat, sorted: seq<KV>)
    | EndMap(w: nat)
    | Glob(w: nat, names: seq<FileName>)
    | ReadFile(w: nat)
    | WriteOut(w: nat, lines: seq<string>)
    | DeleteFile(w: nat)
    | EndReduce(w: nat)
    | Report(w: nat)
    | Stray(id: string)

  /** The worker runs reduce task t. */
  predicate OnReduce(p: Program, w: Worker, t: nat) {
    t >= |p.files| && !w.Idle? && !w.Stopped? && w.t == t
  }

  /** The worker has begun to delete the input of reduce task t, or is through with it. */
  predicate Begun(p: Program, w: Worker, t: nat) {
    OnReduce(p, w, t) && ((w.Deleting? && w.k > 0) || w.Reporting?)
  }

  ghost predicate Shape(p: Program, s: Sys) {
    Runnable(p) && |s.job.tasks| == |p.files| + p.n
  }

  /** The names are those the pattern selects, in any order. */
  ghost predicate Listing(files: Files, names: seq<FileName>, pattern: string) {
    Distinct(names) && forall f {:trigger Selected(pattern, f)} :: f in names <==> f in files && Selected(pattern, f)
  }

  /** No pattern of a reduce task selects the name. */
  ghost predicate Foreign(name: string) {
    forall i: nat :: !GlobMatches(i, name)
  }

  /** Which steps can be taken. */
  ghost predicate Possible(p: Program, s: Sys, e: Step)
    requires Shape(p, s)
  {
    match e
    case Ask(w, _, _) => w < |s.workers| && s.workers[w].Idle?
    case Beat(_, _) => true
    case Expire(t, _) => t < |s.job.tasks|
    case DoMap(w, pairs) =>
      && w < |s.workers| && s.workers[w].MapHeld? && s.workers[w].t < |s.job.tasks| && s.job.nReduce > 0
      && multiset(pairs) == p.mapf(s.job.tasks[s.workers[w].t].input)
    case WriteBucket(w, i, sorted) =>
      && w < |s.workers| && s.workers[w].MapWriting? && i in s.workers[w].todo
      && i < |s.workers[w].buckets| && multiset(sorted) == multiset(s.workers[w].buckets[i])
    case EndMap(w) => w < |s.workers| && s.workers[w].MapWriting? && s.workers[w].todo == {}
    case Glob(w, names) =>
      && w < |s.workers| && s.workers[w].ReduceHeld? && s.workers[w].t < |s.job.tasks|
      && Listing(s.files, names, s.job.tasks[s.workers[w].t].input)
    case ReadFile(w) => w < |s.workers| && s.workers[w].Reading? && s.workers[w].k < |s.workers[w].names|
    case WriteOut(w, lines) =>
      && w < |s.workers| && s.workers[w].Reading? && s.workers[w].k == |s.workers[w].names|
      && s.workers[w].t < |s.job.tasks| && multiset(lines) == Lines(p.reducef, s.workers[w].kvs)
    case DeleteFile(w) => w < |s.workers| && s.workers[w].Deleting? && s.workers[w].k < |s.workers[w].names|
    case EndReduce(w) => w < |s.workers| && s.workers[w].Deleting? && s.workers[w].k == |s.workers[w].names|
    case Report(w) => w < |s.workers| && s.workers[w].Reporting? && s.workers[w].t < |s.job.tasks|
    case Stray(id) => forall t :: 0 <= t < |s.job.tasks| ==> s.job.tasks[t].id != id
  }

  /** The pairs Map makes of the input of task t. */
  ghost function Mapped(p: Program, t: nat): multiset<KV> {
    if t < |p.files| then p.mapf(p.files[t]) else multiset{}
  }

  /** Map task t has no pair in bucket i. */
  ghost predicate NoPairs(p: Program, t: nat, i: nat)
    requires p.n > 0
  {
    forall kv: KV {:trigger Mapped(p, t)[kv]} :: Slot(p.hash, p.n, kv.key) == i ==> Mapped(p, t)[kv] == 0
  }

  /** The names hold bucket i of every map task that has a pair in it. */
  ghost predicate Covers(p: Program, names: seq<FileName>, i: nat)
    requires p.n > 0
  {
    forall t: nat {:trigger NoPairs(p, t, i)} :: t < |p.files| && BucketFile(t, i) !in names ==> NoPairs(p, t, i)
  }

  /** A reduce attempt that looks for its input misses no pair. */
  ghost predicate FindsAll(p: Program, s: Sys, e: Step)
    requires Shape(p, s)
  {
    e.Glob? && e.w < |s.workers| && s.workers[e.w].ReduceHeld? && s.workers[e.w].t >= |p.files| ==>
      Covers(p, e.names, s.workers[e.w].t - |p.files|)
  }

  function Content(f: File): seq<KV> {
    if f.Pairs? then f.kvs else []
  }

  ghost function Next(p: Program, s: Sys, e: Step): Sys
    requires Shape(p, s) && Possible(p, s, e)
  {
    match e
    case Ask(w, name, now) =>
      var (job, order) := OnGetTask(s.job, name, now);
      var t := FindFrom(s.job, 0);
      var worker :=
        if order.Wait? then Idle
        else if order.Exit? then Stopped
        else if order.task.tType == MapTask then MapHeld(t)
        else ReduceHeld(t);
      s.(job := job, workers := s.workers[w := worker])
    case Beat(name, now) => s.(job := s.job.(tasks := Pinged(s.job.tasks, name, now)))
    case Expire(t, now) => s.(job := OnCheck(s.job, t, now))
    case DoMap(w, pairs) =>
      var n := s.job.nReduce;
      var buckets := seq(n, i requires 0 <= i => Bucket(pairs, p.hash, n, i));
      s.(workers := s.workers[w := MapWriting(s.workers[w].t, buckets, UpTo(n))])
    case WriteBucket(w, i, sorted) =>
      var k := s.workers[w];
      s.(files := s.files[BucketFile(k.t, i) := Pairs(sorted)],
      workers := s.workers[w := MapWriting(k.t, k.buckets, k.todo - {i})])
    case EndMap(w) => s.(workers := s.workers[w := Reporting(s.workers[w].t)])
    case Glob(w, names) => s.(workers := s.workers[w := Reading(s.workers[w].t, names, 0, [])])
    case ReadFile(w) =>
      var k := s.workers[w];
      var f := k.names[k.k];
      if f in s.files then s.(workers := s.workers[w := Reading(k.t, k.names, k.k + 1, k.kvs + Content(s.files[f]))])
      else s.(workers := s.workers[w := Reporting(k.t)])
    case WriteOut(w, lines) =>
      var k := s.workers[w];
      s.(files := s.files[OutFile(s.job.tasks[k.t].idx) := Text(lines)],
      workers := s.workers[w := Deleting(k.t, k.names, 0)])
    case DeleteFile(w) =>
      var k := s.workers[w];
      s.(files := s.files - {k.names[k.k]}, workers := s.workers[w := Deleting(k.t, k.names, k.k + 1)])
    case EndReduce(w) => s.(workers := s.workers[w := Reporting(s.workers[w].t)])
    case Report(w) =>
      s.(job := OnUpdate(s.job, s.job.tasks[s.workers[w].t].id, Done), workers := s.workers[w := Idle])
    case Stray(id) => s.(job := OnUpdate(s.job, id, Done))
  }

  /** The store starts without bucket files and without names any glob of the job selects. */
  ghost predicate Start(p: Program, s: Sys) {
    && Runnable(p)
    && s.job == Job(MapPhase, InitialTasks(p.files, p.n), p.n, |p.files| + p.n)
    && (forall f :: f in s.files ==>
          !f.BucketFile? && (f.Other? ==> Foreign(f.name)))
    && (forall w :: 0 <= w < |s.workers| ==> s.workers[w] == Idle)
  }

  /** From the start, one possible step after another. */
  ghost predicate Trace(p: Program, run: seq<Sys>, steps: seq<Step>) {
    && |run| == |steps| + 1
    && Start(p, run[0])
    && forall i :: 0 <= i < |steps| ==>
        Shape(p, run[i]) && Possible(p, run[i], steps[i]) && run[i + 1] == Next(p, run[i], steps[i])
  }

  /** A trace in which every reduce attempt finds all its input. */
  ghost predicate Run(p: Program, run: seq<Sys>, steps: seq<Step>) {
    && Trace(p, run, steps)
    && forall i :: 0 <= i < |steps| ==> Shape(p, run[i]) && FindsAll(p, run[i], steps[i])
  }

  // ----- what the files must hold

  ghost function MappedAll(p: Program, ts: seq<nat>): multiset<KV> {
    if ts == [] then multiset{} else MappedAll(p, ts[..|ts| - 1]) + Mapped(p, ts[|ts| - 1])
  }

  /** The numbers below n in order. */
  function Range(n: nat): seq<nat> {
    if n == 0 then [] else Range(n - 1) + [n - 1]
  }

  lemma {:induction false} RangeHas(n: nat)
    ensures Distinct(Range(n)) && forall i: nat :: i in Range(n) <==> i < n
  {
    if n > 0 {
      RangeHas(n - 1);
      DistinctConcat(Range(n - 1), [n - 1]);
    }
  }

  /** All pairs of all input files. */
  ghost function Total(p: Program): multiset<KV> {
    MappedAll(p, Range(|p.files|))
  }

  lemma MappedSnoc(p: Program, ts: seq<nat>, x: nat)
    ensures MappedAll(p, ts + [x]) == MappedAll(p, ts) + Mapped(p, x)
  {
    assert (ts + [x])[..|ts|] == ts;
  }

  lemma {:induction false} MappedExtract(p: Program, l: seq<nat>, x: nat, r: seq<nat>)
    ensures MappedAll(p, l + [x] + r) == MappedAll(p, l + r) + Mapped(p, x)
    decreases |r|
  {
    if r == [] {
      assert l + [x] + r == l + [x] && l + r == l;
      MappedSnoc(p, l, x);
    } else {
      var front, last := r[..|r| - 1], r[|r| - 1];
      assert l + [x] + r == (l + [x] + front) + [last] && l + r == (l + front) + [last];
      MappedSnoc(p, l + [x] + front, last);
      MappedSnoc(p, l + front, last);
      MappedExtract(p, l, x, front);
    }
  }

  lemma {:induction false} MappedPermuted(p: Program, a: seq<nat>, b: seq<nat>)
    requires multiset(a) == multiset(b)
    ensures MappedAll(p, a) == MappedAll(p, b)
    decreases |a|
  {
    if a == [] {
      assert |multiset(b)| == 0;
    } else {
      var front, x := a[..|a| - 1], a[|a| - 1];
      assert a == front + [x];
      MappedSnoc(p, front, x);
      var i := Occurs(x, front, b);
      MappedPermuted(p, front, b[..i] + b[i + 1..]);
      MappedExtract(p, b[..i], x, b[i + 1..]);
    }
  }

  ghost predicate BucketContent(p: Program, f: File, t: nat, i: nat)
    requires p.n > 0
  {
    f.Pairs? && IsBucket(f.kvs, Mapped(p, t), p.hash, p.n, i)
  }

  // ----- the invariant

  /** A test of the lines of output i, kept abstract while the invariant is carried along. */
  type Accept = (seq<string>, nat) -> bool

  ghost predicate JobOk(p: Program, s: Sys) {
    && Shape(p, s) && PhaseOk(s.job) && s.job.nReduce == p.n
    && forall t :: 0 <= t < |s.job.tasks| ==> Advanced(InitialTask(p.files, t), s.job.tasks[t])
  }

  ghost predicate FilesOk(p: Program, s: Sys)
    requires p.n > 0
  {
    && (forall f :: f in s.files && f.BucketFile? ==> f.task < |p.files| && BucketContent(p, s.files[f], f.task, f.i))
    && (forall f :: f in s.files && f.Other? ==> Foreign(f.name))
  }

  /** Somebody has begun to delete the files of bucket i. */
  ghost predicate Consumed(p: Program, s: Sys, i: nat)
    requires Shape(p, s) && i < p.n
  {
    s.job.tasks[|p.files| + i].status == Done ||
    exists w :: 0 <= w < |s.workers| && Begun(p, s.workers[w], |p.files| + i)
  }

  /** Bucket i of map task t has been written, and is there unless its reduce is through. */
  ghost predicate Present(p: Program, s: Sys, t: nat, i: nat)
    requires Shape(p, s) && i < p.n
  {
    BucketFile(t, i) in s.files || Consumed(p, s, i)
  }

  ghost predicate OutOk(ok: Accept, s: Sys, i: nat) {
    OutFile(i) in s.files && s.files[OutFile(i)].Text? && ok(s.files[OutFile(i)].lines, i)
  }

  /** What a finished task leaves behind. */
  ghost predicate Produced(p: Program, ok: Accept, s: Sys, t: nat)
    requires Shape(p, s)
  {
    if t < |p.files| then forall i :: 0 <= i < p.n ==> Present(p, s, t, i)
    else OutOk(ok, s, t - |p.files|)
  }

  /** Bucket files of bucket i, each once. */
  ghost predicate IsInput(p: Program, names: seq<FileName>, i: nat) {
    Distinct(names) && forall f :: f in names ==> f.BucketFile? && f.i == i && f.task < |p.files|
  }

  function TasksOf(names: seq<FileName>): seq<nat>
    requires forall f :: f in names ==> f.BucketFile?
  {
    seq<nat>(|names|, j requires 0 <= j < |names| => assert names[j] in names; names[j].task)
  }

  /** The pairs of the map tasks whose files are the first k named. */
  ghost function MappedNamed(p: Program, names: seq<FileName>, k: nat): multiset<KV>
    requires k <= |names|
  {
    if k == 0 then multiset{}
    else MappedNamed(p, names, k - 1) + if names[k - 1].BucketFile? then Mapped(p, names[k - 1].task) else multiset{}
  }

  /** The pairs are those of bucket i in the first k of the named files. */
  ghost predicate HasRead(p: Program, names: seq<FileName>, k: nat, kvs: seq<KV>, i: nat)
    requires p.n > 0
  {
    IsInput(p, names, i) && k <= |names| && IsBucket(kvs, MappedNamed(p, names, k), p.hash, p.n, i)
  }

  ghost predicate WorkerOk(p: Program, ok: Accept, s: Sys, w: Worker)
    requires Shape(p, s)
  {
    var m := |p.files|;
    match w
    case Idle => true
    case Stopped => true
    case MapHeld(t) => t < m
    case MapWriting(t, buckets, todo) =>
      && t < m && |buckets| == p.n && todo <= UpTo(p.n)
      && (forall i :: 0 <= i < p.n ==> IsBucket(buckets[i], Mapped(p, t), p.hash, p.n, i))
      && (forall i :: 0 <= i < p.n && i !in todo ==> Present(p, s, t, i))
    case ReduceHeld(t) => ReduceRuns(p, s, t)
    case Reading(t, names, k, kvs) =>
      ReduceRuns(p, s, t) && HasRead(p, names, k, kvs, t - m)
    case Deleting(t, names, k) =>
      && ReduceRuns(p, s, t) && k <= |names| && OutOk(ok, s, t - m)
      && (forall f :: f in names ==> f.BucketFile? && f.i == t - m)
    case Reporting(t) => t < m + p.n && (t >= m ==> ReduceRuns(p, s, t)) && Produced(p, ok, s, t)
  }

  /** A reduce attempt may be under way: all map tasks are done. */
  ghost predicate ReduceRuns(p: Program, s: Sys, t: nat)
    requires Shape(p, s)
  {
    |p.files| <= t < |p.files| + p.n && AllDone(s.job.tasks, MapTask)
  }

  ghost predicate Inv(p: Program, ok: Accept, s: Sys) {
    && JobOk(p, s) && FilesOk(p, s)
    && (forall w :: 0 <= w < |s.workers| ==> WorkerOk(p, ok, s, s.workers[w]))
    && (forall t :: 0 <= t < |s.job.tasks| && s.job.tasks[t].status == Done ==> Produced(p, ok, s, t))
  }

  /** What a task says to the worker that is given it. */
  lemma TaskSays(p: Program, s: Sys, t: nat)
    requires JobOk(p, s) && t < |s.job.tasks|
    ensures var task, m := s.job.tasks[t], |p.files|;
            && task.id == Itoa(t + 1)
            && if t < m then task.tType == MapTask && task.input == p.files[t]
               else task.tType == ReduceTask && task.idx == t - m && task.input == "mr-*-" + Itoa(t - m) + ".json"
  {
    assert Advanced(InitialTask(p.files, t), s.job.tasks[t]);
  }
}
