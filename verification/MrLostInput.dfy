/** Why the end-to-end result asks that every reduce attempt finds all its input: two traces in
    which one does not, and the job ends without the line the sequential program writes. */
module MrLostInput {
  import opened Basics
  import opened Text
  import opened MrData
  import opened MrSystem
  import C = MrCoordinator
  import Seq = MrSequential
  import MrOutput

  const PAIR := KV("a", "1")
  const LINE := Line("a", "1")
  const BUCKET := BucketFile(0, 0)

  /** One input file with one pair, one reduce task. */
  ghost function Counter(): Program {
    Program(["in"], (f: string) => multiset{PAIR}, (k: string, vs: multiset<string>) => "1", (k: string) => 0, 1)
  }

  function JobAt(phase: C.Phase, mapping: C.Status, reducing: C.Status, owner: string, ping: int): C.Job {
    C.Job(phase,
          [C.Task(Itoa(1), "in", C.MapTask, mapping, if mapping == C.Pending then "" else "w", 0, 0),
           C.Task(Itoa(2), "mr-*-" + Itoa(0) + ".json", C.ReduceTask, reducing, owner, 0, ping)],
          1, 2)
  }

  /** Worker 0 maps, then reduces up to its output. Its reduce task times out and goes to
      worker 1, which looks for its input when worker 0 has deleted it, and overwrites the
      output. Worker 0 deletes before the timeout if `early`, otherwise after the handout. */
  function StepAt(early: bool, i: nat): Step {
    match i
    case 0 => Ask(0, "w", 0)
    case 1 => DoMap(0, [PAIR])
    case 2 => WriteBucket(0, 0, [PAIR])
    case 3 => EndMap(0)
    case 4 => Report(0)
    case 5 => Ask(0, "w", 0)
    case 6 => Glob(0, [BUCKET])
    case 7 => ReadFile(0)
    case 8 => WriteOut(0, [LINE])
    case 9 => if early then DeleteFile(0) else Expire(1, 10_001)
    case 10 => if early then Expire(1, 10_001) else Ask(1, "v", 10_001)
    case 11 => if early then Ask(1, "v", 10_001) else DeleteFile(0)
    case 12 => Glob(1, [])
    case 13 => WriteOut(1, [])
    case 14 => EndReduce(1)
    case _ => Report(1)
  }

  /** When the task has timed out. */
  function TimedOutAt(early: bool): nat { if early then 11 else 10 }

  /** When the file has been deleted. */
  function DeletedAt(early: bool): nat { if early then 10 else 12 }

  function JobBefore(early: bool, i: nat): C.Job {
    if i == 0 then JobAt(C.MapPhase, C.Pending, C.Pending, "", 0)
    else if i <= 4 then JobAt(C.MapPhase, C.OnGoing, C.Pending, "", 0)
    else if i == 5 then JobAt(C.ReducePhase, C.Done, C.Pending, "", 0)
    else if i < TimedOutAt(early) then JobAt(C.ReducePhase, C.Done, C.OnGoing, "w", 0)
    else if i == TimedOutAt(early) then JobAt(C.ReducePhase, C.Done, C.Pending, "", 0)
    else if i <= 15 then JobAt(C.ReducePhase, C.Done, C.OnGoing, "v", 10_001)
    else JobAt(C.DonePhase, C.Done, C.Done, "v", 10_001)
  }

  function FilesBefore(early: bool, i: nat): Files {
    if i <= 2 then map[]
    else if i <= 8 then map[BUCKET := Pairs([PAIR])]
    else if i < DeletedAt(early) then map[BUCKET := Pairs([PAIR]), OutFile(0) := Text([LINE])]
    else if i <= 13 then map[OutFile(0) := Text([LINE])]
    else map[OutFile(0) := Text([])]
  }

  function FirstBefore(early: bool, i: nat): Worker {
    match i
    case 0 => Idle
    case 1 => MapHeld(0)
    case 2 => MapWriting(0, [[PAIR]], {0})
    case 3 => MapWriting(0, [[PAIR]], {})
    case 4 => Reporting(0)
    case 5 => Idle
    case 6 => ReduceHeld(1)
    case 7 => Reading(1, [BUCKET], 0, [])
    case 8 => Reading(1, [BUCKET], 1, [PAIR])
    case _ => Deleting(1, [BUCKET], if i < DeletedAt(early) then 0 else 1)
  }

  function SecondBefore(early: bool, i: nat): Worker {
    if i <= TimedOutAt(early) || i > 15 then Idle
    else if i <= 12 then ReduceHeld(1)
    else if i == 13 then Reading(1, [], 0, [])
    else if i == 14 then Deleting(1, [], 0)
    else Reporting(1)
  }

  function SysAt(early: bool, i: nat): Sys {
    Sys(JobBefore(early, i), FilesBefore(early, i), [FirstBefore(early, i), SecondBefore(early, i)])
  }

  ghost predicate Moves(s: Sys, e: Step, s': Sys) {
    Shape(Counter(), s) && Possible(Counter(), s, e) && Next(Counter(), s, e) == s'
  }

  lemma AskMoves(early: bool, i: nat)
    requires i == 0 || i == 5 || i == TimedOutAt(early)
    ensures Moves(SysAt(early, i), StepAt(early, i), SysAt(early, i + 1))
  {
    assert C.FindFrom(JobBefore(early, i), 0) == if i == 0 then 0 else 1;
  }

  lemma OneBucket()
    ensures seq(1, k requires 0 <= k => Bucket([PAIR], Counter().hash, 1, k)) == [[PAIR]]
  {
    assert [PAIR][..0] == [];
    assert Bucket([PAIR], Counter().hash, 1, 0) == [PAIR];
  }

  lemma DoMapMoves(early: bool)
    ensures Moves(SysAt(early, 1), StepAt(early, 1), SysAt(early, 2))
  {
    OneBucket();
    assert multiset([PAIR]) == multiset{PAIR} && UpTo(1) == {0};
  }

  lemma MapMoves(early: bool, i: nat)
    requires 2 <= i <= 3
    ensures Moves(SysAt(early, i), StepAt(early, i), SysAt(early, i + 1))
  {
    assert {0} - {0} == {};
  }

  lemma Reported(early: bool, i: nat)
    requires i == 4 || i == 15
    ensures var j := JobBefore(early, i);
            C.OnUpdate(j, j.tasks[if i == 4 then 0 else 1].id, C.Done) == JobBefore(early, i + 1)
  {
    assert Itoa(1) != Itoa(2) by {
      if Itoa(1) == Itoa(2) { ItoaInjective(1, 2); }
    }
    var j, t := JobBefore(early, i), if i == 4 then 0 else 1;
    assert C.Marked(j.tasks, j.tasks[t].id, C.Done) == JobBefore(early, i + 1).tasks;
    var after := JobBefore(early, i + 1).tasks;
    assert after[0].status == C.Done && after[0].tType == C.MapTask && after[1].tType == C.ReduceTask;
    assert C.AllDone(after, C.MapTask) && (C.AllDone(after, C.ReduceTask) <==> i == 15);
  }

  lemma ReportMoves(early: bool, i: nat)
    requires i == 4 || i == 15
    ensures Moves(SysAt(early, i), StepAt(early, i), SysAt(early, i + 1))
  {
    Reported(early, i);
  }

  lemma FirstGlobMoves(early: bool)
    ensures Moves(SysAt(early, 6), StepAt(early, 6), SysAt(early, 7))
  {
    GlobSelects(BUCKET, 0);
    assert Listing(FilesBefore(early, 6), [BUCKET], "mr-*-" + Itoa(0) + ".json");
  }

  lemma SecondGlobMoves(early: bool)
    ensures Moves(SysAt(early, 12), StepAt(early, 12), SysAt(early, 13))
  {
    GlobSelects(OutFile(0), 0);
    assert Listing(FilesBefore(early, 12), [], "mr-*-" + Itoa(0) + ".json");
  }

  lemma OnePair()
    ensures Lines(Counter().reducef, [PAIR]) == multiset{LINE} && Lines(Counter().reducef, []) == multiset{}
  {
    assert [PAIR][..0] == [];
    assert Keys([PAIR]) == ["a"];
    assert LinesFor(Counter().reducef, [PAIR], ["a"]) == [LINE];
  }

  lemma FirstWriteMoves(early: bool)
    ensures Moves(SysAt(early, 8), StepAt(early, 8), SysAt(early, 9))
  {
    OnePair();
    assert multiset([LINE]) == multiset{LINE};
    assert FilesBefore(early, 8)[OutFile(0) := Text([LINE])] == FilesBefore(early, 9);
  }

  lemma SecondWriteMoves(early: bool)
    ensures Moves(SysAt(early, 13), StepAt(early, 13), SysAt(early, 14))
  {
    OnePair();
    assert FilesBefore(early, 13)[OutFile(0) := Text([])] == FilesBefore(early, 14);
  }

  lemma InputMoves(early: bool, i: nat)
    requires i == 7 || i == 14
    ensures Moves(SysAt(early, i), StepAt(early, i), SysAt(early, i + 1))
  {
    assert [] + [PAIR] == [PAIR];
  }

  lemma DeleteMoves(early: bool, i: nat)
    requires i == DeletedAt(early) - 1
    ensures Moves(SysAt(early, i), StepAt(early, i), SysAt(early, i + 1))
  {
    assert FilesBefore(early, i) - {BUCKET} == FilesBefore(early, i + 1);
  }

  lemma ExpireMoves(early: bool, i: nat)
    requires i == TimedOutAt(early) - 1
    ensures Moves(SysAt(early, i), StepAt(early, i), SysAt(early, i + 1))
  {
  }

  lemma Step(early: bool, i: nat)
    requires i < 16
    ensures Moves(SysAt(early, i), StepAt(early, i), SysAt(early, i + 1))
  {
    if i == 0 || i == 5 || i == TimedOutAt(early) {
      AskMoves(early, i);
    } else if i == 4 || i == 15 {
      ReportMoves(early, i);
    } else if i == 1 {
      DoMapMoves(early);
    } else if i < 4 {
      MapMoves(early, i);
    } else if i == 6 {
      FirstGlobMoves(early);
    } else if i == 12 {
      SecondGlobMoves(early);
    } else if i == 8 {
      FirstWriteMoves(early);
    } else if i == 13 {
      SecondWriteMoves(early);
    } else if i == TimedOutAt(early) - 1 {
      ExpireMoves(early, i);
    } else if i == DeletedAt(early) - 1 {
      DeleteMoves(early, i);
    } else {
      InputMoves(early, i);
    }
  }

  ghost function States(early: bool): seq<Sys> {
    seq(17, i requires 0 <= i => SysAt(early, i))
  }

  ghost function Steps(early: bool): seq<Step> {
    seq(16, i requires 0 <= i => StepAt(early, i))
  }

  lemma Begins(early: bool)
    ensures Start(Counter(), SysAt(early, 0))
  {
    assert JobBefore(early, 0).tasks == C.InitialTasks(["in"], 1);
  }

  lemma IsTrace(early: bool)
    ensures Trace(Counter(), States(early), Steps(early))
  {
    var p, run, steps := Counter(), States(early), Steps(early);
    Begins(early);
    forall i: nat | i < 16
      ensures Shape(p, run[i]) && Possible(p, run[i], steps[i]) && run[i + 1] == Next(p, run[i], steps[i])
    {
      Step(early, i);
    }
  }

  lemma OthersFindAll(early: bool, i: nat)
    requires i < 16 && i != 12
    ensures Shape(Counter(), SysAt(early, i)) && FindsAll(Counter(), SysAt(early, i), StepAt(early, i))
  {
    assert Covers(Counter(), [BUCKET], 0);
  }

  /** Whether the file is deleted before the second handout or after it, the job ends done,
      every glob but the last found all input, and the only line of the sequential program
      is in no output. */
  lemma LateGlobLosesLines(early: bool)
    ensures Trace(Counter(), States(early), Steps(early)) && SysAt(early, 16).job.phase == C.DonePhase
    ensures forall i :: 0 <= i < 16 && i != 12 ==>
              Shape(Counter(), SysAt(early, i)) && FindsAll(Counter(), SysAt(early, i), StepAt(early, i))
    ensures Together(MrOutput.Outputs(Counter(), SysAt(early, 16)), 1) == multiset{}
    ensures Lines(Counter().reducef, Seq.Flatten([[PAIR]])) == multiset{LINE}
  {
    IsTrace(early);
    forall i: nat | i < 16 && i != 12
      ensures Shape(Counter(), SysAt(early, i)) && FindsAll(Counter(), SysAt(early, i), StepAt(early, i))
    {
      OthersFindAll(early, i);
    }
    OnePair();
    assert [[PAIR]][..0] == [] && Seq.Flatten([[PAIR]]) == [PAIR];
    assert MrOutput.Outputs(Counter(), SysAt(early, 16)) == [[]];
  }
}
