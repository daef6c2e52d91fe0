/** Saving one game's modded binder into a directory shared by concurrent processes: stage, move, stamp last. */
module BinderMods {
  import opened Wrappers

  type Pid = nat
  type Cards = map<nat, string>
  type Aliases = map<string, nat>

  /** A modded binder: its cards, its alias ledger and the clean version it answers. */
  datatype Bake = Bake(cards: Cards, aliases: Aliases, version: string)

  /** One process's work: what its spec stamps (format version, pipeline fingerprint and seed) and what
      baking that spec from its clean binder gives. */
  datatype Job = Job(fingerprint: string, bake: Bake)

  datatype Stamp = Stamp(version: string, fingerprint: string)

  /** A file being written is partial until it is closed. */
  datatype File<T> = Partial | Complete(content: T)

  datatype Files = Files(binder: Option<File<Cards>>, ledger: Option<File<Aliases>>, stamp: Option<File<Stamp>>)

  const NO_FILES := Files(None, None, None)

  /** Where a process is. Writing(k): k of the six truncations and completions are done. Moving(k): k of
      the three files are in place. */
  datatype Pc =
    | Checking
    | ReadingStamp
    | LoadingBinder(version: string)
    | LoadingAliases(version: string, cards: Cards)
    | Writing(written: nat)
    | Moving(moved: nat)
    | Returned(bake: Bake)
    | Raised
    | Killed

  datatype Proc = Proc(job: Job, pc: Pc)

  datatype Return = Return(job: Job, bake: Bake)

  datatype State = State(saved: Files, staging: map<Pid, Files>, procs: map<Pid, Proc>, returned: seq<Return>)

  const START := State(NO_FILES, map[], map[], [])

  /** A process starts, takes its next step, is killed, or fails in a write or move and cleans up what it can. */
  datatype Action = Start(pid: Pid, job: Job) | Go(pid: Pid) | Kill(pid: Pid) | Fail(pid: Pid, left: Files)

  predicate IsOver(pc: Pc) {
    pc.Returned? || pc.Raised? || pc.Killed?
  }

  /** A process id may be used again once its process is over, even if it was killed mid-save. */
  predicate Enabled(jobs: set<Job>, s: State, a: Action) {
    match a
    case Start(pid, job) => job in jobs && (pid in s.procs ==> IsOver(s.procs[pid].pc))
    case Go(pid) => pid in s.procs && !IsOver(s.procs[pid].pc)
    case Kill(pid) => pid in s.procs && !IsOver(s.procs[pid].pc)
    case Fail(pid, _) => pid in s.procs && (s.procs[pid].pc.Writing? || s.procs[pid].pc.Moving?)
  }

  function StagingOf(s: State, pid: Pid): Files {
    if pid in s.staging then s.staging[pid] else NO_FILES
  }

  /** The binder is written, then its alias ledger, then the stamp: each truncated first. */
  function WriteNext(files: Files, job: Job, written: nat): Files {
    match written
    case 0 => files.(binder := Some(Partial))
    case 1 => files.(binder := Some(Complete(job.bake.cards)))
    case 2 => files.(ledger := Some(Partial))
    case 3 => files.(ledger := Some(Complete(job.bake.aliases)))
    case 4 => files.(stamp := Some(Partial))
    case _ => files.(stamp := Some(Complete(Stamp(job.bake.version, job.fingerprint))))
  }

  function At(s: State, pid: Pid, pc: Pc): State
    requires pid in s.procs
  {
    s.(procs := s.procs[pid := s.procs[pid].(pc := pc)])
  }

  function Give(s: State, pid: Pid, bake: Bake): State
    requires pid in s.procs
  {
    At(s, pid, Returned(bake)).(returned := s.returned + [Return(s.procs[pid].job, bake)])
  }

  /** os.replace of the staged files in name order, the ledger before the binder, then of the stamp. */
  function MoveNext(s: State, pid: Pid, moved: nat): State
    requires pid in s.procs
  {
    var staged := StagingOf(s, pid);
    if moved == 0 then
      if staged.ledger == None then At(s, pid, Raised)
      else
        At(s, pid, Moving(1)).(saved := s.saved.(ledger := staged.ledger),
                               staging := s.staging[pid := staged.(ledger := None)])
    else if moved == 1 then
      if staged.binder == None then At(s, pid, Raised)
      else
        At(s, pid, Moving(2)).(saved := s.saved.(binder := staged.binder),
                               staging := s.staging[pid := staged.(binder := None)])
    else if moved == 2 then
      if staged.stamp == None then At(s, pid, Raised)
      else
        At(s, pid, Moving(3)).(saved := s.saved.(stamp := staged.stamp),
                               staging := s.staging[pid := staged.(stamp := None)])
    else
      Give(s, pid, s.procs[pid].job.bake).(staging := s.staging[pid := NO_FILES])
  }

  function Step(s: State, pid: Pid): State
    requires pid in s.procs
  {
    var job := s.procs[pid].job;
    match s.procs[pid].pc
    case Checking => if s.saved.stamp == None then At(s, pid, Writing(0)) else At(s, pid, ReadingStamp)
    case ReadingStamp =>
      if s.saved.stamp == None || s.saved.stamp.value.Partial? then At(s, pid, Raised)
      else if s.saved.stamp.value.content.fingerprint != job.fingerprint then At(s, pid, Raised)
      else At(s, pid, LoadingBinder(s.saved.stamp.value.content.version))
    case LoadingBinder(version) =>
      if s.saved.binder == None || s.saved.binder.value.Partial? then At(s, pid, Raised)
      else At(s, pid, LoadingAliases(version, s.saved.binder.value.content))
    case LoadingAliases(version, cards) =>
      if s.saved.ledger == None then Give(s, pid, Bake(cards, map[], version))
      else if s.saved.ledger.value.Partial? then At(s, pid, Raised)
      else Give(s, pid, Bake(cards, s.saved.ledger.value.content, version))
    case Writing(written) =>
      At(s, pid, if written < 5 then Writing(written + 1) else Moving(0))
        .(staging := s.staging[pid := WriteNext(StagingOf(s, pid), job, written)])
    case Moving(moved) => MoveNext(s, pid, moved)
    case _ => s
  }

  function Apply(s: State, a: Action): State
    requires a.pid in s.procs || a.Start?
  {
    match a
    case Start(pid, job) => s.(procs := s.procs[pid := Proc(job, Checking)])
    case Go(pid) => Step(s, pid)
    case Kill(pid) => At(s, pid, Killed)
    case Fail(pid, left) => At(s, pid, Raised).(staging := s.staging[pid := left])
  }

  /** The state after the actions, if each was enabled when it came. */
  function Exec(jobs: set<Job>, s: State, actions: seq<Action>): Option<State>
    decreases actions
  {
    if actions == [] then Some(s)
    else if Enabled(jobs, s, actions[0]) then Exec(jobs, Apply(s, actions[0]), actions[1..])
    else None
  }

  /** Every binder a process got is the one its own bake gives. */
  ghost predicate EveryReturnIsOwnBake(s: State) {
    forall r :: 0 <= r < |s.returned| ==> s.returned[r].bake == s.returned[r].job.bake
  }

  /** All jobs write the same data, and jobs stamping the same fingerprint have the same clean version. */
  ghost predicate WriteTheSame(jobs: set<Job>) {
    forall a, b :: a in jobs && b in jobs ==>
      && a.bake.cards == b.bake.cards && a.bake.aliases == b.bake.aliases
      && (a.fingerprint == b.fingerprint ==> a.bake.version == b.bake.version)
  }

  // ----- every run of jobs that write the same is safe

  ghost predicate SavedIsGood(jobs: set<Job>, good: Bake, saved: Files) {
    && (saved.binder.Some? ==> saved.binder.value == Complete(good.cards))
    && (saved.ledger.Some? ==> saved.ledger.value == Complete(good.aliases))
    && (saved.stamp.Some? ==>
          && saved.binder.Some? && saved.ledger.Some? && saved.stamp.value.Complete?
          && exists j :: j in jobs && saved.stamp.value.content == Stamp(j.bake.version, j.fingerprint))
  }

  ghost predicate ProcIsGood(good: Bake, p: Proc, staged: Files, saved: Files) {
    && p.job.bake.cards == good.cards && p.job.bake.aliases == good.aliases
    && match p.pc
       case Checking => true
       case ReadingStamp => saved.stamp.Some?
       case LoadingBinder(version) => saved.stamp.Some? && version == p.job.bake.version
       case LoadingAliases(version, cards) => saved.stamp.Some? && version == p.job.bake.version && cards == good.cards
       case Writing(written) =>
         && (written >= 2 ==> staged.binder == Some(Complete(good.cards)))
         && (written >= 4 ==> staged.ledger == Some(Complete(good.aliases)))
         && written <= 5
       case Moving(moved) =>
         && (if moved < 1 then staged.ledger == Some(Complete(good.aliases)) else saved.ledger.Some?)
         && (if moved < 2 then staged.binder == Some(Complete(good.cards)) else saved.binder.Some?)
         && (moved < 3 ==> staged.stamp == Some(Complete(Stamp(p.job.bake.version, p.job.fingerprint))))
       case Returned(bake) => bake == p.job.bake
       case Raised => true
       case Killed => true
  }

  ghost predicate Inv(jobs: set<Job>, good: Bake, s: State) {
    && SavedIsGood(jobs, good, s.saved) && EveryReturnIsOwnBake(s)
    && forall pid :: pid in s.procs ==>
         s.procs[pid].job in jobs && ProcIsGood(good, s.procs[pid], StagingOf(s, pid), s.saved)
  }

  /** A file once in place stays in place. */
  ghost predicate KeepsFiles(before: Files, after: Files) {
    && (before.binder.Some? ==> after.binder.Some?) && (before.ledger.Some? ==> after.ledger.Some?)
    && (before.stamp.Some? ==> after.stamp.Some?)
  }

  /** A step of one process leaves every other process good. */
  lemma OthersStayGood(jobs: set<Job>, good: Bake, before: State, after: State, pid: Pid)
    requires Inv(jobs, good, before) && SavedIsGood(jobs, good, after.saved) && EveryReturnIsOwnBake(after)
    requires KeepsFiles(before.saved, after.saved) && pid in after.procs
    requires after.procs == before.procs[pid := after.procs[pid]]
    requires forall q :: q != pid ==> StagingOf(after, q) == StagingOf(before, q)
    requires after.procs[pid].job in jobs && ProcIsGood(good, after.procs[pid], StagingOf(after, pid), after.saved)
    ensures Inv(jobs, good, after)
  {
    forall q | q in after.procs
      ensures after.procs[q].job in jobs && ProcIsGood(good, after.procs[q], StagingOf(after, q), after.saved)
    {
      if q != pid {
        assert after.procs[q] == before.procs[q];
      }
    }
  }

  /** What Inv says of one process. */
  lemma GoodProc(jobs: set<Job>, good: Bake, s: State, pid: Pid)
    requires Inv(jobs, good, s) && pid in s.procs
    ensures s.procs[pid].job in jobs && ProcIsGood(good, s.procs[pid], StagingOf(s, pid), s.saved)
    ensures SavedIsGood(jobs, good, s.saved) && EveryReturnIsOwnBake(s)
  {
  }

  lemma ReadingKeepsInv(jobs: set<Job>, good: Bake, s: State, pid: Pid)
    requires WriteTheSame(jobs) && Inv(jobs, good, s) && pid in s.procs
    requires s.procs[pid].pc.Checking? || s.procs[pid].pc.ReadingStamp?
    ensures Inv(jobs, good, Step(s, pid))
  {
    GoodProc(jobs, good, s, pid);
    if s.procs[pid].pc.ReadingStamp? {
      var j :| j in jobs && s.saved.stamp.value.content == Stamp(j.bake.version, j.fingerprint);
    }
    OthersStayGood(jobs, good, s, Step(s, pid), pid);
  }

  lemma LoadingKeepsInv(jobs: set<Job>, good: Bake, s: State, pid: Pid)
    requires Inv(jobs, good, s) && pid in s.procs
    requires s.procs[pid].pc.LoadingBinder? || s.procs[pid].pc.LoadingAliases?
    ensures Inv(jobs, good, Step(s, pid))
  {
    GoodProc(jobs, good, s, pid);
    OthersStayGood(jobs, good, s, Step(s, pid), pid);
  }

  lemma WritingKeepsInv(jobs: set<Job>, good: Bake, s: State, pid: Pid)
    requires Inv(jobs, good, s) && pid in s.procs && s.procs[pid].pc.Writing?
    ensures Inv(jobs, good, Step(s, pid))
  {
    GoodProc(jobs, good, s, pid);
    OthersStayGood(jobs, good, s, Step(s, pid), pid);
  }

  lemma MovingKeepsInv(jobs: set<Job>, good: Bake, s: State, pid: Pid)
    requires Inv(jobs, good, s) && pid in s.procs && s.procs[pid].pc.Moving?
    ensures Inv(jobs, good, Step(s, pid))
  {
    GoodProc(jobs, good, s, pid);
    var after := MoveNext(s, pid, s.procs[pid].pc.moved);
    assert SavedIsGood(jobs, good, after.saved);
    OthersStayGood(jobs, good, s, after, pid);
  }

  lemma StepKeepsInv(jobs: set<Job>, good: Bake, s: State, pid: Pid)
    requires WriteTheSame(jobs) && Inv(jobs, good, s) && pid in s.procs && !IsOver(s.procs[pid].pc)
    ensures Inv(jobs, good, Step(s, pid))
  {
    hide Inv, Step, WriteTheSame;
    if s.procs[pid].pc.Writing? {
      WritingKeepsInv(jobs, good, s, pid);
    } else if s.procs[pid].pc.Moving? {
      MovingKeepsInv(jobs, good, s, pid);
    } else if s.procs[pid].pc.Checking? || s.procs[pid].pc.ReadingStamp? {
      ReadingKeepsInv(jobs, good, s, pid);
    } else {
      LoadingKeepsInv(jobs, good, s, pid);
    }
  }

  lemma ActionKeepsInv(jobs: set<Job>, good: Bake, s: State, a: Action)
    requires WriteTheSame(jobs) && Inv(jobs, good, s) && Enabled(jobs, s, a)
    requires forall j :: j in jobs ==> j.bake.cards == good.cards && j.bake.aliases == good.aliases
    ensures Inv(jobs, good, Apply(s, a))
  {
    if a.Go? {
      StepKeepsInv(jobs, good, s, a.pid);
    } else {
      OthersStayGood(jobs, good, s, Apply(s, a), a.pid);
    }
  }

  lemma {:induction false} RunKeepsInv(jobs: set<Job>, good: Bake, s: State, actions: seq<Action>)
    requires WriteTheSame(jobs) && Inv(jobs, good, s)
    requires forall j :: j in jobs ==> j.bake.cards == good.cards && j.bake.aliases == good.aliases
    ensures var final := Exec(jobs, s, actions); final.Some? ==> Inv(jobs, good, final.value)
    decreases actions
  {
    if actions != [] && Enabled(jobs, s, actions[0]) {
      ActionKeepsInv(jobs, good, s, actions[0]);
      RunKeepsInv(jobs, good, Apply(s, actions[0]), actions[1..]);
    }
  }

  /** Whatever the interleaving, kills and failures: a stamp in place means complete data of these jobs in
      place, and every binder returned, loaded or fresh, is the process's own bake. */
  lemma EveryRunIsSafe(jobs: set<Job>, actions: seq<Action>)
    requires WriteTheSame(jobs) && Exec(jobs, START, actions).Some?
    ensures var s := Exec(jobs, START, actions).value;
            && EveryReturnIsOwnBake(s)
            && (s.saved.stamp.Some? ==>
                  exists j :: j in jobs
                              && s.saved == Files(Some(Complete(j.bake.cards)), Some(Complete(j.bake.aliases)),
                                                  Some(Complete(Stamp(j.bake.version, j.fingerprint)))))
  {
    if jobs == {} {
      NothingRuns(actions);
    } else {
      var any :| any in jobs;
      RunKeepsInv(jobs, any.bake, START, actions);
      var s := Exec(jobs, START, actions).value;
      if s.saved.stamp.Some? {
        var j :| j in jobs && s.saved.stamp.value.content == Stamp(j.bake.version, j.fingerprint);
        assert j.bake.cards == any.bake.cards;
      }
    }
  }

  lemma {:induction false} NothingRuns(actions: seq<Action>)
    ensures Exec({}, START, actions) == if actions == [] then Some(START) else None
  {
    if actions != [] {
      assert !Enabled({}, START, actions[0]);
    }
  }

  // ----- jobs that do not write the same have an unsafe run

  ghost predicate Reaches(jobs: set<Job>, from: State, to: State) {
    exists actions :: Exec(jobs, from, actions) == Some(to)
  }

  lemma {:induction false} ExecConcat(jobs: set<Job>, s: State, first: seq<Action>, second: seq<Action>)
    requires Exec(jobs, s, first).Some?
    ensures Exec(jobs, s, first + second) == Exec(jobs, Exec(jobs, s, first).value, second)
    decreases first
  {
    if first == [] {
      assert first + second == second;
    } else {
      ExecConcat(jobs, Apply(s, first[0]), first[1..], second);
      assert (first + second)[1..] == first[1..] + second;
    }
  }

  lemma Chain(jobs: set<Job>, a: State, b: State, c: State)
    requires Reaches(jobs, a, b) && Reaches(jobs, b, c)
    ensures Reaches(jobs, a, c)
  {
    var first :| Exec(jobs, a, first) == Some(b);
    var second :| Exec(jobs, b, second) == Some(c);
    ExecConcat(jobs, a, first, second);
  }

  lemma One(jobs: set<Job>, s: State, a: Action)
    requires Enabled(jobs, s, a)
    ensures Reaches(jobs, s, Apply(s, a))
  {
    assert Exec(jobs, s, [a]) == Some(Apply(s, a)) by {
      assert [a][1..] == [];
    }
  }

  function Staged(job: Job): Files {
    Files(Some(Complete(job.bake.cards)), Some(Complete(job.bake.aliases)),
          Some(Complete(Stamp(job.bake.version, job.fingerprint))))
  }

  /** The process at `pid` is doing `job`, has got to `pc`, and has `staged` in its staging directory. */
  function Doing(s: State, pid: Pid, job: Job, pc: Pc, staged: Files): State {
    s.(procs := s.procs[pid := Proc(job, pc)], staging := s.staging[pid := staged])
  }

  function Written(job: Job, k: nat): Files {
    if k == 0 then NO_FILES else WriteNext(Written(job, k - 1), job, k - 1)
  }

  /** A process may write all three files to staging while no stamp is in place. */
  lemma StagesAll(jobs: set<Job>, s: State, pid: Pid, job: Job)
    requires job in jobs && pid !in s.procs && pid !in s.staging && s.saved.stamp == None
    ensures Reaches(jobs, s, Doing(s, pid, job, Moving(0), Staged(job)))
  {
    var started := Apply(s, Start(pid, job));
    One(jobs, s, Start(pid, job));
    One(jobs, started, Go(pid));
    var writing, one := Step(started, pid), Doing(s, pid, job, Writing(1), Written(job, 1));
    One(jobs, writing, Go(pid));
    assert Written(job, 1) == WriteNext(NO_FILES, job, 0) by {
      assert Written(job, 0) == NO_FILES;
    }
    assert Step(writing, pid) == one;
    Chain(jobs, s, started, writing);
    Chain(jobs, s, writing, one);
    RestOfStaging(jobs, s, pid, job);
    Chain(jobs, s, one, Doing(s, pid, job, Moving(0), Staged(job)));
  }

  lemma OneWrite(jobs: set<Job>, s: State, pid: Pid, job: Job, k: nat)
    requires k <= 4
    ensures Reaches(jobs, Doing(s, pid, job, Writing(k), Written(job, k)),
                    Doing(s, pid, job, Writing(k + 1), Written(job, k + 1)))
  {
    var last := Doing(s, pid, job, Writing(k), Written(job, k));
    One(jobs, last, Go(pid));
    assert Step(last, pid) == Doing(s, pid, job, Writing(k + 1), Written(job, k + 1));
  }

  lemma AllSixWrites(job: Job)
    ensures WriteNext(Written(job, 5), job, 5) == Staged(job)
  {
    assert Written(job, 1) == WriteNext(Written(job, 0), job, 0);
    assert Written(job, 2) == WriteNext(Written(job, 1), job, 1);
    assert Written(job, 3) == WriteNext(Written(job, 2), job, 2);
    assert Written(job, 4) == WriteNext(Written(job, 3), job, 3);
  }

  lemma RestOfStaging(jobs: set<Job>, s: State, pid: Pid, job: Job)
    ensures Reaches(jobs, Doing(s, pid, job, Writing(1), Written(job, 1)), Doing(s, pid, job, Moving(0), Staged(job)))
  {
    hide Reaches, Written;
    var one, five := Doing(s, pid, job, Writing(1), Written(job, 1)), Doing(s, pid, job, Writing(5), Written(job, 5));
    OneWrite(jobs, s, pid, job, 1);
    OneWrite(jobs, s, pid, job, 2);
    OneWrite(jobs, s, pid, job, 3);
    OneWrite(jobs, s, pid, job, 4);
    Chain(jobs, one, Doing(s, pid, job, Writing(2), Written(job, 2)), Doing(s, pid, job, Writing(3), Written(job, 3)));
    Chain(jobs, one, Doing(s, pid, job, Writing(3), Written(job, 3)), Doing(s, pid, job, Writing(4), Written(job, 4)));
    Chain(jobs, one, Doing(s, pid, job, Writing(4), Written(job, 4)), five);
    AllSixWrites(job);
    One(jobs, five, Go(pid));
    assert Step(five, pid) == Doing(s, pid, job, Moving(0), Staged(job));
    Chain(jobs, one, five, Doing(s, pid, job, Moving(0), Staged(job)));
  }

  function DataOf(job: Job, saved: Files): Files {
    saved.(binder := Some(Complete(job.bake.cards)), ledger := Some(Complete(job.bake.aliases)))
  }

  /** The process has moved its ledger and binder, and has only its stamp left to move. */
  function DataMoved(s: State, pid: Pid, job: Job): State {
    Doing(s, pid, job, Moving(2), Staged(job).(binder := None, ledger := None)).(saved := DataOf(job, s.saved))
  }

  lemma MovesData(jobs: set<Job>, s: State, pid: Pid, job: Job)
    ensures Reaches(jobs, Doing(s, pid, job, Moving(0), Staged(job)), DataMoved(s, pid, job))
  {
    hide Reaches;
    var from, to := Doing(s, pid, job, Moving(0), Staged(job)), DataMoved(s, pid, job);
    One(jobs, from, Go(pid));
    One(jobs, LedgerMoved(s, pid, job), Go(pid));
    LedgerThenBinder(s, pid, job);
    Chain(jobs, from, LedgerMoved(s, pid, job), to);
  }

  function LedgerMoved(s: State, pid: Pid, job: Job): State {
    Doing(s, pid, job, Moving(1), Staged(job).(ledger := None))
      .(saved := s.saved.(ledger := Some(Complete(job.bake.aliases))))
  }

  lemma LedgerThenBinder(s: State, pid: Pid, job: Job)
    ensures Step(Doing(s, pid, job, Moving(0), Staged(job)), pid) == LedgerMoved(s, pid, job)
    ensures Step(LedgerMoved(s, pid, job), pid) == DataMoved(s, pid, job)
  {
  }

  lemma BakesUpToItsStamp(jobs: set<Job>, s: State, pid: Pid, job: Job)
    requires job in jobs && pid !in s.procs && pid !in s.staging && s.saved.stamp == None
    ensures Reaches(jobs, s, DataMoved(s, pid, job))
  {
    hide Reaches;
    StagesAll(jobs, s, pid, job);
    MovesData(jobs, s, pid, job);
    Chain(jobs, s, Doing(s, pid, job, Moving(0), Staged(job)), DataMoved(s, pid, job));
  }

  /** One more step of a process that was reached, or none if it is over. */
  lemma OneMoreStep(jobs: set<Job>, from: State, s: State, pid: Pid)
    requires Reaches(jobs, from, s) && pid in s.procs
    ensures Reaches(jobs, from, Step(s, pid)) && pid in Step(s, pid).procs
  {
    hide Reaches;
    if !IsOver(s.procs[pid].pc) {
      One(jobs, s, Go(pid));
      Chain(jobs, from, s, Apply(s, Go(pid)));
    } else {
      assert Step(s, pid) == s;
    }
  }

  /** Left alone where no stamp is in place, a process saves all three files whole and returns its own bake. */
  lemma LoneProcessSavesItsBake(jobs: set<Job>, s: State, pid: Pid, job: Job) returns (end: State)
    requires job in jobs && pid !in s.procs && pid !in s.staging && s.saved.stamp == None
    ensures Reaches(jobs, s, end) && end.returned == s.returned + [Return(job, job.bake)]
    ensures end.saved == Files(Some(Complete(job.bake.cards)), Some(Complete(job.bake.aliases)),
                               Some(Complete(Stamp(job.bake.version, job.fingerprint))))
  {
    hide Reaches;
    var moved := DataMoved(s, pid, job);
    BakesUpToItsStamp(jobs, s, pid, job);
    OneMoreStep(jobs, s, moved, pid);
    OneMoreStep(jobs, s, Step(moved, pid), pid);
    end := Step(Step(moved, pid), pid);
  }

  /** Whatever lies beside a stamp, a process left alone answers from it and changes no file: it raises exactly for
      an unreadable or foreign stamp, a missing or partial binder or a partial ledger, and otherwise returns the
      cards and aliases it finds, no aliases without a ledger, under the stamped version. */
  lemma LoadAnswersFromTheFiles(jobs: set<Job>, s: State, pid: Pid, job: Job) returns (end: State)
    requires job in jobs && pid !in s.procs && s.saved.stamp.Some?
    ensures Reaches(jobs, s, end) && pid in end.procs && end.saved == s.saved && end.staging == s.staging
    ensures var (stamp, binder, ledger) := (s.saved.stamp.value, s.saved.binder, s.saved.ledger);
            if stamp.Complete? && stamp.content.fingerprint == job.fingerprint && binder.Some? && binder.value.Complete?
               && (ledger.Some? ==> ledger.value.Complete?)
            then
              var aliases := if ledger.Some? then ledger.value.content else map[];
              end.returned == s.returned + [Return(job, Bake(binder.value.content, aliases, stamp.content.version))]
            else end.procs[pid].pc == Raised && end.returned == s.returned
  {
    hide Reaches;
    var checking := Apply(s, Start(pid, job));
    One(jobs, s, Start(pid, job));
    OneMoreStep(jobs, s, checking, pid);
    var reading := Step(checking, pid);
    OneMoreStep(jobs, s, reading, pid);
    var binder := Step(reading, pid);
    OneMoreStep(jobs, s, binder, pid);
    var ledger := Step(binder, pid);
    OneMoreStep(jobs, s, ledger, pid);
    end := Step(ledger, pid);
  }

  /** A process whose fingerprint is the saved stamp's gets whatever data is in place. */
  lemma LoadsWhatIsSaved(jobs: set<Job>, s: State, pid: Pid, job: Job, cards: Cards, aliases: Aliases, version: string)
    returns (end: State)
    requires job in jobs && pid !in s.procs
    requires s.saved ==
             Files(Some(Complete(cards)), Some(Complete(aliases)), Some(Complete(Stamp(version, job.fingerprint))))
    ensures Reaches(jobs, s, end) && end.returned == s.returned + [Return(job, Bake(cards, aliases, version))]
  {
    end := LoadAnswersFromTheFiles(jobs, s, pid, job);
  }

  /** The stamper moves its data, the other moves its own over it and stops there, the stamper moves its
      stamp: a later process of the stamper's fingerprint gets the other's data under the stamper's version. */
  lemma MixedBake(jobs: set<Job>, stamper: Job, other: Job, loader: Job) returns (actions: seq<Action>)
    requires stamper in jobs && other in jobs && loader in jobs && loader.fingerprint == stamper.fingerprint
    ensures var final := Exec(jobs, START, actions);
            && final.Some?
            && Return(loader, Bake(other.bake.cards, other.bake.aliases, stamper.bake.version)) in final.value.returned
  {
    var end := MixedBakeReached(jobs, stamper, other, loader);
    actions :| Exec(jobs, START, actions) == Some(end);
  }

  lemma MixedBakeReached(jobs: set<Job>, stamper: Job, other: Job, loader: Job) returns (end: State)
    requires stamper in jobs && other in jobs && loader in jobs && loader.fingerprint == stamper.fingerprint
    ensures Reaches(jobs, START, end)
    ensures Return(loader, Bake(other.bake.cards, other.bake.aliases, stamper.bake.version)) in end.returned
  {
    hide Reaches;
    var first := DataMoved(START, 0, stamper);
    BakesUpToItsStamp(jobs, START, 0, stamper);
    var second := DataMoved(first, 1, other);
    BakesUpToItsStamp(jobs, first, 1, other);
    Chain(jobs, START, first, second);
    var stamped := Step(second, 0);
    One(jobs, second, Go(0));
    Chain(jobs, START, second, stamped);
    assert stamped.saved == Staged(other).(stamp := Some(Complete(Stamp(stamper.bake.version, stamper.fingerprint))));
    end := LoadsWhatIsSaved(jobs, stamped, 2, loader, other.bake.cards, other.bake.aliases, stamper.bake.version);
    Chain(jobs, START, stamped, end);
    assert end.returned[|stamped.returned|]
           == Return(loader, Bake(other.bake.cards, other.bake.aliases, stamper.bake.version));
  }

  /** Sharing one directory is safe in every run exactly when all its jobs write the same. */
  lemma SafeExactlyWhenAllWriteTheSame(jobs: set<Job>)
    ensures (forall actions :: Exec(jobs, START, actions).Some? ==>
               EveryReturnIsOwnBake(Exec(jobs, START, actions).value))
            <==> WriteTheSame(jobs)
  {
    if WriteTheSame(jobs) {
      forall actions | Exec(jobs, START, actions).Some?
        ensures EveryReturnIsOwnBake(Exec(jobs, START, actions).value)
      {
        EveryRunIsSafe(jobs, actions);
      }
    } else {
      var actions := UnsafeRun(jobs);
      assert !EveryReturnIsOwnBake(Exec(jobs, START, actions).value);
    }
  }

  lemma UnsafeRun(jobs: set<Job>) returns (actions: seq<Action>)
    requires !WriteTheSame(jobs)
    ensures Exec(jobs, START, actions).Some? && !EveryReturnIsOwnBake(Exec(jobs, START, actions).value)
  {
    hide Exec;
    var a, b :| a in jobs && b in jobs && !(a.bake.cards == b.bake.cards && a.bake.aliases == b.bake.aliases
                                            && (a.fingerprint == b.fingerprint ==> a.bake.version == b.bake.version));
    ghost var got: Return;
    if a.bake.cards != b.bake.cards || a.bake.aliases != b.bake.aliases {
      actions := MixedBake(jobs, a, b, a);
      got := Return(a, Bake(b.bake.cards, b.bake.aliases, a.bake.version));
    } else {
      actions := MixedBake(jobs, a, a, b);
      got := Return(b, Bake(a.bake.cards, a.bake.aliases, a.bake.version));
    }
    var returned := Exec(jobs, START, actions).value.returned;
    var r :| 0 <= r < |returned| && returned[r] == got;
    assert returned[r].bake != returned[r].job.bake;
  }
}
