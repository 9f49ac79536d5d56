/** Runs that are serial for one template: a job of it that was queued runs to its end before
    the template is scanned again or edited.  Everything else, other templates' jobs and edits and
    the locks among them, interleaves freely. */
module RecurringSerial {
  import opened Wrappers
  import opened Schedule
  import opened Recurring
  import opened RecurringSteps
  import opened Cadence
  import opened Sums

  // ---------- jobs of one template ----------

  function IsId(i: nat): nat -> int {
    (id: nat) => if id == i then 1 else 0
  }

  function JobsOf(i: nat): Worker -> int {
    (w: Worker) => match w
      case Pushing(ids) => Sum(ids, IsId(i))
      case Taken(id) => IsId(i)(id)
      case Loaded(id, _) => IsId(i)(id)
      case Expiring(id) => IsId(i)(id)
      case Materialised(id, _, _) => IsId(i)(id)
      case _ => 0
  }

  /** Jobs of the template still to be pushed, queued, or taken and not ended. */
  function Jobs(s: State, i: nat): int {
    Sum(s.queue, IsId(i)) + Sum(s.workers, JobsOf(i))
  }

  predicate Writes(s: State, w: nat, i: nat) {
    HasWorker(s, w) && (s.workers[w].Updating? || s.workers[w].Resuming?) && s.workers[w].id == i
  }

  /** The step is a scan that finds the template due, or a request that writes it. */
  predicate Touches(s: State, l: Label, i: nat) {
    match l
    case Scan => i < |s.templates| && Due(s.templates[i], s.now)
    case CommitUpdate(w, _, _, _) => Writes(s, w, i)
    case CommitResume(w, _) => Writes(s, w, i)
    case PauseRow(id) => id == i
    case CancelRow(id) => id == i
    case _ => false
  }

  /** The job ends between its invoice and its next run. */
  predicate FailsMidway(s: State, l: Label, i: nat) {
    l.End? && HasWorker(s, l.w) && s.workers[l.w].Materialised? && s.workers[l.w].id == i
  }

  predicate SerialStep(s: State, l: Label, i: nat) {
    (Touches(s, l, i) ==> Jobs(s, i) == 0) && !FailsMidway(s, l, i)
  }

  ghost predicate Serial(states: seq<State>, labels: seq<Label>, i: nat)
    requires |labels| <= |states|
  {
    forall k | 0 <= k < |labels| :: SerialStep(states[k], labels[k], i)
  }

  // ---------- counting jobs ----------

  lemma JobsNonnegative(s: State, i: nat)
    ensures Sum(s.queue, IsId(i)) >= 0 && Sum(s.workers, JobsOf(i)) >= 0
    ensures forall w | 0 <= w < |s.workers| :: 0 <= JobsOf(i)(s.workers[w]) <= Sum(s.workers, JobsOf(i))
  {
    SumNonnegative(s.queue, IsId(i));
    forall w | 0 <= w < |s.workers| ensures JobsOf(i)(s.workers[w]) >= 0 {
      if s.workers[w].Pushing? { SumNonnegative(s.workers[w].ids, IsId(i)); }
    }
    SumNonnegative(s.workers, JobsOf(i));
  }

  lemma TwoJobs(s: State, i: nat, v: nat, w: nat)
    requires HasWorker(s, v) && HasWorker(s, w) && v != w
    requires JobsOf(i)(s.workers[v]) >= 1 && JobsOf(i)(s.workers[w]) >= 1
    ensures Jobs(s, i) >= 2
  {
    var t := Move(s, v, Done);
    JobsNonnegative(t, i);
    SumUpdate(s.workers, v, Done, JobsOf(i));
    assert JobsOf(i)(t.workers[w]) <= Sum(t.workers, JobsOf(i));
  }

  /** Where there is one job, only one worker has it. */
  lemma OneJob(s: State, i: nat, v: nat, w: nat)
    requires Jobs(s, i) <= 1 && HasWorker(s, v) && HasWorker(s, w)
    requires JobsOf(i)(s.workers[v]) >= 1 && JobsOf(i)(s.workers[w]) >= 1
    ensures v == w
  {
    if v != w { TwoJobs(s, i, v, w); }
  }

  lemma MoveJobs(s: State, w: nat, x: Worker, i: nat)
    requires HasWorker(s, w)
    ensures Sum(s.workers[w := x], JobsOf(i)) == Sum(s.workers, JobsOf(i)) - JobsOf(i)(s.workers[w]) + JobsOf(i)(x)
  {
    SumUpdate(s.workers, w, x, JobsOf(i));
  }

  lemma FirstId(ids: seq<nat>, i: nat)
    requires ids != []
    ensures Sum(ids, IsId(i)) == IsId(i)(ids[0]) + Sum(ids[1..], IsId(i))
  {
    assert ids == [ids[0]] + ids[1..];
    SumAppend([ids[0]], ids[1..], IsId(i));
    SumOne(ids[0], IsId(i));
  }

  lemma WithoutId(queue: seq<nat>, k: nat, i: nat)
    requires k < |queue|
    ensures Sum(queue[..k] + queue[k + 1..], IsId(i)) == Sum(queue, IsId(i)) - IsId(i)(queue[k])
  {
    SumAppend(queue[..k], queue[k + 1..], IsId(i));
    SumAppend(queue[..k], queue[k..], IsId(i));
    assert queue[..k] + queue[k..] == queue;
    FirstId(queue[k..], i);
  }

  lemma OneIdMore(ids: seq<nat>, n: nat, i: nat)
    ensures Sum(ids + [n], IsId(i)) == Sum(ids, IsId(i)) + if n == i then 1 else 0
  {
    SumPush(ids, n, IsId(i));
  }

  lemma {:induction false} DueOnce(templates: seq<Template>, now: int, i: nat)
    ensures Sum(DueIds(templates, now), IsId(i)) == if i < |templates| && Due(templates[i], now) then 1 else 0
  {
    if templates != [] {
      var n := |templates| - 1;
      var before := DueIds(templates[..n], now);
      DueOnce(templates[..n], now, i);
      assert DueIds(templates, now) == if Due(templates[n], now) then before + [n] else before;
      OneIdMore(before, n, i);
    }
  }

  predicate Pushes(l: Label) { l.Push? || l.LosePush? }

  lemma PushJobs(s: State, l: Label, i: nat)
    requires Enabled(s, l) && Pushes(l)
    ensures Jobs(Step(s, l), i) <= Jobs(s, i)
  {
    var ids := s.workers[l.w].ids;
    FirstId(ids, i);
    MoveJobs(s, l.w, Pushing(ids[1..]), i);
    SumPush(s.queue, ids[0], IsId(i));
  }

  lemma TakeJobs(s: State, k: nat, i: nat)
    requires Enabled(s, Take(k))
    ensures Jobs(Step(s, Take(k)), i) == Jobs(s, i)
  {
    WithoutId(s.queue, k, i);
    SumPush(s.workers, Taken(s.queue[k]), JobsOf(i));
  }

  lemma ScanJobs(s: State, i: nat)
    ensures Jobs(Step(s, Scan), i) == Jobs(s, i) + if Touches(s, Scan, i) then 1 else 0
  {
    DueOnce(s.templates, s.now, i);
    SumPush(s.workers, Pushing(DueIds(s.templates, s.now)), JobsOf(i));
  }

  lemma EndJobs(s: State, w: nat, retry: bool, i: nat)
    requires Enabled(s, End(w, retry))
    ensures Jobs(Step(s, End(w, retry)), i) <= Jobs(s, i)
  {
    JobsNonnegative(s, i);
    MoveJobs(s, w, Done, i);
    var again := JobOf(s.workers[w]);
    SumAppend(s.queue, again, IsId(i));
    if again != [] { SumOne(again[0], IsId(i)); }
  }

  predicate Stays(l: Label) {
    l.Tick? || l.CreateTemplate? || l.PauseRow? || l.CancelRow?
  }

  predicate Locks(l: Label) { l.SelectForUpdate? || l.SelectForResume? }

  predicate MovesWorker(l: Label) {
    l.CommitUpdate? || l.CommitResume? || l.Load? || l.SeeExpired? || l.WriteExpired? || l.Materialise? || l.WriteNext?
  }

  /** The job's last step. */
  predicate EndsJob(s: State, l: Label, i: nat) {
    (l.WriteExpired? || l.WriteNext?) && HasWorker(s, l.w) && JobOf(s.workers[l.w]) == [i]
  }

  lemma MovedJobs(s: State, l: Label, i: nat)
    requires Enabled(s, l) && MovesWorker(l)
    ensures Jobs(Step(s, l), i) <= Jobs(s, i) - if EndsJob(s, l, i) then 1 else 0
  {
    MoveJobs(s, l.w, Step(s, l).workers[l.w], i);
  }

  lemma LockJobs(s: State, l: Label, i: nat)
    requires Enabled(s, l) && Locks(l)
    ensures Jobs(Step(s, l), i) == Jobs(s, i)
  {
    SumPush(s.workers, Step(s, l).workers[|s.workers|], JobsOf(i));
  }

  /** Only a scan that finds the template due adds a job of it, and the job's last step removes it. */
  lemma StepJobs(s: State, l: Label, i: nat)
    requires Enabled(s, l)
    ensures Jobs(Step(s, l), i)
            <= Jobs(s, i) + if l.Scan? && Touches(s, l, i) then 1 else if EndsJob(s, l, i) then -1 else 0
  {
    if Pushes(l) {
      PushJobs(s, l, i);
    } else if l.Take? {
      TakeJobs(s, l.k, i);
    } else if l.Scan? {
      ScanJobs(s, i);
    } else if l.End? {
      EndJobs(s, l.w, l.retry, i);
    } else if MovesWorker(l) {
      MovedJobs(s, l, i);
    } else if Locks(l) {
      LockJobs(s, l, i);
    }
  }

  // ---------- the invariant ----------

  /** The next_run_at values of the template's invoices, in the order they were made. */
  function Dues(made: seq<Made>, i: nat): seq<DateTime> {
    if made == [] then []
    else
      var m := made[|made| - 1];
      Dues(made[..|made| - 1], i) + if m.id == i && m.due.Some? then [m.due.value] else []
  }

  lemma DuesPush(made: seq<Made>, m: Made, i: nat)
    ensures Dues(made + [m], i) == Dues(made, i) + if m.id == i && m.due.Some? then [m.due.value] else []
  {
    assert (made + [m])[..|made|] == made;
  }

  predicate Increasing(points: seq<DateTime>) {
    forall i, j | 0 <= i < j < |points| :: Instant(points[i]) < Instant(points[j])
  }

  /** All at or before `now`. */
  predicate Past(points: seq<DateTime>, now: int) {
    forall k | 0 <= k < |points| :: Instant(points[k]) <= now
  }

  predicate Ahead(points: seq<DateTime>, next: DateTime) {
    forall k | 0 <= k < |points| :: Instant(points[k]) < Instant(next)
  }

  ghost predicate OnCadence(start: DateTime, f: Frequency, p: DateTime) {
    exists k: nat :: p == Point(start, AdvanceBy(f), k)
  }

  /** Worker `w` has made the template's invoice and has still to advance the template. */
  predicate Between(s: State, w: nat, i: nat) {
    HasWorker(s, w) && s.workers[w].Materialised? && s.workers[w].id == i
  }

  ghost predicate InProgress(s: State, i: nat) {
    exists w: nat :: Between(s, w, i)
  }

  predicate DueMade(made: seq<Made>, i: nat) {
    forall k | 0 <= k < |made| && made[k].id == i :: made[k].due.Some? && Instant(made[k].due.value) <= made[k].at
  }

  /** What a job in hand knows of its template, and what the holder of its lock knows of its dues. */
  ghost predicate WorkerFine(s: State, x: Worker, i: nat)
    requires i < |s.templates|
  {
    match x
    case Loaded(id, row) => id == i ==> row == s.templates[i]
    case Materialised(id, row, since) =>
      id == i ==>
        && row == s.templates[i] && row.nextRun.Some? && Instant(row.nextRun.value) <= since
        && Dues(s.made, i) != [] && Dues(s.made, i)[|Dues(s.made, i)| - 1] == row.nextRun.value
    case Updating(id, _, since) => id == i ==> InProgress(s, i) || Past(Dues(s.made, i), since)
    case Resuming(id, _, since) => id == i ==> InProgress(s, i) || Past(Dues(s.made, i), since)
    case _ => true
  }

  ghost predicate WorkersFine(s: State, i: nat)
    requires i < |s.templates|
  {
    forall w | 0 <= w < |s.workers| :: WorkerFine(s, s.workers[w], i)
  }

  ghost predicate NextAhead(s: State, i: nat)
    requires i < |s.templates|
  {
    var t := s.templates[i];
    t.status != Cancelled ==>
      && t.nextRun.Some? && OnCadence(t.start, t.frequency, t.nextRun.value)
      && (InProgress(s, i) || Ahead(Dues(s.made, i), t.nextRun.value))
  }

  predicate FineAt(made: seq<Made>, now: int, i: nat) {
    Increasing(Dues(made, i)) && Past(Dues(made, i), now) && DueMade(made, i)
  }

  predicate DuesFine(s: State, i: nat) {
    FineAt(s.made, s.now, i)
  }

  function JobsAllowed(s: State, i: nat): nat {
    if i < |s.templates| && Due(s.templates[i], s.now) then 1 else 0
  }

  ghost predicate SerialInv(s: State, i: nat) {
    && Jobs(s, i) <= JobsAllowed(s, i)
    && DuesFine(s, i)
    && (if i < |s.templates| then WorkersFine(s, i) && NextAhead(s, i) else Dues(s.made, i) == [])
  }

  // ---------- preservation ----------

  ghost predicate Good(s: State, l: Label, i: nat) {
    Inv(s) && SerialInv(s, i) && Enabled(s, l) && SerialStep(s, l, i)
  }

  lemma HasJob(s: State, w: nat, i: nat)
    requires HasWorker(s, w) && JobOf(s.workers[w]) == [i]
    ensures Jobs(s, i) >= 1
  {
    JobsNonnegative(s, i);
  }

  /** While the template has a job, only the job's last step changes its row. */
  lemma RowStays(s: State, l: Label, i: nat)
    requires Enabled(s, l) && SerialStep(s, l, i) && Jobs(s, i) >= 1 && !EndsJob(s, l, i) && i < |s.templates|
    ensures i < |Step(s, l).templates| && Step(s, l).templates[i] == s.templates[i]
  {
  }

  lemma TimePasses(s: State, l: Label)
    requires Enabled(s, l)
    ensures Step(s, l).now >= s.now
  {
  }

  lemma AllowedStays(s: State, t: State, i: nat)
    requires JobsAllowed(s, i) == 1 && t.now >= s.now
    requires i < |t.templates| && t.templates[i] == s.templates[i]
    ensures JobsAllowed(t, i) == 1
  {
  }

  lemma StepJobsBounded(s: State, l: Label, i: nat)
    requires Enabled(s, l) && SerialStep(s, l, i) && Jobs(s, i) <= JobsAllowed(s, i)
    ensures Jobs(Step(s, l), i) <= JobsAllowed(Step(s, l), i)
  {
    StepJobs(s, l, i);
    TimePasses(s, l);
    if l.Scan? {
      assert Touches(s, l, i) ==> JobsAllowed(Step(s, l), i) == 1;
    } else if Jobs(s, i) >= 1 && !EndsJob(s, l, i) {
      RowStays(s, l, i);
      AllowedStays(s, Step(s, l), i);
    }
  }

  lemma NotInProgress(s: State, w: nat, i: nat)
    requires SerialInv(s, i) && HasWorker(s, w) && s.workers[w].Loaded? && s.workers[w].id == i
    ensures !InProgress(s, i)
  {
    forall v: nat ensures !Between(s, v, i) {
      if Between(s, v, i) { OneJob(s, i, v, w); }
    }
  }

  /** The template of a loaded job is due, as it was loaded, past everything consumed. */
  lemma LoadedDue(s: State, w: nat, i: nat)
    requires SerialInv(s, i) && HasWorker(s, w) && s.workers[w].Loaded? && s.workers[w].id == i
    ensures i < |s.templates| && s.workers[w].row == s.templates[i] && Due(s.templates[i], s.now)
    ensures Ahead(Dues(s.made, i), s.templates[i].nextRun.value)
    ensures OnCadence(s.templates[i].start, s.templates[i].frequency, s.templates[i].nextRun.value)
  {
    HasJob(s, w, i);
    NotInProgress(s, w, i);
    assert WorkerFine(s, s.workers[w], i);
    assert NextAhead(s, i);
  }

  /** An invoice is made by the one job there is, at a due date after all earlier ones. */
  lemma MaterialiseFine(s: State, w: nat, at: int, i: nat)
    requires Good(s, Materialise(w, at), i) && s.workers[w].id == i
    ensures i < |s.templates| && s.templates[i].nextRun.Some? && !InProgress(s, i)
    ensures s.workers[w].row == s.templates[i] && Instant(s.templates[i].nextRun.value) <= s.now
    ensures Ahead(Dues(s.made, i), s.templates[i].nextRun.value)
    ensures OnCadence(s.templates[i].start, s.templates[i].frequency, s.templates[i].nextRun.value)
    ensures Dues(Step(s, Materialise(w, at)).made, i) == Dues(s.made, i) + [s.templates[i].nextRun.value]
  {
    LoadedDue(s, w, i);
    NotInProgress(s, w, i);
    StepMade(s, Materialise(w, at));
    DuesPush(s.made, Made(i, s.templates[i].nextRun, s.now), i);
  }

  lemma OtherDues(s: State, l: Label, i: nat)
    requires Enabled(s, l) && !(l.Materialise? && s.workers[l.w].id == i)
    ensures Dues(Step(s, l).made, i) == Dues(s.made, i)
  {
    if l.Materialise? { DuesPush(s.made, Step(s, l).made[|s.made|], i); }
  }

  lemma StepMade(s: State, l: Label)
    requires Enabled(s, l)
    ensures Step(s, l).now >= s.now
    ensures Step(s, l).made ==
              if l.Materialise?
              then s.made + [Made(s.workers[l.w].id, s.templates[s.workers[l.w].id].nextRun, s.now)]
              else s.made
  {
  }

  lemma LaterFine(made: seq<Made>, now: int, later: int, i: nat)
    requires FineAt(made, now, i) && now <= later
    ensures FineAt(made, later, i)
  {
  }

  lemma PushPoint(points: seq<DateTime>, p: DateTime, now: int)
    requires Increasing(points) && Past(points, now) && Ahead(points, p) && Instant(p) <= now
    ensures Increasing(points + [p]) && Past(points + [p], now)
  {
  }

  lemma PushDueMade(made: seq<Made>, m: Made, i: nat)
    requires DueMade(made, i) && (m.id == i ==> m.due.Some? && Instant(m.due.value) <= m.at)
    ensures DueMade(made + [m], i)
  {
  }

  lemma PushFine(made: seq<Made>, m: Made, now: int, i: nat)
    requires FineAt(made, now, i) && m.at <= now
    requires m.id == i ==> m.due.Some? && Ahead(Dues(made, i), m.due.value) && Instant(m.due.value) <= m.at
    ensures FineAt(made + [m], now, i)
  {
    DuesPush(made, m, i);
    PushDueMade(made, m, i);
    if m.id == i { PushPoint(Dues(made, i), m.due.value, now); }
  }

  lemma StepDuesFine(s: State, l: Label, i: nat)
    requires Good(s, l, i)
    ensures DuesFine(Step(s, l), i)
  {
    StepMade(s, l);
    if l.Materialise? {
      if s.workers[l.w].id == i { MaterialiseFine(s, l.w, l.at, i); }
      PushFine(s.made, Step(s, l).made[|s.made|], s.now, i);
    }
    LaterFine(Step(s, l).made, s.now, Step(s, l).now, i);
  }

  /** A job in progress stays so until it writes the next run. */
  lemma StepInProgress(s: State, l: Label, i: nat)
    requires Good(s, l, i) && InProgress(s, i) && !(l.WriteNext? && s.workers[l.w].id == i)
    ensures InProgress(Step(s, l), i)
  {
    var w: nat :| Between(s, w, i);
    assert Between(Step(s, l), w, i);
  }

  /** Of a worker that keeps its place. */
  lemma StayedFine(s: State, l: Label, w: nat, i: nat)
    requires Good(s, l, i) && i < |s.templates| && HasWorker(s, w) && Step(s, l).workers[w] == s.workers[w]
    requires JobOf(s.workers[w]) == [i]
    ensures i < |Step(s, l).templates| && WorkerFine(Step(s, l), s.workers[w], i)
  {
    HasJob(s, w, i);
    assert WorkerFine(s, s.workers[w], i);
    if EndsJob(s, l, i) {
      OneJob(s, i, w, l.w);
    } else {
      RowStays(s, l, i);
      if l.Materialise? && s.workers[l.w].id == i { OneJob(s, i, w, l.w); }
      OtherDues(s, l, i);
    }
  }

  /** A holder of the lock stays fine while the dues stay, and while the job is in progress. */
  lemma HolderStays(s: State, t: State, x: Worker, i: nat)
    requires i < |s.templates| && i < |t.templates| && (x.Updating? || x.Resuming?) && WorkerFine(s, x, i)
    requires InProgress(t, i) || (!InProgress(s, i) && Dues(t.made, i) == Dues(s.made, i))
    ensures WorkerFine(t, x, i)
  {
  }

  /** Of a holder of the lock. */
  lemma HolderFine(s: State, l: Label, w: nat, i: nat)
    requires Good(s, l, i) && i < |s.templates| && i < |Step(s, l).templates| && Holds(s, w, i)
    ensures WorkerFine(Step(s, l), s.workers[w], i)
  {
    assert WorkerFine(s, s.workers[w], i);
    assert Locked(s, i);
    var t := Step(s, l);
    if l.Materialise? && s.workers[l.w].id == i {
      assert Between(t, l.w, i);
    } else {
      OtherDues(s, l, i);
      if InProgress(s, i) { StepInProgress(s, l, i); }
    }
    HolderStays(s, t, s.workers[w], i);
  }

  /** Of a worker that has just loaded its template, made its invoice, or locked the row. */
  lemma LoadedFine(s: State, w: nat, i: nat)
    requires Good(s, Load(w), i) && i < |s.templates|
    ensures WorkerFine(Step(s, Load(w)), Step(s, Load(w)).workers[w], i)
  {
  }

  lemma MadeFine(s: State, w: nat, at: int, i: nat)
    requires Good(s, Materialise(w, at), i) && i < |s.templates|
    ensures WorkerFine(Step(s, Materialise(w, at)), Step(s, Materialise(w, at)).workers[w], i)
  {
    if s.workers[w].id == i { MaterialiseFine(s, w, at, i); }
  }

  lemma LockedFine(s: State, l: Label, i: nat)
    requires Good(s, l, i) && Locks(l) && i < |s.templates|
    ensures WorkerFine(Step(s, l), Step(s, l).workers[|s.workers|], i)
  {
    OtherDues(s, l, i);
  }

  predicate Knows(x: Worker) {
    x.Loaded? || x.Materialised? || x.Updating? || x.Resuming?
  }

  lemma NothingKnown(s: State, l: Label, w: nat)
    requires Enabled(s, l) && !l.Load? && !l.Materialise? && !Locks(l) && w < |Step(s, l).workers|
    requires w < |s.workers| ==> Step(s, l).workers[w] != s.workers[w]
    ensures !Knows(Step(s, l).workers[w])
  {
  }

  /** Of the worker the step moves or spawns. */
  lemma MovedFine(s: State, l: Label, w: nat, i: nat)
    requires Good(s, l, i) && i < |s.templates| && i < |Step(s, l).templates| && w < |Step(s, l).workers|
    requires w < |s.workers| ==> Step(s, l).workers[w] != s.workers[w]
    ensures WorkerFine(Step(s, l), Step(s, l).workers[w], i)
  {
    if l.Load? {
      LoadedFine(s, l.w, i);
    } else if l.Materialise? {
      MadeFine(s, l.w, l.at, i);
    } else if Locks(l) {
      LockedFine(s, l, i);
    } else {
      NothingKnown(s, l, w);
    }
  }

  lemma StepWorkersFine(s: State, l: Label, i: nat)
    requires Good(s, l, i) && i < |s.templates|
    ensures i < |Step(s, l).templates| && WorkersFine(Step(s, l), i)
  {
    StepTemplate(s, l, i);
    var t := Step(s, l);
    forall w | 0 <= w < |t.workers| ensures WorkerFine(t, t.workers[w], i) {
      if w < |s.workers| && t.workers[w] == s.workers[w] {
        if JobOf(s.workers[w]) == [i] {
          StayedFine(s, l, w, i);
        } else if Holds(s, w, i) {
          HolderFine(s, l, w, i);
        }
      } else {
        MovedFine(s, l, w, i);
      }
    }
  }

  lemma NextRunAhead(start: DateTime, f: Frequency, now: int)
    requires NextRun(start, f, now).Some?
    ensures Instant(NextRun(start, f, now).value) > now
    ensures OnCadence(start, f, NextRun(start, f, now).value)
  {
    var m := NextRunIsLeast(start, f, now);
  }

  /** A request commits while no job of the template is about, after every due date consumed. */
  lemma CommitAhead(s: State, l: Label, i: nat)
    requires Good(s, l, i) && (l.CommitUpdate? || l.CommitResume?) && s.workers[l.w].id == i
    ensures i < |Step(s, l).templates| && NextAhead(Step(s, l), i)
  {
    var x := s.workers[l.w];
    assert WorkerOk(s, x) && WorkerFine(s, x, i);
    forall v: nat ensures !Between(s, v, i) {
      if Between(s, v, i) { HasJob(s, v, i); }
    }
    if l.CommitResume? {
      NextRunAhead(x.row.start, x.row.frequency, l.at);
    } else if FrequencyChanges(x.row, l.newF) {
      NextRunAhead(x.row.start, l.newF.value, l.at);
    }
  }

  lemma AheadOfLast(points: seq<DateTime>, since: int, next: DateTime)
    requires Increasing(points) && points != [] && Instant(points[|points| - 1]) <= since < Instant(next)
    ensures Ahead(points, next)
  {
  }

  lemma AheadIntro(t: State, i: nat, next: DateTime)
    requires i < |t.templates| && t.templates[i].nextRun == Some(next)
    requires OnCadence(t.templates[i].start, t.templates[i].frequency, next) && Ahead(Dues(t.made, i), next)
    ensures NextAhead(t, i)
  {
  }

  lemma AdvanceAhead(s: State, w: nat, at: int, i: nat)
    requires Good(s, WriteNext(w, at), i) && s.workers[w].id == i
    ensures i < |s.templates| && NextAhead(Step(s, WriteNext(w, at)), i)
  {
    var x := s.workers[w];
    HasJob(s, w, i);
    assert WorkerFine(s, x, i);
    var next := NextRun(x.row.start, x.row.frequency, at).value;
    NextRunAhead(x.row.start, x.row.frequency, at);
    AheadOfLast(Dues(s.made, i), at, next);
    AheadIntro(Step(s, WriteNext(w, at)), i, next);
  }

  /** What a step that neither commits a request on the template nor advances it leaves of its row. */
  lemma RowOther(s: State, l: Label, i: nat)
    requires Enabled(s, l) && i < |s.templates|
    requires !((l.CommitUpdate? || l.CommitResume? || l.WriteNext?) && s.workers[l.w].id == i)
    ensures i < |Step(s, l).templates|
    ensures var a, b := s.templates[i], Step(s, l).templates[i];
            && b.start == a.start && b.frequency == a.frequency
            && (b.status != Cancelled ==> a.status != Cancelled && b.nextRun == a.nextRun)
  {
  }

  lemma AheadStays(s: State, t: State, i: nat)
    requires i < |s.templates| && i < |t.templates| && NextAhead(s, i)
    requires var a, b := s.templates[i], t.templates[i];
             && b.start == a.start && b.frequency == a.frequency
             && (b.status != Cancelled ==> a.status != Cancelled && b.nextRun == a.nextRun)
    requires InProgress(t, i) || (!InProgress(s, i) && Dues(t.made, i) == Dues(s.made, i))
    ensures NextAhead(t, i)
  {
  }

  lemma OtherAhead(s: State, l: Label, i: nat)
    requires Good(s, l, i) && i < |s.templates|
    requires !((l.CommitUpdate? || l.CommitResume? || l.WriteNext?) && s.workers[l.w].id == i)
    ensures i < |Step(s, l).templates| && NextAhead(Step(s, l), i)
  {
    RowOther(s, l, i);
    if l.Materialise? && s.workers[l.w].id == i {
      assert Between(Step(s, l), l.w, i);
    } else {
      OtherDues(s, l, i);
      if InProgress(s, i) { StepInProgress(s, l, i); }
    }
    AheadStays(s, Step(s, l), i);
  }

  lemma StepNextAhead(s: State, l: Label, i: nat)
    requires Good(s, l, i) && i < |s.templates|
    ensures i < |Step(s, l).templates| && NextAhead(Step(s, l), i)
  {
    if (l.CommitUpdate? || l.CommitResume?) && s.workers[l.w].id == i {
      CommitAhead(s, l, i);
    } else if l.WriteNext? && s.workers[l.w].id == i {
      AdvanceAhead(s, l.w, l.at, i);
    } else {
      OtherAhead(s, l, i);
    }
  }

  lemma CreatedWorkersFine(s: State, l: Label)
    requires Good(s, l, |s.templates|) && l.CreateTemplate?
    ensures WorkersFine(Step(s, l), |s.templates|)
  {
    var i := |s.templates|;
    forall w | 0 <= w < |s.workers| ensures WorkerFine(Step(s, l), s.workers[w], i) {
      assert WorkerOk(s, s.workers[w]);
      if JobOf(s.workers[w]) == [i] { HasJob(s, w, i); }
    }
  }

  lemma CreatedAhead(s: State, l: Label)
    requires Good(s, l, |s.templates|) && l.CreateTemplate?
    ensures NextAhead(Step(s, l), |s.templates|)
  {
    NextRunAhead(l.start, l.f, l.at);
    OtherDues(s, l, |s.templates|);
  }

  lemma StepNew(s: State, l: Label, i: nat)
    requires Good(s, l, i) && i >= |s.templates|
    ensures if i < |Step(s, l).templates| then WorkersFine(Step(s, l), i) && NextAhead(Step(s, l), i)
            else Dues(Step(s, l).made, i) == []
  {
    StepSize(s, l);
    if l.CreateTemplate? && i == |s.templates| {
      CreatedWorkersFine(s, l);
      CreatedAhead(s, l);
    } else {
      NoOtherNew(s, l, i);
    }
  }

  lemma StepSize(s: State, l: Label)
    requires Enabled(s, l)
    ensures |Step(s, l).templates| == |s.templates| + if l.CreateTemplate? then 1 else 0
  {
  }

  lemma NoOtherNew(s: State, l: Label, i: nat)
    requires Enabled(s, l) && i >= |s.templates| && !(l.CreateTemplate? && i == |s.templates|)
    requires Dues(s.made, i) == []
    ensures i >= |Step(s, l).templates| && Dues(Step(s, l).made, i) == []
  {
    StepSize(s, l);
    OtherDues(s, l, i);
  }

  lemma StepKeepsSerialInv(s: State, l: Label, i: nat)
    requires Good(s, l, i)
    ensures SerialInv(Step(s, l), i)
  {
    StepJobsBounded(s, l, i);
    StepDuesFine(s, l, i);
    if i < |s.templates| {
      StepWorkersFine(s, l, i);
      StepNextAhead(s, l, i);
    } else {
      StepNew(s, l, i);
    }
  }

  lemma {:induction false} SerialRunInv(states: seq<State>, labels: seq<Label>, k: nat, i: nat)
    requires IsRun(states, labels) && Serial(states, labels, i) && k < |states|
    ensures SerialInv(states[k], i)
  {
    if k > 0 {
      SerialRunInv(states, labels, k - 1, i);
      RunInv(states, labels, k - 1);
      StepKeepsSerialInv(states[k - 1], labels[k - 1], i);
    }
  }

  // ---------- what serial runs keep ----------

  /** The next_run_at values consumed by a template's invoices are strictly increasing and had come
      when the invoice was made, across pauses, resumes and frequency changes: no due date is
      materialised twice. */
  lemma ConsumedIncrease(states: seq<State>, labels: seq<Label>, k: nat, i: nat)
    requires IsRun(states, labels) && Serial(states, labels, i) && k < |states|
    ensures Increasing(Dues(states[k].made, i)) && Past(Dues(states[k].made, i), states[k].now)
    ensures DueMade(states[k].made, i)
  {
    SerialRunInv(states, labels, k, i);
  }

  /** The next run of a template not cancelled is always a point of its present cadence, and later
      than everything consumed unless its job is just between the invoice and the next run. */
  lemma NextRunOnCadence(states: seq<State>, labels: seq<Label>, k: nat, i: nat)
    requires IsRun(states, labels) && Serial(states, labels, i) && k < |states| && Live(states[k].templates, i)
    ensures var t := states[k].templates[i];
            && t.nextRun.Some? && OnCadence(t.start, t.frequency, t.nextRun.value)
            && (InProgress(states[k], i) || Ahead(Dues(states[k].made, i), t.nextRun.value))
  {
    SerialRunInv(states, labels, k, i);
  }

  // ---------- a fixed frequency ----------

  ghost predicate AllOnCadence(start: DateTime, f: Frequency, points: seq<DateTime>) {
    forall k | 0 <= k < |points| :: OnCadence(start, f, points[k])
  }

  predicate KeepsFrequency(s: State, l: Label, i: nat) {
    l.CommitUpdate? && Writes(s, l.w, i) && i < |s.templates| ==> l.newF in {None, Some(s.templates[i].frequency)}
  }

  ghost predicate FrequencyKept(states: seq<State>, labels: seq<Label>, i: nat)
    requires |labels| <= |states|
  {
    forall k | 0 <= k < |labels| :: KeepsFrequency(states[k], labels[k], i)
  }

  lemma StepFixed(s: State, l: Label, i: nat)
    requires Enabled(s, l) && KeepsFrequency(s, l, i) && i < |s.templates|
    ensures i < |Step(s, l).templates|
    ensures Step(s, l).templates[i].start == s.templates[i].start
    ensures Step(s, l).templates[i].frequency == s.templates[i].frequency
  {
  }

  ghost predicate DuesOnCadence(s: State, i: nat) {
    if i < |s.templates| then AllOnCadence(s.templates[i].start, s.templates[i].frequency, Dues(s.made, i))
    else Dues(s.made, i) == []
  }

  lemma CadencePush(start: DateTime, f: Frequency, points: seq<DateTime>, p: DateTime)
    requires AllOnCadence(start, f, points) && OnCadence(start, f, p)
    ensures AllOnCadence(start, f, points + [p])
  {
  }

  lemma MadeOnCadence(s: State, w: nat, at: int, i: nat)
    requires Good(s, Materialise(w, at), i) && s.workers[w].id == i && DuesOnCadence(s, i)
    ensures i < |s.templates|
    ensures AllOnCadence(s.templates[i].start, s.templates[i].frequency, Dues(Step(s, Materialise(w, at)).made, i))
  {
    MaterialiseFine(s, w, at, i);
    CadencePush(s.templates[i].start, s.templates[i].frequency, Dues(s.made, i), s.templates[i].nextRun.value);
  }

  lemma OthersOnCadence(s: State, l: Label, i: nat)
    requires Enabled(s, l) && KeepsFrequency(s, l, i) && DuesOnCadence(s, i)
    requires !(l.Materialise? && s.workers[l.w].id == i)
    ensures DuesOnCadence(Step(s, l), i)
  {
    OtherDues(s, l, i);
    if i < |s.templates| { StepFixed(s, l, i); }
  }

  lemma StepDuesOnCadence(s: State, l: Label, i: nat)
    requires Good(s, l, i) && KeepsFrequency(s, l, i) && DuesOnCadence(s, i)
    ensures DuesOnCadence(Step(s, l), i)
  {
    if l.Materialise? && s.workers[l.w].id == i {
      MadeOnCadence(s, l.w, l.at, i);
      StepFixed(s, l, i);
    } else {
      OthersOnCadence(s, l, i);
    }
  }

  lemma {:induction false} FixedFrequency(states: seq<State>, labels: seq<Label>, k: nat, i: nat)
    requires IsRun(states, labels) && Serial(states, labels, i) && FrequencyKept(states, labels, i) && k < |states|
    ensures DuesOnCadence(states[k], i)
  {
    if k > 0 {
      FixedFrequency(states, labels, k - 1, i);
      RunInv(states, labels, k - 1);
      SerialRunInv(states, labels, k - 1, i);
      StepDuesOnCadence(states[k - 1], labels[k - 1], i);
    }
  }

  /** Increasing points of one cadence: the j-th of them has index j or more. */
  lemma {:induction false} IndexAtLeast(start: DateTime, f: Frequency, points: seq<DateTime>, j: nat) returns (k: nat)
    requires Increasing(points) && AllOnCadence(start, f, points) && j < |points|
    ensures k >= j && points[j] == Point(start, AdvanceBy(f), k)
  {
    assert OnCadence(start, f, points[j]);
    k :| points[j] == Point(start, AdvanceBy(f), k);
    if j > 0 {
      var before := IndexAtLeast(start, f, points, j - 1);
      assert Instant(points[j - 1]) < Instant(points[j]);
      if k <= before {
        StepMoves(f);
        PointsGrow(start, AdvanceBy(f), At(), k, before);
        assert false;
      }
    }
  }

  /** Invoices made of the template. */
  function MadeOf(made: seq<Made>, i: nat): nat {
    if made == [] then 0 else MadeOf(made[..|made| - 1], i) + if made[|made| - 1].id == i then 1 else 0
  }

  lemma {:induction false} MadeAreDues(made: seq<Made>, i: nat)
    requires DueMade(made, i)
    ensures MadeOf(made, i) == |Dues(made, i)|
  {
    if made != [] { MadeAreDues(made[..|made| - 1], i); }
  }

  lemma PointsBound(start: DateTime, f: Frequency, points: seq<DateTime>, now: int, n: nat)
    requires Increasing(points) && AllOnCadence(start, f, points) && Past(points, now)
    requires Instant(Point(start, AdvanceBy(f), n)) > now
    ensures |points| <= n
  {
    if |points| > 0 {
      var last := IndexAtLeast(start, f, points, |points| - 1);
      assert Instant(points[|points| - 1]) <= now;
      if last >= n {
        StepMoves(f);
        PointsGrow(start, AdvanceBy(f), At(), n, last);
        assert false;
      }
    }
  }

  /** With the frequency kept no more invoices are made than cadence points have come. */
  lemma InvoicesBoundedByPoints(states: seq<State>, labels: seq<Label>, k: nat, i: nat, n: nat)
    requires IsRun(states, labels) && Serial(states, labels, i) && FrequencyKept(states, labels, i)
    requires k < |states| && i < |states[k].templates|
    requires var t := states[k].templates[i]; Instant(Point(t.start, AdvanceBy(t.frequency), n)) > states[k].now
    ensures MadeOf(states[k].made, i) <= n
  {
    var t := states[k].templates[i];
    FixedFrequency(states, labels, k, i);
    SerialRunInv(states, labels, k, i);
    MadeAreDues(states[k].made, i);
    PointsBound(t.start, t.frequency, Dues(states[k].made, i), states[k].now, n);
  }
}
