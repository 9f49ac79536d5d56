/** Scan, jobs and template endpoints interleaved, one statement or queue operation a step. */
module RecurringSteps {
  import opened Wrappers
  import opened Schedule
  import opened Recurring

  datatype Worker =
    | Done
      // update and resume: row selected FOR UPDATE at `since` and its status checked
    | Updating(id: nat, row: Template, since: int)
    | Resuming(id: nat, row: Template, since: int)
      // scan: due ids read, still to be pushed
    | Pushing(ids: seq<nat>)
      // job: taken from the queue; template read active; seen expired; invoice inserted at `since`
    | Taken(id: nat)
    | Loaded(id: nat, row: Template)
    | Expiring(id: nat)
    | Materialised(id: nat, row: Template, since: int)

  /** One materialised invoice: its template, and the next_run_at in force when it was made. */
  datatype Made = Made(id: nat, due: Option<DateTime>, at: int)

  datatype State = State(templates: seq<Template>, queue: seq<nat>, workers: seq<Worker>, made: seq<Made>, now: int)

  /** `at` is the clock reading the handler took before the step, and after its last one where
      `since` says when that was. */
  datatype Label =
    | Tick(time: int)
    | CreateTemplate(start: DateTime, f: Frequency, end: Option<int>, at: int)
    | SelectForUpdate(id: nat)
    | CommitUpdate(w: nat, newF: Option<Frequency>, newEnd: Option<int>, at: int)
    | PauseRow(id: nat)
    | SelectForResume(id: nat)
    | CommitResume(w: nat, at: int)
    | CancelRow(id: nat)
    | Scan
    | Push(w: nat)
    | LosePush(w: nat)
    | Take(k: nat)
    | Load(w: nat)
    | SeeExpired(w: nat, at: int)
    | WriteExpired(w: nat)
    | Materialise(w: nat, at: int)
    | WriteNext(w: nat, at: int)
    | End(w: nat, retry: bool)

  predicate Holds(s: State, w: nat, id: nat) {
    w < |s.workers| && (s.workers[w].Updating? || s.workers[w].Resuming?) && s.workers[w].id == id
  }

  ghost predicate Locked(s: State, id: nat) {
    exists w :: Holds(s, w, id)
  }

  predicate HasRow(s: State, id: nat) { id < |s.templates| }

  predicate HasWorker(s: State, w: nat) { w < |s.workers| }

  ghost predicate Enabled(s: State, l: Label) {
    match l
    case Tick(time) => time >= s.now
    case CreateTemplate(start, f, _, at) => at <= s.now && Valid(f) && NextRun(start, f, at).Some?
    case SelectForUpdate(id) => HasRow(s, id) && s.templates[id].status != Cancelled && !Locked(s, id)
    case CommitUpdate(w, f, _, at) =>
      && HasWorker(s, w) && s.workers[w].Updating? && HasRow(s, s.workers[w].id)
      && s.workers[w].since <= at <= s.now && f != Some(Other)
      && (FrequencyChanges(s.workers[w].row, f) ==> NewNext(s.workers[w].row, f, at).Some?)
    case PauseRow(id) => HasRow(s, id) && s.templates[id].status == Active && !Locked(s, id)
    case SelectForResume(id) => HasRow(s, id) && s.templates[id].status == Paused && !Locked(s, id)
    case CommitResume(w, at) =>
      && HasWorker(s, w) && s.workers[w].Resuming? && HasRow(s, s.workers[w].id)
      && s.workers[w].since <= at <= s.now
      && NextRun(s.workers[w].row.start, s.workers[w].row.frequency, at).Some?
    case CancelRow(id) => HasRow(s, id) && s.templates[id].status != Cancelled && !Locked(s, id)
    case Scan => true
    case Push(w) => HasWorker(s, w) && s.workers[w].Pushing? && s.workers[w].ids != []
    case LosePush(w) => HasWorker(s, w) && s.workers[w].Pushing? && s.workers[w].ids != []
    case Take(k) => k < |s.queue|
    case Load(w) => HasWorker(s, w) && s.workers[w].Taken?
    case SeeExpired(w, at) =>
      HasWorker(s, w) && s.workers[w].Loaded? && at <= s.now && Expired(s.workers[w].row.end, at)
    case WriteExpired(w) =>
      HasWorker(s, w) && s.workers[w].Expiring? && HasRow(s, s.workers[w].id) && !Locked(s, s.workers[w].id)
    case Materialise(w, at) =>
      && HasWorker(s, w) && s.workers[w].Loaded? && HasRow(s, s.workers[w].id)
      && at <= s.now && !Expired(s.workers[w].row.end, at)
    case WriteNext(w, at) =>
      && HasWorker(s, w) && s.workers[w].Materialised? && HasRow(s, s.workers[w].id)
      && s.workers[w].since <= at <= s.now && !Locked(s, s.workers[w].id)
      && NextRun(s.workers[w].row.start, s.workers[w].row.frequency, at).Some?
    case End(w, _) => HasWorker(s, w)
  }

  function Spawn(s: State, w: Worker): State { s.(workers := s.workers + [w]) }

  function Move(s: State, w: nat, next: Worker): State
    requires HasWorker(s, w)
  {
    s.(workers := s.workers[w := next])
  }

  function Write(s: State, id: nat, row: Template): State
    requires HasRow(s, id)
  {
    s.(templates := s.templates[id := row])
  }

  function JobOf(w: Worker): seq<nat> {
    match w
    case Taken(id) => [id]
    case Loaded(id, _) => [id]
    case Expiring(id) => [id]
    case Materialised(id, _, _) => [id]
    case _ => []
  }

  ghost function Step(s: State, l: Label): State
    requires Enabled(s, l)
  {
    match l
    case Tick(time) => s.(now := time)
    case CreateTemplate(start, f, end, at) =>
      s.(templates := s.templates + [Inserted(start, f, end, NextRun(start, f, at).value)])
    case SelectForUpdate(id) => Spawn(s, Updating(id, s.templates[id], s.now))
    case CommitUpdate(w, f, end, at) =>
      var c := s.workers[w];
      Write(Move(s, w, Done), c.id, Edit(s.templates[c.id], f, end, NewNext(c.row, f, at)))
    case PauseRow(id) => Write(s, id, Pause(s.templates[id]))
    case SelectForResume(id) => Spawn(s, Resuming(id, s.templates[id], s.now))
    case CommitResume(w, at) =>
      var c := s.workers[w];
      Write(Move(s, w, Done), c.id, Resume(s.templates[c.id], NextRun(c.row.start, c.row.frequency, at).value))
    case CancelRow(id) => Write(s, id, Cancel(s.templates[id]))
    case Scan => Spawn(s, Pushing(DueIds(s.templates, s.now)))
    case Push(w) =>
      var ids := s.workers[w].ids;
      Move(s, w, Pushing(ids[1..])).(queue := s.queue + [ids[0]])
    case LosePush(w) => Move(s, w, Pushing(s.workers[w].ids[1..]))
    case Take(k) => Spawn(s, Taken(s.queue[k])).(queue := s.queue[..k] + s.queue[k + 1..])
    case Load(w) =>
      var id := s.workers[w].id;
      Move(s, w, if HasRow(s, id) && s.templates[id].status == Active then Loaded(id, s.templates[id]) else Done)
    case SeeExpired(w, _) => Move(s, w, Expiring(s.workers[w].id))
    case WriteExpired(w) => Write(Move(s, w, Done), s.workers[w].id, Cancel(s.templates[s.workers[w].id]))
    case Materialise(w, at) =>
      var c := s.workers[w];
      Move(s, w, Materialised(c.id, c.row, s.now))
        .(made := s.made + [Made(c.id, s.templates[c.id].nextRun, s.now)])
    case WriteNext(w, at) =>
      var c := s.workers[w];
      Write(Move(s, w, Done), c.id,
            Advanced(s.templates[c.id], NextRun(c.row.start, c.row.frequency, at).value, s.now))
    case End(w, retry) =>
      Move(s, w, Done).(queue := if retry then s.queue + JobOf(s.workers[w]) else s.queue)
  }

  predicate Initial(s: State) {
    s.templates == [] && s.queue == [] && s.workers == [] && s.made == []
  }

  ghost predicate IsRun(states: seq<State>, labels: seq<Label>) {
    && |states| == |labels| + 1
    && Initial(states[0])
    && forall k | 0 <= k < |labels| :: Enabled(states[k], labels[k]) && states[k + 1] == Step(states[k], labels[k])
  }

  // ---------- the invariant ----------

  predicate TemplateOk(t: Template) {
    t.status != Cancelled ==> t.nextRun.Some?
  }

  predicate WorkerOk(s: State, w: Worker) {
    match w
    case Updating(id, row, _) => HasRow(s, id) && s.templates[id] == row && row.status != Cancelled
    case Resuming(id, row, _) => HasRow(s, id) && s.templates[id] == row && row.status == Paused
    case _ => true
  }

  ghost predicate TemplatesOk(s: State) {
    forall i | 0 <= i < |s.templates| :: TemplateOk(s.templates[i])
  }

  ghost predicate WorkersOk(s: State) {
    forall w | 0 <= w < |s.workers| :: WorkerOk(s, s.workers[w])
  }

  ghost predicate LocksExclusive(s: State) {
    forall v, w, id | Holds(s, v, id) && Holds(s, w, id) :: v == w
  }

  ghost predicate Inv(s: State) {
    TemplatesOk(s) && WorkersOk(s) && LocksExclusive(s)
  }

  predicate TemplateGrows(a: Template, b: Template) {
    a.start == b.start && (a.status == Cancelled ==> b.status == Cancelled)
  }

  lemma StepTemplate(s: State, l: Label, i: nat)
    requires Inv(s) && Enabled(s, l) && i < |s.templates|
    ensures i < |Step(s, l).templates|
    ensures TemplateGrows(s.templates[i], Step(s, l).templates[i]) && TemplateOk(Step(s, l).templates[i])
  {
    assert TemplateOk(s.templates[i]);
    match l
    case CommitUpdate(w, _, _, _) => assert WorkerOk(s, s.workers[w]);
    case CommitResume(w, _) => assert WorkerOk(s, s.workers[w]);
    case _ =>
  }

  lemma StepTemplatesOk(s: State, l: Label)
    requires Inv(s) && Enabled(s, l)
    ensures TemplatesOk(Step(s, l))
  {
    var t := Step(s, l);
    forall i | 0 <= i < |t.templates| ensures TemplateOk(t.templates[i]) {
      if i < |s.templates| { StepTemplate(s, l, i); }
    }
  }

  /** A locked row does not change until its holder moves. */
  lemma LockProtects(s: State, l: Label, w: nat, id: nat)
    requires Inv(s) && Enabled(s, l) && Holds(s, w, id) && Holds(Step(s, l), w, id)
    ensures HasRow(s, id) && HasRow(Step(s, l), id) && Step(s, l).templates[id] == s.templates[id]
  {
    assert WorkerOk(s, s.workers[w]);
    assert Locked(s, id);
    match l
    case CommitUpdate(v, _, _, _) => if s.workers[v].id == id { assert Holds(s, v, id); }
    case CommitResume(v, _) => if s.workers[v].id == id { assert Holds(s, v, id); }
    case _ =>
  }

  lemma StepWorkersOk(s: State, l: Label)
    requires Inv(s) && Enabled(s, l)
    ensures WorkersOk(Step(s, l))
  {
    var t := Step(s, l);
    forall w | 0 <= w < |t.workers| ensures WorkerOk(t, t.workers[w]) {
      if w < |s.workers| && t.workers[w] == s.workers[w] && (s.workers[w].Updating? || s.workers[w].Resuming?) {
        assert WorkerOk(s, s.workers[w]);
        assert Holds(s, w, s.workers[w].id) && Holds(t, w, s.workers[w].id);
        LockProtects(s, l, w, s.workers[w].id);
      }
    }
  }

  /** A lock is newly held only by the select that found the row unlocked. */
  lemma HeldBefore(s: State, l: Label, w: nat, id: nat)
    requires Enabled(s, l) && Holds(Step(s, l), w, id)
    ensures Holds(s, w, id) || (w == |s.workers| && !Locked(s, id))
  {
  }

  lemma StepLocksExclusive(s: State, l: Label)
    requires LocksExclusive(s) && Enabled(s, l)
    ensures LocksExclusive(Step(s, l))
  {
    forall v: nat, w: nat, id: nat | Holds(Step(s, l), v, id) && Holds(Step(s, l), w, id) ensures v == w {
      HeldBefore(s, l, v, id);
      HeldBefore(s, l, w, id);
    }
  }

  lemma {:induction false} RunInv(states: seq<State>, labels: seq<Label>, k: nat)
    requires IsRun(states, labels) && k < |states|
    ensures Inv(states[k])
  {
    if k > 0 {
      RunInv(states, labels, k - 1);
      StepTemplatesOk(states[k - 1], labels[k - 1]);
      StepWorkersOk(states[k - 1], labels[k - 1]);
      StepLocksExclusive(states[k - 1], labels[k - 1]);
    }
  }

  /** In every interleaving a cancelled template stays cancelled: no resume, edit or job that began
      before the cancellation brings it back. */
  lemma {:induction false} CancelledForever(states: seq<State>, labels: seq<Label>, j: nat, k: nat, i: nat)
    requires IsRun(states, labels) && j <= k < |states| && i < |states[j].templates|
    requires states[j].templates[i].status == Cancelled
    ensures i < |states[k].templates| && states[k].templates[i].status == Cancelled
  {
    if j < k {
      CancelledForever(states, labels, j, k - 1, i);
      RunInv(states, labels, k - 1);
      StepTemplate(states[k - 1], labels[k - 1], i);
    }
  }

  /** Every active or paused template has a next run, in every interleaving. */
  lemma LiveHasNextRun(states: seq<State>, labels: seq<Label>, k: nat, i: nat)
    requires IsRun(states, labels) && k < |states| && i < |states[k].templates|
    requires states[k].templates[i].status != Cancelled
    ensures states[k].templates[i].nextRun.Some?
  {
    RunInv(states, labels, k);
    assert TemplateOk(states[k].templates[i]);
  }
}
