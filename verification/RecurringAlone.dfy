/** Every template endpoint, the scan and the job run alone: their steps, uninterrupted, do what
    the methods of `Scheduler` do.  And a run in which two scans make two invoices of one due date. */
module RecurringAlone {
  import opened Wrappers
  import opened Schedule
  import opened Recurring
  import opened RecurringSteps

  ghost predicate RunsTo(s: State, labels: seq<Label>, t: State)
    decreases |labels|
  {
    if labels == [] then t == s
    else Enabled(s, labels[0]) && RunsTo(Step(s, labels[0]), labels[1..], t)
  }

  lemma OneStep(s: State, l: Label)
    requires Enabled(s, l)
    ensures RunsTo(s, [l], Step(s, l))
  {
    assert [l][1..] == [];
  }

  lemma {:induction false} Join(s: State, a: seq<Label>, t: State, b: seq<Label>, u: State)
    requires RunsTo(s, a, t) && RunsTo(t, b, u)
    ensures RunsTo(s, a + b, u)
    decreases |a|
  {
    if a == [] {
      assert a + b == b;
    } else {
      assert (a + b)[1..] == a[1..] + b;
      Join(Step(s, a[0]), a[1..], t, b, u);
    }
  }

  lemma Then(s: State, a: seq<Label>, t: State, l: Label)
    requires RunsTo(s, a, t) && Enabled(t, l)
    ensures RunsTo(s, a + [l], Step(t, l))
  {
    OneStep(t, l);
    Join(s, a, t, [l], Step(t, l));
  }

  // ---------- requests ----------

  ghost predicate Unblocked(s: State, c: Call) {
    !c.Create? ==> !Locked(s, c.id)
  }

  lemma OneStepCall(s: State, c: Call) returns (labels: seq<Label>, t: State)
    requires Unblocked(s, c) && Accepted(s.templates, c, s.now) && !c.Update? && !c.ResumeCall?
    ensures RunsTo(s, labels, t)
    ensures t == s.(templates := Serve(s.templates, c, s.now))
  {
    var l := if c.Create? then CreateTemplate(c.start, c.f, c.end, s.now)
             else if c.PauseCall? then PauseRow(c.id)
             else CancelRow(c.id);
    OneStep(s, l);
    labels, t := [l], Step(s, l);
  }

  lemma LockedCall(s: State, c: Call) returns (labels: seq<Label>, t: State)
    requires Unblocked(s, c) && Accepted(s.templates, c, s.now) && (c.Update? || c.ResumeCall?)
    ensures RunsTo(s, labels, t)
    ensures t == s.(templates := Serve(s.templates, c, s.now), workers := s.workers + [Done])
  {
    var w := |s.workers|;
    var select := if c.Update? then SelectForUpdate(c.id) else SelectForResume(c.id);
    var commit := if c.Update? then CommitUpdate(w, c.newF, c.newEnd, s.now) else CommitResume(w, s.now);
    var mid := Step(s, select);
    OneStep(s, select);
    Then(s, [select], mid, commit);
    labels, t := [select] + [commit], Step(mid, commit);
  }

  /** Every template endpoint alone, while no other handler holds its row. */
  lemma CallAlone(s: State, c: Call) returns (labels: seq<Label>, t: State)
    requires Unblocked(s, c)
    ensures RunsTo(s, labels, t)
    ensures t.templates == Serve(s.templates, c, s.now) && t.queue == s.queue && t.made == s.made
    ensures forall w | |s.workers| <= w < |t.workers| :: t.workers[w] == Done
  {
    labels, t := [], s;
    if Accepted(s.templates, c, s.now) {
      if c.Update? || c.ResumeCall? {
        labels, t := LockedCall(s, c);
      } else {
        labels, t := OneStepCall(s, c);
      }
    }
  }

  // ---------- the scan ----------

  lemma {:induction false} PushesAlone(s: State, w: nat, lost: set<nat>) returns (labels: seq<Label>, t: State)
    requires HasWorker(s, w) && s.workers[w].Pushing?
    ensures RunsTo(s, labels, t)
    ensures t == s.(workers := s.workers[w := Pushing([])], queue := s.queue + Pushed(s.workers[w].ids, lost))
    decreases |s.workers[w].ids|
  {
    var ids := s.workers[w].ids;
    labels, t := [], s;
    if ids == [] {
      assert s.workers[w := Pushing([])] == s.workers;
    } else {
      var l := if ids[0] in lost then LosePush(w) else Push(w);
      var mid, rest := Step(s, l), [];
      rest, t := PushesAlone(mid, w, lost);
      OneStep(s, l);
      Join(s, [l], mid, rest, t);
      labels := [l] + rest;
      PushedFirst(ids, lost);
    }
  }

  lemma {:induction false} PushedFirst(ids: seq<nat>, lost: set<nat>)
    requires ids != []
    ensures Pushed(ids, lost) == (if ids[0] in lost then [] else [ids[0]]) + Pushed(ids[1..], lost)
  {
    if |ids| > 1 {
      assert ids[..|ids| - 1][1..] == ids[1..][..|ids| - 2];
      PushedFirst(ids[..|ids| - 1], lost);
    }
  }

  /** The scan alone, whichever of its pushes fail. */
  lemma ScanAlone(s: State, lost: set<nat>) returns (labels: seq<Label>, t: State)
    ensures RunsTo(s, labels, t)
    ensures t == s.(workers := s.workers + [Pushing([])], queue := s.queue + Pushed(DueIds(s.templates, s.now), lost))
  {
    var mid, rest := Step(s, Scan), [];
    rest, t := PushesAlone(mid, |s.workers|, lost);
    OneStep(s, Scan);
    Join(s, [Scan], mid, rest, t);
    labels := [Scan] + rest;
  }

  // ---------- the job ----------

  function Taking(s: State, k: nat): State
    requires k < |s.queue|
  {
    s.(queue := s.queue[..k] + s.queue[k + 1..], workers := s.workers + [Taken(s.queue[k])])
  }

  function WorkerIs(s: State, x: Worker): State
    requires s.workers != []
  {
    s.(workers := s.workers[|s.workers| - 1 := x])
  }

  /** From the queue to the template read: active, or passed over. */
  lemma LoadedAlone(s: State, k: nat) returns (labels: seq<Label>, t: State)
    requires k < |s.queue|
    ensures RunsTo(s, labels, t)
    ensures var id := s.queue[k];
            t == WorkerIs(Taking(s, k), if Has(s.templates, id, Active) then Loaded(id, s.templates[id]) else Done)
  {
    var mid := Step(s, Take(k));
    OneStep(s, Take(k));
    Then(s, [Take(k)], mid, Load(|s.workers|));
    labels, t := [Take(k)] + [Load(|s.workers|)], Step(mid, Load(|s.workers|));
  }

  predicate IsLast(s: State, w: nat) { w + 1 == |s.workers| }

  /** From the loaded template to the cancellation of an expired one. */
  lemma ExpiredAlone(s: State, w: nat) returns (labels: seq<Label>, t: State)
    requires IsLast(s, w) && s.workers[w].Loaded? && HasRow(s, s.workers[w].id)
    requires !Locked(s, s.workers[w].id) && Expired(s.workers[w].row.end, s.now)
    ensures RunsTo(s, labels, t)
    ensures var id := s.workers[w].id;
            t == WorkerIs(s, Done).(templates := s.templates[id := Cancel(s.templates[id])])
  {
    var mid := Step(s, SeeExpired(w, s.now));
    OneStep(s, SeeExpired(w, s.now));
    SameLocks(s, mid, s.workers[w].id);
    Then(s, [SeeExpired(w, s.now)], mid, WriteExpired(w));
    labels, t := [SeeExpired(w, s.now)] + [WriteExpired(w)], Step(mid, WriteExpired(w));
  }

  lemma SameLocks(s: State, t: State, id: nat)
    requires forall w | Holds(t, w, id) :: Holds(s, w, id)
    requires !Locked(s, id)
    ensures !Locked(t, id)
  {
  }

  /** From the loaded template to its invoice, and to its next run where there is one. */
  lemma MadeAlone(s: State, w: nat) returns (labels: seq<Label>, t: State)
    requires IsLast(s, w) && s.workers[w].Loaded? && HasRow(s, s.workers[w].id)
    requires !Locked(s, s.workers[w].id) && !Expired(s.workers[w].row.end, s.now)
    requires s.templates[s.workers[w].id] == s.workers[w].row
    ensures RunsTo(s, labels, t)
    ensures var (id, row) := (s.workers[w].id, s.workers[w].row);
            && t.made == s.made + [Made(id, row.nextRun, s.now)] && t.queue == s.queue && t.now == s.now
            && match NextRun(row.start, row.frequency, s.now)
               case None => t.templates == s.templates && t.workers == s.workers[w := Materialised(id, row, s.now)]
               case Some(next) =>
                 t.templates == s.templates[id := Advanced(row, next, s.now)] && t.workers == s.workers[w := Done]
  {
    var id, row := s.workers[w].id, s.workers[w].row;
    OneStep(s, Materialise(w, s.now));
    labels, t := [Materialise(w, s.now)], Step(s, Materialise(w, s.now));
    if NextRun(row.start, row.frequency, s.now).Some? {
      var mid := t;
      SameLocks(s, mid, id);
      Then(s, labels, mid, WriteNext(w, s.now));
      labels, t := labels + [WriteNext(w, s.now)], Step(mid, WriteNext(w, s.now));
    }
  }

  /** Where the job's worker stands: at its end, or for ever between the invoice and the next run. */
  function WorkerAfter(id: nat, t: Template, now: int, outcome: Outcome): Worker {
    if outcome == Hung then Materialised(id, t, now) else Done
  }

  /** The state after the job for the `k`-th entry of the queue, as one step. */
  ghost function AfterJob(s: State, k: nat, insertOk: bool): State
    requires k < |s.queue| && HasRow(s, s.queue[k])
  {
    var id := s.queue[k];
    var t := s.templates[id];
    var (row, outcome) := RunJob(t, s.now, insertOk);
    WorkerIs(Taking(s, k), WorkerAfter(id, t, s.now, outcome))
      .(templates := s.templates[id := row],
        made := s.made + if outcome in {MadeInvoice, Hung} then [Made(id, t.nextRun, s.now)] else [])
  }

  /** The job alone, for any table, any entry of the queue and any outcome: its steps leave what
      `RunJob` says.  A job whose next run cannot be computed stands still after its invoice. */
  lemma JobAlone(s: State, k: nat, insertOk: bool) returns (labels: seq<Label>, t: State)
    requires k < |s.queue| && HasRow(s, s.queue[k]) && !Locked(s, s.queue[k])
    ensures RunsTo(s, labels, t) && t == AfterJob(s, k, insertOk)
  {
    var id, w := s.queue[k], |s.workers|;
    var row := s.templates[id];
    labels, t := LoadedAlone(s, k);
    assert s.templates[id := row] == s.templates;
    if row.status == Active {
      var mid, rest := t, [];
      SameLocks(s, mid, id);
      if Expired(row.end, s.now) {
        rest, t := ExpiredAlone(mid, w);
      } else if insertOk {
        rest, t := MadeAlone(mid, w);
      } else {
        OneStep(mid, End(w, false));
        rest, t := [End(w, false)], Step(mid, End(w, false));
      }
      Join(s, labels, mid, rest, t);
      labels := labels + rest;
    }
  }

  // ---------- two scans, one due date, two invoices ----------

  ghost predicate EndsIn(states: seq<State>, labels: seq<Label>, s: State) {
    IsRun(states, labels) && states[|labels|] == s
  }

  lemma {:induction false} Extend(states: seq<State>, labels: seq<Label>, s: State, more: seq<Label>, t: State)
    returns (states': seq<State>, labels': seq<Label>)
    requires EndsIn(states, labels, s) && RunsTo(s, more, t)
    ensures EndsIn(states', labels', t)
    decreases |more|
  {
    states', labels' := states, labels;
    if more != [] {
      var next := Step(s, more[0]);
      states', labels' := states + [next], labels + [more[0]];
      assert EndsIn(states', labels', next);
      states', labels' := Extend(states', labels', next, more[1..], t);
    }
  }

  lemma Unlocked(s: State, id: nat)
    requires forall w | 0 <= w < |s.workers| :: !s.workers[w].Updating? && !s.workers[w].Resuming?
    ensures !Locked(s, id)
  {
  }

  /** A weekly template whose first run has come. */
  lemma CreatedAndDue(start: DateTime) returns (states: seq<State>, labels: seq<Label>)
    ensures EndsIn(states, labels, State([Inserted(start, Weekly, None, start)], [], [], [], Instant(start)))
  {
    var due := Instant(start);
    var s := State([], [], [], [], due - 1);
    var first, t := OneStepCall(s, Create(start, Weekly, None, true));
    OneStep(t, Tick(due));
    Join(s, first, t, [Tick(due)], Step(t, Tick(due)));
    states, labels := Extend([s], [], s, first + [Tick(due)], Step(t, Tick(due)));
  }

  const SCANNED := [Pushing([]), Pushing([])]

  lemma OnlyDue(start: DateTime)
    ensures Pushed(DueIds([Inserted(start, Weekly, None, start)], Instant(start)), {}) == [0]
  {
    var templates := [Inserted(start, Weekly, None, start)];
    assert templates[..0] == [] && [0][..0] == [];
    assert DueIds(templates, Instant(start)) == [0];
  }

  /** Two scans both push it before any job runs. */
  lemma ScannedTwice(start: DateTime) returns (states: seq<State>, labels: seq<Label>)
    ensures EndsIn(states, labels, State([Inserted(start, Weekly, None, start)], [0, 0], SCANNED, [], Instant(start)))
  {
    var template, due := Inserted(start, Weekly, None, start), Instant(start);
    states, labels := CreatedAndDue(start);
    var s := State([template], [], [], [], due);
    OnlyDue(start);
    var scan, t := ScanAlone(s, {});
    states, labels := Extend(states, labels, s, scan, t);
    var again, u := ScanAlone(t, {});
    states, labels := Extend(states, labels, t, again, u);
    assert u.queue == [0, 0] && u.workers == SCANNED;
  }

  lemma WeeklyNext(start: DateTime) returns (next: DateTime)
    ensures NextRun(start, Weekly, Instant(start)) == Some(next) && Instant(next) > Instant(start)
  {
    SafeStarts(start, Weekly, Instant(start));
    next := NextRun(start, Weekly, Instant(start)).value;
    var m := NextRunIsLeast(start, Weekly, Instant(start));
  }

  /** The claim that a second job for the same due date does nothing fails: both jobs make an
      invoice, the second one before its template is due again. */
  lemma SecondJobMakesInvoice(start: DateTime) returns (states: seq<State>, labels: seq<Label>)
    ensures IsRun(states, labels)
    ensures var s := states[|labels|];
            && |s.made| == 2 && s.made[0] == Made(0, Some(start), Instant(start))
            && s.made[1].id == 0 && s.made[1].at == Instant(start)
            && s.made[1].due.Some? && Instant(s.made[1].due.value) > s.made[1].at
  {
    states, labels := ScannedTwice(start);
    var next := WeeklyNext(start);
    var template, due := Inserted(start, Weekly, None, start), Instant(start);
    var s := State([template], [0, 0], SCANNED, [], due);
    Unlocked(s, 0);
    var job, t := JobAlone(s, 0, true);
    states, labels := Extend(states, labels, s, job, t);
    var advanced := Advanced(template, next, due);
    assert t == State([advanced], [0], SCANNED + [Done], [Made(0, Some(start), due)], due);
    Unlocked(t, 0);
    var second, u := JobAlone(t, 0, true);
    states, labels := Extend(states, labels, t, second, u);
  }
}
