/** What every step does to every template, field by field; which templates a scan finds; and which
    jobs make an invoice. */
module RecurringEffects {
  import opened Wrappers
  import opened Schedule
  import opened Recurring
  import opened RecurringSteps

  /** Template `i` after the step. */
  ghost function TemplateAfter(s: State, l: Label, i: nat): Template
    requires Enabled(s, l) && i < |s.templates|
  {
    var a := s.templates[i];
    match l
    case CommitUpdate(w, f, end, at) =>
      if s.workers[w].id != i then a
      else
        a.(frequency := if f.Some? then f.value else a.frequency,
           end := if end.Some? then end else a.end,
           nextRun := if f.Some? && f.value != a.frequency then NextRun(a.start, f.value, at) else a.nextRun)
    case PauseRow(id) => if id == i then a.(status := Paused) else a
    case CommitResume(w, at) =>
      if s.workers[w].id == i then a.(status := Active, nextRun := NextRun(a.start, a.frequency, at)) else a
    case CancelRow(id) => if id == i then a.(status := Cancelled, nextRun := None) else a
    case WriteExpired(w) => if s.workers[w].id == i then a.(status := Cancelled, nextRun := None) else a
    case WriteNext(w, at) =>
      if s.workers[w].id != i then a
      else a.(lastRun := Some(s.now), nextRun := NextRun(s.workers[w].row.start, s.workers[w].row.frequency, at))
    case _ => a
  }

  lemma CommittedAfter(s: State, l: Label, i: nat)
    requires Inv(s) && Enabled(s, l) && i < |s.templates| && (l.CommitUpdate? || l.CommitResume?)
    ensures i < |Step(s, l).templates| && Step(s, l).templates[i] == TemplateAfter(s, l, i)
  {
    assert WorkerOk(s, s.workers[l.w]);
  }

  /** In every reachable state a step leaves each template as the table says. */
  lemma TemplateExactly(s: State, l: Label, i: nat)
    requires Inv(s) && Enabled(s, l) && i < |s.templates|
    ensures i < |Step(s, l).templates| && Step(s, l).templates[i] == TemplateAfter(s, l, i)
  {
    if l.CommitUpdate? || l.CommitResume? { CommittedAfter(s, l, i); }
  }

  /** Templates are only added by their creation: active, never run, at their first future point. */
  lemma TemplateAdded(s: State, l: Label)
    requires Enabled(s, l)
    ensures var n := |s.templates|;
            if l.CreateTemplate?
            then |Step(s, l).templates| == n + 1
                 && Step(s, l).templates[n]
                    == Template(Active, l.start, l.f, l.end, NextRun(l.start, l.f, l.at), None)
            else |Step(s, l).templates| == n
  {
  }

  /** When each call on templates succeeds. */
  lemma AcceptedExactly(templates: seq<Template>, c: Call, now: int)
    ensures Accepted(templates, c, now) <==>
              match c
              case Create(start, f, _, clientKnown) =>
                f in {Weekly, Monthly, Quarterly, Yearly} && clientKnown && NextRun(start, f, now) != None
              case Update(id, f, _) =>
                && f != Some(Other) && id < |templates| && templates[id].status in {Active, Paused}
                && (f == None || f.value == templates[id].frequency
                    || NextRun(templates[id].start, f.value, now) != None)
              case PauseCall(id) => id < |templates| && templates[id].status == Active
              case ResumeCall(id) =>
                && id < |templates| && templates[id].status == Paused
                && NextRun(templates[id].start, templates[id].frequency, now) != None
              case CancelCall(id) => id < |templates| && templates[id].status in {Active, Paused}
  {
  }

  // ---------- the scan ----------

  predicate Ascending(ids: seq<nat>) {
    forall a, b | 0 <= a < b < |ids| :: ids[a] < ids[b]
  }

  lemma {:induction false} DueIdsAscending(templates: seq<Template>, now: int)
    ensures Ascending(DueIds(templates, now))
  {
    if templates != [] {
      var n := |templates| - 1;
      DueIdsAscending(templates[..n], now);
      forall a | 0 <= a < |DueIds(templates[..n], now)| ensures DueIds(templates[..n], now)[a] < n {
        assert DueIds(templates[..n], now)[a] in DueIds(templates[..n], now);
      }
    }
  }

  /** A scan sets out to queue, once each, exactly the active templates whose next run is at or before
      now. */
  lemma ScanExactly(s: State)
    ensures var x := Step(s, Scan).workers[|s.workers|];
            && x.Pushing? && Ascending(x.ids)
            && forall id: nat :: id in x.ids <==>
                 id < |s.templates| && s.templates[id].status == Active
                 && s.templates[id].nextRun.Some? && Instant(s.templates[id].nextRun.value) <= s.now
  {
    DueIdsAscending(s.templates, s.now);
  }

  // ---------- the job ----------

  /** What becomes of a job, and of its template. */
  lemma JobExactly(t: Template, now: int, insertOk: bool)
    ensures RunJob(t, now, insertOk) ==
              if t.status != Active then (t, Skipped)
              else if t.end.Some? && t.end.value < now then (t.(status := Cancelled, nextRun := None), ExpiredNow)
              else if !insertOk then (t, InsertFailed)
              else if NextRun(t.start, t.frequency, now) == None then (t, Hung)
              else (t.(lastRun := Some(now), nextRun := NextRun(t.start, t.frequency, now)), MadeInvoice)
  {
  }

  /** Step `j` loads the template for worker `w`, active and in this form. */
  predicate LoadsAt(states: seq<State>, labels: seq<Label>, j: nat, w: nat, id: nat, row: Template) {
    && j < |labels| && j < |states| && labels[j] == Load(w)
    && id < |states[j].templates| && states[j].templates[id] == row && row.status == Active
  }

  lemma LoadStep(s: State, l: Label, w: nat)
    requires Enabled(s, l) && HasWorker(Step(s, l), w) && Step(s, l).workers[w].Loaded?
    ensures var x := Step(s, l).workers[w];
            || (HasWorker(s, w) && s.workers[w] == x)
            || (l == Load(w) && HasRow(s, x.id) && s.templates[x.id] == x.row && x.row.status == Active)
  {
  }

  lemma {:induction false} LoadedAt(states: seq<State>, labels: seq<Label>, k: nat, w: nat) returns (j: nat)
    requires IsRun(states, labels) && k < |states| && HasWorker(states[k], w) && states[k].workers[w].Loaded?
    ensures j < k && LoadsAt(states, labels, j, w, states[k].workers[w].id, states[k].workers[w].row)
  {
    LoadStep(states[k - 1], labels[k - 1], w);
    if HasWorker(states[k - 1], w) && states[k - 1].workers[w] == states[k].workers[w] {
      j := LoadedAt(states, labels, k - 1, w);
    } else {
      j := k - 1;
    }
  }

  /** In every interleaving an invoice is made only of a template that was active when its job loaded
      it, and at a clock reading not after the end it had then. */
  lemma MadeBeforeEnd(states: seq<State>, labels: seq<Label>, k: nat) returns (j: nat)
    requires IsRun(states, labels) && k < |labels| && labels[k].Materialise?
    ensures HasWorker(states[k], labels[k].w) && states[k].workers[labels[k].w].Loaded?
    ensures var x := states[k].workers[labels[k].w];
            && j < k && LoadsAt(states, labels, j, labels[k].w, x.id, x.row)
            && (x.row.end.Some? ==> labels[k].at <= x.row.end.value)
  {
    j := LoadedAt(states, labels, k, labels[k].w);
  }

  /** The step is a resume of the template. */
  predicate Resumes(s: State, l: Label, i: nat) {
    l.CommitResume? && HasWorker(s, l.w) && s.workers[l.w].Resuming? && s.workers[l.w].id == i
  }

  /** Neither a resume, nor active to begin with. */
  ghost predicate IdleFrom(states: seq<State>, labels: seq<Label>, j: nat, k: nat, i: nat) {
    && j <= k < |states| && k <= |labels| && i < |states[j].templates| && states[j].templates[i].status != Active
    && forall m | j <= m < k :: !Resumes(states[m], labels[m], i)
  }

  lemma IdleStep(s: State, l: Label, i: nat)
    requires Inv(s) && Enabled(s, l) && i < |s.templates| && s.templates[i].status != Active && !Resumes(s, l, i)
    ensures i < |Step(s, l).templates| && Step(s, l).templates[i].status != Active
  {
    TemplateExactly(s, l, i);
  }

  lemma {:induction false} StaysIdle(states: seq<State>, labels: seq<Label>, j: nat, k: nat, i: nat)
    requires IsRun(states, labels) && IdleFrom(states, labels, j, k, i)
    ensures i < |states[k].templates| && states[k].templates[i].status != Active
  {
    if j < k {
      StaysIdle(states, labels, j, k - 1, i);
      RunInv(states, labels, k - 1);
      IdleStep(states[k - 1], labels[k - 1], i);
    }
  }

  predicate HasLoaded(s: State, w: nat, x: Worker, i: nat) {
    HasWorker(s, w) && s.workers[w] == x && x.Loaded? && x.id == i
  }

  predicate IsIdle(s: State, i: nat) {
    i < |s.templates| && s.templates[i].status != Active
  }

  lemma LoadedWhileIdle(s: State, l: Label, w: nat, x: Worker, i: nat)
    requires Enabled(s, l) && IsIdle(s, i) && HasLoaded(Step(s, l), w, x, i)
    ensures HasLoaded(s, w, x, i)
  {
    LoadStep(s, l, w);
  }

  lemma OneBack(states: seq<State>, labels: seq<Label>, k: nat, w: nat, x: Worker, i: nat)
    requires IsRun(states, labels) && k < |labels| && IsIdle(states[k], i) && HasLoaded(states[k + 1], w, x, i)
    ensures HasLoaded(states[k], w, x, i)
  {
    LoadedWhileIdle(states[k], labels[k], w, x, i);
  }

  lemma {:induction false} BackTo(states: seq<State>, j: nat, k: nat, w: nat, x: Worker, i: nat)
    requires j <= k < |states| && HasLoaded(states[k], w, x, i)
    requires forall m | j <= m < k :: HasLoaded(states[m + 1], w, x, i) ==> HasLoaded(states[m], w, x, i)
    ensures HasLoaded(states[j], w, x, i)
  {
    if j < k { BackTo(states, j, k - 1, w, x, i); }
  }

  lemma LoadedBeforeIdle(states: seq<State>, labels: seq<Label>, j: nat, k: nat, w: nat, x: Worker, i: nat)
    requires IsRun(states, labels) && IdleFrom(states, labels, j, k, i) && HasLoaded(states[k], w, x, i)
    ensures HasLoaded(states[j], w, x, i)
  {
    forall m | j <= m < k && HasLoaded(states[m + 1], w, x, i) ensures HasLoaded(states[m], w, x, i) {
      StaysIdle(states, labels, j, m, i);
      OneBack(states, labels, m, w, x, i);
    }
    BackTo(states, j, k, w, x, i);
  }

  lemma MakesLoaded(states: seq<State>, labels: seq<Label>, k: nat)
    requires IsRun(states, labels) && k < |labels| && labels[k].Materialise?
    ensures HasWorker(states[k], labels[k].w) && states[k].workers[labels[k].w].Loaded?
  {
  }

  /** From a pause, a cancellation or an expiry until the next resume, the only invoices made of the
      template come from jobs that had loaded it before. */
  lemma NoInvoiceUntilResume(states: seq<State>, labels: seq<Label>, j: nat, k: nat, i: nat)
    requires IsRun(states, labels) && IdleFrom(states, labels, j, k, i)
    requires k < |labels| && labels[k].Materialise? && states[k].workers[labels[k].w].id == i
    ensures HasLoaded(states[j], labels[k].w, states[k].workers[labels[k].w], i)
  {
    MakesLoaded(states, labels, k);
    LoadedBeforeIdle(states, labels, j, k, labels[k].w, states[k].workers[labels[k].w], i);
  }
}
