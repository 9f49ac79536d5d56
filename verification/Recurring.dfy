/** Recurring-invoice templates: their statements, and the handlers run one at a time. */
module Recurring {
  import opened Wrappers
  import opened Schedule
  import opened Cadence

  datatype Status = Active | Paused | Cancelled

  datatype Template = Template(
    status: Status, start: DateTime, frequency: Frequency, end: Option<int>,
    nextRun: Option<DateTime>, lastRun: Option<int>)

  predicate Valid(f: Frequency) { f != Other }

  // ---------- statements on one row ----------

  function Inserted(start: DateTime, f: Frequency, end: Option<int>, next: DateTime): Template {
    Template(Active, start, f, end, Some(next), None)
  }

  function Pause(t: Template): Template { t.(status := Paused) }

  function Resume(t: Template, next: DateTime): Template { t.(status := Active, nextRun := Some(next)) }

  /** `update` writes the frequency and end given, and always next_run_at. */
  function Edit(t: Template, f: Option<Frequency>, end: Option<int>, next: Option<DateTime>): Template {
    t.(frequency := if f.Some? then f.value else t.frequency, end := if end.Some? then end else t.end, nextRun := next)
  }

  /** Both the cancel endpoint and the expiry branch of the job. */
  function Cancel(t: Template): Template { t.(status := Cancelled, nextRun := None) }

  function Advanced(t: Template, next: DateTime, now: int): Template {
    t.(lastRun := Some(now), nextRun := Some(next))
  }

  predicate Due(t: Template, now: int) {
    t.status == Active && t.nextRun.Some? && Instant(t.nextRun.value) <= now
  }

  predicate Expired(end: Option<int>, now: int) {
    end.Some? && end.value < now
  }

  predicate FrequencyChanges(t: Template, f: Option<Frequency>) {
    f.Some? && f.value != t.frequency
  }

  // ---------- the job as one step ----------

  /** What became of a job. */
  datatype Outcome = Skipped | ExpiredNow | InsertFailed | MadeInvoice | Hung

  /** `create` run on the row with nothing in between; `insertOk` is false when inserting the
      invoice fails and the job errors.  A job whose next run cannot be computed has already made
      its invoice when it hangs. */
  ghost function RunJob(t: Template, now: int, insertOk: bool): (Template, Outcome) {
    if t.status != Active then (t, Skipped)
    else if Expired(t.end, now) then (Cancel(t), ExpiredNow)
    else if !insertOk then (t, InsertFailed)
    else
      match NextRun(t.start, t.frequency, now)
      case None => (t, Hung)
      case Some(next) => (Advanced(t, next, now), MadeInvoice)
  }

  function DueIds(templates: seq<Template>, now: int): (ids: seq<nat>)
    ensures forall id: nat :: id in ids <==> id < |templates| && Due(templates[id], now)
  {
    if templates == [] then []
    else
      var n := |templates| - 1;
      DueIds(templates[..n], now) + (if Due(templates[n], now) then [n] else [])
  }

  /** The pushes of one scan; those in `lost` fail, which the scan logs and passes over. */
  function Pushed(ids: seq<nat>, lost: set<nat>): seq<nat> {
    if ids == [] then []
    else Pushed(ids[..|ids| - 1], lost) + (if ids[|ids| - 1] in lost then [] else [ids[|ids| - 1]])
  }

  // ---------- requests ----------

  datatype Call =
    | Create(start: DateTime, f: Frequency, end: Option<int>, clientKnown: bool)
    | Update(id: nat, newF: Option<Frequency>, newEnd: Option<int>)
    | PauseCall(id: nat)
    | ResumeCall(id: nat)
    | CancelCall(id: nat)

  /** What an edit makes of next_run_at: recomputed exactly when the frequency changes. */
  ghost function NewNext(row: Template, f: Option<Frequency>, at: int): Option<DateTime> {
    if FrequencyChanges(row, f) then NextRun(row.start, f.value, at) else row.nextRun
  }

  predicate Has(templates: seq<Template>, id: nat, status: Status) {
    id < |templates| && templates[id].status == status
  }

  predicate Live(templates: seq<Template>, id: nat) {
    id < |templates| && templates[id].status != Cancelled
  }

  /** The call is one that succeeds: none is refused, and its next run exists where it asks for one. */
  ghost predicate Accepted(templates: seq<Template>, c: Call, now: int) {
    match c
    case Create(start, f, _, clientKnown) => Valid(f) && clientKnown && NextRun(start, f, now).Some?
    case Update(id, f, _) =>
      f != Some(Other) && Live(templates, id)
      && (FrequencyChanges(templates[id], f) ==> NewNext(templates[id], f, now).Some?)
    case PauseCall(id) => Has(templates, id, Active)
    case ResumeCall(id) =>
      Has(templates, id, Paused) && NextRun(templates[id].start, templates[id].frequency, now).Some?
    case CancelCall(id) => Live(templates, id)
  }

  /** The templates after a call. */
  ghost function Serve(templates: seq<Template>, c: Call, now: int): seq<Template> {
    if !Accepted(templates, c, now) then templates
    else
      match c
      case Create(start, f, end, _) => templates + [Inserted(start, f, end, NextRun(start, f, now).value)]
      case Update(id, f, end) => templates[id := Edit(templates[id], f, end, NewNext(templates[id], f, now))]
      case PauseCall(id) => templates[id := Pause(templates[id])]
      case ResumeCall(id) =>
        templates[id := Resume(templates[id], NextRun(templates[id].start, templates[id].frequency, now).value)]
      case CancelCall(id) => templates[id := Cancel(templates[id])]
  }

  datatype Error = NotFound | BadRequest | Hangs

  class Scheduler {
    var templates: seq<Template>
    var queue: seq<nat>
    var invoices: seq<nat>

    constructor ()
      ensures templates == [] && queue == [] && invoices == []
    {
      templates, queue, invoices := [], [], [];
    }

    /** The frequency is checked before the client. */
    method CreateTemplate(start: DateTime, f: Frequency, end: Option<int>, clientKnown: bool, now: int)
      returns (r: Result<nat, Error>)
      modifies this`templates
      ensures templates == Serve(old(templates), Create(start, f, end, clientKnown), now)
      ensures r == if !Valid(f) || !clientKnown then Err(BadRequest)
                   else if NextRun(start, f, now) == None then Err(Hangs)
                   else Ok(|old(templates)|)
    {
      if f == Other || !clientKnown {
        return Err(BadRequest);
      }
      var next := ComputeNextRunAt(start, f, now);
      if next == None {
        return Err(Hangs);
      }
      r := Ok(|templates|);
      templates := templates + [Template(Active, start, f, end, next, None)];
    }

    /** `update`: the row stays locked from the read to the write. */
    method UpdateTemplate(id: nat, f: Option<Frequency>, end: Option<int>, now: int)
      returns (r: Result<Template, Error>)
      modifies this`templates
      ensures templates == Serve(old(templates), Update(id, f, end), now)
      ensures r.Ok? <==> Accepted(old(templates), Update(id, f, end), now)
      ensures r.Ok? ==> r.value == templates[id]
      ensures r.Err? ==> r.error == if f == Some(Other) then BadRequest
                                    else if id >= |old(templates)| then NotFound
                                    else if Live(old(templates), id) then Hangs
                                    else BadRequest
    {
      if f == Some(Other) {
        return Err(BadRequest);
      }
      if id >= |templates| {
        return Err(NotFound);
      }
      var current := templates[id];
      if current.status == Cancelled {
        return Err(BadRequest);
      }
      var next := current.nextRun;
      if f.Some? && f.value != current.frequency {
        next := ComputeNextRunAt(current.start, f.value, now);
        if next == None {
          return Err(Hangs);
        }
      }
      var updated := current.(frequency := if f.Some? then f.value else current.frequency,
                              end := if end.Some? then end else current.end, nextRun := next);
      templates := templates[id := updated];
      return Ok(updated);
    }

    method PauseTemplate(id: nat, now: int) returns (r: Result<Template, Error>)
      modifies this`templates
      ensures templates == Serve(old(templates), PauseCall(id), now)
      ensures r.Ok? <==> Accepted(old(templates), PauseCall(id), now)
      ensures if r.Ok? then r.value == templates[id] else r.error == BadRequest
    {
      if id >= |templates| || templates[id].status != Active {
        return Err(BadRequest);
      }
      templates := templates[id := templates[id].(status := Paused)];
      return Ok(templates[id]);
    }

    method ResumeTemplate(id: nat, now: int) returns (r: Result<Template, Error>)
      modifies this`templates
      ensures templates == Serve(old(templates), ResumeCall(id), now)
      ensures r.Ok? <==> Accepted(old(templates), ResumeCall(id), now)
      ensures r.Ok? ==> r.value == templates[id]
      ensures r.Err? ==> r.error == if id >= |old(templates)| then NotFound
                                    else if Has(old(templates), id, Paused) then Hangs
                                    else BadRequest
    {
      if id >= |templates| {
        return Err(NotFound);
      }
      var current := templates[id];
      if current.status != Paused {
        return Err(BadRequest);
      }
      var next := ComputeNextRunAt(current.start, current.frequency, now);
      if next == None {
        return Err(Hangs);
      }
      var updated := current.(status := Active, nextRun := next);
      templates := templates[id := updated];
      return Ok(updated);
    }

    method CancelTemplate(id: nat, now: int) returns (r: Result<Template, Error>)
      modifies this`templates
      ensures templates == Serve(old(templates), CancelCall(id), now)
      ensures r.Ok? <==> Accepted(old(templates), CancelCall(id), now)
      ensures if r.Ok? then r.value == templates[id] else r.error == BadRequest
    {
      if id >= |templates| || templates[id].status == Cancelled {
        return Err(BadRequest);
      }
      templates := templates[id := templates[id].(status := Cancelled, nextRun := None)];
      return Ok(templates[id]);
    }

    /** The scan: one query for the due ids, then one push per id. */
    method Scan(now: int, lost: set<nat>)
      modifies this`queue
      ensures queue == old(queue) + Pushed(DueIds(templates, now), lost)
    {
      var ids := DueIds(templates, now);
      var i := 0;
      while i < |ids|
        invariant i <= |ids| && queue == old(queue) + Pushed(ids[..i], lost)
      {
        assert ids[..i + 1][..i] == ids[..i];
        if ids[i] !in lost {
          queue := queue + [ids[i]];
        }
        i := i + 1;
      }
      assert ids[..|ids|] == ids;
    }

    /** The job at the head of the queue; `invoices` collects the templates materialised. */
    method Work(now: int, insertOk: bool) returns (outcome: Outcome)
      requires queue != []
      modifies this
      ensures queue == old(queue)[1..]
      ensures var id := old(queue)[0];
              if id < |old(templates)| then
                && templates == old(templates)[id := RunJob(old(templates)[id], now, insertOk).0]
                && outcome == RunJob(old(templates)[id], now, insertOk).1
              else templates == old(templates) && outcome == Skipped
      ensures invoices == if outcome in {MadeInvoice, Hung} then old(invoices) + [old(queue)[0]] else old(invoices)
    {
      var id := queue[0];
      queue := queue[1..];
      if id >= |templates| || templates[id].status != Active {
        return Skipped;
      }
      var t := templates[id];
      if t.end.Some? && t.end.value < now {
        templates := templates[id := t.(status := Cancelled, nextRun := None)];
        return ExpiredNow;
      }
      if !insertOk {
        return InsertFailed;
      }
      invoices := invoices + [id];
      var next := ComputeNextRunAt(t.start, t.frequency, now);
      if next == None {
        return Hung;
      }
      templates := templates[id := t.(lastRun := Some(now), nextRun := next)];
      return MadeInvoice;
    }
  }

  // ---------- the second attempt ----------

  /** The scan relies on a second job for the same due date doing nothing.  It makes no second
      invoice exactly when the template expires in between: the job never looks at next_run_at. */
  lemma SecondAttemptExactly(t: Template, now: int, later: int)
    requires now <= later && RunJob(t, now, true).1 == MadeInvoice
    ensures RunJob(RunJob(t, now, true).0, later, true).1 in {MadeInvoice, Hung} <==> !Expired(t.end, later)
  {
  }

  /** A start whose next run cannot be computed at some moment never has one again: a job that
      hangs has made its invoice, leaves the template due, and never finishes. */
  lemma HungForever(t: Template, now: int, later: int)
    requires RunJob(t, now, true).1 == Hung && now <= later
    ensures RunJob(t, now, true).0 == t && NextRun(t.start, t.frequency, later) == None
  {
    HangsExactly(t.start, t.frequency, now);
    HangsExactly(t.start, t.frequency, later);
    forall k: nat ensures At()(Point(t.start, AdvanceBy(t.frequency), k)) <= later {
      assert At()(Point(t.start, AdvanceBy(t.frequency), k)) <= now;
    }
  }
}
