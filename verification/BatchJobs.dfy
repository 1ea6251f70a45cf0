/**
 The batch job protocol: SQL item and job rows of internal/repository/sqlstore/batches.go,
 driven by the at-least-once workers of internal/service/batch/service.go.
 */
module BatchJobs {
  import opened Options

  datatype ItemStatus = ItemPending | ItemRunning | ItemCompleted | ItemFailed | ItemCancelled
  datatype JobStatus = JobPending | JobRunning | JobCompleted | JobFailed | JobCancelling | JobCancelled
  datatype Usage = Usage(prompt: int, completion: int, total: int, cached: int)

  /** An item row; `usage` is the part of its stored response body that is billed. */
  datatype Item = Item(status: ItemStatus, usage: Usage)
  datatype Job = Job(status: JobStatus, completed: int, failed: int, cancelled: int, tokens: Usage)
  datatype Batch = Batch(items: seq<Item>, job: Job)

  const NO_USAGE := Usage(0, 0, 0, 0)

  function Created(): Batch {
    Batch([], Job(JobPending, 0, 0, 0, NO_USAGE))
  }

  predicate ItemTerminal(s: ItemStatus) { s.ItemCompleted? || s.ItemFailed? || s.ItemCancelled? }
  predicate JobTerminal(s: JobStatus) { s.JobCompleted? || s.JobFailed? || s.JobCancelled? }
  predicate JobClosed(s: JobStatus) { JobTerminal(s) || s.JobCancelling? }

  // ---- Aggregates over item rows ----

  function Sum(items: seq<Item>, f: Item -> int): int {
    if items == [] then 0 else Sum(items[..|items| - 1], f) + f(items[|items| - 1])
  }

  function Is(s: ItemStatus): Item -> int { (x: Item) => if x.status == s then 1 else 0 }

  /** SUM(CASE WHEN status = s THEN 1 ELSE 0 END). */
  function Count(items: seq<Item>, s: ItemStatus): int { Sum(items, Is(s)) }

  function Plus(a: Usage, b: Usage): Usage {
    Usage(a.prompt + b.prompt, a.completion + b.completion, a.total + b.total, a.cached + b.cached)
  }

  function Billable(x: Item): Usage {
    if x.status.ItemCompleted? then x.usage else NO_USAGE
  }

  function PromptOf(): Item -> int { (x: Item) => Billable(x).prompt }
  function CompletionOf(): Item -> int { (x: Item) => Billable(x).completion }
  function TotalOf(): Item -> int { (x: Item) => Billable(x).total }
  function CachedOf(): Item -> int { (x: Item) => Billable(x).cached }

  /** Usage of the completed items, each once. */
  function Billed(items: seq<Item>): Usage {
    Usage(Sum(items, PromptOf()), Sum(items, CompletionOf()), Sum(items, TotalOf()), Sum(items, CachedOf()))
  }

  lemma {:induction false} SumUpdate(items: seq<Item>, i: nat, x: Item, f: Item -> int)
    requires i < |items|
    ensures Sum(items[i := x], f) == Sum(items, f) - f(items[i]) + f(x)
  {
    var n := |items| - 1;
    if i == n {
      assert items[i := x][..n] == items[..n];
    } else {
      SumUpdate(items[..n], i, x, f);
      assert items[i := x][..n] == items[..n][i := x];
    }
  }

  lemma {:induction false} BilledUpdate(items: seq<Item>, i: nat, x: Item)
    requires i < |items| && !items[i].status.ItemCompleted?
    ensures Billed(items[i := x]) == Plus(Billed(items), Billable(x))
  {
    assert Sum(items[i := x], PromptOf()) == Sum(items, PromptOf()) + Billable(x).prompt by {
      SumUpdate(items, i, x, PromptOf());
    }
    assert Sum(items[i := x], CompletionOf()) == Sum(items, CompletionOf()) + Billable(x).completion by {
      SumUpdate(items, i, x, CompletionOf());
    }
    assert Sum(items[i := x], TotalOf()) == Sum(items, TotalOf()) + Billable(x).total by {
      SumUpdate(items, i, x, TotalOf());
    }
    assert Sum(items[i := x], CachedOf()) == Sum(items, CachedOf()) + Billable(x).cached by {
      SumUpdate(items, i, x, CachedOf());
    }
  }

  /** Rows that agree pointwise under f have the same sum. */
  lemma {:induction false} SumSame(a: seq<Item>, b: seq<Item>, f: Item -> int)
    requires |a| == |b| && forall i :: 0 <= i < |a| ==> f(a[i]) == f(b[i])
    ensures Sum(a, f) == Sum(b, f)
  {
    if a != [] {
      SumSame(a[..|a| - 1], b[..|b| - 1], f);
    }
  }

  /** Counting is deciding: a count is zero iff no row has the status, and the counts partition the rows. */
  lemma {:induction false} CountsDecide(items: seq<Item>)
    ensures forall s :: Count(items, s) >= 0
    ensures forall s :: Count(items, s) == 0 <==> forall i :: 0 <= i < |items| ==> items[i].status != s
    ensures Count(items, ItemPending) + Count(items, ItemRunning) + Count(items, ItemCompleted)
            + Count(items, ItemFailed) + Count(items, ItemCancelled) == |items|
  {
    if items != [] {
      var n := |items| - 1;
      CountsDecide(items[..n]);
      assert items == items[..n] + [items[n]];
      forall s
        ensures Count(items, s) >= 0
        ensures Count(items, s) == 0 <==> forall i :: 0 <= i < |items| ==> items[i].status != s
      {
        assert Count(items, s) == Count(items[..n], s) + Is(s)(items[n]);
        assert forall i :: 0 <= i < n ==> items[..n][i] == items[i];
      }
    }
  }

  // ---- Specification of the transactions ----

  /** refreshBatchJobStatusTx: recount, and derive the status unless the caller prefers one. */
  function DerivedStatus(items: seq<Item>, current: JobStatus): JobStatus {
    var completed, failed := Count(items, ItemCompleted), Count(items, ItemFailed);
    var cancelled := Count(items, ItemCancelled);
    var terminal, total := completed + failed + cancelled, |items|;
    if current == JobCancelled then JobCancelled
    else if current == JobCancelling && terminal >= total then JobCancelled
    else if current == JobCancelling then JobCancelling
    else if cancelled > 0 && terminal >= total then JobCancelled
    else if terminal >= total && failed > 0 then JobFailed
    else if terminal >= total then JobCompleted
    else if Count(items, ItemRunning) > 0 || completed > 0 || failed > 0 || cancelled > 0 then JobRunning
    else JobPending
  }

  function Refreshed(b: Batch, status: JobStatus): Batch {
    b.(job := b.job.(status := status, completed := Count(b.items, ItemCompleted),
                     failed := Count(b.items, ItemFailed), cancelled := Count(b.items, ItemCancelled)))
  }

  function Inserted(b: Batch): Batch {
    b.(items := b.items + [Item(ItemPending, NO_USAGE)])
  }

  predicate Claimable(b: Batch, i: int) {
    0 <= i < |b.items| && (b.items[i].status.ItemPending? || b.items[i].status.ItemRunning?) && !JobClosed(b.job.status)
  }

  function Claimed(b: Batch, i: int): Batch {
    if Claimable(b, i) then
      Batch(b.items[i := b.items[i].(status := ItemRunning)],
            b.job.(status := if b.job.status.JobPending? then JobRunning else b.job.status))
    else b
  }

  predicate Finishable(b: Batch, i: int) {
    0 <= i < |b.items| && !ItemTerminal(b.items[i].status)
  }

  /** The job row after the token update of one terminal item. */
  function Finished(b: Batch, i: int, s: ItemStatus, u: Usage): Batch {
    if Finishable(b, i) then
      var usage := if s.ItemCompleted? then u else NO_USAGE;
      var b' := Batch(b.items[i := Item(s, usage)], b.job.(tokens := Plus(b.job.tokens, usage)));
      Refreshed(b', DerivedStatus(b'.items, b.job.status))
    else b
  }

  function PendingCancelled(items: seq<Item>): seq<Item> {
    seq(|items|, i requires 0 <= i < |items| =>
      if items[i].status.ItemPending? then Item(ItemCancelled, NO_USAGE) else items[i])
  }

  function JobCancel(b: Batch): Batch {
    if JobClosed(b.job.status) then b
    else
      var b' := b.(items := PendingCancelled(b.items));
      Refreshed(b', if Count(b'.items, ItemRunning) > 0 then JobCancelling else JobCancelled)
  }

  class BatchStore {
    var items: seq<Item>
    var job: Job

    function State(): Batch
      reads this
    {
      Batch(items, job)
    }

    constructor ()
      ensures State() == Created()
    {
      items := [];
      job := Job(JobPending, 0, 0, 0, NO_USAGE);
    }

    method CreateItem() returns (index: nat)
      modifies this
      ensures State() == Inserted(old(State())) && index == |old(items)|
    {
      index := |items|;
      items := items + [Item(ItemPending, NO_USAGE)];
    }

    method MarkItemRunning(i: int) returns (claimed: bool)
      modifies this
      ensures claimed == Claimable(old(State()), i)
      ensures State() == Claimed(old(State()), i)
    {
      if !(0 <= i < |items|) || ItemTerminal(items[i].status) || JobClosed(job.status) {
        return false;
      }
      items := items[i := items[i].(status := ItemRunning)];
      if job.status == JobPending {
        job := job.(status := JobRunning);
      }
      claimed := true;
    }

    method UpdateTerminal(i: int, s: ItemStatus, u: Usage)
      requires ItemTerminal(s)
      modifies this
      ensures State() == Finished(old(State()), i, s, u)
    {
      if !(0 <= i < |items|) || ItemTerminal(items[i].status) {
        return;
      }
      items := items[i := Item(s, if s.ItemCompleted? then u else NO_USAGE)];
      if s.ItemCompleted? {
        job := job.(tokens := Plus(job.tokens, u));
      }
      Refresh(None);
    }

    method CancelJob() returns (ok: bool)
      modifies this
      ensures ok <==> !(old(job.status).JobCompleted? || old(job.status).JobFailed?)
      ensures State() == JobCancel(old(State()))
    {
      if job.status.JobCompleted? || job.status.JobFailed? {
        return false;
      }
      if job.status.JobCancelled? || job.status.JobCancelling? {
        return true;
      }
      var rows, running := [], 0;
      for i := 0 to |items|
        invariant rows == PendingCancelled(items[..i]) && running == Count(rows, ItemRunning)
      {
        var row := if items[i].status.ItemPending? then Item(ItemCancelled, NO_USAGE) else items[i];
        running := if row.status.ItemRunning? then running + 1 else running;
        assert (rows + [row])[..i] == rows && items[..i + 1] == items[..i] + [items[i]];
        rows := rows + [row];
      }
      assert items[..|items|] == items;
      items := rows;
      Refresh(Some(if running > 0 then JobCancelling else JobCancelled));
      ok := true;
    }

    /** refreshBatchJobStatusTx: one pass over the item rows, then the preferred status or the derived one. */
    method Refresh(preferred: Option<JobStatus>)
      modifies this`job
      ensures State() == Refreshed(old(State()), if preferred.Some? then preferred.value
                                                 else DerivedStatus(items, old(job.status)))
    {
      var completed, failed, cancelled, running := 0, 0, 0, 0;
      for i := 0 to |items|
        invariant completed == Count(items[..i], ItemCompleted) && failed == Count(items[..i], ItemFailed)
        invariant cancelled == Count(items[..i], ItemCancelled) && running == Count(items[..i], ItemRunning)
      {
        assert items[..i + 1][..i] == items[..i];
        match items[i].status
        case ItemCompleted => completed := completed + 1;
        case ItemFailed => failed := failed + 1;
        case ItemCancelled => cancelled := cancelled + 1;
        case ItemRunning => running := running + 1;
        case ItemPending =>
      }
      assert items[..|items|] == items;
      var terminal, status := completed + failed + cancelled, JobPending;
      if preferred.Some? {
        status := preferred.value;
      } else if job.status == JobCancelled || (job.status == JobCancelling && terminal >= |items|) {
        status := JobCancelled;
      } else if job.status == JobCancelling {
        status := JobCancelling;
      } else if terminal >= |items| {
        status := if cancelled > 0 then JobCancelled else if failed > 0 then JobFailed else JobCompleted;
      } else if running > 0 || terminal > 0 {
        status := JobRunning;
      }
      CountsDecide(items);
      job := job.(status := status, completed := completed, failed := failed, cancelled := cancelled);
    }
  }

  // ---- Workers ----

  type Wid = nat

  /** Where handleBatchItemEvent stands after its claim succeeded. */
  datatype Worker =
    | HasClaim(item: nat)
    | MustCancel(item: nat)  // read the job as cancelling or cancelled
    | Working(item: nat)     // calling the model

  datatype System = System(batch: Batch, workers: map<Wid, Worker>)

  /** Messages are delivered any number of times, in any order; recovery only adds deliveries. */
  datatype Event =
    | Insert
    | Deliver(w: Wid, item: nat)
    | ReadJob(w: Wid)
    | CancelItem(w: Wid)
    | Fail(w: Wid)
    | Complete(w: Wid, usage: Usage)
    | Crash(w: Wid)
    | Cancel

  ghost predicate Enabled(y: System, e: Event) {
    match e
    case Insert => true
    case Deliver(w, i) => w !in y.workers
    case ReadJob(w) => w in y.workers && y.workers[w].HasClaim?
    case CancelItem(w) => w in y.workers && y.workers[w].MustCancel?
    case Fail(w) => w in y.workers && y.workers[w].Working?
    case Complete(w, _) => w in y.workers && y.workers[w].Working?
    case Crash(w) => w in y.workers
    case Cancel => true
  }

  function Next(y: System, e: Event): System
    requires Enabled(y, e)
  {
    var b := y.batch;
    match e
    case Insert => y.(batch := Inserted(b))
    case Deliver(w, i) =>
      if Claimable(b, i) then System(Claimed(b, i), y.workers[w := HasClaim(i)]) else y
    case ReadJob(w) =>
      var i := y.workers[w].item;
      var cancelled := b.job.status.JobCancelling? || b.job.status.JobCancelled?;
      y.(workers := y.workers[w := if cancelled then MustCancel(i) else Working(i)])
    case CancelItem(w) => System(Finished(b, y.workers[w].item, ItemCancelled, NO_USAGE), y.workers - {w})
    case Fail(w) => System(Finished(b, y.workers[w].item, ItemFailed, NO_USAGE), y.workers - {w})
    case Complete(w, u) => System(Finished(b, y.workers[w].item, ItemCompleted, u), y.workers - {w})
    case Crash(w) => y.(workers := y.workers - {w})
    case Cancel => y.(batch := JobCancel(b))
  }

  function Start(): System { System(Created(), map[]) }

  ghost predicate ValidRun(y: System, es: seq<Event>)
    decreases |es|
  {
    es == [] || (Enabled(y, es[0]) && ValidRun(Next(y, es[0]), es[1..]))
  }

  function Exec(y: System, es: seq<Event>): System
    requires ValidRun(y, es)
    decreases |es|
  {
    if es == [] then y else Exec(Next(y, es[0]), es[1..])
  }

  // ---- Counters and tokens: every run ----

  /** The job row tallies its item rows. */
  ghost predicate Tallied(b: Batch) {
    && b.job.completed == Count(b.items, ItemCompleted)
    && b.job.failed == Count(b.items, ItemFailed)
    && b.job.cancelled == Count(b.items, ItemCancelled)
    && b.job.tokens == Billed(b.items)
  }

  /** A worker only ever finishes an item somebody claimed. */
  ghost predicate ClaimsOk(y: System) {
    forall w :: w in y.workers ==>
      y.workers[w].item < |y.batch.items| && !y.batch.items[y.workers[w].item].status.ItemPending?
  }

  lemma {:induction false} InsertTallies(b: Batch)
    requires Tallied(b)
    ensures Tallied(Inserted(b))
  {
    assert Inserted(b).items[..|b.items|] == b.items;
  }

  lemma {:induction false} ClaimTallies(b: Batch, i: int)
    requires Tallied(b)
    ensures Tallied(Claimed(b, i))
  {
    if Claimable(b, i) {
      var x := b.items[i].(status := ItemRunning);
      SumUpdate(b.items, i, x, Is(ItemCompleted));
      SumUpdate(b.items, i, x, Is(ItemFailed));
      SumUpdate(b.items, i, x, Is(ItemCancelled));
      BilledUpdate(b.items, i, x);
    }
  }

  lemma {:induction false} FinishTallies(b: Batch, i: int, s: ItemStatus, u: Usage)
    requires Tallied(b)
    ensures Tallied(Finished(b, i, s, u))
  {
    if Finishable(b, i) {
      BilledUpdate(b.items, i, Item(s, if s.ItemCompleted? then u else NO_USAGE));
    }
  }

  lemma {:induction false} CancelBills(items: seq<Item>)
    ensures Billed(PendingCancelled(items)) == Billed(items)
  {
    var after := PendingCancelled(items);
    SumSame(after, items, PromptOf());
    SumSame(after, items, CompletionOf());
    SumSame(after, items, TotalOf());
    SumSame(after, items, CachedOf());
  }

  lemma {:induction false} EventTallies(y: System, e: Event)
    requires Tallied(y.batch) && Enabled(y, e)
    ensures Tallied(Next(y, e).batch)
  {
    match e
    case Insert => InsertTallies(y.batch);
    case Deliver(_, i) => ClaimTallies(y.batch, i);
    case CancelItem(w) => FinishTallies(y.batch, y.workers[w].item, ItemCancelled, NO_USAGE);
    case Fail(w) => FinishTallies(y.batch, y.workers[w].item, ItemFailed, NO_USAGE);
    case Complete(w, u) => FinishTallies(y.batch, y.workers[w].item, ItemCompleted, u);
    case Cancel => CancelBills(y.batch.items);
    case _ =>
  }

  lemma {:induction false} RunTallies(y: System, es: seq<Event>)
    requires Tallied(y.batch) && ValidRun(y, es)
    ensures Tallied(Exec(y, es).batch)
    decreases |es|
  {
    if es != [] {
      EventTallies(y, es[0]);
      RunTallies(Next(y, es[0]), es[1..]);
    }
  }

  /** Under any redelivery, duplicate claim, crash or recovery, counters and tokens are exact. */
  lemma {:induction false} CountersAlwaysExact(es: seq<Event>)
    requires ValidRun(Start(), es)
    ensures Tallied(Exec(Start(), es).batch)
  {
    RunTallies(Start(), es);
  }

  // ---- Job status ----

  /** What the derived job status says about the items. */
  ghost predicate Law(b: Batch) {
    && (b.items == [] ==> b.job.status.JobPending? || b.job.status.JobCancelled?)
    && (b.items != [] ==>
        && (JobTerminal(b.job.status) <==> forall i :: 0 <= i < |b.items| ==> ItemTerminal(b.items[i].status))
        && (b.job.status.JobCompleted? ==> forall i :: 0 <= i < |b.items| ==> b.items[i].status.ItemCompleted?)
        && (b.job.status.JobFailed? ==>
            (exists i :: 0 <= i < |b.items| && b.items[i].status.ItemFailed?) &&
            (forall i :: 0 <= i < |b.items| ==> !b.items[i].status.ItemCancelled?))
        && (b.job.status.JobCancelling? ==>
            (forall i :: 0 <= i < |b.items| ==> !b.items[i].status.ItemPending?) &&
            (exists i :: 0 <= i < |b.items| && b.items[i].status.ItemRunning?))
        && (b.job.status.JobPending? ==> forall i :: 0 <= i < |b.items| ==> b.items[i].status.ItemPending?))
  }

  /** An item row written when its job was already closed. */
  ghost predicate LateInsert(y: System, e: Event) {
    e.Insert? && JobClosed(y.batch.job.status)
  }

  ghost predicate NoLateInsert(y: System, es: seq<Event>)
    requires ValidRun(y, es)
    decreases |es|
  {
    es == [] || (!LateInsert(y, es[0]) && NoLateInsert(Next(y, es[0]), es[1..]))
  }

  /** The derived status is exactly what the item rows call for. */
  lemma {:induction false} DerivedStatusLaw(items: seq<Item>, current: JobStatus)
    requires items != [] && !JobTerminal(current)
    requires exists i :: 0 <= i < |items| && ItemTerminal(items[i].status)
    requires current.JobCancelling? ==> forall i :: 0 <= i < |items| ==> !items[i].status.ItemPending?
    ensures forall j: Job :: Law(Batch(items, j.(status := DerivedStatus(items, current))))
  {
    CountsDecide(items);
    var i :| 0 <= i < |items| && ItemTerminal(items[i].status);
    var all := forall i :: 0 <= i < |items| ==> ItemTerminal(items[i].status);
    assert all <==> Count(items, ItemPending) == 0 && Count(items, ItemRunning) == 0;
  }

  ghost predicate Has(items: seq<Item>, s: ItemStatus) { exists i :: 0 <= i < |items| && items[i].status == s }

  /** The status derived, from what the item rows hold: any rows, any current status. */
  lemma {:induction false} DerivedStatusExactly(items: seq<Item>, current: JobStatus)
    ensures var d, open := DerivedStatus(items, current), Has(items, ItemPending) || Has(items, ItemRunning);
      if current == JobCancelled then d == JobCancelled
      else if current == JobCancelling then d == if open then JobCancelling else JobCancelled
      else
        && (d == JobCancelled <==> !open && Has(items, ItemCancelled))
        && (d == JobFailed <==> !open && !Has(items, ItemCancelled) && Has(items, ItemFailed))
        && (d == JobCompleted <==> forall i :: 0 <= i < |items| ==> items[i].status == ItemCompleted)
        && (d == JobPending <==> items != [] && forall i :: 0 <= i < |items| ==> items[i].status == ItemPending)
        && (d == JobRunning <==> open && exists i :: 0 <= i < |items| && items[i].status != ItemPending)
  {
    CountsDecide(items);
    forall s ensures Has(items, s) <==> Count(items, s) > 0 {
    }
    assert (forall i :: 0 <= i < |items| ==> items[i].status == ItemCompleted) <==>
      forall s :: s != ItemCompleted ==> !Has(items, s);
    assert (forall i :: 0 <= i < |items| ==> items[i].status == ItemPending) <==>
      forall s :: s != ItemPending ==> !Has(items, s);
  }

  lemma {:induction false} FinishKeepsLaw(b: Batch, i: int, s: ItemStatus, u: Usage)
    requires Law(b) && ItemTerminal(s)
    ensures Law(Finished(b, i, s, u))
  {
    if Finishable(b, i) {
      var items := b.items[i := Item(s, if s.ItemCompleted? then u else NO_USAGE)];
      assert !JobTerminal(b.job.status);
      assert ItemTerminal(items[i].status);
      DerivedStatusLaw(items, b.job.status);
    }
  }

  lemma {:induction false} CancelKeepsLaw(b: Batch)
    requires Law(b)
    ensures Law(JobCancel(b))
  {
    var items := PendingCancelled(b.items);
    CountsDecide(items);
  }

  lemma {:induction false} EventKeepsLaw(y: System, e: Event)
    requires Law(y.batch) && Enabled(y, e) && !LateInsert(y, e)
    ensures Law(Next(y, e).batch)
  {
    match e
    case CancelItem(w) => FinishKeepsLaw(y.batch, y.workers[w].item, ItemCancelled, NO_USAGE);
    case Fail(w) => FinishKeepsLaw(y.batch, y.workers[w].item, ItemFailed, NO_USAGE);
    case Complete(w, u) => FinishKeepsLaw(y.batch, y.workers[w].item, ItemCompleted, u);
    case Cancel => CancelKeepsLaw(y.batch);
    case Insert =>
      var n := |y.batch.items|;
      assert Inserted(y.batch).items[n].status.ItemPending?;
      if n > 0 {
        var i :| 0 <= i < n && !ItemTerminal(y.batch.items[i].status);
        assert Inserted(y.batch).items[i] == y.batch.items[i];
      }
    case Deliver(_, i) =>
      if Claimable(y.batch, i) { assert !ItemTerminal(Claimed(y.batch, i).items[i].status); }
    case _ =>
  }

  /** A pending row nobody can ever claim, in a job that will never reopen. */
  ghost predicate Stranded(y: System) {
    && JobClosed(y.batch.job.status)
    && (exists i :: 0 <= i < |y.batch.items| && y.batch.items[i].status.ItemPending?)
    && (JobTerminal(y.batch.job.status) ==>
        forall i :: 0 <= i < |y.batch.items| ==> !y.batch.items[i].status.ItemRunning?)
    && ClaimsOk(y)
  }

  lemma {:induction false} EventKeepsClaims(y: System, e: Event)
    requires ClaimsOk(y) && Enabled(y, e)
    ensures ClaimsOk(Next(y, e))
  {
    forall w | w in Next(y, e).workers
      ensures var y' := Next(y, e);
        y'.workers[w].item < |y'.batch.items| && !y'.batch.items[y'.workers[w].item].status.ItemPending?
    {
      if w in y.workers { assert y.workers[w].item < |y.batch.items|; }
    }
  }

  lemma {:induction false} EventKeepsStranded(y: System, e: Event)
    requires Stranded(y) && Enabled(y, e)
    ensures Stranded(Next(y, e))
  {
    EventKeepsClaims(y, e);
    var b, y' := y.batch, Next(y, e);
    var i :| 0 <= i < |b.items| && b.items[i].status.ItemPending?;
    if e.CancelItem? || e.Fail? || e.Complete? {
      var j := y.workers[e.w].item;
      assert j != i;
      if Finishable(b, j) {
        assert b.items[j].status.ItemRunning? && b.job.status.JobCancelling?;
        CountsDecide(y'.batch.items);
        assert y'.batch.items[i].status.ItemPending?;
      }
    }
    assert y'.batch.items[i].status.ItemPending?;
  }

  lemma {:induction false} LateInsertStrands(y: System, e: Event)
    requires Law(y.batch) && ClaimsOk(y) && Enabled(y, e) && LateInsert(y, e)
    ensures Stranded(Next(y, e))
  {
    EventKeepsClaims(y, e);
    assert Next(y, e).batch.items[|y.batch.items|].status.ItemPending?;
  }

  lemma {:induction false} StrandedBreaksLaw(y: System)
    requires Stranded(y)
    ensures !Law(y.batch)
  {
    var i :| 0 <= i < |y.batch.items| && y.batch.items[i].status.ItemPending?;
  }

  lemma {:induction false} RunFromStranded(y: System, es: seq<Event>)
    requires Stranded(y) && ValidRun(y, es)
    ensures Stranded(Exec(y, es))
    decreases |es|
  {
    if es != [] {
      EventKeepsStranded(y, es[0]);
      RunFromStranded(Next(y, es[0]), es[1..]);
    }
  }

  lemma {:induction false} RunLaw(y: System, es: seq<Event>)
    requires Law(y.batch) && ClaimsOk(y) && ValidRun(y, es)
    ensures Law(Exec(y, es).batch) <==> NoLateInsert(y, es)
    decreases |es|
  {
    if es != [] {
      var y' := Next(y, es[0]);
      EventKeepsClaims(y, es[0]);
      if LateInsert(y, es[0]) {
        LateInsertStrands(y, es[0]);
        RunFromStranded(y', es[1..]);
        StrandedBreaksLaw(Exec(y', es[1..]));
      } else {
        EventKeepsLaw(y, es[0]);
        RunLaw(y', es[1..]);
      }
    }
  }

  /** The job status tells the truth about the items at the end of a run exactly when
      no item row was inserted after its job had closed. */
  lemma {:induction false} StatusLawExactly(es: seq<Event>)
    requires ValidRun(Start(), es)
    ensures Law(Exec(Start(), es).batch) <==> NoLateInsert(Start(), es)
  {
    RunLaw(Start(), es);
  }

  lemma {:induction false} Cons(y: System, e: Event, es: seq<Event>)
    requires Enabled(y, e) && ValidRun(Next(y, e), es) && !NoLateInsert(Next(y, e), es)
    ensures ValidRun(y, [e] + es) && !NoLateInsert(y, [e] + es)
  {
    assert ([e] + es)[0] == e && ([e] + es)[1..] == es;
  }

  /** The premise is really violated by the creation loop: item 0 may finish before item 1 exists. */
  lemma {:induction false} EarlyFinishStrandsLaterItem(u: Usage)
    ensures var es := [Insert] + ([Deliver(0, 0)] + ([ReadJob(0)] + ([Complete(0, u)] + [Insert])));
      ValidRun(Start(), es) && !NoLateInsert(Start(), es)
  {
    var y1 := Next(Start(), Insert);
    var y2 := Next(y1, Deliver(0, 0));
    var y3 := Next(y2, ReadJob(0));
    LastItemDone(y3, u);
    Cons(y2, ReadJob(0), [Complete(0, u)] + [Insert]);
    Cons(y1, Deliver(0, 0), [ReadJob(0)] + ([Complete(0, u)] + [Insert]));
    Cons(Start(), Insert, [Deliver(0, 0)] + ([ReadJob(0)] + ([Complete(0, u)] + [Insert])));
  }

  lemma {:induction false} LastItemDone(y: System, u: Usage)
    requires Enabled(y, Complete(0, u)) && |y.batch.items| == 1 && y.workers[0].item == 0
    requires y.batch.items[0].status.ItemRunning? && y.batch.job.status.JobRunning?
    requires Enabled(Next(y, Complete(0, u)), Insert)
    ensures ValidRun(y, [Complete(0, u)] + [Insert]) && !NoLateInsert(y, [Complete(0, u)] + [Insert])
  {
    var z := Next(y, Complete(0, u));
    CountsDecide(z.batch.items);
    assert z.batch.items[0].status.ItemCompleted?;
    assert LateInsert(z, Insert) && [Insert][1..] == [];
    assert ValidRun(z, [Insert]) && !NoLateInsert(z, [Insert]);
    Cons(y, Complete(0, u), [Insert]);
  }

  // ---- Absorption and progress ----

  /** Workers hold claimed items only, and a terminal job has no running item. */
  ghost predicate Quiet(y: System) {
    && ClaimsOk(y)
    && (JobTerminal(y.batch.job.status) ==>
        forall i :: 0 <= i < |y.batch.items| ==> !y.batch.items[i].status.ItemRunning?)
  }

  /** The job row and every item row there was are still the same. */
  ghost predicate Kept(b: Batch, b': Batch) { b'.job == b.job && b.items <= b'.items }

  lemma {:induction false} EventKeepsQuiet(y: System, e: Event)
    requires Quiet(y) && Enabled(y, e)
    ensures Quiet(Next(y, e))
    ensures JobTerminal(y.batch.job.status) ==> Kept(y.batch, Next(y, e).batch)
  {
    EventKeepsClaims(y, e);
    match e
    case CancelItem(w) => FinishKeepsQuiet(y, y.workers[w].item, ItemCancelled, NO_USAGE);
    case Fail(w) => FinishKeepsQuiet(y, y.workers[w].item, ItemFailed, NO_USAGE);
    case Complete(w, u) => FinishKeepsQuiet(y, y.workers[w].item, ItemCompleted, u);
    case Cancel => CountsDecide(PendingCancelled(y.batch.items));
    case _ =>
  }

  lemma {:induction false} FinishKeepsQuiet(y: System, i: nat, s: ItemStatus, u: Usage)
    requires Quiet(y) && ItemTerminal(s) && i < |y.batch.items| && !y.batch.items[i].status.ItemPending?
    ensures var b := Finished(y.batch, i, s, u);
      && (JobTerminal(b.job.status) ==> forall j :: 0 <= j < |b.items| ==> !b.items[j].status.ItemRunning?)
      && (JobTerminal(y.batch.job.status) ==> b == y.batch)
  {
    CountsDecide(Finished(y.batch, i, s, u).items);
  }

  lemma {:induction false} RunKeepsQuiet(y: System, es: seq<Event>)
    requires Quiet(y) && ValidRun(y, es)
    ensures Quiet(Exec(y, es)) && (JobTerminal(y.batch.job.status) ==> Kept(y.batch, Exec(y, es).batch))
    decreases |es|
  {
    if es != [] {
      EventKeepsQuiet(y, es[0]);
      RunKeepsQuiet(Next(y, es[0]), es[1..]);
    }
  }

  /** Terminal job states are absorbing in every run, late inserts included: nothing that follows changes the job row
      or an item row that was there. */
  lemma {:induction false} TerminalAbsorbs(es: seq<Event>, more: seq<Event>)
    requires ValidRun(Start(), es) && ValidRun(Exec(Start(), es), more)
    requires JobTerminal(Exec(Start(), es).batch.job.status)
    ensures Kept(Exec(Start(), es).batch, Exec(Exec(Start(), es), more).batch)
  {
    RunKeepsQuiet(Start(), es);
    RunKeepsQuiet(Exec(Start(), es), more);
  }

  /** 2 x pending + running. */
  function Work(items: seq<Item>): int {
    2 * Count(items, ItemPending) + Count(items, ItemRunning)
  }

  lemma {:induction false} CancelWork(items: seq<Item>)
    ensures Count(PendingCancelled(items), ItemPending) == 0
    ensures Count(PendingCancelled(items), ItemRunning) == Count(items, ItemRunning)
  {
    CountsDecide(PendingCancelled(items));
    SumSame(PendingCancelled(items), items, Is(ItemRunning));
  }

  /** Every event that changes an existing item row spends work, so items cannot cycle. */
  lemma {:induction false} EffectiveStepsSpendWork(y: System, e: Event)
    requires Enabled(y, e) && !e.Insert? && Next(y, e).batch.items != y.batch.items
    ensures 0 <= Work(Next(y, e).batch.items) < Work(y.batch.items)
  {
    var a, b := y.batch.items, Next(y, e).batch.items;
    CountsDecide(a);
    CountsDecide(b);
    if e.Cancel? {
      CancelWork(a);
      var i :| 0 <= i < |a| && b[i] != a[i];
      assert a[i].status.ItemPending?;
    } else {
      var i := if e.Deliver? then e.item else y.workers[e.w].item;
      SumUpdate(a, i, b[i], Is(ItemPending));
      SumUpdate(a, i, b[i], Is(ItemRunning));
      assert b == a[i := b[i]];
    }
  }

  // ---- Jobs that can still finish ----

  predicate OpenItem(y: System, i: int) { 0 <= i < |y.batch.items| && !ItemTerminal(y.batch.items[i].status) }

  /** A worker that holds the item is still alive. */
  ghost predicate Held(y: System, i: int) { exists w :: w in y.workers && y.workers[w].item == i }

  ghost predicate Attended(y: System) { forall i :: OpenItem(y, i) ==> Held(y, i) }

  ghost predicate CanFinish(y: System) {
    exists es :: ValidRun(y, es) && JobTerminal(Exec(y, es).batch.job.status)
  }

  /** The job is cancelling because some item is still open. */
  ghost predicate Waiting(y: System) { y.batch.job.status.JobCancelling? ==> exists i :: OpenItem(y, i) }

  lemma {:induction false} OpenCounts(items: seq<Item>)
    ensures (exists i :: 0 <= i < |items| && !ItemTerminal(items[i].status)) <==>
      Count(items, ItemCompleted) + Count(items, ItemFailed) + Count(items, ItemCancelled) < |items|
  {
    CountsDecide(items);
  }

  lemma {:induction false} FinishKeepsWaiting(y: System, i: nat, s: ItemStatus, u: Usage)
    requires Waiting(y) && ItemTerminal(s)
    ensures var b := Finished(y.batch, i, s, u);
      b.job.status.JobCancelling? ==> exists j :: 0 <= j < |b.items| && !ItemTerminal(b.items[j].status)
  {
    if Finishable(y.batch, i) {
      OpenCounts(Finished(y.batch, i, s, u).items);
    } else if y.batch.job.status.JobCancelling? {
      var j :| OpenItem(y, j);
      assert !ItemTerminal(y.batch.items[j].status);
    }
  }

  lemma {:induction false} EventKeepsWaiting(y: System, e: Event)
    requires Waiting(y) && Enabled(y, e)
    ensures Waiting(Next(y, e))
  {
    var y' := Next(y, e);
    if y'.batch.job.status.JobCancelling? {
      match e {
        case CancelItem(w) => FinishKeepsWaiting(y, y.workers[w].item, ItemCancelled, NO_USAGE);
        case Fail(w) => FinishKeepsWaiting(y, y.workers[w].item, ItemFailed, NO_USAGE);
        case Complete(w, u) => FinishKeepsWaiting(y, y.workers[w].item, ItemCompleted, u);
        case Cancel =>
          CountsDecide(PendingCancelled(y.batch.items));
          assert y.batch.job.status.JobCancelling? ==> y' == y;
        case _ =>
          var i :| OpenItem(y, i);
          assert OpenItem(y', i);
      }
      if e.Cancel? || e.CancelItem? || e.Fail? || e.Complete? {
        var j :| 0 <= j < |y'.batch.items| && !ItemTerminal(y'.batch.items[j].status);
        assert OpenItem(y', j);
      }
    }
  }

  /** An open item that nobody holds stays so while its job is cancelling, and the job stays cancelling. */
  lemma {:induction false} EventKeepsOrphan(y: System, e: Event, i: nat)
    requires y.batch.job.status.JobCancelling? && OpenItem(y, i) && !Held(y, i) && Enabled(y, e)
    ensures var y' := Next(y, e); y'.batch.job.status.JobCancelling? && OpenItem(y', i) && !Held(y', i)
  {
    var y' := Next(y, e);
    if e.CancelItem? || e.Fail? || e.Complete? {
      assert y.workers[e.w].item != i;
      assert !ItemTerminal(y'.batch.items[i].status);
      OpenCounts(y'.batch.items);
    }
    forall w | w in y'.workers ensures y'.workers[w].item != i {
      assert w in y.workers ==> y.workers[w].item != i;
    }
  }

  lemma {:induction false} OrphanKeepsOpen(y: System, es: seq<Event>, i: nat)
    requires y.batch.job.status.JobCancelling? && OpenItem(y, i) && !Held(y, i) && ValidRun(y, es)
    ensures Exec(y, es).batch.job.status.JobCancelling?
    decreases |es|
  {
    if es != [] {
      EventKeepsOrphan(y, es[0], i);
      OrphanKeepsOpen(Next(y, es[0]), es[1..], i);
    }
  }

  lemma {:induction false} RunCons(y: System, e: Event, es: seq<Event>)
    requires Enabled(y, e) && ValidRun(Next(y, e), es)
    ensures ValidRun(y, [e] + es) && Exec(y, [e] + es) == Exec(Next(y, e), es)
  {
    assert ([e] + es)[0] == e && ([e] + es)[1..] == es;
  }

  /** A worker that is past its claim ends its item in one step. */
  lemma {:induction false} HolderEnds(y: System, i: nat, w: Wid) returns (e: Event)
    requires y.batch.job.status.JobCancelling? && Attended(y) && OpenItem(y, i)
    requires w in y.workers && y.workers[w].item == i && !y.workers[w].HasClaim?
    ensures Enabled(y, e) && Attended(Next(y, e)) && Waiting(Next(y, e))
    ensures var b := Next(y, e).batch;
      && (b.job.status.JobCancelling? || b.job.status.JobCancelled?)
      && Count(b.items, ItemPending) + Count(b.items, ItemRunning)
         < Count(y.batch.items, ItemPending) + Count(y.batch.items, ItemRunning)
  {
    e := if y.workers[w].MustCancel? then CancelItem(w) else Fail(w);
    var y', a := Next(y, e), y.batch.items;
    var b := y'.batch.items;
    assert b == a[i := b[i]] && ItemTerminal(b[i].status);
    SumUpdate(a, i, b[i], Is(ItemPending));
    SumUpdate(a, i, b[i], Is(ItemRunning));
    OpenCounts(b);
    forall j | OpenItem(y', j) ensures Held(y', j) {
      assert j != i && OpenItem(y, j);
      var v :| v in y.workers && y.workers[v].item == j;
      assert v in y'.workers;
    }
    if y'.batch.job.status.JobCancelling? {
      var j :| 0 <= j < |b| && !ItemTerminal(b[j].status);
      assert OpenItem(y', j);
    }
  }

  lemma {:induction false} AttendedFinishes(y: System) returns (es: seq<Event>)
    requires y.batch.job.status.JobCancelling? && Attended(y) && Waiting(y)
    ensures ValidRun(y, es) && JobTerminal(Exec(y, es).batch.job.status)
    decreases Count(y.batch.items, ItemPending) + Count(y.batch.items, ItemRunning)
  {
    CountsDecide(y.batch.items);
    var i :| OpenItem(y, i);
    var w :| w in y.workers && y.workers[w].item == i;
    var y1 := y;
    if y.workers[w].HasClaim? {
      y1 := Next(y, ReadJob(w));
      forall j | OpenItem(y1, j) ensures Held(y1, j) {
        assert OpenItem(y, j);
        var v :| v in y.workers && y.workers[v].item == j;
        assert y1.workers[v].item == j;
      }
    }
    var e := HolderEnds(y1, i, w);
    var y2 := Next(y1, e);
    CountsDecide(y2.batch.items);
    var rest := [];
    if y2.batch.job.status.JobCancelling? {
      rest := AttendedFinishes(y2);
    }
    RunCons(y1, e, rest);
    es := [e] + rest;
    if y.workers[w].HasClaim? {
      RunCons(y, ReadJob(w), es);
      es := [ReadJob(w)] + es;
    }
  }

  lemma {:induction false} RunKeepsWaiting(y: System, es: seq<Event>)
    requires Waiting(y) && ValidRun(y, es)
    ensures Waiting(Exec(y, es))
    decreases |es|
  {
    if es != [] {
      EventKeepsWaiting(y, es[0]);
      RunKeepsWaiting(Next(y, es[0]), es[1..]);
    }
  }

  /** Neither recovery nor a new delivery helps a cancelling job: in every run it can still finish iff each of its open
      items is held by a live worker. */
  lemma {:induction false} CancellingFinishesExactly(es: seq<Event>)
    requires ValidRun(Start(), es) && Exec(Start(), es).batch.job.status.JobCancelling?
    ensures CanFinish(Exec(Start(), es)) <==> Attended(Exec(Start(), es))
  {
    var y := Exec(Start(), es);
    RunKeepsWaiting(Start(), es);
    if Attended(y) {
      var more := AttendedFinishes(y);
    } else {
      var i :| OpenItem(y, i) && !Held(y, i);
      forall more | ValidRun(y, more) ensures !JobTerminal(Exec(y, more).batch.job.status) {
        OrphanKeepsOpen(y, more, i);
      }
    }
  }

  // ---- What each event does ----

  /** The end an item is given by an event of its worker. */
  function EndOf(e: Event): Item
    requires e.CancelItem? || e.Fail? || e.Complete?
  {
    match e
    case CancelItem(_) => Item(ItemCancelled, NO_USAGE)
    case Fail(_) => Item(ItemFailed, NO_USAGE)
    case Complete(_, u) => Item(ItemCompleted, u)
  }

  /** A worker's last event gives its item that end, with the usage it reports, unless the item already has one. */
  lemma {:induction false} EndingEffect(y: System, e: Event)
    requires ClaimsOk(y) && Enabled(y, e) && (e.CancelItem? || e.Fail? || e.Complete?)
    ensures var i, y' := y.workers[e.w].item, Next(y, e);
      && y'.workers == y.workers - {e.w}
      && if ItemTerminal(y.batch.items[i].status) then y'.batch == y.batch
         else y'.batch.items == y.batch.items[i := EndOf(e)]
  {
  }

  /** A delivery claims an item that has no end in a job that is open, and starts the job if need be. */
  lemma {:induction false} DeliveryEffect(y: System, w: Wid, i: nat)
    requires Enabled(y, Deliver(w, i))
    ensures var b, y', status := y.batch, Next(y, Deliver(w, i)), y.batch.job.status;
      if i < |b.items| && !ItemTerminal(b.items[i].status) && (status.JobPending? || status.JobRunning?)
      then && y'.batch.items == b.items[i := Item(ItemRunning, b.items[i].usage)]
           && y'.batch.job == b.job.(status := JobRunning) && y'.workers == y.workers[w := HasClaim(i)]
      else y' == y
  {
  }

  /** A worker that has claimed goes on to the model unless the job is being cancelled. */
  lemma {:induction false} ReadEffect(y: System, w: Wid)
    requires Enabled(y, ReadJob(w))
    ensures var y', status, i := Next(y, ReadJob(w)), y.batch.job.status, y.workers[w].item;
      && y'.batch == y.batch
      && y'.workers ==
        y.workers[w := if status.JobCancelling? || status.JobCancelled? then MustCancel(i) else Working(i)]
  {
  }

  /** Cancelling a job that is open gives every pending item its end and leaves all others; the job waits if one of
      them is running and is over otherwise. */
  lemma {:induction false} CancelEffect(y: System)
    ensures var b, y', status := y.batch, Next(y, Cancel), y.batch.job.status;
      && y'.workers == y.workers
      && if status.JobPending? || status.JobRunning?
         then && |y'.batch.items| == |b.items|
              && (forall i :: 0 <= i < |b.items| ==>
                    y'.batch.items[i] == if b.items[i].status.ItemPending? then Item(ItemCancelled, NO_USAGE)
                                         else b.items[i])
              && y'.batch.job.status == if exists i :: 0 <= i < |b.items| && b.items[i].status.ItemRunning?
                                        then JobCancelling else JobCancelled
         else y'.batch == b
  {
    var b, items := y.batch, PendingCancelled(y.batch.items);
    CountsDecide(items);
    assert (exists i :: 0 <= i < |items| && items[i].status.ItemRunning?) <==>
      exists i :: 0 <= i < |b.items| && b.items[i].status.ItemRunning? by {
      assert forall i :: 0 <= i < |items| ==> (items[i].status.ItemRunning? <==> b.items[i].status.ItemRunning?);
    }
  }

  /** A worker that dies leaves its item as it is. */
  lemma {:induction false} CrashEffect(y: System, w: Wid)
    requires Enabled(y, Crash(w))
    ensures Next(y, Crash(w)).batch == y.batch && Next(y, Crash(w)).workers == y.workers - {w}
  {
  }

  lemma {:induction false} InsertEffect(y: System)
    ensures var y' := Next(y, Insert);
      y'.workers == y.workers && y'.batch == y.batch.(items := y.batch.items + [Item(ItemPending, NO_USAGE)])
  {
  }

  // ---- Tokens, read off the events ----

  /** What an event reports: a completion, the usage it carries, if its item has no end yet. */
  function Report(y: System, e: Event): Usage {
    match e
    case Complete(w, u) => if w in y.workers && OpenItem(y, y.workers[w].item) then u else NO_USAGE
    case _ => NO_USAGE
  }

  /** The usage reported over a run. */
  function Reported(y: System, es: seq<Event>): Usage
    requires ValidRun(y, es)
    decreases |es|
  {
    if es == [] then NO_USAGE else Plus(Report(y, es[0]), Reported(Next(y, es[0]), es[1..]))
  }

  lemma {:induction false} EventReports(y: System, e: Event)
    requires ClaimsOk(y) && Enabled(y, e)
    ensures Next(y, e).batch.job.tokens == Plus(y.batch.job.tokens, Report(y, e))
  {
    assert e.CancelItem? || e.Fail? || e.Complete? ==> y.workers[e.w].item < |y.batch.items|;
  }

  lemma {:induction false} RunReports(y: System, es: seq<Event>)
    requires ClaimsOk(y) && ValidRun(y, es)
    ensures Exec(y, es).batch.job.tokens == Plus(y.batch.job.tokens, Reported(y, es))
    decreases |es|
  {
    if es != [] {
      EventReports(y, es[0]);
      EventKeepsClaims(y, es[0]);
      RunReports(Next(y, es[0]), es[1..]);
      PlusAssoc(y.batch.job.tokens, Report(y, es[0]), Reported(Next(y, es[0]), es[1..]));
    }
  }

  lemma {:induction false} PlusAssoc(a: Usage, b: Usage, c: Usage)
    ensures Plus(Plus(a, b), c) == Plus(a, Plus(b, c))
  {
  }

  /** In every run the job's tokens are the usage the completions reported: each one that met an item without an end
      counts in full and once, nothing else counts. */
  lemma {:induction false} TokensAreReported(es: seq<Event>)
    requires ValidRun(Start(), es)
    ensures Exec(Start(), es).batch.job.tokens == Reported(Start(), es)
  {
    RunReports(Start(), es);
  }
}
