/**
 * The extraction worker (extractions/extraction-worker.service.ts): drives a job through a cursor-paged
 * source, appends each page to the job's file, and saves its progress (extraction-jobs.repository.ts) page
 * by page. A line of the file is the item it was made from.
 */
module Extraction {
  import opened Options

  datatype Page<T> = Page(items: seq<T>, nextCursor: Option<string>)

  datatype Fetched<T> = Got(page: Page<T>) | Threw(detail: string)

  /** fetch(limit, cursor) of the job's strategy. */
  type Source<!T> = (int, Option<string>) -> Fetched<T>

  datatype Status = Queued | Running | Succeeded | Failed

  datatype Job = Job(
    status: Status, maxRows: int, rowsExtracted: int, lastCursor: Option<string>,
    filePath: Option<string>, errorDetail: Option<string>)

  /** The cursor that means there is no further page: null or the empty string. */
  predicate NoCursor(c: Option<string>) { c.None? || c.value == "" }

  function Min(a: int, b: int): int { if a <= b then a else b }

  // ---------------------------------------------------------------- the run of one job, as a function

  /** Where the loop stands when it saves progress, and where it ends. */
  datatype Point<T> = Point(lines: seq<T>, total: int, cursor: Option<string>)

  datatype Ended<T> = Ended(at: Point<T>, status: Status, detail: Option<string>)

  function Run<T>(source: Source<T>, batch: int, maxRows: int, p: Point<T>): Ended<T>
    decreases maxRows - p.total
  {
    if p.total >= maxRows then Ended(p, Succeeded, None) else
    match source(Min(batch, maxRows - p.total), p.cursor)
    case Threw(detail) => Ended(p, Failed, Some(detail))
    case Got(page) =>
      var lines, total := p.lines + page.items, p.total + |page.items|;
      if NoCursor(page.nextCursor) || page.items == [] then Ended(Point(lines, total, p.cursor), Succeeded, None)
      else Run(source, batch, maxRows, Point(lines, total, page.nextCursor))
  }

  /** The points saved by updateProgress on the way. */
  function Saved<T>(source: Source<T>, batch: int, maxRows: int, p: Point<T>): seq<Point<T>>
    decreases maxRows - p.total
  {
    if p.total >= maxRows then [] else
    match source(Min(batch, maxRows - p.total), p.cursor)
    case Threw(_) => []
    case Got(page) =>
      if NoCursor(page.nextCursor) || page.items == [] then []
      else
        var next := Point(p.lines + page.items, p.total + |page.items|, page.nextCursor);
        [next] + Saved(source, batch, maxRows, next)
  }

  // ---------------------------------------------------------------- the worker, in place

  class JobRow<T> {
    var job: Job
    ghost var saved: seq<Point<T>>   // every progress written, with the file as it then was

    constructor (job: Job)
      ensures this.job == job && saved == []
    {
      this.job := job;
      saved := [];
    }

    method UpdateProgress(rows: int, cursor: Option<string>, ghost lines: seq<T>)
      modifies this
      ensures job == old(job).(rowsExtracted := rows, lastCursor := cursor)
      ensures saved == old(saved) + [Point(lines, rows, cursor)]
    {
      job := job.(rowsExtracted := rows, lastCursor := cursor);
      saved := saved + [Point(lines, rows, cursor)];
    }

    method MarkSuccess(filePath: string, rows: int)
      modifies this`job
      ensures job == old(job).(status := Succeeded, filePath := Some(filePath), rowsExtracted := rows, errorDetail := None)
    {
      job := job.(status := Succeeded, filePath := Some(filePath), rowsExtracted := rows, errorDetail := None);
    }

    method MarkFailure(detail: string, rows: int)
      modifies this`job
      ensures job == old(job).(status := Failed, errorDetail := Some(Clip(detail)), rowsExtracted := rows)
    {
      job := job.(status := Failed, errorDetail := Some(Clip(detail)), rowsExtracted := rows);
    }
  }

  function Clip(detail: string): string { if |detail| <= 1000 then detail else detail[..1000] }

  class LineFile<T> {
    var lines: seq<T>

    constructor ()
      ensures lines == []
    {
      lines := [];
    }

    method Append(item: T)
      modifies this
      ensures lines == old(lines) + [item]
    {
      lines := lines + [item];
    }

    /** The items of a page, one line each. */
    method AppendAll(items: seq<T>)
      modifies this
      ensures lines == old(lines) + items
    {
      for n := 0 to |items|
        invariant lines == old(lines) + items[..n]
      {
        Append(items[n]);
        assert items[..n + 1] == items[..n] + [items[n]];
      }
      assert items[..|items|] == items;
    }
  }

  function Written<T>(p: Point<T>, page: Page<T>, cursor: Option<string>): Point<T> {
    Point(p.lines + page.items, p.total + |page.items|, cursor)
  }

  /** The loop stands at p, having saved `wrote`, on its way from `start`. */
  ghost predicate Underway<T>(source: Source<T>, batch: int, maxRows: int, start: Point<T>, p: Point<T>, wrote: seq<Point<T>>) {
    && Run(source, batch, maxRows, start) == Run(source, batch, maxRows, p)
    && Saved(source, batch, maxRows, start) == wrote + Saved(source, batch, maxRows, p)
  }

  lemma AtStart<T>(source: Source<T>, batch: int, maxRows: int, start: Point<T>)
    ensures Underway(source, batch, maxRows, start, start, [])
  {
  }

  /** A turn that saves the point it goes on from. */
  lemma TurnSaves<T>(source: Source<T>, batch: int, maxRows: int, start: Point<T>, p: Point<T>, wrote: seq<Point<T>>, page: Page<T>)
    requires Underway(source, batch, maxRows, start, p, wrote)
    requires p.total < maxRows && source(Min(batch, maxRows - p.total), p.cursor) == Got(page)
    requires !NoCursor(page.nextCursor) && page.items != []
    ensures var next := Written(p, page, page.nextCursor);
      Underway(source, batch, maxRows, start, next, wrote + [next])
  {
    var next := Written(p, page, page.nextCursor);
    assert Saved(source, batch, maxRows, p) == [next] + Saved(source, batch, maxRows, next);
  }

  /** The turns that end the loop: a fetch that throws, the last page, and all rows there. */
  lemma LastTurn<T>(source: Source<T>, batch: int, maxRows: int, start: Point<T>, p: Point<T>, wrote: seq<Point<T>>)
    requires Underway(source, batch, maxRows, start, p, wrote)
    ensures var e := Run(source, batch, maxRows, start); var f := source(Min(batch, maxRows - p.total), p.cursor);
      && (p.total >= maxRows ==> e == Ended(p, Succeeded, None))
      && (p.total < maxRows && f.Threw? ==> e == Ended(p, Failed, Some(f.detail)))
      && (p.total < maxRows && f.Got? && (NoCursor(f.page.nextCursor) || f.page.items == []) ==>
            e == Ended(Written(p, f.page, p.cursor), Succeeded, None))
      && (p.total >= maxRows || f.Threw? || NoCursor(f.page.nextCursor) || f.page.items == [] ==>
            Saved(source, batch, maxRows, start) == wrote)
  {
  }

  /** fs.open(path, totalRows === 0 ? 'w' : 'a'). */
  function Opened<T>(lines: seq<T>, totalRows: int): seq<T> { if totalRows == 0 then [] else lines }

  function StartOf<T>(job: Job, lines: seq<T>): Point<T> {
    Point(Opened(lines, job.rowsExtracted), job.rowsExtracted, job.lastCursor)
  }

  function JobAfter<T>(job: Job, filePath: string, e: Ended<T>): Job {
    if e.status == Succeeded
    then job.(status := Succeeded, filePath := Some(filePath), rowsExtracted := e.at.total, errorDetail := None,
              lastCursor := e.at.cursor)
    else job.(status := Failed, rowsExtracted := e.at.total, lastCursor := e.at.cursor,
              errorDetail := if e.detail.Some? then Some(Clip(e.detail.value)) else Some(""))
  }

  /** The limits asked for: each time a batch, or what is left to the job's maximum if that is less. */
  ghost predicate IsAsked<T>(asked: seq<int>, batch: int, job: Job, saved: seq<Point<T>>) {
    && |saved| <= |asked| <= |saved| + 1
    && forall n :: 0 <= n < |asked| ==>
         var rest := job.maxRows - (if n == 0 then job.rowsExtracted else saved[n - 1].total);
         asked[n] == if batch <= rest then batch else rest
  }

  function TotalAt<T>(job: Job, saved: seq<Point<T>>): int {
    if saved == [] then job.rowsExtracted else saved[|saved| - 1].total
  }

  lemma AskedNothing<T>(batch: int, job: Job)
    ensures IsAsked<T>([], batch, job, [])
  {
  }

  lemma AskedNext<T>(asked: seq<int>, batch: int, job: Job, saved: seq<Point<T>>, total: int)
    requires IsAsked(asked, batch, job, saved) && |asked| == |saved| && total == TotalAt(job, saved)
    ensures IsAsked(asked + [Min(batch, job.maxRows - total)], batch, job, saved)
  {
  }

  lemma AskedSaved<T>(asked: seq<int>, batch: int, job: Job, saved: seq<Point<T>>, p: Point<T>)
    requires IsAsked(asked, batch, job, saved) && |asked| == |saved| + 1
    ensures IsAsked(asked, batch, job, saved + [p])
  {
  }

  class Worker<T> {
    const source: Source<T>
    const batchSize: int

    constructor (source: Source<T>, batchSize: int)
      ensures this.source == source && this.batchSize == batchSize
    {
      this.source := source;
      this.batchSize := batchSize;
    }

    /** `file` is the file of the job, as an earlier attempt may have left it. */
    method Process(row: JobRow<T>, filePath: string, file: LineFile<T>) returns (ghost asked: seq<int>)
      modifies row, file
      ensures IsAsked(asked, batchSize, old(row.job),
        Saved(source, batchSize, old(row.job).maxRows, StartOf(old(row.job), old(file.lines))))
      ensures var e := Run(source, batchSize, old(row.job).maxRows, StartOf(old(row.job), old(file.lines)));
        file.lines == e.at.lines && row.job == JobAfter(old(row.job), filePath, e)
      ensures row.saved == old(row.saved) +
        Saved(source, batchSize, old(row.job).maxRows, StartOf(old(row.job), old(file.lines)))
    {
      hide Run, Saved, Underway, Clip, NoCursor, IsAsked;
      AskedNothing<T>(batchSize, row.job);
      var job := row.job;
      ghost var start := StartOf(job, file.lines);
      ghost var wrote: seq<Point<T>> := [];
      asked := [];
      AtStart(source, batchSize, job.maxRows, start);
      var cursor := job.lastCursor;
      var totalRows := job.rowsExtracted;
      if totalRows == 0 {
        file.lines := [];
      }
      while totalRows < job.maxRows
        invariant row.job == job.(rowsExtracted := totalRows, lastCursor := cursor)
        invariant Underway(source, batchSize, job.maxRows, start, Point(file.lines, totalRows, cursor), wrote)
        invariant row.saved == old(row.saved) + wrote && |asked| == |wrote|
        invariant totalRows == TotalAt(job, wrote)
        invariant IsAsked(asked, batchSize, job, wrote)
        decreases job.maxRows - totalRows
      {
        ghost var p := Point(file.lines, totalRows, cursor);
        LastTurn(source, batchSize, job.maxRows, start, p, wrote);
        var remaining := job.maxRows - totalRows;
        var limit := Min(batchSize, remaining);
        var fetched := source(limit, cursor);
        AskedNext(asked, batchSize, job, wrote, totalRows);
        asked := asked + [limit];
        if fetched.Threw? {
          row.MarkFailure(fetched.detail, totalRows);
          return;
        }
        var page := fetched.page;
        file.AppendAll(page.items);
        totalRows := totalRows + |page.items|;
        if NoCursor(page.nextCursor) || |page.items| == 0 {
          row.MarkSuccess(filePath, totalRows);
          return;
        }
        TurnSaves(source, batchSize, job.maxRows, start, p, wrote, page);
        cursor := page.nextCursor;
        row.UpdateProgress(totalRows, cursor, file.lines);
        AskedSaved(asked, batchSize, job, wrote, Point(file.lines, totalRows, cursor));
        wrote := wrote + [Point(file.lines, totalRows, cursor)];
      }
      LastTurn(source, batchSize, job.maxRows, start, Point(file.lines, totalRows, cursor), wrote);
      row.MarkSuccess(filePath, totalRows);
    }
  }

  // ---------------------------------------------------------------- any source at all

  /** A page without a further cursor, absent or empty, is the last, and so is an empty page. */
  lemma LastPageEnds<T>(source: Source<T>, batch: int, maxRows: int, p: Point<T>, page: Page<T>)
    requires p.total < maxRows && source(if batch <= maxRows - p.total then batch else maxRows - p.total, p.cursor) == Got(page)
    ensures page.nextCursor == None || page.nextCursor == Some("") || page.items == [] ==>
      Saved(source, batch, maxRows, p) == [] &&
      Run(source, batch, maxRows, p) == Ended(Point(p.lines + page.items, p.total + |page.items|, p.cursor), Succeeded, None)
  {
  }

  /** Whatever the source answers, the file grows with the count: rows_extracted is the line count. */
  lemma {:induction false} CountFollowsFile<T>(source: Source<T>, batch: int, maxRows: int, p: Point<T>)
    ensures var e := Run(source, batch, maxRows, p);
      && p.lines <= e.at.lines && e.at.total - p.total == |e.at.lines| - |p.lines|
      && (e.status == Failed <==> e.detail.Some?)
      && (e.status == Succeeded || e.status == Failed)
    decreases maxRows - p.total
  {
    if p.total < maxRows {
      match source(Min(batch, maxRows - p.total), p.cursor)
      case Threw(_) =>
      case Got(page) =>
        if !NoCursor(page.nextCursor) && page.items != [] {
          CountFollowsFile(source, batch, maxRows, Point(p.lines + page.items, p.total + |page.items|, page.nextCursor));
        }
    }
  }

  lemma {:induction false} FailureIsTheFetch<T>(source: Source<T>, batch: int, maxRows: int, p: Point<T>)
    requires Run(source, batch, maxRows, p).status == Failed
    ensures var e := Run(source, batch, maxRows, p);
      && e.at.total < maxRows && e.detail.Some?
      && source(Min(batch, maxRows - e.at.total), e.at.cursor) == Threw(e.detail.value)
    decreases maxRows - p.total
  {
    match source(Min(batch, maxRows - p.total), p.cursor)
    case Threw(_) =>
    case Got(page) =>
      if !NoCursor(page.nextCursor) && page.items != [] {
        FailureIsTheFetch(source, batch, maxRows, Point(p.lines + page.items, p.total + |page.items|, page.nextCursor));
      }
  }

  /** The row's error is the head of what the fetch at the row's count and cursor throws. */
  predicate NamesTheThrow<T>(source: Source<T>, batch: int, row: Job) {
    && row.rowsExtracted < row.maxRows
    && var f := source(Min(batch, row.maxRows - row.rowsExtracted), row.lastCursor);
    f.Threw? && row.errorDetail.Some? && row.errorDetail.value <= f.detail
    && |row.errorDetail.value| == if |f.detail| <= 1000 then |f.detail| else 1000
  }

  /**
   * What the finished row tells: success has the file and no error; failure has the first 1000 characters of
   * what the fetch at its own saved cursor threw. Either way its count has grown by the lines written.
   */
  lemma RowTellsTheRun<T>(source: Source<T>, batch: int, job: Job, left: seq<T>, filePath: string)
    ensures var e := Run(source, batch, job.maxRows, StartOf(job, left)); var row := JobAfter(job, filePath, e);
      && (row.status == Succeeded || row.status == Failed)
      && row.rowsExtracted - job.rowsExtracted == |e.at.lines| - |Opened(left, job.rowsExtracted)|
      && (row.status == Succeeded ==> row.filePath == Some(filePath) && row.errorDetail == None)
      && (row.status == Failed ==> row.filePath == job.filePath && NamesTheThrow(source, batch, row))
  {
    hide Run;
    var p := StartOf(job, left);
    CountFollowsFile(source, batch, job.maxRows, p);
    if Run(source, batch, job.maxRows, p).status == Failed {
      FailureIsTheFetch(source, batch, job.maxRows, p);
    }
  }

  lemma {:induction false} SavedPointsLeadOn<T>(source: Source<T>, batch: int, maxRows: int, p: Point<T>, n: nat)
    requires n < |Saved(source, batch, maxRows, p)|
    ensures var q := Saved(source, batch, maxRows, p)[n];
      q.total > p.total && p.lines <= q.lines && q.total - p.total == |q.lines| - |p.lines| && !NoCursor(q.cursor)
      && Run(source, batch, maxRows, q) == Run(source, batch, maxRows, p)
    decreases n
  {
    var next := Saved(source, batch, maxRows, p)[0];
    if n > 0 {
      SavedPointsLeadOn(source, batch, maxRows, next, n - 1);
    }
  }

  /** The row of a job whose worker stopped after saving progress q; today nothing puts such a row back in the queue. */
  function Requeued<T>(job: Job, q: Point<T>): Job { job.(rowsExtracted := q.total, lastCursor := q.cursor) }

  /**
   * A worker stopped at any saved progress, its row picked up again with the file as it then was: the second
   * run starts where the first stood, and file and row end as if the first had not been interrupted.
   */
  lemma ResumedRunIsTheSame<T>(source: Source<T>, batch: int, job: Job, left: seq<T>, filePath: string, n: nat)
    requires job.rowsExtracted >= 0 && n < |Saved(source, batch, job.maxRows, StartOf(job, left))|
    ensures var q := Saved(source, batch, job.maxRows, StartOf(job, left))[n]; var row := Requeued(job, q);
      var e := Run(source, batch, job.maxRows, StartOf(job, left));
      var again := Run(source, batch, row.maxRows, StartOf(row, q.lines));
      && StartOf(row, q.lines) == q
      && again.at.lines == e.at.lines && JobAfter(row, filePath, again) == JobAfter(job, filePath, e)
  {
    SavedPointsLeadOn(source, batch, job.maxRows, StartOf(job, left), n);
  }

  // ---------------------------------------------------------------- a source over a fixed list

  function Offset(at: string -> nat, cursor: Option<string>): nat { if cursor.None? then 0 else at(cursor.value) }

  /** The source pages `all` in order: at least one item while there are any, never more than asked. */
  ghost predicate PagesInOrder<T(!new)>(source: Source<T>, all: seq<T>, at: string -> nat) {
    forall limit: int, cursor :: limit >= 1 && Offset(at, cursor) <= |all| ==>
      InOrder(source(limit, cursor), limit, all, Offset(at, cursor), at)
  }

  predicate InOrder<T(==)>(f: Fetched<T>, limit: int, all: seq<T>, from: nat, at: string -> nat)
    requires from <= |all|
  {
    && f.Got?
    && |f.page.items| <= limit && from + |f.page.items| <= |all|
    && f.page.items == all[from..from + |f.page.items|]
    && (from < |all| ==> f.page.items != [])
    && (from + |f.page.items| < |all| ==> !NoCursor(f.page.nextCursor))
    && (!NoCursor(f.page.nextCursor) ==> Offset(at, f.page.nextCursor) == from + |f.page.items|)
  }

  /** A page fetched from a consistent point is the next stretch of the list, and the last one reaches the goal. */
  lemma OnePage<T(!new)>(source: Source<T>, all: seq<T>, at: string -> nat, batch: int, maxRows: int, p: Point<T>)
    requires PagesInOrder(source, all, at) && batch >= 1
    requires 0 <= p.total < maxRows && p.total <= |all| && Offset(at, p.cursor) == p.total
    ensures var f := source(Min(batch, maxRows - p.total), p.cursor); var goal := Min(maxRows, |all|);
      f.Got? && var next := p.total + |f.page.items|;
      && next <= goal && f.page.items == all[p.total..next]
      && (NoCursor(f.page.nextCursor) || f.page.items == [] ==> next == goal)
      && (!NoCursor(f.page.nextCursor) ==> Offset(at, f.page.nextCursor) == next)
  {
    hide NoCursor;
    var limit := Min(batch, maxRows - p.total);
    assert InOrder(source(limit, p.cursor), limit, all, p.total, at);
  }

  /** From a consistent point the run appends exactly the items up to min(maxRows, |all|). */
  lemma {:induction false} RunAppendsTheRest<T(!new)>(
      source: Source<T>, all: seq<T>, at: string -> nat, batch: int, maxRows: int, p: Point<T>)
    requires PagesInOrder(source, all, at) && batch >= 1
    requires 0 <= p.total <= Min(maxRows, |all|) && Offset(at, p.cursor) == p.total
    ensures var e := Run(source, batch, maxRows, p); var goal := Min(maxRows, |all|);
      e.status == Succeeded && e.at.total == goal && e.at.lines == p.lines + all[p.total..goal]
    decreases maxRows - p.total
  {
    hide PagesInOrder, NoCursor, Offset;
    var goal := Min(maxRows, |all|);
    if p.total < maxRows {
      OnePage(source, all, at, batch, maxRows, p);
      var page := source(Min(batch, maxRows - p.total), p.cursor).page;
      if !NoCursor(page.nextCursor) && page.items != [] {
        var next := Point(p.lines + page.items, p.total + |page.items|, page.nextCursor);
        RunAppendsTheRest(source, all, at, batch, maxRows, next);
        assert Run(source, batch, maxRows, p) == Run(source, batch, maxRows, next);
        assert all[p.total..goal] == page.items + all[next.total..goal];
      }
    } else {
      assert all[p.total..goal] == [];
    }
  }

  /** A fresh job ends with the first min(maxRows, |all|) items in its file and says so in its row. */
  lemma FreshJobExtractsPrefix<T(!new)>(
      source: Source<T>, all: seq<T>, at: string -> nat, batch: int, job: Job, left: seq<T>, filePath: string)
    requires PagesInOrder(source, all, at) && batch >= 1 && job.maxRows >= 0
    requires job.rowsExtracted == 0 && job.lastCursor.None?
    ensures var e := Run(source, batch, job.maxRows, StartOf(job, left)); var goal := Min(job.maxRows, |all|);
      && e.at.lines == all[..goal]
      && JobAfter(job, filePath, e).status == Succeeded && JobAfter(job, filePath, e).rowsExtracted == goal
  {
    RunAppendsTheRest(source, all, at, batch, job.maxRows, StartOf(job, left));
  }

  /**
   * Every saved point of a fresh run is consistent: the file is the list up to rows_extracted, and the
   * cursor stands there.
   */
  lemma {:induction false} SavedPointsAreConsistent<T(!new)>(
      source: Source<T>, all: seq<T>, at: string -> nat, batch: int, maxRows: int, p: Point<T>, n: nat)
    requires PagesInOrder(source, all, at) && batch >= 1
    requires 0 <= p.total <= Min(maxRows, |all|) && Offset(at, p.cursor) == p.total && p.lines == all[..p.total]
    requires n < |Saved(source, batch, maxRows, p)|
    ensures var q := Saved(source, batch, maxRows, p)[n];
      && 1 <= q.total <= Min(maxRows, |all|) && Offset(at, q.cursor) == q.total && q.lines == all[..q.total]
    decreases n
  {
    var limit := Min(batch, maxRows - p.total);
    assert InOrder(source(limit, p.cursor), limit, all, p.total, at);
    var next := Saved(source, batch, maxRows, p)[0];
    assert next.lines == all[..next.total];
    if n > 0 {
      SavedPointsAreConsistent(source, all, at, batch, maxRows, next, n - 1);
    }
  }

  /**
   * Resuming a job from saved progress with whatever file it finds: the result is the uninterrupted file
   * exactly if the file holds just the rows that were counted, or none were (then it is truncated). A crash
   * after lines were written but before their progress was saved leaves those lines twice.
   */
  lemma ResumeIsExactIff<T(!new)>(
      source: Source<T>, all: seq<T>, at: string -> nat, batch: int, job: Job, file: seq<T>)
    requires PagesInOrder(source, all, at) && batch >= 1
    requires 0 <= job.rowsExtracted <= Min(job.maxRows, |all|) && Offset(at, job.lastCursor) == job.rowsExtracted
    requires file <= all
    ensures Run(source, batch, job.maxRows, StartOf(job, file)).at.lines == all[..Min(job.maxRows, |all|)]
      <==> job.rowsExtracted == 0 || |file| == job.rowsExtracted
  {
    var p := StartOf(job, file);
    var goal := Min(job.maxRows, |all|);
    RunAppendsTheRest(source, all, at, batch, job.maxRows, p);
    if |file| == job.rowsExtracted {
      assert file == all[..job.rowsExtracted];
    }
    assert all[..job.rowsExtracted] + all[job.rowsExtracted..goal] == all[..goal];
  }
}
