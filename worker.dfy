// The worker pool of internal/converter/worker.go. The goroutines, the
// WaitGroup and the channels' blocking are not modelled: the pool is a
// sequential FIFO queue of jobs, drained by the worker loop when the pool is
// stopped, each job turned into one result tagged with the job's cell.

module Workers {
  import opened Pixels
  import opened Sampler

  /** A cell to sample: the image, the cell's grid position and the cell size in pixels. */
  datatype Job = Job(img: Image, row: nat, col: nat, cellWidth: nat, cellHeight: nat)

  /** What a worker sends back for a job. */
  datatype CellResult = CellResult(row: nat, col: nat, brightness: real, avgColor: RGBA8)

  /** The rectangle a job samples, for brightness and average colour alike: origin
      (col * cellWidth, row * cellHeight), one cell in size. */
  function JobRegion(job: Job): seq<Pixel>
  {
    Visited(job.img, job.col * job.cellWidth, job.row * job.cellHeight, job.cellWidth, job.cellHeight)
  }

  /** The result the worker loop produces for a job. */
  function Process(job: Job): (r: CellResult)
    ensures r.row == job.row && r.col == job.col
    ensures 0.0 <= r.brightness <= 1.0 && r.avgColor.a == 255
    ensures JobRegion(job) == [] ==> r.brightness == 0.0 && r.avgColor == OpaqueBlack
  {
    MeanLumaBounds(JobRegion(job));
    CellResult(job.row, job.col, MeanLuma(JobRegion(job)), AverageColor(JobRegion(job)))
  }

  /** The results of a run of jobs, in the order they were queued. */
  function Processed(jobs: seq<Job>): (rs: seq<CellResult>)
    ensures |rs| == |jobs|
  {
    seq(|jobs|, k requires 0 <= k < |jobs| => Process(jobs[k]))
  }

  /** Processing two runs of jobs one after the other gives their results one after the other. */
  lemma ProcessedAppend(a: seq<Job>, b: seq<Job>)
    ensures Processed(a + b) == Processed(a) + Processed(b)
  {
  }

  /** Taking the next job of a run: what is left loses its head, and the results gain that job's. */
  lemma ProcessedNext(jobs: seq<Job>, done: nat)
    requires done < |jobs|
    ensures jobs[done..][0] == jobs[done] && jobs[done..][1..] == jobs[done + 1..]
    ensures Processed(jobs[..done + 1]) == Processed(jobs[..done]) + [Process(jobs[done])]
  {
    assert jobs[..done + 1] == jobs[..done] + [jobs[done]];
    ProcessedAppend(jobs[..done], [jobs[done]]);
  }

  /** A job on an image of one colour, whose cell lies inside it, has that colour's luma as its
      brightness: 1 for white, and 0 for black. */
  lemma UniformJob(p: Pixel, width: nat, height: nat, row: nat, col: nat, cellWidth: nat, cellHeight: nat)
    requires cellWidth > 0 && cellHeight > 0
    requires col * cellWidth < width && row * cellHeight < height
    ensures Process(Job(Uniform(width, height, p), row, col, cellWidth, cellHeight)).brightness == Luma(p)
  {
    var job := Job(Uniform(width, height, p), row, col, cellWidth, cellHeight);
    var x, y := col * cellWidth, row * cellHeight;
    VisitedEmpty(job.img, x, y, cellWidth, cellHeight);
    VisitedOfUniform(width, height, p, x, ClipEnd(x, cellWidth, width), y, ClipEnd(y, cellHeight, height));
    MeanLumaUniform(JobRegion(job), p);
  }

  /** Every pixel visited in an image of one colour has that colour. */
  lemma {:induction false} VisitedOfUniform(width: nat, height: nat, p: Pixel, x0: nat, x1: int, y0: nat, y1: int)
    requires x1 <= width && y1 <= height
    ensures forall k | 0 <= k < |Block(Uniform(width, height, p), x0, x1, y0, y1)| ::
      Block(Uniform(width, height, p), x0, x1, y0, y1)[k] == p
    decreases y1 - y0
  {
    var img := Uniform(width, height, p);
    if y0 < y1 {
      VisitedOfUniform(width, height, p, x0, x1, y0, y1 - 1);
      var row := RowSpan(img, y1 - 1, x0, x1);
      if row != [] {
        assert forall k | 0 <= k < |row| :: row[k] == img.At(x0 + k, y1 - 1);
      }
    }
  }

  /** The pool: its worker count, the pending jobs, the results sent so far, and whether each channel
      has been closed. `submitted` records every job ever queued. */
  class WorkerPool {
    const numWorkers: nat
    const capacity: nat
    var started: nat
    var jobs: seq<Job>
    var results: seq<CellResult>
    var jobsClosed: bool
    var resultsClosed: bool
    ghost var submitted: seq<Job>

    /** Conservation: every job queued so far has either produced exactly one result, in queue order,
        or is still pending; results are closed only once jobs are. */
    ghost predicate Valid()
      reads this
    {
      |results| <= |submitted| &&
      results == Processed(submitted[..|results|]) &&
      jobs == submitted[|results|..] &&
      (forall k | 0 <= k < |jobs| :: jobs[k].img.Valid()) &&
      (resultsClosed ==> jobsClosed)
    }

    /** NewWorkerPool: both channels buffered to twice the worker count, nothing queued yet. */
    constructor (numWorkers: nat)
      ensures Valid()
      ensures this.numWorkers == numWorkers && capacity == 2 * numWorkers
      ensures started == 0 && jobs == [] && results == [] && submitted == []
      ensures !jobsClosed && !resultsClosed
    {
      this.numWorkers := numWorkers;
      capacity := numWorkers * 2;
      started := 0;
      jobs := [];
      results := [];
      jobsClosed := false;
      resultsClosed := false;
      submitted := [];
    }

    /** Start launches one worker per configured worker. */
    method Start()
      requires Valid()
      modifies this
      ensures Valid()
      ensures started == old(started) + numWorkers
      ensures jobs == old(jobs) && results == old(results) && submitted == old(submitted)
      ensures jobsClosed == old(jobsClosed) && resultsClosed == old(resultsClosed)
    {
      var i := 0;
      while i < numWorkers
        invariant 0 <= i <= numWorkers
        invariant started == old(started) + i
        invariant jobs == old(jobs) && results == old(results) && submitted == old(submitted)
        invariant jobsClosed == old(jobsClosed) && resultsClosed == old(resultsClosed)
      {
        started := started + 1;
        i := i + 1;
      }
    }

    /** A send on the jobs channel: the job joins the back of the queue. Sending on a closed channel
        panics, so the channel must still be open. */
    method Submit(job: Job)
      requires Valid() && !jobsClosed && job.img.Valid()
      modifies this
      ensures Valid()
      ensures jobs == old(jobs) + [job] && submitted == old(submitted) + [job]
      ensures results == old(results) && started == old(started)
      ensures !jobsClosed && resultsClosed == old(resultsClosed)
    {
      assert submitted[|results|..] + [job] == (submitted + [job])[|results|..];
      assert (submitted + [job])[..|results|] == submitted[..|results|];
      jobs := jobs + [job];
      submitted := submitted + [job];
    }

    /** One pass of the worker loop: take the job at the front, sample its cell, send the result. */
    method WorkOne()
      requires Valid() && jobs != [] && !resultsClosed
      modifies this
      ensures Valid()
      ensures jobs == old(jobs)[1..] && results == old(results) + [Process(old(jobs)[0])]
      ensures submitted == old(submitted) && started == old(started)
      ensures jobsClosed == old(jobsClosed) && resultsClosed == old(resultsClosed)
    {
      var job := jobs[0];
      var x := job.col * job.cellWidth;
      var y := job.row * job.cellHeight;
      var brightness := CalculateBrightness(job.img, x, y, job.cellWidth, job.cellHeight);
      var avgColor := CalculateAverageColor(job.img, x, y, job.cellWidth, job.cellHeight);
      ghost var n := |results|;
      assert submitted[..n + 1] == submitted[..n] + [job];
      ProcessedAppend(submitted[..n], [job]);
      results := results + [CellResult(job.row, job.col, brightness, avgColor)];
      jobs := jobs[1..];
    }

    /** The worker loop: runs until the jobs channel is empty. */
    method Worker()
      requires Valid() && !resultsClosed
      modifies this
      ensures Valid()
      ensures jobs == [] && results == old(results) + Processed(old(jobs))
      ensures submitted == old(submitted) && started == old(started)
      ensures jobsClosed == old(jobsClosed) && resultsClosed == old(resultsClosed)
    {
      ghost var start, results0 := jobs, results;
      ghost var done := 0;
      while jobs != []
        invariant Valid() && !resultsClosed
        invariant done <= |start| && jobs == start[done..]
        invariant results == results0 + Processed(start[..done])
        invariant submitted == old(submitted) && started == old(started)
        invariant jobsClosed == old(jobsClosed) && resultsClosed == old(resultsClosed)
        decreases |jobs|
      {
        ProcessedNext(start, done);
        WorkOne();
        done := done + 1;
      }
      assert start[..done] == start;
    }

    /** Stop closes the jobs channel, waits for the workers to drain it, then closes the results. With
        no worker started nothing drains the queue, and the pending jobs produce no result. */
    method Stop()
      requires Valid() && !jobsClosed
      modifies this
      ensures Valid() && jobsClosed && resultsClosed
      ensures started > 0 ==> jobs == [] && results == old(results) + Processed(old(jobs))
      ensures started == 0 ==> jobs == old(jobs) && results == old(results)
      ensures submitted == old(submitted) && started == old(started)
    {
      jobsClosed := true;
      if started > 0 {
        Worker();
      }
      resultsClosed := true;
    }
  }

  /** Once the pool has been stopped with workers running, every job ever submitted has produced
      exactly one result, in submission order, tagged with its cell. */
  lemma StoppedPoolConserves(submitted: seq<Job>, results: seq<CellResult>, jobs: seq<Job>)
    requires |results| <= |submitted| && results == Processed(submitted[..|results|])
    requires jobs == submitted[|results|..] && jobs == []
    ensures results == Processed(submitted)
    ensures |results| == |submitted|
    ensures forall k | 0 <= k < |submitted| :: results[k].row == submitted[k].row && results[k].col == submitted[k].col
  {
    assert submitted[..|results|] == submitted;
  }
}
