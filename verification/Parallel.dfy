/**
 The parallel kernels as a state machine: each worker takes a run of consecutive iterations, and for
 each reads and writes single matrix cells through raw row addresses, interleaved by an arbitrary
 scheduler. Because workers never share a cell, every complete interleaving leaves the sequential
 result, and the number of accesses is the same for all of them.
 */
module Parallel {
  import opened Bits
  import opened Linear
  import opened Embedding
  import opened Kernel

  /**
   A worker at its `at`-th iteration gathers a column cell by cell, then overwrites it cell by cell,
   column after column.
   */
  datatype Worker =
    | Reading(at: nat, col: nat, input: Vec)
    | Writing(at: nat, col: nat, input: Vec, next: nat)

  datatype Machine = Machine(memory: Mat, workers: seq<Worker>)

  /**
   The job: a gate on target bits of a matrix with `2^n` rows of length `q`, shared by `count` workers
   of `chunk` iterations each.
   */
  datatype Job = Job(gate: Mat, bits: seq<nat>, n: nat, q: nat, chunk: nat, count: nat) {
    predicate Valid() {
      && Targets(bits, n) && |bits| <= n && |gate| == Pow2(|bits|) && Shape(gate, Pow2(|bits|))
      && chunk > 0 && chunk * count == Pow2(n - |bits|)
    }

    /** The `p`-th iteration of worker `i`. */
    function Iter(i: nat, p: nat): (x: nat)
      requires Valid() && i < count && p < chunk
      ensures x < Pow2(n - |bits|)
    {
      InChunk(i, p, chunk, count);
      i * chunk + p
    }

    /** The accesses that one iteration takes. */
    function Accesses(): nat {
      2 * |gate| * q
    }
  }

  lemma InChunk(i: nat, p: nat, chunk: nat, count: nat)
    requires i < count && p < chunk
    ensures 0 <= i * chunk + p < chunk * count
  {
    assert (i + 1) * chunk <= count * chunk;
    assert (i + 1) * chunk == i * chunk + chunk;
    assert i * chunk >= 0;
  }

  /** An iteration of one chunk comes before every later chunk. */
  lemma ChunkBelow(i: nat, p: nat, j: nat, chunk: nat)
    requires i < j && p < chunk
    ensures i * chunk + p < j * chunk
  {
    assert (i + 1) * chunk <= j * chunk;
    assert (i + 1) * chunk == i * chunk + chunk;
  }

  lemma ChunksDiffer(i: nat, p: nat, j: nat, r: nat, chunk: nat)
    requires p < chunk && r < chunk && i * chunk + p == j * chunk + r
    ensures i == j && p == r
  {
    if i < j {
      ChunkBelow(i, p, j, chunk);
    } else if j < i {
      ChunkBelow(j, r, i, chunk);
    }
  }

  lemma ChunksCover(x: nat, chunk: nat, count: nat) returns (i: nat, p: nat)
    requires chunk > 0 && x < chunk * count
    ensures i < count && p < chunk && i * chunk + p == x
  {
    i, p := x / chunk, x % chunk;
    assert x == chunk * i + p;
    assert chunk * i < chunk * count;
  }

  predicate Finished(w: Worker, job: Job) {
    w.Reading? && (w.at >= job.chunk || job.q == 0)
  }

  predicate WorkerValid(w: Worker, job: Job)
    requires job.Valid()
  {
    match w
    case Reading(at, col, input) => |input| < |job.gate| && (job.q > 0 ==> col < job.q) && (at >= job.chunk ==> input == [] && col == 0)
    case Writing(at, col, input, next) => at < job.chunk && col < job.q && |input| == |job.gate| && next < |job.gate|
  }

  predicate MachineValid(s: Machine, job: Job)
    requires job.Valid()
  {
    && |s.memory| == Pow2(job.n) && Shape(s.memory, job.q)
    && |s.workers| == job.count
    && forall i | 0 <= i < |s.workers| :: WorkerValid(s.workers[i], job)
  }

  /** The cell a worker accesses next. */
  function Access(w: Worker, job: Job, i: nat): (cell: (nat, nat))
    requires job.Valid() && WorkerValid(w, job) && !Finished(w, job) && i < job.count
    ensures cell.0 < Pow2(job.n) && cell.1 < job.q
  {
    var g := if w.Reading? then |w.input| else w.next;
    RowBelow(job.Iter(i, w.at), g, job.bits, job.n);
    (Row(job.Iter(i, w.at), g, job.bits), w.col)
  }

  /** The next column of the same iteration, or the first column of the next iteration. */
  function NextColumn(at: nat, col: nat, job: Job): Worker {
    if col + 1 < job.q then Reading(at, col + 1, []) else Reading(at + 1, 0, [])
  }

  /** One memory access by worker `i`; a finished worker does nothing. */
  function Step(s: Machine, job: Job, i: nat): (t: Machine)
    requires job.Valid() && MachineValid(s, job) && i < |s.workers|
    ensures MachineValid(t, job)
  {
    var w := s.workers[i];
    if Finished(w, job) then s
    else
      var (r, c) := Access(w, job, i);
      match w
      case Reading(at, col, input) =>
        var input' := input + [s.memory[r][c]];
        var w' := if |input'| == |job.gate| then Writing(at, col, input', 0) else Reading(at, col, input');
        s.(workers := s.workers[i := w'])
      case Writing(at, col, input, next) =>
        var w' := if next + 1 == |job.gate| then NextColumn(at, col, job) else Writing(at, col, input, next + 1);
        Machine(s.memory[r := s.memory[r][c := Dot(job.gate[next], input, |input|)]], s.workers[i := w'])
  }

  /** The machine after a schedule, which names the worker of each access. */
  function Run(s: Machine, job: Job, schedule: seq<nat>): (t: Machine)
    requires job.Valid() && MachineValid(s, job) && Below(schedule, |s.workers|)
    ensures MachineValid(t, job) && |t.workers| == |s.workers|
    decreases |schedule|
  {
    if schedule == [] then s
    else Step(Run(s, job, schedule[..|schedule| - 1]), job, schedule[|schedule| - 1])
  }

  function Start(m: Mat, job: Job): (s: Machine)
    requires job.Valid() && |m| == Pow2(job.n) && Shape(m, job.q)
    ensures MachineValid(s, job)
  {
    Machine(m, seq(job.count, _ => Reading(0, 0, [])))
  }

  // ---- the invariant ------------------------------------------------------------------------------

  /** Whether worker `w` has already overwritten row `g` of its `p`-th iteration in column `c`. */
  predicate Written(w: Worker, p: nat, g: nat, c: nat) {
    p < w.at || (p == w.at && (c < w.col || (c == w.col && w.Writing? && g < w.next)))
  }

  /** The rows of iteration `x` hold results where the worker has written and the original entries elsewhere. */
  ghost predicate RowsOwned(memory: Mat, w: Worker, p: nat, x: nat, job: Job, m: Mat)
    requires job.Valid() && x < Pow2(job.n - |job.bits|)
    requires |memory| == |m| == Pow2(job.n) && Shape(memory, job.q) && Shape(m, job.q)
  {
    var rows := RowsOf(x, job.bits, job.n);
    forall g: nat, c: nat | g < |rows| && c < job.q ::
      memory[rows[g]][c] == if Written(w, p, g, c) then Embedded(job.gate, job.bits, m, job.n, job.q)[rows[g]][c] else m[rows[g]][c]
  }

  /** What the worker has read of its current column is original. */
  ghost predicate InputOriginal(w: Worker, x: nat, job: Job, m: Mat)
    requires job.Valid() && WorkerValid(w, job) && x < Pow2(job.n - |job.bits|)
    requires |m| == Pow2(job.n) && Shape(m, job.q)
  {
    var rows := RowsOf(x, job.bits, job.n);
    forall h: nat | h < |w.input| && w.col < job.q :: w.input[h] == m[rows[h]][w.col]
  }

  ghost predicate Owned(memory: Mat, w: Worker, i: nat, job: Job, m: Mat)
    requires job.Valid() && WorkerValid(w, job) && i < job.count
    requires |memory| == |m| == Pow2(job.n) && Shape(memory, job.q) && Shape(m, job.q)
  {
    && (forall p: nat | p < job.chunk :: RowsOwned(memory, w, p, job.Iter(i, p), job, m))
    && (w.at < job.chunk ==> InputOriginal(w, job.Iter(i, w.at), job, m))
  }

  ghost predicate Consistent(s: Machine, job: Job, m: Mat)
    requires job.Valid() && MachineValid(s, job) && |m| == Pow2(job.n) && Shape(m, job.q)
  {
    forall i: nat | i < |s.workers| :: Owned(s.memory, s.workers[i], i, job, m)
  }

  /** Two workers never address the same cell. */
  lemma NoSharedCell(s: Machine, job: Job, i: nat, j: nat)
    requires job.Valid() && MachineValid(s, job) && i < |s.workers| && j < |s.workers| && i != j
    requires !Finished(s.workers[i], job) && !Finished(s.workers[j], job)
    ensures Access(s.workers[i], job, i).0 != Access(s.workers[j], job, j).0
  {
    hide Row, Pow2;
    var v, w := s.workers[i], s.workers[j];
    var g, h := if v.Reading? then |v.input| else v.next, if w.Reading? then |w.input| else w.next;
    var x, y := job.Iter(i, v.at), job.Iter(j, w.at);
    if Row(x, g, job.bits) == Row(y, h, job.bits) {
      RowsAreDisjoint(x, g, y, h, job.bits, job.n);
      ChunksDiffer(i, v.at, j, w.at, job.chunk);
    }
  }

  /** An access leaves the rows of every other iteration alone. */
  lemma StepElsewhere(s: Machine, job: Job, i: nat, x: nat)
    requires job.Valid() && MachineValid(s, job) && i < |s.workers| && x < Pow2(job.n - |job.bits|)
    requires !Finished(s.workers[i], job) ==> x != job.Iter(i, s.workers[i].at)
    ensures forall g: nat | g < Pow2(|job.bits|) ::
              RowsOf(x, job.bits, job.n)[g] < Pow2(job.n) && Step(s, job, i).memory[RowsOf(x, job.bits, job.n)[g]] == s.memory[RowsOf(x, job.bits, job.n)[g]]
  {
    hide Row, Pow2, Dot, NextColumn;
    var w := s.workers[i];
    var rows := RowsOf(x, job.bits, job.n);
    forall g: nat | g < Pow2(|job.bits|)
      ensures rows[g] < Pow2(job.n) && Step(s, job, i).memory[rows[g]] == s.memory[rows[g]]
    {
      if !Finished(w, job) && w.Writing? && rows[g] == Row(job.Iter(i, w.at), w.next, job.bits) {
        RowsAreDisjoint(job.Iter(i, w.at), w.next, x, g, job.bits, job.n);
      }
    }
  }

  lemma RowsOwnedMove(memory: Mat, memory': Mat, w: Worker, w': Worker, p: nat, x: nat, job: Job, m: Mat)
    requires job.Valid() && x < Pow2(job.n - |job.bits|)
    requires |memory| == |memory'| == |m| == Pow2(job.n) && Shape(memory, job.q) && Shape(memory', job.q) && Shape(m, job.q)
    requires forall g: nat | g < Pow2(|job.bits|) :: memory'[RowsOf(x, job.bits, job.n)[g]] == memory[RowsOf(x, job.bits, job.n)[g]]
    requires forall g: nat, c: nat | g < Pow2(|job.bits|) && c < job.q :: Written(w', p, g, c) <==> Written(w, p, g, c)
    requires RowsOwned(memory, w, p, x, job, m)
    ensures RowsOwned(memory', w', p, x, job, m)
  {
    hide Embedded, Row, Pow2, Written;
  }

  /** An access keeps the stepping worker's part of the invariant. */
  lemma StepKeepsOwn(s: Machine, job: Job, m: Mat, i: nat)
    requires job.Valid() && MachineValid(s, job) && |m| == Pow2(job.n) && Shape(m, job.q) && i < |s.workers|
    requires Owned(s.memory, s.workers[i], i, job, m)
    ensures var t := Step(s, job, i); Owned(t.memory, t.workers[i], i, job, m)
  {
    hide Row, Pow2, Embedded, Dot, Plus, Times, RowsOwned, Written, Step, InputOriginal, job.Iter;
    var w, t := s.workers[i], Step(s, job, i);
    if Finished(w, job) {
      assert t == s by { FinishedStays(s, job, i); }
    } else {
      var w' := t.workers[i];
      CurrentKept(s, job, m, i);
      forall p: nat | p < job.chunk && p != w.at
        ensures RowsOwned(t.memory, w', p, job.Iter(i, p), job, m)
      {
        DifferentIters(job, i, p, w.at);
        StepElsewhere(s, job, i, job.Iter(i, p));
        OthersWritten(s, job, i, p);
        RowsOwnedMove(s.memory, t.memory, w, w', p, job.Iter(i, p), job, m);
      }
    }
  }

  lemma FinishedStays(s: Machine, job: Job, i: nat)
    requires job.Valid() && MachineValid(s, job) && i < |s.workers| && Finished(s.workers[i], job)
    ensures Step(s, job, i) == s
  {
  }

  lemma DifferentIters(job: Job, i: nat, p: nat, r: nat)
    requires job.Valid() && i < job.count && p < job.chunk && r < job.chunk && p != r
    ensures job.Iter(i, p) != job.Iter(i, r)
  {
    if job.Iter(i, p) == job.Iter(i, r) {
      ChunksDiffer(i, p, i, r, job.chunk);
    }
  }

  /** An access changes only what is written of the worker's current iteration. */
  lemma OthersWritten(s: Machine, job: Job, i: nat, p: nat)
    requires job.Valid() && MachineValid(s, job) && i < |s.workers| && !Finished(s.workers[i], job) && p != s.workers[i].at
    ensures forall g: nat, c: nat | g < Pow2(|job.bits|) && c < job.q ::
              Written(Step(s, job, i).workers[i], p, g, c) <==> Written(s.workers[i], p, g, c)
  {
    hide Row, Pow2, Dot, job.Iter;
  }

  /** The rows of the current iteration, and what is read of it, after an access. */
  lemma CurrentKept(s: Machine, job: Job, m: Mat, i: nat)
    requires job.Valid() && MachineValid(s, job) && |m| == Pow2(job.n) && Shape(m, job.q) && i < |s.workers|
    requires !Finished(s.workers[i], job) && Owned(s.memory, s.workers[i], i, job, m)
    ensures var w, t := s.workers[i], Step(s, job, i);
            && RowsOwned(t.memory, t.workers[i], w.at, job.Iter(i, w.at), job, m)
            && (t.workers[i].at < job.chunk ==> InputOriginal(t.workers[i], job.Iter(i, t.workers[i].at), job, m))
  {
    hide Row, Pow2, Embedded, Dot, Plus, Times, job.Iter;
    var w, t := s.workers[i], Step(s, job, i);
    var x := job.Iter(i, w.at);
    var rows := RowsOf(x, job.bits, job.n);
    RowsDistinct(x, job.bits, job.n);
    assert RowsOwned(s.memory, w, w.at, x, job, m);
    if w.Writing? {
      assert w.input == Picked(m, rows, w.col);
      EmbeddedAtRow(job.gate, job.bits, m, job.n, job.q, x, w.next, w.col);
    }
  }

  /** An access by another worker touches none of worker `j`'s rows. */
  lemma StepKeepsOther(s: Machine, job: Job, m: Mat, i: nat, j: nat)
    requires job.Valid() && MachineValid(s, job) && |m| == Pow2(job.n) && Shape(m, job.q)
    requires i < |s.workers| && j < |s.workers| && i != j && Owned(s.memory, s.workers[j], j, job, m)
    ensures var t := Step(s, job, i); t.workers[j] == s.workers[j] && Owned(t.memory, t.workers[j], j, job, m)
  {
    hide Row, Pow2, Embedded, Dot, Plus, Times, Written, RowsOwned, InputOriginal, Step, job.Iter;
    var w, t := s.workers[i], Step(s, job, i);
    OtherWorkers(s, job, i, j);
    forall p: nat | p < job.chunk
      ensures RowsOwned(t.memory, s.workers[j], p, job.Iter(j, p), job, m)
    {
      if !Finished(w, job) {
        IterOfOther(job, i, w.at, j, p);
      }
      StepElsewhere(s, job, i, job.Iter(j, p));
      RowsOwnedMove(s.memory, t.memory, s.workers[j], s.workers[j], p, job.Iter(j, p), job, m);
    }
  }

  lemma OtherWorkers(s: Machine, job: Job, i: nat, j: nat)
    requires job.Valid() && MachineValid(s, job) && i < |s.workers| && j < |s.workers| && i != j
    ensures Step(s, job, i).workers[j] == s.workers[j]
  {
    hide Row, Pow2, Dot;
  }

  lemma IterOfOther(job: Job, i: nat, p: nat, j: nat, r: nat)
    requires job.Valid() && i < job.count && j < job.count && p < job.chunk && r < job.chunk && i != j
    ensures job.Iter(i, p) != job.Iter(j, r)
  {
    if job.Iter(i, p) == job.Iter(j, r) {
      ChunksDiffer(i, p, j, r, job.chunk);
    }
  }

  lemma {:induction false} RunConsistent(m: Mat, job: Job, schedule: seq<nat>)
    requires job.Valid() && |m| == Pow2(job.n) && Shape(m, job.q) && Below(schedule, job.count)
    ensures Consistent(Run(Start(m, job), job, schedule), job, m)
    decreases |schedule|
  {
    hide Row, Pow2, Embedded, Dot, Plus, Times, Step, Owned;
    if schedule == [] {
      forall i: nat | i < job.count
        ensures Owned(m, Start(m, job).workers[i], i, job, m)
      {
        StartOwned(m, job, i);
      }
    } else {
      var init, i := schedule[..|schedule| - 1], schedule[|schedule| - 1];
      RunConsistent(m, job, init);
      var s := Run(Start(m, job), job, init);
      StepKeepsOwn(s, job, m, i);
      forall j: nat | j < |s.workers| && j != i
        ensures Owned(Step(s, job, i).memory, Step(s, job, i).workers[j], j, job, m)
      {
        StepKeepsOther(s, job, m, i, j);
      }
    }
  }

  lemma StartOwned(m: Mat, job: Job, i: nat)
    requires job.Valid() && |m| == Pow2(job.n) && Shape(m, job.q) && i < job.count
    ensures Owned(m, Start(m, job).workers[i], i, job, m)
  {
    hide Row, Pow2, Embedded, job.Iter;
  }

  /**
   Whatever the interleaving of single reads and writes, when all workers have finished the matrix
   is the embedded gate applied to the original.
   */
  lemma AnyScheduleIsSequential(m: Mat, job: Job, schedule: seq<nat>)
    requires job.Valid() && |m| == Pow2(job.n) && Shape(m, job.q) && Below(schedule, job.count)
    requires forall w | w in Run(Start(m, job), job, schedule).workers :: Finished(w, job)
    ensures Run(Start(m, job), job, schedule).memory == Embedded(job.gate, job.bits, m, job.n, job.q)
  {
    hide Row, Pow2, Embedded, Dot, Plus, Times, Run, Start, Iteration, GateIndex, RowsOwned;
    RunConsistent(m, job, schedule);
    var s := Run(Start(m, job), job, schedule);
    var e := Embedded(job.gate, job.bits, m, job.n, job.q);
    forall r: nat | r < Pow2(job.n)
      ensures s.memory[r] == e[r]
    {
      RowsCover(r, job.bits, job.n);
      var x, g := Iteration(r, job.bits), GateIndex(r, job.bits);
      var i, p := ChunksCover(x, job.chunk, job.count);
      assert s.workers[i] in s.workers;
      assert Owned(s.memory, s.workers[i], i, job, m);
      assert RowsOwned(s.memory, s.workers[i], p, job.Iter(i, p), job, m);
      FinishedRow(s.memory, s.workers[i], p, x, g, job, m);
    }
    assert s.memory == e;
  }

  lemma FinishedRow(memory: Mat, w: Worker, p: nat, x: nat, g: nat, job: Job, m: Mat)
    requires job.Valid() && WorkerValid(w, job) && Finished(w, job) && p < job.chunk && x < Pow2(job.n - |job.bits|) && g < Pow2(|job.bits|)
    requires |memory| == |m| == Pow2(job.n) && Shape(memory, job.q) && Shape(m, job.q)
    requires RowsOwned(memory, w, p, x, job, m)
    ensures Row(x, g, job.bits) < Pow2(job.n)
    ensures memory[Row(x, g, job.bits)] == Embedded(job.gate, job.bits, m, job.n, job.q)[Row(x, g, job.bits)]
  {
    hide Row, Pow2, Embedded;
    assert RowsOf(x, job.bits, job.n)[g] == Row(x, g, job.bits);
  }

  // ---- progress -----------------------------------------------------------------------------------

  /** The accesses a worker has made in its current iteration. */
  function Made(w: Worker, job: Job): nat {
    2 * |job.gate| * w.col + if w.Reading? then |w.input| else |job.gate| + w.next
  }

  /** The accesses a worker still has to make. */
  function Remaining(w: Worker, job: Job): int
    requires job.Valid() && WorkerValid(w, job)
  {
    if Finished(w, job) then 0 else job.Accesses() * (job.chunk - w.at) - Made(w, job)
  }

  lemma RemainingPositive(w: Worker, job: Job)
    requires job.Valid() && WorkerValid(w, job) && !Finished(w, job)
    ensures Remaining(w, job) > 0
  {
    hide Pow2;
    MadeIsLess(|job.gate|, job.q, w.col, if w.Reading? then |w.input| else |job.gate| + w.next, job.chunk - w.at);
  }

  lemma ProductGrows(k: nat, a: nat, b: nat)
    requires a <= b
    ensures k * a <= k * b
  {
  }

  lemma MadeIsLess(g: nat, q: nat, col: nat, inColumn: nat, left: nat)
    requires col < q && inColumn < 2 * g && left > 0
    ensures 2 * g * q * left > 2 * g * col + inColumn
  {
    var k := 2 * g;
    var all := k * q;
    ProductGrows(k, col + 1, q);
    ProductGrows(all, 1, left);
    Distributed(k, col);
  }

  lemma Distributed(k: nat, a: nat)
    ensures k * (a + 1) == k * a + k
  {
  }

  /** Every access by an unfinished worker is progress. */
  lemma StepProgresses(s: Machine, job: Job, i: nat)
    requires job.Valid() && MachineValid(s, job) && i < |s.workers| && !Finished(s.workers[i], job)
    ensures Remaining(Step(s, job, i).workers[i], job) == Remaining(s.workers[i], job) - 1
  {
    hide Row, Pow2, Dot, Plus, Times, job.Iter;
    var w, w' := s.workers[i], Step(s, job, i).workers[i];
    var k := job.Accesses();
    assert 2 * |job.gate| * (w.col + 1) == 2 * |job.gate| * w.col + 2 * |job.gate|;
    assert k * (job.chunk - w.at - 1) == k * (job.chunk - w.at) - k;
    if w.Writing? && w.next + 1 == |job.gate| && w.col + 1 >= job.q {
      assert w.col + 1 == job.q && w' == Reading(w.at + 1, 0, []);
      assert Made(w', job) == 0;
      if w.at + 1 == job.chunk {
        assert k * (job.chunk - w.at) == k;
      }
    }
  }

  /** The accesses all workers from the `k`-th on still have to make. */
  function Outstanding(s: Machine, job: Job, k: nat): int
    requires job.Valid() && MachineValid(s, job) && k <= |s.workers|
    decreases |s.workers| - k
  {
    if k == |s.workers| then 0 else Remaining(s.workers[k], job) + Outstanding(s, job, k + 1)
  }

  /** How many of the scheduled accesses are by workers that have not finished. */
  function Useful(s: Machine, job: Job, schedule: seq<nat>): nat
    requires job.Valid() && MachineValid(s, job) && Below(schedule, |s.workers|)
    decreases |schedule|
  {
    if schedule == [] then 0
    else
      var init, i := schedule[..|schedule| - 1], schedule[|schedule| - 1];
      Useful(s, job, init) + if Finished(Run(s, job, init).workers[i], job) then 0 else 1
  }

  lemma {:induction false} OutstandingSteps(s: Machine, job: Job, i: nat, k: nat)
    requires job.Valid() && MachineValid(s, job) && i < |s.workers| && k <= |s.workers| && !Finished(s.workers[i], job)
    ensures Outstanding(Step(s, job, i), job, k) == Outstanding(s, job, k) - if k <= i then 1 else 0
    decreases |s.workers| - k
  {
    hide Remaining, Step;
    if k < |s.workers| {
      OutstandingSteps(s, job, i, k + 1);
      if k == i {
        StepProgresses(s, job, i);
      } else {
        OtherWorkers(s, job, i, k);
      }
    }
  }

  lemma {:induction false} NothingOutstanding(s: Machine, job: Job, k: nat)
    requires job.Valid() && MachineValid(s, job) && k <= |s.workers|
    ensures Outstanding(s, job, k) >= 0
    ensures Outstanding(s, job, k) == 0 <==> forall i | k <= i < |s.workers| :: Finished(s.workers[i], job)
    decreases |s.workers| - k
  {
    hide Remaining, Finished;
    if k < |s.workers| {
      NothingOutstanding(s, job, k + 1);
      if Finished(s.workers[k], job) {
        NoneRemaining(s.workers[k], job);
      } else {
        RemainingPositive(s.workers[k], job);
      }
    }
  }

  lemma NoneRemaining(w: Worker, job: Job)
    requires job.Valid() && WorkerValid(w, job) && Finished(w, job)
    ensures Remaining(w, job) == 0
  {
  }

  lemma {:induction false} AccessesAddUp(s: Machine, job: Job, schedule: seq<nat>)
    requires job.Valid() && MachineValid(s, job) && Below(schedule, |s.workers|)
    ensures Useful(s, job, schedule) + Outstanding(Run(s, job, schedule), job, 0) == Outstanding(s, job, 0)
    decreases |schedule|
  {
    hide Step, Finished, Outstanding;
    if schedule != [] {
      var init, i := schedule[..|schedule| - 1], schedule[|schedule| - 1];
      AccessesAddUp(s, job, init);
      var t := Run(s, job, init);
      if Finished(t.workers[i], job) {
        FinishedStays(t, job, i);
      } else {
        OutstandingSteps(t, job, i, 0);
      }
    }
  }

  lemma {:induction false} Pow2Sum(a: nat, b: nat)
    ensures Pow2(a) * Pow2(b) == Pow2(a + b)
    decreases a
  {
    if a > 0 {
      Pow2Sum(a - 1, b);
      assert Pow2(a) == 2 * Pow2(a - 1) && Pow2(a + b) == 2 * Pow2(a - 1 + b);
      assert 2 * Pow2(a - 1) * Pow2(b) == 2 * (Pow2(a - 1) * Pow2(b));
    }
  }

  lemma {:induction false} OutstandingAtStart(m: Mat, job: Job, k: nat)
    requires job.Valid() && |m| == Pow2(job.n) && Shape(m, job.q) && k <= job.count
    ensures Outstanding(Start(m, job), job, k) == job.Accesses() * job.chunk * (job.count - k)
    decreases job.count - k
  {
    hide Pow2;
    if k < job.count {
      OutstandingAtStart(m, job, k + 1);
      var each := job.Accesses() * job.chunk;
      assert Remaining(Start(m, job).workers[k], job) == each by {
        if job.q == 0 {
          assert job.Accesses() == 0;
        }
      }
      assert each * (job.count - k) == each * (job.count - k - 1) + each;
    }
  }

  lemma StartTotal(m: Mat, job: Job)
    requires job.Valid() && |m| == Pow2(job.n) && Shape(m, job.q)
    ensures Outstanding(Start(m, job), job, 0) == 2 * |m| * job.q
  {
    hide Pow2, Start, Outstanding;
    OutstandingAtStart(m, job, 0);
    var g, q, c, k := |job.gate|, job.q, job.chunk, job.count;
    Pow2Sum(|job.bits|, job.n - |job.bits|);
    assert g * (c * k) == |m|;
    assert 2 * g * q * c * k == 2 * q * (g * (c * k)) by { Reorder(g, q, c, k); }
    assert 2 * q * |m| == 2 * |m| * q;
  }

  lemma Reorder(g: nat, q: nat, c: nat, k: nat)
    ensures 2 * g * q * c * k == 2 * q * (g * (c * k))
  {
    assert 2 * g * q * c * k == (2 * g * q) * (c * k);
    assert (2 * g * q) * (c * k) == (2 * q) * g * (c * k);
    assert (2 * q) * g * (c * k) == 2 * q * (g * (c * k));
  }

  /**
   No schedule makes more than `2 * dim * q` accesses, however long it is, and all workers have
   finished exactly when it has made that many.
   */
  lemma ScheduleIsBounded(m: Mat, job: Job, schedule: seq<nat>)
    requires job.Valid() && |m| == Pow2(job.n) && Shape(m, job.q) && Below(schedule, job.count)
    ensures Useful(Start(m, job), job, schedule) <= 2 * |m| * job.q
    ensures Useful(Start(m, job), job, schedule) == 2 * |m| * job.q
       <==> forall w | w in Run(Start(m, job), job, schedule).workers :: Finished(w, job)
  {
    hide Pow2, Run, Start, Useful, Outstanding, Finished;
    StartTotal(m, job);
    AccessesAddUp(Start(m, job), job, schedule);
    NothingOutstanding(Run(Start(m, job), job, schedule), job, 0);
  }

  // ---- the three kernels ----------------------------------------------------------------------------

  /** The general and the two-qubit kernel give every worker one iteration. */
  function OneEach(gate: Mat, bits: seq<nat>, n: nat, q: nat): Job
    requires |bits| <= n
  {
    Job(gate, bits, n, q, 1, Pow2(n - |bits|))
  }

  lemma OneEachIsJob(gate: Mat, bits: seq<nat>, n: nat, q: nat)
    requires Targets(bits, n) && |bits| <= n && |gate| == Pow2(|bits|) && Shape(gate, Pow2(|bits|))
    ensures OneEach(gate, bits, n, q).Valid()
    ensures forall x: nat | x < Pow2(n - |bits|) :: OneEach(gate, bits, n, q).Iter(x, 0) == x
  {
    hide Pow2;
  }

  /** The one-qubit kernel gives a worker a block of `2^bit` iterations. */
  function Blocks(gate: Mat, bit: nat, n: nat, q: nat): Job
    requires bit < n
  {
    Job(gate, [bit], n, q, Pow2(bit), Pow2(n - 1 - bit))
  }

  /**
   Worker `b` of the one-qubit kernel starts at row `2 b 2^bit`; its `j`-th iteration pairs the rows `j`
   and `j + 2^bit` from there.
   */
  lemma BlocksAreJobs(gate: Mat, bit: nat, n: nat, q: nat)
    requires bit < n && |gate| == 2 && Shape(gate, 2)
    ensures Blocks(gate, bit, n, q).Valid()
    ensures forall b: nat, j: nat | b < Pow2(n - 1 - bit) && j < Pow2(bit) ::
              var x := Blocks(gate, bit, n, q).Iter(b, j);
              Row(x, 0, [bit]) == 2 * Pow2(bit) * b + j && Row(x, 1, [bit]) == 2 * Pow2(bit) * b + j + Pow2(bit)
  {
    hide Row;
    Pow2Sum(bit, n - 1 - bit);
    assert Pow2(1) == 2 && |[bit]| == 1;
    var job := Blocks(gate, bit, n, q);
    forall b: nat, j: nat | b < Pow2(n - 1 - bit) && j < Pow2(bit)
      ensures Row(job.Iter(b, j), 0, [bit]) == 2 * Pow2(bit) * b + j && Row(job.Iter(b, j), 1, [bit]) == 2 * Pow2(bit) * b + j + Pow2(bit)
    {
      BlockRows(b, j, bit);
      assert b * Pow2(bit) == Pow2(bit) * b;
      assert 2 * (Pow2(bit) * b) == 2 * Pow2(bit) * b;
    }
  }
}
