/** The worker pool as a state machine: one dispatcher, `n` workers, capacity-1 start
    channels, a wait group and task fields shared without locks. Every interleaving of
    single reads, writes and channel operations is a run. */
module Pool {
  import opened Partition

  const GEMV_FIELDS: nat := 7   // q8k, y, weight, x, rows, cols, qtype
  const ATTN_FIELDS: nat := 9   // cache, layer, pos, scale, heads, qPerKV, headDim, q, out

  /** One dispatch: the values the dispatcher stores into the shared fields. */
  datatype Task<F> = Task(attn: bool, fields: seq<F>)

  ghost predicate ValidTask<F>(t: Task<F>) {
    |t.fields| == if t.attn then ATTN_FIELDS else GEMV_FIELDS
  }

  /** What a task means: how many rows or heads it has, and the output of each. */
  datatype Job<!F, T> = Job(units: (bool, seq<F>) -> nat, value: (bool, seq<F>, nat) -> T)

  datatype Main =
    | Idle
    | Writing(k: nat)        // storing task field k
    | Adding                 // doneWg.Add(n)
    | Sending(i: nat)        // startChans[i] <- struct{}{}
    | Blocked                // doneWg.Wait()
    | Clearing               // attnMode = false

  datatype Worker =
    | Waiting                // at the select
    | Started                // received a start, has not read the mode yet
    | Running(attn: bool, next: nat)

  datatype Run<F> = Run(dispatch: nat, worker: nat, task: Task<F>)

  datatype State<F(==), T> = State(
    main: Main, chan: seq<bool>, workers: seq<Worker>, wg: int,
    gemv: seq<F>, attn: seq<F>, attnMode: bool,
    // history: the tasks issued, who finished the latest one, what was written and run
    issued: seq<Task<F>>, finished: set<nat>, out: map<nat, T>, runs: multiset<Run<F>>)

  datatype Step<F> =
    | Begin(task: Task<F>) | WriteField | AddWorkers | Send | AwaitDone | ClearMode
    | Receive(w: nat) | Enter(w: nat) | Compute(w: nat) | Finish(w: nat)

  // ----- the machine -----

  function Fields<F(==), T>(s: State<F, T>, attn: bool): seq<F> {
    if attn then s.attn else s.gemv
  }

  /** Number of stores before the wait group is raised; attention also sets the mode. */
  function Writes(attn: bool): nat {
    if attn then ATTN_FIELDS + 1 else GEMV_FIELDS
  }

  function RangeStart<F(==), T>(job: Job<F, T>, n: nat, attn: bool, fields: seq<F>, w: nat): nat
    requires n > 0
  {
    Boundary(job.units(attn, fields), n, w)
  }

  ghost predicate Init<F, T>(n: nat, s: State<F, T>) {
    && n > 0 && s.main == Idle && |s.chan| == |s.workers| == n && s.wg == 0
    && |s.gemv| == GEMV_FIELDS && |s.attn| == ATTN_FIELDS && !s.attnMode
    && (forall j :: 0 <= j < n ==> !s.chan[j] && s.workers[j] == Waiting)
    && s.issued == [] && s.finished == {} && s.out == map[] && s.runs == multiset{}
  }

  ghost predicate Shape<F, T>(n: nat, s: State<F, T>) {
    && n > 0 && |s.chan| == |s.workers| == n
    && |s.gemv| == GEMV_FIELDS && |s.attn| == ATTN_FIELDS
    && (s.main.Sending? ==> s.main.i < n)
    && (s.main != Idle ==> s.issued != [])
    && (s.issued != [] ==> ValidTask(s.issued[|s.issued| - 1]))
    && (s.main.Writing? ==> s.main.k < Writes(s.issued[|s.issued| - 1].attn))
  }

  function Current<F(==), T>(s: State<F, T>): Task<F>
    requires s.issued != []
  {
    s.issued[|s.issued| - 1]
  }

  ghost predicate Enabled<F, T>(job: Job<F, T>, n: nat, s: State<F, T>, step: Step<F>)
    requires Shape(n, s)
  {
    match step
    case Begin(task) => s.main == Idle && ValidTask(task)
    case WriteField => s.main.Writing?
    case AddWorkers => s.main == Adding
    case Send => s.main.Sending? && !s.chan[s.main.i]
    case AwaitDone => s.main == Blocked && s.wg == 0
    case ClearMode => s.main == Clearing
    case Receive(w) => w < n && s.workers[w] == Waiting && s.chan[w]
    case Enter(w) => w < n && s.workers[w] == Started
    case Compute(w) =>
      && w < n && s.workers[w].Running?
      && s.workers[w].next < RangeStart(job, n, s.workers[w].attn, Fields(s, s.workers[w].attn), w + 1)
    case Finish(w) =>
      && w < n && s.workers[w].Running? && s.issued != []
      && RangeStart(job, n, s.workers[w].attn, Fields(s, s.workers[w].attn), w + 1) <= s.workers[w].next
  }

  /** One atomic step. A worker re-reads the shared fields at every step. */
  ghost function Apply<F, T>(job: Job<F, T>, n: nat, s: State<F, T>, step: Step<F>): State<F, T>
    requires Shape(n, s) && Enabled(job, n, s, step)
  {
    match step
    case Begin(task) => s.(main := Writing(0), issued := s.issued + [task], finished := {}, out := map[])
    case WriteField => StoreField(s, n)
    case AddWorkers => s.(wg := s.wg + n, main := Sending(0))
    case Send => s.(chan := s.chan[s.main.i := true], main := if s.main.i + 1 < n then Sending(s.main.i + 1) else Blocked)
    case AwaitDone => s.(main := if Current(s).attn then Clearing else Idle)
    case ClearMode => s.(attnMode := false, main := Idle)
    case Receive(w) => s.(chan := s.chan[w := false], workers := s.workers[w := Started])
    case Enter(w) => s.(workers := s.workers[w := Running(s.attnMode, RangeStart(job, n, s.attnMode, Fields(s, s.attnMode), w))])
    case Compute(w) =>
      var m, r := s.workers[w].attn, s.workers[w].next;
      s.(out := s.out[r := job.value(m, Fields(s, m), r)], workers := s.workers[w := Running(m, r + 1)])
    case Finish(w) =>
      var m := s.workers[w].attn;
      s.(workers := s.workers[w := Waiting], wg := s.wg - 1, finished := s.finished + {w},
         runs := s.runs + multiset{Run(|s.issued| - 1, w, Task(m, Fields(s, m)))})
  }

  ghost function StoreField<F, T>(s: State<F, T>, n: nat): State<F, T>
    requires Shape(n, s) && s.main.Writing?
  {
    var k, t := s.main.k, Current(s);
    var main := if k + 1 < Writes(t.attn) then Writing(k + 1) else Adding;
    if !t.attn then s.(gemv := s.gemv[k := t.fields[k]], main := main)
    else if k < ATTN_FIELDS then s.(attn := s.attn[k := t.fields[k]], main := main)
    else s.(attnMode := true, main := main)
  }

  // ----- the invariant -----

  ghost predicate Quiet<F, T>(s: State<F, T>, j: nat)
    requires j < |s.chan| == |s.workers|
  {
    !s.chan[j] && s.workers[j] == Waiting
  }

  /** Has a pending start or is still running. */
  ghost predicate Active<F, T>(s: State<F, T>, j: nat)
    requires j < |s.chan| == |s.workers|
  {
    s.chan[j] || s.workers[j] != Waiting
  }

  function Unsent(n: nat, main: Main): nat {
    match main
    case Idle => n
    case Writing(_) => 0
    case Adding => 0
    case Sending(i) => i
    case Blocked => n
    case Clearing => n
  }

  /** Where worker `j` stands in the latest dispatch: not yet sent, active, or finished. */
  ghost predicate WorkerOk<F, T>(n: nat, s: State<F, T>, j: nat)
    requires Shape(n, s) && j < n
  {
    && !(s.chan[j] && s.workers[j] != Waiting)
    && (j in s.finished ==> Quiet(s, j))
    && (s.issued == [] ==> Quiet(s, j) && j !in s.finished)
    && (s.issued != [] && j !in s.finished ==> (Active(s, j) <==> j < Unsent(n, s.main)))
    && (s.main.Writing? || s.main == Adding ==> j !in s.finished)
    && (s.main == Clearing || (s.main == Idle && s.issued != []) ==> j in s.finished)
    && (s.main.Sending? && s.main.i <= j ==> j !in s.finished)
  }

  ghost predicate Phases<F, T>(n: nat, s: State<F, T>)
    requires Shape(n, s)
  {
    && (forall j :: j in s.finished ==> 0 <= j < n)
    && (forall j: nat :: j < n ==> WorkerOk(n, s, j))
  }

  /** The wait group counts the workers that have not finished the dispatch. */
  ghost predicate Counted<F, T>(n: nat, s: State<F, T>) {
    s.wg == if s.main.Sending? || s.main == Blocked then n - |s.finished| else 0
  }

  /** Field `i` of the task has been stored. */
  ghost predicate Stored<F, T>(s: State<F, T>, t: Task<F>, i: nat)
    requires i < |t.fields| == |Fields(s, t.attn)|
  {
    Fields(s, t.attn)[i] == t.fields[i]
  }

  /** The shared fields hold the current task, or its first fields while it is being stored. */
  ghost predicate FieldsHold<F, T>(n: nat, s: State<F, T>)
    requires Shape(n, s)
  {
    match s.main
    case Idle => !s.attnMode
    case Writing(k) => !s.attnMode && forall i: nat :: i < k && i < |Current(s).fields| ==> Stored(s, Current(s), i)
    case _ => s.attnMode == Current(s).attn && Fields(s, Current(s).attn) == Current(s).fields
  }

  /** Worker `j` has produced its units up to here. */
  ghost function Reached<F, T>(job: Job<F, T>, n: nat, s: State<F, T>, t: Task<F>, j: nat): nat
    requires Shape(n, s) && j < n
  {
    if j in s.finished then RangeStart(job, n, t.attn, t.fields, j + 1)
    else if s.workers[j].Running? then s.workers[j].next
    else RangeStart(job, n, t.attn, t.fields, j)
  }

  ghost predicate WorkerOut<F, T>(job: Job<F, T>, n: nat, s: State<F, T>, t: Task<F>, j: nat)
    requires Shape(n, s) && j < n
  {
    && (s.workers[j].Running? ==>
      && s.workers[j].attn == t.attn
      && RangeStart(job, n, t.attn, t.fields, j) <= s.workers[j].next <= RangeStart(job, n, t.attn, t.fields, j + 1))
    && forall r: nat :: RangeStart(job, n, t.attn, t.fields, j) <= r < Reached(job, n, s, t, j) ==> Correct(job, s, t, r)
  }

  ghost predicate Correct<F, T>(job: Job<F, T>, s: State<F, T>, t: Task<F>, r: nat) {
    r in s.out && s.out[r] == job.value(t.attn, t.fields, r)
  }

  /** Outputs written so far are those of the current task. */
  ghost predicate OutputsHold<F, T>(job: Job<F, T>, n: nat, s: State<F, T>)
    requires Shape(n, s)
  {
    s.issued != [] ==>
      && (forall j: nat :: j < n ==> WorkerOut(job, n, s, Current(s), j))
      && (forall r: nat :: r in s.out ==> r < job.units(Current(s).attn, Current(s).fields))
  }

  /** Dispatch `e.dispatch` has been run by worker `e.worker`. */
  ghost predicate HasRun<F, T>(n: nat, s: State<F, T>, e: Run<F>) {
    && e.worker < n && e.dispatch < |s.issued| && e.task == s.issued[e.dispatch]
    && (e.dispatch + 1 < |s.issued| || e.worker in s.finished)
  }

  /** Each worker has run each earlier dispatch exactly once, with that dispatch's fields. */
  ghost predicate RunsHold<F(!new), T>(n: nat, s: State<F, T>) {
    forall e: Run<F> :: s.runs[e] == if HasRun(n, s, e) then 1 else 0
  }

  ghost predicate Inv<F(!new), T>(job: Job<F, T>, n: nat, s: State<F, T>) {
    Shape(n, s) && Phases(n, s) && Counted(n, s) && FieldsHold(n, s) && OutputsHold(job, n, s) && RunsHold(n, s)
  }

  // ----- the invariant holds in every reachable state -----

  lemma InitInv<F(!new), T>(job: Job<F, T>, n: nat, s: State<F, T>)
    requires Init(n, s)
    ensures Inv(job, n, s)
  {
  }

  lemma StepShape<F, T>(job: Job<F, T>, n: nat, s: State<F, T>, step: Step<F>)
    requires Shape(n, s) && Enabled(job, n, s, step)
    ensures Shape(n, Apply(job, n, s, step))
  {
    hide RangeStart;
  }

  lemma StepPhases<F(!new), T>(job: Job<F, T>, n: nat, s: State<F, T>, step: Step<F>)
    requires Inv(job, n, s) && Enabled(job, n, s, step)
    ensures Shape(n, Apply(job, n, s, step)) && Phases(n, Apply(job, n, s, step))
  {
    hide RangeStart, OutputsHold, RunsHold, FieldsHold, WorkerOk;
    StepShape(job, n, s, step);
    if step.AwaitDone? {
      AllFinished(n, s);
    }
    forall j: nat | j < n
      ensures WorkerOk(n, Apply(job, n, s, step), j)
    {
      assert WorkerOk(n, s, j);
      StepWorker(job, n, s, step, j);
    }
  }

  lemma StepWorker<F, T>(job: Job<F, T>, n: nat, s: State<F, T>, step: Step<F>, j: nat)
    requires Shape(n, s) && Enabled(job, n, s, step) && Shape(n, Apply(job, n, s, step)) && j < n
    requires WorkerOk(n, s, j) && (step.AwaitDone? ==> j in s.finished)
    ensures WorkerOk(n, Apply(job, n, s, step), j)
  {
    hide RangeStart, WorkerOk;
    if step.Receive? || step.Enter? || step.Compute? || step.Finish? {
      WorkerStepWorker(job, n, s, step, j);
    } else {
      MainStepWorker(job, n, s, step, j);
    }
  }

  lemma WorkerStepWorker<F, T>(job: Job<F, T>, n: nat, s: State<F, T>, step: Step<F>, j: nat)
    requires Shape(n, s) && Enabled(job, n, s, step) && Shape(n, Apply(job, n, s, step)) && j < n
    requires WorkerOk(n, s, j) && (step.Receive? || step.Enter? || step.Compute? || step.Finish?)
    ensures WorkerOk(n, Apply(job, n, s, step), j)
  {
    hide RangeStart, Fields;
  }

  lemma MainStepWorker<F, T>(job: Job<F, T>, n: nat, s: State<F, T>, step: Step<F>, j: nat)
    requires Shape(n, s) && Enabled(job, n, s, step) && Shape(n, Apply(job, n, s, step)) && j < n
    requires WorkerOk(n, s, j) && (step.AwaitDone? ==> j in s.finished)
    requires !(step.Receive? || step.Enter? || step.Compute? || step.Finish?)
    ensures WorkerOk(n, Apply(job, n, s, step), j)
  {
    hide RangeStart;
  }

  /** A wait group at zero means every worker has finished. */
  lemma AllFinished<F, T>(n: nat, s: State<F, T>)
    requires Shape(n, s) && Phases(n, s) && Counted(n, s) && s.main == Blocked && s.wg == 0
    ensures forall j :: 0 <= j < n ==> j in s.finished
  {
    FullSet(s.finished, n);
  }

  lemma {:induction false} FullSet(s: set<nat>, n: nat)
    requires |s| == n && forall j :: j in s ==> 0 <= j < n
    ensures forall j :: 0 <= j < n ==> j in s
    decreases n
  {
    if n > 0 {
      SmallSet(s - {n - 1}, n - 1);
      assert n - 1 in s;
      FullSet(s - {n - 1}, n - 1);
      forall j | 0 <= j < n
        ensures j in s
      {
        assert j == n - 1 || j in s - {n - 1};
      }
    }
  }

  lemma {:induction false} SmallSet(s: set<nat>, n: nat)
    requires forall j :: j in s ==> 0 <= j < n
    ensures |s| <= n
    decreases n
  {
    if n > 0 {
      SmallSet(s - {n - 1}, n - 1);
    } else {
      assert s == {};
    }
  }

  lemma StepCounted<F(!new), T>(job: Job<F, T>, n: nat, s: State<F, T>, step: Step<F>)
    requires Inv(job, n, s) && Enabled(job, n, s, step)
    ensures Counted(n, Apply(job, n, s, step))
  {
    hide RangeStart, OutputsHold, RunsHold, FieldsHold, WorkerOk;
    if step.Finish? {
      FinishCounted(job, n, s, step.w);
    } else if step.AddWorkers? {
      NoneFinished(n, s);
    }
  }

  lemma FinishCounted<F(!new), T>(job: Job<F, T>, n: nat, s: State<F, T>, w: nat)
    requires Shape(n, s) && Phases(n, s) && Counted(n, s) && Enabled(job, n, s, Finish(w))
    ensures Counted(n, Apply(job, n, s, Finish(w)))
  {
    hide RangeStart;
    assert WorkerOk(n, s, w) && Active(s, w);
  }

  lemma NoneFinished<F, T>(n: nat, s: State<F, T>)
    requires Shape(n, s) && Phases(n, s) && s.main == Adding
    ensures s.finished == {}
  {
    forall j: nat | j < n
      ensures j !in s.finished
    {
      assert WorkerOk(n, s, j);
    }
    assert forall j :: j in s.finished ==> 0 <= j < n;
  }

  lemma StepFields<F(!new), T>(job: Job<F, T>, n: nat, s: State<F, T>, step: Step<F>)
    requires Inv(job, n, s) && Enabled(job, n, s, step)
    ensures Shape(n, Apply(job, n, s, step)) && FieldsHold(n, Apply(job, n, s, step))
  {
    hide RangeStart, OutputsHold, RunsHold, Phases, Counted;
    StepShape(job, n, s, step);
    var s' := Apply(job, n, s, step);
    if s.main == s'.main && s.issued == s'.issued {
      SameFields(n, s, s');
    } else if step.WriteField? {
      WriteFields(n, s);
    }
  }

  lemma SameFields<F, T>(n: nat, s: State<F, T>, s': State<F, T>)
    requires Shape(n, s) && Shape(n, s') && FieldsHold(n, s)
    requires s.main == s'.main && s.issued == s'.issued
    requires s.gemv == s'.gemv && s.attn == s'.attn && s.attnMode == s'.attnMode
    ensures FieldsHold(n, s')
  {
    if s.main.Writing? {
      var t := Current(s);
      forall i: nat | i < s.main.k && i < |t.fields|
        ensures Stored(s', t, i)
      {
        assert Stored(s, t, i);
      }
    }
  }

  lemma WriteFields<F, T>(n: nat, s: State<F, T>)
    requires Shape(n, s) && FieldsHold(n, s) && s.main.Writing? && Shape(n, StoreField(s, n))
    ensures FieldsHold(n, StoreField(s, n))
  {
    var s', t := StoreField(s, n), Current(s);
    forall i: nat | i <= s.main.k && i < |t.fields|
      ensures Stored(s', t, i)
    {
      assert i < s.main.k ==> Stored(s, t, i);
    }
    if s'.main == Adding {
      forall i: nat | i < |t.fields|
        ensures Fields(s', t.attn)[i] == t.fields[i]
      {
        assert Stored(s', t, i);
      }
      assert Fields(s', t.attn) == t.fields;
    }
  }

  /** While a worker is active the dispatcher is sending or waiting, and the shared fields are the current task. */
  lemma ActiveMain<F(!new), T>(job: Job<F, T>, n: nat, s: State<F, T>, w: nat)
    requires Inv(job, n, s) && w < n && Active(s, w)
    ensures s.main.Sending? || s.main == Blocked
    ensures s.issued != [] && w !in s.finished
    ensures s.attnMode == Current(s).attn && Fields(s, Current(s).attn) == Current(s).fields
  {
    hide OutputsHold, RunsHold, Counted;
    assert WorkerOk(n, s, w);
  }

  lemma StepOutputs<F(!new), T>(job: Job<F, T>, n: nat, s: State<F, T>, step: Step<F>)
    requires Inv(job, n, s) && Enabled(job, n, s, step)
    ensures Shape(n, Apply(job, n, s, step)) && OutputsHold(job, n, Apply(job, n, s, step))
  {
    hide RangeStart, RunsHold, Counted, WorkerOut, FieldsHold, Phases;
    StepShape(job, n, s, step);
    var s' := Apply(job, n, s, step);
    if step.Begin? {
      BeginOutputs(job, n, s, step.task);
    } else if s'.issued != [] {
      var t := Current(s');
      forall j: nat | j < n
        ensures WorkerOut(job, n, s', t, j)
      {
        StepWorkerOut(job, n, s, step, j);
      }
      StepKeys(job, n, s, step);
    }
  }

  lemma BeginOutputs<F(!new), T>(job: Job<F, T>, n: nat, s: State<F, T>, task: Task<F>)
    requires Inv(job, n, s) && Enabled(job, n, s, Begin(task))
    ensures Shape(n, Apply(job, n, s, Begin(task))) && OutputsHold(job, n, Apply(job, n, s, Begin(task)))
  {
    hide RangeStart, RunsHold, Counted, FieldsHold;
    var s' := Apply(job, n, s, Begin(task));
    forall j: nat | j < n
      ensures WorkerOut(job, n, s', task, j)
    {
      assert WorkerOk(n, s, j);
    }
  }

  lemma StepWorkerOut<F(!new), T>(job: Job<F, T>, n: nat, s: State<F, T>, step: Step<F>, j: nat)
    requires Inv(job, n, s) && Enabled(job, n, s, step) && !step.Begin? && s.issued != [] && j < n
    ensures Shape(n, Apply(job, n, s, step)) && Apply(job, n, s, step).issued == s.issued
    ensures WorkerOut(job, n, Apply(job, n, s, step), Current(s), j)
  {
    hide RangeStart, RunsHold, Counted, FieldsHold, Phases, Inv, WorkerOut;
    OutOf(job, n, s, j);
    StepShape(job, n, s, step);
    if step.Compute? {
      ComputeOut(job, n, s, step.w, j);
    } else if step.Enter? || step.Finish? {
      if step.w == j {
        OwnOut(job, n, s, step, j);
      } else {
        KeepOut(job, n, s, Apply(job, n, s, step), j);
      }
    } else {
      QuietOut(job, n, s, step, j);
    }
  }

  lemma OutOf<F(!new), T>(job: Job<F, T>, n: nat, s: State<F, T>, j: nat)
    requires Inv(job, n, s) && s.issued != [] && j < n
    ensures Shape(n, s) && WorkerOut(job, n, s, Current(s), j)
    ensures s.workers[j] != Waiting ==> s.attnMode == Current(s).attn && Fields(s, Current(s).attn) == Current(s).fields && j !in s.finished
  {
    hide RangeStart, RunsHold, Counted, FieldsHold, WorkerOut;
    if s.workers[j] != Waiting {
      assert Active(s, j);
      ActiveMain(job, n, s, j);
    }
  }

  /** What matters for one worker's outputs: its own state and the outputs. */
  lemma KeepOut<F, T>(job: Job<F, T>, n: nat, s: State<F, T>, s': State<F, T>, j: nat)
    requires Shape(n, s) && Shape(n, s') && s.issued != [] && s'.issued == s.issued && j < n
    requires s'.workers[j] == s.workers[j] && s'.out == s.out && (j in s'.finished <==> j in s.finished)
    requires WorkerOut(job, n, s, Current(s), j)
    ensures WorkerOut(job, n, s', Current(s), j)
  {
    hide RangeStart, Shape;
    var t := Current(s);
    forall r: nat | RangeStart(job, n, t.attn, t.fields, j) <= r < Reached(job, n, s', t, j)
      ensures Correct(job, s', t, r)
    {
      assert Correct(job, s, t, r);
    }
  }

  lemma QuietOut<F, T>(job: Job<F, T>, n: nat, s: State<F, T>, step: Step<F>, j: nat)
    requires Shape(n, s) && Enabled(job, n, s, step) && s.issued != [] && j < n
    requires !step.Begin? && !step.Compute? && !step.Enter? && !step.Finish?
    requires Shape(n, Apply(job, n, s, step)) && WorkerOut(job, n, s, Current(s), j)
    ensures WorkerOut(job, n, Apply(job, n, s, step), Current(s), j)
  {
    hide RangeStart, WorkerOut;
    var s' := Apply(job, n, s, step);
    if step.Receive? && step.w == j {
      ReceiveOut(job, n, s, j);
    } else {
      KeepOut(job, n, s, s', j);
    }
  }

  lemma ReceiveOut<F, T>(job: Job<F, T>, n: nat, s: State<F, T>, j: nat)
    requires Shape(n, s) && Enabled(job, n, s, Receive(j)) && s.issued != [] && j < n
    requires Shape(n, Apply(job, n, s, Receive(j))) && WorkerOut(job, n, s, Current(s), j)
    ensures WorkerOut(job, n, Apply(job, n, s, Receive(j)), Current(s), j)
  {
    hide RangeStart;
    var s', t := Apply(job, n, s, Receive(j)), Current(s);
    forall r: nat | RangeStart(job, n, t.attn, t.fields, j) <= r < Reached(job, n, s', t, j)
      ensures Correct(job, s', t, r)
    {
      assert Correct(job, s, t, r);
    }
  }

  lemma OwnOut<F, T>(job: Job<F, T>, n: nat, s: State<F, T>, step: Step<F>, j: nat)
    requires Shape(n, s) && Enabled(job, n, s, step) && s.issued != [] && j < n
    requires (step.Enter? || step.Finish?) && step.w == j && j !in s.finished
    requires s.attnMode == Current(s).attn && Fields(s, Current(s).attn) == Current(s).fields
    requires Shape(n, Apply(job, n, s, step)) && WorkerOut(job, n, s, Current(s), j)
    ensures WorkerOut(job, n, Apply(job, n, s, step), Current(s), j)
  {
    hide Fields;
    var s', t := Apply(job, n, s, step), Current(s);
    RangeWithin(job.units(t.attn, t.fields), n, j);
    forall r: nat | RangeStart(job, n, t.attn, t.fields, j) <= r < Reached(job, n, s', t, j)
      ensures Correct(job, s', t, r)
    {
      assert Correct(job, s, t, r);
    }
  }

  lemma ComputeOut<F(!new), T>(job: Job<F, T>, n: nat, s: State<F, T>, w: nat, j: nat)
    requires Inv(job, n, s) && Shape(n, s) && Enabled(job, n, s, Compute(w)) && s.issued != [] && j < n
    requires Shape(n, Apply(job, n, s, Compute(w))) && WorkerOut(job, n, s, Current(s), j)
    ensures WorkerOut(job, n, Apply(job, n, s, Compute(w)), Current(s), j)
  {
    hide RangeStart, Shape, Inv, Fields, WorkerOut;
    OutOf(job, n, s, w);
    OutOf(job, n, s, j);
    ComputeKeeps(job, n, s, w, j);
  }

  lemma ComputeKeeps<F, T>(job: Job<F, T>, n: nat, s: State<F, T>, w: nat, j: nat)
    requires Shape(n, s) && Enabled(job, n, s, Compute(w)) && s.issued != [] && j < n
    requires s.attnMode == Current(s).attn && Fields(s, Current(s).attn) == Current(s).fields && w !in s.finished
    requires Shape(n, Apply(job, n, s, Compute(w)))
    requires WorkerOut(job, n, s, Current(s), j) && WorkerOut(job, n, s, Current(s), w)
    ensures WorkerOut(job, n, Apply(job, n, s, Compute(w)), Current(s), j)
  {
    hide RangeStart, Fields;
    var s', t := Apply(job, n, s, Compute(w)), Current(s);
    forall r: nat | RangeStart(job, n, t.attn, t.fields, j) <= r < Reached(job, n, s', t, j)
      ensures Correct(job, s', t, r)
    {
      if r != s.workers[w].next {
        assert Correct(job, s, t, r);
      }
    }
  }

  lemma StepKeys<F(!new), T>(job: Job<F, T>, n: nat, s: State<F, T>, step: Step<F>)
    requires Inv(job, n, s) && Enabled(job, n, s, step) && !step.Begin? && s.issued != []
    ensures forall r: nat :: r in Apply(job, n, s, step).out ==> r < job.units(Current(s).attn, Current(s).fields)
  {
    hide RunsHold, Counted, FieldsHold, WorkerOut, Phases;
    if step.Compute? {
      var t, w := Current(s), step.w;
      hide Inv;
      OutOf(job, n, s, w);
      RangeWithin(job.units(t.attn, t.fields), n, w);
      ComputeUnit(job, n, s, w);
    }
  }

  lemma ComputeUnit<F, T>(job: Job<F, T>, n: nat, s: State<F, T>, w: nat)
    requires Shape(n, s) && Enabled(job, n, s, Compute(w)) && s.issued != []
    requires Fields(s, Current(s).attn) == Current(s).fields && WorkerOut(job, n, s, Current(s), w)
    requires Boundary(job.units(Current(s).attn, Current(s).fields), n, w + 1) <= job.units(Current(s).attn, Current(s).fields)
    ensures s.workers[w].next < job.units(Current(s).attn, Current(s).fields)
  {
    hide Fields, Reached;
  }

  lemma StepRuns<F(!new), T>(job: Job<F, T>, n: nat, s: State<F, T>, step: Step<F>)
    requires Inv(job, n, s) && Enabled(job, n, s, step)
    ensures RunsHold(n, Apply(job, n, s, step))
  {
    hide RangeStart, OutputsHold, Counted, FieldsHold, Phases, HasRun;
    var s' := Apply(job, n, s, step);
    assert RunsHold(n, s) by {
      RunsOf(job, n, s);
    }
    forall e: Run<F>
      ensures s'.runs[e] == if HasRun(n, s', e) then 1 else 0
    {
      if step.Finish? {
        FinishRun(job, n, s, step.w, e);
      } else if step.Begin? {
        BeginRun(job, n, s, step.task, e);
      } else {
        SameRun(n, s, s', e);
      }
    }
  }

  lemma RunsOf<F(!new), T>(job: Job<F, T>, n: nat, s: State<F, T>)
    requires Inv(job, n, s)
    ensures RunsHold(n, s)
  {
  }

  lemma SameRun<F, T>(n: nat, s: State<F, T>, s': State<F, T>, e: Run<F>)
    requires s.issued == s'.issued && s.finished == s'.finished
    ensures HasRun(n, s, e) == HasRun(n, s', e)
  {
  }

  lemma BeginRun<F(!new), T>(job: Job<F, T>, n: nat, s: State<F, T>, task: Task<F>, e: Run<F>)
    requires Inv(job, n, s) && Enabled(job, n, s, Begin(task))
    ensures HasRun(n, Apply(job, n, s, Begin(task)), e) == HasRun(n, s, e)
  {
    hide RangeStart, OutputsHold, Counted, FieldsHold, RunsHold;
    if e.worker < n {
      assert WorkerOk(n, s, e.worker);
    }
  }

  lemma FinishRun<F(!new), T>(job: Job<F, T>, n: nat, s: State<F, T>, w: nat, e: Run<F>)
    requires Inv(job, n, s) && Enabled(job, n, s, Finish(w)) && s.runs[e] == if HasRun(n, s, e) then 1 else 0
    ensures var s' := Apply(job, n, s, Finish(w)); s'.runs[e] == if HasRun(n, s', e) then 1 else 0
  {
    hide RangeStart, OutputsHold, Counted, FieldsHold, RunsHold, Phases, Inv, Fields;
    OutOf(job, n, s, w);
    FinishMode(job, n, s, w);
  }

  lemma FinishMode<F(!new), T>(job: Job<F, T>, n: nat, s: State<F, T>, w: nat)
    requires Inv(job, n, s) && Enabled(job, n, s, Finish(w))
    ensures Shape(n, s) && Task(s.workers[w].attn, Fields(s, s.workers[w].attn)) == Current(s)
  {
    hide RangeStart, Counted, RunsHold, Phases, FieldsHold, Fields;
    OutOf(job, n, s, w);
    assert WorkerOut(job, n, s, Current(s), w);
  }

  /** Every step keeps the invariant. */
  lemma StepInv<F(!new), T>(job: Job<F, T>, n: nat, s: State<F, T>, step: Step<F>)
    requires Inv(job, n, s) && Enabled(job, n, s, step)
    ensures Inv(job, n, Apply(job, n, s, step))
  {
    hide Phases, Counted, FieldsHold, OutputsHold, RunsHold, Apply, Enabled;
    StepPhases(job, n, s, step);
    StepCounted(job, n, s, step);
    StepFields(job, n, s, step);
    StepOutputs(job, n, s, step);
    StepRuns(job, n, s, step);
  }

  // ----- runs -----

  /** A run: starts from a fresh pool, and every state follows by some enabled step. */
  ghost predicate IsRun<F(!new), T>(job: Job<F, T>, n: nat, run: seq<State<F, T>>) {
    && |run| > 0 && Init(n, run[0])
    && forall i: nat :: i + 1 < |run| ==> Next(job, n, run[i], run[i + 1])
  }

  ghost predicate Next<F(!new), T>(job: Job<F, T>, n: nat, s: State<F, T>, s': State<F, T>) {
    Shape(n, s) && exists step: Step<F> :: Enabled(job, n, s, step) && s' == Apply(job, n, s, step)
  }

  ghost predicate Reachable<F(!new), T(!new)>(job: Job<F, T>, n: nat, s: State<F, T>) {
    exists run: seq<State<F, T>> :: IsRun(job, n, run) && run[|run| - 1] == s
  }

  lemma {:induction false} RunInv<F(!new), T>(job: Job<F, T>, n: nat, run: seq<State<F, T>>, i: nat)
    requires IsRun(job, n, run) && i < |run|
    ensures Inv(job, n, run[i])
    decreases i
  {
    hide Inv, Init, Apply, Enabled;
    if i == 0 {
      InitInv(job, n, run[0]);
    } else {
      RunInv(job, n, run, i - 1);
      assert Next(job, n, run[i - 1], run[i - 1 + 1]);
      var step: Step<F> :| Enabled(job, n, run[i - 1], step) && run[i] == Apply(job, n, run[i - 1], step);
      StepInv(job, n, run[i - 1], step);
    }
  }

  lemma ReachableInv<F(!new), T(!new)>(job: Job<F, T>, n: nat, s: State<F, T>)
    requires Reachable(job, n, s)
    ensures Inv(job, n, s)
  {
    hide Inv, Init;
    var run :| IsRun(job, n, run) && run[|run| - 1] == s;
    RunInv(job, n, run, |run| - 1);
  }

  // ----- what every reachable state guarantees -----

  /** The wait group counts exactly the active workers, plus those the dispatcher has yet
      to start; outside a dispatch it is zero and nobody is active. */
  lemma WaitGroupCounts<F(!new), T(!new)>(job: Job<F, T>, n: nat, s: State<F, T>)
    requires Reachable(job, n, s)
    ensures Shape(n, s)
    ensures s.wg == |set j | 0 <= j < n && Active(s, j)| + if s.main.Sending? then n - s.main.i else 0
  {
    hide OutputsHold, RunsHold, FieldsHold, WorkerOk;
    ReachableInv(job, n, s);
    var active := set j | 0 <= j < n && Active(s, j);
    forall j: nat | j < n
      ensures Active(s, j) <==> (s.main.Sending? || s.main == Blocked) && j < Unsent(n, s.main) && j !in s.finished
    {
      ActiveWhen(n, s, j);
    }
    if s.main.Sending? || s.main == Blocked {
      var sent := UpTo(Unsent(n, s.main));
      forall j | j in s.finished
        ensures j in sent
      {
        FinishedSent(n, s, j);
      }
      assert active == sent - s.finished;
    } else {
      assert active == {};
    }
  }

  lemma ActiveWhen<F, T>(n: nat, s: State<F, T>, j: nat)
    requires Shape(n, s) && Phases(n, s) && j < n
    ensures Active(s, j) <==> (s.main.Sending? || s.main == Blocked) && j < Unsent(n, s.main) && j !in s.finished
  {
    assert WorkerOk(n, s, j);
  }

  lemma FinishedSent<F, T>(n: nat, s: State<F, T>, j: nat)
    requires Shape(n, s) && Phases(n, s) && (s.main.Sending? || s.main == Blocked) && j in s.finished
    ensures 0 <= j < Unsent(n, s.main)
  {
    assert WorkerOk(n, s, j);
  }

  ghost function UpTo(k: nat): (r: set<int>)
    ensures |r| == k && forall j :: j in r <==> 0 <= j < k
  {
    if k == 0 then {} else UpTo(k - 1) + {k - 1}
  }

  /** Task fields and the mode only change while no worker is active. */
  lemma FieldsStable<F(!new), T(!new)>(job: Job<F, T>, n: nat, s: State<F, T>, step: Step<F>, w: nat)
    requires Reachable(job, n, s) && Shape(n, s) && Enabled(job, n, s, step) && w < n && Active(s, w)
    ensures var s' := Apply(job, n, s, step); s'.gemv == s.gemv && s'.attn == s.attn && s'.attnMode == s.attnMode
    ensures s.issued != [] && s.attnMode == Current(s).attn && Fields(s, Current(s).attn) == Current(s).fields
  {
    hide Inv, Fields, RangeStart, Active;
    ReachableInv(job, n, s);
    ActiveMain(job, n, s, w);
  }

  /** A start never blocks: the channel the dispatcher is about to use is empty. */
  lemma SendReady<F(!new), T(!new)>(job: Job<F, T>, n: nat, s: State<F, T>)
    requires Reachable(job, n, s) && s.main.Sending?
    ensures Shape(n, s) && Enabled(job, n, s, Send)
  {
    ReachableInv(job, n, s);
    assert WorkerOk(n, s, s.main.i);
  }

  /** Between dispatches every worker has run every dispatch exactly once, each time with
      exactly that dispatch's fields, and nothing else was ever run. */
  lemma ExactlyOnce<F(!new), T(!new)>(job: Job<F, T>, n: nat, s: State<F, T>, e: Run<F>)
    requires Reachable(job, n, s) && s.main == Idle
    ensures s.runs[e] == if e.worker < n && e.dispatch < |s.issued| && e.task == s.issued[e.dispatch] then 1 else 0
  {
    ReachableInv(job, n, s);
    if e.worker < n {
      assert WorkerOk(n, s, e.worker);
    }
  }

  /** When a dispatch is over, each row (or head) holds its value and nothing else was
      written, in every interleaving. */
  lemma DispatchResult<F(!new), T(!new)>(job: Job<F, T>, n: nat, s: State<F, T>)
    requires Reachable(job, n, s) && s.main == Idle && s.issued != []
    ensures var t, units := Current(s), job.units(Current(s).attn, Current(s).fields);
      && (forall r: nat :: r in s.out <==> r < units)
      && (forall r: nat :: r < units ==> s.out[r] == job.value(t.attn, t.fields, r))
  {
    hide RunsHold, FieldsHold, Counted, WorkerOut;
    ReachableInv(job, n, s);
    var t, units := Current(s), job.units(Current(s).attn, Current(s).fields);
    forall r: nat | r < units
      ensures r in s.out && s.out[r] == job.value(t.attn, t.fields, r)
    {
      UniqueOwner(units, n, r);
      var w: nat :| Owns(units, n, w, r);
      assert WorkerOk(n, s, w) && WorkerOut(job, n, s, t, w);
      OwnerCorrect(job, n, s, t, w, r);
      assert Correct(job, s, t, r);
    }
  }

  lemma OwnerCorrect<F, T>(job: Job<F, T>, n: nat, s: State<F, T>, t: Task<F>, w: nat, r: nat)
    requires Shape(n, s) && w < n && Owns(job.units(t.attn, t.fields), n, w, r)
    requires w in s.finished && WorkerOut(job, n, s, t, w)
    ensures Correct(job, s, t, r)
  {
  }

  // ----- progress -----

  /** As long as a dispatch is in flight some step of it is enabled: no deadlock. */
  lemma Progress<F(!new), T(!new)>(job: Job<F, T>, n: nat, s: State<F, T>) returns (step: Step<F>)
    requires Reachable(job, n, s) && s.main != Idle
    ensures Shape(n, s) && Enabled(job, n, s, step) && !step.Begin?
  {
    hide OutputsHold, RunsHold, RangeStart, WorkerOk;
    ReachableInv(job, n, s);
    match s.main
    case Writing(_) => step := WriteField;
    case Adding => step := AddWorkers;
    case Sending(_) => SendReady(job, n, s); step := Send;
    case Clearing => step := ClearMode;
    case Blocked =>
      if s.wg == 0 {
        step := AwaitDone;
      } else {
        var w := Unfinished(n, s);
        step := WorkerStep(job, n, s, w);
      }
  }

  lemma Unfinished<F, T>(n: nat, s: State<F, T>) returns (w: nat)
    requires Shape(n, s) && Phases(n, s) && Counted(n, s) && s.main == Blocked && s.wg != 0
    ensures w < n && Active(s, w)
  {
    SmallSet(s.finished, n);
    w := Missing(s.finished, n);
    assert WorkerOk(n, s, w);
  }

  lemma {:induction false} Missing(s: set<nat>, n: nat) returns (w: nat)
    requires |s| < n && forall j :: j in s ==> 0 <= j < n
    ensures w < n && w !in s
    decreases n
  {
    if n - 1 !in s {
      w := n - 1;
    } else {
      w := Missing(s - {n - 1}, n - 1);
    }
  }

  lemma WorkerStep<F, T>(job: Job<F, T>, n: nat, s: State<F, T>, w: nat) returns (step: Step<F>)
    requires Shape(n, s) && Phases(n, s) && w < n && Active(s, w) && s.issued != []
    ensures Enabled(job, n, s, step) && !step.Begin?
  {
    hide RangeStart;
    assert WorkerOk(n, s, w);
    match s.workers[w]
    case Waiting => step := Receive(w);
    case Started => step := Enter(w);
    case Running(m, next) =>
      step := if next < RangeStart(job, n, m, Fields(s, m), w + 1) then Compute(w) else Finish(w);
  }

  // ----- a bound on the length of a dispatch -----

  /** Steps worker `j` and its start still have to take. */
  ghost function WorkerWork<F, T>(job: Job<F, T>, n: nat, s: State<F, T>, t: Task<F>, j: nat): int
    requires Shape(n, s) && j < n
  {
    var lo, hi := RangeStart(job, n, t.attn, t.fields, j), RangeStart(job, n, t.attn, t.fields, j + 1);
    if j in s.finished then 0
    else if s.workers[j].Running? then hi - s.workers[j].next + 1
    else if s.workers[j] == Started then hi - lo + 2
    else if s.chan[j] then hi - lo + 3
    else hi - lo + 4
  }

  ghost function TotalWork<F, T>(job: Job<F, T>, n: nat, s: State<F, T>, t: Task<F>, k: nat): int
    requires Shape(n, s) && k <= n
  {
    if k == 0 then 0 else TotalWork(job, n, s, t, k - 1) + WorkerWork(job, n, s, t, k - 1)
  }

  /** Steps the dispatcher still has to take, apart from the sends. */
  ghost function MainWork<F, T>(s: State<F, T>): int
    requires s.issued != []
  {
    match s.main
    case Idle => 0
    case Writing(k) => Writes(Current(s).attn) - k + 3
    case Adding => 3
    case Sending(_) => 2
    case Blocked => 2
    case Clearing => 1
  }

  ghost function Work<F, T>(job: Job<F, T>, n: nat, s: State<F, T>): int
    requires Shape(n, s) && s.issued != []
  {
    MainWork(s) + TotalWork(job, n, s, Current(s), n)
  }

  /** The number of steps one dispatch can take, at most. */
  function Bound<F, T>(job: Job<F, T>, n: nat, t: Task<F>): nat {
    Writes(t.attn) + 3 + 4 * n + job.units(t.attn, t.fields)
  }

  lemma {:induction false} SameWork<F, T>(job: Job<F, T>, n: nat, s: State<F, T>, s': State<F, T>, t: Task<F>, k: nat)
    requires Shape(n, s) && Shape(n, s') && k <= n
    requires forall j: nat :: j < k ==> WorkerWork(job, n, s', t, j) == WorkerWork(job, n, s, t, j)
    ensures TotalWork(job, n, s', t, k) == TotalWork(job, n, s, t, k)
    decreases k
  {
    hide WorkerWork, Shape;
    if k > 0 {
      SameWork(job, n, s, s', t, k - 1);
    }
  }

  lemma {:induction false} LessWork<F, T>(job: Job<F, T>, n: nat, s: State<F, T>, s': State<F, T>, t: Task<F>, k: nat, w: nat)
    requires Shape(n, s) && Shape(n, s') && w < k <= n
    requires forall j: nat :: j < k && j != w ==> WorkerWork(job, n, s', t, j) == WorkerWork(job, n, s, t, j)
    requires WorkerWork(job, n, s', t, w) + 1 == WorkerWork(job, n, s, t, w)
    ensures TotalWork(job, n, s', t, k) + 1 == TotalWork(job, n, s, t, k)
    decreases k
  {
    hide WorkerWork, Shape;
    if w == k - 1 {
      SameWork(job, n, s, s', t, k - 1);
    } else {
      LessWork(job, n, s, s', t, k - 1, w);
    }
  }

  /** Every step of a dispatch uses up some of its work. */
  lemma StepWork<F(!new), T>(job: Job<F, T>, n: nat, s: State<F, T>, step: Step<F>)
    requires Inv(job, n, s) && Enabled(job, n, s, step) && !step.Begin? && s.issued != []
    ensures var s' := Apply(job, n, s, step);
      Shape(n, s') && s'.issued == s.issued && Work(job, n, s') < Work(job, n, s)
  {
    hide RunsHold, Counted, OutputsHold, RangeStart, WorkerWork, Phases, FieldsHold;
    StepShape(job, n, s, step);
    var s', t := Apply(job, n, s, step), Current(s);
    var w := if step.Send? then s.main.i else if step.Receive? || step.Enter? || step.Compute? || step.Finish? then step.w else n;
    forall j: nat | j < n && j != w
      ensures WorkerWork(job, n, s', t, j) == WorkerWork(job, n, s, t, j)
    {
      OtherWork(job, n, s, step, t, j);
    }
    if w < n {
      OwnWork(job, n, s, step, w);
      LessWork(job, n, s, s', t, n, w);
    } else {
      SameWork(job, n, s, s', t, n);
    }
  }

  lemma OtherWork<F, T>(job: Job<F, T>, n: nat, s: State<F, T>, step: Step<F>, t: Task<F>, j: nat)
    requires Shape(n, s) && Enabled(job, n, s, step) && !step.Begin? && Shape(n, Apply(job, n, s, step)) && j < n
    requires step.Send? ==> j != s.main.i
    requires step.Receive? || step.Enter? || step.Compute? || step.Finish? ==> j != step.w
    ensures WorkerWork(job, n, Apply(job, n, s, step), t, j) == WorkerWork(job, n, s, t, j)
  {
    hide RangeStart;
  }

  lemma OwnWork<F(!new), T>(job: Job<F, T>, n: nat, s: State<F, T>, step: Step<F>, w: nat)
    requires Inv(job, n, s) && Enabled(job, n, s, step) && s.issued != [] && w < n
    requires (step.Send? && w == s.main.i) || ((step.Receive? || step.Enter? || step.Compute? || step.Finish?) && w == step.w)
    ensures Shape(n, Apply(job, n, s, step))
    ensures WorkerWork(job, n, Apply(job, n, s, step), Current(s), w) + 1 == WorkerWork(job, n, s, Current(s), w)
  {
    hide RunsHold, Counted, RangeStart, FieldsHold, Fields;
    StepShape(job, n, s, step);
    assert WorkerOk(n, s, w);
    OutOf(job, n, s, w);
    assert WorkerOut(job, n, s, Current(s), w);
  }

  /** A dispatch starts with no more work than its bound. */
  lemma BeginWork<F(!new), T>(job: Job<F, T>, n: nat, s: State<F, T>, task: Task<F>)
    requires Inv(job, n, s) && Enabled(job, n, s, Begin(task))
    ensures var s' := Apply(job, n, s, Begin(task));
      Shape(n, s') && s'.issued != [] && Work(job, n, s') == Bound(job, n, task)
  {
    hide RunsHold, Counted, OutputsHold, RangeStart, WorkerWork, WorkerOk, FieldsHold;
    StepPhases(job, n, s, Begin(task));
    var s' := Apply(job, n, s, Begin(task));
    FreshWork(job, n, s', task, n);
    BoundaryEnds(job.units(task.attn, task.fields), n);
    RangeEnds(job, n, task);
  }

  lemma RangeEnds<F, T>(job: Job<F, T>, n: nat, t: Task<F>)
    requires n > 0
    ensures RangeStart(job, n, t.attn, t.fields, 0) == 0
    ensures RangeStart(job, n, t.attn, t.fields, n) == job.units(t.attn, t.fields)
  {
    BoundaryEnds(job.units(t.attn, t.fields), n);
  }

  lemma {:induction false} FreshWork<F, T>(job: Job<F, T>, n: nat, s: State<F, T>, t: Task<F>, k: nat)
    requires Shape(n, s) && Phases(n, s) && s.main.Writing? && k <= n
    ensures TotalWork(job, n, s, t, k)
         == RangeStart(job, n, t.attn, t.fields, k) - RangeStart(job, n, t.attn, t.fields, 0) + 4 * k
    decreases k
  {
    hide RangeStart;
    if k > 0 {
      FreshWork(job, n, s, t, k - 1);
      assert WorkerOk(n, s, k - 1);
    }
  }

  lemma {:induction false} WorkNonNegative<F(!new), T>(job: Job<F, T>, n: nat, s: State<F, T>, k: nat)
    requires Inv(job, n, s) && s.issued != [] && k <= n
    ensures Shape(n, s) && TotalWork(job, n, s, Current(s), k) >= 0
    decreases k
  {
    hide RunsHold, Counted, FieldsHold, Phases;
    if k > 0 {
      WorkNonNegative(job, n, s, k - 1);
      var t := Current(s);
      assert WorkerOut(job, n, s, t, k - 1);
      RangeWithin(job.units(t.attn, t.fields), n, k - 1);
    }
  }

  /** In any run, a stretch of states during which the dispatcher is busy with one
      dispatch has at most `Bound` steps, whatever the schedule. */
  lemma {:induction false} DispatchBounded<F(!new), T>(job: Job<F, T>, n: nat, run: seq<State<F, T>>, first: nat, last: nat)
    requires IsRun(job, n, run) && first < last < |run|
    requires run[first].main == Idle
    requires forall i: nat :: first < i <= last ==> run[i].main != Idle
    ensures Shape(n, run[last]) && run[last].issued != []
    ensures last - first - 1 + Work(job, n, run[last]) <= Bound(job, n, Current(run[last]))
    ensures last - first - 1 <= Bound(job, n, Current(run[last]))
    decreases last
  {
    hide Inv, Apply, Enabled, Work, Bound;
    RunInv(job, n, run, last - 1);
    RunInv(job, n, run, last);
    assert Next(job, n, run[last - 1], run[last - 1 + 1]);
    var step: Step<F> :| Enabled(job, n, run[last - 1], step) && run[last] == Apply(job, n, run[last - 1], step);
    if last == first + 1 {
      LeavesIdle(job, n, run[first], step);
      BeginWork(job, n, run[first], step.task);
    } else {
      DispatchBounded(job, n, run, first, last - 1);
      StaysBusy(job, n, run[last - 1], step);
      StepWork(job, n, run[last - 1], step);
    }
    BusyWork(job, n, run[last]);
  }

  lemma LeavesIdle<F(!new), T>(job: Job<F, T>, n: nat, s: State<F, T>, step: Step<F>)
    requires Inv(job, n, s) && Enabled(job, n, s, step) && s.main == Idle && Apply(job, n, s, step).main != Idle
    ensures step.Begin? && Current(Apply(job, n, s, step)) == step.task
  {
    hide RunsHold, Counted, OutputsHold, RangeStart, Phases, FieldsHold;
  }

  lemma StaysBusy<F(!new), T>(job: Job<F, T>, n: nat, s: State<F, T>, step: Step<F>)
    requires Inv(job, n, s) && Enabled(job, n, s, step) && s.main != Idle
    ensures !step.Begin? && s.issued != []
  {
    hide RunsHold, Counted, OutputsHold, RangeStart, Phases, FieldsHold;
  }

  lemma BusyWork<F(!new), T>(job: Job<F, T>, n: nat, s: State<F, T>)
    requires Inv(job, n, s) && s.main != Idle
    ensures Shape(n, s) && s.issued != [] && Work(job, n, s) >= 0
  {
    hide RunsHold, Counted, OutputsHold, Phases, FieldsHold, TotalWork;
    WorkNonNegative(job, n, s, n);
  }

  // ----- every dispatch ends -----

  /** Nothing can happen any more, unless a new dispatch begins. */
  ghost predicate Stuck<F(!new), T>(job: Job<F, T>, n: nat, s: State<F, T>) {
    Shape(n, s) && forall step: Step<F> :: Enabled(job, n, s, step) ==> step.Begin?
  }

  /** The run was given all the steps that the dispatch begun at `first` could use: it has come to a
      halt, or has gone on for longer than the bound. */
  ghost predicate RunOut<F(!new), T>(job: Job<F, T>, n: nat, run: seq<State<F, T>>, first: nat)
    requires first + 1 < |run| && run[first + 1].issued != []
  {
    Stuck(job, n, run[|run| - 1]) || |run| - 1 > first + 1 + Bound(job, n, Current(run[first + 1]))
  }

  /** The first state from `i` on in which the dispatcher is idle, or the end of the run. */
  lemma {:induction false} FirstIdle<F, T>(run: seq<State<F, T>>, i: nat) returns (k: nat)
    requires i <= |run|
    ensures i <= k <= |run| && (k < |run| ==> run[k].main == Idle)
    ensures forall j: nat :: i <= j < k ==> run[j].main != Idle
    decreases |run| - i
  {
    if i == |run| || run[i].main == Idle {
      k := i;
    } else {
      k := FirstIdle(run, i + 1);
    }
  }

  /** No other dispatch begins before this one is over. */
  lemma {:induction false} SameDispatch<F(!new), T>(job: Job<F, T>, n: nat, run: seq<State<F, T>>, from: nat, i: nat)
    requires IsRun(job, n, run) && from <= i < |run|
    requires forall j: nat :: from <= j < i ==> run[j].main != Idle
    ensures run[i].issued == run[from].issued
    decreases i
  {
    hide Inv, Apply, Enabled, Work;
    if i > from {
      SameDispatch(job, n, run, from, i - 1);
      RunInv(job, n, run, i - 1);
      assert Next(job, n, run[i - 1], run[i - 1 + 1]);
      var step: Step<F> :| Enabled(job, n, run[i - 1], step) && run[i] == Apply(job, n, run[i - 1], step);
      StaysBusy(job, n, run[i - 1], step);
      StepWork(job, n, run[i - 1], step);
    }
  }

  lemma PrefixReachable<F(!new), T(!new)>(job: Job<F, T>, n: nat, run: seq<State<F, T>>, i: nat)
    requires IsRun(job, n, run) && i < |run|
    ensures Reachable(job, n, run[i])
  {
    hide Next, Init;
    var part := run[..i + 1];
    assert IsRun(job, n, part);
    assert part[|part| - 1] == run[i];
  }

  /** A dispatch always comes to an end, and with the right result: in every run that was given all the
      steps the dispatch could use, the dispatcher is idle again, and then every row (or head) of that
      dispatch holds its value. */
  lemma DispatchReturns<F(!new), T(!new)>(job: Job<F, T>, n: nat, run: seq<State<F, T>>, first: nat) returns (back: nat)
    requires IsRun(job, n, run) && first + 1 < |run|
    requires run[first].main == Idle && run[first + 1].main != Idle && run[first + 1].issued != []
    requires RunOut(job, n, run, first)
    ensures first + 1 < back < |run| && run[back].main == Idle
    ensures forall i: nat :: first < i < back ==> run[i].main != Idle
    ensures var t := Current(run[first + 1]);
            && run[back].issued == run[first + 1].issued
            && forall r: nat :: r < job.units(t.attn, t.fields) ==>
                 r in run[back].out && run[back].out[r] == job.value(t.attn, t.fields, r)
  {
    hide IsRun, Init, Reachable, Stuck, Bound, Work, Enabled;
    back := FirstIdle(run, first + 1);
    if back == |run| {
      StillBusy(job, n, run, first);
    } else {
      SameDispatch(job, n, run, first + 1, back);
      PrefixReachable(job, n, run, back);
      DispatchResult(job, n, run[back]);
    }
  }

  /** A run that stays busy to its end was not given all those steps. */
  lemma StillBusy<F(!new), T(!new)>(job: Job<F, T>, n: nat, run: seq<State<F, T>>, first: nat)
    requires IsRun(job, n, run) && first + 1 < |run| && run[first].main == Idle && run[first + 1].issued != []
    requires forall i: nat :: first < i < |run| ==> run[i].main != Idle
    ensures !RunOut(job, n, run, first)
  {
    hide IsRun, Init, Reachable, Bound, Work, Enabled;
    var last := |run| - 1;
    SameDispatch(job, n, run, first + 1, last);
    DispatchBounded(job, n, run, first, last);
    PrefixReachable(job, n, run, last);
    var step := Progress(job, n, run[last]);
  }
}
