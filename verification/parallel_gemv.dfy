/** `ParallelGEMV`, as a job of the pool. */
module ParallelGemv {
  import opened Machine
  import opened Float32
  import opened Q8K
  import opened Pool
  import opened PooledGemv

  datatype Field = Bytes(b: seq<byte>) | Floats(x: seq<F32>) | Number(k: nat) | Kind(ty: QType)

  function GemvTask(q8k: seq<byte>, y: seq<F32>, weight: seq<byte>, x: seq<F32>, rows: nat, cols: nat, qtype: QType): Task<Field> {
    Task(false, [Bytes(q8k), Floats(y), Bytes(weight), Floats(x), Number(rows), Number(cols), Kind(qtype)])
  }

  /** The fields describe a product whose buffers are large enough. */
  predicate GemvFields(attn: bool, fields: seq<Field>) {
    && !attn && |fields| == GEMV_FIELDS
    && fields[0].Bytes? && fields[2].Bytes? && fields[3].Floats? && fields[4].Number? && fields[5].Number? && fields[6].Kind?
    && Feeds(fields[6].ty, fields[2].b, Input(fields[0].b, fields[3].x), fields[5].k, fields[4].k)
  }

  function Rows(attn: bool, fields: seq<Field>): nat {
    if GemvFields(attn, fields) then fields[4].k else 0
  }

  function RowOf(attn: bool, fields: seq<Field>, r: nat): F32 {
    if GemvFields(attn, fields) && r < fields[4].k
    then RowValue(fields[6].ty, fields[2].b, Input(fields[0].b, fields[3].x), fields[5].k, fields[4].k, r) else ZERO
  }

  const GEMV_JOB: Job<Field, F32> :=
    Job((attn, fields) => Rows(attn, fields), (attn, fields, r) => RowOf(attn, fields, r))

  /** However the workers interleave, a finished parallel product holds in every row the
      value the single-threaded range computes, for any number of workers. */
  lemma ParallelMatchesSequential(n: nat, s: State<Field, F32>, q8k: seq<byte>, y: seq<F32>, weight: seq<byte>,
                                  x: seq<F32>, rows: nat, cols: nat, qtype: QType)
    requires Reachable(GEMV_JOB, n, s) && s.main == Idle && s.issued != []
    requires Current(s) == GemvTask(q8k, y, weight, x, rows, cols, qtype)
    requires Feeds(qtype, weight, Input(q8k, x), cols, rows)
    ensures forall r: nat :: r < rows ==> r in s.out && s.out[r] == RowValue(qtype, weight, Input(q8k, x), cols, rows, r)
  {
    hide Reachable, Feeds, RowValue;
    DispatchResult(GEMV_JOB, n, s);
  }
}
