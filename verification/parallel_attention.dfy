/** `ParallelAttention`, as a job of the pool: the same protocol, with heads for rows. */
module ParallelAttentions {
  import opened Float32
  import opened KVCaches
  import opened Transformer
  import opened AttentionHeads
  import opened Pool

  datatype Field = Cache(sh: Shape, data: Vec) | Number(n: nat) | Scalar(r: F32) | Floats(x: Vec)

  function AttnTask(sh: Shape, data: Vec, layer: nat, pos: nat, scale: F32, numHeads: nat, qPerKV: nat,
                    headDim: nat, q: Vec, out: Vec): Task<Field>
  {
    Task(true, [Cache(sh, data), Number(layer), Number(pos), Scalar(scale), Number(numHeads), Number(qPerKV),
                Number(headDim), Floats(q), Floats(out)])
  }

  /** The fields describe attention of model `m` over a cache that fits it. */
  ghost predicate AttnFields(m: Model, attn: bool, fields: seq<Field>) {
    && WellFormed(m) && attn && |fields| == ATTN_FIELDS
    && fields[0].Cache? && fields[1].Number? && fields[2].Number? && fields[4].Number? && fields[7].Floats?
    && SameShape(m, fields[0].sh) && |fields[0].data| == TotalElements(fields[0].sh)
    && fields[1].n < m.numLayers && fields[2].n < fields[0].sh.maxTokens
    && fields[4].n == m.numHeads && |fields[7].x| == m.numHeads * m.headDim
  }

  ghost function Heads(m: Model, attn: bool, fields: seq<Field>): nat {
    if AttnFields(m, attn, fields) then fields[4].n else 0
  }

  ghost function Head(m: Model, attn: bool, fields: seq<Field>, h: nat): Vec {
    if AttnFields(m, attn, fields) && h < m.numHeads
    then HeadTarget(m, fields[0].sh, fields[0].data, fields[1].n, fields[2].n, fields[7].x, h) else []
  }

  ghost function AttnJob(m: Model): Job<Field, Vec> {
    Job((attn, fields) => Heads(m, attn, fields), (attn, fields, h) => Head(m, attn, fields, h))
  }

  /** However the workers interleave, every head ends up with the value the sequential head loop
      computes for it. */
  lemma ParallelMatchesSequential(m: Model, n: nat, s: State<Field, Vec>, sh: Shape, data: Vec, layer: nat, pos: nat,
                                  scale: F32, qPerKV: nat, q: Vec, out: Vec)
    requires WellFormed(m) && SameShape(m, sh) && |data| == TotalElements(sh)
    requires layer < m.numLayers && pos < sh.maxTokens && |q| == m.numHeads * m.headDim
    requires Reachable(AttnJob(m), n, s) && s.main == Idle && s.issued != []
    requires Current(s) == AttnTask(sh, data, layer, pos, scale, m.numHeads, qPerKV, m.headDim, q, out)
    ensures forall h: nat :: h < m.numHeads ==> h in s.out && s.out[h] == HeadTarget(m, sh, data, layer, pos, q, h)
  {
    hide Reachable, WellFormed, HeadTarget;
    DispatchResult(AttnJob(m), n, s);
  }
}
