/** What a task will compute, and that no step of any task changes that. */
module TaskOutcome {
  import opened MathHelpers
  import opened SparseTree
  import opened VectorRoot
  import opened Bits
  import opened Schema
  import opened ObjectRoot
  import opened Tasks
  import opened TaskMemory
  import M = MerkleTree

  /** What the place of the task will hold when it is done. */
  ghost function Outcome(h: Hash, mem: Heap, task: Task): Chunk
    requires Typed(task)
    decreases task
  {
    match task
    case Object(t, v, _, _) => RootOf(h, t, v)
    case Merkle(job, _, limit, _) => VectorRootOf(h, LeavesOf(h, mem, job), limit)
    case Forked(height, limit, _, _, first, last) =>
      M.Raise(h, ZERO, h(Outcome(h, mem, first), Outcome(h, mem, last)), height, Log2Ceil(limit))
    case TopUp(level, limit, at, _) => M.Raise(h, ZERO, Load(mem, at), level, Log2Ceil(limit))
    case Gather(p, _, base, i, current) =>
      if i < p.Count()
      then VectorRootOf(h, Gathered(h, mem, p, base, i, Outcome(h, mem, current)), p.limit)
      else Outcome(h, mem, current)
    case Mix(length, _, _, inner) => MixIn(h, Outcome(h, mem, inner), length)
    case _ => Load(mem, task.at)
  }

  /** The roots of members: those already in memory, that of member i, and those to come. */
  ghost function Gathered(h: Hash, mem: Heap, p: Plan, base: nat, i: nat, root: Chunk): (cs: seq<Chunk>)
    requires GoodPlan(p) && i < p.Count()
    ensures |cs| == p.Count()
  {
    LoadAll(mem, base, i) + [root] + MemberRoots(h, p.t, p.vs, p.lo + i + 1, p.hi)
  }

  /** The places that roots of basic members will be written to are zero: only their first bytes are written. */
  ghost predicate Ready(mem: Heap, task: Task)
  {
    match task
    case Object(t, _, _, at) => t.Uint? || t.Bool? ==> Load(mem, at) == ZERO
    case Forked(_, _, _, _, first, last) => Ready(mem, first) && Ready(mem, last)
    case Gather(p, _, base, i, current) => Ready(mem, current) && ZeroFrom(mem, base, i + 1, p.Count())
    case Mix(_, _, _, inner) => Ready(mem, inner)
    case _ => true
  }

  ghost predicate ZeroFrom(mem: Heap, base: nat, i: nat, n: nat)
  {
    forall a: nat :: base + i <= a < base + n ==> Load(mem, a) == ZERO
  }

  lemma {:induction false} OutcomeLocal(h: Hash, a: Heap, b: Heap, task: Task)
    requires Typed(task) && Apart(task) && SameOn(a, b, Owned(task) + Reads(task))
    ensures Outcome(h, a, task) == Outcome(h, b, task)
    ensures Ready(a, task) == Ready(b, task)
    decreases task
  {
    hide RootOf, VectorRootOf, LeavesOf, GoodJob, GoodPlan, GoodObject, Owned, Reads, Apart, MemberRoots, Load;
    OwnsItsPlace(task);
    PartsSee(task);
    ApartParts(task);
    match task
    case Merkle(job, _, limit, _) => MerkleLocal(h, a, b, task);
    case Forked(_, _, _, _, first, last) =>
      OutcomeLocal(h, a, b, first);
      OutcomeLocal(h, a, b, last);
    case Gather(p, _, base, i, current) =>
      OutcomeLocal(h, a, b, current);
      GatherLocal(a, b, task);
    case Mix(_, _, _, inner) =>
      OutcomeLocal(h, a, b, inner);
    case _ =>
  }

  lemma MerkleLocal(h: Hash, a: Heap, b: Heap, task: Task)
    requires task.Merkle? && Typed(task) && SameOn(a, b, Owned(task) + Reads(task))
    ensures LeavesOf(h, a, task.job) == LeavesOf(h, b, task.job)
  {
    hide LeavesOf, GoodLimit;
    SameLeaves(h, a, b, task.job);
  }

  lemma GatherLocal(a: Heap, b: Heap, task: Task)
    requires task.Gather? && SameOn(a, b, Owned(task)) && task.i <= task.plan.Count()
    ensures LoadAll(a, task.base, task.i) == LoadAll(b, task.base, task.i)
    ensures var i, n := task.i + 1, task.plan.Count(); ZeroFrom(a, task.base, i, n) == ZeroFrom(b, task.base, i, n)
  {
    hide Load;
    LoadAllLocal(a, b, task.base, task.i, Owned(task));
  }

  lemma LoadAllLocal(a: Heap, b: Heap, base: nat, n: nat, s: set<nat>)
    requires SameOn(a, b, s) && Block(base, n) <= s
    ensures LoadAll(a, base, n) == LoadAll(b, base, n)
  {
    hide Load;
    forall j | 0 <= j < n
      ensures LoadAll(a, base, n)[j] == LoadAll(b, base, n)[j]
    {
      assert base + j in Block(base, n);
    }
  }

  // ---- no step changes what will come out ----

  ghost predicate SameOutcome(h: Hash, mem: Heap, task: Task, mem': Heap, next: Task)
    requires Typed(task)
  {
    Typed(next) && Outcome(h, mem', next) == Outcome(h, mem, task) && Ready(mem', next)
  }

  ghost predicate EntersWell(h: Hash, mem: Heap, t: Type, v: Value, cpu: nat, at: nat, base: nat)
    requires GoodObject(t, v)
  {
    var (next, e) := EnterObject(mem, t, v, cpu, at, base);
    SameOutcome(h, mem, Object(t, v, cpu, at), Apply(mem, e), next)
  }

  lemma EnterObjectOutcome(h: Hash, mem: Heap, t: Type, v: Value, cpu: nat, at: nat, base: nat)
    requires GoodObject(t, v) && Ready(mem, Object(t, v, cpu, at))
    ensures EntersWell(h, mem, t, v, cpu, at, base)
  {
    hide EntersWell, GoodObject;
    match t
    case Uint(_) => BasicOutcome(h, mem, t, v, cpu, at, base);
    case Bool => BasicOutcome(h, mem, t, v, cpu, at, base);
    case Bitvector(_) => BitvectorOutcome(h, mem, t, v, cpu, at, base);
    case Bitlist(_) => BitlistOutcome(h, mem, t, v, cpu, at, base);
    case Vector(_, _) => VectorOutcome(h, mem, t, v, cpu, at, base);
    case List(_, _) => ListOutcome(h, mem, t, v, cpu, at, base);
    case Container(_) => ContainerOutcome(h, mem, t, v, cpu, at, base);
  }

  lemma BasicOutcome(h: Hash, mem: Heap, t: Type, v: Value, cpu: nat, at: nat, base: nat)
    requires GoodObject(t, v) && (t.Uint? || t.Bool?) && Load(mem, at) == ZERO
    ensures EntersWell(h, mem, t, v, cpu, at, base)
  {
    hide RootOf;
    BasicRoot(h, t, v);
    if t.Uint? { NumberBytes(t, v); } else { BoolBytes(t, v); }
  }

  lemma MerkleOutcome(h: Hash, mem: Heap, task: Task)
    requires task.Merkle? && Typed(task)
    ensures Outcome(h, mem, task) == VectorRootOf(h, LeavesOf(h, mem, task.job), task.limit)
    ensures Ready(mem, task)
  {}

  lemma MixedOutcome(h: Hash, mem: Heap, task: Task)
    requires task.Mix? && Typed(task) && Typed(task.inner) && task.inner.Merkle?
    ensures var leaves := LeavesOf(h, mem, task.inner.job);
      Outcome(h, mem, task) == MixIn(h, VectorRootOf(h, leaves, task.inner.limit), task.length)
    ensures Ready(mem, task)
  {
    hide MixIn, VectorRootOf, LeavesOf, GoodJob;
    MerkleOutcome(h, mem, task.inner);
  }

  lemma BitvectorOutcome(h: Hash, mem: Heap, t: Type, v: Value, cpu: nat, at: nat, base: nat)
    requires GoodObject(t, v) && t.Bitvector?
    ensures EntersWell(h, mem, t, v, cpu, at, base)
  {
    hide PackBits, Chunkify, VectorRootOf, GoodJob, Outcome, Ready;
    ChunksFit(t, v);
    EnterObjectTyped(mem, t, v, cpu, at, base);
    MerkleOutcome(h, mem, EnterObject(mem, t, v, cpu, at, base).0);
    ObjectOutcome(h, mem, t, v, cpu, at);
  }

  lemma ObjectOutcome(h: Hash, mem: Heap, t: Type, v: Value, cpu: nat, at: nat)
    requires GoodObject(t, v)
    ensures Outcome(h, mem, Object(t, v, cpu, at)) == RootOf(h, t, v)
  {}

  lemma BitlistOutcome(h: Hash, mem: Heap, t: Type, v: Value, cpu: nat, at: nat, base: nat)
    requires GoodObject(t, v) && t.Bitlist?
    ensures EntersWell(h, mem, t, v, cpu, at, base)
  {
    hide PackBits, Chunkify, VectorRootOf, MixIn, StripDelimiter, BitlistBytes, Outcome, Ready, RootOf, Apply;
    hide GoodLimit;
    StripLeavesPacking(v.bits);
    BitlistRoot(h, t, v);
    EnterObjectTyped(mem, t, v, cpu, at, base);
    MixedOutcome(h, Apply(mem, Allocate(base, 1)), EnterObject(mem, t, v, cpu, at, base).0);
    ObjectOutcome(h, mem, t, v, cpu, at);
  }

  /** Whichever overload applies, the leaves are the chunks of the vector. */
  lemma JobLeaves(h: Hash, mem: Heap, t: Type, v: Value)
    requires GoodObject(t, v) && (t.Vector? || t.List?)
    ensures HaveTypes(t, v.items) && TypedJob(JobOf(t, v.items))
    ensures LeavesOf(h, mem, JobOf(t, v.items)) == ChunksOf(h, t, v)
  {
    hide GoodLimit, RootOf, Chunkify;
    JobTyped(t, v);
    VectorChunksAre(h, t, v);
    if t.elem == ROOT && !t.elem.Uint? {
      RootsAreMembers(h, t, v.items, 0);
    }
  }

  lemma JobOutcome(h: Hash, mem: Heap, t: Type, v: Value)
    requires GoodObject(t, v) && (t.Vector? || t.List?)
    ensures HaveTypes(t, v.items) && TypedJob(JobOf(t, v.items)) && |ChunksOf(h, t, v)| <= ChunkCount(t)
    ensures LeavesOf(h, mem, JobOf(t, v.items)) == ChunksOf(h, t, v)
    ensures t.Vector? ==> RootOf(h, t, v) == VectorRootOf(h, ChunksOf(h, t, v), 0)
    ensures t.List? ==> ListLimit(t) == ChunkCount(t)
    ensures t.List? ==> RootOf(h, t, v) == MixIn(h, VectorRootOf(h, ChunksOf(h, t, v), ChunkCount(t)), |v.items|)
  {
    hide GoodLimit, RootOf, VectorRootOf, LeavesOf, ChunksOf, JobOf, MixIn;
    ChunksFit(t, v);
    JobLeaves(h, mem, t, v);
    if t.Vector? { NoLimit(h, t, v); } else { ListRoot(h, t, v); }
  }

  lemma VectorOutcome(h: Hash, mem: Heap, t: Type, v: Value, cpu: nat, at: nat, base: nat)
    requires GoodObject(t, v) && t.Vector?
    ensures EntersWell(h, mem, t, v, cpu, at, base)
  {
    hide JobOf, LeavesOf, VectorRootOf, Outcome, Ready, RootOf, GoodObject;
    JobOutcome(h, mem, t, v);
    EnterObjectTyped(mem, t, v, cpu, at, base);
    MerkleOutcome(h, mem, EnterObject(mem, t, v, cpu, at, base).0);
    ObjectOutcome(h, mem, t, v, cpu, at);
  }

  lemma ListOutcome(h: Hash, mem: Heap, t: Type, v: Value, cpu: nat, at: nat, base: nat)
    requires GoodObject(t, v) && t.List?
    ensures EntersWell(h, mem, t, v, cpu, at, base)
  {
    hide JobOf, LeavesOf, VectorRootOf, MixIn, Outcome, Ready, RootOf, Apply, GoodObject;
    JobOutcome(h, Apply(mem, Allocate(base, 1)), t, v);
    EnterObjectTyped(mem, t, v, cpu, at, base);
    MixedOutcome(h, Apply(mem, Allocate(base, 1)), EnterObject(mem, t, v, cpu, at, base).0);
    ObjectOutcome(h, mem, t, v, cpu, at);
  }

  /** What gathering starts with, in memory just allocated for it. */
  lemma GatherOutcome(h: Hash, mem: Heap, p: Plan, at: nat, base: nat)
    requires GoodPlan(p)
    ensures var mem', next := Apply(mem, Allocate(base, p.Count())), Gather(p, at, base, 0, Next(p, at, base, 0));
      && Typed(next) && Ready(mem', next)
      && Outcome(h, mem', next) == VectorRootOf(h, MemberRoots(h, p.t, p.vs, p.lo, p.hi), p.limit)
  {
    hide RootOf, GoodLimit, Shallow;
    NextTyped(p, at, base, 0);
    var mem' := Apply(mem, Allocate(base, p.Count()));
    ZeroedBlock(mem, base, p.Count());
    assert LoadAll(mem', base, 0) == [];
    if p.Count() > 0 {
      FirstMember(h, p, RootOf(h, Member(p.t, p.lo), p.vs[p.lo]), mem', base);
    }
  }

  lemma FirstMember(h: Hash, p: Plan, root: Chunk, mem: Heap, base: nat)
    requires GoodPlan(p) && p.Count() > 0 && root == RootOf(h, Member(p.t, p.lo), p.vs[p.lo])
    ensures Gathered(h, mem, p, base, 0, root) == MemberRoots(h, p.t, p.vs, p.lo, p.hi)
  {
    hide RootOf, GoodLimit, Shallow;
    assert LoadAll(mem, base, 0) == [];
  }

  lemma ZeroedBlock(mem: Heap, base: nat, n: nat)
    ensures ZeroFrom(Apply(mem, Allocate(base, n)), base, 0, n)
  {}

  lemma ContainerOutcome(h: Hash, mem: Heap, t: Type, v: Value, cpu: nat, at: nat, base: nat)
    requires GoodObject(t, v) && t.Container?
    ensures EntersWell(h, mem, t, v, cpu, at, base)
  {
    hide RootOf, VectorRootOf, GoodLimit, MemberRoots, Shallow, Outcome, Ready, Apply;
    EnterObjectTyped(mem, t, v, cpu, at, base);
    MemberPlan(t, v, cpu);
    NoLimit(h, t, v);
    GatherOutcome(h, mem, Plan(t, v.items, 0, |t.fields|, cpu, cpu, 0), at, base);
    ObjectOutcome(h, mem, t, v, cpu, at);
  }

  lemma EnterVectorOutcome(h: Hash, hardware: nat, mem: Heap, job: Job, cpu: nat, limit: nat, at: nat, base: nat)
    requires GoodJob(job, limit) && Apart(Merkle(job, cpu, limit, at))
    requires var e := EnterVector(h, hardware, mem, job, cpu, limit, at, base).1;
      Gets(e) !! {at} + Reads(Merkle(job, cpu, limit, at))
    ensures var (next, e) := EnterVector(h, hardware, mem, job, cpu, limit, at, base);
      SameOutcome(h, mem, Merkle(job, cpu, limit, at), Apply(mem, e), next)
  {
    hide GoodLimit, GoodSlice, LeavesOf, VectorRootOf, Next, Log2Ceil, BitCeil, Apply, Load, Outcome, Ready;
    var task := Merkle(job, cpu, limit, at);
    EnterVectorTyped(h, hardware, mem, job, cpu, limit, at, base);
    MerkleOutcome(h, mem, task);
    var (next, e) := EnterVector(h, hardware, mem, job, cpu, limit, at, base);
    if Forks(job, Resolve(cpu, hardware)) {
      ForkEnters(h, mem, task, base, next);
    } else if job.Elements? {
      ElementsOutcome(h, mem, job, limit, at, base);
    } else {
      StoredAt(mem, at, e.value);
      DoneOutcome(h, Apply(mem, e), next);
    }
  }

  lemma ForkEnters(h: Hash, mem: Heap, task: Task, base: nat, next: Task)
    requires task.Merkle? && GoodJob(task.job, task.limit) && task.job.Count() >= task.job.Cutoff()
    requires Block(base, 2) !! Reads(task)
    requires next.Forked? && Typed(next) && next.limit == task.limit
    requires next.height == Log2Ceil(task.job.HalfLimit()) + 1
    requires next.first.Merkle? && next.first.job == task.job.First() && next.first.limit == task.job.HalfLimit()
    requires next.last.Merkle? && next.last.job == task.job.Rest() && next.last.limit == task.job.HalfLimit()
    ensures Ready(Apply(mem, Allocate(base, 2)), next)
    ensures Outcome(h, Apply(mem, Allocate(base, 2)), next)
         == VectorRootOf(h, LeavesOf(h, mem, task.job), task.limit)
  {
    hide GoodLimit, GoodSlice, LeavesOf, VectorRootOf, Log2Ceil, BitCeil, Apply, Load, Outcome, Ready, Block;
    var mem', job := Apply(mem, Allocate(base, 2)), task.job;
    SeesTheSame(mem, Allocate(base, 2), Reads(task));
    SameLeaves(h, mem', mem, job);
    HalvesOf(h, mem', job, task.limit);
    JoinHalves(h, LeavesOf(h, mem, job), task.limit, Log2Ceil(job.HalfLimit()));
    ForkOutcome(h, mem', job, next);
  }

  lemma StoredAt(mem: Heap, a: nat, x: Chunk)
    ensures Load(Apply(mem, Store(a, x)), a) == x
  {}

  lemma ElementsOutcome(h: Hash, mem: Heap, job: Job, limit: nat, at: nat, base: nat)
    requires GoodJob(job, limit) && job.Elements?
    ensures var p := Plan(job.t, job.vs, job.lo, job.hi, 1, 1, limit);
      && GoodPlan(p)
      && var mem', next := Apply(mem, Allocate(base, p.Count())), Gather(p, at, base, 0, Next(p, at, base, 0));
         Typed(next) && Ready(mem', next) && Outcome(h, mem', next) == VectorRootOf(h, LeavesOf(h, mem, job), limit)
  {
    hide Next, Apply, VectorRootOf;
    GatherOutcome(h, mem, Plan(job.t, job.vs, job.lo, job.hi, 1, 1, limit), at, base);
  }

  /** The halves, each padded to 2^k chunks, joined and topped up. */
  lemma ForkOutcome(h: Hash, mem: Heap, job: Job, next: Task)
    requires next.Forked? && GoodJob(job, next.limit) && Splits(job, next.limit) && LeavesSplit(h, mem, job)
    requires next.height == Log2Ceil(job.HalfLimit()) + 1 && Typed(next)
    requires next.first.Merkle? && next.first.job == job.First() && next.first.limit == job.HalfLimit()
    requires next.last.Merkle? && next.last.job == job.Rest() && next.last.limit == job.HalfLimit()
    ensures Ready(mem, next)
    ensures var leaves, half := LeavesOf(h, mem, job), job.HalfLimit();
      var root := h(VectorRootOf(h, leaves[..half], half), VectorRootOf(h, leaves[half..], half));
      Outcome(h, mem, next) == M.Raise(h, ZERO, root, next.height, Log2Ceil(next.limit))
  {
    hide LeavesOf, Log2Ceil, VectorRootOf;
  }

  lemma VectorStepOutcome(h: Hash, hardware: nat, mem: Heap, task: Task, base: nat)
    requires task.Merkle? && Typed(task) && Apart(task)
    requires var e := EnterVector(h, hardware, mem, task.job, task.cpu, task.limit, task.at, base).1;
      Gets(e) !! Owned(task) + Reads(task)
    ensures var (next, e) := EnterVector(h, hardware, mem, task.job, task.cpu, task.limit, task.at, base);
      SameOutcome(h, mem, task, Apply(mem, e), next)
  {
    hide SameOutcome, EnterVector, GoodJob, Reads;
    EnterVectorOutcome(h, hardware, mem, task.job, task.cpu, task.limit, task.at, base);
  }

  lemma DoneOutcome(h: Hash, mem: Heap, task: Task)
    requires task.Done?
    ensures Outcome(h, mem, task) == Load(mem, task.at) && Ready(mem, task)
  {}

  lemma StoredOutcome(h: Hash, mem: Heap, p: Plan, at: nat, base: nat)
    requires GoodPlan(p)
    ensures var task := Next(p, at, base, p.Count());
      && Typed(task) && Ready(mem, task)
      && Outcome(h, mem, task) == VectorRootOf(h, LoadAll(mem, base, p.Count()), p.limit)
  {
    hide VectorRootOf;
  }

  lemma JoinOutcome(h: Hash, mem: Heap, task: Task)
    requires task.Forked? && Typed(task) && task.first.Done? && task.last.Done?
    ensures var root := h(Load(mem, task.blocks), Load(mem, task.blocks + 1));
      SameOutcome(h, mem, task, Apply(mem, Store(task.at, root)), TopUp(task.height, task.limit, task.at, task.blocks))
  {
    hide Log2Ceil, Load, Apply;
    StoredAt(mem, task.at, h(Load(mem, task.blocks), Load(mem, task.blocks + 1)));
    DoneOutcome(h, mem, task.first);
    DoneOutcome(h, mem, task.last);
  }

  lemma HalfUntouched(h: Hash, mem: Heap, task: Task, e: Effect, moved: Task, other: Task)
    requires task.Forked? && Typed(task) && Apart(task) && Ready(mem, task)
    requires (moved == task.first && other == task.last) || (moved == task.last && other == task.first)
    requires Changes(e) <= Owned(moved) && Gets(e) !! Owned(task) + Reads(task)
    ensures SameOutcome(h, mem, other, Apply(mem, e), other)
  {
    hide Outcome, Owned, Reads, Changes, Gets, Apply;
    PartsSee(task);
    SeesTheSame(mem, e, Owned(other) + Reads(other));
    OutcomeLocal(h, Apply(mem, e), mem, other);
  }

  lemma ForkedOutcome(h: Hash, mem: Heap, task: Task, mem': Heap, next: Task)
    requires task.Forked? && Typed(task) && next.Forked? && Typed(next)
    requires next.height == task.height && next.limit == task.limit
    requires SameOutcome(h, mem, task.first, mem', next.first) && SameOutcome(h, mem, task.last, mem', next.last)
    ensures SameOutcome(h, mem, task, mem', next)
  {
    hide Log2Ceil;
  }

  lemma RaiseOnce(h: Hash, root: Chunk, i: nat, depth: nat)
    ensures M.Raise(h, ZERO, root, i, depth)
         == if i < depth then M.Raise(h, ZERO, h(root, M.ZeroHash(h, ZERO, i)), i + 1, depth) else root
  {}

  lemma TopUpOutcome(h: Hash, mem: Heap, task: Task)
    requires task.TopUp? && task.level < Log2Ceil(task.limit)
    ensures var root := h(Load(mem, task.at), M.ZeroHash(h, ZERO, task.level));
      SameOutcome(h, mem, task, Apply(mem, Store(task.at, root)), task.(level := task.level + 1))
  {
    hide Log2Ceil, Apply, Load, M.Raise, M.ZeroHash;
    var root := h(Load(mem, task.at), M.ZeroHash(h, ZERO, task.level));
    StoredAt(mem, task.at, root);
    RaiseOnce(h, Load(mem, task.at), task.level, Log2Ceil(task.limit));
  }

  lemma TopUpEnds(h: Hash, mem: Heap, task: Task)
    requires task.TopUp? && Apart(task) && task.level >= Log2Ceil(task.limit)
    ensures SameOutcome(h, mem, task, Apply(mem, Release(task.blocks, 2)), Done(task.at))
  {
    hide Log2Ceil, Block, Apply, Load, M.Raise, M.ZeroHash;
    RaiseOnce(h, Load(mem, task.at), task.level, Log2Ceil(task.limit));
    KeptAt(mem, task.at, task.blocks, 2);
  }

  lemma KeptAt(mem: Heap, a: nat, base: nat, n: nat)
    requires a !in Block(base, n)
    ensures Load(Apply(mem, Release(base, n)), a) == Load(mem, a)
  {}

  lemma MemberOutcome(h: Hash, mem: Heap, task: Task, e: Effect, next: Task)
    requires task.Gather? && Typed(task) && Apart(task) && Ready(mem, task)
    requires next.Gather? && next == task.(current := next.current) && Typed(next)
    requires SameOutcome(h, mem, task.current, Apply(mem, e), next.current)
    requires Changes(e) <= Owned(task.current) && Gets(e) !! Owned(task) + Reads(task)
    ensures SameOutcome(h, mem, task, Apply(mem, e), next)
  {
    hide GoodPlan, Changes, Gets, Apply, VectorRootOf, Load;
    var n, others := task.plan.Count(), Block(task.base, task.plan.Count()) - {task.base + task.i};
    if task.i < n {
      OthersUntouched(task, e, others);
      SeesTheSame(mem, e, others);
      LoadAllLocal(Apply(mem, e), mem, task.base, task.i, others);
      assert ZeroFrom(Apply(mem, e), task.base, task.i + 1, n);
    } else {
      assert ZeroFrom(Apply(mem, e), task.base, task.i + 1, n);
    }
  }

  /** The call for one member does not touch the places of the others. */
  lemma OthersUntouched(task: Task, e: Effect, others: set<nat>)
    requires task.Gather? && Apart(task) && task.i < task.plan.Count()
    requires Changes(e) <= Owned(task.current) && Gets(e) !! Owned(task) + Reads(task)
    requires others == Block(task.base, task.plan.Count()) - {task.base + task.i}
    ensures others !! Changes(e) + Gets(e)
    ensures Block(task.base, task.i) <= others
  {
    hide Changes, Gets;
    var roots := Block(task.base, task.plan.Count());
    assert Owned(task.current) * others <= Owned(task.current) * ({task.at} + roots) == {task.base + task.i};
    assert Owned(task.current) * others == {};
  }

  lemma GatheringOutcome(h: Hash, mem: Heap, task: Task)
    requires task.Gather? && Typed(task)
    ensures Outcome(h, mem, task) == var p, root := task.plan, Outcome(h, mem, task.current);
      if task.i < p.Count() then VectorRootOf(h, Gathered(h, mem, p, task.base, task.i, root), p.limit)
      else Outcome(h, mem, task.current)
    ensures Ready(mem, task) == (Ready(mem, task.current) && ZeroFrom(mem, task.base, task.i + 1, task.plan.Count()))
  {
    hide GoodSlice, VectorRootOf, Gathered, GoodLimit;
  }

  /** From one member to the next, or to the byte vector of all roots. */
  lemma NextOutcome(h: Hash, mem: Heap, task: Task, next: Task)
    requires task.Gather? && Typed(task) && Ready(mem, task) && task.current.Done? && task.i < task.plan.Count()
    requires next == task.(i := task.i + 1, current := Next(task.plan, task.at, task.base, task.i + 1))
    ensures SameOutcome(h, mem, task, Apply(mem, Nothing), next)
  {
    hide GoodPlan, VectorRootOf, RootOf, Load, Gathered, Outcome, Ready, Next, LoadAll;
    var p, i := task.plan, task.i;
    NextTyped(p, task.at, task.base, i + 1);
    DoneOutcome(h, mem, task.current);
    GatheringOutcome(h, mem, task);
    GatheringOutcome(h, mem, next);
    if i + 1 < p.Count() {
      NextMemberOutcome(h, mem, p, task.at, task.base, i + 1);
      MoreGathered(h, mem, p, task.base, i);
    } else {
      AllGathered(h, mem, p, task.base, i);
      StoredOutcome(h, mem, p, task.at, task.base);
    }
  }

  lemma NextMemberOutcome(h: Hash, mem: Heap, p: Plan, at: nat, base: nat, i: nat)
    requires GoodPlan(p) && i < p.Count() && ZeroFrom(mem, base, i, p.Count())
    ensures var task := Next(p, at, base, i);
      && Typed(task) && Ready(mem, task)
      && Outcome(h, mem, task) == RootOf(h, Member(p.t, p.lo + i), p.vs[p.lo + i])
  {
    hide GoodPlan, RootOf, Load;
    NextTyped(p, at, base, i);
    assert Load(mem, base + i) == ZERO;
  }

  lemma OneMoreStored(mem: Heap, base: nat, i: nat)
    ensures LoadAll(mem, base, i + 1) == LoadAll(mem, base, i) + [Load(mem, base + i)]
  {}

  lemma MoreGathered(h: Hash, mem: Heap, p: Plan, base: nat, i: nat)
    requires GoodPlan(p) && i + 1 < p.Count()
    ensures Gathered(h, mem, p, base, i, Load(mem, base + i))
         == Gathered(h, mem, p, base, i + 1, RootOf(h, Member(p.t, p.lo + i + 1), p.vs[p.lo + i + 1]))
  {
    hide GoodLimit, RootOf, Shallow, Load;
    OneMoreStored(mem, base, i);
  }

  lemma AllGathered(h: Hash, mem: Heap, p: Plan, base: nat, i: nat)
    requires GoodPlan(p) && i + 1 == p.Count()
    ensures Gathered(h, mem, p, base, i, Load(mem, base + i)) == LoadAll(mem, base, p.Count())
  {
    hide GoodLimit, RootOf, Shallow, Load;
    OneMoreStored(mem, base, i);
    assert MemberRoots(h, p.t, p.vs, p.hi, p.hi) == [];
  }

  lemma GatherLeaves(h: Hash, mem: Heap, task: Task)
    requires task.Gather? && Typed(task) && Apart(task) && task.current.Done? && task.i >= task.plan.Count()
    ensures SameOutcome(h, mem, task, Apply(mem, Release(task.base, task.plan.Count())), Done(task.at))
  {
    hide GoodPlan;
    DoneOutcome(h, mem, task.current);
  }

  lemma InnerOutcome(h: Hash, mem: Heap, task: Task, mem': Heap, next: Task)
    requires task.Mix? && Typed(task) && next.Mix? && Typed(next) && next.length == task.length
    requires SameOutcome(h, mem, task.inner, mem', next.inner)
    ensures SameOutcome(h, mem, task, mem', next)
  {
    hide MixIn;
  }

  lemma MixOutcome(h: Hash, mem: Heap, task: Task)
    requires task.Mix? && Typed(task) && task.inner.Done?
    ensures SameOutcome(h, mem, task, Apply(mem, Store(task.at, MixIn(h, Load(mem, task.hash), task.length))),
                        Leave(task.at, task.hash, 1))
  {
    hide MixIn;
    DoneOutcome(h, mem, task.inner);
  }

  lemma LeaveOutcome(h: Hash, mem: Heap, task: Task)
    requires task.Leave? && Apart(task)
    ensures SameOutcome(h, mem, task, Apply(mem, Release(task.base, task.n)), Done(task.at))
  {}

  /** No step of any task changes what the whole call will compute. */
  lemma {:induction false} StepKeepsOutcome(h: Hash, hardware: nat, mem: Heap, task: Task, who: seq<bool>, base: nat)
    requires Typed(task) && Apart(task) && Ready(mem, task) && Act(h, hardware, mem, task, who, base).Some?
    requires Gets(Act(h, hardware, mem, task, who, base).value.1) !! Owned(task) + Reads(task)
    ensures var (next, e) := Act(h, hardware, mem, task, who, base).value;
      SameOutcome(h, mem, task, Apply(mem, e), next)
    decreases task
  {
    hide GoodJob, GoodPlan, GoodObject, EnterObject, EnterVector, Next, Log2Ceil, Gets, Owned, Reads, Apart, Apply;
    hide Load;
    hide RootOf, VectorRootOf, LeavesOf, SameOutcome;
    var (next, e) := Act(h, hardware, mem, task, who, base).value;
    PartsSee(task);
    ApartParts(task);
    StepKeepsTyped(h, hardware, mem, task, who, base);
    match task
    case Object(t, v, cpu, at) => EnterObjectOutcome(h, mem, t, v, cpu, at, base);
    case Merkle(job, cpu, limit, at) => VectorStepOutcome(h, hardware, mem, task, base);
    case Forked(_, _, _, _, first, last) =>
      if who == [] {
        JoinOutcome(h, mem, task);
      } else if !who[0] {
        StepKeepsOutcome(h, hardware, mem, first, who[1..], base);
        StepKeepsApart(h, hardware, mem, first, who[1..], base);
        HalfUntouched(h, mem, task, e, first, last);
        ForkedOutcome(h, mem, task, Apply(mem, e), next);
      } else {
        StepKeepsOutcome(h, hardware, mem, last, who[1..], base);
        StepKeepsApart(h, hardware, mem, last, who[1..], base);
        HalfUntouched(h, mem, task, e, last, first);
        ForkedOutcome(h, mem, task, Apply(mem, e), next);
      }
    case TopUp(level, limit, _, _) =>
      if level < Log2Ceil(limit) { TopUpOutcome(h, mem, task); } else { TopUpEnds(h, mem, task); }
    case Gather(plan, at, roots, i, current) =>
      if !current.Done? {
        StepKeepsOutcome(h, hardware, mem, current, who, base);
        StepKeepsApart(h, hardware, mem, current, who, base);
        MemberOutcome(h, mem, task, e, next);
      } else if i < plan.Count() {
        NextOutcome(h, mem, task, next);
      } else {
        GatherLeaves(h, mem, task);
      }
    case Mix(_, _, _, inner) =>
      if !inner.Done? {
        StepKeepsOutcome(h, hardware, mem, inner, who, base);
        InnerOutcome(h, mem, task, Apply(mem, e), next);
      } else {
        MixOutcome(h, mem, task);
      }
    case Leave(at, first, n) => LeaveOutcome(h, mem, task);
  }
}
