/**
 hash_tree_root as steps of concurrent tasks. A fork starts two calls, which std::async and the caller run at the
 same time; containers and composite elements run the calls for their members one after another. All tasks share one
 memory, and every call gets the address of the 32 bytes that its root goes to.
 */
module Tasks {
  import opened Bytes
  import opened Wrappers
  import opened MathHelpers
  import opened SparseTree
  import opened VectorRoot
  import opened Bits
  import opened Schema
  import opened ObjectRoot
  import M = MerkleTree

  // ---- memory ----

  /** Allocated memory, in units of 32 bytes. */
  type Heap = map<nat, Chunk>

  function Load(mem: Heap, a: nat): Chunk
  {
    if a in mem then mem[a] else ZERO
  }

  function Block(base: nat, n: nat): (s: set<nat>)
    ensures forall a: nat :: a in s <==> base <= a < base + n
  {
    if n == 0 then {} else Block(base, n - 1) + {base + n - 1}
  }

  function LoadAll(mem: Heap, base: nat, n: nat): (cs: seq<Chunk>)
    ensures |cs| == n
    ensures forall j :: 0 <= j < n ==> cs[j] == Load(mem, base + j)
  {
    seq<Chunk>(n, j requires 0 <= j < n => Load(mem, base + j))
  }

  datatype Effect = Nothing | Allocate(base: nat, n: nat) | Store(a: nat, value: Chunk) | Release(base: nat, n: nat)

  /** The allocator returns memory that is not in use, zeroed by the constructor of std::vector. */
  predicate Possible(mem: Heap, e: Effect)
  {
    e.Allocate? ==> Block(e.base, e.n) !! mem.Keys
  }

  function Apply(mem: Heap, e: Effect): Heap
  {
    match e
    case Nothing => mem
    case Allocate(base, n) => mem + map a | a in Block(base, n) :: ZERO
    case Store(a, value) => mem[a := value]
    case Release(base, n) => mem - Block(base, n)
  }

  // ---- what a call hashes ----

  /**
   A vector: the memory of `size` basic elements, roots, the elements lo to hi - 1 of a vector of composite elements,
   or the byte vector that holds the roots of `count` members at address `from`.
   */
  datatype Job =
    | Numbers(data: seq<Byte>, size: nat, width: nat)
    | RootVector(roots: seq<Chunk>)
    | Elements(t: Type, vs: seq<Value>, lo: nat, hi: nat)
    | Stored(from: nat, count: nat)
  {
    function Count(): nat
    {
      match this
      case Numbers(_, size, _) => size
      case RootVector(roots) => |roots|
      case Elements(_, _, lo, hi) => Minus(hi, lo)
      case Stored(_, count) => 32 * count
    }

    function ChunkTotal(): nat
    {
      match this
      case Numbers(data, _, _) => CeilDiv(|data|, 32)
      case RootVector(roots) => |roots|
      case Elements(_, _, lo, hi) => Minus(hi, lo)
      case Stored(_, count) => count
    }

    /** Below this many elements the sequential path is taken. */
    function Cutoff(): nat
    {
      if Numbers? || Stored? then 128 else 4
    }

    function HalfSize(): nat
    {
      BitCeil(Count()) / 2
    }

    /** The limit handed to both halves. */
    function HalfLimit(): nat
    {
      match this
      case Numbers(_, _, width) => CeilDiv(HalfSize() * width, 32)
      case Stored(_, _) => CeilDiv(HalfSize(), 32)
      case _ => HalfSize()
    }

    function First(): Job
    {
      match this
      case Numbers(data, _, width) => Numbers(data[..Min(HalfSize() * width, |data|)], HalfSize(), width)
      case RootVector(roots) => RootVector(roots[..Min(HalfSize(), |roots|)])
      case Elements(t, vs, lo, _) => Elements(t, vs, lo, lo + HalfSize())
      case Stored(from, _) => Stored(from, HalfSize() / 32)
    }

    function Rest(): Job
    {
      match this
      case Numbers(data, size, width) =>
        Numbers(data[Min(HalfSize() * width, |data|)..], Minus(size, HalfSize()), width)
      case RootVector(roots) => RootVector(roots[Min(HalfSize(), |roots|)..])
      case Elements(t, vs, lo, hi) => Elements(t, vs, lo + HalfSize(), hi)
      case Stored(from, count) => Stored(from + HalfSize() / 32, Minus(count, HalfSize() / 32))
    }
  }

  ghost predicate TypedJob(job: Job)
  {
    match job
    case Numbers(data, size, width) => BasicWidth(width) && |data| == size * width
    case Elements(t, vs, lo, hi) => GoodSlice(t, vs, lo, hi) && (t.Vector? || t.List?) && !t.elem.Uint?
    case _ => true
  }

  ghost predicate GoodSlice(t: Type, vs: seq<Value>, lo: nat, hi: nat)
  {
    WellFormed(t) && Shallow(t) && HaveTypes(t, vs) && lo <= hi <= |vs|
  }

  ghost predicate GoodJob(job: Job, limit: nat)
  {
    TypedJob(job) && GoodLimit(job.ChunkTotal(), limit)
  }

  ghost function LeavesOf(h: Hash, mem: Heap, job: Job): (cs: seq<Chunk>)
    requires TypedJob(job)
    ensures |cs| == job.ChunkTotal()
  {
    match job
    case Numbers(data, _, _) => Chunkify(data)
    case RootVector(roots) => roots
    case Elements(t, vs, lo, hi) => MemberRoots(h, t, vs, lo, hi)
    case Stored(from, count) => LoadAll(mem, from, count)
  }

  /** A job that is forked and its halves. */
  ghost predicate Splits(job: Job, limit: nat)
  {
    var n, half := job.ChunkTotal(), job.HalfLimit();
    && 0 < job.First().Count() < job.Count() && 0 < job.Rest().Count() < job.Count()
    && GoodJob(job.First(), half) && GoodJob(job.Rest(), half)
    && half < n && half == Pow2(Log2Ceil(half)) && Log2Ceil(n) == Log2Ceil(half) + 1
    && Log2Ceil(limit) <= ZERO_HASH_DEPTH
  }

  ghost predicate LeavesSplit(h: Hash, mem: Heap, job: Job)
    requires TypedJob(job) && TypedJob(job.First()) && TypedJob(job.Rest()) && job.HalfLimit() <= job.ChunkTotal()
  {
    && LeavesOf(h, mem, job.First()) == LeavesOf(h, mem, job)[..job.HalfLimit()]
    && LeavesOf(h, mem, job.Rest()) == LeavesOf(h, mem, job)[job.HalfLimit()..]
  }

  lemma HalvesOf(h: Hash, mem: Heap, job: Job, limit: nat)
    requires GoodJob(job, limit) && job.Count() >= job.Cutoff()
    ensures Splits(job, limit) && LeavesSplit(h, mem, job)
  {
    hide LeavesSplit, Splits, GoodJob;
    match job
    case Numbers(_, _, _) => NumberHalves(h, mem, job, limit);
    case RootVector(_) => RootVectorHalves(h, mem, job, limit);
    case Elements(_, _, _, _) => ElementHalves(h, mem, job, limit);
    case Stored(_, _) => StoredHalves(h, mem, job, limit);
  }

  lemma NumberHalves(h: Hash, mem: Heap, job: Job, limit: nat)
    requires job.Numbers? && GoodJob(job, limit) && job.size >= 128
    ensures Splits(job, limit) && LeavesSplit(h, mem, job)
  {
    hide Log2Ceil, BitCeil, Chunkify, GoodLimit;
    var k := BasicSplit(job.size, job.width);
    Remainder(job.size, job.HalfSize(), job.width);
    BasicHalves(job.data, job.HalfSize() * job.width, k, limit);
  }

  lemma RootVectorHalves(h: Hash, mem: Heap, job: Job, limit: nat)
    requires job.RootVector? && GoodJob(job, limit) && |job.roots| >= 4
    ensures Splits(job, limit) && LeavesSplit(h, mem, job)
  {
    hide Log2Ceil, BitCeil, GoodLimit;
    var k := RootSplit(|job.roots|);
    RootHalves(|job.roots|, job.HalfSize(), k, limit);
  }

  lemma ElementHalves(h: Hash, mem: Heap, job: Job, limit: nat)
    requires job.Elements? && GoodJob(job, limit) && job.Count() >= 4
    ensures Splits(job, limit) && LeavesSplit(h, mem, job)
  {
    hide Log2Ceil, BitCeil, GoodLimit, MemberRoots, HaveTypes, WellFormed, Shallow;
    var k := RootSplit(job.hi - job.lo);
    RootHalves(job.hi - job.lo, job.HalfSize(), k, limit);
    MemberRootsSplit(h, job.t, job.vs, job.lo, job.lo + job.HalfSize(), job.hi);
  }

  lemma StoredHalves(h: Hash, mem: Heap, job: Job, limit: nat)
    requires job.Stored? && GoodJob(job, limit) && job.Count() >= 128
    ensures Splits(job, limit) && LeavesSplit(h, mem, job)
  {
    hide Log2Ceil, BitCeil, GoodLimit;
    var k := BasicSplit(32 * job.count, 1);
    assert CeilDiv(32 * job.count * 1, 32) == job.count;
    assert job.HalfSize() == 32 * Pow2(k);
    StoredRest(mem, job, Pow2(k));
    ChunkHalves(job.count, k, limit);
  }

  lemma ChunkHalves(n: nat, k: nat, limit: nat)
    requires Pow2(k) < n <= Pow2(k + 1) && Log2Ceil(n) == k + 1 && GoodLimit(n, limit)
    ensures Log2Ceil(Pow2(k)) == k
    ensures GoodLimit(Pow2(k), Pow2(k)) && GoodLimit(n - Pow2(k), Pow2(k))
    ensures Log2Ceil(limit) <= ZERO_HASH_DEPTH
  {
    Log2CeilOfPow2(k);
    RootHalves(n, Pow2(k), k, limit);
  }

  lemma StoredRest(mem: Heap, job: Job, half: nat)
    requires job.Stored? && half <= job.count
    ensures LoadAll(mem, job.from, half) == LoadAll(mem, job.from, job.count)[..half]
    ensures LoadAll(mem, job.from + half, job.count - half) == LoadAll(mem, job.from, job.count)[half..]
  {
    var rest, all := LoadAll(mem, job.from + half, job.count - half), LoadAll(mem, job.from, job.count);
    forall j | 0 <= j < job.count - half
      ensures rest[j] == all[half..][j]
    {
      assert job.from + half + j == job.from + (half + j);
    }
  }

  /** Which overload for vectors applies. */
  ghost function JobOf(t: Type, vs: seq<Value>): Job
    requires WellFormed(t) && HaveTypes(t, vs) && (t.Vector? || t.List?)
  {
    if t.elem.Uint? then
      MemoryIsPacked(t, vs, 0, 0);
      Numbers(Memory(t.elem.width, vs, 0), |vs|, t.elem.width)
    else if t.elem == ROOT then
      assert forall j :: 0 <= j < |vs| ==> HasType(Member(t, j), vs[j]);
      RootVector(Roots(vs, 0))
    else Elements(t, vs, 0, |vs|)
  }

  // ---- tasks ----

  /**
   Members lo to hi - 1 to be hashed one after another with `each` cpus, and then the byte vector of their roots with
   `cpu` cpus and this limit.
   */
  datatype Plan = Plan(t: Type, vs: seq<Value>, lo: nat, hi: nat, each: nat, cpu: nat, limit: nat)
  {
    function Count(): nat
    {
      Minus(hi, lo)
    }
  }

  /** Control state of a call; its root goes to `at`. */
  datatype Task =
    | Object(t: Type, v: Value, cpu: nat, at: nat)
    | Merkle(job: Job, cpu: nat, limit: nat, at: nat)
    | Forked(height: nat, limit: nat, at: nat, blocks: nat, first: Task, last: Task)
    | TopUp(level: nat, limit: nat, at: nat, blocks: nat)
    | Gather(plan: Plan, at: nat, base: nat, i: nat, current: Task)
    | Mix(length: nat, at: nat, hash: nat, inner: Task)
    | Leave(at: nat, base: nat, n: nat)
    | Done(at: nat)

  ghost predicate GoodPlan(p: Plan)
  {
    GoodSlice(p.t, p.vs, p.lo, p.hi) && GoodLimit(p.hi - p.lo, p.limit)
  }

  ghost predicate GoodObject(t: Type, v: Value)
  {
    WellFormed(t) && HasType(t, v) && Shallow(t)
  }

  /** Every call has arguments as the source demands them, and a place for its root. */
  ghost predicate Typed(task: Task)
  {
    match task
    case Object(t, v, _, _) => GoodObject(t, v)
    case Merkle(job, _, limit, _) => GoodJob(job, limit)
    case Forked(_, limit, _, blocks, first, last) =>
      Typed(first) && Typed(last) && first.at == blocks && last.at == blocks + 1
    case Gather(plan, at, base, i, current) =>
      && GoodPlan(plan) && i <= plan.Count() && Typed(current)
      && current.at == if i < plan.Count() then base + i else at
    case Mix(_, _, hash, inner) => Typed(inner) && inner.at == hash
    case _ => true
  }

  ghost predicate Forks(job: Job, cpu: nat)
  {
    cpu >= 2 && job.Count() >= job.Cutoff()
  }

  /** The call for member i, or, when all of them are done, for the byte vector of their roots. */
  ghost function Next(p: Plan, at: nat, base: nat, i: nat): Task
    requires GoodPlan(p)
  {
    if i < p.Count() then Object(Member(p.t, p.lo + i), p.vs[p.lo + i], p.each, base + i)
    else Merkle(Stored(base, p.Count()), p.cpu, p.limit, at)
  }

  /** How the call on an object starts; `base` is where the allocator would put what it needs. */
  ghost function EnterObject(mem: Heap, t: Type, v: Value, cpu: nat, at: nat, base: nat): (Task, Effect)
    requires GoodObject(t, v)
  {
    match t
    case Uint(w) => (Done(at), Store(at, LittleEndian(v.n, w) + Load(mem, at)[w..]))
    case Bool => (Done(at), Store(at, [if v.b then 1 else 0] + Load(mem, at)[1..]))
    case Bitvector(n) =>
      (Merkle(Numbers(PackBits(v.bits), CeilDiv(n, 8), 1), cpu, CeilDiv(n, 256), at), Nothing)
    case Bitlist(limit) =>
      var data := StripDelimiter(BitlistBytes(v.bits));
      (Mix(|v.bits|, at, base, Merkle(Numbers(data, |data|, 1), cpu, CeilDiv(limit, 256), base)), Allocate(base, 1))
    case Vector(_, _) => (Merkle(JobOf(t, v.items), cpu, 0, at), Nothing)
    case List(_, _) =>
      (Mix(|v.items|, at, base, Merkle(JobOf(t, v.items), cpu, ListLimit(t), base)), Allocate(base, 1))
    case Container(fields) =>
      MemberPlan(t, v, cpu);
      var p := Plan(t, v.items, 0, |fields|, cpu, cpu, 0);
      (Gather(p, at, base, 0, Next(p, at, base, 0)), Allocate(base, |fields|))
  }

  lemma MemberPlan(t: Type, v: Value, cpu: nat)
    requires GoodObject(t, v) && t.Container?
    ensures v.Items?
    ensures GoodPlan(Plan(t, v.items, 0, |t.fields|, cpu, cpu, 0))
  {
    hide GoodLimit;
    LimitIsGood(t, v);
  }

  /** How the call on a vector starts: fork, gather the roots of elements, or hash at once. */
  ghost function EnterVector(h: Hash, hardware: nat, mem: Heap, job: Job, cpu: nat, limit: nat, at: nat, base: nat)
    : (Task, Effect)
    requires GoodJob(job, limit)
  {
    if Forks(job, Resolve(cpu, hardware)) then
      var half := Resolve(cpu, hardware) / 2;
      (Forked(Log2Ceil(job.HalfLimit()) + 1, limit, at, base, Merkle(job.First(), half, job.HalfLimit(), base),
              Merkle(job.Rest(), half, job.HalfLimit(), base + 1)), Allocate(base, 2))
    else if job.Elements? then
      var p := Plan(job.t, job.vs, job.lo, job.hi, 1, 1, limit);
      (Gather(p, at, base, 0, Next(p, at, base, 0)), Allocate(base, p.Count()))
    else (Done(at), Store(at, VectorRootOf(h, LeavesOf(h, mem, job), limit)))
  }

  /**
   One step of the task that `who` leads to (false: into the first half of a fork); none if that task cannot move.
   */
  ghost function Act(h: Hash, hardware: nat, mem: Heap, task: Task, who: seq<bool>, base: nat)
    : Option<(Task, Effect)>
    requires Typed(task)
    decreases task
  {
    match task
    case Object(t, v, cpu, at) => if who == [] then Some(EnterObject(mem, t, v, cpu, at, base)) else None
    case Merkle(job, cpu, limit, at) =>
      if who == [] then Some(EnterVector(h, hardware, mem, job, cpu, limit, at, base)) else None
    case Forked(height, limit, at, blocks, first, last) =>
      if who == [] then
        if first.Done? && last.Done?
        then Some((TopUp(height, limit, at, blocks), Store(at, h(Load(mem, blocks), Load(mem, blocks + 1)))))
        else None
      else if !who[0] then
        var r := Act(h, hardware, mem, first, who[1..], base);
        if r.None? then None else Some((Forked(height, limit, at, blocks, r.value.0, last), r.value.1))
      else
        var r := Act(h, hardware, mem, last, who[1..], base);
        if r.None? then None else Some((Forked(height, limit, at, blocks, first, r.value.0), r.value.1))
    case TopUp(level, limit, at, blocks) =>
      if who != [] then None
      else if level < Log2Ceil(limit)
      then Some((TopUp(level + 1, limit, at, blocks), Store(at, h(Load(mem, at), M.ZeroHash(h, ZERO, level)))))
      else Some((Done(at), Release(blocks, 2)))
    case Gather(plan, at, roots, i, current) =>
      if !current.Done? then
        var r := Act(h, hardware, mem, current, who, base);
        if r.None? then None else Some((Gather(plan, at, roots, i, r.value.0), r.value.1))
      else if who != [] then None
      else if i < plan.Count() then Some((Gather(plan, at, roots, i + 1, Next(plan, at, roots, i + 1)), Nothing))
      else Some((Done(at), Release(roots, plan.Count())))
    case Mix(length, at, hash, inner) =>
      if !inner.Done? then
        var r := Act(h, hardware, mem, inner, who, base);
        if r.None? then None else Some((Mix(length, at, hash, r.value.0), r.value.1))
      else if who != [] then None
      else Some((Leave(at, hash, 1), Store(at, MixIn(h, Load(mem, hash), length))))
    case Leave(at, first, n) => if who == [] then Some((Done(at), Release(first, n))) else None
    case Done(_) => None
  }
}
