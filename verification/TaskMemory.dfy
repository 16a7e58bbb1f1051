/** Which memory the tasks of a run may touch, and that tasks that run at the same time do not meet there. */
module TaskMemory {
  import opened Wrappers
  import opened MathHelpers
  import opened SparseTree
  import opened VectorRoot
  import opened Bits
  import opened Schema
  import opened ObjectRoot
  import opened Tasks

  // ---- steps keep arguments as they must be ----

  lemma EnterObjectTyped(mem: Heap, t: Type, v: Value, cpu: nat, at: nat, base: nat)
    requires GoodObject(t, v)
    ensures var task := EnterObject(mem, t, v, cpu, at, base).0; Typed(task) && task.at == at
  {
    hide GoodLimit, Chunkify, PackBits, StripDelimiter, BitlistBytes, HasType, Shallow, ChunkCount, Next;
    LimitIsGood(t, v);
    match t
    case Uint(_) =>
    case Bool =>
    case Bitvector(_) => BitvectorTyped(t, v);
    case Bitlist(_) => BitlistTyped(t, v);
    case Vector(_, _) => JobTyped(t, v);
    case List(_, _) => JobTyped(t, v);
    case Container(fields) =>
      MemberPlan(t, v, cpu);
      NextTyped(Plan(t, v.items, 0, |fields|, cpu, cpu, 0), at, base, 0);
  }

  lemma BitvectorTyped(t: Type, v: Value)
    requires GoodObject(t, v) && t.Bitvector?
    ensures |v.bits| == t.length
    ensures GoodJob(Numbers(PackBits(v.bits), CeilDiv(t.length, 8), 1), CeilDiv(t.length, 256))
  {
    hide PackBits;
    LimitIsGood(t, v);
  }

  lemma BitlistTyped(t: Type, v: Value)
    requires GoodObject(t, v) && t.Bitlist?
    ensures var data := StripDelimiter(BitlistBytes(v.bits)); GoodJob(Numbers(data, |data|, 1), CeilDiv(t.limit, 256))
  {
    hide StripDelimiter, BitlistBytes, PackBits;
    StripLeavesPacking(v.bits);
    LimitIsGood(t, v);
  }

  lemma JobTyped(t: Type, v: Value)
    requires GoodObject(t, v) && (t.Vector? || t.List?)
    ensures HaveTypes(t, v.items)
    ensures t.Vector? ==> GoodJob(JobOf(t, v.items), 0)
    ensures t.List? ==> GoodJob(JobOf(t, v.items), ListLimit(t))
  {
    hide GoodLimit;
    LimitIsGood(t, v);
    if t.elem.Uint? {
      MemoryOf(t, v);
      assert WellFormed(t.elem);
    }
  }

  lemma NextTyped(p: Plan, at: nat, base: nat, i: nat)
    requires GoodPlan(p) && i <= p.Count()
    ensures var task := Next(p, at, base, i); Typed(task) && task.at == if i < p.Count() then base + i else at
  {
    hide GoodLimit;
    if i < p.Count() {
      assert HasType(Member(p.t, p.lo + i), p.vs[p.lo + i]);
    }
  }

  lemma EnterVectorTyped(h: Hash, hardware: nat, mem: Heap, job: Job, cpu: nat, limit: nat, at: nat, base: nat)
    requires GoodJob(job, limit)
    ensures var task := EnterVector(h, hardware, mem, job, cpu, limit, at, base).0; Typed(task) && task.at == at
  {
    hide GoodLimit, LeavesOf, VectorRootOf, Next, Log2Ceil;
    if Forks(job, Resolve(cpu, hardware)) {
      HalvesOf(h, mem, job, limit);
    } else if job.Elements? {
      NextTyped(Plan(job.t, job.vs, job.lo, job.hi, 1, 1, limit), at, base, 0);
    }
  }

  lemma {:induction false} StepKeepsTyped(h: Hash, hardware: nat, mem: Heap, task: Task, who: seq<bool>, base: nat)
    requires Typed(task) && Act(h, hardware, mem, task, who, base).Some?
    ensures var next := Act(h, hardware, mem, task, who, base).value.0; Typed(next) && next.at == task.at
    decreases task
  {
    hide GoodJob, GoodPlan, GoodObject, EnterObject, EnterVector, Next, Log2Ceil;
    match task
    case Object(t, v, cpu, at) => EnterObjectTyped(mem, t, v, cpu, at, base);
    case Merkle(job, cpu, limit, at) => EnterVectorTyped(h, hardware, mem, job, cpu, limit, at, base);
    case Forked(_, _, _, _, first, last) =>
      if who != [] && !who[0] {
        StepKeepsTyped(h, hardware, mem, first, who[1..], base);
      } else if who != [] {
        StepKeepsTyped(h, hardware, mem, last, who[1..], base);
      }
    case Gather(plan, at, roots, i, current) =>
      if !current.Done? {
        StepKeepsTyped(h, hardware, mem, current, who, base);
      } else if i < plan.Count() {
        NextTyped(plan, at, roots, i + 1);
      }
    case Mix(_, _, _, inner) =>
      if !inner.Done? { StepKeepsTyped(h, hardware, mem, inner, who, base); }
    case _ =>
  }

  // ---- what a task may touch ----

  /** The addresses a task may write to, with those it will free. */
  ghost function Owned(task: Task): set<nat>
  {
    match task
    case Forked(_, _, at, _, first, last) => {at} + Owned(first) + Owned(last)
    case TopUp(_, _, at, blocks) => {at} + Block(blocks, 2)
    case Gather(plan, at, base, _, current) => {at} + Block(base, plan.Count()) + Owned(current)
    case Mix(_, at, _, inner) => {at} + Owned(inner)
    case Leave(at, base, n) => {at} + Block(base, n)
    case _ => {task.at}
  }

  /** The addresses of others that a task reads: the roots of members, while a tree is built on them. */
  ghost function Reads(task: Task): set<nat>
  {
    match task
    case Merkle(job, _, _, _) => if job.Stored? then Block(job.from, job.count) else {}
    case Forked(_, _, _, _, first, last) => Reads(first) + Reads(last)
    case _ => {}
  }

  /** Tasks that run at the same time write to different places, which none of them reads. */
  ghost predicate Apart(task: Task)
  {
    match task
    case Merkle(_, _, _, at) => at !in Reads(task)
    case Forked(_, _, at, _, first, last) =>
      && Apart(first) && Apart(last)
      && Owned(first) !! Owned(last)
      && Owned(first) + Owned(last) !! Reads(first) + Reads(last)
      && at !in Owned(first) + Owned(last) + Reads(first) + Reads(last)
    case TopUp(_, _, at, blocks) => at !in Block(blocks, 2)
    case Gather(plan, at, base, i, current) =>
      && Apart(current) && at !in Block(base, plan.Count())
      && if i < plan.Count()
         then Reads(current) == {} && Owned(current) * ({at} + Block(base, plan.Count())) == {base + i}
         else Reads(current) <= Block(base, plan.Count()) && Owned(current) !! Block(base, plan.Count())
    case Mix(_, at, _, inner) => Apart(inner) && Reads(inner) == {} && at !in Owned(inner)
    case Leave(at, base, n) => at !in Block(base, n)
    case _ => true
  }

  lemma OwnsItsPlace(task: Task)
    ensures task.at in Owned(task)
  {}

  lemma ReadsOfOthers(task: Task)
    requires Apart(task)
    ensures Owned(task) !! Reads(task)
  {}

  function Gets(e: Effect): set<nat>
  {
    if e.Allocate? then Block(e.base, e.n) else {}
  }

  function Frees(e: Effect): set<nat>
  {
    if e.Release? then Block(e.base, e.n) else {}
  }

  /** What a step changes of the memory that was there before. */
  function Changes(e: Effect): set<nat>
  {
    if e.Store? then {e.a} else Frees(e)
  }

  /** A step touches memory of its task only, and hands on what it allocates. */
  ghost predicate Keeps(task: Task, e: Effect, next: Task)
  {
    && Apart(next)
    && Owned(next) == Owned(task) + Gets(e) - Frees(e)
    && Reads(next) <= Reads(task)
    && Changes(e) <= Owned(task)
    && task.at !in Frees(e)
  }

  lemma EnterObjectApart(mem: Heap, t: Type, v: Value, cpu: nat, at: nat, base: nat)
    requires GoodObject(t, v)
    requires var e := EnterObject(mem, t, v, cpu, at, base).1; at !in Gets(e)
    ensures var (next, e) := EnterObject(mem, t, v, cpu, at, base); Keeps(Object(t, v, cpu, at), e, next)
  {
    hide GoodObject, PackBits, StripDelimiter, BitlistBytes, Load, Keeps;
    var task, next, e := Object(t, v, cpu, at), EnterObject(mem, t, v, cpu, at, base).0,
                         EnterObject(mem, t, v, cpu, at, base).1;
    if t.Container? {
      MemberPlan(t, v, cpu);
      NextApart(Plan(t, v.items, 0, |t.fields|, cpu, cpu, 0), at, base);
      GatherKeeps(task, next.plan, base, next);
    } else if t.List? || t.Bitlist? {
      MixKeeps(task, base, next);
    } else if t.Uint? || t.Bool? {
      DoneKeeps(task, e);
    } else {
      CallKeeps(task, next);
    }
  }

  lemma MixKeeps(task: Task, base: nat, next: Task)
    requires task.Object? && task.at !in Block(base, 1)
    requires next.Mix? && next.at == task.at && next.inner.Merkle? && next.inner.at == base
    requires !next.inner.job.Stored?
    ensures Keeps(task, Allocate(base, 1), next)
  {
    assert Owned(next) == Owned(task) + Gets(Allocate(base, 1)) - Frees(Allocate(base, 1));
  }

  lemma CallKeeps(task: Task, next: Task)
    requires task.Object? && next.Merkle? && next.at == task.at && !next.job.Stored?
    ensures Keeps(task, Nothing, next)
  {
    assert Owned(next) == Owned(task) + Gets(Nothing) - Frees(Nothing);
  }

  lemma NextApart(p: Plan, at: nat, base: nat)
    requires GoodPlan(p) && at !in Block(base, p.Count())
    ensures Apart(Gather(p, at, base, 0, Next(p, at, base, 0)))
    ensures Owned(Gather(p, at, base, 0, Next(p, at, base, 0))) == {at} + Block(base, p.Count())
  {
    hide GoodPlan;
  }

  lemma EnterVectorApart(h: Hash, hardware: nat, mem: Heap, job: Job, cpu: nat, limit: nat, at: nat, base: nat)
    requires GoodJob(job, limit) && Apart(Merkle(job, cpu, limit, at))
    requires var e := EnterVector(h, hardware, mem, job, cpu, limit, at, base).1;
      Gets(e) !! {at} + Reads(Merkle(job, cpu, limit, at))
    ensures var (next, e) := EnterVector(h, hardware, mem, job, cpu, limit, at, base);
      Keeps(Merkle(job, cpu, limit, at), e, next)
  {
    hide LeavesOf, VectorRootOf, Log2Ceil, BitCeil, Keeps, GoodLimit;
    var task := Merkle(job, cpu, limit, at);
    if Forks(job, Resolve(cpu, hardware)) {
      HalvesOf(h, mem, job, limit);
      ForkApart(task, base, EnterVector(h, hardware, mem, job, cpu, limit, at, base).0);
    } else if job.Elements? {
      var p := Plan(job.t, job.vs, job.lo, job.hi, 1, 1, limit);
      NextApart(p, at, base);
      GatherKeeps(task, p, base, Gather(p, at, base, 0, Next(p, at, base, 0)));
    } else {
      DoneKeeps(task, EnterVector(h, hardware, mem, job, cpu, limit, at, base).1);
    }
  }

  lemma GatherKeeps(task: Task, p: Plan, base: nat, next: Task)
    requires (task.Merkle? || task.Object?) && next.Gather? && Reads(next) == {} && Apart(next)
    requires Owned(next) == {task.at} + Block(base, p.Count())
    ensures Keeps(task, Allocate(base, p.Count()), next)
  {}

  lemma DoneKeeps(task: Task, e: Effect)
    requires (task.Merkle? || task.Object?) && e.Store? && e.a == task.at
    ensures Keeps(task, e, Done(task.at))
  {
    assert Owned(Done(task.at)) == Owned(task) + Gets(e) - Frees(e);
  }

  lemma ForkOwns(task: Task)
    requires task.Forked?
    ensures Owned(task) == {task.at} + Owned(task.first) + Owned(task.last)
    ensures Reads(task) == Reads(task.first) + Reads(task.last)
  {}

  lemma ForkApart(task: Task, base: nat, next: Task)
    requires task.Merkle? && Apart(task) && Splits(task.job, task.limit)
    requires Block(base, 2) !! {task.at} + Reads(task)
    requires next.Forked? && next.at == task.at && next.blocks == base
    requires next.first.Merkle? && next.first.at == base && next.first.job == task.job.First()
    requires next.last.Merkle? && next.last.at == base + 1 && next.last.job == task.job.Rest()
    ensures Keeps(task, Allocate(base, 2), next)
  {
    hide Splits, Reads, Block, Owned, Keeps, Apart;
    HalvesRead(task, next.first, next.last);
    TwoBlocks(base);
    ForkOwns(next);
    CallOwns(task);
    CallOwns(next.first);
    CallOwns(next.last);
    NotInReads(task);
    FreshFork(next, Reads(task));
    AllocationKeeps(task, base, 2, next);
  }

  lemma NotInReads(task: Task)
    requires task.Merkle? && Apart(task)
    ensures task.at !in Reads(task)
  {}

  lemma AllocationKeeps(task: Task, base: nat, n: nat, next: Task)
    requires Apart(next) && Owned(next) == Owned(task) + Block(base, n) && Reads(next) <= Reads(task)
    ensures Keeps(task, Allocate(base, n), next)
  {
    hide Owned, Reads, Apart, Block;
    assert Owned(next) == Owned(task) + Block(base, n) - {};
  }

  lemma CallOwns(task: Task)
    requires task.Merkle?
    ensures Owned(task) == {task.at}
  {}

  lemma FreshFork(next: Task, seen: set<nat>)
    requires next.Forked? && next.first.Merkle? && next.last.Merkle?
    requires Owned(next.first) == {next.blocks} && Owned(next.last) == {next.blocks + 1}
    requires next.first.at == next.blocks && next.last.at == next.blocks + 1
    requires Reads(next.first) + Reads(next.last) <= seen
    requires next.at !in seen && {next.blocks, next.blocks + 1} !! {next.at} + seen
    ensures Apart(next)
  {
    hide Owned, Reads;
  }

  lemma TwoBlocks(base: nat)
    ensures Block(base, 2) == {base, base + 1}
  {}

  lemma HalvesRead(task: Task, first: Task, last: Task)
    requires task.Merkle? && Splits(task.job, task.limit)
    requires first.Merkle? && first.job == task.job.First()
    requires last.Merkle? && last.job == task.job.Rest()
    ensures Reads(first) + Reads(last) <= Reads(task)
  {
    hide GoodJob, Log2Ceil, BitCeil;
  }

  /** The invariant of a run: no step makes tasks meet in memory. */
  lemma {:induction false} StepKeepsApart(h: Hash, hardware: nat, mem: Heap, task: Task, who: seq<bool>, base: nat)
    requires Typed(task) && Apart(task) && Act(h, hardware, mem, task, who, base).Some?
    requires Gets(Act(h, hardware, mem, task, who, base).value.1) !! Owned(task) + Reads(task)
    ensures var (next, e) := Act(h, hardware, mem, task, who, base).value; Keeps(task, e, next)
    decreases task
  {
    hide GoodJob, GoodPlan, GoodObject, EnterObject, EnterVector, Next, Log2Ceil, Keeps, Gets;
    var (next, e) := Act(h, hardware, mem, task, who, base).value;
    match task
    case Object(t, v, cpu, at) =>
      EnterObjectApart(mem, t, v, cpu, at, base);
    case Merkle(job, cpu, limit, at) =>
      EnterVectorApart(h, hardware, mem, job, cpu, limit, at, base);
    case Forked(_, _, _, _, first, last) =>
      if who == [] {
        JoinKeeps(task, next, e);
      } else if !who[0] {
        StepKeepsApart(h, hardware, mem, first, who[1..], base);
        FirstKeeps(task, e, next);
      } else {
        StepKeepsApart(h, hardware, mem, last, who[1..], base);
        LastKeeps(task, e, next);
      }
    case Gather(plan, at, roots, i, current) =>
      if !current.Done? {
        StepKeepsApart(h, hardware, mem, current, who, base);
        StepKeepsTyped(h, hardware, mem, current, who, base);
        MemberKeeps(task, e, next);
      } else {
        GatherMoves(task, e, next);
      }
    case Mix(_, _, _, inner) =>
      if !inner.Done? {
        StepKeepsApart(h, hardware, mem, inner, who, base);
        StepKeepsTyped(h, hardware, mem, inner, who, base);
        MixStepKeeps(task, e, next);
      } else {
        MixMoves(task, e, next);
      }
    case _ => LeaveKeeps(task, e, next);
  }

  lemma JoinKeeps(task: Task, next: Task, e: Effect)
    requires task.Forked? && Typed(task) && Apart(task) && task.first.Done? && task.last.Done?
    requires next.TopUp? && next.at == task.at && next.blocks == task.blocks && e.Store? && e.a == task.at
    ensures Keeps(task, e, next)
  {
    assert Block(task.blocks, 2) == {task.blocks, task.blocks + 1};
    assert Owned(next) == Owned(task) + Gets(e) - Frees(e);
  }

  lemma HalfMoves(at: nat, own: set<nat>, other: set<nat>, seen: set<nat>, otherSeen: set<nat>, e: Effect,
                  own': set<nat>, seen': set<nat>)
    requires own !! other && own + other !! seen + otherSeen && at !in own + other + seen + otherSeen
    requires own' == own + Gets(e) - Frees(e) && seen' <= seen && Frees(e) <= own
    requires Gets(e) !! {at} + own + other + (seen + otherSeen)
    ensures own' !! other && own' + other !! seen' + otherSeen && at !in own' + other + seen' + otherSeen
    ensures {at} + own' + other == {at} + own + other + Gets(e) - Frees(e)
  {
    hide Gets, Frees;
  }

  lemma FirstKeeps(task: Task, e: Effect, next: Task)
    requires task.Forked? && next.Forked? && next == task.(first := next.first)
    requires Apart(task) && Keeps(task.first, e, next.first) && Gets(e) !! Owned(task) + Reads(task)
    ensures Keeps(task, e, next)
  {
    hide Gets, Frees, Owned, Reads;
    OwnsItsPlace(task.first);
    ForkOwns(task);
    ForkOwns(next);
    FreesBelow(task.first, e, next.first);
    HalfMoves(task.at, Owned(task.first), Owned(task.last), Reads(task.first), Reads(task.last), e,
              Owned(next.first), Reads(next.first));
  }

  lemma LastKeeps(task: Task, e: Effect, next: Task)
    requires task.Forked? && next.Forked? && next == task.(last := next.last)
    requires Apart(task) && Keeps(task.last, e, next.last) && Gets(e) !! Owned(task) + Reads(task)
    ensures Keeps(task, e, next)
  {
    hide Gets, Frees, Owned, Reads;
    OwnsItsPlace(task.last);
    ForkOwns(task);
    ForkOwns(next);
    FreesBelow(task.last, e, next.last);
    HalfMoves(task.at, Owned(task.last), Owned(task.first), Reads(task.last), Reads(task.first), e,
              Owned(next.last), Reads(next.last));
  }

  lemma OwnedMoves(outer: set<nat>, inner: set<nat>, e: Effect, next: set<nat>)
    requires next == inner + Gets(e) - Frees(e)
    requires Frees(e) !! outer && Gets(e) !! outer + inner
    ensures outer + next == outer + inner + Gets(e) - Frees(e)
    ensures next * outer == inner * outer
  {
    hide Gets, Frees;
  }

  lemma MemberKeeps(task: Task, e: Effect, next: Task)
    requires task.Gather? && next.Gather? && next == task.(current := next.current)
    requires Typed(task) && next.current.at == task.current.at
    requires Apart(task) && Keeps(task.current, e, next.current) && Gets(e) !! Owned(task) + Reads(task)
    ensures Keeps(task, e, next)
  {
    hide GoodPlan, Gets, Frees, Block;
    var roots := Block(task.base, task.plan.Count());
    OwnsItsPlace(task.current);
    GatherOwns(task);
    GatherOwns(next);
    FreesBelow(task.current, e, next.current);
    MemberFrees(task, e, roots);
    OwnedMoves({task.at} + roots, Owned(task.current), e, Owned(next.current));
    GatherApart(task, next);
  }

  lemma GatherOwns(task: Task)
    requires task.Gather?
    ensures Owned(task) == {task.at} + Block(task.base, task.plan.Count()) + Owned(task.current)
    ensures Reads(task) == {}
  {}

  lemma FreesBelow(task: Task, e: Effect, next: Task)
    requires Keeps(task, e, next)
    ensures Frees(e) <= Owned(task) - {task.at}
  {}

  lemma GatherApart(task: Task, next: Task)
    requires task.Gather? && next.Gather? && next == task.(current := next.current) && Apart(task) && Typed(task)
    requires Apart(next.current) && Reads(next.current) <= Reads(task.current)
    requires var outer := {task.at} + Block(task.base, task.plan.Count());
      Owned(next.current) * outer == Owned(task.current) * outer
    ensures Apart(next)
  {
    hide GoodPlan, Block;
    var roots := Block(task.base, task.plan.Count());
    if task.i >= task.plan.Count() {
      var inside := Owned(next.current) * ({task.at} + roots);
      assert inside * roots == {};
      assert Owned(next.current) * roots == inside * roots;
    }
  }

  lemma MemberFrees(task: Task, e: Effect, roots: set<nat>)
    requires task.Gather? && Typed(task) && Apart(task) && roots == Block(task.base, task.plan.Count())
    requires Frees(e) <= Owned(task.current) - {task.current.at}
    ensures Frees(e) !! {task.at} + roots
  {
    hide GoodPlan;
    if task.i < task.plan.Count() {
      assert Frees(e) * ({task.at} + roots) <= Owned(task.current) * ({task.at} + roots);
    }
  }

  lemma GatherMoves(task: Task, e: Effect, next: Task)
    requires task.Gather? && task.current.Done? && Typed(task) && Apart(task)
    requires var i := task.i + 1;
      if i <= task.plan.Count()
      then e == Nothing && next == task.(i := i, current := Next(task.plan, task.at, task.base, i))
      else e == Release(task.base, task.plan.Count()) && next == Done(task.at)
    ensures Keeps(task, e, next)
  {
    hide GoodPlan, Next;
    var roots := Block(task.base, task.plan.Count());
    assert Owned(task) == {task.at} + roots;
    if task.i < task.plan.Count() {
      NextTouches(task.plan, task.at, task.base, task.i + 1);
      NextMember(next);
      assert Owned(next) == Owned(task) + Gets(e) - Frees(e);
    } else {
      assert Owned(next) == Owned(task) + Gets(e) - Frees(e);
    }
  }

  lemma NextTouches(p: Plan, at: nat, base: nat, i: nat)
    requires GoodPlan(p) && i <= p.Count() && at !in Block(base, p.Count())
    ensures var task := Next(p, at, base, i);
      && task.at == (if i < p.Count() then base + i else at)
      && Owned(task) == {task.at} && Apart(task)
      && Reads(task) == if i < p.Count() then {} else Block(base, p.Count())
  {
    hide GoodPlan;
  }

  lemma NextMember(task: Task)
    requires task.Gather? && task.i <= task.plan.Count() && task.at !in Block(task.base, task.plan.Count())
    requires task.current.at == if task.i < task.plan.Count() then task.base + task.i else task.at
    requires Owned(task.current) == {task.current.at} && Apart(task.current)
    requires Reads(task.current) == if task.i < task.plan.Count() then {} else Block(task.base, task.plan.Count())
    ensures Apart(task)
  {
    var roots := Block(task.base, task.plan.Count());
    if task.i < task.plan.Count() {
      assert Owned(task.current) * ({task.at} + roots) == {task.base + task.i};
    }
  }

  lemma MixOwns(task: Task)
    requires task.Mix?
    ensures Owned(task) == {task.at} + Owned(task.inner) && Reads(task) == {}
  {}

  lemma MixStepKeeps(task: Task, e: Effect, next: Task)
    requires task.Mix? && next.Mix? && next == task.(inner := next.inner)
    requires Typed(task) && next.inner.at == task.inner.at
    requires Apart(task) && Keeps(task.inner, e, next.inner) && Gets(e) !! Owned(task) + Reads(task)
    ensures Keeps(task, e, next)
  {
    hide Gets, Frees, Owned, Reads, Typed;
    MixOwns(task);
    MixOwns(next);
    FreesBelow(task.inner, e, next.inner);
    OwnedMoves({task.at}, Owned(task.inner), e, Owned(next.inner));
  }

  lemma MixMoves(task: Task, e: Effect, next: Task)
    requires task.Mix? && task.inner.Done? && Typed(task) && Apart(task)
    requires next == Leave(task.at, task.hash, 1) && e.Store? && e.a == task.at
    ensures Keeps(task, e, next)
  {
    assert Block(task.hash, 1) == {task.hash};
    assert Owned(next) == Owned(task) + Gets(e) - Frees(e);
  }

  lemma LeaveKeeps(task: Task, e: Effect, next: Task)
    requires task.TopUp? || task.Leave?
    requires Apart(task)
    requires if task.Leave? then e == Release(task.base, task.n) && next == Done(task.at)
             else if next.TopUp? then e.Store? && e.a == task.at && next == task.(level := task.level + 1)
             else e == Release(task.blocks, 2) && next == Done(task.at)
    ensures Keeps(task, e, next)
  {
    assert Owned(next) == Owned(task) + Gets(e) - Frees(e);
  }

  // ---- steps depend on and change memory of their task only ----

  ghost predicate SameOn(a: Heap, b: Heap, s: set<nat>)
  {
    forall x: nat :: x in s ==> Load(a, x) == Load(b, x)
  }

  /** Steps of others do not change what a task sees. */
  lemma SeesTheSame(mem: Heap, e: Effect, s: set<nat>)
    requires s !! Changes(e) + Gets(e)
    ensures SameOn(Apply(mem, e), mem, s)
  {}

  lemma SameLeaves(h: Hash, a: Heap, b: Heap, job: Job)
    requires TypedJob(job) && (job.Stored? ==> SameOn(a, b, Block(job.from, job.count)))
    ensures LeavesOf(h, a, job) == LeavesOf(h, b, job)
  {
    hide GoodSlice, MemberRoots, Chunkify;
  }

  /** What a running part of a task sees is among what the task sees. */
  lemma PartsSee(task: Task)
    requires Apart(task)
    ensures task.Forked? ==> Owned(task.first) + Reads(task.first) <= Owned(task) + Reads(task)
    ensures task.Forked? ==> Owned(task.last) + Reads(task.last) <= Owned(task) + Reads(task)
    ensures task.Gather? ==> Owned(task.current) + Reads(task.current) <= Owned(task) + Reads(task)
    ensures task.Mix? ==> Owned(task.inner) + Reads(task.inner) <= Owned(task) + Reads(task)
  {}

  lemma EnterObjectLocal(a: Heap, b: Heap, t: Type, v: Value, cpu: nat, at: nat, base: nat)
    requires GoodObject(t, v) && Load(a, at) == Load(b, at)
    ensures EnterObject(a, t, v, cpu, at, base) == EnterObject(b, t, v, cpu, at, base)
  {
    hide Load, JobOf, Next, StripDelimiter, BitlistBytes, PackBits, Shallow;
  }

  lemma {:induction false} ActLocal(h: Hash, hardware: nat, a: Heap, b: Heap, task: Task, who: seq<bool>, base: nat)
    requires Typed(task) && Apart(task) && SameOn(a, b, Owned(task) + Reads(task))
    ensures Act(h, hardware, a, task, who, base) == Act(h, hardware, b, task, who, base)
    decreases task
  {
    hide GoodPlan, GoodJob, Next, Log2Ceil, Load, LeavesOf, GoodObject, VectorRootOf, EnterObject, EnterVector, Owned;
    hide Reads, Apart;
    OwnsItsPlace(task);
    PartsSee(task);
    ApartParts(task);
    match task
    case Object(t, v, cpu, at) => EnterObjectLocal(a, b, t, v, cpu, at, base);
    case Merkle(job, cpu, limit, at) => EnterVectorLocal(h, hardware, a, b, job, cpu, limit, at, base);
    case Forked(_, _, _, _, first, last) =>
      OwnsItsPlace(first);
      OwnsItsPlace(last);
      if who != [] && !who[0] {
        ActLocal(h, hardware, a, b, first, who[1..], base);
      } else if who != [] {
        ActLocal(h, hardware, a, b, last, who[1..], base);
      }
    case Gather(_, _, _, _, current) =>
      if !current.Done? { ActLocal(h, hardware, a, b, current, who, base); }
    case Mix(_, _, _, inner) =>
      OwnsItsPlace(inner);
      if !inner.Done? { ActLocal(h, hardware, a, b, inner, who, base); }
    case _ =>
  }

  lemma ApartParts(task: Task)
    requires Apart(task)
    ensures task.Forked? ==> Apart(task.first) && Apart(task.last)
    ensures task.Gather? ==> Apart(task.current)
    ensures task.Mix? ==> Apart(task.inner)
  {}

  lemma EnterVectorLocal(h: Hash, hardware: nat, a: Heap, b: Heap, job: Job, cpu: nat, limit: nat, at: nat, base: nat)
    requires GoodJob(job, limit) && SameOn(a, b, Reads(Merkle(job, cpu, limit, at)))
    ensures EnterVector(h, hardware, a, job, cpu, limit, at, base)
         == EnterVector(h, hardware, b, job, cpu, limit, at, base)
  {
    hide LeavesOf, VectorRootOf, Next, GoodLimit, Log2Ceil;
    SameLeaves(h, a, b, job);
  }

  // ---- tasks that run at the same time ----

  /** The task that `who` leads to, if it is one that can move. */
  function Mover(task: Task, who: seq<bool>): Option<Task>
  {
    match task
    case Forked(_, _, _, _, first, last) =>
      if who == [] then (if first.Done? && last.Done? then Some(task) else None)
      else if who[0] then Mover(last, who[1..])
      else Mover(first, who[1..])
    case Gather(_, _, _, _, current) =>
      if !current.Done? then Mover(current, who) else if who == [] then Some(task) else None
    case Mix(_, _, _, inner) =>
      if !inner.Done? then Mover(inner, who) else if who == [] then Some(task) else None
    case Done(_) => None
    case _ => if who == [] then Some(task) else None
  }

  lemma {:induction false} MoverCanMove(h: Hash, hardware: nat, mem: Heap, task: Task, who: seq<bool>, base: nat)
    requires Typed(task)
    ensures Act(h, hardware, mem, task, who, base).Some? <==> Mover(task, who).Some?
    decreases task
  {
    hide EnterObject, EnterVector, Next, GoodPlan, GoodObject, GoodJob, Log2Ceil;
    match task
    case Forked(_, _, _, _, first, last) =>
      if who != [] && who[0] {
        MoverCanMove(h, hardware, mem, last, who[1..], base);
      } else if who != [] {
        MoverCanMove(h, hardware, mem, first, who[1..], base);
      }
    case Gather(_, _, _, _, current) =>
      if !current.Done? { MoverCanMove(h, hardware, mem, current, who, base); }
    case Mix(_, _, _, inner) =>
      if !inner.Done? { MoverCanMove(h, hardware, mem, inner, who, base); }
    case _ =>
  }

  lemma {:induction false} MoverSees(task: Task, who: seq<bool>)
    requires Apart(task) && Mover(task, who).Some?
    ensures var x := Mover(task, who).value;
      Apart(x) && Owned(x) <= Owned(task) && Owned(x) + Reads(x) <= Owned(task) + Reads(task)
    decreases task
  {
    match task
    case Forked(_, _, _, _, first, last) =>
      if who != [] && who[0] {
        MoverSees(last, who[1..]);
      } else if who != [] {
        MoverSees(first, who[1..]);
      }
    case Gather(_, _, _, _, current) =>
      if !current.Done? { MoverSees(current, who); }
    case Mix(_, _, _, inner) =>
      if !inner.Done? { MoverSees(inner, who); }
    case _ =>
  }

  /** Two tasks that can move at the same time write to different addresses, and to none that the other reads. */
  lemma {:induction false} MoversApart(task: Task, p: seq<bool>, q: seq<bool>)
    requires Apart(task) && p != q && Mover(task, p).Some? && Mover(task, q).Some?
    ensures var x, y := Mover(task, p).value, Mover(task, q).value;
      x.at != y.at && Owned(x) !! Owned(y) && Owned(x) !! Reads(y) && Reads(x) !! Owned(y)
    decreases task
  {
    var x, y := Mover(task, p).value, Mover(task, q).value;
    match task
    case Forked(_, _, _, _, first, last) =>
      DoneNeverMoves(first, p, q);
      DoneNeverMoves(last, p, q);
      if p[0] == q[0] {
        assert p == [p[0]] + p[1..] && q == [q[0]] + q[1..];
        MoversApart(if p[0] then last else first, p[1..], q[1..]);
      } else {
        MoverSees(if p[0] then last else first, p[1..]);
        MoverSees(if q[0] then last else first, q[1..]);
        ReadsOfOthers(task);
        OwnsItsPlace(x);
        OwnsItsPlace(y);
        HalvesApart(task, x, y, p[0]);
      }
    case Gather(_, _, _, _, current) =>
      MoversApart(current, p, q);
    case Mix(_, _, _, inner) =>
      MoversApart(inner, p, q);
    case _ =>
  }

  lemma DoneNeverMoves(task: Task, p: seq<bool>, q: seq<bool>)
    ensures task.Done? && p != [] ==> Mover(task, p[1..]).None?
    ensures task.Done? && q != [] ==> Mover(task, q[1..]).None?
  {}

  lemma HalvesApart(task: Task, x: Task, y: Task, lastFirst: bool)
    requires task.Forked? && Apart(task)
    requires var (a, b) := if lastFirst then (task.last, task.first) else (task.first, task.last);
      && Owned(x) <= Owned(a) && Owned(x) + Reads(x) <= Owned(a) + Reads(a)
      && Owned(y) <= Owned(b) && Owned(y) + Reads(y) <= Owned(b) + Reads(b)
    ensures Owned(x) !! Owned(y) && Owned(x) !! Reads(y) && Reads(x) !! Owned(y)
  {
    hide Owned, Reads;
  }
}
