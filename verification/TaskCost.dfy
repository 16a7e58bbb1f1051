/** How many steps a task takes, and how many threads. */
module TaskCost {
  import opened MathHelpers
  import opened SparseTree
  import opened VectorRoot
  import opened Bits
  import opened Schema
  import opened ObjectRoot
  import opened Tasks
  import opened TaskMemory

  // ---- how long a run takes ----

  function TopUpWork(level: nat, limit: nat): nat
  {
    1 + Minus(Log2Ceil(limit), level)
  }

  lemma JobSplits(job: Job, limit: nat)
    requires GoodJob(job, limit) && job.Count() >= job.Cutoff()
    ensures Splits(job, limit)
  {
    HalvesOf((l: Chunk, r: Chunk) => l, map[], job, limit);
  }

  /** Steps of a call on a vector whose elements need no calls of their own. */
  ghost function FlatWork(hardware: nat, job: Job, cpu: nat, limit: nat): (n: nat)
    requires GoodJob(job, limit)
    ensures n > 0
    decreases job.Count()
  {
    if !Forks(job, Resolve(cpu, hardware)) then 1 else
      JobSplits(job, limit);
      var half, height := Resolve(cpu, hardware) / 2, Log2Ceil(job.HalfLimit()) + 1;
      FlatWork(hardware, job.First(), half, job.HalfLimit()) + FlatWork(hardware, job.Rest(), half, job.HalfLimit())
      + 2 + TopUpWork(height, limit)
  }

  ghost function ObjectWork(hardware: nat, t: Type, v: Value, cpu: nat): (n: nat)
    requires GoodObject(t, v)
    ensures n > 0
    decreases v, 2, 0
  {
    match t
    case Uint(_) => 1
    case Bool => 1
    case Bitvector(n) =>
      BitvectorTyped(t, v);
      1 + FlatWork(hardware, Numbers(PackBits(v.bits), CeilDiv(n, 8), 1), cpu, CeilDiv(n, 256))
    case Bitlist(limit) =>
      BitlistTyped(t, v);
      var data := StripDelimiter(BitlistBytes(v.bits));
      3 + FlatWork(hardware, Numbers(data, |data|, 1), cpu, CeilDiv(limit, 256))
    case Vector(_, _) =>
      JobTyped(t, v);
      var job := JobOf(t, v.items);
      1 + if job.Elements? then ElementsWork(hardware, t, v.items, 0, |v.items|, cpu, 0)
          else FlatWork(hardware, job, cpu, 0)
    case List(_, _) =>
      JobTyped(t, v);
      var job, limit := JobOf(t, v.items), ListLimit(t);
      3 + if job.Elements? then ElementsWork(hardware, t, v.items, 0, |v.items|, cpu, limit)
          else FlatWork(hardware, job, cpu, limit)
    case Container(fields) =>
      MemberPlan(t, v, cpu);
      1 + GatherWork(hardware, Plan(t, v.items, 0, |fields|, cpu, cpu, 0), 0)
  }

  ghost function ElementsWork(hardware: nat, t: Type, vs: seq<Value>, lo: nat, hi: nat, cpu: nat, limit: nat): (n: nat)
    requires GoodJob(Elements(t, vs, lo, hi), limit)
    ensures n > 0
    decreases vs, 1, hi - lo
  {
    var job := Elements(t, vs, lo, hi);
    if Forks(job, Resolve(cpu, hardware)) then
      JobSplits(job, limit);
      var half, mid := Resolve(cpu, hardware) / 2, lo + job.HalfSize();
      ElementsWork(hardware, t, vs, lo, mid, half, job.HalfLimit())
      + ElementsWork(hardware, t, vs, mid, hi, half, job.HalfLimit())
      + 2 + TopUpWork(Log2Ceil(job.HalfLimit()) + 1, limit)
    else 1 + GatherWork(hardware, Plan(t, vs, lo, hi, 1, 1, limit), 0)
  }

  /** The calls for members i and above, for their byte vector, and the steps from one to the next. */
  ghost function GatherWork(hardware: nat, p: Plan, i: nat): (n: nat)
    requires GoodPlan(p) && i <= p.Count()
    ensures n > 0
    decreases p.vs, 0, p.Count() - i
  {
    1 + if i < p.Count()
        then ObjectWork(hardware, Member(p.t, p.lo + i), p.vs[p.lo + i], p.each) + GatherWork(hardware, p, i + 1)
        else FlatWork(hardware, Stored(0, p.Count()), p.cpu, p.limit)
  }

  ghost function JobWork(hardware: nat, job: Job, cpu: nat, limit: nat): (n: nat)
    requires GoodJob(job, limit)
    ensures n > 0
  {
    if job.Elements? then ElementsWork(hardware, job.t, job.vs, job.lo, job.hi, cpu, limit)
    else FlatWork(hardware, job, cpu, limit)
  }

  /** Number of steps left, the same whatever their order. */
  ghost function Work(hardware: nat, task: Task): (n: nat)
    requires Typed(task)
    ensures n == 0 <==> task.Done?
    decreases task
  {
    match task
    case Object(t, v, cpu, _) => ObjectWork(hardware, t, v, cpu)
    case Merkle(job, cpu, limit, _) => JobWork(hardware, job, cpu, limit)
    case Forked(height, limit, _, _, first, last) =>
      Work(hardware, first) + Work(hardware, last) + 1 + TopUpWork(height, limit)
    case TopUp(level, limit, _, _) => TopUpWork(level, limit)
    case Gather(p, _, _, i, current) =>
      Work(hardware, current) + 1 + if i < p.Count() then GatherWork(hardware, p, i + 1) else 0
    case Mix(_, _, _, inner) => Work(hardware, inner) + 2
    case Leave(_, _, _) => 1
    case Done(_) => 0
  }

  /** Where the roots of members are stored does not matter. */
  lemma {:induction false} StoredAnywhere(hardware: nat, a: Job, b: Job, cpu: nat, limit: nat)
    requires a.Stored? && b.Stored? && a.count == b.count && GoodJob(a, limit)
    ensures GoodJob(b, limit) && FlatWork(hardware, a, cpu, limit) == FlatWork(hardware, b, cpu, limit)
    decreases a.Count()
  {
    hide GoodLimit, Log2Ceil;
    if Forks(a, Resolve(cpu, hardware)) {
      JobSplits(a, limit);
      StoredAnywhere(hardware, a.First(), b.First(), Resolve(cpu, hardware) / 2, a.HalfLimit());
      StoredAnywhere(hardware, a.Rest(), b.Rest(), Resolve(cpu, hardware) / 2, a.HalfLimit());
    }
  }

  lemma NextWork(hardware: nat, p: Plan, at: nat, base: nat, i: nat)
    requires GoodPlan(p) && i <= p.Count()
    ensures var task := Next(p, at, base, i);
      && Typed(task)
      && GatherWork(hardware, p, i)
         == Work(hardware, task) + 1 + if i < p.Count() then GatherWork(hardware, p, i + 1) else 0
  {
    hide ObjectWork, FlatWork, GoodLimit;
    NextTyped(p, at, base, i);
    if i == p.Count() { StoredAnywhere(hardware, Stored(0, i), Stored(base, i), p.cpu, p.limit); }
  }

  lemma EnterObjectWork(hardware: nat, mem: Heap, t: Type, v: Value, cpu: nat, at: nat, base: nat)
    requires GoodObject(t, v)
    ensures var next := EnterObject(mem, t, v, cpu, at, base).0;
      Typed(next) && Work(hardware, next) + 1 == ObjectWork(hardware, t, v, cpu)
  {
    hide FlatWork, ElementsWork, GatherWork, GoodLimit, Next, JobOf, StripDelimiter, BitlistBytes, PackBits, Shallow;
    EnterObjectTyped(mem, t, v, cpu, at, base);
    match t
    case Vector(_, _) => JobTyped(t, v); FullElements(t, v.items);
    case List(_, _) => JobTyped(t, v); FullElements(t, v.items);
    case Container(fields) =>
      MemberPlan(t, v, cpu);
      NextWork(hardware, Plan(t, v.items, 0, |fields|, cpu, cpu, 0), at, base, 0);
    case _ =>
  }

  lemma FullElements(t: Type, vs: seq<Value>)
    requires WellFormed(t) && HaveTypes(t, vs) && (t.Vector? || t.List?)
    ensures JobOf(t, vs).Elements? ==> JobOf(t, vs) == Elements(t, vs, 0, |vs|)
  {}

  lemma CallWork(hardware: nat, task: Task)
    requires Typed(task)
    ensures task.Object? ==> Work(hardware, task) == ObjectWork(hardware, task.t, task.v, task.cpu)
    ensures task.Merkle? ==> Work(hardware, task) == JobWork(hardware, task.job, task.cpu, task.limit)
  {}

  lemma EnterVectorWork(h: Hash, hardware: nat, mem: Heap, job: Job, cpu: nat, limit: nat, at: nat, base: nat)
    requires GoodJob(job, limit)
    ensures var next := EnterVector(h, hardware, mem, job, cpu, limit, at, base).0;
      Typed(next) && Work(hardware, next) + 1 == JobWork(hardware, job, cpu, limit)
  {
    hide GatherWork, GoodLimit, Next, LeavesOf, VectorRootOf, Log2Ceil, TopUpWork, BitCeil, GoodSlice, Work, JobWork;
    EnterVectorTyped(h, hardware, mem, job, cpu, limit, at, base);
    var next := EnterVector(h, hardware, mem, job, cpu, limit, at, base).0;
    if Forks(job, Resolve(cpu, hardware)) {
      JobSplits(job, limit);
      ForkWork(hardware, job, cpu, limit, next);
    } else if job.Elements? {
      ElementWork(hardware, job, cpu, limit, next);
    } else {
      LeafWork(hardware, job, cpu, limit, next);
    }
  }

  lemma ForkWork(hardware: nat, job: Job, cpu: nat, limit: nat, next: Task)
    requires GoodJob(job, limit) && Forks(job, Resolve(cpu, hardware)) && Splits(job, limit)
    requires next.Forked? && Typed(next) && next.height == Log2Ceil(job.HalfLimit()) + 1 && next.limit == limit
    requires var half := Resolve(cpu, hardware) / 2;
      && next.first == Merkle(job.First(), half, job.HalfLimit(), next.blocks)
      && next.last == Merkle(job.Rest(), half, job.HalfLimit(), next.blocks + 1)
    ensures Work(hardware, next) + 1 == JobWork(hardware, job, cpu, limit)
  {
    hide GoodLimit, Log2Ceil, TopUpWork, BitCeil, GoodSlice, GatherWork, GoodPlan, GoodObject, Pow2, CeilDiv;
    CallWork(hardware, next.first);
    CallWork(hardware, next.last);
  }

  lemma ElementWork(hardware: nat, job: Job, cpu: nat, limit: nat, next: Task)
    requires GoodJob(job, limit) && job.Elements? && !Forks(job, Resolve(cpu, hardware))
    requires next.Gather? && Typed(next) && next.plan == Plan(job.t, job.vs, job.lo, job.hi, 1, 1, limit) && next.i == 0
    requires next.current == Next(next.plan, next.at, next.base, 0)
    ensures Work(hardware, next) + 1 == JobWork(hardware, job, cpu, limit)
  {
    hide GatherWork, GoodLimit, Next, GoodSlice;
    NextWork(hardware, next.plan, next.at, next.base, 0);
  }

  lemma LeafWork(hardware: nat, job: Job, cpu: nat, limit: nat, next: Task)
    requires GoodJob(job, limit) && !job.Elements? && !Forks(job, Resolve(cpu, hardware)) && next.Done?
    ensures Work(hardware, next) + 1 == JobWork(hardware, job, cpu, limit)
  {
    hide GoodLimit;
  }

  lemma TopUpUnit(hardware: nat, task: Task, next: Task)
    requires task.TopUp?
    requires if task.level < Log2Ceil(task.limit) then next == task.(level := task.level + 1) else next.Done?
    ensures Work(hardware, next) + 1 == Work(hardware, task)
  {
    hide Log2Ceil;
  }

  /** The step after the last one of a call that the task waited for, or of a task about to end. */
  lemma OwnUnit(hardware: nat, task: Task, next: Task)
    requires Typed(task) && Typed(next)
    requires
      || (task.Forked? && task.first.Done? && task.last.Done?
          && next.TopUp? && next.level == task.height && next.limit == task.limit)
      || (task.Gather? && task.current.Done? && next.Done? && task.i >= task.plan.Count())
      || (task.Mix? && task.inner.Done? && next.Leave?)
      || (task.Leave? && next.Done?)
    ensures Work(hardware, next) + 1 == Work(hardware, task)
  {
    hide TopUpWork, GatherWork, GoodPlan, ObjectWork, JobWork, GoodJob, GoodObject;
  }

  /** A step inside a call that the task waits for. */
  lemma PartUnit(hardware: nat, task: Task, next: Task)
    requires Typed(task) && Typed(next)
    requires
      || (task.Forked? && next.Forked? && next == task.(first := next.first)
          && Work(hardware, next.first) + 1 == Work(hardware, task.first))
      || (task.Forked? && next.Forked? && next == task.(last := next.last)
          && Work(hardware, next.last) + 1 == Work(hardware, task.last))
      || (task.Gather? && next.Gather? && next == task.(current := next.current)
          && Work(hardware, next.current) + 1 == Work(hardware, task.current))
      || (task.Mix? && next.Mix? && next == task.(inner := next.inner)
          && Work(hardware, next.inner) + 1 == Work(hardware, task.inner))
    ensures Work(hardware, next) + 1 == Work(hardware, task)
  {
    hide TopUpWork, GatherWork, GoodPlan, ObjectWork, JobWork, GoodJob, GoodObject;
  }

  /** From one member to the next. */
  lemma MemberUnit(hardware: nat, task: Task, next: Task)
    requires Typed(task) && task.Gather? && task.current.Done? && task.i < task.plan.Count()
    requires Typed(next) && next.Gather? && next.plan == task.plan && next.i == task.i + 1
    requires next.current == Next(task.plan, task.at, task.base, task.i + 1)
    ensures Work(hardware, next) + 1 == Work(hardware, task)
  {
    hide GatherWork, GoodPlan, ObjectWork, JobWork, Next, Work;
    NextWork(hardware, task.plan, task.at, task.base, task.i + 1);
    WorkOfGather(hardware, task);
    WorkOfGather(hardware, next);
  }

  lemma WorkOfGather(hardware: nat, task: Task)
    requires Typed(task) && task.Gather?
    ensures task.i <= task.plan.Count()
    ensures Work(hardware, task) == Work(hardware, task.current) + 1
      + if task.i < task.plan.Count() then GatherWork(hardware, task.plan, task.i + 1) else 0
  {
    hide GatherWork, ObjectWork, JobWork, TopUpWork, GoodPlan, GoodJob, GoodObject;
  }

  lemma {:induction false} StepDoesOneUnit(h: Hash, hardware: nat, mem: Heap, task: Task, who: seq<bool>, base: nat)
    requires Typed(task) && Act(h, hardware, mem, task, who, base).Some?
    ensures var next := Act(h, hardware, mem, task, who, base).value.0;
      Typed(next) && Work(hardware, next) + 1 == Work(hardware, task)
    decreases task
  {
    hide GoodJob, GoodPlan, GoodObject, EnterObject, EnterVector, Next, Log2Ceil, ObjectWork, JobWork, Load;
    hide Work, MixIn;
    StepKeepsTyped(h, hardware, mem, task, who, base);
    var next := Act(h, hardware, mem, task, who, base).value.0;
    match task
    case Object(t, v, cpu, at) =>
      EnterObjectWork(hardware, mem, t, v, cpu, at, base);
      CallWork(hardware, task);
    case Merkle(job, cpu, limit, at) =>
      EnterVectorWork(h, hardware, mem, job, cpu, limit, at, base);
      CallWork(hardware, task);
    case Forked(_, _, _, _, first, last) =>
      if who == [] {
        OwnUnit(hardware, task, next);
      } else {
        StepDoesOneUnit(h, hardware, mem, if who[0] then last else first, who[1..], base);
        PartUnit(hardware, task, next);
      }
    case Gather(plan, _, _, i, current) =>
      if !current.Done? {
        StepDoesOneUnit(h, hardware, mem, current, who, base);
        PartUnit(hardware, task, next);
      } else if i < plan.Count() {
        MemberUnit(hardware, task, next);
      } else {
        OwnUnit(hardware, task, next);
      }
    case Mix(_, _, _, inner) =>
      if !inner.Done? {
        StepDoesOneUnit(h, hardware, mem, inner, who, base);
        PartUnit(hardware, task, next);
      } else {
        OwnUnit(hardware, task, next);
      }
    case TopUp(_, _, _, _) => TopUpUnit(hardware, task, next);
    case Leave(_, _, _) => OwnUnit(hardware, task, next);
  }

  // ---- how many threads it takes ----

  /** Calls that are running right now; a caller that waits for its halves or for a member is not. */
  function Live(task: Task): nat
  {
    match task
    case Forked(_, _, _, _, first, last) => if first.Done? && last.Done? then 1 else Live(first) + Live(last)
    case Gather(_, _, _, _, current) => if current.Done? then 1 else Live(current)
    case Mix(_, _, _, inner) => if inner.Done? then 1 else Live(inner)
    case Done(_) => 0
    case _ => 1
  }

  /** The paths to all tasks that can move. */
  function Movers(task: Task): set<seq<bool>>
  {
    match task
    case Forked(_, _, _, _, first, last) =>
      if first.Done? && last.Done? then {[]} else Below(false, Movers(first)) + Below(true, Movers(last))
    case Gather(_, _, _, _, current) => if current.Done? then {[]} else Movers(current)
    case Mix(_, _, _, inner) => if inner.Done? then {[]} else Movers(inner)
    case Done(_) => {}
    case _ => {[]}
  }

  function Below(half: bool, paths: set<seq<bool>>): set<seq<bool>>
  {
    set p | p in paths :: [half] + p
  }

  lemma BelowHas(half: bool, paths: set<seq<bool>>, who: seq<bool>)
    ensures who in Below(half, paths) <==> who != [] && who[0] == half && who[1..] in paths
  {
    if who != [] && who[0] == half && who[1..] in paths { assert who == [half] + who[1..]; }
    if who in Below(half, paths) {
      var p :| p in paths && who == [half] + p;
      assert who[1..] == p;
    }
  }

  lemma {:induction false} BelowSize(half: bool, paths: set<seq<bool>>)
    ensures |Below(half, paths)| == |paths|
    decreases |paths|
  {
    if paths != {} {
      var p :| p in paths;
      var rest := paths - {p};
      BelowSize(half, rest);
      BelowHas(half, rest, [half] + p);
      assert ([half] + p)[1..] == p;
      assert Below(half, paths) == Below(half, rest) + {[half] + p};
    } else {
      assert Below(half, paths) == {};
    }
  }

  lemma {:induction false} MoversMove(task: Task, who: seq<bool>)
    ensures who in Movers(task) <==> Mover(task, who).Some?
    decreases task
  {
    hide Below;
    match task
    case Forked(_, _, _, _, first, last) =>
      BelowHas(false, Movers(first), who);
      BelowHas(true, Movers(last), who);
      if who != [] {
        MoversMove(first, who[1..]);
        MoversMove(last, who[1..]);
      }
    case Gather(_, _, _, _, current) => MoversMove(current, who);
    case Mix(_, _, _, inner) => MoversMove(inner, who);
    case _ =>
  }

  /** Live counts exactly the tasks that can move. */
  lemma {:induction false} LiveAreMovers(task: Task)
    ensures |Movers(task)| == Live(task)
    decreases task
  {
    hide Below;
    match task
    case Forked(_, _, _, _, first, last) =>
      LiveAreMovers(first);
      LiveAreMovers(last);
      BelowSize(false, Movers(first));
      BelowSize(true, Movers(last));
      forall who: seq<bool>
        ensures !(who in Below(false, Movers(first)) && who in Below(true, Movers(last)))
      {
        BelowHas(false, Movers(first), who);
        BelowHas(true, Movers(last), who);
      }
      assert Below(false, Movers(first)) !! Below(true, Movers(last));
    case Gather(_, _, _, _, current) => LiveAreMovers(current);
    case Mix(_, _, _, inner) => LiveAreMovers(inner);
    case _ =>
  }

  /** However tasks that can move at the same time are picked, there are no more of them than are live. */
  lemma AtMostLive(task: Task, crowd: set<seq<bool>>)
    requires forall who :: who in crowd ==> Mover(task, who).Some?
    ensures |crowd| <= Live(task)
  {
    forall who | who in crowd
      ensures who in Movers(task)
    {
      MoversMove(task, who);
    }
    LiveAreMovers(task);
    SmallerSet(crowd, Movers(task));
  }

  lemma {:induction false} SmallerSet(a: set<seq<bool>>, b: set<seq<bool>>)
    requires a <= b
    ensures |a| <= |b|
    decreases |a|
  {
    if a != {} {
      var x :| x in a;
      SmallerSet(a - {x}, b - {x});
    }
  }

  function Granted(hardware: nat, cpu: nat): (n: nat)
    ensures n >= 1
  {
    Max(1, Resolve(cpu, hardware))
  }

  /** The threads a task may ever use. */
  function Threads(hardware: nat, task: Task): (n: nat)
    ensures Live(task) <= n
  {
    match task
    case Object(_, _, cpu, _) => Granted(hardware, cpu)
    case Merkle(_, cpu, _, _) => Granted(hardware, cpu)
    case Forked(_, _, _, _, first, last) => Max(1, Threads(hardware, first) + Threads(hardware, last))
    case Gather(p, _, _, _, current) =>
      Max(Threads(hardware, current), Max(Granted(hardware, p.each), Granted(hardware, p.cpu)))
    case Mix(_, _, _, inner) => Max(1, Threads(hardware, inner))
    case Done(_) => 0
    case _ => 1
  }

  /** No call inside asks for "all the hardware has", which is what a cpu count of 0 means. */
  predicate NoZero(task: Task)
  {
    match task
    case Object(_, _, cpu, _) => cpu > 0
    case Merkle(_, cpu, _, _) => cpu > 0
    case Forked(_, _, _, _, first, last) => NoZero(first) && NoZero(last)
    case Gather(p, _, _, _, current) => p.each > 0 && p.cpu > 0 && NoZero(current)
    case Mix(_, _, _, inner) => NoZero(inner)
    case _ => true
  }

  /** Nor does any call below a fork. */
  predicate NoZeroInForks(task: Task)
  {
    match task
    case Forked(_, _, _, _, first, last) => NoZero(first) && NoZero(last)
    case Gather(_, _, _, _, current) => NoZeroInForks(current)
    case Mix(_, _, _, inner) => NoZeroInForks(inner)
    case _ => true
  }

  /** A call that has a cpu count has one that is not 0. */
  predicate Counted(task: Task)
  {
    (task.Object? || task.Merkle?) ==> task.cpu > 0
  }

  lemma {:induction false} NoZeroMover(task: Task, who: seq<bool>)
    requires NoZero(task) && Mover(task, who).Some?
    ensures Counted(Mover(task, who).value)
    decreases task
  {
    match task
    case Forked(_, _, _, _, first, last) =>
      if who != [] { NoZeroMover(if who[0] then last else first, who[1..]); }
    case Gather(_, _, _, _, current) =>
      if !current.Done? { NoZeroMover(current, who); }
    case Mix(_, _, _, inner) =>
      if !inner.Done? { NoZeroMover(inner, who); }
    case _ =>
  }

  /** A path that is not empty leads through a fork. */
  lemma {:induction false} CountedBelowForks(task: Task, who: seq<bool>)
    requires NoZeroInForks(task) && Mover(task, who).Some? && who != []
    ensures Counted(Mover(task, who).value)
    decreases task
  {
    match task
    case Forked(_, _, _, _, first, last) => NoZeroMover(if who[0] then last else first, who[1..]);
    case Gather(_, _, _, _, current) => CountedBelowForks(current, who);
    case Mix(_, _, _, inner) => CountedBelowForks(inner, who);
  }

  /** A step never needs more threads, and hands on the discipline about 0. */
  predicate Thrifty(hardware: nat, task: Task, next: Task)
  {
    && Threads(hardware, next) <= Threads(hardware, task)
    && (NoZero(task) ==> NoZero(next)) && (NoZeroInForks(task) ==> NoZeroInForks(next))
  }

  lemma NextThreads(hardware: nat, p: Plan, at: nat, base: nat, i: nat)
    requires GoodPlan(p)
    ensures var task := Next(p, at, base, i);
      && Threads(hardware, task) == Granted(hardware, if i < p.Count() then p.each else p.cpu)
      && (p.each > 0 && p.cpu > 0 ==> NoZero(task)) && NoZeroInForks(task)
  {
    hide GoodPlan, Granted;
  }

  lemma EnterObjectThreads(hardware: nat, mem: Heap, t: Type, v: Value, cpu: nat, at: nat, base: nat)
    requires GoodObject(t, v)
    ensures Thrifty(hardware, Object(t, v, cpu, at), EnterObject(mem, t, v, cpu, at, base).0)
  {
    hide GoodObject, GoodPlan, JobOf, StripDelimiter, BitlistBytes, PackBits, Load, Granted, ListLimit, Next, Thrifty;
    var task, next := Object(t, v, cpu, at), EnterObject(mem, t, v, cpu, at, base).0;
    if t.Container? {
      MemberPlan(t, v, cpu);
      NextThreads(hardware, next.plan, at, base, 0);
      GatherStarts(hardware, task, next);
    } else {
      CallStarts(hardware, task, next);
    }
  }

  lemma GatherStarts(hardware: nat, task: Task, next: Task)
    requires task.Object? && next.Gather? && next.plan.each == next.plan.cpu == task.cpu
    requires Threads(hardware, next.current) == Granted(hardware, task.cpu)
    requires (task.cpu > 0 ==> NoZero(next.current)) && NoZeroInForks(next.current)
    ensures Thrifty(hardware, task, next)
  {
    hide Granted;
  }

  lemma CallStarts(hardware: nat, task: Task, next: Task)
    requires task.Object?
    requires next.Done? || (next.Merkle? && next.cpu == task.cpu)
      || (next.Mix? && next.inner.Merkle? && next.inner.cpu == task.cpu)
    ensures Thrifty(hardware, task, next)
  {
    hide Granted;
    if next.Mix? {
      assert Threads(hardware, next.inner) == Granted(hardware, task.cpu);
      assert NoZeroInForks(next.inner) && (task.cpu > 0 ==> NoZero(next.inner));
    }
  }

  lemma EnterVectorThreads(h: Hash, hardware: nat, mem: Heap, job: Job, cpu: nat, limit: nat, at: nat, base: nat)
    requires GoodJob(job, limit)
    ensures Thrifty(hardware, Merkle(job, cpu, limit, at), EnterVector(h, hardware, mem, job, cpu, limit, at, base).0)
  {
    hide GoodLimit, GoodSlice, Log2Ceil, BitCeil, VectorRootOf, Load, LeavesOf, Next, Thrifty;
    var task, next := Merkle(job, cpu, limit, at), EnterVector(h, hardware, mem, job, cpu, limit, at, base).0;
    if Forks(job, Resolve(cpu, hardware)) {
      ForkThrifty(hardware, task, next);
    } else if job.Elements? {
      ElementPlan(job, limit);
      NextThreads(hardware, next.plan, at, base, 0);
      ElementsThrifty(hardware, task, next);
    } else {
      DoneThrifty(hardware, task, next);
    }
  }

  lemma ElementPlan(job: Job, limit: nat)
    requires job.Elements? && GoodJob(job, limit)
    ensures GoodPlan(Plan(job.t, job.vs, job.lo, job.hi, 1, 1, limit))
  {}

  lemma ForkThrifty(hardware: nat, task: Task, next: Task)
    requires task.Merkle? && next.Forked? && next.first.Merkle? && next.last.Merkle?
    requires Resolve(task.cpu, hardware) >= 2
    requires next.first.cpu == next.last.cpu == Resolve(task.cpu, hardware) / 2
    ensures Thrifty(hardware, task, next)
  {
    assert Threads(hardware, next.first) == Threads(hardware, next.last) == next.first.cpu;
    assert NoZero(next.first) && NoZero(next.last);
  }

  lemma ElementsThrifty(hardware: nat, task: Task, next: Task)
    requires task.Merkle? && next.Gather? && next.plan.each == next.plan.cpu == 1
    requires Threads(hardware, next.current) == 1 && NoZero(next.current) && NoZeroInForks(next.current)
    ensures Thrifty(hardware, task, next)
  {}

  lemma DoneThrifty(hardware: nat, task: Task, next: Task)
    requires task.Merkle? && next.Done?
    ensures Thrifty(hardware, task, next)
  {}

  lemma {:induction false} StepKeepsThreads(h: Hash, hardware: nat, mem: Heap, task: Task, who: seq<bool>, base: nat)
    requires Typed(task) && Act(h, hardware, mem, task, who, base).Some?
    ensures Thrifty(hardware, task, Act(h, hardware, mem, task, who, base).value.0)
    decreases task
  {
    hide GoodJob, GoodPlan, GoodObject, EnterObject, EnterVector, Log2Ceil, Load, Granted, Thrifty, Next, MixIn;
    var next := Act(h, hardware, mem, task, who, base).value.0;
    match task
    case Object(t, v, cpu, at) => EnterObjectThreads(hardware, mem, t, v, cpu, at, base);
    case Merkle(job, cpu, limit, at) => EnterVectorThreads(h, hardware, mem, job, cpu, limit, at, base);
    case Forked(_, _, _, _, first, last) =>
      if who != [] && !who[0] {
        StepKeepsThreads(h, hardware, mem, first, who[1..], base);
        PartThrifty(hardware, task, next);
      } else if who != [] {
        StepKeepsThreads(h, hardware, mem, last, who[1..], base);
        PartThrifty(hardware, task, next);
      } else {
        EndThrifty(hardware, task, next);
      }
    case Gather(_, _, _, _, current) =>
      if !current.Done? {
        StepKeepsThreads(h, hardware, mem, current, who, base);
        PartThrifty(hardware, task, next);
      } else {
        GatherThrifty(hardware, task, next);
      }
    case Mix(_, _, _, inner) =>
      if !inner.Done? {
        StepKeepsThreads(h, hardware, mem, inner, who, base);
        PartThrifty(hardware, task, next);
      } else {
        EndThrifty(hardware, task, next);
      }
    case _ => EndThrifty(hardware, task, next);
  }

  lemma PartThrifty(hardware: nat, task: Task, next: Task)
    requires
      || (task.Forked? && next.Forked? && Thrifty(hardware, task.first, next.first) && task.last == next.last)
      || (task.Forked? && next.Forked? && task.first == next.first && Thrifty(hardware, task.last, next.last))
      || (task.Gather? && next.Gather? && task.plan == next.plan && Thrifty(hardware, task.current, next.current))
      || (task.Mix? && next.Mix? && Thrifty(hardware, task.inner, next.inner))
    ensures Thrifty(hardware, task, next)
  {
    hide Granted;
  }

  lemma EndThrifty(hardware: nat, task: Task, next: Task)
    requires task.Forked? || task.TopUp? || task.Mix? || task.Leave?
    requires next.TopUp? || next.Leave? || next.Done?
    ensures Thrifty(hardware, task, next)
  {}

  lemma GatherThrifty(hardware: nat, task: Task, next: Task)
    requires task.Gather? && GoodPlan(task.plan)
    requires next.Done?
      || (next.Gather? && next.plan == task.plan && next.current == Next(task.plan, task.at, task.base, task.i + 1))
    ensures Thrifty(hardware, task, next)
  {
    hide GoodPlan, Granted, Next;
    NextThreads(hardware, task.plan, task.at, task.base, task.i + 1);
  }
}
