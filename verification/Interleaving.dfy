/**
 Whole runs of hash_tree_root: which task moves next, and where the allocator puts what a task asks for, is arbitrary.
 */
module Interleaving {
  import opened Wrappers
  import opened MathHelpers
  import opened SparseTree
  import opened VectorRoot
  import opened Schema
  import opened ObjectRoot
  import opened Tasks
  import opened TaskMemory
  import opened TaskOutcome
  import opened TaskCost

  datatype State = State(task: Task, mem: Heap)

  /** The scheduler's choice of a task and the allocator's choice of an address. */
  datatype Turn = Turn(who: seq<bool>, base: nat)

  ghost function Step(h: Hash, hardware: nat, s: State, turn: Turn): Option<State>
    requires Typed(s.task)
  {
    var r := Act(h, hardware, s.mem, s.task, turn.who, turn.base);
    if r.None? || !Possible(s.mem, r.value.1) then None else Some(State(r.value.0, Apply(s.mem, r.value.1)))
  }

  // ---- the invariant of a run ----

  /** Arguments are as they must be, tasks do not meet in memory, and no task leaves the memory that is allocated. */
  ghost predicate Sound(s: State)
  {
    && Typed(s.task) && Apart(s.task) && Ready(s.mem, s.task)
    && Owned(s.task) + Reads(s.task) <= s.mem.Keys
  }

  lemma KeysAfter(mem: Heap, e: Effect)
    requires Changes(e) <= mem.Keys
    ensures Apply(mem, e).Keys == mem.Keys + Gets(e) - Frees(e)
  {
    if e.Allocate? { assert Apply(mem, e).Keys == mem.Keys + Block(e.base, e.n); }
  }

  lemma StepKeepsSound(h: Hash, hardware: nat, s: State, turn: Turn)
    requires Sound(s) && Step(h, hardware, s, turn).Some?
    ensures var e := Act(h, hardware, s.mem, s.task, turn.who, turn.base).value.1;
      && Sound(Step(h, hardware, s, turn).value)
      && Keeps(s.task, e, Step(h, hardware, s, turn).value.task)
      && Gets(e) !! s.mem.Keys
      && Outcome(h, Step(h, hardware, s, turn).value.mem, Step(h, hardware, s, turn).value.task)
         == Outcome(h, s.mem, s.task)
  {
    hide Act, Outcome, Ready, Typed, Apart, Owned, Reads, Apply;
    var (next, e) := Act(h, hardware, s.mem, s.task, turn.who, turn.base).value;
    StepKeepsTyped(h, hardware, s.mem, s.task, turn.who, turn.base);
    StepKeepsApart(h, hardware, s.mem, s.task, turn.who, turn.base);
    StepKeepsOutcome(h, hardware, s.mem, s.task, turn.who, turn.base);
    KeysAfter(s.mem, e);
    ReadsOfOthers(s.task);
  }

  // ---- steps that are possible at the same time commute ----

  /** A step of the first half and a step of the last half of a fork. */
  lemma HalvesCommute(h: Hash, hardware: nat, mem: Heap, task: Task, p: Turn, q: Turn)
    requires task.Forked? && Typed(task) && Apart(task)
    requires Act(h, hardware, mem, task.first, p.who, p.base).Some?
    requires Act(h, hardware, mem, task.last, q.who, q.base).Some?
    requires var (a, b) := (Act(h, hardware, mem, task.first, p.who, p.base).value,
                            Act(h, hardware, mem, task.last, q.who, q.base).value);
      Gets(a.1) !! Owned(task) + Reads(task) && Gets(b.1) !! Owned(task) + Reads(task)
    ensures var (a, b) := (Act(h, hardware, mem, task.first, p.who, p.base).value,
                           Act(h, hardware, mem, task.last, q.who, q.base).value);
      && Changes(a.1) !! Changes(b.1)
      && Act(h, hardware, Apply(mem, a.1), task.last, q.who, q.base) == Some(b)
      && Act(h, hardware, Apply(mem, b.1), task.first, p.who, p.base) == Some(a)
  {
    hide Act, Apply, Owned, Reads, Gets, Changes;
    var (a, b) := (Act(h, hardware, mem, task.first, p.who, p.base).value,
                   Act(h, hardware, mem, task.last, q.who, q.base).value);
    PartsSee(task);
    StepKeepsApart(h, hardware, mem, task.first, p.who, p.base);
    StepKeepsApart(h, hardware, mem, task.last, q.who, q.base);
    SeesTheSame(mem, a.1, Owned(task.last) + Reads(task.last));
    SeesTheSame(mem, b.1, Owned(task.first) + Reads(task.first));
    ActLocal(h, hardware, Apply(mem, a.1), mem, task.last, q.who, q.base);
    ActLocal(h, hardware, Apply(mem, b.1), mem, task.first, p.who, p.base);
  }

  /** Both can move, each with an effect that is possible as far as the task knows. */
  ghost predicate BothMove(h: Hash, hardware: nat, mem: Heap, task: Task, p: Turn, q: Turn)
  {
    && Typed(task) && Apart(task)
    && var a, b := Act(h, hardware, mem, task, p.who, p.base), Act(h, hardware, mem, task, q.who, q.base);
       && a.Some? && b.Some?
       && Gets(a.value.1) !! Owned(task) + Reads(task) && Gets(b.value.1) !! Owned(task) + Reads(task)
  }

  /** What each of two tasks does is the same before and after a step of the other, and so is what becomes of both. */
  ghost predicate Commute(h: Hash, hardware: nat, mem: Heap, task: Task, p: Turn, q: Turn)
    requires BothMove(h, hardware, mem, task, p, q)
  {
    var a, b := Act(h, hardware, mem, task, p.who, p.base).value, Act(h, hardware, mem, task, q.who, q.base).value;
    && Changes(a.1) !! Changes(b.1) && Typed(a.0) && Typed(b.0)
    && var ab := Act(h, hardware, Apply(mem, a.1), a.0, q.who, q.base);
       var ba := Act(h, hardware, Apply(mem, b.1), b.0, p.who, p.base);
       ab.Some? && ba.Some? && ab.value.0 == ba.value.0 && ab.value.1 == b.1 && ba.value.1 == a.1
  }

  lemma {:induction false} ActsCommute(h: Hash, hardware: nat, mem: Heap, task: Task, p: Turn, q: Turn)
    requires BothMove(h, hardware, mem, task, p, q) && p.who != q.who
    ensures Commute(h, hardware, mem, task, p, q)
    decreases task
  {
    hide Commute, BothMove;
    TwoMovers(h, hardware, mem, task, p, q);
    match task
    case Forked(_, _, _, _, first, last) =>
      var p', q' := Turn(p.who[1..], p.base), Turn(q.who[1..], q.base);
      assert p.who == [p.who[0]] + p'.who && q.who == [q.who[0]] + q'.who;
      if p.who[0] != q.who[0] {
        AcrossCommute(h, hardware, mem, task, p, q);
      } else if p.who[0] {
        InLast(h, hardware, mem, task, p, q);
        ActsCommute(h, hardware, mem, last, p', q');
        LastCommute(h, hardware, mem, task, p, q);
      } else {
        InFirst(h, hardware, mem, task, p, q);
        ActsCommute(h, hardware, mem, first, p', q');
        FirstCommute(h, hardware, mem, task, p, q);
      }
    case Gather(_, _, _, _, current) =>
      ActsCommute(h, hardware, mem, current, p, q);
      MembersCommute(h, hardware, mem, task, p, q);
    case Mix(_, _, _, inner) =>
      ActsCommute(h, hardware, mem, inner, p, q);
      InnersCommute(h, hardware, mem, task, p, q);
  }

  /** Only below a fork can there be two tasks that can move. */
  lemma TwoMovers(h: Hash, hardware: nat, mem: Heap, task: Task, p: Turn, q: Turn)
    requires BothMove(h, hardware, mem, task, p, q) && p.who != q.who
    ensures task.Forked? || task.Gather? || task.Mix?
    ensures task.Forked? ==> p.who != [] && q.who != []
    ensures task.Gather? ==> !task.current.Done? && BothMove(h, hardware, mem, task.current, p, q)
    ensures task.Mix? ==> !task.inner.Done? && BothMove(h, hardware, mem, task.inner, p, q)
  {
    hide EnterObject, EnterVector, Next, GoodPlan, GoodObject, GoodJob, Log2Ceil, Owned, Reads, Gets, Apart;
    PartsSee(task);
    ApartParts(task);
    if task.Forked? && task.first.Done? && task.last.Done? { DoneStays(h, hardware, mem, task); }
  }

  lemma DoneStays(h: Hash, hardware: nat, mem: Heap, task: Task)
    requires task.Forked? && Typed(task) && task.first.Done? && task.last.Done?
    ensures forall who: seq<bool>, base: nat | who != [] :: Act(h, hardware, mem, task, who, base).None?
  {
    forall who: seq<bool>, base: nat | who != []
      ensures Act(h, hardware, mem, task, who, base).None?
    {
      assert Act(h, hardware, mem, task.first, who[1..], base).None?;
      assert Act(h, hardware, mem, task.last, who[1..], base).None?;
    }
  }

  lemma InFirst(h: Hash, hardware: nat, mem: Heap, task: Task, p: Turn, q: Turn)
    requires task.Forked? && BothMove(h, hardware, mem, task, p, q)
    requires p.who != [] && q.who != [] && !p.who[0] && !q.who[0]
    ensures BothMove(h, hardware, mem, task.first, Turn(p.who[1..], p.base), Turn(q.who[1..], q.base))
  {
    hide Log2Ceil, Owned, Reads, Gets, Apart;
    PartsSee(task);
    ApartParts(task);
  }

  lemma InLast(h: Hash, hardware: nat, mem: Heap, task: Task, p: Turn, q: Turn)
    requires task.Forked? && BothMove(h, hardware, mem, task, p, q)
    requires p.who != [] && q.who != [] && p.who[0] && q.who[0]
    ensures BothMove(h, hardware, mem, task.last, Turn(p.who[1..], p.base), Turn(q.who[1..], q.base))
  {
    hide Log2Ceil, Owned, Reads, Gets, Apart;
    PartsSee(task);
    ApartParts(task);
  }

  lemma BothTyped(h: Hash, hardware: nat, mem: Heap, task: Task, p: Turn, q: Turn)
    requires BothMove(h, hardware, mem, task, p, q)
    ensures Typed(Act(h, hardware, mem, task, p.who, p.base).value.0)
    ensures Typed(Act(h, hardware, mem, task, q.who, q.base).value.0)
  {
    hide Act, Owned, Reads, Gets, Apart;
    StepKeepsTyped(h, hardware, mem, task, p.who, p.base);
    StepKeepsTyped(h, hardware, mem, task, q.who, q.base);
  }

  lemma FirstCommute(h: Hash, hardware: nat, mem: Heap, task: Task, p: Turn, q: Turn)
    requires task.Forked? && BothMove(h, hardware, mem, task, p, q)
    requires p.who != [] && q.who != [] && !p.who[0] && !q.who[0]
    requires var p', q' := Turn(p.who[1..], p.base), Turn(q.who[1..], q.base);
      BothMove(h, hardware, mem, task.first, p', q') && Commute(h, hardware, mem, task.first, p', q')
    ensures Commute(h, hardware, mem, task, p, q)
  {
    hide Log2Ceil, Owned, Reads, Gets, Changes, Apart, Apply;
    BothTyped(h, hardware, mem, task, p, q);
  }

  lemma LastCommute(h: Hash, hardware: nat, mem: Heap, task: Task, p: Turn, q: Turn)
    requires task.Forked? && BothMove(h, hardware, mem, task, p, q)
    requires p.who != [] && q.who != [] && p.who[0] && q.who[0]
    requires var p', q' := Turn(p.who[1..], p.base), Turn(q.who[1..], q.base);
      BothMove(h, hardware, mem, task.last, p', q') && Commute(h, hardware, mem, task.last, p', q')
    ensures Commute(h, hardware, mem, task, p, q)
  {
    hide Log2Ceil, Owned, Reads, Gets, Changes, Apart, Apply;
    BothTyped(h, hardware, mem, task, p, q);
  }

  lemma MemberActs(h: Hash, hardware: nat, mem: Heap, task: Task, turn: Turn)
    requires task.Gather? && Typed(task) && !task.current.Done?
    ensures Typed(task.current)
    ensures Act(h, hardware, mem, task, turn.who, turn.base)
      == var r := Act(h, hardware, mem, task.current, turn.who, turn.base);
         if r.None? then None else Some((task.(current := r.value.0), r.value.1))
  {
    hide GoodPlan, Next, Load;
  }

  /** A task that can still move is not done. */
  lemma NotDone(h: Hash, hardware: nat, mem: Heap, task: Task, turn: Turn)
    requires Typed(task) && Act(h, hardware, mem, task, turn.who, turn.base).Some?
    ensures !task.Done?
  {}

  lemma MembersCommute(h: Hash, hardware: nat, mem: Heap, task: Task, p: Turn, q: Turn)
    requires task.Gather? && BothMove(h, hardware, mem, task, p, q) && !task.current.Done?
    requires BothMove(h, hardware, mem, task.current, p, q) && Commute(h, hardware, mem, task.current, p, q)
    ensures Commute(h, hardware, mem, task, p, q)
  {
    hide Act, Owned, Reads, Gets, Changes, Apart, Apply, GoodPlan;
    BothTyped(h, hardware, mem, task, p, q);
    MemberActs(h, hardware, mem, task, p);
    MemberActs(h, hardware, mem, task, q);
    var (a, e) := Act(h, hardware, mem, task, p.who, p.base).value;
    var (b, f) := Act(h, hardware, mem, task, q.who, q.base).value;
    NotDone(h, hardware, Apply(mem, e), a.current, q);
    NotDone(h, hardware, Apply(mem, f), b.current, p);
    MemberActs(h, hardware, Apply(mem, e), a, q);
    MemberActs(h, hardware, Apply(mem, f), b, p);
  }

  lemma InnerActs(h: Hash, hardware: nat, mem: Heap, task: Task, turn: Turn)
    requires task.Mix? && Typed(task) && !task.inner.Done?
    ensures Typed(task.inner)
    ensures Act(h, hardware, mem, task, turn.who, turn.base)
      == var r := Act(h, hardware, mem, task.inner, turn.who, turn.base);
         if r.None? then None else Some((task.(inner := r.value.0), r.value.1))
  {
    hide MixIn, Load;
  }

  lemma InnersCommute(h: Hash, hardware: nat, mem: Heap, task: Task, p: Turn, q: Turn)
    requires task.Mix? && BothMove(h, hardware, mem, task, p, q) && !task.inner.Done?
    requires BothMove(h, hardware, mem, task.inner, p, q) && Commute(h, hardware, mem, task.inner, p, q)
    ensures Commute(h, hardware, mem, task, p, q)
  {
    hide Act, Owned, Reads, Gets, Changes, Apart, Apply;
    BothTyped(h, hardware, mem, task, p, q);
    InnerActs(h, hardware, mem, task, p);
    InnerActs(h, hardware, mem, task, q);
    var (a, e) := Act(h, hardware, mem, task, p.who, p.base).value;
    var (b, f) := Act(h, hardware, mem, task, q.who, q.base).value;
    NotDone(h, hardware, Apply(mem, e), a.inner, q);
    NotDone(h, hardware, Apply(mem, f), b.inner, p);
    InnerActs(h, hardware, Apply(mem, e), a, q);
    InnerActs(h, hardware, Apply(mem, f), b, p);
  }

  lemma AcrossCommute(h: Hash, hardware: nat, mem: Heap, task: Task, p: Turn, q: Turn)
    requires task.Forked? && BothMove(h, hardware, mem, task, p, q)
    requires p.who != [] && q.who != [] && p.who[0] != q.who[0]
    ensures Commute(h, hardware, mem, task, p, q)
  {
    hide Log2Ceil, Owned, Reads, Gets, Changes, Apart, Apply;
    BothTyped(h, hardware, mem, task, p, q);
    if q.who[0] {
      HalvesCommute(h, hardware, mem, task, Turn(p.who[1..], p.base), Turn(q.who[1..], q.base));
    } else {
      HalvesCommute(h, hardware, mem, task, Turn(q.who[1..], q.base), Turn(p.who[1..], p.base));
    }
  }

  function Lookup(mem: Heap, a: nat): Option<Chunk>
  {
    if a in mem then Some(mem[a]) else None
  }

  /** What a step leaves at the addresses it touches. */
  function Left(e: Effect): Option<Chunk>
  {
    if e.Store? then Some(e.value) else if e.Allocate? then Some(ZERO) else None
  }

  lemma LookupAfter(mem: Heap, e: Effect, a: nat)
    ensures Lookup(Apply(mem, e), a) == if a in Changes(e) + Gets(e) then Left(e) else Lookup(mem, a)
  {
    hide Block;
  }

  lemma EffectsCommute(mem: Heap, e: Effect, f: Effect)
    requires Changes(e) + Gets(e) !! Changes(f) + Gets(f)
    ensures Apply(Apply(mem, e), f) == Apply(Apply(mem, f), e)
  {
    var l, r := Apply(Apply(mem, e), f), Apply(Apply(mem, f), e);
    forall a: nat
      ensures Lookup(l, a) == Lookup(r, a)
    {
      hide Lookup, Left, Apply, Changes, Gets, Block;
      LookupAfter(mem, e, a);
      LookupAfter(mem, f, a);
      LookupAfter(Apply(mem, e), f, a);
      LookupAfter(Apply(mem, f), e, a);
    }
    SameLookup(l, r);
  }

  lemma SameLookup(l: Heap, r: Heap)
    requires forall a: nat :: Lookup(l, a) == Lookup(r, a)
    ensures l == r
  {
    assert forall a: nat :: a in l <==> Lookup(l, a).Some?;
    assert forall a: nat :: a in r <==> Lookup(r, a).Some?;
    assert l.Keys == r.Keys;
    forall a | a in l
      ensures l[a] == r[a]
    {
      assert Lookup(l, a) == Lookup(r, a);
    }
  }

  /**
   Two steps that are possible at the same time lead to the same state in either order, whoever takes them, unless both
   were given the same memory by the allocator, which makes one of them impossible after the other.
   */
  lemma StepsCommute(h: Hash, hardware: nat, s: State, p: Turn, q: Turn)
    requires Sound(s) && p.who != q.who
    requires Step(h, hardware, s, p).Some? && Step(h, hardware, s, q).Some?
    requires Sound(Step(h, hardware, s, p).value) && Step(h, hardware, Step(h, hardware, s, p).value, q).Some?
    ensures Sound(Step(h, hardware, s, q).value) && Step(h, hardware, Step(h, hardware, s, q).value, p).Some?
    ensures Step(h, hardware, Step(h, hardware, s, p).value, q) == Step(h, hardware, Step(h, hardware, s, q).value, p)
  {
    hide Act, Apply, Owned, Reads, Changes, Outcome, Ready, Typed, Apart, Keeps;
    StepKeepsSound(h, hardware, s, p);
    StepKeepsSound(h, hardware, s, q);
    var (a, e) := Act(h, hardware, s.mem, s.task, p.who, p.base).value;
    var (b, f) := Act(h, hardware, s.mem, s.task, q.who, q.base).value;
    ActsCommute(h, hardware, s.mem, s.task, p, q);
    KeepsInside(s, a, e);
    KeepsInside(s, b, f);
    KeysAfter(s.mem, e);
    KeysAfter(s.mem, f);
    EffectsCommute(s.mem, e, f);
  }

  lemma KeepsInside(s: State, next: Task, e: Effect)
    requires Sound(s) && Keeps(s.task, e, next)
    ensures Changes(e) <= s.mem.Keys
  {}

  // ---- progress ----

  /** The path to a task that can move. */
  function Path(task: Task): seq<bool>
  {
    match task
    case Forked(_, _, _, _, first, last) =>
      if !first.Done? then [false] + Path(first) else if !last.Done? then [true] + Path(last) else []
    case Gather(_, _, _, _, current) => if current.Done? then [] else Path(current)
    case Mix(_, _, _, inner) => if inner.Done? then [] else Path(inner)
    case _ => []
  }

  lemma {:induction false} PathMoves(task: Task)
    requires !task.Done?
    ensures Mover(task, Path(task)).Some?
    decreases task
  {
    match task
    case Forked(_, _, _, _, first, last) =>
      if !first.Done? {
        PathMoves(first);
        assert Path(task)[1..] == Path(first);
      } else if !last.Done? {
        PathMoves(last);
        assert Path(task)[1..] == Path(last);
      }
    case Gather(_, _, _, _, current) =>
      if !current.Done? { PathMoves(current); }
    case Mix(_, _, _, inner) =>
      if !inner.Done? { PathMoves(inner); }
    case _ =>
  }

  /** No deadlock: until the call is done some task can move, with any memory behind all that is in use. */
  lemma SomeTaskCanMove(h: Hash, hardware: nat, s: State, base: nat)
    requires Typed(s.task) && !s.task.Done?
    requires forall a :: a in s.mem ==> a < base
    ensures Step(h, hardware, s, Turn(Path(s.task), base)).Some?
  {
    hide Act;
    PathMoves(s.task);
    MoverCanMove(h, hardware, s.mem, s.task, Path(s.task), base);
    AllocatesAtBase(h, hardware, s.mem, s.task, Path(s.task), base);
  }

  lemma {:induction false} AllocatesAtBase(h: Hash, hardware: nat, mem: Heap, task: Task, who: seq<bool>, base: nat)
    requires Typed(task) && Act(h, hardware, mem, task, who, base).Some?
    ensures var e := Act(h, hardware, mem, task, who, base).value.1; e.Allocate? ==> e.base == base
    decreases task
  {
    hide GoodJob, GoodPlan, GoodObject, Next, Log2Ceil, Load, JobOf;
    match task
    case Forked(_, _, _, _, first, last) =>
      if who != [] && !who[0] {
        AllocatesAtBase(h, hardware, mem, first, who[1..], base);
      } else if who != [] {
        AllocatesAtBase(h, hardware, mem, last, who[1..], base);
      }
    case Gather(_, _, _, _, current) =>
      if !current.Done? { AllocatesAtBase(h, hardware, mem, current, who, base); }
    case Mix(_, _, _, inner) =>
      if !inner.Done? { AllocatesAtBase(h, hardware, mem, inner, who, base); }
    case _ =>
  }

  /** There always is memory behind all that is in use. */
  lemma {:induction false} FreshMemory(mem: Heap) returns (base: nat)
    ensures forall a :: a in mem ==> a < base
    decreases |mem|
  {
    if mem == map[] { return 0; }
    var a :| a in mem;
    var rest := mem - {a};
    assert mem.Keys == rest.Keys + {a};
    base := FreshMemory(rest);
    base := Max(base, a + 1);
  }

  // ---- whole runs ----

  /** Let the scheduler and the allocator choose again and again. */
  ghost function Run(h: Hash, hardware: nat, s: State, turns: seq<Turn>): Option<State>
    requires Sound(s)
    decreases |turns|
  {
    if turns == [] then Some(s) else
      var next := Step(h, hardware, s, turns[0]);
      if next.None? then None else
        StepKeepsSound(h, hardware, s, turns[0]);
        Run(h, hardware, next.value, turns[1..])
  }

  /** Memory that was there before is as it was, but for the place of the root; all other memory belongs to tasks. */
  ghost predicate Frame(before: Heap, s: State)
  {
    && s.task.at in before
    && s.mem.Keys == before.Keys + Owned(s.task) && Owned(s.task) * before.Keys == {s.task.at}
    && forall a :: a in before && a != s.task.at ==> s.mem[a] == before[a]
  }

  lemma StepKeepsFrame(before: Heap, s: State, e: Effect, next: Task)
    requires Sound(s) && Frame(before, s) && Keeps(s.task, e, next) && next.at == s.task.at
    requires Gets(e) !! s.mem.Keys
    ensures Frame(before, State(next, Apply(s.mem, e)))
  {
    hide Owned, Reads, Apart, Typed, Ready, Block;
    KeysAfter(s.mem, e);
    OwnsItsPlace(next);
    assert Frees(e) !! before.Keys by { FreesOwn(before, s, e, next); }
    assert Owned(next) * before.Keys == {s.task.at};
    forall a | a in before && a != s.task.at
      ensures a in Apply(s.mem, e) && Apply(s.mem, e)[a] == before[a]
    {
      assert a !in Owned(s.task) by {
        if a in Owned(s.task) { assert a in Owned(s.task) * before.Keys; }
      }
    }
  }

  lemma FreesOwn(before: Heap, s: State, e: Effect, next: Task)
    requires Frame(before, s) && Keeps(s.task, e, next)
    ensures Frees(e) !! before.Keys
  {
    hide Owned, Block;
    assert Frees(e) <= Owned(s.task) - {s.task.at};
    assert Frees(e) * before.Keys <= Owned(s.task) * before.Keys;
  }

  lemma {:induction false} RunInvariant(h: Hash, hardware: nat, before: Heap, s: State, turns: seq<Turn>)
    requires Sound(s) && Frame(before, s) && NoZeroInForks(s.task) && Run(h, hardware, s, turns).Some?
    ensures var end := Run(h, hardware, s, turns).value;
      && Sound(end) && Frame(before, end) && NoZeroInForks(end.task) && end.task.at == s.task.at
      && Outcome(h, end.mem, end.task) == Outcome(h, s.mem, s.task)
      && Work(hardware, end.task) + |turns| == Work(hardware, s.task)
      && Threads(hardware, end.task) <= Threads(hardware, s.task)
    decreases |turns|
  {
    hide Outcome, Work, Threads, Sound, Act, NoZero, NoZeroInForks, Frame, Keeps, Gets, Apply, Typed;
    if turns != [] {
      var turn := turns[0];
      SoundIsTyped(s);
      var next := Step(h, hardware, s, turn).value;
      StepKeepsSound(h, hardware, s, turn);
      StepKeepsTyped(h, hardware, s.mem, s.task, turn.who, turn.base);
      StepDoesOneUnit(h, hardware, s.mem, s.task, turn.who, turn.base);
      StepKeepsThreads(h, hardware, s.mem, s.task, turn.who, turn.base);
      StepKeepsFrame(before, s, Act(h, hardware, s.mem, s.task, turn.who, turn.base).value.1, next.task);
      RunInvariant(h, hardware, before, next, turns[1..]);
    }
  }

  lemma SoundIsTyped(s: State)
    requires Sound(s)
    ensures Typed(s.task)
  {}

  /** The state in which hash_tree_root(at, v, cpu) is called. */
  ghost predicate Callable(t: Type, v: Value, at: nat, mem: Heap)
  {
    GoodObject(t, v) && at in mem && (t.Uint? || t.Bool? ==> mem[at] == ZERO)
  }

  function Start(t: Type, v: Value, cpu: nat, at: nat, mem: Heap): State
  {
    State(Object(t, v, cpu, at), mem)
  }

  lemma CallIsSound(t: Type, v: Value, cpu: nat, at: nat, mem: Heap)
    requires Callable(t, v, at, mem)
    ensures Sound(Start(t, v, cpu, at, mem)) && Frame(mem, Start(t, v, cpu, at, mem))
  {
    hide GoodObject;
  }

  /**
   Hashing any nested value, under every interleaving and every choice of the allocator: a run ends after the same
   number of steps and is never stuck before; it ends with the root at its place and all other memory as it was; at no
   time is other memory changed, do more calls run than cpus were granted, or is a call below a fork given the cpu
   count 0.
   */
  lemma AnyInterleaving(h: Hash, hardware: nat, t: Type, v: Value, cpu: nat, at: nat, mem: Heap, turns: seq<Turn>)
    requires Callable(t, v, at, mem)
    ensures Sound(Start(t, v, cpu, at, mem))
    ensures Run(h, hardware, Start(t, v, cpu, at, mem), turns).Some? ==>
      var end, steps := Run(h, hardware, Start(t, v, cpu, at, mem), turns).value, ObjectWork(hardware, t, v, cpu);
      && |turns| <= steps
      && (end.task.Done? <==> |turns| == steps)
      && (end.task.Done? ==> end.mem == mem[at := RootOf(h, t, v)])
      && (!end.task.Done? ==> Typed(end.task) && exists turn :: Step(h, hardware, end, turn).Some?)
      && (forall a :: a in mem && a != at ==> a in end.mem && end.mem[a] == mem[a])
      && (forall crowd: set<seq<bool>> :: (forall who :: who in crowd ==> Mover(end.task, who).Some?) ==>
           |crowd| <= Max(1, Resolve(cpu, hardware)))
      && NoZeroInForks(end.task)
      && (forall who :: who != [] && Mover(end.task, who).Some? ==> Counted(Mover(end.task, who).value))
  {
    hide Run, ObjectWork, Sound, Act, Apply, RootOf, Mover;
    var s := Start(t, v, cpu, at, mem);
    CallIsSound(t, v, cpu, at, mem);
    if Run(h, hardware, s, turns).Some? {
      RunInvariant(h, hardware, mem, s, turns);
      var end := Run(h, hardware, s, turns).value;
      SoundIsTyped(s);
      SoundIsTyped(end);
      forall crowd: set<seq<bool>> | forall who :: who in crowd ==> Mover(end.task, who).Some?
        ensures |crowd| <= Max(1, Resolve(cpu, hardware))
      {
        AtMostLive(end.task, crowd);
      }
      forall who | who != [] && Mover(end.task, who).Some?
        ensures Counted(Mover(end.task, who).value)
      {
        CountedBelowForks(end.task, who);
      }
      if end.task.Done? {
        DoneMemory(mem, end);
      } else {
        var base := FreshMemory(end.mem);
        SomeTaskCanMove(h, hardware, end, base);
      }
    }
  }

  lemma DoneMemory(before: Heap, end: State)
    requires Frame(before, end) && end.task.Done?
    ensures end.mem == before[end.task.at := Load(end.mem, end.task.at)]
  {}

  /** Calls that run at the same time write to different places of that one memory, which no other of them reads. */
  lemma RunningCallsApart(h: Hash, hardware: nat, t: Type, v: Value, cpu: nat, at: nat, mem: Heap, turns: seq<Turn>,
                          p: seq<bool>, q: seq<bool>)
    requires Callable(t, v, at, mem)
    requires Sound(Start(t, v, cpu, at, mem)) && Run(h, hardware, Start(t, v, cpu, at, mem), turns).Some?
    requires var end := Run(h, hardware, Start(t, v, cpu, at, mem), turns).value;
      p != q && Mover(end.task, p).Some? && Mover(end.task, q).Some?
    ensures var end := Run(h, hardware, Start(t, v, cpu, at, mem), turns).value;
      var x, y := Mover(end.task, p).value, Mover(end.task, q).value;
      && x.at != y.at && Owned(x) !! Owned(y) + Reads(y) && Owned(y) !! Reads(x)
      && Owned(x) + Reads(x) <= end.mem.Keys
  {
    hide Run, Owned, Reads, Mover, Typed, Ready, Apart;
    CallIsSound(t, v, cpu, at, mem);
    RunInvariant(h, hardware, mem, Start(t, v, cpu, at, mem), turns);
    var end := Run(h, hardware, Start(t, v, cpu, at, mem), turns).value;
    MoversApart(end.task, p, q);
    MoverSees(end.task, p);
  }
}
