/** The admission gate in front of the exports and of the office converter:
    a bounded line before a bounded semaphore, with a wait timeout. */
module AdmissionGate {

  /** Where an admitted request is: in line, building, or on its way out. */
  datatype Phase = Waiting | Running | Leaving

  /** running cap, queue cap; the counter, the free permits, the requests inside. */
  datatype Gate = Gate(max: nat, queue: nat, outstanding: int, permits: int, threads: map<nat, Phase>)

  datatype Step =
    | Enter(id: nat)              // under the lock: shed, or count and admit
    | Acquire(id: nat)            // the semaphore had a free permit
    | TimeOut(id: nat)            // it waited too long
    | Finish(id: nat, ok: bool)   // handler returned or raised; finally releases
    | Leave(id: nat)              // outer finally, under the lock

  function Open(max: nat, queue: nat): Gate {
    Gate(max, queue, 0, max, map[])
  }

  predicate At(g: Gate, id: nat, phase: Phase) {
    id in g.threads && g.threads[id] == phase
  }

  predicate Full(g: Gate) {
    g.outstanding >= g.max + g.queue
  }

  predicate Enabled(g: Gate, step: Step) {
    match step
    case Enter(id) => id !in g.threads
    case Acquire(id) => At(g, id, Waiting) && g.permits > 0
    case TimeOut(id) => At(g, id, Waiting)
    case Finish(id, _) => At(g, id, Running)
    case Leave(id) => At(g, id, Leaving)
  }

  function Next(g: Gate, step: Step): Gate
    requires Enabled(g, step)
  {
    match step
    case Enter(id) =>
      if Full(g) then g  // shed with 503
      else g.(outstanding := g.outstanding + 1, threads := g.threads[id := Waiting])
    case Acquire(id) => g.(permits := g.permits - 1, threads := g.threads[id := Running])
    case TimeOut(id) => g.(threads := g.threads[id := Leaving])
    case Finish(id, _) => g.(permits := g.permits + 1, threads := g.threads[id := Leaving])
    case Leave(id) => g.(outstanding := g.outstanding - 1, threads := g.threads - {id})
  }

  function InPhase(g: Gate, phase: Phase): set<nat> {
    set id | id in g.threads && g.threads[id] == phase
  }

  predicate Inv(g: Gate) {
    && g.outstanding == |g.threads| && g.outstanding <= g.max + g.queue
    && g.permits + |InPhase(g, Running)| == g.max && 0 <= g.permits
  }

  /** Moving one request to a phase changes the head counts of two phases only. */
  lemma PhaseMoved(g: Gate, id: nat, phase: Phase, p: Phase)
    requires id in g.threads
    ensures PhaseGap(g, id, phase, p)
  {
    var after := InPhase(g.(threads := g.threads[id := phase]), p);
    var before := InPhase(g, p);
    var rest := before - {id};
    assert after == rest + (if phase == p then {id} else {});
    if g.threads[id] == p {
      assert before == rest + {id};
    } else {
      assert before == rest;
    }
  }

  predicate PhaseGap(g: Gate, id: nat, phase: Phase, p: Phase)
    requires id in g.threads
  {
    |InPhase(g.(threads := g.threads[id := phase]), p)|
      == |InPhase(g, p)| + (if phase == p then 1 else 0) - (if g.threads[id] == p then 1 else 0)
  }

  lemma MovedPhase(g: Gate, id: nat, phase: Phase)
    requires id in g.threads
    ensures |g.threads[id := phase]| == |g.threads| && PhaseGap(g, id, phase, Running)
  {
    var after := g.threads[id := phase];
    assert after.Keys == g.threads.Keys;
    assert |after| == |after.Keys| && |g.threads| == |g.threads.Keys|;
    PhaseMoved(g, id, phase, Running);
  }

  /** Every interleaved step keeps the counter and the permits exact. */
  lemma StepInv(g: Gate, step: Step)
    requires Inv(g) && Enabled(g, step)
    ensures Inv(Next(g, step))
  {
    match step
    case Enter(id) =>
      var h := Next(g, step);
      if !Full(g) {
        assert h.threads.Keys == g.threads.Keys + {id};
        assert |h.threads| == |h.threads.Keys| && |g.threads| == |g.threads.Keys|;
        assert InPhase(h, Running) == InPhase(g, Running);
      }
    case Acquire(id) => MovedPhase(g, id, Running);
    case TimeOut(id) => MovedPhase(g, id, Leaving);
    case Finish(id, _) => MovedPhase(g, id, Leaving);
    case Leave(id) =>
      var h := Next(g, step);
      assert h.threads.Keys == g.threads.Keys - {id};
      assert |h.threads| == |h.threads.Keys| && |g.threads| == |g.threads.Keys|;
      assert InPhase(h, Running) == InPhase(g, Running);
  }

  /** A run: each step enabled in the state the steps before it lead to. */
  predicate IsRun(g: Gate, steps: seq<Step>)
    decreases |steps|
  {
    if steps == [] then true
    else Enabled(g, steps[0]) && IsRun(Next(g, steps[0]), steps[1..])
  }

  function After(g: Gate, steps: seq<Step>): Gate
    requires IsRun(g, steps)
    decreases |steps|
  {
    if steps == [] then g else After(Next(g, steps[0]), steps[1..])
  }

  lemma {:induction false} RunInv(g: Gate, steps: seq<Step>)
    requires Inv(g) && IsRun(g, steps)
    ensures Inv(After(g, steps)) && After(g, steps).max == g.max && After(g, steps).queue == g.queue
    decreases |steps|
  {
    if steps != [] {
      StepInv(g, steps[0]);
      RunInv(Next(g, steps[0]), steps[1..]);
    }
  }

  /** Under every interleaving: the counter is the number admitted and within
      the caps, no more run than the running cap, the semaphore is never
      released beyond its bound, and an idle gate is as it was opened. */
  lemma EveryRun(max: nat, queue: nat, steps: seq<Step>)
    requires IsRun(Open(max, queue), steps)
    ensures var g := After(Open(max, queue), steps);
            && g.outstanding == |g.threads| <= max + queue
            && g.permits + |InPhase(g, Running)| == max && |InPhase(g, Running)| <= max
            && 0 <= g.permits <= max
            && (InPhase(g, Running) != {} ==> g.permits + 1 <= max)
            && (g.threads == map[] ==> g == Open(max, queue))
  {
    OpenInv(max, queue);
    RunInv(Open(max, queue), steps);
    var g := After(Open(max, queue), steps);
    if g.threads == map[] {
      assert InPhase(g, Running) == {};
    }
    if id :| id in InPhase(g, Running) {
      assert |InPhase(g, Running)| == |InPhase(g, Running) - {id}| + 1;
    }
  }

  lemma OpenInv(max: nat, queue: nat)
    ensures Inv(Open(max, queue))
  {
    assert InPhase(Open(max, queue), Running) == {};
  }

  // ── everything taken is given back ────────────────────────────────────────

  /** Steps still ahead of the requests inside. */
  function Work(g: Gate): nat {
    3 * |InPhase(g, Waiting)| + 2 * |InPhase(g, Running)| + |InPhase(g, Leaving)|
  }

  /** Every step but an entry brings the gate closer to idle. */
  lemma StepWorks(g: Gate, step: Step)
    requires Enabled(g, step) && !step.Enter?
    ensures Work(Next(g, step)) < Work(g)
  {
    var id := step.id;
    match step
    case Acquire(_) =>
      forall p ensures PhaseGap(g, id, Running, p) { PhaseMoved(g, id, Running, p); }
      WorkGap(g, step, Running);
    case TimeOut(_) =>
      forall p ensures PhaseGap(g, id, Leaving, p) { PhaseMoved(g, id, Leaving, p); }
      WorkGap(g, step, Leaving);
    case Finish(_, _) =>
      forall p ensures PhaseGap(g, id, Leaving, p) { PhaseMoved(g, id, Leaving, p); }
      WorkGap(g, step, Leaving);
    case Leave(_) =>
      var h := Next(g, step);
      assert InPhase(h, Waiting) == InPhase(g, Waiting) && InPhase(h, Running) == InPhase(g, Running);
      assert InPhase(g, Leaving) == InPhase(h, Leaving) + {id};
  }

  lemma WorkGap(g: Gate, step: Step, phase: Phase)
    requires Enabled(g, step) && (step.Acquire? || step.TimeOut? || step.Finish?)
    requires phase == (if step.Acquire? then Running else Leaving)
    requires forall p :: PhaseGap(g, step.id, phase, p)
    ensures Work(Next(g, step)) < Work(g)
  {
    var h := g.(threads := g.threads[step.id := phase]);
    forall p ensures InPhase(Next(g, step), p) == InPhase(h, p) {}
    assert PhaseGap(g, step.id, phase, Waiting) && PhaseGap(g, step.id, phase, Running);
    assert PhaseGap(g, step.id, phase, Leaving);
  }

  /** While a request is inside, some way out is open: no admission is stuck. */
  lemma NoneStuck(g: Gate, id: nat)
    requires id in g.threads
    ensures exists step: Step :: !step.Enter? && step.id == id && Enabled(g, step)
  {
    match g.threads[id]
    case Waiting => assert Enabled(g, TimeOut(id));
    case Running => assert Enabled(g, Finish(id, true));
    case Leaving => assert Enabled(g, Leave(id));
  }

  /** Without new entries a run is bounded by the work at hand, and one that
      cannot go on has put the gate back into its initial state. */
  lemma {:induction false} Drains(g: Gate, steps: seq<Step>)
    requires Inv(g) && IsRun(g, steps) && forall i :: 0 <= i < |steps| ==> !steps[i].Enter?
    ensures |steps| + Work(After(g, steps)) <= Work(g)
    ensures (forall step: Step :: !step.Enter? ==> !Enabled(After(g, steps), step)) ==>
              After(g, steps) == Open(g.max, g.queue)
    decreases |steps|
  {
    if steps == [] {
      if g.threads != map[] {
        var id :| id in g.threads;
        NoneStuck(g, id);
      } else {
        assert InPhase(g, Running) == {};
      }
    } else {
      StepInv(g, steps[0]);
      StepWorks(g, steps[0]);
      Drains(Next(g, steps[0]), steps[1..]);
    }
  }

  /** In every run a request is admitted exactly while fewer are inside than may run and wait; an admitted one gets a
      permit exactly while fewer run than may; it can give up while it waits, finish while it runs, and then leave. */
  lemma ServedExactly(max: nat, queue: nat, steps: seq<Step>, id: nat, ok: bool)
    requires IsRun(Open(max, queue), steps)
    ensures var g := After(Open(max, queue), steps);
            && (Enabled(g, Enter(id)) <==> id !in g.threads)
            && (id !in g.threads ==>
                  Next(g, Enter(id)).threads == if |g.threads| < max + queue then g.threads[id := Waiting]
                    else g.threads)
            && (Enabled(g, Acquire(id)) <==> At(g, id, Waiting) && |InPhase(g, Running)| < max)
            && (Enabled(g, Acquire(id)) ==> Next(g, Acquire(id)).threads == g.threads[id := Running])
            && (Enabled(g, TimeOut(id)) <==> At(g, id, Waiting)) && (Enabled(g, Finish(id, ok)) <==> At(g, id, Running))
            && (Enabled(g, TimeOut(id)) ==> Next(g, TimeOut(id)).threads == g.threads[id := Leaving])
            && (Enabled(g, Finish(id, ok)) ==> Next(g, Finish(id, ok)).threads == g.threads[id := Leaving])
            && (Enabled(g, Leave(id)) <==> At(g, id, Leaving))
            && (Enabled(g, Leave(id)) ==> Next(g, Leave(id)).threads == g.threads - {id})
  {
    OpenInv(max, queue);
    RunInv(Open(max, queue), steps);
    EveryRun(max, queue, steps);
  }

  // ── the module-level counters, updated in place ───────────────────────────

  class GateState {
    const max: nat
    const queue: nat
    var outstanding: int
    var permits: int
    ghost var threads: map<nat, Phase>

    ghost function View(): Gate
      reads this
    {
      Gate(max, queue, outstanding, permits, threads)
    }

    constructor (max: nat, queue: nat)
      ensures View() == Open(max, queue)
    {
      this.max, this.queue := max, queue;
      outstanding, permits, threads := 0, max, map[];
    }

    method TryEnter(ghost id: nat) returns (admitted: bool)
      requires Enabled(View(), Enter(id))
      modifies this
      ensures View() == Next(old(View()), Enter(id)) && admitted == !Full(old(View()))
    {
      if outstanding >= max + queue {
        return false;
      }
      outstanding := outstanding + 1;
      threads := threads[id := Waiting];
      return true;
    }

    method TakePermit(ghost id: nat)
      requires Enabled(View(), Acquire(id))
      modifies this
      ensures View() == Next(old(View()), Acquire(id))
    {
      permits := permits - 1;
      threads := threads[id := Running];
    }

    method GiveUp(ghost id: nat)
      requires Enabled(View(), TimeOut(id))
      modifies this
      ensures View() == Next(old(View()), TimeOut(id))
    {
      threads := threads[id := Leaving];
    }

    method ReleasePermit(ghost id: nat, ok: bool)
      requires Enabled(View(), Finish(id, ok))
      modifies this
      ensures View() == Next(old(View()), Finish(id, ok))
    {
      permits := permits + 1;
      threads := threads[id := Leaving];
    }

    method Exit(ghost id: nat)
      requires Enabled(View(), Leave(id))
      modifies this
      ensures View() == Next(old(View()), Leave(id))
    {
      outstanding := outstanding - 1;
      threads := threads - {id};
    }

    /** The wrapper around one request, undisturbed: whatever the handler does
        and whether or not a permit comes in time, the gate is left as found. */
    method Wrapped(ghost id: nat, inTime: bool, ok: bool) returns (served: bool)
      requires Inv(View()) && id !in threads
      modifies this
      ensures View() == old(View())
      ensures served <==> !Full(old(View())) && inTime && old(permits) > 0
    {
      ghost var before := threads;
      var admitted := TryEnter(id);
      if !admitted {
        return false;
      }
      if !(inTime && permits > 0) {
        GiveUp(id);
        Exit(id);
        assert threads == before;
        return false;
      }
      TakePermit(id);
      ReleasePermit(id, ok);
      Exit(id);
      assert threads == before;
      return true;
    }
  }
}
