/**
 One caller of a protocol, run as straight-line code. The store may be changed by
 others in any way before each of its accesses. The ghost part follows the caller
 through a step system: code proved to keep up with it takes exactly the steps of
 the system, whatever it finds.
 */
module Sessions {
  /** A step system: what is shared, the acting actor and an event, to both after the step. */
  type Stepper<!S, !A, !E> = (S, A, E) -> (S, A)

  /** A step that was taken: what was found, and the event. */
  datatype Taken<+S, +E> = Taken(found: S, event: E)

  function Iterate<T>(f: T -> T, x: T, n: nat): T {
    if n == 0 then x else Iterate(f, f(x), n - 1)
  }

  lemma {:induction false} IterateAdds<T>(f: T -> T, x: T, n: nat, m: nat)
    ensures Iterate(f, x, n + m) == Iterate(f, Iterate(f, x, n), m)
  {
    if n > 0 {
      IterateAdds(f, f(x), n - 1, m);
    }
  }

  /** Enough steps of `f` lead from `x` to `y`. */
  ghost predicate Leads<T>(f: T -> T, x: T, y: T) {
    exists n :: Iterate(f, x, n) == y
  }

  lemma {:induction false} LeadsHere<T>(f: T -> T, x: T)
    ensures Leads(f, x, x) && Leads(f, x, f(x))
  {
    assert Iterate(f, x, 0) == x;
    assert Iterate(f, x, 1) == Iterate(f, f(x), 0);
  }

  lemma {:induction false} LeadsOn<T>(f: T -> T, x: T, y: T, z: T)
    requires Leads(f, x, y) && Leads(f, y, z)
    ensures Leads(f, x, z)
  {
    var n :| Iterate(f, x, n) == y;
    var m :| Iterate(f, y, m) == z;
    IterateAdds(f, x, n, m);
  }

  lemma {:induction false} LeadsNext<T>(f: T -> T, x: T, y: T)
    requires Leads(f, x, y)
    ensures Leads(f, x, f(y))
  {
    LeadsHere(f, y);
    LeadsOn(f, x, y, f(y));
  }

  /** The state after all the moves. */
  function Played<S, M>(step: (S, M) -> S, s: S, moves: seq<M>): S {
    if moves == [] then s else Played(step, step(s, moves[0]), moves[1..])
  }

  /** If each state that stands for `x` has a move to one that stands for `f(x)`, moves follow any iteration. */
  lemma {:induction false} MovesFollow<S, M, T>(
    step: (S, M) -> S, f: T -> T, move: T -> M, stands: (S, T, nat) -> bool, s: S, x: T, k: nat, n: nat)
    returns (moves: seq<M>)
    requires stands(s, x, k)
    requires forall t, y, i: nat :: stands(t, y, i) ==> stands(step(t, move(y)), f(y), i + 1)
    ensures stands(Played(step, s, moves), Iterate(f, x, n), k + n)
    ensures |moves| == n && forall i :: 0 <= i < n ==> exists y :: moves[i] == move(y)
    decreases n
  {
    moves := [];
    if n > 0 {
      moves := MovesFollow(step, f, move, stands, step(s, move(x)), f(x), k + 1, n - 1);
      moves := [move(x)] + moves;
    }
  }

  ghost function Follow<S, A, E>(step: Stepper<S, A, E>, start: A, steps: seq<Taken<S, E>>): A {
    if steps == [] then start
    else
      var n := |steps| - 1;
      step(steps[n].found, Follow(step, start, steps[..n]), steps[n].event).1
  }

  /** How each step leaves what it found. */
  ghost function LeftBy<S, A, E>(step: Stepper<S, A, E>, start: A, steps: seq<Taken<S, E>>): seq<S> {
    if steps == [] then []
    else
      var n := |steps| - 1;
      LeftBy(step, start, steps[..n]) + [step(steps[n].found, Follow(step, start, steps[..n]), steps[n].event).0]
  }

  /**
   A caller that takes the step the system offers its actor stays with that actor,
   and leaves the shared state as the system does.
   */
  lemma {:induction false} OneMoreStep<S, A, E>(
    step: Stepper<S, A, E>, start: A, steps: seq<Taken<S, E>>, found: S, event: E)
    ensures var next := step(found, Follow(step, start, steps), event);
            && Follow(step, start, steps + [Taken(found, event)]) == next.1
            && LeftBy(step, start, steps + [Taken(found, event)]) == LeftBy(step, start, steps) + [next.0]
  {
    assert (steps + [Taken(found, event)])[..|steps|] == steps;
  }

  // The steps of one actor among those of all

  type ActorId = nat

  /** One move of a schedule: who moved, what it found, and the event. */
  datatype Noted<+S, +E> = Noted(actor: ActorId, taken: Taken<S, E>)

  /** The steps that one actor takes in a schedule. */
  ghost function StepsOf<S, E>(trace: seq<Noted<S, E>>, a: ActorId): seq<Taken<S, E>> {
    if trace == [] then []
    else
      var n := |trace| - 1;
      StepsOf(trace[..n], a) + if trace[n].actor == a then [trace[n].taken] else []
  }

  /** The actor stands where a caller stands that started alike and took these steps. */
  ghost predicate Abreast<S, A, E>(
    step: Stepper<S, A, E>, start: A, actors: map<ActorId, A>, a: ActorId, steps: seq<Taken<S, E>>)
  {
    if a in actors then actors[a] == Follow(step, start, steps) else steps == []
  }

  /** One more move: it takes this actor a step on, or leaves it where it is. */
  lemma {:induction false} StaysAbreast<S, A, E>(
    step: Stepper<S, A, E>, start: A, actors: map<ActorId, A>, actors': map<ActorId, A>, a: ActorId,
    trace: seq<Noted<S, E>>, next: Noted<S, E>)
    requires Abreast(step, start, actors, a, StepsOf(trace, a))
    requires if next.actor == a
             then a in actors' && actors'[a] ==
               step(next.taken.found, if a in actors then actors[a] else start, next.taken.event).1
             else (a in actors' <==> a in actors) && (a in actors ==> actors'[a] == actors[a])
    ensures Abreast(step, start, actors', a, StepsOf(trace + [next], a))
  {
    assert (trace + [next])[..|trace|] == trace;
    if next.actor == a {
      OneMoreStep(step, start, StepsOf(trace, a), next.taken.found, next.taken.event);
    } else {
      assert StepsOf(trace, a) + [] == StepsOf(trace, a);
    }
  }

  class Session<S(!new), A, E> {
    /** What others have made of the shared state when this caller makes its n-th access. */
    const others: nat -> S
    /** How this caller left it after each access so far. */
    var left: seq<S>
    ghost const step: Stepper<S, A, E>
    ghost const role: A
    ghost var steps: seq<Taken<S, E>>

    /** The caller stands where the step system has its actor, and has left everything as the system would. */
    ghost predicate At(actor: A)
      reads this
    {
      Follow(step, role, steps) == actor && left == LeftBy(step, role, steps)
    }

    constructor (others: nat -> S, ghost step: Stepper<S, A, E>, ghost role: A)
      ensures this.others == others && this.step == step && this.role == role
      ensures At(role)
    {
      this.others, this.step, this.role := others, step, role;
      left, steps := [], [];
    }

    /** What the next access will find. */
    function Next(): S
      reads this
    {
      others(|left|)
    }

    /** One access, which leaves `after`. */
    method Leave(after: S, ghost actor: A, ghost event: E)
      requires At(actor) && step(Next(), actor, event).0 == after
      modifies this
      ensures At(step(old(Next()), actor, event).1)
    {
      OneMoreStep(step, role, steps, Next(), event);
      steps := steps + [Taken(Next(), event)];
      left := left + [after];
    }

    /** One access that changes nothing, whatever it finds. */
    method Look(ghost actor: A, ghost event: E) returns (found: S)
      requires At(actor) && forall s :: step(s, actor, event).0 == s
      modifies this
      ensures found == old(Next()) && At(step(found, actor, event).1)
    {
      found := Next();
      Leave(found, actor, event);
    }
  }
}
