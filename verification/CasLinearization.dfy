/**
 Any number of clients run the retry loop of `update_json_cas` on one key at the
 same time. Reading the object and writing it conditionally are separate steps,
 and a schedule interleaves the steps of all clients in any order. The theorem:
 every such run is a sequence of atomic `stored := mutate(stored)` steps.
 The hand-written loop of `_persist_record` is the instance whose mutation is
 "check the guard, then return the record".
 */
module CasLinearization {
  import opened Wrappers
  import opened Storage

  type ClientId = nat

  /** A client's mutation, chosen by its id; it may refuse the payload it is shown. */
  type Mutations<!V, !E> = (ClientId, Option<V>) -> Result<V, E>

  datatype Client<+V, +E> =
    | Reading(attempt: nat)
    | Writing(attempt: nat, seen: Snapshot<V>)
    | Returned(value: V)
    | Refused(error: E)
    | Exhausted

  datatype System<+V, +E> = System(cell: Cell<V>, clients: map<ClientId, Client<V, E>>)

  /** One scheduled step: which client moves, and how far its generation would jump. */
  datatype Move = Move(client: ClientId, gap: nat)

  function ClientAt<V, E>(s: System<V, E>, c: ClientId): Client<V, E> {
    if c in s.clients then s.clients[c] else Reading(0)
  }

  function NextClient<V, E>(cell: Cell<V>, client: Client<V, E>, c: ClientId, f: Mutations<V, E>, limit: nat)
    : Client<V, E>
  {
    match client
    case Reading(attempt) =>
      if attempt == limit then Exhausted else Writing(attempt, cell.Read())
    case Writing(attempt, seen) =>
      (match f(c, seen.payload)
       case Failure(error) => Refused(error)
       case Success(value) => if cell.Accepts(seen) then Returned(value) else Reading(attempt + 1))
    case _ => client
  }

  /** Does the client's step put its new payload into the object? */
  predicate Commits<V, E>(cell: Cell<V>, client: Client<V, E>, c: ClientId, f: Mutations<V, E>) {
    client.Writing? && f(c, client.seen.payload).Success? && cell.Accepts(client.seen)
  }

  function Step<V, E>(s: System<V, E>, m: Move, f: Mutations<V, E>, limit: nat): System<V, E> {
    var client := ClientAt(s, m.client);
    var cell := if Commits(s.cell, client, m.client, f)
                then s.cell.Put(f(m.client, client.seen.payload).value, m.gap) else s.cell;
    System(cell, s.clients[m.client := NextClient(s.cell, client, m.client, f, limit)])
  }

  function Run<V, E>(start: Cell<V>, schedule: seq<Move>, f: Mutations<V, E>, limit: nat): System<V, E> {
    if schedule == [] then System(start, map[])
    else Step(Run(start, schedule[..|schedule| - 1], f, limit), schedule[|schedule| - 1], f, limit)
  }

  /** The clients whose writes were accepted, in the order of those writes. */
  function Commit<V, E>(start: Cell<V>, schedule: seq<Move>, f: Mutations<V, E>, limit: nat): seq<ClientId> {
    if schedule == [] then []
    else
      var before, m := schedule[..|schedule| - 1], schedule[|schedule| - 1];
      var s, order := Run(start, before, f, limit), Commit(start, before, f, limit);
      if Commits(s.cell, ClientAt(s, m.client), m.client, f) then order + [m.client] else order
  }

  /** The atomic system: the listed clients apply their mutations one after the other. */
  ghost function Atomically<V, E>(start: Option<V>, order: seq<ClientId>, f: Mutations<V, E>): Option<V> {
    if order == [] then start
    else
      var before := Atomically(start, order[..|order| - 1], f);
      match f(order[|order| - 1], before)
      case Success(value) => Some(value)
      case Failure(_) => before
  }

  /** What a client's local state must be, given the commits made so far. */
  ghost predicate ClientOk<V, E>(
    start: Option<V>, cell: Cell<V>, order: seq<ClientId>, c: ClientId, client: Client<V, E>, f: Mutations<V, E>)
  {
    match client
    case Reading(_) => c !in order
    case Writing(_, seen) => c !in order && Coherent(seen, cell)
    case Returned(value) => exists i ::
      0 <= i < |order| && order[i] == c && f(c, Atomically(start, order[..i], f)) == Success(value)
    case Refused(error) => c !in order
    case Exhausted => c !in order
  }

  ghost predicate Linear<V, E>(start: Option<V>, s: System<V, E>, order: seq<ClientId>, f: Mutations<V, E>) {
    && s.cell.Valid()
    && s.cell.value == Atomically(start, order, f)
    && (forall i, j :: 0 <= i < j < |order| ==> order[i] != order[j])
    && (forall i :: 0 <= i < |order| ==> f(order[i], Atomically(start, order[..i], f)).Success?)
    && (forall c :: ClientOk(start, s.cell, order, c, ClientAt(s, c), f))
  }

  /** A commit extends the order by its client, whose mutation saw what it replaced. */
  lemma {:induction false} CommitIsLinear<V, E>(
    start: Option<V>, s: System<V, E>, order: seq<ClientId>, m: Move, f: Mutations<V, E>, limit: nat)
    requires Linear(start, s, order, f) && Commits(s.cell, ClientAt(s, m.client), m.client, f)
    ensures Linear(start, Step(s, m, f, limit), order + [m.client], f)
  {
    var s' := Step(s, m, f, limit);
    assert ClientOk(start, s.cell, order, m.client, ClientAt(s, m.client), f);
    var order' := order + [m.client];
    assert order'[..|order|] == order;
    forall i | 0 <= i < |order'|
      ensures f(order'[i], Atomically(start, order'[..i], f)).Success?
    {
      assert order'[..i] == order[..i];
    }
    forall c ensures ClientOk(start, s'.cell, order', c, ClientAt(s', c), f) {
      if c == m.client {
        assert order'[|order|] == c;
      } else {
        assert ClientOk(start, s.cell, order, c, ClientAt(s, c), f);
        OthersSeeCommit(start, s.cell, s'.cell, order, m.client, c, ClientAt(s, c), f);
      }
    }
  }

  /** To every other client, a commit only means that the object has moved on. */
  lemma {:induction false} OthersSeeCommit<V, E>(
    start: Option<V>, cell: Cell<V>, cell': Cell<V>, order: seq<ClientId>, committer: ClientId,
    c: ClientId, client: Client<V, E>, f: Mutations<V, E>)
    requires ClientOk(start, cell, order, c, client, f) && c != committer && cell.generation < cell'.generation
    ensures ClientOk(start, cell', order + [committer], c, client, f)
  {
    if client.Returned? {
      var i :| 0 <= i < |order| && order[i] == c && f(c, Atomically(start, order[..i], f)) == Success(client.value);
      assert (order + [committer])[i] == c && (order + [committer])[..i] == order[..i];
    }
  }

  /** Any other step leaves the object and the order alone. */
  lemma {:induction false} StutterIsLinear<V, E>(
    start: Option<V>, s: System<V, E>, order: seq<ClientId>, m: Move, f: Mutations<V, E>, limit: nat)
    requires Linear(start, s, order, f) && !Commits(s.cell, ClientAt(s, m.client), m.client, f)
    ensures Linear(start, Step(s, m, f, limit), order, f)
  {
    var s' := Step(s, m, f, limit);
    forall c ensures ClientOk(start, s'.cell, order, c, ClientAt(s', c), f) {
      assert ClientOk(start, s.cell, order, c, ClientAt(s, c), f);
    }
  }

  lemma {:induction false} StartIsLinear<V, E>(start: Cell<V>, f: Mutations<V, E>)
    requires start.Valid()
    ensures Linear(start.value, System(start, map[]), [], f)
  {
  }

  /**
   Linearization. After any schedule the object holds what the committed clients,
   applied atomically in commit order, leave; each of them commits once and its
   mutation accepted exactly the payload it replaced. A client that returned is
   one of them and returned the payload it stored at its own position; a client
   that was refused or ran out of attempts is not among them.
   */
  lemma {:induction false} Linearization<V, E>(start: Cell<V>, schedule: seq<Move>, f: Mutations<V, E>, limit: nat)
    requires start.Valid()
    ensures Linear(start.value, Run(start, schedule, f, limit), Commit(start, schedule, f, limit), f)
  {
    if schedule == [] {
      StartIsLinear(start, f);
    } else {
      var before := schedule[..|schedule| - 1];
      Linearization(start, before, f, limit);
      var s, order, m := Run(start, before, f, limit), Commit(start, before, f, limit), schedule[|schedule| - 1];
      if Commits(s.cell, ClientAt(s, m.client), m.client, f) {
        CommitIsLinear(start.value, s, order, m, f, limit);
      } else {
        StutterIsLinear(start.value, s, order, m, f, limit);
      }
    }
  }

  /** The number of accepted writes in a run. */
  ghost function Writes<V, E>(start: Cell<V>, schedule: seq<Move>, f: Mutations<V, E>, limit: nat): nat {
    |Commit(start, schedule, f, limit)|
  }

  /**
   Over any part of any run, the commits so far stay the first ones, the generation
   grows by at least one for each new commit, and the object is unchanged exactly if
   nobody committed.
   */
  lemma {:induction false} ObjectFollowsCommits<V, E>(
    start: Cell<V>, schedule: seq<Move>, tail: seq<Move>, f: Mutations<V, E>, limit: nat)
    ensures Commit(start, schedule, f, limit) <= Commit(start, schedule + tail, f, limit)
    ensures var before, after := Run(start, schedule, f, limit).cell, Run(start, schedule + tail, f, limit).cell;
            var commits := Writes(start, schedule + tail, f, limit) - Writes(start, schedule, f, limit);
            && after.generation >= before.generation + commits
            && (after == before <==> commits == 0)
    decreases |tail|
  {
    if tail == [] {
      assert schedule + tail == schedule;
    } else {
      var front := tail[..|tail| - 1];
      assert (schedule + tail)[..|schedule + tail| - 1] == schedule + front;
      ObjectFollowsCommits(start, schedule, front, f, limit);
    }
  }

  /**
   A client loses an attempt only to a client that committed inside its window:
   if nobody committed since it read, its conditional write is accepted.
   */
  lemma {:induction false} UncontendedWriteSucceeds<V, E>(
    start: Cell<V>, schedule: seq<Move>, tail: seq<Move>, c: ClientId, f: Mutations<V, E>, limit: nat)
    requires start.Valid()
    requires var s := Run(start, schedule, f, limit);
             ClientAt(s, c).Writing? && s.cell.Accepts(ClientAt(s, c).seen)
    requires forall i :: 0 <= i < |tail| ==> tail[i].client != c
    requires Writes(start, schedule + tail, f, limit) == Writes(start, schedule, f, limit)
    ensures var s := Run(start, schedule + tail, f, limit);
            ClientAt(s, c).Writing? && s.cell.Accepts(ClientAt(s, c).seen)
    decreases |tail|
  {
    if tail == [] {
      assert schedule + tail == schedule;
    } else {
      var front := tail[..|tail| - 1];
      assert (schedule + tail)[..|schedule + tail| - 1] == schedule + front;
      ObjectFollowsCommits(start, schedule, front, f, limit);
      UncontendedWriteSucceeds(start, schedule, front, c, f, limit);
    }
  }

}
