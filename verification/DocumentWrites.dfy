/** Concurrent `_persist_record` calls on one record, as an instance of the linearization theorem. */
module DocumentWrites {
  import opened Wrappers
  import opened Storage
  import opened Documents
  import opened CasLinearization
  import opened Sessions

  const PERSIST_ATTEMPTS: nat := 5

  /** Client `c` persists `records(c)`. */
  function Persisting(records: ClientId -> Record): Mutations<Record, WriteError> {
    (c: ClientId, current: Option<Record>) => PersistMutation(records(c), current)
  }

  /**
   Any interleaving of the hand-written loop is a sequence of atomic
   check-guard-then-write steps: each accepted write passed the guard against
   exactly the record it replaced, the last one is what is stored, and a caller
   returned exactly if its write was accepted. In particular no accepted write
   ever leads out of `deleted`.
   */
  lemma {:induction false} PersistRecordIsAtomic(start: Cell<Record>, schedule: seq<Move>, records: ClientId -> Record)
    requires start.Valid()
    ensures var f := Persisting(records);
            var order := Commit(start, schedule, f, PERSIST_ATTEMPTS);
            var s := Run(start, schedule, f, PERSIST_ATTEMPTS);
            && (forall i :: 0 <= i < |order| ==>
                  && RejectIllegalWrite(records(order[i]), Atomically(start.value, order[..i], f)).None?
                  && LegalMove(Atomically(start.value, order[..i], f), Some(records(order[i]))))
            && s.cell.value == (if order == [] then start.value else Some(records(order[|order| - 1])))
            && (forall c :: ClientAt(s, c).Returned? <==> c in order)
            && (forall c :: ClientAt(s, c).Returned? ==> ClientAt(s, c).value == records(c))
  {
    var f := Persisting(records);
    var order := Commit(start, schedule, f, PERSIST_ATTEMPTS);
    var s := Run(start, schedule, f, PERSIST_ATTEMPTS);
    Linearization(start, schedule, f, PERSIST_ATTEMPTS);
    forall i | 0 <= i < |order|
      ensures RejectIllegalWrite(records(order[i]), Atomically(start.value, order[..i], f)).None?
      ensures LegalMove(Atomically(start.value, order[..i], f), Some(records(order[i])))
    {
      assert f(order[i], Atomically(start.value, order[..i], f)).Success?;
    }
    if order != [] {
      var last := |order| - 1;
      assert f(order[last], Atomically(start.value, order[..last], f)).Success?;
    }
    forall c
      ensures ClientAt(s, c).Returned? <==> c in order
      ensures ClientAt(s, c).Returned? ==> ClientAt(s, c).value == records(c)
    {
      ReturnedIsOwnRecord(start.value, s.cell, order, c, ClientAt(s, c), records);
    }
  }

  lemma {:induction false} ReturnedIsOwnRecord(
    start: Option<Record>, cell: Cell<Record>, order: seq<ClientId>, c: ClientId, client: Client<Record, WriteError>,
    records: ClientId -> Record)
    requires ClientOk(start, cell, order, c, client, Persisting(records))
    ensures client.Returned? <==> c in order
    ensures client.Returned? ==> client.value == records(c)
  {
  }

  /** The step system of the linearization theorem, for one client that persists `record`. */
  function Stepping(record: Record): Stepper<Cell<Record>, Client<Record, WriteError>, nat> {
    (cell: Cell<Record>, client: Client<Record, WriteError>, gap: nat) => StepClient(record, cell, client, gap)
  }

  function StepClient(record: Record, cell: Cell<Record>, client: Client<Record, WriteError>, gap: nat)
    : (Cell<Record>, Client<Record, WriteError>)
  {
    var f := Persisting((c: ClientId) => record);
    (if Commits(cell, client, 0, f) then cell.Put(record, gap) else cell,
     NextClient(cell, client, 0, f, PERSIST_ATTEMPTS))
  }

  lemma {:induction false} ReadingStep(record: Record, cell: Cell<Record>, attempt: nat, gap: nat)
    ensures StepClient(record, cell, Client.Reading(attempt), gap) ==
              (cell, if attempt == PERSIST_ATTEMPTS then Exhausted else Client.Writing(attempt, cell.Read()))
  {
  }

  lemma {:induction false} WritingStep(
    record: Record, cell: Cell<Record>, attempt: nat, seen: Snapshot<Record>, gap: nat)
    ensures StepClient(record, cell, Client.Writing(attempt, seen), gap) ==
              match RejectIllegalWrite(record, seen.payload)
              case Some(error) => (cell, Refused(error))
              case None =>
                if cell.Accepts(seen) then (cell.Put(record, gap), Returned(record))
                else (cell, Client.Reading(attempt + 1))
  {
    var f := Persisting((c: ClientId) => record);
    assert f(0, seen.payload) == PersistMutation(record, seen.payload);
    var client: Client<Record, WriteError> := Client.Writing(attempt, seen);
    assert Commits(cell, client, 0, f) <==> RejectIllegalWrite(record, seen.payload).None? && cell.Accepts(seen);
  }

  datatype PersistOutcome = Persisted | Rejected(error: WriteError) | PreconditionFailed

  function ClientOf(record: Record, outcome: PersistOutcome): Client<Record, WriteError> {
    match outcome
    case Persisted => Returned(record)
    case Rejected(error) => Refused(error)
    case PreconditionFailed => Exhausted
  }

  /**
   The loop of `_persist_record` as it is written, over a record that others may
   change arbitrarily before each access: it takes exactly the steps of a client of
   the theorem above.
   */
  method PersistRecord(
    session: Session<Cell<Record>, Client<Record, WriteError>, nat>, record: Record, gap: nat)
    returns (outcome: PersistOutcome)
    requires session.step == Stepping(record) && session.At(Client.Reading(0))
    modifies session
    ensures session.At(ClientOf(record, outcome))
  {
    for attempt := 0 to PERSIST_ATTEMPTS
      invariant session.At(Client.Reading(attempt))
    {
      var found := session.Look(Client.Reading(attempt), gap);
      var seen := found.Read();
      ReadingStep(record, found, attempt, gap);
      ghost var writing: Client<Record, WriteError> := Client.Writing(attempt, seen);
      found := session.Next();
      WritingStep(record, found, attempt, seen, gap);
      var refused := RejectIllegalWrite(record, seen.payload);
      if refused.Some? {
        session.Leave(found, writing, gap);
        return Rejected(refused.value);
      }
      if found.Accepts(seen) {
        session.Leave(found.Put(record, gap), writing, gap);
        return Persisted;
      }
      session.Leave(found, writing, gap);
    }
    var _ := session.Look(Client.Reading(PERSIST_ATTEMPTS), gap);
    return PersistOutcome.PreconditionFailed;
  }

  /** What every move of a schedule of persisting clients finds. */
  ghost function TraceOf(start: Cell<Record>, schedule: seq<Move>, records: ClientId -> Record)
    : seq<Noted<Cell<Record>, nat>>
  {
    if schedule == [] then []
    else
      var before, m := schedule[..|schedule| - 1], schedule[|schedule| - 1];
      TraceOf(start, before, records)
      + [Noted(m.client, Taken(Run(start, before, Persisting(records), PERSIST_ATTEMPTS).cell, m.gap))]
  }

  /** The two step systems agree on what one client does. */
  lemma {:induction false} SameStep(s: System<Record, WriteError>, m: Move, records: ClientId -> Record)
    ensures Step(s, m, Persisting(records), PERSIST_ATTEMPTS).clients ==
            s.clients[m.client := Stepping(records(m.client))(s.cell, ClientAt(s, m.client), m.gap).1]
    ensures Step(s, m, Persisting(records), PERSIST_ATTEMPTS).cell ==
            Stepping(records(m.client))(s.cell, ClientAt(s, m.client), m.gap).0
  {
    var f, g := Persisting(records), Persisting((c: ClientId) => records(m.client));
    var client := ClientAt(s, m.client);
    if client.Writing? {
      assert f(m.client, client.seen.payload) == g(0, client.seen.payload);
    }
    assert NextClient(s.cell, client, m.client, f, PERSIST_ATTEMPTS) ==
           NextClient(s.cell, client, 0, g, PERSIST_ATTEMPTS);
  }

  /**
   In every schedule of the theorem a client stands where a caller of `PersistRecord`
   stands that found the same at each of its accesses.
   */
  lemma {:induction false} ClientFollowsItsSteps(
    start: Cell<Record>, schedule: seq<Move>, records: ClientId -> Record, c: ClientId)
    ensures ClientAt(Run(start, schedule, Persisting(records), PERSIST_ATTEMPTS), c)
            == Follow(Stepping(records(c)), Client.Reading(0), StepsOf(TraceOf(start, schedule, records), c))
  {
    var f := Persisting(records);
    var step, first: Client<Record, WriteError> := Stepping(records(c)), Client.Reading(0);
    var clients := Run(start, schedule, f, PERSIST_ATTEMPTS).clients;
    ClientStaysAbreast(start, schedule, records, c);
    assert Abreast(step, first, clients, c, StepsOf(TraceOf(start, schedule, records), c));
  }

  lemma {:induction false} ClientStaysAbreast(
    start: Cell<Record>, schedule: seq<Move>, records: ClientId -> Record, c: ClientId)
    ensures Abreast(Stepping(records(c)), Client.Reading(0),
                    Run(start, schedule, Persisting(records), PERSIST_ATTEMPTS).clients, c,
                    StepsOf(TraceOf(start, schedule, records), c))
  {
    if schedule != [] {
      var f := Persisting(records);
      var before, m := schedule[..|schedule| - 1], schedule[|schedule| - 1];
      var s := Run(start, before, f, PERSIST_ATTEMPTS);
      ClientStaysAbreast(start, before, records, c);
      SameStep(s, m, records);
      StaysAbreast(
        Stepping(records(c)), Client.Reading(0), s.clients, Run(start, schedule, f, PERSIST_ATTEMPTS).clients, c,
        TraceOf(start, before, records), Noted(m.client, Taken(s.cell, m.gap)));
    }
  }

  /** A caller that found its accesses so, and returned, is one of the committed clients. */
  lemma {:induction false} PersistedIsCommitted(
    start: Cell<Record>, schedule: seq<Move>, records: ClientId -> Record, c: ClientId)
    requires start.Valid()
    requires Follow(Stepping(records(c)), Client.Reading(0), StepsOf(TraceOf(start, schedule, records), c))
             == ClientOf(records(c), Persisted)
    ensures c in Commit(start, schedule, Persisting(records), PERSIST_ATTEMPTS)
  {
    ClientFollowsItsSteps(start, schedule, records, c);
    PersistRecordIsAtomic(start, schedule, records);
  }
}
