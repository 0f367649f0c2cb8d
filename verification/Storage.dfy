/**
 The artifact store: JSON objects under keys, each write stamped with a fresh,
 strictly larger generation number. Absence is generation 0, so a create-only
 write and a compare-and-set write are the same precondition on generations.
 */
module Storage {
  import opened Wrappers

  /** One stored object, as a value: its payload and its generation (0 when absent). */
  datatype Cell<+V> = Cell(value: Option<V>, generation: nat) {
    predicate Valid() {
      value.None? <==> generation == 0
    }

    /** What a reader takes away from `get_json_with_etag`. */
    function Read(): Snapshot<V> {
      Snapshot(value, generation)
    }

    /** Does a conditional write holding `seen` pass its generation precondition? */
    predicate Accepts<W>(seen: Snapshot<W>) {
      generation == seen.generation
    }

    /** The object after a write; `gap` is how far the generation jumps beyond the next one. */
    function Put<W>(payload: W, gap: nat): Cell<W> {
      Cell(Some(payload), generation + 1 + gap)
    }
  }

  datatype Snapshot<+V> = Snapshot(payload: Option<V>, generation: nat)

  /** A snapshot is coherent when an equal generation still means an equal payload. */
  ghost predicate Coherent<V>(seen: Snapshot<V>, cell: Cell<V>) {
    && seen.generation <= cell.generation
    && (seen.generation == cell.generation ==> seen.payload == cell.value)
    && (seen.payload.None? <==> seen.generation == 0)
  }

  /** How one object may change: it stays, or it is rewritten under a larger generation. */
  ghost predicate Evolves<V>(before: Cell<V>, after: Cell<V>) {
    before == after || (before.generation < after.generation && after.value.Some?)
  }

  /** One write that reached the store. */
  datatype Write<+V> = Write(key: string, payload: V)

  /** The payload the last write to `key` left, reading the write log from its end. */
  ghost function Latest<V>(log: seq<Write<V>>, key: string): Option<V> {
    if log == [] then None
    else if log[|log| - 1].key == key then Some(log[|log| - 1].payload)
    else Latest(log[..|log| - 1], key)
  }

  /** Of the writes that follow, the last one to `key` decides; without one, the payload stays. */
  lemma {:induction false} LatestAppend<V>(log: seq<Write<V>>, key: string, more: seq<Write<V>>)
    ensures Latest(log + more, key) == if Latest(more, key).Some? then Latest(more, key) else Latest(log, key)
    ensures Latest(more, key).Some? <==> Contended(more, key)
  {
    if more == [] {
      assert log + more == log;
    } else {
      var n := |more| - 1;
      assert (log + more)[..|log + more| - 1] == log + more[..n];
      LatestAppend(log, key, more[..n]);
      assert more == more[..n] + [more[n]];
    }
  }

  datatype CasOutcome<+V, +E> =
    | Stored(value: V)        // the payload written
    | Raised(error: E)        // the mutation refused the payload it saw
    | PreconditionFailed      // every attempt lost its race

  /** The writes other clients land inside the window of attempt `i`. */
  function Window<V>(others: seq<seq<Write<V>>>, i: nat): seq<Write<V>> {
    if i < |others| then others[i] else []
  }

  /** The writes other clients land inside the first `n` windows, in order. */
  function Landed<V>(others: seq<seq<Write<V>>>, n: nat): seq<Write<V>> {
    if n == 0 then [] else Landed(others, n - 1) + Window(others, n - 1)
  }

  lemma {:induction false} LandedNext<V>(start: seq<Write<V>>, others: seq<seq<Write<V>>>, n: nat)
    ensures start + Landed(others, n) + Window(others, n) == start + Landed(others, n + 1)
  {
  }

  /** Some write of the window went to `key`. */
  ghost predicate Contended<V>(window: seq<Write<V>>, key: string) {
    exists w :: w in window && w.key == key
  }

  /** Every one of the first `n` windows holds a write to `key`. */
  ghost predicate AllContended<V>(others: seq<seq<Write<V>>>, n: nat, key: string) {
    n > 0 ==> Contended(Window(others, n - 1), key) && AllContended(others, n - 1, key)
  }

  /** Everything the store has been told to write, and the objects that are left of it. */
  class ObjectStore<V> {
    var objects: map<string, (V, nat)>
    var generations: nat
    ghost var log: seq<Write<V>>

    constructor ()
      ensures Valid() && log == []
    {
      objects, generations, log := map[], 0, [];
    }

    function Payload(key: string): (r: Option<V>)
      reads this
    {
      if key in objects then Some(objects[key].0) else None
    }

    ghost predicate Valid()
      reads this
    {
      && (forall key :: key in objects ==> 0 < objects[key].1 <= generations)
      && (forall key :: Payload(key) == Latest(log, key))
    }

    method GetJsonWithEtag(key: string) returns (payload: Option<V>, etag: Option<nat>)
      requires Valid()
      ensures payload == Latest(log, key)
      ensures etag == if key in objects then Some(objects[key].1) else None
      ensures payload.None? <==> etag.None?
    {
      if key in objects {
        payload, etag := Some(objects[key].0), Some(objects[key].1);
      } else {
        payload, etag := None, None;
      }
    }

    /**
     Writes only under the precondition: `ifNoneMatch` demands absence, otherwise
     `ifMatch` demands that generation, otherwise the write is unconditional.
     */
    method PutJsonConditional(key: string, payload: V, ifMatch: Option<nat>, ifNoneMatch: bool)
      returns (accepted: bool)
      requires Valid()
      modifies this
      ensures Valid()
      ensures accepted <==>
        if ifNoneMatch then old(key !in objects)
        else ifMatch.Some? ==> old(key in objects && objects[key].1 == ifMatch.value)
      ensures accepted ==> log == old(log) + [Write(key, payload)]
      ensures accepted ==> old(generations) < generations && key in objects && objects[key].1 == generations
      ensures forall k :: k in objects && !(accepted && k == key) ==> k in old(objects) && objects[k] == old(objects[k])
      ensures forall k :: k in old(objects) ==> k in objects
      ensures !accepted ==> log == old(log) && objects == old(objects) && generations == old(generations)
    {
      if ifNoneMatch {
        accepted := key !in objects;
      } else if ifMatch.Some? {
        accepted := key in objects && objects[key].1 == ifMatch.value;
      } else {
        accepted := true;
      }
      if accepted {
        generations := generations + 1;
        objects := objects[key := (payload, generations)];
        log := log + [Write(key, payload)];
        assert log[..|log| - 1] == old(log);
      }
    }

    /** Other clients' writes, landing one after the other. */
    method Interfere(writes: seq<Write<V>>)
      requires Valid()
      modifies this
      ensures Valid()
      ensures log == old(log) + writes
      ensures old(generations) <= generations
      ensures forall k :: k in old(objects) ==> k in objects
      ensures forall i :: 0 <= i < |writes| ==> writes[i].key in objects
      ensures forall k :: k in objects ==>
        || (k in old(objects) && objects[k] == old(objects[k]) && forall i :: 0 <= i < |writes| ==> writes[i].key != k)
        || (objects[k].1 > old(generations) && exists i :: 0 <= i < |writes| && writes[i].key == k)
    {
      for n := 0 to |writes|
        invariant Valid()
        invariant log == old(log) + writes[..n]
        invariant old(generations) <= generations
        invariant forall k :: k in old(objects) ==> k in objects
        invariant forall i :: 0 <= i < n ==> writes[i].key in objects
        invariant forall k :: k in objects ==>
          || (k in old(objects) && objects[k] == old(objects[k]) && forall i :: 0 <= i < n ==> writes[i].key != k)
          || (objects[k].1 > old(generations) && exists i :: 0 <= i < n && writes[i].key == k)
      {
        var _ := PutJsonConditional(writes[n].key, writes[n].payload, None, false);
        assert writes[..n + 1] == writes[..n] + [writes[n]];
      }
      assert writes[..|writes|] == writes;
    }

    /**
     One attempt of the retry loop: read, mutate, let the other clients' `window` of
     writes land, write conditionally. `None` means the write lost its race.
     */
    method Attempt<E>(key: string, mutate: Option<V> -> Result<V, E>, window: seq<Write<V>>)
      returns (r: Option<Result<V, E>>)
      requires Valid()
      modifies this
      ensures Valid()
      ensures r.None? ==> log == old(log) + window && Contended(window, key)
      ensures r.Some? && r.value.Failure? ==> log == old(log) && mutate(Latest(log, key)) == r.value
      ensures r.Some? && r.value.Success? ==>
        && log == old(log) + window + [Write(key, r.value.value)]
        && mutate(Latest(old(log) + window, key)) == r.value
    {
      var current, etag := GetJsonWithEtag(key);
      var payload := mutate(current);
      if payload.Failure? {
        return Some(payload);
      }
      Interfere(window);
      var accepted;
      if current.None? {
        accepted := PutJsonConditional(key, payload.value, None, true);
      } else {
        accepted := PutJsonConditional(key, payload.value, etag, false);
      }
      if accepted {
        LatestAppend(old(log), key, window);
        return Some(payload);
      }
      assert exists i :: 0 <= i < |window| && window[i].key == key;
      assert Contended(window, key);
      return None;
    }

    /**
     The read-mutate-write retry loop. `others[i]` are the writes that other
     clients land between this caller's read and its write in attempt `i`, so
     the parameter ranges over every interleaving. On success the mutation saw
     exactly the payload it replaced; in every other case the caller wrote nothing.
     */
    method UpdateJsonCas<E>(
      key: string, mutate: Option<V> -> Result<V, E>, others: seq<seq<Write<V>>>, maxAttempts: nat)
      returns (r: CasOutcome<V, E>, ghost windows: nat)
      requires Valid()
      modifies this
      ensures Valid()
      ensures windows <= maxAttempts
      ensures r.Stored? ==>
        && log == old(log) + Landed(others, windows) + [Write(key, r.value)]
        && mutate(Latest(old(log) + Landed(others, windows), key)) == Success(r.value)
      ensures r.Raised? ==>
        && log == old(log) + Landed(others, windows)
        && mutate(Latest(log, key)) == Failure(r.error)
      ensures r.PreconditionFailed? ==>
        && windows == maxAttempts
        && log == old(log) + Landed(others, maxAttempts)
        && AllContended(others, maxAttempts, key)
    {
      windows := 0;
      ghost var start := log;
      for attempt := 0 to maxAttempts
        invariant Valid()
        invariant windows == attempt
        invariant log == start + Landed(others, attempt)
        invariant AllContended(others, attempt, key)
      {
        ghost var before := log;
        var outcome := Attempt(key, mutate, Window(others, attempt));
        if outcome.Some? && outcome.value.Failure? {
          return Raised(outcome.value.error), attempt;
        }
        LandedNext(start, others, attempt);
        windows := attempt + 1;
        if outcome.Some? {
          return Stored(outcome.value.value), attempt + 1;
        }
      }
      return PreconditionFailed, windows;
    }
  }
}
