/** Indexes dropped for a fresh backfill and recreated at head: the registry as
    a value, and every interleaving of deferring, indexing, recreating and crashing. */
module DeferredIndexes {
  /** A recorded statement, known by its effect: creating one index unless it exists. */
  datatype Ddl = CreateIfMissing(index: string)

  /** The indexes present in the database and the registry of deferred ones. */
  datatype Indexes = Indexes(present: set<string>, registry: map<string, Ddl>)

  function Execute(present: set<string>, ddl: Ddl): set<string> {
    present + {ddl.index}
  }

  /** `defer_index`: on a fresh database register and drop, in one transaction;
      on one that holds rows only make sure the index exists. */
  function Defer(x: Indexes, empty: bool, name: string, ddl: Ddl): Indexes {
    if empty then Indexes(x.present - {name}, x.registry[name := ddl])
    else Indexes(Execute(x.present, ddl), x.registry)
  }

  /** One transaction of `on_backfill_complete`: run the statement and clear its row. */
  function Recreate(x: Indexes, name: string): Indexes
    requires name in x.registry
  {
    Indexes(Execute(x.present, x.registry[name]), x.registry - {name})
  }

  /** An index is safe while it exists, or is registered under its own name. */
  ghost predicate Safe(x: Indexes, name: string) {
    name in x.present || (name in x.registry && x.registry[name].index == name)
  }

  /** Every registered statement recreates the index it is registered for. */
  ghost predicate Honest(x: Indexes) {
    forall n :: n in x.registry ==> x.registry[n].index == n
  }

  datatype Event =
    | Deferred(name: string, ddl: Ddl)
    | RowsChange(empty: bool)
    | Recreated(name: string)
    | Crash

  datatype State = State(indexes: Indexes, empty: bool)

  /** Every transaction is atomic, so a crash leaves what the last one left. */
  ghost predicate Step(x: State, e: Event, y: State) {
    match e
    case Deferred(name, ddl) => y == x.(indexes := Defer(x.indexes, x.empty, name, ddl))
    case RowsChange(empty) => y == x.(empty := empty)
    case Recreated(name) => name in x.indexes.registry && y == x.(indexes := Recreate(x.indexes, name))
    case Crash => y == x
  }

  ghost predicate IsRun(states: seq<State>, events: seq<Event>) {
    && |states| == |events| + 1
    && forall i, j :: 0 <= i < |events| && j == i + 1 ==> Step(states[i], events[i], states[j])
  }

  /** What `defer_index` asks of its caller: the statement creates the named index. */
  ghost predicate HonestEvents(events: seq<Event>) {
    forall i :: 0 <= i < |events| && events[i].Deferred? ==> events[i].ddl.index == events[i].name
  }

  lemma {:induction false} RunStaysHonest(states: seq<State>, events: seq<Event>, i: nat)
    requires IsRun(states, events) && HonestEvents(events) && Honest(states[0].indexes) && i < |states|
    ensures Honest(states[i].indexes)
  {
    if i > 0 {
      RunStaysHonest(states, events, i - 1);
      assert Step(states[i - 1], events[i - 1], states[i]);
    }
  }

  /** Once an index is deferred, or already there, no later step of any run loses
      it; and when the registry is empty it is there. */
  lemma {:induction false} NeverLost(states: seq<State>, events: seq<Event>, from: nat, i: nat, name: string)
    requires IsRun(states, events) && HonestEvents(events) && Honest(states[0].indexes)
    requires from <= i < |states|
    requires (from == 0 && name in states[0].indexes.present)
          || (0 < from && events[from - 1].Deferred? && events[from - 1].name == name)
    ensures Safe(states[i].indexes, name)
    ensures states[i].indexes.registry == map[] ==> name in states[i].indexes.present
  {
    RunStaysHonest(states, events, i);
    if i == from {
      if 0 < from {
        assert Step(states[from - 1], events[from - 1], states[from]);
      }
    } else {
      NeverLost(states, events, from, i - 1, name);
      RunStaysHonest(states, events, i - 1);
      assert Step(states[i - 1], events[i - 1], states[i]);
    }
  }

  /** On a database that holds rows an index that is there stays there, through any
      step: a live index is never dropped. */
  lemma {:induction false} LiveIndexStays(states: seq<State>, events: seq<Event>, from: nat, i: nat, name: string)
    requires IsRun(states, events) && from <= i < |states|
    requires name in states[from].indexes.present && forall j :: from <= j < i ==> !states[j].empty
    ensures name in states[i].indexes.present
  {
    if from < i {
      LiveIndexStays(states, events, from, i - 1, name);
      assert Step(states[i - 1], events[i - 1], states[i]);
    }
  }

  /** The run starts by deferring the index on a fresh database; later statements
      create the indexes they are registered for. */
  ghost predicate StartsDeferring(x: State, name: string, ddl: Ddl, states: seq<State>, events: seq<Event>) {
    && IsRun(states, events) && states[0] == x
    && 0 < |events| && events[0] == Deferred(name, ddl) && HonestEvents(events[1..])
  }

  /** A deferred index is there again in every run that has cleared its entry
      exactly when its statement creates the index of that name. */
  lemma DeferredComesBackIff(x: State, name: string, ddl: Ddl)
    requires x.empty && Honest(x.indexes)
    ensures (forall states: seq<State>, events: seq<Event> :: StartsDeferring(x, name, ddl, states, events) ==>
               var last := states[|events|].indexes;
               name !in last.registry ==> name in last.present)
       <==> ddl.index == name
  {
    if ddl.index == name {
      forall states: seq<State>, events: seq<Event> | StartsDeferring(x, name, ddl, states, events)
          && name !in states[|events|].indexes.registry
        ensures name in states[|events|].indexes.present
      {
        assert forall i :: 0 < i < |events| ==> events[i] == events[1..][i - 1];
        NeverLost(states, events, 1, |events|, name);
      }
    } else {
      var y := x.(indexes := Defer(x.indexes, true, name, ddl));
      var z := y.(indexes := Recreate(y.indexes, name));
      var states, events := [x, y, z], [Deferred(name, ddl), Recreated(name)];
      assert Step(states[0], events[0], states[1]) && Step(states[1], events[1], states[2]);
      assert events[1..] == [Recreated(name)];
      assert StartsDeferring(x, name, ddl, states, events);
      assert name !in z.indexes.present;
    }
  }
}
