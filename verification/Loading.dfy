/** Filling the store from a snapshot's records at start-up. */
module Loading {
  import opened Base
  import opened StoreState
  import opened StoreSteps
  import opened StoreObject
  import opened Tables
  import Rdb
  import Replay

  /** A record whose deadline has passed by `wall` is skipped. */
  predicate Kept(record: Rdb.Record, wall: nat) {
    record.expiresAt.Some? ==> wall <= record.expiresAt.value
  }

  function TimeLeft(record: Rdb.Record, wall: nat): Option<nat>
    requires Kept(record, wall)
  {
    if record.expiresAt.Some? then Some(record.expiresAt.value - wall) else None
  }

  function Loaded(s: State, records: seq<Rdb.Record>, wall: nat, now: nat): State {
    if records == [] then s
    else
      var before, last := Loaded(s, records[..|records| - 1], wall, now), records[|records| - 1];
      if Kept(last, wall) then Set(before, last.key, last.value, TimeLeft(last, wall), now).0 else before
  }

  function HowManyKept(records: seq<Rdb.Record>, wall: nat): nat {
    if records == [] then 0
    else HowManyKept(records[..|records| - 1], wall) + if Kept(records[|records| - 1], wall) then 1 else 0
  }

  method Load(store: Store, records: seq<Rdb.Record>, wall: nat, now: nat) returns (loaded: nat)
    requires store.Valid()
    modifies store
    ensures store.Valid() && store.View() == Loaded(old(store.View()), records, wall, now)
    ensures loaded == HowManyKept(records, wall)
  {
    hide Set;
    loaded := 0;
    for i := 0 to |records|
      invariant store.Valid() && store.View() == Loaded(old(store.View()), records[..i], wall, now)
      invariant loaded == HowManyKept(records[..i], wall)
    {
      assert records[..i + 1][..i] == records[..i];
      var record := records[i];
      if Kept(record, wall) {
        store.SetKey(record.key, record.value, TimeLeft(record, wall), now);
        loaded := loaded + 1;
      }
    }
    assert records[..|records|] == records;
  }

  /** The record that decides a key: the last of those kept. */
  function Deciding(records: seq<Rdb.Record>, key: Key, wall: nat): Option<Rdb.Record> {
    if records == [] then None
    else
      var last := records[|records| - 1];
      if last.key == key && Kept(last, wall) then Some(last) else Deciding(records[..|records| - 1], key, wall)
  }

  /** Every key ends up with the value and the time left of its deciding record, and no other key is there. */
  lemma {:induction false} LoadedHolds(records: seq<Rdb.Record>, key: Key, wall: nat, now: nat)
    ensures var entries, record := Loaded(EMPTY, records, wall, now).entries, Deciding(records, key, wall);
            && (key in entries <==> record.Some?)
            && (key in entries ==>
                  && Kept(record.value, wall)
                  && entries[key].data == Text(record.value.value)
                  && var left := TimeLeft(record.value, wall);
                     entries[key].expiresAt == if left.Some? then Some(now + left.value) else None)
  {
    if records != [] {
      LoadedHolds(records[..|records| - 1], key, wall, now);
    }
  }

  predicate Over(record: Rdb.Record, wall: nat) {
    record.expiresAt.Some? && record.expiresAt.value < wall
  }

  /** Of the records for a key the last whose time is not up decides, and it keeps what time it had left. */
  lemma {:induction false} LastStandingDecides(records: seq<Rdb.Record>, i: nat, wall: nat, now: nat)
    requires i < |records| && !Over(records[i], wall)
    requires forall j :: i < j < |records| && records[j].key == records[i].key ==> Over(records[j], wall)
    ensures var entries, record := Loaded(EMPTY, records, wall, now).entries, records[i];
            && record.key in entries
            && entries[record.key].data == Text(record.value)
            && (record.expiresAt.None? ==> entries[record.key].expiresAt.None?)
            && (record.expiresAt.Some? ==>
                  entries[record.key].expiresAt == Some(now + (record.expiresAt.value - wall)))
  {
    if i < |records| - 1 {
      LastStandingDecides(records[..|records| - 1], i, wall, now);
    }
  }

  /** A key all of whose records are over is not there. */
  lemma {:induction false} OverIsLeftOut(records: seq<Rdb.Record>, key: Key, wall: nat, now: nat)
    requires forall i :: 0 <= i < |records| && records[i].key == key ==> Over(records[i], wall)
    ensures key !in Loaded(EMPTY, records, wall, now).entries
  {
    if records != [] {
      OverIsLeftOut(records[..|records| - 1], key, wall, now);
    }
  }

  function Standing(records: seq<Rdb.Record>, wall: nat): set<nat> {
    set i: nat | i < |records| && !Over(records[i], wall)
  }

  lemma {:induction false} HowManyStand(records: seq<Rdb.Record>, wall: nat)
    ensures HowManyKept(records, wall) == |Standing(records, wall)|
  {
    if records == [] {
      assert Standing(records, wall) == {};
    } else {
      hide Standing;
      HowManyStand(records[..|records| - 1], wall);
      StandingGrows(records, wall);
    }
  }

  lemma StandingGrows(records: seq<Rdb.Record>, wall: nat)
    requires records != []
    ensures var last := |records| - 1;
            var earlier := Standing(records[..last], wall);
            && last !in earlier
            && Standing(records, wall) == if Over(records[last], wall) then earlier else earlier + {last}
  {
  }

  /** With no deadlines among the records, the store is one a log can be replayed over. */
  lemma {:induction false} LoadedIsSettled(records: seq<Rdb.Record>, wall: nat, now: nat)
    requires forall i :: 0 <= i < |records| ==> records[i].expiresAt == None
    ensures Replay.Settled(Loaded(EMPTY, records, wall, now))
  {
    if records != [] {
      LoadedIsSettled(records[..|records| - 1], wall, now);
    }
  }
}
