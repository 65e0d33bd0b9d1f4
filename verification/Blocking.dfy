/**
 The channels made for clients blocked on lists, over whole runs of the store:
 each carries one element at most, and a client still in a queue has been sent
 nothing yet.
 */
module Blocking {
  import opened Base
  import opened StoreState
  import opened StoreSteps
  import opened Lists
  import Versions
  import Decimal
  import SortedSets
  import Streams

  ghost predicate QueuesLined(waiters: map<Key, seq<nat>>, channels: nat) {
    && (forall k :: k in waiters ==> Distinct(waiters[k]))
    && (forall k, c :: k in waiters && c in waiters[k] ==> c < channels)
    && (forall k, k', c :: k in waiters && k' in waiters && c in waiters[k] && c in waiters[k'] ==> k == k')
  }

  ghost predicate SentOnce(sent: seq<Delivery>, waiters: map<Key, seq<nat>>, channels: nat) {
    && (forall i :: 0 <= i < |sent| ==> sent[i].channel < channels)
    && (forall i, j :: 0 <= i < j < |sent| ==> sent[i].channel != sent[j].channel)
    && (forall i, k :: 0 <= i < |sent| && k in waiters ==> sent[i].channel !in waiters[k])
  }

  ghost predicate Lined(s: State) {
    QueuesLined(s.waiters, s.channels) && SentOnce(s.sent, s.waiters, s.channels)
  }

  lemma {:induction false} OpenOf(queue: seq<nat>, gone: set<nat>)
    requires Distinct(queue)
    ensures Distinct(Open(queue, gone))
    ensures forall c :: c in Open(queue, gone) ==> c in queue
  {
    if queue == [] {
      NobodyOpen(gone);
    } else {
      OpenStep(queue, gone);
      OpenOf(queue[1..], gone);
      assert queue == [queue[0]] + queue[1..];
      var rest := Open(queue[1..], gone);
      assert queue[0] !in rest by {
        assert forall i :: 0 <= i < |queue[1..]| ==> queue[1..][i] == queue[i + 1];
      }
      Fronted(queue[0], rest);
    }
  }

  lemma Fronted(c: nat, rest: seq<nat>)
    requires Distinct(rest) && c !in rest
    ensures Distinct([c] + rest) && Distinct([] + rest)
  {
    assert [] + rest == rest;
  }

  /** Those served are different clients, and none of them is still queued. */
  lemma ServedOnce(list: seq<Bytes>, queue: seq<nat>, gone: set<nat>)
    requires Distinct(queue)
    ensures var h := Serve(list, queue, gone);
            && Distinct(h.queue)
            && (forall c :: c in h.queue ==> c in queue)
            && (forall i, j :: 0 <= i < j < |h.sent| ==> h.sent[i].channel != h.sent[j].channel)
            && (forall i :: 0 <= i < |h.sent| ==> h.sent[i].channel in queue && h.sent[i].channel !in h.queue)
  {
    hide Serve, Open;
    var h := Serve(list, queue, gone);
    ServedInOrder(list, queue, gone);
    OpenOf(queue, gone);
    var taken := ServedFromQueue(list, queue, gone);
    forall i | 0 <= i < |h.sent|
      ensures h.sent[i].channel in queue && h.sent[i].channel !in h.queue
    {
      var c := h.sent[i].channel;
      assert h.sent[i] in h.sent;
      assert c in queue[..taken];
      var at :| 0 <= at < taken && queue[at] == c;
      forall j | 0 <= j < |h.queue|
        ensures h.queue[j] != c
      {
        assert h.queue[j] == queue[taken + j] != queue[at];
      }
    }
  }

  lemma PushKeepsLined(s: State, key: Key, elements: seq<Bytes>, side: Side, now: nat)
    requires Lined(s) && elements != []
    ensures Lined(Push(s, key, elements, side, now).0)
  {
    hide Serve, Pushed;
    var live := Live(s.entries, key, now);
    if !(key in live && !live[key].data.List?) {
      var list := Pushed(if key in live then live[key].data.elements else [], elements, side);
      var queue := QueueOf(s.waiters, key);
      ServedOnce(list, queue, s.gone);
      HandedKeepsLined(s, key, Serve(list, queue, s.gone));
    }
  }

  lemma HandedKeepsLined(s: State, key: Key, h: Handed)
    requires Lined(s) && Distinct(h.queue)
    requires forall c :: c in h.queue ==> c in QueueOf(s.waiters, key)
    requires forall i, j :: 0 <= i < j < |h.sent| ==> h.sent[i].channel != h.sent[j].channel
    requires forall i :: 0 <= i < |h.sent| ==> h.sent[i].channel in QueueOf(s.waiters, key) && h.sent[i].channel !in h.queue
    ensures QueuesLined(WithQueue(s.waiters, key, h.queue), s.channels)
    ensures SentOnce(s.sent + h.sent, WithQueue(s.waiters, key, h.queue), s.channels)
  {
  }

  lemma BLPopKeepsLined(s: State, key: Key, now: nat)
    requires Lined(s)
    ensures Lined(BLPop(s, key, now).0)
  {
    hide Open;
    if key !in Live(s.entries, key, now) {
      var queue := QueueOf(s.waiters, key);
      OpenOf(queue, s.gone);
      JoinedKeepsLined(s, key, Open(queue, s.gone));
    }
  }

  lemma JoinedKeepsLined(s: State, key: Key, open: seq<nat>)
    requires Lined(s) && Distinct(open)
    requires forall c :: c in open ==> c in QueueOf(s.waiters, key)
    ensures QueuesLined(s.waiters[key := open + [s.channels]], s.channels + 1)
    ensures SentOnce(s.sent, s.waiters[key := open + [s.channels]], s.channels + 1)
  {
    var queue := open + [s.channels];
    assert forall c :: c in queue ==> c in open || c == s.channels;
    forall i | 0 <= i < |open|
      ensures open[i] < s.channels
    {
      assert open[i] in open;
    }
  }

  lemma StepKeepsLined(s: State, op: Op, now: nat)
    requires Lined(s) && Asked(op)
    ensures Lined(Step(s, op, now).0)
  {
    hide Lined, Push, BLPop, Set, Increment, LPop, ZAdd, ZRem, XAdd, XReadOrWatch;
    match op {
      case DoPush(key, elements, side) => PushKeepsLined(s, key, elements, side, now);
      case DoBLPop(key) => BLPopKeepsLined(s, key, now);
      case _ =>
        OthersKeepChannels(s, op, now);
        LinedIsAboutChannels(s, Step(s, op, now).0);
    }
  }

  predicate SameChannels(s: State, s': State) {
    s'.waiters == s.waiters && s'.channels == s.channels && s'.sent == s.sent
  }

  lemma OthersKeepChannels(s: State, op: Op, now: nat)
    requires Asked(op) && !op.DoPush? && !op.DoBLPop?
    ensures SameChannels(s, Step(s, op, now).0)
  {
    hide Push, BLPop, Set, Increment, LPop, ZAdd, ZRem, XAdd, XReadOrWatch, SameChannels;
    match op {
      case DoSet(key, value, expiresIn) => StringsKeepChannels(s, key, value, expiresIn, now);
      case DoIncrement(key) => StringsKeepChannels(s, key, [], None, now);
      case DoLPop(key, count) => LPopKeepsChannels(s, key, count, now);
      case DoZAdd(key, members) => ZAddKeepsChannels(s, key, members, now);
      case DoZRem(key, names) => ZRemKeepsChannels(s, key, names, now);
      case DoXAdd(key, requested, fields, clock) => XAddKeepsChannels(s, key, requested, fields, now, clock);
      case DoXReadOrWatch(wanted) => XReadKeepsChannels(s, wanted, now);
      case _ => LooksKeepChannels(s, op, now);
    }
  }

  lemma StringsKeepChannels(s: State, key: Key, value: Bytes, expiresIn: Option<nat>, now: nat)
    ensures SameChannels(s, Set(s, key, value, expiresIn, now).0) && SameChannels(s, Increment(s, key, now).0)
  {
    hide Decimal.AsNumber, Decimal.Print, Live;
  }

  lemma LPopKeepsChannels(s: State, key: Key, count: nat, now: nat)
    ensures SameChannels(s, LPop(s, key, count, now).0)
  {
    hide Live, WithList;
  }

  lemma ZAddKeepsChannels(s: State, key: Key, members: seq<Member>, now: nat)
    requires members != []
    ensures SameChannels(s, ZAdd(s, key, members, now).0)
  {
    hide Live, SortedSets.AddedAll, SortedSets.Scores;
  }

  lemma ZRemKeepsChannels(s: State, key: Key, names: seq<Bytes>, now: nat)
    ensures SameChannels(s, ZRem(s, key, names, now).0)
  {
    hide Live, SortedSets.WithoutAll;
  }

  lemma XAddKeepsChannels(
    s: State, key: Key, requested: Streams.RequestedId, fields: seq<(Bytes, Bytes)>, now: nat, clock: u64)
    ensures SameChannels(s, XAdd(s, key, requested, fields, now, clock).0)
  {
    hide Live, Streams.NextId;
  }

  lemma XReadKeepsChannels(s: State, wanted: seq<(Key, EntryId)>, now: nat)
    ensures SameChannels(s, XReadOrWatch(s, wanted, now).0)
  {
    hide ReadStreams, Registered;
  }

  lemma LooksKeepChannels(s: State, op: Op, now: nat)
    requires op.Look? || op.Sweep? || op.GiveUp? || op.LetGo?
    ensures SameChannels(s, Step(s, op, now).0)
  {
    hide Live;
  }

  lemma LinedIsAboutChannels(s: State, s': State)
    requires Lined(s) && s'.waiters == s.waiters && s'.channels == s.channels && s'.sent == s.sent
    ensures Lined(s')
  {
  }

  /** In every state a run can reach, no channel carries two elements and nobody queued has been served. */
  lemma {:induction false} ReachableIsLined(run: seq<Versions.Event>)
    requires Versions.Askable(run)
    ensures Lined(Versions.After(EMPTY, run))
  {
    hide Step;
    if run != [] {
      ReachableIsLined(run[..|run| - 1]);
      StepKeepsLined(Versions.After(EMPTY, run[..|run| - 1]), run[|run| - 1].op, run[|run| - 1].now);
    }
  }
}
