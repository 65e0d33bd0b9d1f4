/**
 A master's store, its log and its replicas in one run. `dispatch` gives one value
 to the log and to `send`; `Replay` shows what the log means and `Replication` what
 a replica hears, and the two together say what table a replica holds.
 */
module Replicated {
  import opened Base
  import opened Resp
  import opened StoreState
  import opened Commands
  import opened Tables
  import Conversations
  import Framing
  import Replay
  import Replication

  datatype Joint = Joint(server: Replay.Server, net: Replication.State)

  datatype Event =
    | Client(event: Replay.Event)         // a client's command, dispatched to the end
    | Network(step: Replication.Step)     // anything else that happens between master and replicas

  ghost predicate Possible(j: Joint, e: Event, readers: Readers) {
    match e
    case Client(event) => Replay.Serial(event, readers)
    case Network(step) => Replication.Possible(j.net, step) && !step.Send?
  }

  function SentAll(net: Replication.State, values: seq<Value>): Replication.State
    decreases |values|
  {
    if values == [] then net else SentAll(Replication.Sent(net, values[0]), values[1..])
  }

  /** What a server handed to `send` between two moments. */
  function NewlyPassed(before: Replay.Server, after: Replay.Server): seq<Value> {
    if before.link.Passing? && after.link.Passing? && |before.link.passed| <= |after.link.passed|
    then after.link.passed[|before.link.passed|..]
    else []
  }

  function Next(j: Joint, e: Event, readers: Readers): Joint
    requires Possible(j, e, readers)
  {
    match e
    case Client(event) =>
      var server := Replay.Happened(j.server, event, readers);
      Joint(server, SentAll(j.net, NewlyPassed(j.server, server)))
    case Network(step) => j.(net := Replication.Next(j.net, step))
  }

  /** The log means the table, the replicas are where they should be, and what was sent is what was logged. */
  ghost predicate Good(j: Joint, readers: Readers) {
    && Replay.Faithful(j.server, readers)
    && Replication.Inv(j.net) && Replication.Noted(j.net)
    && j.server.link.Passing? && j.server.link.earlier == []
    && Replication.Told(j.net.written) == j.server.link.passed
  }

  /** A master that has just come up from an empty snapshot, and no replica. */
  const START := Joint(Replay.Started(EMPTY), Replication.START)

  ghost predicate Run(states: seq<Joint>, events: seq<Event>, readers: Readers) {
    && |states| == |events| + 1
    && states[0] == START
    && forall k :: 0 <= k < |events| ==>
         Possible(states[k], events[k], readers) && states[k + 1] == Next(states[k], events[k], readers)
  }

  // ----- What is sent is what is logged -----

  lemma LoggedIsNoQuestion(v: Value, readers: Readers)
    requires Replay.Logged(v, readers)
    ensures !Conversations.AsksHowFar(v)
  {
    hide Interpret;
    var c := CommandOf(v).value;
    Replay.Kinds(c, readers, 0);
    assert c.uppercased == Uppercased(v.values[0].bytes);
    assert c.uppercased != Conversations.REPLCONF;
  }

  /** No logged command is taken for a question. */
  lemma {:induction false} LogIsTold(log: seq<Value>, readers: Readers)
    requires Replay.AllLogged(log, readers)
    ensures Replication.Told(log) == log
  {
    hide Replay.Logged, Conversations.AsksHowFar;
    if log != [] {
      LoggedIsNoQuestion(log[0], readers);
      assert forall i :: 0 <= i < |log[1..]| ==> log[1..][i] == log[i + 1];
      LogIsTold(log[1..], readers);
      assert log == [log[0]] + log[1..];
    }
  }

  lemma {:induction false} SentAllKeeps(net: Replication.State, values: seq<Value>)
    requires Replication.Inv(net) && Replication.Noted(net) && AllReadable(values, MAX_DEPTH)
    ensures var after := SentAll(net, values);
            Replication.Inv(after) && Replication.Noted(after) && after.written == net.written + values
    decreases |values|
  {
    hide Replication.Inv, Replication.Noted, Encode;
    if values == [] {
      assert net.written + [] == net.written;
    } else {
      Replication.SentKeepsInv(net, values[0]);
      Replication.SentKeepsNoted(net, values[0]);
      SentAllKeeps(Replication.Sent(net, values[0]), values[1..]);
      assert net.written + [values[0]] + values[1..] == net.written + values;
    }
  }

  lemma ClientKeepsGood(j: Joint, event: Replay.Event, readers: Readers)
    requires Good(j, readers) && Replay.Serial(event, readers)
    ensures Good(Next(j, Client(event), readers), readers)
  {
    hide Replay.Serial, Replay.Happened, Replication.Inv, Replication.Noted, Replication.Told, Replay.TableAfter,
         TableOf, Framing.Replayable, EncodeAll, Replay.Logged, Replay.Queued, SentAll;
    var server, after := j.server, Replay.Happened(j.server, event, readers);
    if event.Sent? {
      Replay.SentKeepsFaithful(server, event, readers);
    } else {
      Replay.OtherKeepsFaithful(server, event, readers);
    }
    Replay.HappenedPassesOn(server, event, readers);
    var passed, more := server.link.passed, NewlyPassed(server, after);
    assert after.link.passed == passed + more;
    var log := Framing.Replayable(after.file).value;
    assert [] + after.link.passed == after.link.passed;
    assert log == passed + more;
    PartIsLogged(passed, more, readers);
    SentAllKeeps(j.net, more);
    Replication.ToldAppends(j.net.written, more);
    LogIsTold(more, readers);
  }

  lemma PartIsLogged(passed: seq<Value>, more: seq<Value>, readers: Readers)
    requires Replay.AllLogged(passed + more, readers)
    ensures Replay.AllLogged(more, readers) && AllReadable(more, MAX_DEPTH)
  {
    hide Replay.OpOf;
    assert forall i :: 0 <= i < |more| ==> more[i] == (passed + more)[|passed| + i];
  }

  lemma NetworkKeepsGood(j: Joint, step: Replication.Step, readers: Readers)
    requires Good(j, readers) && Possible(j, Network(step), readers)
    ensures Good(Next(j, Network(step), readers), readers)
  {
    hide Replay.Faithful, Replication.Inv, Replication.Noted, Replication.Next, Replication.Told;
    Replication.NextKeepsInv(j.net, step);
    Replication.NextKeepsNoted(j.net, step);
    Replication.StepWrites(j.net, step);
    Replication.ToldAppends(j.net.written, Replication.Given(step));
    QuestionIsNotTold(step);
    assert j.server.link.passed + [] == j.server.link.passed;
  }

  lemma QuestionIsNotTold(step: Replication.Step)
    requires !step.Send?
    ensures Replication.Told(Replication.Given(step)) == []
  {
    hide Conversations.AsksHowFar, Conversations.Ask;
    Replication.AskAsks();
    assert [Conversations.Ask()][1..] == [];
  }

  lemma StartIsGood(readers: Readers)
    ensures Good(START, readers)
  {
    hide Replay.InStep;
    Replay.StartedInStep(EMPTY, readers);
    Replication.StartFits();
  }

  lemma {:induction false} RunsAreGood(states: seq<Joint>, events: seq<Event>, readers: Readers, k: nat)
    requires Run(states, events, readers) && k < |states|
    ensures Good(states[k], readers)
  {
    hide Good, Next, Possible;
    if k == 0 {
      StartIsGood(readers);
    } else {
      RunsAreGood(states, events, readers, k - 1);
      var j, e := states[k - 1], events[k - 1];
      assert Possible(j, e, readers) && states[k] == Next(j, e, readers);
      EventKeepsGood(j, e, readers);
    }
  }

  lemma EventKeepsGood(j: Joint, e: Event, readers: Readers)
    requires Good(j, readers) && Possible(j, e, readers)
    ensures Good(Next(j, e, readers), readers)
  {
    hide Good, Next;
    match e
    case Client(event) => ClientKeepsGood(j, event, readers);
    case Network(step) => NetworkKeepsGood(j, step, readers);
  }

  // ----- What a replica holds -----

  /** The table of a replica that has carried these commands out, each at some moment of its own. */
  function TableOfReplica(carried: seq<Value>, readers: Readers, when: nat -> Replay.Moment): Table {
    TableOf(Replay.Replayed(Replay.Replaying(EMPTY), carried, readers, Replay.Moments(|carried|, when)).store.entries)
  }

  /** It was listed before the first command was written. */
  predicate ListedInTime(net: Replication.State, r: Replication.Replica) {
    r.joined <= |net.written| && Replication.Told(net.written[..r.joined]) == []
  }

  lemma CarriedBeginsTheLog(j: Joint, i: nat, readers: Readers)
    requires Good(j, readers) && i < |j.net.replicas| && ListedInTime(j.net, j.net.replicas[i])
    ensures var r, log := j.net.replicas[i], j.server.link.passed;
            && Replication.Told(r.carried) <= log
            && (r.heard == [] && r.wire == [] ==> Replication.Told(r.carried) == log)
  {
    hide Replay.Faithful, Replication.Told, Replication.Size, Replication.Honest, EncodeAll;
    var s, r := j.net, j.net.replicas[i];
    assert Replication.Fits(s.history, r) && Replication.Placed(s, r);
    var rest := s.history[r.from + |r.carried|..];
    Replication.StretchAndRest(s.history, r.from, r.from + |r.carried|);
    assert s.written == s.written[..r.joined] + s.written[r.joined..];
    Replication.ToldAppends(s.written[..r.joined], s.written[r.joined..]);
    Replication.ToldAppends(r.carried, rest);
    if r.heard == [] && r.wire == [] {
      Replication.HeardEverything(s.history, r);
      assert rest == [];
      NothingTold();
    }
  }

  lemma NothingTold()
    ensures Replication.Told([]) == []
  {
  }

  /**
   In every joint run, a replica listed before the first write holds at every
   moment the table that the first part of its master's log means, and holds its
   master's table once nothing is on its way to it.
   */
  lemma ReplicaHoldsTheTable(
    states: seq<Joint>, events: seq<Event>, readers: Readers, k: nat, i: nat, when: nat -> Replay.Moment)
    requires Run(states, events, readers) && k < |states| && i < |states[k].net.replicas|
    requires ListedInTime(states[k].net, states[k].net.replicas[i])
    ensures var j, r := states[k], states[k].net.replicas[i];
            var log, carried := Framing.Replayable(j.server.file), Replication.Told(r.carried);
            && log.Ok? && carried <= log.value && Replay.AllLogged(carried, readers)
            && TableOfReplica(carried, readers, when) == Replay.TableAfter(map[], carried, readers)
            && (r.heard == [] && r.wire == [] ==>
                  TableOfReplica(carried, readers, when) == TableOf(j.server.store.entries))
  {
    hide Run, Replication.Told, Replay.Replayed, Replay.Logged, Replay.TableAfter, TableOf, EncodeAll,
         Framing.Replayable, Replication.Inv, Replication.Noted, ListedInTime;
    RunsAreGood(states, events, readers, k);
    OriginIsEmpty(states, events, readers, k);
    EmptyIsSettled();
    var j, r := states[k], states[k].net.replicas[i];
    CarriedBeginsTheLog(j, i, readers);
    var log, carried := Framing.Replayable(j.server.file).value, Replication.Told(r.carried);
    assert [] + j.server.link.passed == j.server.link.passed;
    assert Replay.AllLogged(log, readers);
    assert forall n :: 0 <= n < |carried| ==> carried[n] == log[n];
    Replay.ReplayFollowsLog(EMPTY, carried, readers, Replay.Moments(|carried|, when));
  }

  lemma EmptyIsSettled()
    ensures Replay.Settled(EMPTY) && TableOf(EMPTY.entries) == map[]
  {
  }

  lemma {:induction false} OriginIsEmpty(states: seq<Joint>, events: seq<Event>, readers: Readers, k: nat)
    requires Run(states, events, readers) && k < |states|
    ensures states[k].server.origin == EMPTY
  {
    hide Replay.Happened, Replication.Next, SentAll;
    if k > 0 {
      OriginIsEmpty(states, events, readers, k - 1);
      var j, e := states[k - 1], events[k - 1];
      assert Possible(j, e, readers) && states[k] == Next(j, e, readers);
      if e.Client? {
        Replay.HappenedPassesOn(j.server, e.event, readers);
      }
    }
  }
}
