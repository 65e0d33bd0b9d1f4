/**
 A master, the replicas following it, and `WAIT`. What is sent to a replica is
 bytes, which arrive in pieces and are counted as they are read; acknowledged offsets
 travel back. Sending a command and counting it are taken as
 one step; a replica's handover is two, as it is in the code, and what is written
 in between the two decides what it misses and whether its count agrees.
 */
module Replication {
  import opened Base
  import opened Resp
  import opened Conversations
  import Commands

  /** How many bytes the first `k` commands of a history take up. */
  function Size(history: seq<Value>, k: nat): nat
    requires k <= |history|
  {
    |EncodeAll(history[..k])|
  }

  datatype Replica = Replica(
    /** Where the history stood when it was told where to start, and when it began to be sent to. */
    agreed: nat, from: nat,
    /** How much had been written at those same two moments, sent to anyone or not. */
    since: nat, joined: nat,
    /** What it has heard and dealt with, what has arrived, and what is still on the way. */
    carried: seq<Value>, heard: Bytes, wire: Bytes,
    offset: nat,
    /** Reports on their way back, and the last to be written down. */
    reports: seq<nat>, reached: nat,
    /** A report has been written down and those waiting have not been told. */
    telling: bool)

  /** One `WAIT`: its target, where the history and the writes stood when it began, and when it asked. */
  datatype Wait =
    | Beginning(target: nat, at: nat, wrote: nat, wanted: int)
    | Looking(target: nat, at: nat, wrote: nat, wanted: int, asked: nat, stirred: bool)
    | Parked(target: nat, at: nat, wrote: nat, wanted: int, asked: nat, stirred: bool)
    | Answered(count: nat)

  /** Told where to start, and not yet being sent to. */
  datatype Joining = Joining(at: nat, told: nat, since: nat)

  /** `written` is everything `send` was ever given; `history` is the part given while someone was listed. */
  datatype State = State(
    written: seq<Value>, history: seq<Value>, offset: nat, joining: seq<Joining>, replicas: seq<Replica>, waits: seq<Wait>)

  const START := State([], [], 0, [], [], [])

  datatype Step =
    | Agree
    | Join(j: nat)
    | Send(command: Value)
    | Deliver(i: nat, n: nat)
    | Hear(i: nat)
    | Report(i: nat)
    | Notify(i: nat)
    | HangUp(i: nat)
    | Begin(wanted: int)
    | AskAround(w: nat)
    | Look(w: nat)
    | Wake(w: nat)
    | GiveUp(w: nat)

  predicate Possible(s: State, step: Step) {
    match step
    case Agree => true
    case Join(j) => j < |s.joining|
    case Send(command) => Readable(command, MAX_DEPTH)
    case Deliver(i, n) => i < |s.replicas| && n <= |s.replicas[i].wire|
    case Hear(i) => i < |s.replicas|
    case Report(i) => i < |s.replicas| && s.replicas[i].reports != [] && !s.replicas[i].telling
    case Notify(i) => i < |s.replicas| && s.replicas[i].telling
    case HangUp(i) => i < |s.replicas| && !s.replicas[i].telling
    case Begin(_) => true
    case AskAround(w) => w < |s.waits| && s.waits[w].Beginning?
    case Look(w) => w < |s.waits| && s.waits[w].Looking?
    case Wake(w) => w < |s.waits| && s.waits[w].Parked? && s.waits[w].stirred
    case GiveUp(w) => w < |s.waits| && s.waits[w].Parked?
  }

  function Next(s: State, step: Step): State
    requires Possible(s, step)
  {
    match step
    case Agree => s.(joining := s.joining + [Joining(|s.history|, s.offset, |s.written|)])
    case Join(j) => Joined(s, j)
    case Send(command) => Sent(s, command)
    case Deliver(i, n) => s.(replicas := s.replicas[i := Delivered(s.replicas[i], n)])
    case Hear(i) => s.(replicas := s.replicas[i := Heard(s.replicas[i])])
    case Report(i) => s.(replicas := s.replicas[i := Reported(s.replicas[i])])
    case Notify(i) => s.(replicas := s.replicas[i := s.replicas[i].(telling := false)], waits := Stirred(s.waits))
    case HangUp(i) => s.(replicas := s.replicas[..i] + s.replicas[i + 1..])
    case Begin(wanted) => s.(waits := s.waits + [Begun(s, wanted)])
    case AskAround(w) =>
      var wait := s.waits[w];
      var asking := Looking(wait.target, wait.at, wait.wrote, wait.wanted, |s.history|, false);
      Sent(s, Ask()).(waits := s.waits[w := asking])
    case Look(w) => s.(waits := s.waits[w := Looked(s.replicas, s.waits[w])])
    case Wake(w) =>
      var wait := s.waits[w];
      s.(waits := s.waits[w := Looking(wait.target, wait.at, wait.wrote, wait.wanted, wait.asked, false)])
    case GiveUp(w) => s.(waits := s.waits[w := Answered(CaughtUp(s.replicas, s.waits[w].target))])
  }

  /** The replica starts counting from what it was told, and hears what is sent from now on. */
  function Joined(s: State, j: nat): State
    requires j < |s.joining|
  {
    var told := s.joining[j];
    var replica := Replica(told.at, |s.history|, told.since, |s.written|, [], [], [], told.told, [], 0, false);
    s.(joining := s.joining[..j] + s.joining[j + 1..], replicas := s.replicas + [replica])
  }

  /** A command goes to every replica, and is counted; with no replica there is nothing to count. */
  function Sent(s: State, command: Value): State {
    if s.replicas == [] then s.(written := s.written + [command])
    else
      s.(written := s.written + [command],
         history := s.history + [command],
         offset := s.offset + |Encode(command)|,
         replicas := SentTo(s.replicas, Encode(command)))
  }

  function SentTo(replicas: seq<Replica>, encoded: Bytes): (r: seq<Replica>)
    ensures |r| == |replicas|
  {
    seq(|replicas|, i requires 0 <= i < |replicas| => replicas[i].(wire := replicas[i].wire + encoded))
  }

  function Delivered(r: Replica, n: nat): Replica
    requires n <= |r.wire|
  {
    r.(heard := r.heard + r.wire[..n], wire := r.wire[n..])
  }

  function Heard(r: Replica): Replica {
    match Parse(r.heard, 0)
    case More => r
    case Bad(_) => r
    case Got(v, length) =>
      var p := Taken(Progress(r.carried, r.reports, r.offset), v, length);
      r.(heard := r.heard[length..], carried := p.heard, reports := p.reports, offset := p.offset)
  }

  function Reported(r: Replica): Replica
    requires r.reports != []
  {
    r.(reached := r.reports[0], reports := r.reports[1..], telling := true)
  }

  function Stirred(waits: seq<Wait>): (r: seq<Wait>)
    ensures |r| == |waits|
  {
    seq(|waits|, i requires 0 <= i < |waits| =>
      if waits[i].Looking? || waits[i].Parked? then waits[i].(stirred := true) else waits[i])
  }

  /** A zero offset is answered at once with the size of the list. */
  function Begun(s: State, wanted: int): Wait {
    if s.offset == 0 then Answered(|s.replicas|) else Beginning(s.offset, |s.history|, |s.written|, wanted)
  }

  function Looked(replicas: seq<Replica>, wait: Wait): Wait
    requires wait.Looking?
  {
    var count := CaughtUp(replicas, wait.target);
    if count >= wait.wanted then Answered(count)
    else Parked(wait.target, wait.at, wait.wrote, wait.wanted, wait.asked, wait.stirred)
  }

  function CaughtUp(replicas: seq<Replica>, target: nat): (count: nat)
    ensures count <= |replicas|
  {
    if replicas == [] then 0
    else (if replicas[0].reached >= target then 1 else 0) + CaughtUp(replicas[1..], target)
  }

  // ----- What every step keeps -----

  /** The last a replica has reported, whether or not the report has arrived. */
  function Latest(r: Replica): nat {
    if r.reports == [] then r.reached else r.reports[|r.reports| - 1]
  }

  /** How many bytes went out between its being told where to start and its being sent to. */
  function Missed(history: seq<Value>, r: Replica): int
    requires r.agreed <= |history| && r.from <= |history|
  {
    Size(history, r.from) - Size(history, r.agreed)
  }

  /** It has heard a stretch of the history from where it joined, and the rest is on its way. */
  ghost predicate Following(history: seq<Value>, r: Replica) {
    var done := r.from + |r.carried|;
    && r.agreed <= r.from && done <= |history|
    && r.carried == history[r.from..done]
    && r.heard + r.wire == EncodeAll(history[done..])
    && r.offset == Size(history, done) - Missed(history, r)
  }

  /** Where the last question stands, or -1. */
  function LastQuestion(values: seq<Value>): (k: int)
    ensures -1 <= k < |values|
    ensures k >= 0 ==> AsksHowFar(values[k])
    ensures forall j :: k < j < |values| ==> !AsksHowFar(values[j])
  {
    if values == [] then -1
    else if AsksHowFar(values[|values| - 1]) then |values| - 1
    else LastQuestion(values[..|values| - 1])
  }

  /** It has reported no more than it had heard, and last what it had heard when last asked. */
  ghost predicate Honest(history: seq<Value>, r: Replica)
    requires Following(history, r)
  {
    && r.reached <= r.offset
    && (forall k :: 0 <= k < |r.reports| ==> r.reports[k] <= r.offset)
    && var last := LastQuestion(r.carried);
       Latest(r) == if last < 0 then 0 else Size(history, r.from + last) - Missed(history, r)
  }

  ghost predicate Fits(history: seq<Value>, r: Replica) {
    Following(history, r) && Honest(history, r)
  }

  predicate SomeoneTelling(replicas: seq<Replica>) {
    exists i :: 0 <= i < |replicas| && replicas[i].telling
  }

  predicate WaitFits(s: State, wait: Wait) {
    wait.Answered? || (
      && wait.at <= |s.history|
      && 0 < wait.target == Size(s.history, wait.at)
      && (wait.Beginning? || wait.at <= wait.asked)
      && (wait.Parked? && !wait.stirred && !SomeoneTelling(s.replicas) ==>
            CaughtUp(s.replicas, wait.target) < wait.wanted))
  }

  ghost predicate Inv(s: State) {
    && AllReadable(s.history, MAX_DEPTH)
    && s.offset == |EncodeAll(s.history)|
    && (forall j :: 0 <= j < |s.joining| ==>
          s.joining[j].at <= |s.history| && s.joining[j].told == Size(s.history, s.joining[j].at))
    && (forall i :: 0 <= i < |s.replicas| ==> Fits(s.history, s.replicas[i]))
    && (forall w :: 0 <= w < |s.waits| ==> WaitFits(s, s.waits[w]))
  }

  // ----- Bytes of a history -----

  lemma SizeOfStretch(history: seq<Value>, j: nat, k: nat)
    requires j <= k <= |history|
    ensures |EncodeAll(history[j..k])| == Size(history, k) - Size(history, j)
  {
    assert history[..k] == history[..j] + history[j..k];
    EncodeAllAppends(history[..j], history[j..k]);
  }

  lemma SizeOfNext(history: seq<Value>, k: nat)
    requires k < |history|
    ensures Size(history, k + 1) == Size(history, k) + |Encode(history[k])|
  {
    EncodeAllSnoc(history, k);
  }

  /** Of two places in a history, the later is the more bytes along. */
  lemma SizeGrows(history: seq<Value>, j: nat, k: nat)
    requires AllReadable(history, MAX_DEPTH) && j <= |history| && k <= |history|
    ensures j < k <==> Size(history, j) < Size(history, k)
  {
    if j < k {
      SizeJumps(history, j, k);
    } else if k < j {
      SizeJumps(history, k, j);
    }
  }

  lemma SizeJumps(history: seq<Value>, j: nat, k: nat)
    requires AllReadable(history, MAX_DEPTH) && j < k <= |history|
    ensures Size(history, j) < Size(history, k)
  {
    hide Parse, Encode;
    SizeOfNext(history, j);
    RoundTrip(history[j], [], 0);
    SizeOfStretch(history, j + 1, k);
  }

  lemma SizeOfLonger(history: seq<Value>, v: Value, k: nat)
    requires k <= |history|
    ensures Size(history + [v], k) == Size(history, k)
  {
    assert (history + [v])[..k] == history[..k];
  }

  // ----- One replica -----

  lemma SentKeepsFits(history: seq<Value>, v: Value, r: Replica)
    requires Fits(history, r)
    ensures Fits(history + [v], r.(wire := r.wire + Encode(v)))
  {
    hide Encode, EncodeAll, AsksHowFar, Size;
    var longer, done := history + [v], r.from + |r.carried|;
    SizeOfLonger(history, v, r.from);
    SizeOfLonger(history, v, r.agreed);
    SizeOfLonger(history, v, done);
    assert longer[r.from..done] == history[r.from..done];
    assert longer[done..] == history[done..] + [v];
    EncodeAllAppends(history[done..], [v]);
    EncodeAllOne(v);
    Reassociate(r.heard, r.wire, Encode(v));
    var sent := r.(wire := r.wire + Encode(v));
    assert Following(longer, sent);
    if LastQuestion(r.carried) >= 0 {
      SizeOfLonger(history, v, r.from + LastQuestion(r.carried));
    }
  }

  lemma DeliveredKeepsFits(history: seq<Value>, r: Replica, n: nat)
    requires Fits(history, r) && n <= |r.wire|
    ensures Fits(history, Delivered(r, n))
  {
    hide EncodeAll, AsksHowFar, Size;
    assert r.wire[..n] + r.wire[n..] == r.wire;
    Reassociate(r.heard, r.wire[..n], r.wire[n..]);
  }

  /** Parsing a replica's buffer yields the successor in `history`, or asks for more; it never fails. */
  lemma HearsTheNext(history: seq<Value>, r: Replica)
    requires AllReadable(history, MAX_DEPTH) && Following(history, r)
    ensures var done := r.from + |r.carried|;
            || Parse(r.heard, 0) == More
            || (&& done < |history|
                && Parse(r.heard, 0) == Got(history[done], |Encode(history[done])|)
                && r.heard[|Encode(history[done])|..] + r.wire == EncodeAll(history[done + 1..]))
  {
    hide Parse, Encode, Size;
    var done := r.from + |r.carried|;
    var rest := history[done..];
    if rest == [] {
      assert r.heard == [];
      NothingToParse();
    } else if Parse(r.heard, 0) != More {
      var first, later := Encode(rest[0]), EncodeAll(rest[1..]);
      assert rest[1..] == history[done + 1..];
      ParseStable(r.heard, r.wire, 0);
      RoundTrip(rest[0], later, 0);
      assert (r.heard + r.wire)[|first|..] == r.heard[|first|..] + r.wire;
      assert (first + later)[|first|..] == later;
    }
  }

  lemma HeardKeepsFollowing(history: seq<Value>, r: Replica)
    requires AllReadable(history, MAX_DEPTH) && Following(history, r)
    ensures Following(history, Heard(r))
  {
    hide Parse, Encode, EncodeAll, Size, AsksHowFar;
    HearsTheNext(history, r);
    if Parse(r.heard, 0) != More {
      var done := r.from + |r.carried|;
      SizeOfNext(history, done);
      assert history[r.from..done + 1] == history[r.from..done] + [history[done]];
    }
  }

  lemma HeardKeepsHonest(history: seq<Value>, r: Replica)
    requires AllReadable(history, MAX_DEPTH) && Fits(history, r)
    requires Following(history, Heard(r))
    ensures Honest(history, Heard(r))
  {
    hide Parse, Encode, EncodeAll, AsksHowFar, Size;
    HearsTheNext(history, r);
    if Parse(r.heard, 0) != More {
      var later, n := Heard(r), |r.carried|;
      assert later.offset >= r.offset;
      assert Latest(r) <= r.offset;
      assert later.carried == r.carried + [history[r.from + n]];
      LastQuestionSnoc(r.carried, history[r.from + n]);
    }
  }

  lemma LastQuestionSnoc(values: seq<Value>, v: Value)
    ensures LastQuestion(values + [v]) == if AsksHowFar(v) then |values| else LastQuestion(values)
  {
    hide AsksHowFar;
    assert (values + [v])[..|values|] == values;
  }

  lemma HeardKeepsFits(history: seq<Value>, r: Replica)
    requires AllReadable(history, MAX_DEPTH) && Fits(history, r)
    ensures Fits(history, Heard(r))
  {
    HeardKeepsFollowing(history, r);
    HeardKeepsHonest(history, r);
  }

  lemma ReportedKeepsFits(history: seq<Value>, r: Replica)
    requires Fits(history, r) && r.reports != []
    ensures Fits(history, Reported(r))
  {
    hide EncodeAll, AsksHowFar, Size;
    assert Latest(Reported(r)) == Latest(r);
  }

  lemma JoinedFits(history: seq<Value>, told: Joining, joined: nat)
    requires told.at <= |history| && told.told == Size(history, told.at)
    ensures Fits(history, Replica(told.at, |history|, told.since, joined, [], [], [], told.told, [], 0, false))
  {
    assert history[|history|..] == [] && history[..|history|] == history;
  }

  // ----- Counting -----

  lemma {:induction false} CaughtUpAppends(a: seq<Replica>, b: seq<Replica>, target: nat)
    ensures CaughtUp(a + b, target) == CaughtUp(a, target) + CaughtUp(b, target)
  {
    if a == [] {
      assert a + b == b;
    } else {
      assert (a + b)[1..] == a[1..] + b;
      CaughtUpAppends(a[1..], b, target);
    }
  }

  lemma CaughtUpNone(target: nat)
    ensures CaughtUp([], target) == 0
  {
  }

  lemma CaughtUpSnoc(replicas: seq<Replica>, i: nat, target: nat)
    requires i < |replicas|
    ensures CaughtUp(replicas[..i + 1], target)
            == CaughtUp(replicas[..i], target) + if replicas[i].reached >= target then 1 else 0
  {
    assert replicas[..i + 1] == replicas[..i] + [replicas[i]];
    CaughtUpAppends(replicas[..i], [replicas[i]], target);
    assert [replicas[i]][1..] == [];
  }

  predicate SameReached(a: seq<Replica>, b: seq<Replica>) {
    |a| == |b| && forall i :: 0 <= i < |a| ==> a[i].reached == b[i].reached
  }

  lemma {:induction false} CaughtUpOfSame(a: seq<Replica>, b: seq<Replica>, target: nat)
    requires SameReached(a, b)
    ensures CaughtUp(a, target) == CaughtUp(b, target)
  {
    if a != [] {
      assert SameReached(a[1..], b[1..]);
      CaughtUpOfSame(a[1..], b[1..], target);
    }
  }

  /** Letting one go never leaves more of them caught up. */
  lemma CaughtUpWithout(replicas: seq<Replica>, i: nat, target: nat)
    requires i < |replicas|
    ensures CaughtUp(replicas[..i] + replicas[i + 1..], target) <= CaughtUp(replicas, target)
  {
    hide CaughtUp;
    var before, after := replicas[..i], replicas[i + 1..];
    CaughtUpAppends(before, after, target);
    assert replicas[..i + 1] == before + [replicas[i]];
    CaughtUpAppends(before, [replicas[i]], target);
    assert replicas == replicas[..i + 1] + after;
    CaughtUpAppends(replicas[..i + 1], after, target);
  }

  // ----- Every run -----

  lemma StartFits()
    ensures Inv(START)
  {
  }

  /** Nothing moves but the replicas, and those only in what does not bear on who has caught up. */
  lemma WaitsKeep(s: State, s': State)
    requires Inv(s) && s'.history == s.history && s'.waits == s.waits
    requires SameReached(s.replicas, s'.replicas)
    requires SomeoneTelling(s'.replicas) == SomeoneTelling(s.replicas)
    ensures forall w :: 0 <= w < |s'.waits| ==> WaitFits(s', s'.waits[w])
  {
    hide EncodeAll, Size, Following, Honest, CaughtUp;
    forall w | 0 <= w < |s'.waits|
      ensures WaitFits(s', s'.waits[w])
    {
      assert WaitFits(s, s.waits[w]);
      if !s.waits[w].Answered? {
        CaughtUpOfSame(s.replicas, s'.replicas, s.waits[w].target);
      }
    }
  }

  lemma OneMovesKeepsInv(s: State, i: nat, r: Replica)
    requires Inv(s) && i < |s.replicas|
    requires Fits(s.history, r) && r.reached == s.replicas[i].reached && r.telling == s.replicas[i].telling
    ensures Inv(s.(replicas := s.replicas[i := r]))
  {
    hide EncodeAll, Size, Following, Honest, CaughtUp, WaitFits;
    var s' := s.(replicas := s.replicas[i := r]);
    assert forall k :: 0 <= k < |s.replicas| ==> s'.replicas[k].telling == s.replicas[k].telling;
    WaitsKeep(s, s');
  }

  lemma AgreeKeepsInv(s: State)
    requires Inv(s)
    ensures Inv(Next(s, Agree))
  {
    hide EncodeAll, Following, Honest, CaughtUp;
    assert s.history[..|s.history|] == s.history;
    WaitsKeep(s, Next(s, Agree));
  }

  lemma JoinKeepsInv(s: State, j: nat)
    requires Inv(s) && j < |s.joining|
    ensures Inv(Joined(s, j))
  {
    hide EncodeAll, Size, Following, Honest, CaughtUp;
    var s' := Joined(s, j);
    JoinedFits(s.history, s.joining[j], |s.written|);
    var newcomer := s'.replicas[|s.replicas|];
    forall w | 0 <= w < |s'.waits|
      ensures WaitFits(s', s'.waits[w])
    {
      assert WaitFits(s, s.waits[w]);
      if !s.waits[w].Answered? {
        CaughtUpAppends(s.replicas, [newcomer], s.waits[w].target);
        NewcomerIsBehind(newcomer, s.waits[w].target);
        assert SomeoneTelling(s.replicas) ==> SomeoneTelling(s'.replicas) by {
          if i :| 0 <= i < |s.replicas| && s.replicas[i].telling {
            assert s'.replicas[i].telling;
          }
        }
      }
    }
  }

  lemma NewcomerIsBehind(r: Replica, target: nat)
    requires r.reached < target
    ensures CaughtUp([r], target) == 0
  {
  }

  lemma SentKeepsReplicas(s: State, v: Value)
    requires Inv(s) && s.replicas != []
    ensures forall i :: 0 <= i < |s.replicas| ==> Fits(Sent(s, v).history, Sent(s, v).replicas[i])
  {
    hide Encode, EncodeAll, Following, Honest;
    forall i | 0 <= i < |s.replicas|
      ensures Fits(Sent(s, v).history, Sent(s, v).replicas[i])
    {
      SentKeepsFits(s.history, v, s.replicas[i]);
    }
  }

  lemma SentKeepsWait(s: State, v: Value, wait: Wait)
    requires WaitFits(s, wait)
    ensures WaitFits(Sent(s, v), wait)
  {
    hide Encode, EncodeAll, Size, CaughtUp;
    var s' := Sent(s, v);
    if s.replicas != [] && !wait.Answered? {
      SizeOfLonger(s.history, v, wait.at);
      CaughtUpOfSame(s.replicas, s'.replicas, wait.target);
      assert forall i :: 0 <= i < |s.replicas| ==> s'.replicas[i].telling == s.replicas[i].telling;
    }
  }

  lemma SentKeepsInv(s: State, v: Value)
    requires Inv(s) && Readable(v, MAX_DEPTH)
    ensures Inv(Sent(s, v))
  {
    hide Encode, EncodeAll, Size, CaughtUp, WaitFits, Fits;
    var s' := Sent(s, v);
    forall w | 0 <= w < |s.waits|
      ensures WaitFits(s', s'.waits[w])
    {
      SentKeepsWait(s, v, s.waits[w]);
    }
    if s.replicas != [] {
      SentKeepsReplicas(s, v);
      EncodeAllAppends(s.history, [v]);
      EncodeAllOne(v);
      forall j | 0 <= j < |s.joining|
        ensures s'.joining[j].at <= |s'.history| && s'.joining[j].told == Size(s'.history, s'.joining[j].at)
      {
        SizeOfLonger(s.history, v, s.joining[j].at);
      }
    }
  }

  lemma ReportKeepsInv(s: State, i: nat)
    requires Inv(s) && Possible(s, Report(i))
    ensures Inv(Next(s, Report(i)))
  {
    hide EncodeAll, Size, Following, Honest, CaughtUp;
    ReportedKeepsFits(s.history, s.replicas[i]);
    assert Next(s, Report(i)).replicas[i].telling;
  }

  lemma NotifyKeepsInv(s: State, i: nat)
    requires Inv(s) && Possible(s, Notify(i))
    ensures Inv(Next(s, Notify(i)))
  {
    hide EncodeAll, Size, CaughtUp;
    var s' := Next(s, Notify(i));
    assert Fits(s.history, s'.replicas[i]);
    forall w | 0 <= w < |s'.waits|
      ensures WaitFits(s', s'.waits[w])
    {
      assert WaitFits(s, s.waits[w]);
    }
  }

  lemma HangUpKeepsInv(s: State, i: nat)
    requires Inv(s) && Possible(s, HangUp(i))
    ensures Inv(Next(s, HangUp(i)))
  {
    hide EncodeAll, Size, Following, Honest, CaughtUp;
    var s' := Next(s, HangUp(i));
    forall w | 0 <= w < |s'.waits|
      ensures WaitFits(s', s'.waits[w])
    {
      assert WaitFits(s, s.waits[w]);
      if !s.waits[w].Answered? {
        CaughtUpWithout(s.replicas, i, s.waits[w].target);
        assert SomeoneTelling(s.replicas) ==> SomeoneTelling(s'.replicas) by {
          if k :| 0 <= k < |s.replicas| && s.replicas[k].telling {
            assert s'.replicas[if k < i then k else k - 1].telling;
          }
        }
      }
    }
  }

  lemma AskReadable()
    ensures Readable(Ask(), MAX_DEPTH)
  {
    var parts := Ask().values;
    assert forall i :: 0 <= i < |parts| ==> |parts[i].bytes| <= 8;
  }

  lemma WaitMovesKeepsInv(s: State, w: nat, wait: Wait)
    requires Inv(s) && w < |s.waits| && WaitFits(s, wait)
    ensures Inv(s.(waits := s.waits[w := wait]))
  {
    hide EncodeAll, Size, Following, Honest, CaughtUp;
    var s' := s.(waits := s.waits[w := wait]);
    forall k | 0 <= k < |s'.waits|
      ensures WaitFits(s', s'.waits[k])
    {
      assert k != w ==> WaitFits(s, s.waits[k]);
    }
  }

  lemma BeginKeepsInv(s: State, wanted: int)
    requires Inv(s)
    ensures Inv(Next(s, Begin(wanted)))
  {
    hide EncodeAll, Following, Honest, CaughtUp;
    var s' := Next(s, Begin(wanted));
    assert s.history[..|s.history|] == s.history;
    forall w | 0 <= w < |s'.waits|
      ensures WaitFits(s', s'.waits[w])
    {
      assert w < |s.waits| ==> WaitFits(s, s.waits[w]);
    }
  }

  lemma AskAroundKeepsInv(s: State, w: nat)
    requires Inv(s) && Possible(s, AskAround(w))
    ensures Inv(Next(s, AskAround(w)))
  {
    hide Encode, EncodeAll, Size, Following, Honest, CaughtUp, Ask;
    AskReadable();
    SentKeepsInv(s, Ask());
    var sent, wait := Sent(s, Ask()), s.waits[w];
    assert WaitFits(sent, sent.waits[w]);
    WaitMovesKeepsInv(sent, w, Looking(wait.target, wait.at, wait.wrote, wait.wanted, |s.history|, false));
  }

  /** Every step keeps every replica's count in step with the master's, and every `WAIT` in step with the reports. */
  lemma NextKeepsInv(s: State, step: Step)
    requires Inv(s) && Possible(s, step)
    ensures Inv(Next(s, step))
  {
    hide EncodeAll, Encode, Size, Following, Honest, CaughtUp, Parse, Ask, AllReadable;
    match step
    case Agree => AgreeKeepsInv(s);
    case Join(j) => JoinKeepsInv(s, j);
    case Send(command) => SentKeepsInv(s, command);
    case Deliver(i, n) =>
      DeliveredKeepsFits(s.history, s.replicas[i], n);
      OneMovesKeepsInv(s, i, Delivered(s.replicas[i], n));
    case Hear(i) =>
      HeardKeepsFits(s.history, s.replicas[i]);
      OneMovesKeepsInv(s, i, Heard(s.replicas[i]));
    case Report(i) => ReportKeepsInv(s, i);
    case Notify(i) => NotifyKeepsInv(s, i);
    case HangUp(i) => HangUpKeepsInv(s, i);
    case Begin(wanted) => BeginKeepsInv(s, wanted);
    case AskAround(w) => AskAroundKeepsInv(s, w);
    case Look(w) => WaitMovesKeepsInv(s, w, Looked(s.replicas, s.waits[w]));
    case Wake(w) =>
      var wait := s.waits[w];
      WaitMovesKeepsInv(s, w, Looking(wait.target, wait.at, wait.wrote, wait.wanted, wait.asked, false));
    case GiveUp(w) => WaitMovesKeepsInv(s, w, Answered(CaughtUp(s.replicas, s.waits[w].target)));
  }

  ghost predicate Run(states: seq<State>, steps: seq<Step>) {
    && |states| == |steps| + 1
    && states[0] == START
    && forall k :: 0 <= k < |steps| ==> Possible(states[k], steps[k]) && states[k + 1] == Next(states[k], steps[k])
  }

  lemma {:induction false} RunsKeepInv(states: seq<State>, steps: seq<Step>, k: nat)
    requires Run(states, steps) && k < |states|
    ensures Inv(states[k])
  {
    if k == 0 {
      StartFits();
    } else {
      RunsKeepInv(states, steps, k - 1);
      assert Possible(states[k - 1], steps[k - 1]);
      NextKeepsInv(states[k - 1], steps[k - 1]);
    }
  }

  // ----- What it comes to -----

  /**
   In every run, what a replica has counted, what is on its way to it and what
   went out while it was being handed over come to what the master has counted.
   So the two agree exactly when nothing went out in between.
   */
  lemma BytesAreConserved(states: seq<State>, steps: seq<Step>, k: nat, i: nat)
    requires Run(states, steps) && k < |states| && i < |states[k].replicas|
    ensures var s, r := states[k], states[k].replicas[i];
            && r.agreed <= r.from <= |s.history|
            && r.offset + |r.heard| + |r.wire| + Missed(s.history, r) == s.offset
            && (r.offset + |r.heard| + |r.wire| == s.offset <==> r.agreed == r.from)
  {
    hide EncodeAll, Possible, Next;
    RunsKeepInv(states, steps, k);
    var s, r := states[k], states[k].replicas[i];
    assert Fits(s.history, r);
    SizeOfStretch(s.history, r.from + |r.carried|, |s.history|);
    assert s.history[..|s.history|] == s.history;
    assert s.history[r.from + |r.carried|..|s.history|] == s.history[r.from + |r.carried|..];
    SizeGrows(s.history, r.agreed, r.from);
  }

  // ----- What a replica hears of what is written -----

  /** Without the questions, which a replica answers and does not carry out. */
  function Told(values: seq<Value>): seq<Value> {
    if values == [] then [] else (if AsksHowFar(values[0]) then [] else [values[0]]) + Told(values[1..])
  }

  lemma {:induction false} ToldAppends(a: seq<Value>, b: seq<Value>)
    ensures Told(a + b) == Told(a) + Told(b)
  {
    hide AsksHowFar;
    if a == [] {
      assert a + b == b;
    } else {
      assert (a + b)[0] == a[0] && (a + b)[1..] == a[1..] + b;
      ToldAppends(a[1..], b);
    }
  }

  /** From the moment it is listed, a replica's part of the history is everything written. */
  predicate Placed(s: State, r: Replica) {
    && r.since <= r.joined <= |s.written| && r.from <= |s.history|
    && s.history[r.from..] == s.written[r.joined..]
  }

  /** A place among the writes, and the place in the history that goes with it. */
  predicate Timed(s: State, wait: Wait) {
    !wait.Answered? ==>
      wait.wrote <= |s.written| && wait.at <= |s.history| && |s.history| - wait.at <= |s.written| - wait.wrote
  }

  predicate Aligned(wait: Wait, r: Replica) {
    !wait.Answered? && r.joined <= wait.wrote ==> wait.at - r.from == wait.wrote - r.joined
  }

  ghost predicate Noted(s: State) {
    && (forall j :: 0 <= j < |s.joining| ==> s.joining[j].since <= |s.written|)
    && (forall i :: 0 <= i < |s.replicas| ==> Placed(s, s.replicas[i]))
    && (forall w :: 0 <= w < |s.waits| ==> Timed(s, s.waits[w]))
    && (forall w, i :: 0 <= w < |s.waits| && 0 <= i < |s.replicas| ==> Aligned(s.waits[w], s.replicas[i]))
  }

  lemma SentKeepsNoted(s: State, v: Value)
    requires Noted(s)
    ensures Noted(Sent(s, v))
  {
    hide Encode;
    var s' := Sent(s, v);
    if s.replicas != [] {
      forall i | 0 <= i < |s'.replicas|
        ensures Placed(s', s'.replicas[i])
      {
        var r := s.replicas[i];
        assert Placed(s, r);
        assert s'.history[r.from..] == s.history[r.from..] + [v] && s'.written[r.joined..] == s.written[r.joined..] + [v];
      }
      forall w, i | 0 <= w < |s'.waits| && 0 <= i < |s'.replicas|
        ensures Aligned(s'.waits[w], s'.replicas[i])
      {
        assert Aligned(s.waits[w], s.replicas[i]);
      }
    }
  }

  lemma JoinKeepsNoted(s: State, j: nat)
    requires Noted(s) && j < |s.joining|
    ensures Noted(Joined(s, j))
  {
    var s' := Joined(s, j);
    var newcomer := s'.replicas[|s.replicas|];
    assert s.history[|s.history|..] == [] && s.written[|s.written|..] == [];
    forall w | 0 <= w < |s.waits|
      ensures Aligned(s.waits[w], newcomer)
    {
      assert Timed(s, s.waits[w]);
    }
  }

  lemma OneMovesKeepsNoted(s: State, i: nat, r: Replica)
    requires Noted(s) && i < |s.replicas|
    requires r.from == s.replicas[i].from && r.since == s.replicas[i].since && r.joined == s.replicas[i].joined
    ensures Noted(s.(replicas := s.replicas[i := r]))
  {
    assert Placed(s, s.replicas[i]);
    forall w | 0 <= w < |s.waits|
      ensures Aligned(s.waits[w], r)
    {
      assert Aligned(s.waits[w], s.replicas[i]);
    }
  }

  lemma WaitMovesKeepsNoted(s: State, w: nat, wait: Wait)
    requires Noted(s) && w < |s.waits| && !s.waits[w].Answered?
    requires wait.Answered? || (wait.at == s.waits[w].at && wait.wrote == s.waits[w].wrote)
    ensures Noted(s.(waits := s.waits[w := wait]))
  {
    assert Timed(s, s.waits[w]);
    forall i | 0 <= i < |s.replicas|
      ensures Aligned(wait, s.replicas[i])
    {
      assert Aligned(s.waits[w], s.replicas[i]);
    }
  }

  lemma BeginKeepsNoted(s: State, wanted: int)
    requires Noted(s)
    ensures Noted(Next(s, Begin(wanted)))
  {
    forall i | 0 <= i < |s.replicas|
      ensures Aligned(Begun(s, wanted), s.replicas[i])
    {
      var r := s.replicas[i];
      assert Placed(s, r);
      assert |s.history[r.from..]| == |s.written[r.joined..]|;
    }
  }

  lemma NotifyKeepsNoted(s: State, i: nat)
    requires Noted(s) && Possible(s, Notify(i))
    ensures Noted(Next(s, Notify(i)))
  {
    OneMovesKeepsNoted(s, i, s.replicas[i].(telling := false));
    var moved := s.(replicas := s.replicas[i := s.replicas[i].(telling := false)]);
    var s' := Next(s, Notify(i));
    forall w | 0 <= w < |s'.waits|
      ensures Timed(s', s'.waits[w])
    {
      assert Timed(moved, moved.waits[w]);
    }
    forall w, k | 0 <= w < |s'.waits| && 0 <= k < |s'.replicas|
      ensures Aligned(s'.waits[w], s'.replicas[k])
    {
      assert Aligned(moved.waits[w], moved.replicas[k]);
    }
  }

  lemma NextKeepsNoted(s: State, step: Step)
    requires Noted(s) && Possible(s, step)
    ensures Noted(Next(s, step))
  {
    hide Encode, Parse, Ask, Noted, AsksHowFar, CaughtUp;
    match step
    case Agree => AgreeKeepsNoted(s);
    case Join(j) => JoinKeepsNoted(s, j);
    case Send(command) => SentKeepsNoted(s, command);
    case Deliver(i, n) => OneMovesKeepsNoted(s, i, Delivered(s.replicas[i], n));
    case Hear(i) => OneMovesKeepsNoted(s, i, Heard(s.replicas[i]));
    case Report(i) => OneMovesKeepsNoted(s, i, Reported(s.replicas[i]));
    case Notify(i) => NotifyKeepsNoted(s, i);
    case HangUp(i) => HangUpKeepsNoted(s, i);
    case Begin(wanted) => BeginKeepsNoted(s, wanted);
    case AskAround(w) =>
      SentKeepsNoted(s, Ask());
      var wait := s.waits[w];
      WaitMovesKeepsNoted(Sent(s, Ask()), w, Looking(wait.target, wait.at, wait.wrote, wait.wanted, |s.history|, false));
    case Look(w) => WaitMovesKeepsNoted(s, w, Looked(s.replicas, s.waits[w]));
    case Wake(w) =>
      var wait := s.waits[w];
      WaitMovesKeepsNoted(s, w, Looking(wait.target, wait.at, wait.wrote, wait.wanted, wait.asked, false));
    case GiveUp(w) => WaitMovesKeepsNoted(s, w, Answered(CaughtUp(s.replicas, s.waits[w].target)));
  }

  lemma AgreeKeepsNoted(s: State)
    requires Noted(s)
    ensures Noted(Next(s, Agree))
  {
    var s' := Next(s, Agree);
    assert forall i :: 0 <= i < |s.replicas| ==> Placed(s, s.replicas[i]);
    assert forall w :: 0 <= w < |s.waits| ==> Timed(s, s.waits[w]);
  }

  lemma HangUpKeepsNoted(s: State, i: nat)
    requires Noted(s) && Possible(s, HangUp(i))
    ensures Noted(Next(s, HangUp(i)))
  {
    var s' := Next(s, HangUp(i));
    forall k | 0 <= k < |s'.replicas|
      ensures Placed(s', s'.replicas[k])
    {
      assert Placed(s, s.replicas[if k < i then k else k + 1]);
    }
    assert forall w :: 0 <= w < |s.waits| ==> Timed(s, s.waits[w]);
    forall w, k | 0 <= w < |s'.waits| && 0 <= k < |s'.replicas|
      ensures Aligned(s'.waits[w], s'.replicas[k])
    {
      assert Aligned(s.waits[w], s.replicas[if k < i then k else k + 1]);
    }
  }

  lemma {:induction false} RunsKeepNoted(states: seq<State>, steps: seq<Step>, k: nat)
    requires Run(states, steps) && k < |states|
    ensures Noted(states[k])
  {
    hide Next, Possible;
    if k > 0 {
      RunsKeepNoted(states, steps, k - 1);
      assert Possible(states[k - 1], steps[k - 1]);
      NextKeepsNoted(states[k - 1], steps[k - 1]);
    }
  }

  // ----- Which steps come between -----

  function Given(step: Step): seq<Value> {
    match step
    case Send(v) => [v]
    case AskAround(_) => [Ask()]
    case _ => []
  }

  /** What some steps hand to `send`. */
  function SentBy(steps: seq<Step>): seq<Value> {
    if steps == [] then [] else SentBy(steps[..|steps| - 1]) + Given(steps[|steps| - 1])
  }

  lemma StepWrites(s: State, step: Step)
    requires Possible(s, step)
    ensures Next(s, step).written == s.written + Given(step)
  {
    hide Encode, Ask, CaughtUp, Parse, Heard, SentTo, Stirred;
    assert s.written + [] == s.written;
  }

  lemma {:induction false} WrittenIsWhatWasSent(states: seq<State>, steps: seq<Step>, a: nat, b: nat)
    requires Run(states, steps) && a <= b < |states|
    ensures states[b].written == states[a].written + SentBy(steps[a..b])
    decreases b
  {
    hide Next, Possible, Given;
    if a < b {
      WrittenIsWhatWasSent(states, steps, a, b - 1);
      assert steps[a..b][..b - 1 - a] == steps[a..b - 1] && steps[a..b][b - 1 - a] == steps[b - 1];
      assert Possible(states[b - 1], steps[b - 1]);
      StepWrites(states[b - 1], steps[b - 1]);
      var so, more := SentBy(steps[a..b - 1]), Given(steps[b - 1]);
      assert states[a].written + so + more == states[a].written + (so + more);
    }
  }

  /** The `Agree` step that a replica not yet listed goes back to. */
  lemma {:induction false} AgreedAt(states: seq<State>, steps: seq<Step>, k: nat, j: nat) returns (a: nat)
    requires Run(states, steps) && k < |states| && j < |states[k].joining|
    ensures a < k && steps[a] == Agree && states[k].joining[j].since == |states[a].written|
    decreases k
  {
    hide Encode, Ask, CaughtUp, Parse;
    assert k > 0;
    var before, step := states[k - 1], steps[k - 1];
    assert Possible(before, step) && states[k] == Next(before, step);
    if step.Agree? && j == |before.joining| {
      a := k - 1;
    } else {
      a := AgreedAt(states, steps, k - 1, if step.Join? && j >= step.j then j + 1 else j);
    }
  }

  /** Where a listed replica was in the list one step earlier. */
  function Before(s: State, step: Step, i: nat): nat {
    if step.HangUp? && i >= step.i then i + 1 else i
  }

  lemma StaysPlaced(s: State, step: Step, i: nat)
    requires Possible(s, step) && i < |Next(s, step).replicas| && !(step.Join? && i == |s.replicas|)
    ensures Before(s, step, i) < |s.replicas|
    ensures var r, r' := s.replicas[Before(s, step, i)], Next(s, step).replicas[i];
            r'.since == r.since && r'.joined == r.joined
  {
    hide Encode, Ask, CaughtUp, Parse, AsksHowFar, Stirred, Looked;
  }

  lemma NewcomerIsPlaced(s: State, j: nat)
    requires j < |s.joining|
    ensures var r := Next(s, Join(j)).replicas[|s.replicas|];
            r.since == s.joining[j].since && r.joined == |s.written|
  {
  }

  /** The `Agree` and the `Join` of a replica that is listed. */
  lemma {:induction false} HandedOverBy(states: seq<State>, steps: seq<Step>, k: nat, i: nat) returns (a: nat, b: nat)
    requires Run(states, steps) && k < |states| && i < |states[k].replicas|
    ensures a < b < k && steps[a] == Agree && steps[b].Join?
    ensures states[k].replicas[i].since == |states[a].written| && states[k].replicas[i].joined == |states[b].written|
    decreases k
  {
    hide Next, Possible;
    assert k > 0;
    var before, step := states[k - 1], steps[k - 1];
    assert Possible(before, step) && states[k] == Next(before, step);
    if step.Join? && i == |before.replicas| {
      b := k - 1;
      JoinIsPossible(before, step);
      NewcomerIsPlaced(before, step.j);
      a := AgreedAt(states, steps, b, step.j);
    } else {
      StaysPlaced(before, step, i);
      a, b := HandedOverBy(states, steps, k - 1, Before(before, step, i));
    }
  }

  lemma JoinIsPossible(s: State, step: Step)
    requires Possible(s, step) && step.Join?
    ensures step.j < |s.joining|
  {
  }

  lemma StretchAndRest(history: seq<Value>, from: nat, to: nat)
    requires from <= to <= |history|
    ensures history[from..to] + history[to..] == history[from..]
  {
  }

  lemma Suffixes(first: seq<Value>, early: seq<Value>, late: seq<Value>, both: seq<Value>, all: seq<Value>)
    requires all == first + both && all == first + early + late
    ensures all[|first|..] == both == early + late && all[|first| + |early|..] == late
  {
    assert all[|first|..] == both;
    assert all[|first|..] == early + late;
  }

  lemma NothingBetween(early: seq<Value>, late: seq<Value>)
    ensures Told(late) == Told(early + late) <==> Told(early) == []
  {
    hide Told;
    ToldAppends(early, late);
    var e, l := Told(early), Told(late);
    assert e == [] ==> e + l == l;
    assert e != [] ==> |e + l| > |l|;
  }

  /**
   A replica's part of the stream, heard or on its way, is everything written
   since it was listed. It is every command written since its agreement exactly
   when no command was written between the two steps of its handover.
   */
  lemma MissesWhatFellBetween(states: seq<State>, steps: seq<Step>, k: nat, i: nat) returns (a: nat, b: nat)
    requires Run(states, steps) && k < |states| && i < |states[k].replicas|
    ensures a < b < k && steps[a] == Agree && steps[b].Join?
    ensures var s, r := states[k], states[k].replicas[i];
            && r.since <= r.joined <= |s.written| && r.from + |r.carried| <= |s.history|
            && s.written[r.since..] == SentBy(steps[a..k]) && s.written[r.joined..] == SentBy(steps[b..k])
            && var rest := s.history[r.from + |r.carried|..];
               && r.heard + r.wire == EncodeAll(rest)
               && r.carried + rest == SentBy(steps[b..k])
               && (Told(r.carried + rest) == Told(SentBy(steps[a..k])) <==> Told(SentBy(steps[a..b])) == [])
  {
    hide EncodeAll, Possible, Next, Size, Honest, SentBy, Told;
    RunsKeepInv(states, steps, k);
    RunsKeepNoted(states, steps, k);
    a, b := HandedOverBy(states, steps, k, i);
    var s, r := states[k], states[k].replicas[i];
    assert Fits(s.history, r) && Placed(s, r);
    StretchAndRest(s.history, r.from, r.from + |r.carried|);
    WrittenIsWhatWasSent(states, steps, a, k);
    WrittenIsWhatWasSent(states, steps, b, k);
    WrittenIsWhatWasSent(states, steps, a, b);
    Suffixes(states[a].written, SentBy(steps[a..b]), SentBy(steps[b..k]), SentBy(steps[a..k]), s.written);
    NothingBetween(SentBy(steps[a..b]), SentBy(steps[b..k]));
  }

  /** A command written in between, with another replica listed, puts the count out as well. */
  lemma HandoverCanMiss(v: Value) returns (states: seq<State>, steps: seq<Step>)
    requires Readable(v, MAX_DEPTH)
    ensures Run(states, steps) && |steps| == 5 && |states[5].replicas| == 2
    ensures var s, r := states[5], states[5].replicas[1];
            && s.history == [v] && r.agreed == 0 && r.from == 1
            && r.offset + |r.heard| + |r.wire| + |Encode(v)| == s.offset
  {
    hide Encode, Readable;
    steps := [Agree, Join(0), Agree, Send(v), Join(0)];
    var a := Next(START, Agree);
    var b := Next(a, Join(0));
    var c := Next(b, Agree);
    var d := Next(c, Send(v));
    states := [START, a, b, c, d, Next(d, Join(0))];
  }

  /** With no other replica listed the counts agree, and the command is lost all the same. */
  lemma FirstHandoverCanMiss(v: Value) returns (states: seq<State>, steps: seq<Step>)
    requires Readable(v, MAX_DEPTH) && !AsksHowFar(v)
    ensures Run(states, steps) && steps == [Agree, Send(v), Join(0)] && |states[3].replicas| == 1
    ensures var s, r := states[3], states[3].replicas[0];
            && r.agreed == r.from == 0 && r.offset == s.offset && s.history == []
            && r.carried == [] && r.heard == [] && r.wire == []
            && s.written == [v] && r.since == 0 && Told(s.written) == [v]
  {
    hide Encode, Readable, AsksHowFar;
    steps := [Agree, Send(v), Join(0)];
    var a := Next(START, Agree);
    var b := Next(a, Send(v));
    states := [START, a, b, Next(b, Join(0))];
    assert b.written == [v] && [v][1..] == [];
  }

  /** A replica a `WAIT` counts has dealt with all it was sent, and all that was written, from its joining to the `WAIT`. */
  lemma CountedHaveCarriedOut(states: seq<State>, steps: seq<Step>, k: nat, w: nat, i: nat)
    requires Run(states, steps) && k < |states| && w < |states[k].waits| && i < |states[k].replicas|
    requires var wait := states[k].waits[w]; !wait.Answered? && states[k].replicas[i].reached >= wait.target
    ensures var s, wait, r := states[k], states[k].waits[w], states[k].replicas[i];
            && wait.at <= r.from + |r.carried| <= |s.history|
            && r.carried == s.history[r.from..r.from + |r.carried|]
            && (r.from <= wait.at ==> s.history[r.from..wait.at] <= r.carried)
            && wait.wrote <= |s.written|
            && (r.joined <= wait.wrote ==> s.written[r.joined..wait.wrote] <= r.carried)
  {
    hide EncodeAll, Possible, Next, Size;
    RunsKeepInv(states, steps, k);
    RunsKeepNoted(states, steps, k);
    var s, wait, r := states[k], states[k].waits[w], states[k].replicas[i];
    assert Fits(s.history, r) && WaitFits(s, wait) && Timed(s, wait) && Aligned(wait, r) && Placed(s, r);
    var done := r.from + |r.carried|;
    SizeGrows(s.history, r.from, r.agreed);
    SizeGrows(s.history, done, wait.at);
    if r.from <= wait.at {
      PartOfStretch(s.history, r.from, wait.at, done);
    }
    if r.joined <= wait.wrote {
      var n := wait.wrote - r.joined;
      assert s.written[r.joined..wait.wrote] == s.written[r.joined..][..n];
      assert s.history[r.from..wait.at] == s.history[r.from..][..n];
    }
  }

  lemma PartOfStretch(history: seq<Value>, from: nat, at: nat, to: nat)
    requires from <= at <= to <= |history|
    ensures history[from..at] <= history[from..to]
  {
    assert history[from..at] == history[from..to][..at - from];
  }

  /** A parked `WAIT` that has not been stirred, and is about to be by no one, is right to be waiting. */
  lemma ParkedIsShort(states: seq<State>, steps: seq<Step>, k: nat, w: nat)
    requires Run(states, steps) && k < |states| && w < |states[k].waits|
    requires states[k].waits[w].Parked? && !states[k].waits[w].stirred && !SomeoneTelling(states[k].replicas)
    ensures CaughtUp(states[k].replicas, states[k].waits[w].target) < states[k].waits[w].wanted
  {
    RunsKeepInv(states, steps, k);
    assert WaitFits(states[k], states[k].waits[w]);
  }

  // ----- Once everything has arrived -----

  /** Nothing is on its way to or from anyone. */
  predicate Quiet(s: State) {
    forall i :: 0 <= i < |s.replicas| ==>
      s.replicas[i].heard == [] && s.replicas[i].wire == [] && s.replicas[i].reports == [] && !s.replicas[i].telling
  }

  /** It was sent the question this `WAIT` asked. */
  predicate WasAsked(s: State, wait: Wait, r: Replica)
    requires wait.Looking? || wait.Parked?
  {
    r.from <= wait.asked < |s.history| && s.history[wait.asked] == Ask()
  }

  lemma AskAsks()
    ensures AsksHowFar(Ask())
  {
    var parts := Ask().values;
    assert parts[0] == BulkString(REPLCONF) && parts[1] == BulkString(GETACK);
    assert Commands.Uppercased(REPLCONF) == REPLCONF && Commands.Uppercased(GETACK) == GETACK;
  }

  /** The question goes to every replica being sent to. */
  lemma AskReachesEveryone(s: State, w: nat, i: nat)
    requires Inv(s) && Possible(s, AskAround(w)) && i < |s.replicas|
    ensures var s' := Next(s, AskAround(w));
            WasAsked(s', s'.waits[w], s'.replicas[i])
  {
    hide EncodeAll, Encode, Ask;
    assert Fits(s.history, s.replicas[i]);
  }

  /** The last question a replica was sent came at least `target` bytes past the ones it missed. */
  predicate AskedLateEnough(history: seq<Value>, r: Replica, target: nat)
    requires r.agreed <= |history| && r.from <= |history|
  {
    var last := LastQuestion(history[r.from..]);
    last >= 0 && Size(history, r.from + last) >= target + Missed(history, r)
  }

  lemma HeardEverything(history: seq<Value>, r: Replica)
    requires AllReadable(history, MAX_DEPTH) && Following(history, r)
    requires r.heard == [] && r.wire == []
    ensures r.from + |r.carried| == |history| && r.carried == history[r.from..]
  {
    hide Encode;
    var done := r.from + |r.carried|;
    assert EncodeAll(history[done..]) == [];
    assert history[done..|history|] == history[done..];
    SizeOfStretch(history, done, |history|);
    SizeGrows(history, done, |history|);
  }

  /** With nothing on its way, a replica is counted for exactly the targets its last question reaches. */
  lemma CountedWhenAskedLateEnough(history: seq<Value>, r: Replica, target: nat)
    requires AllReadable(history, MAX_DEPTH) && Fits(history, r) && target > 0
    requires r.heard == [] && r.wire == [] && r.reports == []
    ensures r.reached >= target <==> AskedLateEnough(history, r, target)
  {
    hide EncodeAll, AsksHowFar, Size, LastQuestion;
    HeardEverything(history, r);
  }

  /** A replica that was asked, and that was sent nothing between its agreement and its joining, is counted. */
  lemma AskedAndWholeIsCounted(s: State, wait: Wait, r: Replica)
    requires AllReadable(s.history, MAX_DEPTH) && Fits(s.history, r)
    requires wait.Looking? || wait.Parked?
    requires WaitFits(s, wait) && WasAsked(s, wait, r) && Missed(s.history, r) == 0
    ensures AskedLateEnough(s.history, r, wait.target)
  {
    hide Encode, EncodeAll, Ask, AsksHowFar, Size, SomeoneTelling, CaughtUp, LastQuestion;
    AskAsks();
    var sent := s.history[r.from..];
    assert AsksHowFar(sent[wait.asked - r.from]);
    var last := LastQuestion(sent);
    assert last >= wait.asked - r.from;
    SizeGrows(s.history, r.from + last, wait.at);
  }

  function HowManyAskedLateEnough(history: seq<Value>, replicas: seq<Replica>, target: nat): nat
    requires forall i :: 0 <= i < |replicas| ==> replicas[i].agreed <= |history| && replicas[i].from <= |history|
  {
    if replicas == [] then 0
    else
      (if AskedLateEnough(history, replicas[0], target) then 1 else 0)
      + HowManyAskedLateEnough(history, replicas[1..], target)
  }

  lemma {:induction false} CountIsOfThoseAsked(history: seq<Value>, replicas: seq<Replica>, target: nat)
    requires forall i :: 0 <= i < |replicas| ==> replicas[i].agreed <= |history| && replicas[i].from <= |history|
    requires forall i :: 0 <= i < |replicas| ==>
               (replicas[i].reached >= target <==> AskedLateEnough(history, replicas[i], target))
    ensures CaughtUp(replicas, target) == HowManyAskedLateEnough(history, replicas, target)
    decreases |replicas|
  {
    hide AskedLateEnough;
    if replicas != [] {
      var rest := replicas[1..];
      assert forall i :: 0 <= i < |rest| ==> rest[i] == replicas[i + 1];
      CountIsOfThoseAsked(history, rest, target);
    }
  }

  /**
   Once everything has arrived, whom a `WAIT` counts is settled by the history
   alone: those asked late enough for what their handover missed, and no one else.
   One still parked has fewer of those than it wants, so no report has been lost.
   */
  lemma QuietWaitWantsMore(states: seq<State>, steps: seq<Step>, k: nat, w: nat)
    requires Run(states, steps) && k < |states| && w < |states[k].waits|
    requires Quiet(states[k]) && !states[k].waits[w].Answered?
    ensures var s, wait := states[k], states[k].waits[w];
            && (forall i :: 0 <= i < |s.replicas| ==>
                  && s.replicas[i].agreed <= |s.history| && s.replicas[i].from <= |s.history|
                  && (s.replicas[i].reached >= wait.target <==> AskedLateEnough(s.history, s.replicas[i], wait.target)))
            && CaughtUp(s.replicas, wait.target) == HowManyAskedLateEnough(s.history, s.replicas, wait.target)
            && (wait.Parked? && !wait.stirred ==>
                  HowManyAskedLateEnough(s.history, s.replicas, wait.target) < wait.wanted)
  {
    hide EncodeAll, Possible, Next, Size, Honest, CaughtUp, Ask, HowManyAskedLateEnough, AskedLateEnough;
    RunsKeepInv(states, steps, k);
    var s, wait := states[k], states[k].waits[w];
    assert WaitFits(s, wait);
    forall i | 0 <= i < |s.replicas|
      ensures s.replicas[i].agreed <= |s.history| && s.replicas[i].from <= |s.history|
      ensures s.replicas[i].reached >= wait.target <==> AskedLateEnough(s.history, s.replicas[i], wait.target)
    {
      assert Fits(s.history, s.replicas[i]);
      CountedWhenAskedLateEnough(s.history, s.replicas[i], wait.target);
    }
    CountIsOfThoseAsked(s.history, s.replicas, wait.target);
  }

  // ----- A `WAIT` that is never answered -----

  lemma Extended(states: seq<State>, steps: seq<Step>, step: Step) returns (states': seq<State>, steps': seq<Step>)
    requires Run(states, steps) && Possible(states[|steps|], step)
    ensures steps' == steps + [step] && Run(states', steps') && |states'| == |steps'| + 1
    ensures states'[|steps'|] == Next(states[|steps|], step)
  {
    hide Possible, Next;
    steps', states' := steps + [step], states + [Next(states[|steps|], step)];
    forall k | 0 <= k < |steps'|
      ensures Possible(states'[k], steps'[k]) && states'[k + 1] == Next(states'[k], steps'[k])
    {
      if k < |steps| {
        assert steps'[k] == steps[k] && states'[k] == states[k];
      }
    }
  }

  /** Two replicas, the second handed over around a command; a `WAIT` for both has asked them. */
  function BothAsked(v: Value): State {
    var e, q := Encode(v), Encode(Ask());
    State([v, Ask()], [v, Ask()], |e| + |q|, [],
          [Replica(0, 0, 0, 0, [], [], e + q, 0, [], 0, false), Replica(0, 1, 0, 1, [], [], q, 0, [], 0, false)],
          [Looking(|e|, 1, 1, 2, 1, false)])
  }

  /** The same once both have heard everything and their reports are on the way. */
  function BothHeard(v: Value): State {
    var e, q := Encode(v), Encode(Ask());
    BothAsked(v).(replicas :=
      [Replica(0, 0, 0, 0, [v, Ask()], [], [], |e| + |q|, [|e|], 0, false),
       Replica(0, 1, 0, 1, [Ask()], [], [], |q|, [0], 0, false)])
  }

  /** And once the reports are in and those waiting have been told. */
  function BothReported(v: Value): State {
    var e, q := Encode(v), Encode(Ask());
    BothAsked(v).(replicas :=
      [Replica(0, 0, 0, 0, [v, Ask()], [], [], |e| + |q|, [], |e|, false),
       Replica(0, 1, 0, 1, [Ask()], [], [], |q|, [], 0, false)],
      waits := [Looking(|e|, 1, 1, 2, 1, true)])
  }

  lemma FirstIsListed()
    ensures Possible(START, Agree) && Possible(Next(START, Agree), Join(0))
    ensures var s := Next(Next(START, Agree), Join(0));
            s == State([], [], 0, [], [Replica(0, 0, 0, 0, [], [], [], 0, [], 0, false)], [])
  {
  }

  lemma HandedOverAround(v: Value, s: State)
    requires s == State([], [], 0, [], [Replica(0, 0, 0, 0, [], [], [], 0, [], 0, false)], [])
    ensures var e, told := Encode(v), Next(s, Agree);
            var sent := Sent(told, v);
            && sent.joining == [Joining(0, 0, 0)]
            && Joined(sent, 0) == State([v], [v], |e|, [],
                 [Replica(0, 0, 0, 0, [], [], e, 0, [], 0, false), Replica(0, 1, 0, 1, [], [], [], 0, [], 0, false)], [])
  {
    hide Encode;
    var e, sent := Encode(v), Sent(Next(s, Agree), v);
    assert [] + e == e;
    assert sent.replicas == [Replica(0, 0, 0, 0, [], [], e, 0, [], 0, false)];
  }

  lemma AskedBoth(v: Value, s: State)
    requires |Encode(v)| > 0
    requires s == State([v], [v], |Encode(v)|, [],
               [Replica(0, 0, 0, 0, [], [], Encode(v), 0, [], 0, false), Replica(0, 1, 0, 1, [], [], [], 0, [], 0, false)], [])
    ensures var begun := Next(s, Begin(2));
            && begun.waits == [Beginning(|Encode(v)|, 1, 1, 2)]
            && Next(begun, AskAround(0)) == BothAsked(v)
  {
    hide Encode, Ask;
    var q, asked := Encode(Ask()), Sent(Next(s, Begin(2)), Ask());
    assert [] + q == q;
    assert asked.replicas == BothAsked(v).replicas;
  }

  lemma AskingBoth(v: Value) returns (states: seq<State>, steps: seq<Step>)
    requires Readable(v, MAX_DEPTH)
    ensures Run(states, steps) && states[|steps|] == BothAsked(v)
  {
    hide Encode, Readable, Run, Next, BothAsked;
    EncodedIsNotEmpty(v);
    states, steps := JustStarted();
    FirstIsListed();
    states, steps := Extended(states, steps, Agree);
    states, steps := Extended(states, steps, Join(0));
    HandedOverAround(v, states[|steps|]);
    states, steps := Extended(states, steps, Agree);
    NextIsSent(states[|steps|], v);
    states, steps := Extended(states, steps, Send(v));
    NextIsJoined(states[|steps|], 0);
    states, steps := Extended(states, steps, Join(0));
    AskedBoth(v, states[|steps|]);
    states, steps := Extended(states, steps, Begin(2));
    states, steps := Extended(states, steps, AskAround(0));
  }

  lemma JustStarted() returns (states: seq<State>, steps: seq<Step>)
    ensures Run(states, steps) && |states| == |steps| + 1 && states[|steps|] == START
  {
    states, steps := [START], [];
  }

  lemma NextIsSent(s: State, v: Value)
    requires Readable(v, MAX_DEPTH)
    ensures Next(s, Send(v)) == Sent(s, v)
  {
  }

  lemma NextIsJoined(s: State, j: nat)
    requires j < |s.joining|
    ensures Next(s, Join(j)) == Joined(s, j)
  {
  }

  lemma EncodedIsNotEmpty(v: Value)
    requires Readable(v, MAX_DEPTH)
    ensures |Encode(v)| > 0
  {
    hide Encode;
    RoundTrip(v, [], 0);
    NothingToParse();
    assert Encode(v) + [] == Encode(v);
  }

  lemma FirstHears(v: Value)
    requires Readable(v, MAX_DEPTH) && !AsksHowFar(v)
    ensures var n := |Encode(v)| + |Encode(Ask())|;
            && n == |BothAsked(v).replicas[0].wire|
            && Heard(Heard(Delivered(BothAsked(v).replicas[0], n))) == BothHeard(v).replicas[0]
  {
    hide Encode, Readable, Ask, AsksHowFar, Parse;
    var e, q := Encode(v), Encode(Ask());
    AskAsks();
    AskReadable();
    RoundTrip(v, q, 0);
    RoundTrip(Ask(), [], 0);
    assert q + [] == q && (e + q)[|e|..] == q && q[|q|..] == [] && [] + (e + q) == e + q;
    var all := Delivered(BothAsked(v).replicas[0], |e| + |q|);
    assert all.heard == e + q && all.wire == [];
    assert Heard(all) == Replica(0, 0, 0, 0, [v], q, [], |e|, [], 0, false);
    assert [v] + [Ask()] == [v, Ask()];
  }

  lemma SecondHears(v: Value)
    ensures var n := |Encode(Ask())|;
            && n == |BothAsked(v).replicas[1].wire|
            && Heard(Delivered(BothAsked(v).replicas[1], n)) == BothHeard(v).replicas[1]
  {
    hide Encode, Ask, AsksHowFar, Parse;
    var q := Encode(Ask());
    AskAsks();
    AskReadable();
    RoundTrip(Ask(), [], 0);
    assert q + [] == q && q[|q|..] == [] && [] + q == q;
    var all := Delivered(BothAsked(v).replicas[1], |q|);
    assert all.heard == q && all.wire == [];
  }

  lemma HearingBoth(v: Value, states: seq<State>, steps: seq<Step>) returns (states': seq<State>, steps': seq<Step>)
    requires Readable(v, MAX_DEPTH) && !AsksHowFar(v)
    requires Run(states, steps) && states[|steps|] == BothAsked(v)
    ensures Run(states', steps') && states'[|steps'|] == BothHeard(v)
  {
    hide Encode, Readable, Ask, AsksHowFar, Delivered, Heard, Run;
    FirstHears(v);
    SecondHears(v);
    states', steps' := Extended(states, steps, Deliver(0, |Encode(v)| + |Encode(Ask())|));
    states', steps' := Extended(states', steps', Hear(0));
    states', steps' := Extended(states', steps', Hear(0));
    states', steps' := Extended(states', steps', Deliver(1, |Encode(Ask())|));
    states', steps' := Extended(states', steps', Hear(1));
    assert states'[|steps'|].replicas == BothHeard(v).replicas;
  }

  lemma ReportingBoth(v: Value, states: seq<State>, steps: seq<Step>) returns (states': seq<State>, steps': seq<Step>)
    requires Run(states, steps) && states[|steps|] == BothHeard(v)
    ensures Run(states', steps') && states'[|steps'|] == BothReported(v)
  {
    hide Encode, Ask, AsksHowFar, Run;
    var first, second := BothHeard(v).replicas[0], BothHeard(v).replicas[1];
    assert Reported(first).(telling := false) == BothReported(v).replicas[0];
    assert Reported(second).(telling := false) == BothReported(v).replicas[1];
    assert Stirred(Stirred(BothHeard(v).waits)) == BothReported(v).waits;
    states', steps' := Extended(states, steps, Report(0));
    states', steps' := Extended(states', steps', Notify(0));
    states', steps' := Extended(states', steps', Report(1));
    states', steps' := Extended(states', steps', Notify(1));
    assert states'[|steps'|].replicas == BothReported(v).replicas;
    assert states'[|steps'|].waits == BothReported(v).waits;
  }

  /**
   A `WAIT` asks both replicas it wants, both answer, everything arrives, and it
   is left parked: the second reports less than it was asked for by what its
   handover missed, and nothing will ask it again on this `WAIT`'s behalf.
   */
  lemma WaitCanStayParked(v: Value) returns (states: seq<State>, steps: seq<Step>)
    requires Readable(v, MAX_DEPTH) && !AsksHowFar(v)
    ensures Run(states, steps)
    ensures var s := states[|steps|];
            && Quiet(s) && |s.replicas| == 2 && |s.waits| == 1
            && s.waits[0].Parked? && !s.waits[0].stirred && s.waits[0].wanted == 2
            && WasAsked(s, s.waits[0], s.replicas[0]) && WasAsked(s, s.waits[0], s.replicas[1])
  {
    hide Encode, Ask, AsksHowFar, Parse;
    EncodedIsNotEmpty(v);
    states, steps := AskingBoth(v);
    states, steps := HearingBoth(v, states, steps);
    states, steps := ReportingBoth(v, states, steps);
    var replicas := BothReported(v).replicas;
    assert CaughtUp(replicas, |Encode(v)|) == 1 by {
      assert replicas[1..][1..] == [];
    }
    states, steps := Extended(states, steps, Look(0));
    states, steps := Extended(states, steps, Wake(0));
    states, steps := Extended(states, steps, Look(0));
  }

  // ----- What a `WAIT` answers -----

  function Counted(replicas: seq<Replica>, target: nat): set<nat> {
    set i: nat | i < |replicas| && replicas[i].reached >= target
  }

  lemma {:induction false} CaughtUpIsSize(replicas: seq<Replica>, target: nat)
    ensures CaughtUp(replicas, target) == |Counted(replicas, target)|
    decreases |replicas|
  {
    hide CaughtUp;
    if replicas == [] {
      CaughtUpNone(target);
      assert Counted(replicas, target) == {};
    } else {
      var last := |replicas| - 1;
      var front := replicas[..last];
      CaughtUpIsSize(front, target);
      assert replicas[..last + 1] == replicas;
      CaughtUpSnoc(replicas, last, target);
      assert Counted(replicas, target) == Counted(front, target) + if replicas[last].reached >= target then {last} else {};
    }
  }

  /** What a `WAIT` is after: never changed once it has begun. */
  predicate OnTheTermsOf(wait: Wait, begun: State, wanted: int) {
    && !wait.Answered?
    && wait.target == begun.offset && wait.at == |begun.history| && wait.wrote == |begun.written|
    && wait.wanted == wanted
  }

  lemma StepKeepsTerms(s: State, step: Step, w: nat)
    requires Possible(s, step) && w < |s.waits|
    ensures var s' := Next(s, step);
            && w < |s'.waits|
            && (s.waits[w].Answered? ==> s'.waits[w] == s.waits[w])
            && (!s.waits[w].Answered? && !s'.waits[w].Answered? ==>
                  && s'.waits[w].target == s.waits[w].target && s'.waits[w].at == s.waits[w].at
                  && s'.waits[w].wrote == s.waits[w].wrote && s'.waits[w].wanted == s.waits[w].wanted)
            && (!s.waits[w].Answered? && s'.waits[w].Answered? ==> step == Look(w) || step == GiveUp(w))
  {
    hide Encode, Parse, Ask, AsksHowFar, CaughtUp, SentTo;
  }

  lemma {:induction false} WaitKeepsItsTerms(states: seq<State>, steps: seq<Step>, b: nat, k: nat)
    requires Run(states, steps) && b < k < |states| && steps[b].Begin?
    requires |states[b].waits| < |states[k].waits| && !states[k].waits[|states[b].waits|].Answered?
    ensures OnTheTermsOf(states[k].waits[|states[b].waits|], states[b], steps[b].wanted)
    decreases k
  {
    hide Next, Possible;
    var w, before := |states[b].waits|, states[k - 1];
    assert Possible(before, steps[k - 1]) && states[k] == Next(before, steps[k - 1]);
    if b == k - 1 {
      BeginsOnTerms(before, steps[b].wanted);
    } else {
      StillThere(states, steps, b, k - 1);
      StepKeepsTerms(before, steps[k - 1], w);
      WaitKeepsItsTerms(states, steps, b, k - 1);
    }
  }

  /** Where nothing has been passed on there is nothing to wait for, and everyone listed is counted. */
  lemma BeginsOnTerms(s: State, wanted: int)
    ensures var begun := Next(s, Begin(wanted)).waits;
            && |begun| == |s.waits| + 1
            && var wait := begun[|s.waits|];
               if s.offset == 0 then wait == Answered(|s.replicas|) else OnTheTermsOf(wait, s, wanted)
  {
  }

  lemma {:induction false} StillThere(states: seq<State>, steps: seq<Step>, b: nat, k: nat)
    requires Run(states, steps) && b < k < |states| && steps[b].Begin?
    ensures |states[b].waits| < |states[k].waits|
    decreases k
  {
    hide Next, Possible;
    var before := states[k - 1];
    assert Possible(before, steps[k - 1]) && states[k] == Next(before, steps[k - 1]);
    if b == k - 1 {
      BeginsOnTerms(before, steps[b].wanted);
    } else {
      StillThere(states, steps, b, k - 1);
      StepKeepsTerms(before, steps[k - 1], |states[b].waits|);
    }
  }

  /** A look answers as soon as enough have caught up, and not before; giving up always answers. */
  lemma AnswersWhen(s: State, step: Step, w: nat)
    requires Possible(s, step) && (step == Look(w) || step == GiveUp(w))
    ensures var n, after := |Counted(s.replicas, s.waits[w].target)|, Next(s, step).waits[w];
            && (after.Answered? <==> step.GiveUp? || n >= s.waits[w].wanted)
            && (after.Answered? ==> after.count == n)
  {
    hide CaughtUp, Counted;
    CaughtUpIsSize(s.replicas, s.waits[w].target);
  }

  /**
   The number a `WAIT` answers, over its whole life. Begun at step `b` and
   answered at step `k`, it says how many replicas have reported as much as had
   been passed on when it began: at least as many as were wanted, unless its time
   ran out. Each of those has carried out everything written from its joining to
   the moment the `WAIT` began.
   */
  lemma WaitAnswers(states: seq<State>, steps: seq<Step>, b: nat, k: nat)
    requires Run(states, steps) && b < k < |steps| && steps[b].Begin?
    requires |states[b].waits| < |states[k].waits| && !states[k].waits[|states[b].waits|].Answered?
    requires |states[b].waits| < |states[k + 1].waits| && states[k + 1].waits[|states[b].waits|].Answered?
    ensures var w, begun, s := |states[b].waits|, states[b], states[k];
            var n, counted := states[k + 1].waits[w].count, Counted(s.replicas, begun.offset);
            && (steps[k] == Look(w) || steps[k] == GiveUp(w))
            && n == |counted| && (steps[k].Look? ==> n >= steps[b].wanted)
            && |begun.written| <= |s.written|
            && forall i :: i in counted && s.replicas[i].joined <= |begun.written| ==>
                 s.written[s.replicas[i].joined..|begun.written|] <= s.replicas[i].carried
  {
    hide Next, Possible, CaughtUp;
    var w, s := |states[b].waits|, states[k];
    assert Possible(s, steps[k]) && states[k + 1] == Next(s, steps[k]);
    StepKeepsTerms(s, steps[k], w);
    WaitKeepsItsTerms(states, steps, b, k);
    AnswersWhen(s, steps[k], w);
    RunsKeepNoted(states, steps, k);
    assert Timed(s, s.waits[w]);
    forall i | i in Counted(s.replicas, states[b].offset) && s.replicas[i].joined <= |states[b].written|
      ensures s.written[s.replicas[i].joined..|states[b].written|] <= s.replicas[i].carried
    {
      CountedHaveCarriedOut(states, steps, k, w, i);
    }
  }

  // ----- The master's own list -----

  /**
   One element of the master's vector. `closed` marks a dead connection, which is
   kept in the vector until `Look` prunes it.
   */
  datatype Held = Held(changes: Bytes, reached: nat, closed: bool)

  function Open(held: seq<Held>): (open: seq<Held>) {
    if held == [] then []
    else (if held[0].closed then [] else [held[0]]) + Open(held[1..])
  }

  predicate AllOpen(held: seq<Held>) {
    forall i :: 0 <= i < |held| ==> !held[i].closed
  }

  lemma {:induction false} OpenSnoc(held: seq<Held>, last: Held)
    ensures Open(held + [last]) == Open(held) + Open([last])
  {
    if held == [] {
      assert held + [last] == [last];
    } else {
      assert (held + [last])[1..] == held[1..] + [last];
      OpenSnoc(held[1..], last);
    }
  }

  lemma {:induction false} OpenOfOpen(held: seq<Held>)
    requires AllOpen(held)
    ensures Open(held) == held
  {
    if held != [] {
      OpenOfOpen(held[1..]);
    }
  }

  /** What the master sees of its replicas. */
  function Seen(replicas: seq<Replica>): (held: seq<Held>)
    ensures |held| == |replicas|
  {
    seq(|replicas|, i requires 0 <= i < |replicas| => Held(replicas[i].wire, replicas[i].reached, false))
  }

  class Replicas {
    var following: seq<Held>
    /** Mirrors `State.offset`. */
    var offset: nat

    ghost predicate Shows(s: State)
      reads this
    {
      Open(following) == Seen(s.replicas) && offset == s.offset
    }

    constructor ()
      ensures Shows(START)
    {
      following, offset := [], 0;
    }

    /** Keeps exactly the open elements. */
    method Look()
      modifies this`following
      ensures following == old(Open(following)) && AllOpen(following)
    {
      var kept: seq<Held> := [];
      for i := 0 to |following|
        invariant following == old(following)
        invariant AllOpen(kept) && kept == Open(following[..i])
      {
        assert following[..i + 1] == following[..i] + [following[i]];
        OpenSnoc(following[..i], following[i]);
        if !following[i].closed {
          kept := kept + [following[i]];
        }
      }
      assert following[..|following|] == following;
      following := kept;
    }

    /** Refines `Joined`. */
    method Add(ghost s: State, ghost j: nat)
      requires Shows(s) && j < |s.joining|
      modifies this`following
      ensures Shows(Joined(s, j))
    {
      Look();
      following := following + [Held([], 0, false)];
      OpenOfOpen(following);
      assert following == Seen(Joined(s, j).replicas);
    }

    /** Refines `Sent`: one append per listed replica and one offset update. */
    method Send(command: Value, ghost s: State)
      requires Shows(s)
      modifies this
      ensures Shows(Sent(s, command))
    {
      hide Encode;
      Look();
      OpenOfOpen(following);
      if following == [] {
        return;
      }
      var encoded := EncodeInto(command, []);
      assert [] + Encode(command) == Encode(command);
      ghost var was := following;
      for i := 0 to |following|
        invariant |following| == |was| && AllOpen(following) && offset == s.offset
        invariant forall k :: 0 <= k < i ==> following[k] == was[k].(changes := was[k].changes + encoded)
        invariant forall k :: i <= k < |was| ==> following[k] == was[k]
      {
        following := following[i := following[i].(changes := following[i].changes + encoded)];
      }
      offset := offset + |encoded|;
      OpenOfOpen(following);
      assert following == Seen(Sent(s, command).replicas);
    }

    /** Refines `CaughtUp`, pruning closed connections first. */
    method CaughtUpTo(target: nat, ghost s: State) returns (count: nat)
      requires Shows(s)
      modifies this`following
      ensures Shows(s) && count == CaughtUp(s.replicas, target)
    {
      hide CaughtUp, Open;
      Look();
      OpenOfOpen(following);
      CaughtUpNone(target);
      count := 0;
      assert s.replicas[..0] == [];
      for i := 0 to |following|
        invariant following == Seen(s.replicas)
        invariant count == CaughtUp(s.replicas[..i], target)
      {
        if following[i].reached >= target {
          count := count + 1;
        }
        CaughtUpSnoc(s.replicas, i, target);
      }
      assert s.replicas[..|s.replicas|] == s.replicas;
    }
  }
}
