/** List operations, and the serving of queued `BLPOP` channels after a push. */
module Lists {
  import opened Base
  import opened StoreState
  import opened Search

  datatype Side = Left | Right

  function Reversed(s: seq<Bytes>): (r: seq<Bytes>)
    ensures |r| == |s|
  {
    if s == [] then [] else Reversed(s[1..]) + [s[0]]
  }

  /** A list once some elements have been pushed on one side of it. */
  function Pushed(list: seq<Bytes>, elements: seq<Bytes>, side: Side): (r: seq<Bytes>)
    ensures |r| == |list| + |elements|
  {
    match side
    case Right => list + elements
    case Left => Reversed(elements) + list
  }

  lemma {:induction false} ReversedAt(s: seq<Bytes>, i: nat)
    requires i < |s|
    ensures Reversed(s)[i] == s[|s| - 1 - i]
  {
    if i < |s| - 1 {
      ReversedAt(s[1..], i);
    }
  }

  /** One iteration of a left push, stated on the reversed prefix. */
  lemma {:induction false} PushedOneAtATime(list: seq<Bytes>, elements: seq<Bytes>, i: nat)
    requires i < |elements|
    ensures [elements[i]] + (Reversed(elements[..i]) + list) == Reversed(elements[..i + 1]) + list
  {
    ReversedSnoc(elements[..i], elements[i]);
    assert elements[..i + 1] == elements[..i] + [elements[i]];
  }

  lemma {:induction false} ReversedSnoc(s: seq<Bytes>, x: Bytes)
    ensures Reversed(s + [x]) == [x] + Reversed(s)
  {
    if s != [] {
      ReversedSnoc(s[1..], x);
      assert (s + [x])[1..] == s[1..] + [x];
    } else {
      assert s + [x] == [x] && [x][1..] == [];
    }
  }

  // ----- Handing elements out -----

  datatype Handed = Handed(list: seq<Bytes>, queue: seq<nat>, sent: seq<Delivery>)

  /** The longest-waiting client first; one that has given up is passed over and loses nothing. */
  function Serve(list: seq<Bytes>, queue: seq<nat>, gone: set<nat>): Handed
    decreases |queue|
  {
    if list == [] || queue == [] then Handed(list, queue, [])
    else if queue[0] in gone then Serve(list, queue[1..], gone)
    else
      var later := Serve(list[1..], queue[1..], gone);
      later.(sent := [Delivery(queue[0], list[0])] + later.sent)
  }

  function Open(queue: seq<nat>, gone: set<nat>): seq<nat> {
    Filter(queue, (channel: nat) => channel !in gone)
  }

  lemma OpenStep(queue: seq<nat>, gone: set<nat>)
    requires queue != []
    ensures Open(queue, gone) == (if queue[0] in gone then [] else [queue[0]]) + Open(queue[1..], gone)
  {
  }

  /**
   The i-th client still waiting gets the i-th element, for as many as there are
   of both. The remaining list is the corresponding suffix, and a
   non-empty remainder implies an empty queue.
   */
  lemma {:induction false} ServedInOrder(list: seq<Bytes>, queue: seq<nat>, gone: set<nat>)
    ensures var h, open := Serve(list, queue, gone), Open(queue, gone);
            && |h.sent| == Min(|open|, |list|)
            && (forall i :: 0 <= i < |h.sent| ==> h.sent[i] == Delivery(open[i], list[i]))
            && h.list == list[|h.sent|..]
            && Open(h.queue, gone) == open[|h.sent|..]
            && (h.list != [] ==> h.queue == [])
    decreases |queue|
  {
    hide Open;
    if list != [] && queue != [] {
      OpenStep(queue, gone);
      if queue[0] in gone {
        ServedInOrder(list, queue[1..], gone);
        assert [] + Open(queue[1..], gone) == Open(queue[1..], gone);
      } else {
        ServedInOrder(list[1..], queue[1..], gone);
      }
    } else if queue == [] {
      NobodyOpen(gone);
    }
  }

  lemma NobodyOpen(gone: set<nat>)
    ensures Open([], gone) == []
  {
  }

  /** The remaining queue is a suffix; deliveries go to open channels of the dropped prefix. */
  lemma {:induction false} ServedFromQueue(list: seq<Bytes>, queue: seq<nat>, gone: set<nat>) returns (taken: nat)
    ensures var h := Serve(list, queue, gone);
            && taken <= |queue| && h.queue == queue[taken..]
            && |h.sent| <= taken
            && forall d :: d in h.sent ==> d.channel in queue[..taken] && d.channel !in gone
    decreases |queue|
  {
    if list == [] || queue == [] {
      taken := 0;
    } else if queue[0] in gone {
      var n := ServedFromQueue(list, queue[1..], gone);
      taken := n + 1;
      assert queue[..taken] == [queue[0]] + queue[1..][..n];
    } else {
      var n := ServedFromQueue(list[1..], queue[1..], gone);
      taken := n + 1;
      assert queue[..taken] == [queue[0]] + queue[1..][..n];
    }
  }

  /** No element is lost and none is made: those sent, then those left, are the list. */
  lemma {:induction false} ServedConserves(list: seq<Bytes>, queue: seq<nat>, gone: set<nat>)
    ensures var h := Serve(list, queue, gone);
            seq(|h.sent|, i requires 0 <= i < |h.sent| => h.sent[i].element) + h.list == list
  {
    hide Serve, Open;
    ServedInOrder(list, queue, gone);
  }
}
