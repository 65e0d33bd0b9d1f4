/**
 Streams: entries appended under ids that only ever grow. That the ids grow is
 what lets a range be found by halving, and what lets a reader pick up from the
 last id it saw without missing an entry or meeting one twice.
 */
module Streams {
  import opened Base
  import opened StoreState
  import opened Search

  const ZERO := EntryId(0, 0)

  /** The three forms of id argument: complete, with `*` as sequence, or a bare `*`. */
  datatype RequestedId = Explicit(id: EntryId) | AutoSequence(milliseconds: u64) | Auto

  datatype XaddError = NotAboveZero | NotAboveTop

  predicate IdLess(a: EntryId, b: EntryId) {
    a.milliseconds < b.milliseconds || (a.milliseconds == b.milliseconds && a.sequence < b.sequence)
  }

  predicate IdAtMost(a: EntryId, b: EntryId) {
    !IdLess(b, a)
  }

  ghost predicate Increasing(log: seq<StreamEntry>) {
    && (forall i :: 0 <= i < |log| ==> IdLess(ZERO, log[i].id))
    && (forall i, j :: 0 <= i < j < |log| ==> IdLess(log[i].id, log[j].id))
  }

  function Top(log: seq<StreamEntry>): Option<EntryId> {
    if log == [] then None else Some(log[|log| - 1].id)
  }

  // ----- Appending -----

  /** Completes a requested id from the top entry's id and a clock reading. */
  function Resolve(requested: RequestedId, top: Option<EntryId>, now: u64): Result<EntryId, XaddError> {
    if requested.Explicit? then Ok(requested.id)
    else
      var milliseconds: u64 :=
        if requested.AutoSequence? then requested.milliseconds
        else if top.Some? && top.value.milliseconds > now then top.value.milliseconds
        else now;
      if top.Some? && top.value.milliseconds == milliseconds then
        if top.value.sequence + 1 < U64_END then Ok(EntryId(milliseconds, top.value.sequence + 1))
        else Err(NotAboveTop)
      else if milliseconds == 0 then Ok(EntryId(0, 1))
      else Ok(EntryId(milliseconds, 0))
  }

  /** The id an entry is stored under once it is settled that it is above the last one. */
  function NextId(requested: RequestedId, top: Option<EntryId>, now: u64): Result<EntryId, XaddError> {
    var id := Resolve(requested, top, now);
    if id.Ok? && top.Some? && IdAtMost(id.value, top.value) then Err(NotAboveTop) else id
  }

  /** Asked for outright, an id has to be above `0-0`. */
  predicate AboveZero(requested: RequestedId) {
    requested.Explicit? ==> IdLess(ZERO, requested.id)
  }

  lemma NextIdIsAbove(requested: RequestedId, top: Option<EntryId>, now: u64)
    requires AboveZero(requested) && NextId(requested, top, now).Ok?
    ensures IdLess(ZERO, NextId(requested, top, now).value)
    ensures top.Some? ==> IdLess(top.value, NextId(requested, top, now).value)
  {
  }

  /** The milliseconds a request settles on: its own, or the later of the clock's and the last entry's. */
  function Settled(requested: RequestedId, top: Option<EntryId>, now: u64): u64
    requires !requested.Explicit?
  {
    match requested
    case AutoSequence(milliseconds) => milliseconds
    case Auto => if top.Some? && now < top.value.milliseconds then top.value.milliseconds else now
  }

  predicate Admissible(id: EntryId, top: Option<EntryId>) {
    IdLess(ZERO, id) && (top.Some? ==> IdLess(top.value, id))
  }

  /**
   Which id is given out: the one asked for, or where part was left open, the
   least one at those milliseconds that may be given out at all. One left open is
   refused only where there is none.
   */
  lemma NextIdIsLeast(requested: RequestedId, top: Option<EntryId>, now: u64)
    requires AboveZero(requested)
    ensures requested.Explicit? ==>
              NextId(requested, top, now) == if Admissible(requested.id, top) then Ok(requested.id) else Err(NotAboveTop)
    ensures !requested.Explicit? && NextId(requested, top, now).Ok? ==>
              var id := NextId(requested, top, now).value;
              && id.milliseconds == Settled(requested, top, now) && Admissible(id, top)
              && forall other: EntryId :: other.milliseconds == id.milliseconds && Admissible(other, top) ==> IdAtMost(id, other)
    ensures !requested.Explicit? && NextId(requested, top, now).Err? ==>
              forall other: EntryId :: other.milliseconds == Settled(requested, top, now) ==> !Admissible(other, top)
  {
  }

  /** Appending keeps the ids growing, whatever the clock says. */
  lemma AppendKeepsIncreasing(log: seq<StreamEntry>, requested: RequestedId, fields: seq<(Bytes, Bytes)>, now: u64)
    requires Increasing(log) && AboveZero(requested) && NextId(requested, Top(log), now).Ok?
    ensures Increasing(log + [StreamEntry(NextId(requested, Top(log), now).value, fields)])
  {
    NextIdIsAbove(requested, Top(log), now);
    var id := NextId(requested, Top(log), now).value;
    var more := log + [StreamEntry(id, fields)];
    forall i | 0 <= i < |log|
      ensures IdLess(log[i].id, id)
    {
      assert i < |log| - 1 ==> IdLess(log[i].id, log[|log| - 1].id);
    }
  }

  /** When each kind of request is refused, and nothing else is. */
  lemma RefusedWhen(requested: RequestedId, top: Option<EntryId>, now: u64)
    ensures NextId(requested, top, now).Err? <==>
            top.Some? && match requested
                         case Explicit(id) => IdAtMost(id, top.value)
                         case AutoSequence(milliseconds) =>
                           milliseconds < top.value.milliseconds
                           || (milliseconds == top.value.milliseconds && top.value.sequence == U64_END - 1)
                         case Auto => now <= top.value.milliseconds && top.value.sequence == U64_END - 1
    ensures NextId(requested, top, now).Err? ==> NextId(requested, top, now).error == NotAboveTop
  {
  }

  // ----- Reading -----

  /** A slice `first..last`, which the program cannot take where `first` is past `last`. */
  datatype Slice = Entries(entries: seq<StreamEntry>) | OutOfOrder

  function Range(log: seq<StreamEntry>, start: EntryId, end: EntryId): Slice {
    var first := Leading(log, (entry: StreamEntry) => IdLess(entry.id, start));
    var last := Leading(log, (entry: StreamEntry) => IdAtMost(entry.id, end));
    if first <= last then Entries(log[first..last]) else OutOfOrder
  }

  function ReadAfter(log: seq<StreamEntry>, after: EntryId): seq<StreamEntry> {
    log[Leading(log, (entry: StreamEntry) => IdAtMost(entry.id, after))..]
  }

  lemma IncreasingIsPartitioned(log: seq<StreamEntry>, id: EntryId)
    requires Increasing(log)
    ensures Partitioned(log, (entry: StreamEntry) => IdLess(entry.id, id))
    ensures Partitioned(log, (entry: StreamEntry) => IdAtMost(entry.id, id))
  {
  }

  /** Where a test holds up to some place and no further, its leading run ends there. */
  lemma LeadingSplits<T(!new)>(s: seq<T>, test: T -> bool)
    requires Partitioned(s, test)
    ensures forall i :: 0 <= i < |s| ==> (test(s[i]) <==> i < Leading(s, test))
  {
  }

  method RangeByHalving(log: seq<StreamEntry>, start: EntryId, end: EntryId) returns (r: Slice)
    requires Increasing(log)
    ensures r == Range(log, start, end)
  {
    IncreasingIsPartitioned(log, start);
    IncreasingIsPartitioned(log, end);
    var first := PartitionPoint(log, (entry: StreamEntry) => IdLess(entry.id, start));
    var last := PartitionPoint(log, (entry: StreamEntry) => IdAtMost(entry.id, end));
    r := if first <= last then Entries(log[first..last]) else OutOfOrder;
  }

  method ReadAfterByHalving(log: seq<StreamEntry>, after: EntryId) returns (r: seq<StreamEntry>)
    requires Increasing(log)
    ensures r == ReadAfter(log, after)
  {
    IncreasingIsPartitioned(log, after);
    var first := PartitionPoint(log, (entry: StreamEntry) => IdAtMost(entry.id, after));
    r := log[first..];
  }

  predicate InRange(entry: StreamEntry, start: EntryId, end: EntryId) {
    IdAtMost(start, entry.id) && IdAtMost(entry.id, end)
  }

  /** A range is the plain filter, except where it cannot be taken at all: when an entry lies between `end` and `start`. */
  lemma RangeIsFilter(log: seq<StreamEntry>, start: EntryId, end: EntryId)
    requires Increasing(log)
    ensures Range(log, start, end).OutOfOrder? <==>
            exists i :: 0 <= i < |log| && IdLess(end, log[i].id) && IdLess(log[i].id, start)
    ensures Range(log, start, end).Entries? ==>
              Range(log, start, end).entries == Filter(log, (entry: StreamEntry) => InRange(entry, start, end))
  {
    hide IdLess;
    var before, upTo := (entry: StreamEntry) => IdLess(entry.id, start), (entry: StreamEntry) => IdAtMost(entry.id, end);
    IncreasingIsPartitioned(log, start);
    IncreasingIsPartitioned(log, end);
    LeadingSplits(log, before);
    LeadingSplits(log, upTo);
    var first, last := Leading(log, before), Leading(log, upTo);
    if first <= last {
      FilterIsSlice(log, (entry: StreamEntry) => InRange(entry, start, end), first, last);
    } else {
      assert upTo(log[last]) <==> last < last;
      assert before(log[last]) <==> last < first;
    }
  }

  /** A client asking for a window that runs backwards can bring the slice down. */
  lemma BackwardsRangeExample()
    ensures Range([StreamEntry(EntryId(2, 0), [])], EntryId(3, 0), EntryId(1, 0)) == OutOfOrder
  {
    var log := [StreamEntry(EntryId(2, 0), [])];
    assert Leading(log[1..], (entry: StreamEntry) => IdLess(entry.id, EntryId(3, 0))) == 0;
  }

  lemma ReadAfterIsFilter(log: seq<StreamEntry>, after: EntryId)
    requires Increasing(log)
    ensures ReadAfter(log, after) == Filter(log, (entry: StreamEntry) => IdLess(after, entry.id))
  {
    hide IdLess;
    var upTo := (entry: StreamEntry) => IdAtMost(entry.id, after);
    IncreasingIsPartitioned(log, after);
    LeadingSplits(log, upTo);
    FilterIsSlice(log, (entry: StreamEntry) => IdLess(after, entry.id), Leading(log, upTo), |log|);
  }

  // ----- Following a stream -----

  datatype Event = Append(requested: RequestedId, fields: seq<(Bytes, Bytes)>, clock: u64) | Poll

  /** A stream and a client that reads on from the last id it saw. */
  datatype Follower = Follower(log: seq<StreamEntry>, after: EntryId, seen: seq<StreamEntry>)

  function Happened(f: Follower, event: Event): Follower {
    match event
    case Append(requested, fields, clock) =>
      if !AboveZero(requested) then f
      else
        var id := NextId(requested, Top(f.log), clock);
        if id.Ok? then f.(log := f.log + [StreamEntry(id.value, fields)]) else f
    case Poll =>
      var read := ReadAfter(f.log, f.after);
      if read == [] then f else f.(seen := f.seen + read, after := read[|read| - 1].id)
  }

  function HappenedAll(f: Follower, events: seq<Event>): Follower {
    if events == [] then f else Happened(HappenedAll(f, events[..|events| - 1]), events[|events| - 1])
  }

  /** How many entries of a log are at or below an id. */
  function UpTo(log: seq<StreamEntry>, id: EntryId): nat {
    Leading(log, (entry: StreamEntry) => IdAtMost(entry.id, id))
  }

  /**
   What has been seen is the stretch of the log between where the client began
   and where it has got, which is where it began or no further than the log goes.
   */
  ghost predicate Following(f: Follower, start: EntryId) {
    && Increasing(f.log)
    && UpTo(f.log, start) <= UpTo(f.log, f.after)
    && f.seen == f.log[UpTo(f.log, start)..UpTo(f.log, f.after)]
    && (f.after == start || (f.log != [] && IdLess(start, f.after) && IdAtMost(f.after, f.log[|f.log| - 1].id)))
  }

  lemma UpToKept(log: seq<StreamEntry>, entry: StreamEntry, id: EntryId)
    requires IdLess(id, entry.id)
    ensures UpTo(log + [entry], id) == UpTo(log, id)
  {
    var upTo := (e: StreamEntry) => IdAtMost(e.id, id);
    var n := Leading(log, upTo);
    assert forall i :: 0 <= i < n ==> (log + [entry])[i] == log[i];
    LeadingIs(log + [entry], upTo, n);
  }

  lemma UpToTop(log: seq<StreamEntry>, k: nat)
    requires Increasing(log) && k < |log|
    ensures UpTo(log, log[k].id) == k + 1
  {
    LeadingIs(log, (entry: StreamEntry) => IdAtMost(entry.id, log[k].id), k + 1);
  }

  lemma AboveStart(log: seq<StreamEntry>, start: EntryId)
    requires Increasing(log) && UpTo(log, start) < |log|
    ensures IdLess(start, log[|log| - 1].id)
  {
    IncreasingIsPartitioned(log, start);
    LeadingSplits(log, (entry: StreamEntry) => IdAtMost(entry.id, start));
  }

  lemma PollKeepsFollowing(f: Follower, start: EntryId)
    requires Following(f, start)
    ensures Following(Happened(f, Poll), start)
  {
    hide Increasing, UpTo, ReadAfter;
    var from, n := UpTo(f.log, start), UpTo(f.log, f.after);
    var read := ReadAfter(f.log, f.after);
    ReadAfterIsRest(f.log, f.after);
    if read != [] {
      assert read[|read| - 1] == f.log[|f.log| - 1];
      UpToTop(f.log, |f.log| - 1);
      AboveStart(f.log, start);
      assert f.log[from..n] + f.log[n..] == f.log[from..|f.log|];
    }
  }

  lemma ReadAfterIsRest(log: seq<StreamEntry>, after: EntryId)
    ensures UpTo(log, after) <= |log| && ReadAfter(log, after) == log[UpTo(log, after)..]
  {
  }

  lemma StillBelow(start: EntryId, after: EntryId, top: EntryId, id: EntryId)
    requires IdLess(start, after) && IdAtMost(after, top) && IdLess(top, id)
    ensures IdLess(start, id) && IdLess(after, id) && IdAtMost(after, id)
  {
  }

  lemma StretchOfLonger(log: seq<StreamEntry>, entry: StreamEntry, from: nat, to: nat)
    requires from <= to <= |log|
    ensures (log + [entry])[from..to] == log[from..to]
  {
  }

  lemma AppendKeepsFollowing(f: Follower, start: EntryId, entry: StreamEntry)
    requires Following(f, start) && Increasing(f.log + [entry])
    requires f.log != [] ==> IdLess(f.log[|f.log| - 1].id, entry.id)
    ensures Following(f.(log := f.log + [entry]), start)
  {
    hide Increasing, UpTo, ReadAfter, IdLess, IdAtMost;
    var more := f.log + [entry];
    var from, n := UpTo(f.log, start), UpTo(f.log, f.after);
    ReadAfterIsRest(f.log, f.after);
    ReadAfterIsRest(more, start);
    if f.after != start {
      StillBelow(start, f.after, f.log[|f.log| - 1].id, entry.id);
      UpToKept(f.log, entry, f.after);
      UpToKept(f.log, entry, start);
      StretchOfLonger(f.log, entry, from, n);
    }
  }

  lemma HappenedKeepsFollowing(f: Follower, start: EntryId, event: Event)
    requires Following(f, start)
    ensures Following(Happened(f, event), start) && f.log <= Happened(f, event).log
  {
    hide Increasing, UpTo, IdLess, Following;
    match event {
      case Poll =>
        PollKeepsFollowing(f, start);
      case Append(requested, fields, clock) =>
        LogIncreases(f, start);
        if AboveZero(requested) && NextId(requested, Top(f.log), clock).Ok? {
          AppendKeepsIncreasing(f.log, requested, fields, clock);
          NextIdIsAbove(requested, Top(f.log), clock);
          AppendKeepsFollowing(f, start, StreamEntry(NextId(requested, Top(f.log), clock).value, fields));
        }
    }
  }

  lemma LogIncreases(f: Follower, start: EntryId)
    requires Following(f, start)
    ensures Increasing(f.log)
  {
  }

  lemma {:induction false} FollowingAll(log: seq<StreamEntry>, start: EntryId, events: seq<Event>)
    requires Increasing(log)
    ensures var f := HappenedAll(Follower(log, start, []), events);
            Following(f, start) && log <= f.log
    decreases |events|
  {
    hide Increasing, UpTo, IdLess, Happened;
    if events == [] {
      ReadAfterIsRest(log, start);
      assert log[UpTo(log, start)..UpTo(log, start)] == [];
    } else {
      FollowingAll(log, start, events[..|events| - 1]);
      HappenedKeepsFollowing(HappenedAll(Follower(log, start, []), events[..|events| - 1]), start, events[|events| - 1]);
    }
  }

  /**
   Whatever is appended and however the reads fall between, a client reading on
   from the last id it saw is handed each entry above its starting id exactly
   once and in order: what it has seen, followed by what it would read next, is
   all the log holds above that id.
   */
  lemma SeenExactlyOnce(log: seq<StreamEntry>, start: EntryId, events: seq<Event>)
    requires Increasing(log)
    ensures var f := HappenedAll(Follower(log, start, []), events);
            && Increasing(f.log) && log <= f.log
            && f.seen + ReadAfter(f.log, f.after) == ReadAfter(f.log, start)
  {
    hide Increasing, UpTo, IdLess, HappenedAll, ReadAfter;
    FollowingAll(log, start, events);
    var f := HappenedAll(Follower(log, start, []), events);
    var from, n := UpTo(f.log, start), UpTo(f.log, f.after);
    ReadAfterIsRest(f.log, f.after);
    ReadAfterIsRest(f.log, start);
    assert f.log[from..n] + f.log[n..] == f.log[from..];
  }
}
