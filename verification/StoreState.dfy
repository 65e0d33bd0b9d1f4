/** The state of the store: entries, plus the queues, channels and wakers of blocked clients. */
module StoreState {
  import opened Base

  type Key = Bytes

  /** Scores: reals extended with both infinities; NaN is not representable. */
  datatype Score = MinusInfinity | Finite(number: real) | PlusInfinity

  datatype Member = Member(score: Score, name: Bytes)

  datatype EntryId = EntryId(milliseconds: u64, sequence: u64)

  datatype StreamEntry = StreamEntry(id: EntryId, fields: seq<(Bytes, Bytes)>)

  datatype Data =
    | Text(value: Bytes)
    | List(elements: seq<Bytes>)
    | Stream(log: seq<StreamEntry>)
    | SortedSet(members: seq<Member>)

  datatype Entry = Entry(data: Data, expiresAt: Option<nat>, version: nat)

  type Entries = map<Key, Entry>

  /** An element handed to a client blocked on a list, over the channel made for it. */
  datatype Delivery = Delivery(channel: nat, element: Bytes)

  /**
   Everything under the store's lock, together with what its channels and
   wakers lead to: `gone` are the channels whose clients gave up, `sent` what
   went over the others, `held` the wakers clients still hold, `permits` the
   ones that have been notified.
   */
  datatype State = State(
    entries: Entries,
    waiters: map<Key, seq<nat>>,
    watchers: map<Key, seq<nat>>,
    changes: nat,
    channels: nat,
    gone: set<nat>,
    sent: seq<Delivery>,
    wakers: nat,
    held: set<nat>,
    permits: set<nat>)

  const EMPTY := State(map[], map[], map[], 0, 0, {}, [], 0, {}, {})

  predicate Expired(entry: Entry, now: nat) {
    entry.expiresAt.Some? && now >= entry.expiresAt.value
  }

  /** `drop_if_expired`. */
  function Live(entries: Entries, key: Key, now: nat): Entries {
    if key in entries && Expired(entries[key], now) then entries - {key} else entries
  }
}
