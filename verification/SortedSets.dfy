/**
 Sorted sets: a vector of members kept in order by score and then by name. The
 vector is proved to be nothing more than a map from names to scores: every
 change to the one is a change to the other, and the map alone says what the
 vector is, whatever the history that led there.
 */
module SortedSets {
  import opened Base
  import opened StoreState
  import opened Search

  predicate ScoreLess(a: Score, b: Score) {
    match (a, b)
    case (MinusInfinity, _) => b != MinusInfinity
    case (Finite(x), Finite(y)) => x < y
    case (Finite(_), PlusInfinity) => true
    case _ => false
  }

  predicate Precedes(a: Member, b: Member) {
    ScoreLess(a.score, b.score) || (a.score == b.score && BytesLess(a.name, b.name))
  }

  /** The map a vector of members stands for. */
  function Scores(members: seq<Member>): map<Bytes, Score> {
    if members == [] then map[] else Scores(members[1..])[members[0].name := members[0].score]
  }

  /** A member that comes before everything in a map, and is not in it. */
  ghost predicate First(member: Member, scores: map<Bytes, Score>) {
    member.name !in scores && forall n :: n in scores ==> Precedes(member, Member(scores[n], n))
  }

  /** In order, and no name twice. */
  ghost predicate Ordered(members: seq<Member>) {
    members == [] || (First(members[0], Scores(members[1..])) && Ordered(members[1..]))
  }

  // ----- Order -----

  lemma PrecedesTotal(a: Member, b: Member)
    ensures Precedes(a, b) || Precedes(b, a) || a == b
    ensures !(Precedes(a, b) && Precedes(b, a))
  {
    BytesLessTotal(a.name, b.name);
  }

  lemma PrecedesTransitive(a: Member, b: Member, c: Member)
    requires Precedes(a, b) && Precedes(b, c)
    ensures Precedes(a, c)
  {
    if BytesLess(a.name, b.name) && BytesLess(b.name, c.name) {
      BytesLessTransitive(a.name, b.name, c.name);
    }
  }

  /** Which of two scores is the greater: numbers as numbers are, and the infinities beyond them all. */
  predicate NoGreater(a: Score, b: Score) {
    a.MinusInfinity? || b.PlusInfinity? || (a.Finite? && b.Finite? && a.number <= b.number)
  }

  /** Down the vector scores never fall, and under one score names come in the order of their bytes. */
  lemma {:induction false} ScoresNeverFall(members: seq<Member>, i: nat, j: nat)
    requires Ordered(members) && i < j < |members|
    ensures NoGreater(members[i].score, members[j].score)
    ensures members[i].score == members[j].score ==> BytesLess(members[i].name, members[j].name)
  {
    hide Ordered;
    InOrder(members, i, j);
  }

  // ----- What the operations come to -----

  /** Zero-based index of a name. */
  function At(members: seq<Member>, name: Bytes): (at: Option<nat>)
    ensures at.Some? ==> at.value < |members| && members[at.value].name == name
  {
    if members == [] then None
    else if members[0].name == name then Some(0)
    else
      var later := At(members[1..], name);
      if later.Some? then Some(later.value + 1) else None
  }

  function Without(members: seq<Member>, name: Bytes): seq<Member> {
    if members == [] then []
    else if members[0].name == name then members[1..]
    else [members[0]] + Without(members[1..], name)
  }

  function Inserted(members: seq<Member>, member: Member): seq<Member> {
    if members == [] || !Precedes(members[0], member) then [member] + members
    else [members[0]] + Inserted(members[1..], member)
  }

  function Added(members: seq<Member>, member: Member): seq<Member> {
    Inserted(Without(members, member.name), member)
  }

  function AddedAll(members: seq<Member>, more: seq<Member>): seq<Member>
    decreases |more|
  {
    if more == [] then members else AddedAll(Added(members, more[0]), more[1..])
  }

  function WithoutAll(members: seq<Member>, names: seq<Bytes>): seq<Member>
    decreases |names|
  {
    if names == [] then members else WithoutAll(Without(members, names[0]), names[1..])
  }

  // ----- A vector changes as the map does -----

  lemma {:induction false} WithoutIs(members: seq<Member>, name: Bytes)
    requires Ordered(members)
    ensures Ordered(Without(members, name))
    ensures Scores(Without(members, name)) == Scores(members) - {name}
  {
    hide Precedes;
    if members != [] {
      var first, rest := members[0], members[1..];
      if first.name == name {
        assert Scores(members) - {name} == Scores(rest);
      } else {
        WithoutIs(rest, name);
        var less := Without(members, name);
        assert less[0] == first && less[1..] == Without(rest, name);
        assert Scores(less) == Scores(members) - {name};
      }
    }
  }

  lemma {:induction false} InsertedIs(members: seq<Member>, member: Member)
    requires Ordered(members) && member.name !in Scores(members)
    ensures Ordered(Inserted(members, member))
    ensures Scores(Inserted(members, member)) == Scores(members)[member.name := member.score]
  {
    hide Precedes;
    var more := Inserted(members, member);
    if members == [] {
      assert more == [member] && more[1..] == [];
    } else if !Precedes(members[0], member) {
      assert more[0] == member && more[1..] == members;
      PrecedesTotal(members[0], member);
      forall n | n in Scores(members)
        ensures Precedes(member, Member(Scores(members)[n], n))
      {
        if n != members[0].name {
          PrecedesTransitive(member, members[0], Member(Scores(members)[n], n));
        }
      }
    } else {
      var first, rest := members[0], members[1..];
      InsertedIs(rest, member);
      assert more[0] == first && more[1..] == Inserted(rest, member);
      assert Scores(more) == Scores(members)[member.name := member.score];
    }
  }

  /** Adding a member sets its score in the map, whether or not it was there. */
  lemma AddedIs(members: seq<Member>, member: Member)
    requires Ordered(members)
    ensures Ordered(Added(members, member))
    ensures Scores(Added(members, member)) == Scores(members)[member.name := member.score]
  {
    hide Inserted, Without, Scores, Ordered;
    WithoutIs(members, member.name);
    InsertedIs(Without(members, member.name), member);
    var left := Scores(members) - {member.name};
    assert left[member.name := member.score] == Scores(members)[member.name := member.score];
  }

  /** The map several members are added to, one after another. */
  function ScoresWith(scores: map<Bytes, Score>, more: seq<Member>): (r: map<Bytes, Score>)
    ensures scores.Keys <= r.Keys
    ensures more != [] ==> more[0].name in r
    decreases |more|
  {
    if more == [] then scores else ScoresWith(scores[more[0].name := more[0].score], more[1..])
  }

  function ScoresWithout(scores: map<Bytes, Score>, names: seq<Bytes>): (r: map<Bytes, Score>)
    ensures r.Keys <= scores.Keys
    decreases |names|
  {
    if names == [] then scores else ScoresWithout(scores - {names[0]}, names[1..])
  }

  lemma {:induction false} AddedAllIs(members: seq<Member>, more: seq<Member>)
    requires Ordered(members)
    ensures Ordered(AddedAll(members, more))
    ensures Scores(AddedAll(members, more)) == ScoresWith(Scores(members), more)
    decreases |more|
  {
    hide Ordered, Scores, Added;
    if more != [] {
      AddedIs(members, more[0]);
      AddedAllIs(Added(members, more[0]), more[1..]);
    }
  }

  lemma {:induction false} WithoutAllIs(members: seq<Member>, names: seq<Bytes>)
    requires Ordered(members)
    ensures Ordered(WithoutAll(members, names))
    ensures Scores(WithoutAll(members, names)) == ScoresWithout(Scores(members), names)
    decreases |names|
  {
    hide Ordered, Scores, Without;
    if names != [] {
      WithoutIs(members, names[0]);
      WithoutAllIs(Without(members, names[0]), names[1..]);
    }
  }

  // ----- The map says it all -----

  lemma {:induction false} ScoresSize(members: seq<Member>)
    requires Ordered(members)
    ensures |Scores(members)| == |members|
  {
    if members != [] {
      ScoresSize(members[1..]);
      var rest := Scores(members[1..]);
      assert Scores(members).Keys == rest.Keys + {members[0].name};
      assert |Scores(members).Keys| == |rest.Keys| + 1;
    }
  }

  lemma TailScores(members: seq<Member>)
    requires Ordered(members) && members != []
    ensures Scores(members[1..]) == Scores(members) - {members[0].name}
  {
  }

  /** Two sorted sets that stand for the same map are the same vector. */
  lemma {:induction false} MapDeterminesVector(a: seq<Member>, b: seq<Member>)
    requires Ordered(a) && Ordered(b) && Scores(a) == Scores(b)
    ensures a == b
  {
    hide Precedes;
    ScoresSize(a);
    ScoresSize(b);
    if a != [] {
      FirstOfMap(a, b);
      TailScores(a);
      TailScores(b);
      MapDeterminesVector(a[1..], b[1..]);
      assert a == [a[0]] + a[1..] && b == [b[0]] + b[1..];
    }
  }

  lemma FirstOfMap(a: seq<Member>, b: seq<Member>)
    requires Ordered(a) && Ordered(b) && Scores(a) == Scores(b) && a != [] && b != []
    ensures a[0] == b[0]
  {
    hide Precedes;
    var scores := Scores(a);
    assert scores[a[0].name] == a[0].score && scores[b[0].name] == b[0].score;
    if a[0].name != b[0].name {
      assert b[0].name in Scores(a[1..]) && Scores(a[1..])[b[0].name] == b[0].score;
      assert a[0].name in Scores(b[1..]) && Scores(b[1..])[a[0].name] == a[0].score;
      assert Precedes(a[0], Member(b[0].score, b[0].name));
      assert Precedes(b[0], Member(a[0].score, a[0].name));
      PrecedesTotal(a[0], b[0]);
    }
  }

  /** The names a map puts before a given one. */
  ghost function NamesBefore(scores: map<Bytes, Score>, name: Bytes): set<Bytes>
    requires name in scores
  {
    set n | n in scores && Precedes(Member(scores[n], n), Member(scores[name], name))
  }

  lemma {:induction false} Found(members: seq<Member>, name: Bytes)
    ensures At(members, name).Some? <==> name in Scores(members)
  {
    if members != [] {
      Found(members[1..], name);
    }
  }

  /** A member's rank is how many members the map puts before it. */
  lemma {:induction false} RankCounts(members: seq<Member>, name: Bytes)
    requires Ordered(members) && name in Scores(members)
    ensures At(members, name).Some?
    ensures |NamesBefore(Scores(members), name)| == At(members, name).value
  {
    hide Precedes;
    Found(members, name);
    var first, rest := members[0], members[1..];
    var scores := Scores(members);
    var before := NamesBefore(scores, name);
    if first.name == name {
      forall n | n in before
        ensures false
      {
        PrecedesTotal(first, Member(scores[n], n));
        BytesLessIrreflexive(name);
        NotBeforeItself(first);
      }
      assert before == {};
    } else {
      Found(rest, name);
      RankCounts(rest, name);
      var later := NamesBefore(Scores(rest), name);
      assert before == later + {first.name};
      assert first.name !in later;
    }
  }

  lemma NotBeforeItself(member: Member)
    ensures !Precedes(member, member)
  {
    BytesLessIrreflexive(member.name);
  }

  // ----- The same on places in the vector -----

  lemma {:induction false} ScoreAt(members: seq<Member>, i: nat)
    requires Ordered(members) && i < |members|
    ensures members[i].name in Scores(members) && Scores(members)[members[i].name] == members[i].score
  {
    if i > 0 {
      ScoreAt(members[1..], i - 1);
    }
  }

  lemma {:induction false} InOrder(members: seq<Member>, i: nat, j: nat)
    requires Ordered(members) && i < j < |members|
    ensures Precedes(members[i], members[j])
  {
    hide Precedes;
    if i == 0 {
      ScoreAt(members[1..], j - 1);
      assert members[j] == members[1..][j - 1];
    } else {
      InOrder(members[1..], i - 1, j - 1);
    }
  }

  lemma OrderedIsPartitioned(members: seq<Member>, member: Member)
    requires Ordered(members)
    ensures Partitioned(members, other => Precedes(other, member))
  {
    hide Precedes;
    forall i, j | 0 <= i < j < |members| && Precedes(members[j], member)
      ensures Precedes(members[i], member)
    {
      InOrder(members, i, j);
      PrecedesTransitive(members[i], members[j], member);
    }
  }

  lemma {:induction false} InsertedAt(members: seq<Member>, member: Member, at: nat)
    requires at == Leading(members, other => Precedes(other, member))
    ensures Inserted(members, member) == members[..at] + [member] + members[at..]
    decreases at
  {
    hide Precedes;
    if at > 0 {
      InsertedAt(members[1..], member, at - 1);
      assert members[..at] == [members[0]] + members[1..][..at - 1];
      assert members[at..] == members[1..][at - 1..];
    }
  }

  lemma {:induction false} WithoutAt(members: seq<Member>, name: Bytes)
    ensures match At(members, name)
            case Some(at) => Without(members, name) == members[..at] + members[at + 1..]
            case None => Without(members, name) == members
  {
    if members != [] && members[0].name != name {
      WithoutAt(members[1..], name);
      assert members == [members[0]] + members[1..];
    }
  }

  lemma {:induction false} FirstFound(members: seq<Member>, name: Bytes, i: nat)
    requires i <= |members| && (i < |members| ==> members[i].name == name)
    requires forall j :: 0 <= j < i ==> members[j].name != name
    ensures At(members, name) == if i < |members| then Some(i) else None
    decreases i
  {
    if i > 0 {
      FirstFound(members[1..], name, i - 1);
    }
  }

  // ----- The vector, changed in place -----

  class Vector {
    var members: seq<Member>

    constructor (members: seq<Member>)
      ensures this.members == members
    {
      this.members := members;
    }

    method Position(name: Bytes) returns (at: Option<nat>)
      ensures at == At(members, name)
    {
      var i := 0;
      while i < |members| && members[i].name != name
        invariant 0 <= i <= |members|
        invariant forall j :: 0 <= j < i ==> members[j].name != name
      {
        i := i + 1;
      }
      FirstFound(members, name, i);
      at := if i < |members| then Some(i) else None;
    }

    /** Deletes by name; `known` reports membership beforehand. */
    method Take(name: Bytes) returns (known: bool)
      modifies this
      ensures members == Without(old(members), name)
      ensures known <==> name in Scores(old(members))
    {
      var at := Position(name);
      Found(members, name);
      WithoutAt(members, name);
      match at {
        case Some(at) =>
          members := members[..at] + members[at + 1..];
          known := true;
        case None =>
          known := false;
      }
    }

    /** Delete-then-insert at the partition point; `added` reports a new name. */
    method Add(score: Score, name: Bytes) returns (added: bool)
      requires Ordered(members)
      modifies this
      ensures members == Added(old(members), Member(score, name))
      ensures Ordered(members)
      ensures added <==> name !in Scores(old(members))
    {
      hide Precedes, Scores, Inserted, Without, Ordered;
      var member := Member(score, name);
      AddedIs(members, member);
      WithoutIs(members, name);
      var known := Take(name);
      OrderedIsPartitioned(members, member);
      var at := PartitionPoint(members, other => Precedes(other, member));
      InsertedAt(members, member, at);
      members := members[..at] + [member] + members[at..];
      added := !known;
    }
  }
}
