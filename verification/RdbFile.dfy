/**
 Dataset files as they are written: every length form, every way a string may be
 stored, and every section the reader knows. Reading such a file gives back the
 first database's keys and nothing else.
 */
module RdbFile {
  import opened Base
  import opened Decimal
  import opened Rdb
  import Lzf

  datatype LengthForm = Bits6 | Bits14 | Bits32 | Bits64

  datatype Text =
    | Raw(form: LengthForm, bytes: Bytes)
    | AsI8(number: int)
    | AsI16(number: int)
    | AsI32(number: int)
    | Squeezed(stored: LengthForm, unpacked: LengthForm, program: seq<Lzf.Instruction>)

  datatype Deadline = Seconds(seconds: nat) | Milliseconds(milliseconds: nat)

  datatype Section =
    | Auxiliary(name: Text, value: Text)
    | Database(form: LengthForm, number: nat)
    | Resize(keysForm: LengthForm, keys: nat, expiresForm: LengthForm, expires: nat)
    | Saved(deadline: Option<Deadline>, key: Text, value: Text)

  // ----- Numbers -----

  function End(width: nat): (n: nat)
    ensures n > 0
  {
    if width == 0 then 1 else 256 * End(width - 1)
  }

  lemma Ends()
    ensures End(1) == 0x100 && End(2) == 0x1_0000 && End(4) == 0x1_0000_0000 && End(8) == U64_END
  {
    assert End(2) == 256 * End(1);
    assert End(3) == 256 * End(2);
    assert End(4) == 256 * End(3);
    assert End(5) == 256 * End(4);
    assert End(6) == 256 * End(5);
    assert End(7) == 256 * End(6);
    assert End(8) == 256 * End(7);
  }

  function ToLittle(n: nat, width: nat): (s: Bytes)
    requires n < End(width)
    ensures |s| == width
  {
    if width == 0 then [] else [n % 256] + ToLittle(n / 256, width - 1)
  }

  function ToBig(n: nat, width: nat): (s: Bytes)
    requires n < End(width)
    ensures |s| == width
  {
    if width == 0 then [] else ToBig(n / 256, width - 1) + [n % 256]
  }

  lemma {:induction false} LittleReadBack(n: nat, width: nat)
    requires n < End(width)
    ensures Little(ToLittle(n, width)) == n
  {
    if width > 0 {
      LittleReadBack(n / 256, width - 1);
      assert ToLittle(n, width)[1..] == ToLittle(n / 256, width - 1);
    }
  }

  lemma {:induction false} BigReadBack(n: nat, width: nat)
    requires n < End(width)
    ensures Big(ToBig(n, width)) == n
  {
    if width > 0 {
      BigReadBack(n / 256, width - 1);
      assert ToBig(n, width)[..width - 1] == ToBig(n / 256, width - 1);
    }
  }

  /** Two's complement. */
  function Wrapped(number: int, half: nat): (n: nat)
    requires 0 <= number + half < 2 * half
    ensures n < 2 * half && Signed(n, half) == number
  {
    if number < 0 then number + 2 * half else number
  }

  // ----- Lengths -----

  predicate Fits(n: nat, form: LengthForm) {
    match form
    case Bits6 => n < 0x40
    case Bits14 => n < 0x4000
    case Bits32 => n < End(4)
    case Bits64 => n < End(8)
  }

  function PackedLength(n: nat, form: LengthForm): (s: Bytes)
    requires Fits(n, form)
    ensures s != []
  {
    match form
    case Bits6 => [n]
    case Bits14 => [64 + n / 256, n % 256]
    case Bits32 => [0x80] + ToBig(n, 4)
    case Bits64 => [0x81] + ToBig(n, 8)
  }

  lemma LengthReadBack(n: nat, form: LengthForm, rest: Bytes)
    requires Fits(n, form)
    ensures ReadLength(PackedLength(n, form) + rest) == Ok((Of(n), |PackedLength(n, form)|))
  {
    hide Big, ToBig;
    var s := PackedLength(n, form) + rest;
    match form {
      case Bits6 =>
      case Bits14 =>
        assert s[0] == 64 + n / 256;
      case Bits32 =>
        BigReadBack(n, 4);
        assert s[1..][..4] == ToBig(n, 4);
      case Bits64 =>
        BigReadBack(n, 8);
        assert s[1..][..8] == ToBig(n, 8);
    }
  }

  lemma CountReadBack(n: nat, form: LengthForm, rest: Bytes)
    requires Fits(n, form)
    ensures ReadCount(PackedLength(n, form) + rest) == Ok((n, |PackedLength(n, form)|))
  {
    hide ReadLength, PackedLength;
    LengthReadBack(n, form, rest);
  }

  lemma TwoCountsReadBack(a: nat, aForm: LengthForm, b: nat, bForm: LengthForm, rest: Bytes)
    requires Fits(a, aForm) && Fits(b, bForm)
    ensures ReadTwoCounts(PackedLength(a, aForm) + (PackedLength(b, bForm) + rest))
            == Ok(((a, b), |PackedLength(a, aForm)| + |PackedLength(b, bForm)|))
  {
    hide ReadCount, PackedLength;
    var first, later := PackedLength(a, aForm), PackedLength(b, bForm) + rest;
    CountReadBack(a, aForm, later);
    CountReadBack(b, bForm, rest);
    assert (first + later)[|first|..] == later;
  }

  // ----- Strings -----

  predicate Writable(t: Text) {
    match t
    case Raw(form, bytes) => Fits(|bytes|, form)
    case AsI8(n) => -0x80 <= n < 0x80
    case AsI16(n) => -0x8000 <= n < 0x8000
    case AsI32(n) => -0x8000_0000 <= n < 0x8000_0000
    case Squeezed(stored, unpacked, program) =>
      && Lzf.AllSayable(program, 0)
      && Fits(|Lzf.PackedAll(program, 0)|, stored)
      && Fits(|Lzf.ExpandedAll([], program)|, unpacked) && |Lzf.ExpandedAll([], program)| <= Lzf.ISIZE_MAX
  }

  /** The string a stored form stands for. */
  function Meaning(t: Text): Bytes
    requires Writable(t)
  {
    match t
    case Raw(_, bytes) => bytes
    case AsI8(n) => Print(n)
    case AsI16(n) => Print(n)
    case AsI32(n) => Print(n)
    case Squeezed(_, _, program) => Lzf.ExpandedAll([], program)
  }

  function PackedText(t: Text): (s: Bytes)
    requires Writable(t)
    ensures s != []
  {
    Ends();
    match t
    case Raw(form, bytes) => PackedLength(|bytes|, form) + bytes
    case AsI8(n) => [0xC0] + ToLittle(Wrapped(n, 0x80), 1)
    case AsI16(n) => [0xC1] + ToLittle(Wrapped(n, 0x8000), 2)
    case AsI32(n) => [0xC2] + ToLittle(Wrapped(n, 0x8000_0000), 4)
    case Squeezed(stored, unpacked, program) => [0xC3] + PackedSqueezed(stored, unpacked, program)
  }

  function PackedSqueezed(stored: LengthForm, unpacked: LengthForm, program: seq<Lzf.Instruction>): Bytes
    requires Writable(Squeezed(stored, unpacked, program))
  {
    var packed := Lzf.PackedAll(program, 0);
    PackedLength(|packed|, stored) + (PackedLength(|Lzf.ExpandedAll([], program)|, unpacked) + packed)
  }

  lemma SqueezedReadBack(stored: LengthForm, unpacked: LengthForm, program: seq<Lzf.Instruction>, rest: Bytes)
    requires Writable(Squeezed(stored, unpacked, program))
    ensures ReadSqueezed(PackedSqueezed(stored, unpacked, program) + rest)
            == Ok((Lzf.ExpandedAll([], program), |PackedSqueezed(stored, unpacked, program)|))
  {
    hide ReadTwoCounts, PackedLength, Lzf.Unpacked, Lzf.PackedAll, Lzf.ExpandedAll;
    var packed, out := Lzf.PackedAll(program, 0), Lzf.ExpandedAll([], program);
    var a, b := PackedLength(|packed|, stored), PackedLength(|out|, unpacked);
    var s := a + (b + packed) + rest;
    assert s == a + (b + (packed + rest));
    TwoCountsReadBack(|packed|, stored, |out|, unpacked, packed + rest);
    assert s[|a| + |b|..][..|packed|] == packed;
    Lzf.UnpackedPacked(program, []);
  }

  lemma NumberReadBack(how: byte, n: int, width: nat, half: nat, rest: Bytes)
    requires how < 3 && width == [1, 2, 4][how] && half == [0x80, 0x8000, 0x8000_0000][how]
    requires 0 <= n + half < 2 * half && Wrapped(n, half) < End(width)
    ensures ReadText([0xC0 + how] + ToLittle(Wrapped(n, half), width) + rest) == Ok((Print(n), 1 + width))
  {
    hide Little, ToLittle, Print;
    var s := [0xC0 + how] + ToLittle(Wrapped(n, half), width) + rest;
    LittleReadBack(Wrapped(n, half), width);
    assert ReadLength(s) == Ok((Packed(how), 1));
    assert s[1..][..width] == ToLittle(Wrapped(n, half), width);
  }

  lemma SqueezedTextReadBack(stored: LengthForm, unpacked: LengthForm, program: seq<Lzf.Instruction>, rest: Bytes)
    requires Writable(Squeezed(stored, unpacked, program))
    ensures var packed := PackedSqueezed(stored, unpacked, program);
            ReadText([0xC3] + packed + rest) == Ok((Lzf.ExpandedAll([], program), 1 + |packed|))
  {
    hide ReadText, PackedSqueezed, ReadSqueezed, Writable;
    SqueezedReadBack(stored, unpacked, program, rest);
    SqueezedTextRead(PackedSqueezed(stored, unpacked, program), rest);
  }

  lemma TextReadBack(t: Text, rest: Bytes)
    requires Writable(t)
    ensures ReadText(PackedText(t) + rest) == Ok((Meaning(t), |PackedText(t)|))
  {
    hide ReadText, PackedLength, ToLittle, PackedSqueezed, Print, Lzf.ExpandedAll, Lzf.PackedAll, Lzf.AllSayable, End;
    Ends();
    match t {
      case Raw(form, bytes) =>
        RawReadBack(form, bytes, rest);
      case AsI8(n) =>
        NumberReadBack(0, n, 1, 0x80, rest);
      case AsI16(n) =>
        NumberReadBack(1, n, 2, 0x8000, rest);
      case AsI32(n) =>
        NumberReadBack(2, n, 4, 0x8000_0000, rest);
      case Squeezed(stored, unpacked, program) =>
        SqueezedTextReadBack(stored, unpacked, program, rest);
    }
  }

  lemma RawReadBack(form: LengthForm, bytes: Bytes, rest: Bytes)
    requires Fits(|bytes|, form)
    ensures ReadText(PackedLength(|bytes|, form) + bytes + rest) == Ok((bytes, |PackedLength(|bytes|, form)| + |bytes|))
  {
    hide ReadLength, PackedLength;
    var length := PackedLength(|bytes|, form);
    LengthReadBack(|bytes|, form, bytes + rest);
    assert length + bytes + rest == length + (bytes + rest);
    assert (length + (bytes + rest))[|length|..] == bytes + rest;
    assert (bytes + rest)[..|bytes|] == bytes;
  }

  lemma SqueezedTextRead(packed: Bytes, rest: Bytes)
    requires ReadSqueezed(packed + rest).Ok?
    ensures ReadText([0xC3] + packed + rest) == After(1, ReadSqueezed(packed + rest))
  {
    hide ReadLength, ReadSqueezed;
    PackedMarker(3, packed + rest);
    assert [0xC3] + packed + rest == [0xC3] + (packed + rest);
    assert ([0xC3] + (packed + rest))[1..] == packed + rest;
  }

  lemma PackedMarker(how: byte, rest: Bytes)
    requires how < 64
    ensures ReadLength([0xC0 + how] + rest) == Ok((Packed(how), 1))
  {
  }

  lemma TwoTextsReadBack(a: Text, b: Text, rest: Bytes)
    requires Writable(a) && Writable(b)
    ensures ReadTwoTexts(PackedText(a) + (PackedText(b) + rest))
            == Ok(((Meaning(a), Meaning(b)), |PackedText(a)| + |PackedText(b)|))
  {
    hide ReadText, PackedText, Meaning;
    var first, later := PackedText(a), PackedText(b) + rest;
    TextReadBack(a, later);
    TextReadBack(b, rest);
    assert (first + later)[|first|..] == later;
  }

  // ----- Sections -----

  predicate Layable(section: Section) {
    match section
    case Auxiliary(name, value) => Writable(name) && Writable(value)
    case Database(form, number) => Fits(number, form)
    case Resize(keysForm, keys, expiresForm, expires) => Fits(keys, keysForm) && Fits(expires, expiresForm)
    case Saved(deadline, key, value) =>
      && Writable(key) && Writable(value)
      && match deadline
         case None => true
         case Some(Seconds(n)) => n < End(4)
         case Some(Milliseconds(n)) => n < End(8)
  }

  function PackedDeadline(deadline: Option<Deadline>): Bytes
    requires deadline.Some? ==> match deadline.value case Seconds(n) => n < End(4) case Milliseconds(n) => n < End(8)
  {
    match deadline
    case None => []
    case Some(Seconds(n)) => [EXPIRES_AT_SECONDS] + ToLittle(n, 4)
    case Some(Milliseconds(n)) => [EXPIRES_AT_MILLISECONDS] + ToLittle(n, 8)
  }

  function DeadlineIn(deadline: Option<Deadline>): Option<nat> {
    match deadline
    case None => None
    case Some(Seconds(n)) => Some(1000 * n)
    case Some(Milliseconds(n)) => Some(n)
  }

  function PackedSection(section: Section): Bytes
    requires Layable(section)
  {
    match section
    case Auxiliary(name, value) => [AUXILIARY] + (PackedText(name) + PackedText(value))
    case Database(form, number) => [DATABASE] + PackedLength(number, form)
    case Resize(keysForm, keys, expiresForm, expires) =>
      [RESIZE] + (PackedLength(keys, keysForm) + PackedLength(expires, expiresForm))
    case Saved(deadline, key, value) =>
      PackedDeadline(deadline) + ([STRING] + (PackedText(key) + PackedText(value)))
  }

  function PackedSections(sections: seq<Section>): Bytes
    requires forall i :: 0 <= i < |sections| ==> Layable(sections[i])
  {
    if sections == [] then [] else PackedSection(sections[0]) + PackedSections(sections[1..])
  }

  /** The database a section leaves the file in. */
  function DatabaseAfter(section: Section, database: nat): nat {
    if section.Database? then section.number else database
  }

  /** The keys a section adds to the first database. */
  function RecordsOf(section: Section, database: nat): seq<Record>
    requires Layable(section)
  {
    if section.Saved? && database == 0
    then [Record(Meaning(section.key), Meaning(section.value), DeadlineIn(section.deadline))]
    else []
  }

  function RecordsIn(sections: seq<Section>, database: nat): seq<Record>
    requires forall i :: 0 <= i < |sections| ==> Layable(sections[i])
  {
    if sections == [] then []
    else RecordsOf(sections[0], database) + RecordsIn(sections[1..], DatabaseAfter(sections[0], database))
  }

  /** A section that is read in one go. */
  lemma SectionRead(s: Bytes, n: nat, rest: Bytes, database: nat, expiresAt: Option<nat>, next: Step)
    requires next.Next? && n <= |s|
    requires ReadSection(s, database, expiresAt) == Ok((next, n)) && s[n..] == rest
    ensures Sections(s, database, expiresAt) == Gathered(next.records, Sections(rest, next.database, next.expiresAt))
  {
  }

  lemma DeadlineReadBack(deadline: Option<Deadline>, rest: Bytes, database: nat)
    requires deadline.Some? ==> match deadline.value case Seconds(n) => n < End(4) case Milliseconds(n) => n < End(8)
    ensures Sections(PackedDeadline(deadline) + rest, database, None) == Sections(rest, database, DeadlineIn(deadline))
  {
    hide Sections, Little, ToLittle;
    var s := PackedDeadline(deadline) + rest;
    var next := Next([], database, DeadlineIn(deadline));
    match deadline {
      case None =>
        assert s == rest;
      case Some(Seconds(n)) =>
        LittleReadBack(n, 4);
        assert s[1..][..4] == ToLittle(n, 4);
        SectionRead(s, 5, rest, database, None, next);
        GatheredNone(Sections(rest, database, DeadlineIn(deadline)));
      case Some(Milliseconds(n)) =>
        LittleReadBack(n, 8);
        assert s[1..][..8] == ToLittle(n, 8);
        SectionRead(s, 9, rest, database, None, next);
        GatheredNone(Sections(rest, database, DeadlineIn(deadline)));
    }
  }

  lemma GatheredNone(later: Result<seq<Record>, RdbError>)
    ensures Gathered([], later) == later
  {
    if later.Ok? {
      assert [] + later.value == later.value;
    }
  }

  lemma AfterKind(kind: byte, a: Bytes, b: Bytes, rest: Bytes)
    ensures var s := [kind] + (a + b) + rest;
            |s| >= 1 + |a| + |b| && s[0] == kind && s[1..] == a + (b + rest) && s[1 + |a| + |b|..] == rest
  {
    var s := [kind] + (a + b) + rest;
    Reassociate([kind], a + b, rest);
    Reassociate(a, b, rest);
    assert s[1..] == a + (b + rest);
  }

  lemma StringReadBack(key: Text, value: Text, rest: Bytes, database: nat, expiresAt: Option<nat>)
    requires Writable(key) && Writable(value)
    ensures Sections([STRING] + (PackedText(key) + PackedText(value)) + rest, database, expiresAt)
            == Gathered(if database == 0 then [Record(Meaning(key), Meaning(value), expiresAt)] else [],
                        Sections(rest, database, None))
  {
    hide Sections, ReadTwoTexts, PackedText, Meaning;
    var k, v := PackedText(key), PackedText(value);
    var s := [STRING] + (k + v) + rest;
    TwoTextsReadBack(key, value, rest);
    AfterKind(STRING, k, v, rest);
    var next := Next(if database == 0 then [Record(Meaning(key), Meaning(value), expiresAt)] else [], database, None);
    SectionRead(s, 1 + |k| + |v|, rest, database, expiresAt, next);
  }

  lemma AuxiliaryReadBack(name: Text, value: Text, rest: Bytes, database: nat)
    requires Writable(name) && Writable(value)
    ensures Sections([AUXILIARY] + (PackedText(name) + PackedText(value)) + rest, database, None)
            == Sections(rest, database, None)
  {
    hide Sections, ReadTwoTexts, PackedText, Meaning;
    var a, b := PackedText(name), PackedText(value);
    var s := [AUXILIARY] + (a + b) + rest;
    TwoTextsReadBack(name, value, rest);
    AfterKind(AUXILIARY, a, b, rest);
    SectionRead(s, 1 + |a| + |b|, rest, database, None, Next([], database, None));
    GatheredNone(Sections(rest, database, None));
  }

  lemma DatabaseReadBack(form: LengthForm, number: nat, rest: Bytes, database: nat)
    requires Fits(number, form)
    ensures Sections([DATABASE] + PackedLength(number, form) + rest, database, None) == Sections(rest, number, None)
  {
    hide Sections, ReadCount, PackedLength;
    var a := PackedLength(number, form);
    var s := [DATABASE] + a + rest;
    CountReadBack(number, form, rest);
    assert s[1..] == a + rest;
    assert s[1 + |a|..] == rest;
    SectionRead(s, 1 + |a|, rest, database, None, Next([], number, None));
    GatheredNone(Sections(rest, number, None));
  }

  lemma ResizeReadBack(aForm: LengthForm, a: nat, bForm: LengthForm, b: nat, rest: Bytes, database: nat)
    requires Fits(a, aForm) && Fits(b, bForm)
    ensures Sections([RESIZE] + (PackedLength(a, aForm) + PackedLength(b, bForm)) + rest, database, None)
            == Sections(rest, database, None)
  {
    hide Sections, ReadTwoCounts, PackedLength;
    var first, second := PackedLength(a, aForm), PackedLength(b, bForm);
    var s := [RESIZE] + (first + second) + rest;
    TwoCountsReadBack(a, aForm, b, bForm, rest);
    assert s[1..] == first + (second + rest);
    assert s[1 + |first| + |second|..] == rest;
    SectionRead(s, 1 + |first| + |second|, rest, database, None, Next([], database, None));
    GatheredNone(Sections(rest, database, None));
  }

  lemma SectionReadBack(section: Section, rest: Bytes, database: nat)
    requires Layable(section)
    ensures Sections(PackedSection(section) + rest, database, None)
            == Gathered(RecordsOf(section, database), Sections(rest, DatabaseAfter(section, database), None))
  {
    hide Sections, PackedText, PackedLength, PackedDeadline, Meaning, Gathered;
    GatheredNone(Sections(rest, DatabaseAfter(section, database), None));
    match section {
      case Auxiliary(name, value) =>
        AuxiliaryReadBack(name, value, rest, database);
      case Database(form, number) =>
        DatabaseReadBack(form, number, rest, database);
      case Resize(keysForm, keys, expiresForm, expires) =>
        ResizeReadBack(keysForm, keys, expiresForm, expires, rest, database);
      case Saved(deadline, key, value) =>
        var body := [STRING] + (PackedText(key) + PackedText(value));
        assert PackedDeadline(deadline) + body + rest == PackedDeadline(deadline) + (body + rest);
        DeadlineReadBack(deadline, body + rest, database);
        StringReadBack(key, value, rest, database, DeadlineIn(deadline));
    }
  }

  lemma {:induction false} SectionsReadBack(sections: seq<Section>, rest: Bytes, database: nat)
    requires forall i :: 0 <= i < |sections| ==> Layable(sections[i])
    ensures Sections(PackedSections(sections) + ([END] + rest), database, None) == Ok(RecordsIn(sections, database))
    decreases |sections|
  {
    hide PackedSection, RecordsOf, Layable;
    var tail := [END] + rest;
    if sections == [] {
      assert [] + tail == tail;
    } else {
      hide Sections;
      var first, later := PackedSection(sections[0]), PackedSections(sections[1..]);
      assert first + later + tail == first + (later + tail);
      SectionReadBack(sections[0], later + tail, database);
      SectionsReadBack(sections[1..], rest, DatabaseAfter(sections[0], database));
    }
  }

  /**
   However a file is laid out, reading it gives the first database's keys in
   order, each with its own deadline or none, whatever version it names and
   whatever follows its end.
   */
  lemma FileReadBack(version: Bytes, sections: seq<Section>, rest: Bytes)
    requires |version| == 4
    requires forall i :: 0 <= i < |sections| ==> Layable(sections[i])
    ensures ReadFile(MAGIC + version + (PackedSections(sections) + ([END] + rest))) == Ok(RecordsIn(sections, 0))
  {
    hide Sections, PackedSections, RecordsIn, Layable;
    var header, body := MAGIC + version, PackedSections(sections) + ([END] + rest);
    SectionsReadBack(sections, rest, 0);
    assert (header + body)[..5] == MAGIC;
    assert (header + body)[HEADER..] == body;
  }

  // ----- Files cut short, and files that cannot be read -----

  /** Of the front of something: read as the whole of it is, or found to stop too soon. */
  ghost predicate Cut<T>(front: Result<T, RdbError>, whole: Result<T, RdbError>) {
    front == whole || front == Err(PastEnd)
  }

  lemma FrontThenMore(front: Bytes, more: Bytes, n: nat)
    requires n <= |front|
    ensures (front + more)[n..] == front[n..] + more && (front + more)[..n] == front[..n]
  {
  }

  lemma BytesCut(front: Bytes, more: Bytes, n: nat)
    ensures Cut(ReadBytes(front, n), ReadBytes(front + more, n))
    ensures Cut(ReadBig(front, n), ReadBig(front + more, n))
    ensures Cut(ReadLittle(front, n), ReadLittle(front + more, n))
  {
    if n <= |front| {
      FrontThenMore(front, more, n);
    }
  }

  lemma LengthCut(front: Bytes, more: Bytes)
    ensures Cut(ReadLength(front), ReadLength(front + more))
  {
    hide Big;
    if front != [] {
      FrontThenMore(front, more, 1);
      BytesCut(front[1..], more, 4);
      BytesCut(front[1..], more, 8);
    }
  }

  lemma CountCut(front: Bytes, more: Bytes)
    ensures Cut(ReadCount(front), ReadCount(front + more))
  {
    hide ReadLength;
    LengthCut(front, more);
  }

  lemma TwoCountsCut(front: Bytes, more: Bytes)
    ensures Cut(ReadTwoCounts(front), ReadTwoCounts(front + more))
  {
    hide ReadCount;
    CountCut(front, more);
    if ReadCount(front).Ok? {
      var n := ReadCount(front).value.1;
      FrontThenMore(front, more, n);
      CountCut(front[n..], more);
    }
  }

  lemma SqueezedCut(front: Bytes, more: Bytes)
    ensures Cut(ReadSqueezed(front), ReadSqueezed(front + more))
  {
    hide ReadTwoCounts, ReadBytes, Lzf.Unsqueezed;
    TwoCountsCut(front, more);
    if ReadTwoCounts(front).Ok? {
      var ((stored, _), n) := ReadTwoCounts(front).value;
      FrontThenMore(front, more, n);
      BytesCut(front[n..], more, stored);
    }
  }

  lemma TextCut(front: Bytes, more: Bytes)
    ensures Cut(ReadText(front), ReadText(front + more))
  {
    hide ReadLength, ReadBytes, ReadLittle, ReadSqueezed, Print;
    LengthCut(front, more);
    if ReadLength(front).Ok? {
      var (length, n) := ReadLength(front).value;
      FrontThenMore(front, more, n);
      match length {
        case Of(k) => BytesCut(front[n..], more, k);
        case Packed(how) =>
          BytesCut(front[n..], more, 1);
          BytesCut(front[n..], more, 2);
          BytesCut(front[n..], more, 4);
          SqueezedCut(front[n..], more);
      }
    }
  }

  lemma TwoTextsCut(front: Bytes, more: Bytes)
    ensures Cut(ReadTwoTexts(front), ReadTwoTexts(front + more))
  {
    hide ReadText;
    TextCut(front, more);
    if ReadText(front).Ok? {
      var n := ReadText(front).value.1;
      FrontThenMore(front, more, n);
      TextCut(front[n..], more);
    }
  }

  lemma SectionCut(front: Bytes, more: Bytes, database: nat, expiresAt: Option<nat>)
    ensures Cut(ReadSection(front, database, expiresAt), ReadSection(front + more, database, expiresAt))
  {
    hide ReadTwoTexts, ReadCount, ReadTwoCounts, ReadLittle;
    if front != [] {
      FrontThenMore(front, more, 1);
      var rest := front[1..];
      TwoTextsCut(rest, more);
      CountCut(rest, more);
      TwoCountsCut(rest, more);
      BytesCut(rest, more, 4);
      BytesCut(rest, more, 8);
    }
  }

  lemma {:induction false} SectionsCut(front: Bytes, more: Bytes, database: nat, expiresAt: Option<nat>)
    ensures Cut(Sections(front, database, expiresAt), Sections(front + more, database, expiresAt))
    decreases |front|
  {
    hide ReadSection;
    SectionCut(front, more, database, expiresAt);
    var r := ReadSection(front, database, expiresAt);
    if r.Ok? && r.value.0.Next? {
      var (Next(_, d, e), n) := r.value;
      FrontThenMore(front, more, n);
      SectionsCut(front[n..], more, d, e);
    }
  }

  function DatabaseAtEnd(sections: seq<Section>, database: nat): nat {
    if sections == [] then database else DatabaseAtEnd(sections[1..], DatabaseAfter(sections[0], database))
  }

  /** Whatever comes after some sections is read in the database they leave the file in, with no deadline. */
  lemma {:induction false} SectionsThen(sections: seq<Section>, rest: Bytes, database: nat)
    requires forall i :: 0 <= i < |sections| ==> Layable(sections[i])
    ensures Sections(PackedSections(sections) + rest, database, None)
            == Gathered(RecordsIn(sections, database), Sections(rest, DatabaseAtEnd(sections, database), None))
    decreases |sections|
  {
    hide PackedSection, RecordsOf, Layable, Sections;
    if sections == [] {
      assert [] + rest == rest;
      GatheredNone(Sections(rest, database, None));
    } else {
      var next := DatabaseAfter(sections[0], database);
      Reassociate(PackedSection(sections[0]), PackedSections(sections[1..]), rest);
      SectionReadBack(sections[0], PackedSections(sections[1..]) + rest, database);
      SectionsThen(sections[1..], rest, next);
      GatheredTwice(RecordsOf(sections[0], database), RecordsIn(sections[1..], next),
                    Sections(rest, DatabaseAtEnd(sections, database), None));
    }
  }

  /** A file that stops anywhere before its end is over is refused, and for stopping. */
  lemma CutShort(version: Bytes, sections: seq<Section>, k: nat)
    requires |version| == 4
    requires forall i :: 0 <= i < |sections| ==> Layable(sections[i])
    requires k < 9 + |PackedSections(sections)| + 1
    ensures ReadFile((Ascii("REDIS") + version + (PackedSections(sections) + [0xFF]))[..k]) == Err(PastEnd)
  {
    hide Sections, PackedSections, RecordsIn, Layable;
    KindsAre();
    var header, packed := MAGIC + version, PackedSections(sections);
    var file := header + (packed + [END]);
    if k >= 9 {
      var front, more := packed[..k - 9], packed[k - 9..];
      assert file[..k][..5] == MAGIC && file[..k][9..] == front;
      assert front + more == packed;
      SectionsCut(front, more, 0, None);
      assert packed + [] == packed;
      SectionsThen(sections, [], 0);
      NothingToRead(DatabaseAtEnd(sections, 0));
    }
  }

  lemma NothingToRead(database: nat)
    ensures Sections([], database, None) == Err(PastEnd)
  {
  }

  lemma KindsAre()
    ensures MAGIC == Ascii("REDIS")
    ensures [AUXILIARY, RESIZE, EXPIRES_AT_MILLISECONDS, EXPIRES_AT_SECONDS, DATABASE, END, STRING]
            == [0xFA, 0xFB, 0xFC, 0xFD, 0xFE, 0xFF, 0]
  {
  }

  /** A section of a kind that is not known is refused wherever it comes. */
  lemma UnknownKindRefused(version: Bytes, sections: seq<Section>, kind: byte, rest: Bytes)
    requires |version| == 4 && 0 < kind < 0xFA
    requires forall i :: 0 <= i < |sections| ==> Layable(sections[i])
    ensures ReadFile(Ascii("REDIS") + version + (PackedSections(sections) + ([kind] + rest))) == Err(UnreadableKind(kind))
  {
    hide Sections, PackedSections, RecordsIn, Layable;
    KindsAre();
    var header, body := MAGIC + version, PackedSections(sections) + ([kind] + rest);
    assert (header + body)[..5] == MAGIC && (header + body)[9..] == body;
    SectionsThen(sections, [kind] + rest, 0);
    KindToRefuse(kind, rest, DatabaseAtEnd(sections, 0));
  }

  lemma KindToRefuse(kind: byte, rest: Bytes, database: nat)
    requires 0 < kind < 0xFA
    ensures Sections([kind] + rest, database, None) == Err(UnreadableKind(kind))
  {
  }

  lemma NotADatasetRefused(file: Bytes)
    requires |file| >= 9 && !(Ascii("REDIS") <= file)
    ensures ReadFile(file) == Err(NotADataset)
  {
    hide Sections;
    KindsAre();
  }

  /** What cannot be the length of anything, and what cannot be a string. */
  lemma RefusedLengths(first: byte, rest: Bytes)
    ensures 0x82 <= first < 0xC0 ==> ReadText([first] + rest) == Err(UnreadableLength(first))
    ensures 0x82 <= first < 0xC0 ==> ReadCount([first] + rest) == Err(UnreadableLength(first))
    ensures 0xC0 <= first ==> ReadCount([first] + rest) == Err(PackedCount(first - 0xC0))
    ensures 0xC4 <= first ==> ReadText([first] + rest) == Err(PackedString(first - 0xC0))
  {
    var length := ReadLength([first] + rest);
    assert first >= 0xC0 ==> length == Ok((Packed(first - 0xC0), 1));
    assert 0x82 <= first < 0xC0 ==> length == Err(UnreadableLength(first));
  }
}
