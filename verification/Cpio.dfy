/** The cpio `newc` parser (`core/cpio.py`; the "newc" format of cpio(5)).

    Header fields are read with Python's `int(text, 16)`, which takes more than eight hex
    digits would suggest, and positions are used in Python slices, which accept negative
    bounds; both are modelled as they are.
 */
module Cpio {
  import opened Wrappers

  datatype Outcome<T> = Members(value: T) | CpioError

  type Bytes = seq<Byte>

  const HEADER_LEN := 110
  const MAX_NAME_LEN := 4096
  const MAGIC_NEWC: Bytes := [0x30, 0x37, 0x30, 0x37, 0x30, 0x31]
  const MAGIC_NEWC_CRC: Bytes := [0x30, 0x37, 0x30, 0x37, 0x30, 0x32]
  const TRAILER: Bytes := [0x54, 0x52, 0x41, 0x49, 0x4C, 0x45, 0x52, 0x21, 0x21, 0x21]

  // ---------- Python slices and integers

  function Bound(n: nat, i: int): (r: nat)
    ensures r <= n
  {
    if i < 0 then (if n + i < 0 then 0 else n + i) else if i > n then n else i
  }

  /** `s[a:b]`: negative bounds count from the end, and everything is cut to size. */
  function Slice(s: Bytes, a: int, b: int): Bytes {
    var lo, hi := Bound(|s|, a), Bound(|s|, b);
    if lo <= hi then s[lo..hi] else []
  }

  /** A slice, case by case: a bound within the length counts from the beginning, or from the end if it is negative; one
      beyond it is cut to it. */
  lemma SliceExact(s: Bytes, a: int, b: int)
    ensures var n := |s|;
      var lo := if a >= n then n else if a >= 0 then a else if a >= 0 - n then n + a else 0;
      var hi := if b >= n then n else if b >= 0 then b else if b >= 0 - n then n + b else 0;
      Slice(s, a, b) == if lo <= hi then s[lo..hi] else []
  {
  }

  predicate IsSpace(b: Byte) { 9 <= b <= 13 || b == 32 }

  predicate IsHex(b: Byte) { 0x30 <= b <= 0x39 || 0x41 <= b <= 0x46 || 0x61 <= b <= 0x66 }

  function HexDigit(b: Byte): (d: nat)
    requires IsHex(b)
    ensures d < 16
  {
    if b <= 0x39 then b - 0x30 else if b <= 0x46 then b - 0x41 + 10 else b - 0x61 + 10
  }

  function TrimLeft(s: Bytes): Bytes { if s != [] && IsSpace(s[0]) then TrimLeft(s[1..]) else s }
  function TrimRight(s: Bytes): Bytes { if s != [] && IsSpace(s[|s| - 1]) then TrimRight(s[..|s| - 1]) else s }

  /** Hex digits with single underscores between them. */
  function Digits(s: Bytes): Option<nat> {
    if s == [] || !IsHex(s[|s| - 1]) then None
    else
      var init, d := s[..|s| - 1], HexDigit(s[|s| - 1]);
      if init == [] then Some(d)
      else
        var before := Digits(if init[|init| - 1] == 0x5F then init[..|init| - 1] else init);
        if before.None? then None else Some(before.value * 16 + d)
  }

  function Unsigned(s: Bytes): Option<nat> {
    if |s| >= 2 && s[0] == 0x30 && (s[1] == 0x78 || s[1] == 0x58)
    then Digits(if |s| >= 3 && s[2] == 0x5F then s[3..] else s[2..])
    else Digits(s)
  }

  function Negated(n: Option<nat>): Option<int> {
    match n case None => None case Some(v) => Some(0 - v)
  }

  /** `int(field.decode("ascii"), 16)`. */
  function U32Hex(field: Bytes): Option<int> {
    if exists i :: 0 <= i < |field| && field[i] >= 128 then None
    else
      var s := TrimRight(TrimLeft(field));
      if s != [] && s[0] == 0x2D then Negated(Unsigned(s[1..]))
      else
        var n := Unsigned(if s != [] && s[0] == 0x2B then s[1..] else s);
        if n.None? then None else Some(n.value)
  }

  function Pad4(v: int): (r: int)
    ensures v <= r < v + 4 && r % 4 == 0
  {
    (v + 3) / 4 * 4
  }

  function UpToNul(s: Bytes): Bytes { if s == [] || s[0] == 0 then [] else [s[0]] + UpToNul(s[1..]) }

  // ---------- one member

  datatype Entry = Entry(name: Bytes, mode: int, size: int, dataOffset: int, isDir: bool, isSymlink: bool)

  /** A parsed member with the span of its header and name. */
  datatype Record = Record(pos: int, nameEnd: int, entry: Entry)

  datatype Member = Malformed | Trailer | Found(record: Record)

  /** The file-type bits of a mode, also of a negative one. */
  predicate HasType(mode: int, typ: int) { mode / 0x1000 % 16 == typ }

  function MakeEntry(name: Bytes, mode: int, size: int, dataOffset: int): Entry {
    Entry(name, mode, size, dataOffset, HasType(mode, 4), HasType(mode, 10))
  }

  /** What one round of the parser sees at `pos`. */
  function MemberAt(data: Bytes, pos: int): Member {
    if pos + HEADER_LEN > |data| then Malformed
    else
      var magic := Slice(data, pos, pos + 6);
      if magic != MAGIC_NEWC && magic != MAGIC_NEWC_CRC then Malformed
      else
        var mode := U32Hex(Slice(data, pos + 14, pos + 22));
        var size := U32Hex(Slice(data, pos + 54, pos + 62));
        var nameSize := U32Hex(Slice(data, pos + 94, pos + 102));
        if mode.None? || size.None? || nameSize.None? then Malformed
        else if nameSize.value == 0 || nameSize.value > MAX_NAME_LEN then Malformed
        else
          var nameEnd := pos + HEADER_LEN + nameSize.value;
          if nameEnd > |data| then Malformed
          else
            var name := UpToNul(Slice(data, pos + HEADER_LEN, nameEnd));
            var dataStart := Pad4(nameEnd);
            if dataStart + size.value > |data| then Malformed
            else if name == TRAILER then Trailer
            else Found(Record(pos, nameEnd, MakeEntry(name, mode.value, size.value, dataStart)))
  }

  function NextPos(r: Record): int { Pad4(r.entry.dataOffset + r.entry.size) }

  /** The members from `pos` on, at most `room` of them before the trailer. */
  function RecordsFrom(data: Bytes, pos: int, room: nat): Outcome<seq<Record>>
    decreases room
  {
    match MemberAt(data, pos)
    case Malformed => CpioError
    case Trailer => Members([])
    case Found(r) =>
      if room == 0 then CpioError
      else
        match RecordsFrom(data, NextPos(r), room - 1)
        case CpioError => CpioError
        case Members(rs) => Members([r] + rs)
  }

  function EntriesOf(rs: seq<Record>): (es: seq<Entry>)
    ensures |es| == |rs| && forall i :: 0 <= i < |rs| ==> es[i] == rs[i].entry
  {
    if rs == [] then [] else EntriesOf(rs[..|rs| - 1]) + [rs[|rs| - 1].entry]
  }

  function Parsed(data: Bytes, maxEntries: int): Outcome<seq<Record>> {
    if maxEntries <= 0 then CpioError else RecordsFrom(data, 0, maxEntries)
  }

  /** The parser; it takes at most one round more than there may be entries, whatever the input. */
  method ParseNewcEntries(data: Bytes, maxEntries: int) returns (r: Outcome<seq<Entry>>, ghost rounds: nat)
    ensures r == match Parsed(data, maxEntries) case CpioError => CpioError case Members(rs) => Members(EntriesOf(rs))
    ensures rounds <= if maxEntries > 0 then maxEntries + 1 else 0
  {
    hide MemberAt, Pad4;
    rounds := 0;
    if maxEntries <= 0 { return CpioError, 0; }
    var entries: seq<Entry>, pos := [], 0;
    ghost var records: seq<Record> := [];
    ghost var whole := RecordsFrom(data, 0, maxEntries);
    assert whole.Members? ==> [] + whole.value == whole.value;
    while true
      invariant |entries| <= maxEntries && rounds == |entries| == |records| && entries == EntriesOf(records)
      invariant Parsed(data, maxEntries) ==
        match RecordsFrom(data, pos, maxEntries - |entries|) case CpioError => CpioError case Members(rs) => Members(records + rs)
      decreases maxEntries - |entries|
    {
      rounds := rounds + 1;
      var member := MemberAt(data, pos);
      if member.Malformed? { return CpioError, rounds; }
      if member.Trailer? {
        assert records + [] == records;
        return Members(entries), rounds;
      }
      if |entries| >= maxEntries { return CpioError, rounds; }
      var rec := member.record;
      ghost var tail := RecordsFrom(data, NextPos(rec), maxEntries - |entries| - 1);
      assert tail.Members? ==> records + ([rec] + tail.value) == records + [rec] + tail.value;
      assert (records + [rec])[..|records|] == records;
      entries, records := entries + [rec.entry], records + [rec];
      pos := NextPos(rec);
    }
  }

  // ---------- what is read of an accepted archive, field by field

  /** `name` is the field up to its first NUL, or all of it. */
  ghost predicate NameOf(name: Bytes, field: Bytes) {
    && 0 !in name && |name| <= |field| && field[..|name|] == name
    && (|name| < |field| ==> field[|name|] == 0)
  }

  /** A header stands at `pos`: one of the two magics, and a name size from 1 to 4096 whose name ends inside the archive. */
  ghost predicate HeaderAt(data: Bytes, pos: int, nameEnd: int) {
    && pos + 110 <= |data|
    && (Slice(data, pos, pos + 6) == [0x30, 0x37, 0x30, 0x37, 0x30, 0x31] || Slice(data, pos, pos + 6) == [0x30, 0x37, 0x30, 0x37, 0x30, 0x32])
    && U32Hex(Slice(data, pos + 94, pos + 102)) == Some(nameEnd - pos - 110)
    && nameEnd - pos - 110 != 0 && nameEnd - pos - 110 <= 4096 && nameEnd <= |data|
  }

  /** The record tells what its header says: name, mode with the two file types, size, and the aligned start of the data,
      which ends inside the archive. */
  ghost predicate ReadOff(data: Bytes, r: Record) {
    var e := r.entry;
    && HeaderAt(data, r.pos, r.nameEnd)
    && NameOf(e.name, Slice(data, r.pos + 110, r.nameEnd))
    && U32Hex(Slice(data, r.pos + 14, r.pos + 22)) == Some(e.mode)
    && U32Hex(Slice(data, r.pos + 54, r.pos + 62)) == Some(e.size)
    && e.dataOffset % 4 == 0 && r.nameEnd <= e.dataOffset < r.nameEnd + 4 && e.dataOffset + e.size <= |data|
    && (e.isDir <==> 0x4000 <= e.mode % 0x10000 <= 0x4FFF)
    && (e.isSymlink <==> 0xA000 <= e.mode % 0x10000 <= 0xAFFF)
  }

  /** The next header stands at the first multiple of four from the end of the data on. */
  ghost predicate Follows(r: Record, pos: int) {
    pos % 4 == 0 && r.entry.dataOffset + r.entry.size <= pos < r.entry.dataOffset + r.entry.size + 4
  }

  lemma {:induction false} UpToNulMeaning(field: Bytes)
    ensures NameOf(UpToNul(field), field)
  {
    if field != [] && field[0] != 0 {
      UpToNulMeaning(field[1..]);
      var name := UpToNul(field[1..]);
      assert field[..|name| + 1] == [field[0]] + field[1..][..|name|];
    }
  }

  lemma TypeBits(mode: int, typ: int)
    requires 0 <= typ < 16
    ensures HasType(mode, typ) <==> typ * 0x1000 <= mode % 0x10000 < (typ + 1) * 0x1000
  {
    var q, r := mode / 0x10000, mode % 0x10000;
    assert mode == q * 0x10000 + r;
    assert mode / 0x1000 == q * 16 + r / 0x1000;
  }

  lemma FoundReadOff(data: Bytes, pos: int)
    requires MemberAt(data, pos).Found?
    ensures var r := MemberAt(data, pos).record; r.pos == pos && ReadOff(data, r) && r.entry.name != TRAILER
  {
    hide U32Hex, UpToNul, Slice, NameOf, HasType;
    var r := MemberAt(data, pos).record;
    UpToNulMeaning(Slice(data, pos + HEADER_LEN, r.nameEnd));
    TypeBits(r.entry.mode, 4);
    TypeBits(r.entry.mode, 10);
  }

  lemma TrailerReadOff(data: Bytes, pos: int) returns (r: Record)
    requires MemberAt(data, pos).Trailer?
    ensures r.pos == pos && ReadOff(data, r) && r.entry.name == TRAILER
  {
    hide U32Hex, UpToNul, Slice, NameOf, HasType;
    var mode := U32Hex(Slice(data, pos + 14, pos + 22)).value;
    var size := U32Hex(Slice(data, pos + 54, pos + 62)).value;
    var nameEnd := pos + HEADER_LEN + U32Hex(Slice(data, pos + 94, pos + 102)).value;
    r := Record(pos, nameEnd, MakeEntry(TRAILER, mode, size, Pad4(nameEnd)));
    UpToNulMeaning(Slice(data, pos + HEADER_LEN, nameEnd));
    TypeBits(mode, 4);
    TypeBits(mode, 10);
  }

  lemma {:induction false} ReadOffFrom(data: Bytes, pos: int, room: nat) returns (trailer: Record)
    requires RecordsFrom(data, pos, room).Members?
    ensures var rs := RecordsFrom(data, pos, room).value;
      && |rs| <= room
      && (forall i :: 0 <= i < |rs| ==> ReadOff(data, rs[i]) && rs[i].entry.name != TRAILER)
      && (forall i, j :: 0 <= i < j < |rs| && j == i + 1 ==> Follows(rs[i], rs[j].pos))
      && (if rs == [] then trailer.pos == pos else rs[0].pos == pos && Follows(rs[|rs| - 1], trailer.pos))
      && ReadOff(data, trailer) && trailer.entry.name == TRAILER
    decreases room
  {
    hide MemberAt, ReadOff, HeaderAt, NameOf, Slice;
    if MemberAt(data, pos).Found? {
      FoundReadOff(data, pos);
      var r := MemberAt(data, pos).record;
      var rs, rest := RecordsFrom(data, pos, room).value, RecordsFrom(data, NextPos(r), room - 1).value;
      trailer := ReadOffFrom(data, NextPos(r), room - 1);
      assert rs == [r] + rest && rs[0] == r;
      assert forall i, j :: 0 <= i < |rest| && j == i + 1 ==> rs[j] == rest[i];
      assert Follows(r, NextPos(r));
      hide Follows, NextPos;
    } else {
      trailer := TrailerReadOff(data, pos);
    }
  }

  /** Of every accepted input: the members stand one after the other from its beginning, each is told as its header says,
      they are no more than allowed, and a trailer ends them. */
  lemma AcceptedReadOff(data: Bytes, maxEntries: int) returns (trailer: Record)
    requires Parsed(data, maxEntries).Members?
    ensures var rs := Parsed(data, maxEntries).value;
      && |rs| <= maxEntries
      && (forall i :: 0 <= i < |rs| ==> ReadOff(data, rs[i]) && rs[i].entry.name != TRAILER)
      && (forall i, j :: 0 <= i < j < |rs| && j == i + 1 ==> Follows(rs[i], rs[j].pos))
      && (if rs == [] then trailer.pos == 0 else rs[0].pos == 0 && Follows(rs[|rs| - 1], trailer.pos))
      && ReadOff(data, trailer) && trailer.entry.name == TRAILER
  {
    hide ReadOff, Follows, RecordsFrom;
    trailer := ReadOffFrom(data, 0, maxEntries);
  }

  /** Conversely, what can be read off at a position is what the parser sees there. */
  lemma ReadOffSeen(data: Bytes, r: Record)
    requires ReadOff(data, r)
    ensures MemberAt(data, r.pos) == if r.entry.name == TRAILER then Trailer else Found(r)
  {
    hide U32Hex, UpToNul, Slice, NameOf, HasType;
    UpToNulMeaning(Slice(data, r.pos + HEADER_LEN, r.nameEnd));
    NameUnique(r.entry.name, UpToNul(Slice(data, r.pos + HEADER_LEN, r.nameEnd)), Slice(data, r.pos + HEADER_LEN, r.nameEnd));
    TypeBits(r.entry.mode, 4);
    TypeBits(r.entry.mode, 10);
  }

  /** So an input is accepted if and only if such members and such a trailer stand in it: they are what is returned. */
  lemma {:induction false} ReadOffAccepted(data: Bytes, pos: int, room: nat, rs: seq<Record>, trailer: Record)
    requires |rs| <= room
    requires forall i :: 0 <= i < |rs| ==> ReadOff(data, rs[i]) && rs[i].entry.name != TRAILER
    requires forall i, j :: 0 <= i < j < |rs| && j == i + 1 ==> Follows(rs[i], rs[j].pos)
    requires if rs == [] then trailer.pos == pos else rs[0].pos == pos && Follows(rs[|rs| - 1], trailer.pos)
    requires ReadOff(data, trailer) && trailer.entry.name == TRAILER
    ensures RecordsFrom(data, pos, room) == Members(rs)
    decreases |rs|
  {
    hide MemberAt, ReadOff;
    if rs == [] {
      ReadOffSeen(data, trailer);
    } else {
      var rest := rs[1..];
      ReadOffSeen(data, rs[0]);
      assert forall i, j :: 0 <= i < |rest| && j == i + 1 ==> rest[i] == rs[j];
      if rest != [] { assert Follows(rs[0], rs[1].pos); }
      var next := if rest == [] then trailer.pos else rest[0].pos;
      assert next == NextPos(rs[0]);
      forall i, j | 0 <= i < j < |rest| && j == i + 1 ensures Follows(rest[i], rest[j].pos) { assert rest[i] == rs[j] && rest[j] == rs[j + 1]; }
      ReadOffAccepted(data, next, room - 1, rest, trailer);
      assert [rs[0]] + rest == rs;
    }
  }

  lemma PrefixAt(prefix: Bytes, field: Bytes, k: nat)
    requires 0 !in prefix && |prefix| <= |field| && field[..|prefix|] == prefix
    ensures k < |prefix| ==> field[k] == prefix[k] != 0
  {
  }

  lemma NameUnique(name: Bytes, other: Bytes, field: Bytes)
    requires NameOf(name, field) && NameOf(other, field)
    ensures name == other
  {
    PrefixAt(name, field, |other|);
    PrefixAt(other, field, |name|);
  }

  // ---------- where the members of an accepted archive lie

  /** Header, name and data of the member lie inside the archive, one after the other, header and data aligned. */
  ghost predicate LaidOut(data: Bytes, r: Record) {
    && 0 <= r.pos && r.pos % 4 == 0
    && r.pos + HEADER_LEN <= r.nameEnd <= r.entry.dataOffset && r.entry.dataOffset % 4 == 0
    && r.entry.dataOffset <= r.entry.dataOffset + r.entry.size <= |data|
  }

  ghost predicate InOrder(rs: seq<Record>) {
    forall i, j :: 0 <= i < j < |rs| ==> rs[i].entry.dataOffset + rs[i].entry.size <= rs[j].pos
  }

  predicate NoNegativeSize(r: Record) { r.pos + HEADER_LEN <= r.nameEnd && r.entry.size >= 0 }

  lemma FoundMeaning(data: Bytes, pos: int)
    requires MemberAt(data, pos).Found?
    ensures var r := MemberAt(data, pos).record;
      r.pos == pos && r.nameEnd <= |data| && r.entry.dataOffset == Pad4(r.nameEnd) && r.entry.dataOffset + r.entry.size <= |data|
  {
    hide U32Hex, UpToNul, Slice, Pad4;
  }

  lemma {:induction false} SpansFrom(data: Bytes, pos: int, room: nat)
    requires RecordsFrom(data, pos, room).Members? && 0 <= pos && pos % 4 == 0
    requires forall i :: 0 <= i < |RecordsFrom(data, pos, room).value| ==> NoNegativeSize(RecordsFrom(data, pos, room).value[i])
    ensures var rs := RecordsFrom(data, pos, room).value;
      && (forall i :: 0 <= i < |rs| ==> LaidOut(data, rs[i]) && pos <= rs[i].pos)
      && InOrder(rs)
    decreases room
  {
    hide MemberAt;
    if MemberAt(data, pos).Found? {
      FoundMeaning(data, pos);
      var r := MemberAt(data, pos).record;
      var rs := RecordsFrom(data, pos, room).value;
      var rest := RecordsFrom(data, NextPos(r), room - 1).value;
      assert rs == [r] + rest && rs[0] == r;
      assert forall i :: 0 <= i < |rest| ==> rest[i] == rs[i + 1];
      assert NoNegativeSize(r);
      SpansFrom(data, NextPos(r), room - 1);
    }
  }

  /** From header to header of the input, up to the trailer: the length fields read as a file size that is not
      negative and a name size of at least one. */
  predicate LengthsOk(data: Bytes, pos: int, room: nat)
    decreases room
  {
    if pos + HEADER_LEN > |data| then true
    else
      var size := U32Hex(Slice(data, pos + 54, pos + 62));
      var nameSize := U32Hex(Slice(data, pos + 94, pos + 102));
      if size.None? || nameSize.None? then true
      else
        var nameEnd := pos + HEADER_LEN + nameSize.value;
        if UpToNul(Slice(data, pos + HEADER_LEN, nameEnd)) == TRAILER then true
        else size.value >= 0 && nameSize.value >= 1 && (room == 0 || LengthsOk(data, Pad4(Pad4(nameEnd) + size.value), room - 1))
  }

  lemma LengthsOkAt(data: Bytes, pos: int, room: nat)
    requires !MemberAt(data, pos).Malformed?
    ensures LengthsOk(data, pos, room) <==>
      (MemberAt(data, pos).Found? ==>
         var r := MemberAt(data, pos).record; NoNegativeSize(r) && (room == 0 || LengthsOk(data, NextPos(r), room - 1)))
  {
    hide U32Hex, UpToNul, Slice, Pad4;
  }

  lemma {:induction false} LengthsOkIff(data: Bytes, pos: int, room: nat)
    requires RecordsFrom(data, pos, room).Members?
    ensures LengthsOk(data, pos, room) <==>
      forall i :: 0 <= i < |RecordsFrom(data, pos, room).value| ==> NoNegativeSize(RecordsFrom(data, pos, room).value[i])
    decreases room
  {
    hide MemberAt, LengthsOk, NoNegativeSize, NextPos;
    LengthsOkAt(data, pos, room);
    if MemberAt(data, pos).Found? {
      var r := MemberAt(data, pos).record;
      var rs, rest := RecordsFrom(data, pos, room).value, RecordsFrom(data, NextPos(r), room - 1).value;
      LengthsOkIff(data, NextPos(r), room - 1);
      assert rs == [r] + rest && rs[0] == r;
      assert forall i :: 0 <= i < |rest| ==> rest[i] == rs[i + 1];
    }
  }

  /** An accepted archive has its members in bounds, aligned, ascending and disjoint if and only if the length
      fields met on the way from header to header are not negative. */
  lemma SpansIff(data: Bytes, maxEntries: int)
    requires Parsed(data, maxEntries).Members?
    ensures var rs := Parsed(data, maxEntries).value;
      ((forall i :: 0 <= i < |rs| ==> LaidOut(data, rs[i])) && InOrder(rs)) <==> LengthsOk(data, 0, maxEntries)
  {
    hide RecordsFrom, LengthsOk;
    var rs := Parsed(data, maxEntries).value;
    LengthsOkIff(data, 0, maxEntries);
    if forall i :: 0 <= i < |rs| ==> NoNegativeSize(rs[i]) { SpansFrom(data, 0, maxEntries); }
  }

  // ---------- strict hex fields

  predicate StrictHex(field: Bytes) { |field| == 8 && forall i :: 0 <= i < 8 ==> IsHex(field[i]) }

  function HexValue(s: Bytes): nat
    requires forall i :: 0 <= i < |s| ==> IsHex(s[i])
  {
    if s == [] then 0 else HexValue(s[..|s| - 1]) * 16 + HexDigit(s[|s| - 1])
  }

  lemma {:induction false} DigitsOfHex(s: Bytes)
    requires s != [] && forall i :: 0 <= i < |s| ==> IsHex(s[i])
    ensures Digits(s) == Some(HexValue(s))
  {
    if |s| > 1 { DigitsOfHex(s[..|s| - 1]); }
  }

  function Pow16(n: nat): nat { if n == 0 then 1 else 16 * Pow16(n - 1) }

  lemma {:induction false} HexBound(s: Bytes)
    requires forall i :: 0 <= i < |s| ==> IsHex(s[i])
    ensures HexValue(s) < Pow16(|s|)
  {
    if s != [] { HexBound(s[..|s| - 1]); }
  }

  /** On eight hex digits the lax reading is the plain one. */
  lemma StrictField(field: Bytes)
    requires StrictHex(field)
    ensures U32Hex(field) == Some(HexValue(field)) && 0 <= HexValue(field) < 0x1_0000_0000
  {
    assert !IsSpace(field[0]) && !IsSpace(field[7]);
    assert TrimLeft(field) == field && TrimRight(field) == field;
    DigitsOfHex(field);
    HexBound(field);
    assert Pow16(8) == 0x1_0000_0000 by {
      assert Pow16(1) == 16 && Pow16(2) == 256 && Pow16(4) == 65536;
    }
  }

  /** The bytes that Python's integer reading takes beside hex digits. */
  predicate Lax(b: Byte) { IsSpace(b) || b == 0x2B || b == 0x2D || b == 0x5F || b == 0x78 || b == 0x58 }

  lemma {:induction false} DigitsAreHex(s: Bytes)
    requires Digits(s).Some? && 0x5F !in s
    ensures forall i :: 0 <= i < |s| ==> IsHex(s[i])
    decreases |s|
  {
    if |s| > 1 {
      assert s[|s| - 2] in s;
      DigitsAreHex(s[..|s| - 1]);
    }
  }

  /** Eight bytes without any of those are accepted if and only if they are hex digits, as documented. */
  lemma StrictFieldIff(field: Bytes)
    requires |field| == 8 && forall i :: 0 <= i < 8 ==> !Lax(field[i])
    ensures U32Hex(field).Some? <==> StrictHex(field)
  {
    assert !IsSpace(field[0]) && !IsSpace(field[7]);
    assert TrimLeft(field) == field && TrimRight(field) == field;
    assert !Lax(field[0]) && !Lax(field[1]);
    assert Unsigned(field) == Digits(field);
    if StrictHex(field) {
      StrictField(field);
    } else if Digits(field).Some? {
      DigitsAreHex(field);
    }
  }

  // ---------- the lax integer reading, as a grammar

  /** Hex digits with single underscores between them. */
  ghost predicate Grouped(s: Bytes) {
    && s != [] && IsHex(s[0]) && IsHex(s[|s| - 1])
    && (forall i :: 0 <= i < |s| ==> IsHex(s[i]) || s[i] == 0x5F)
    && (forall i, j :: 0 <= i < j < |s| && j == i + 1 ==> IsHex(s[i]) || IsHex(s[j]))
  }

  /** The digits without the underscores. */
  function Plain(s: Bytes): (p: Bytes)
    requires forall i :: 0 <= i < |s| ==> IsHex(s[i]) || s[i] == 0x5F
    ensures forall i :: 0 <= i < |p| ==> IsHex(p[i])
  {
    if s == [] then [] else Plain(s[..|s| - 1]) + if s[|s| - 1] == 0x5F then [] else [s[|s| - 1]]
  }

  lemma {:induction false} DigitsExact(s: Bytes)
    ensures Digits(s) == if Grouped(s) then Some(HexValue(Plain(s))) else None
    decreases |s|
  {
    hide Digits, Grouped, Plain, HexValue;
    if |s| > 1 && IsHex(s[|s| - 1]) {
      var shorter := if s[|s| - 2] == 0x5F then s[..|s| - 2] else s[..|s| - 1];
      DigitsStep(s, shorter);
      DigitsExact(shorter);
      GroupedBefore(s, shorter);
      if Grouped(s) { PlainBefore(s, shorter); }
    } else {
      DigitsShort(s);
    }
  }

  lemma DigitsStep(s: Bytes, shorter: Bytes)
    requires |s| > 1 && IsHex(s[|s| - 1])
    requires shorter == if s[|s| - 2] == 0x5F then s[..|s| - 2] else s[..|s| - 1]
    ensures Digits(s) == if Digits(shorter).None? then None else Some(Digits(shorter).value * 16 + HexDigit(s[|s| - 1]))
  {
    assert s[..|s| - 1][..|s| - 2] == s[..|s| - 2];
  }

  lemma DigitsShort(s: Bytes)
    requires |s| <= 1 || !IsHex(s[|s| - 1])
    ensures Digits(s) == if Grouped(s) then Some(HexValue(Plain(s))) else None
  {
    hide Plain, HexValue;
    if |s| == 1 && IsHex(s[0]) {
      OneDigit(s[0]);
      assert s == [s[0]];
    } else {
      assert !Grouped(s);
    }
  }

  lemma OneDigit(b: Byte)
    requires IsHex(b)
    ensures Grouped([b]) && Plain([b]) == [b] && Digits([b]) == Some(HexValue([b]))
  {
    assert [b][..0] == [];
    hide Grouped;
    assert Plain([b]) == [b] by { hide HexValue, Digits; PlainOne(b); }
    assert Digits([b]) == Some(HexDigit(b)) && HexValue([b]) == HexDigit(b) by { hide Plain; }
    GroupedOne(b);
    hide Plain, Digits, HexValue;
  }

  lemma PlainOne(b: Byte)
    requires IsHex(b)
    ensures Plain([b]) == [b]
  {
    assert [b][..0] == [] && Plain([]) == [];
  }

  lemma GroupedOne(b: Byte)
    requires IsHex(b)
    ensures Grouped([b])
  {
  }

  lemma GroupedBefore(s: Bytes, shorter: Bytes)
    requires |s| > 1 && IsHex(s[|s| - 1])
    requires shorter == if s[|s| - 2] == 0x5F then s[..|s| - 2] else s[..|s| - 1]
    ensures Grouped(s) <==> Grouped(shorter)
  {
    if Grouped(s) {
      assert IsHex(shorter[|shorter| - 1]);
    }
    if Grouped(shorter) {
      forall i | 0 <= i < |s| ensures IsHex(s[i]) || s[i] == 0x5F { if i < |shorter| { assert s[i] == shorter[i]; } }
      forall i, j | 0 <= i < j < |s| && j == i + 1 ensures IsHex(s[i]) || IsHex(s[j]) {
        if j < |shorter| { assert s[i] == shorter[i] && s[j] == shorter[j]; }
      }
      assert s[0] == shorter[0] && s[|shorter| - 1] == shorter[|shorter| - 1];
    }
  }

  lemma PlainBefore(s: Bytes, shorter: Bytes)
    requires |s| > 1 && Grouped(s) && Grouped(shorter)
    requires shorter == if s[|s| - 2] == 0x5F then s[..|s| - 2] else s[..|s| - 1]
    ensures Plain(s) == Plain(shorter) + [s[|s| - 1]]
    ensures HexValue(Plain(s)) == HexValue(Plain(shorter)) * 16 + HexDigit(s[|s| - 1])
  {
    var init := s[..|s| - 1];
    if s[|s| - 2] == 0x5F { assert init[..|init| - 1] == shorter && Plain(init) == Plain(shorter); }
    assert Plain(s)[..|Plain(s)| - 1] == Plain(shorter);
  }

  lemma {:induction false} TrimmedLeft(lead: Bytes, rest: Bytes)
    requires (forall i :: 0 <= i < |lead| ==> IsSpace(lead[i])) && (rest == [] || !IsSpace(rest[0]))
    ensures TrimLeft(lead + rest) == rest
  {
    if lead == [] {
      assert lead + rest == rest;
    } else {
      assert (lead + rest)[1..] == lead[1..] + rest;
      TrimmedLeft(lead[1..], rest);
    }
  }

  lemma {:induction false} TrimmedRight(rest: Bytes, trail: Bytes)
    requires (forall i :: 0 <= i < |trail| ==> IsSpace(trail[i])) && (rest == [] || !IsSpace(rest[|rest| - 1]))
    ensures TrimRight(rest + trail) == rest
    decreases |trail|
  {
    if trail == [] {
      assert rest + trail == rest;
    } else {
      assert (rest + trail)[..|rest + trail| - 1] == rest + trail[..|trail| - 1];
      TrimmedRight(rest, trail[..|trail| - 1]);
    }
  }

  function AfterSign(core: Bytes): Bytes { if core != [] && core[0] in {0x2B, 0x2D} then core[1..] else core }

  function AfterPrefix(s: Bytes): Bytes {
    if |s| >= 2 && s[0] == 0x30 && s[1] in {0x78, 0x58} then (if |s| >= 3 && s[2] == 0x5F then s[3..] else s[2..]) else s
  }

  /** A field is read if and only if, between white space, it is an optional sign, an optional "0x" with at most one
      underscore after it, and hex digits with single underscores between them; then it is read as the signed number. */
  lemma FieldExact(field: Bytes, lead: Bytes, core: Bytes, trail: Bytes)
    requires field == lead + core + trail && core != [] && !IsSpace(core[0]) && !IsSpace(core[|core| - 1])
    requires (forall i :: 0 <= i < |lead| ==> IsSpace(lead[i])) && forall i :: 0 <= i < |trail| ==> IsSpace(trail[i])
    ensures var digits := AfterPrefix(AfterSign(core));
      U32Hex(field) ==
        if Grouped(digits) then Some(if core[0] == 0x2D then 0 - HexValue(Plain(digits)) else HexValue(Plain(digits))) else None
  {
    hide Grouped, Plain, HexValue, Digits;
    var digits := AfterPrefix(AfterSign(core));
    DigitsExact(digits);
    assert field == lead + (core + trail);
    TrimmedLeft(lead, core + trail);
    TrimmedRight(core, trail);
    assert Unsigned(AfterSign(core)) == Digits(digits);
    if exists i :: 0 <= i < |field| && field[i] >= 128 { NotAscii(field, lead, core, trail); }
  }

  lemma NotAscii(field: Bytes, lead: Bytes, core: Bytes, trail: Bytes)
    requires field == lead + core + trail && core != []
    requires (forall i :: 0 <= i < |lead| ==> IsSpace(lead[i])) && forall i :: 0 <= i < |trail| ==> IsSpace(trail[i])
    requires exists i :: 0 <= i < |field| && field[i] >= 128
    ensures !Grouped(AfterPrefix(AfterSign(core)))
  {
    hide Grouped, AfterPrefix, AfterSign, IsHex;
    var i :| 0 <= i < |field| && field[i] >= 128;
    assert core[i - |lead|] == field[i];
    HighStays(core, field[i]);
    NotGrouped(AfterPrefix(AfterSign(core)), field[i]);
  }

  lemma NotGrouped(s: Bytes, b: Byte)
    requires b in s && b >= 128
    ensures !Grouped(s)
  {
  }

  lemma InTail(s: Bytes, k: nat, b: Byte)
    requires b in s && k <= |s| && forall i :: 0 <= i < k ==> s[i] != b
    ensures b in s[k..]
  {
    var i :| 0 <= i < |s| && s[i] == b;
    assert s[k..][i - k] == b;
  }

  lemma HighStays(core: Bytes, b: Byte)
    requires b in core && b >= 128
    ensures b in AfterPrefix(AfterSign(core))
  {
    var s := AfterSign(core);
    if s != core { InTail(core, 1, b); }
    HighAfterPrefix(s, b);
  }

  lemma HighAfterPrefix(s: Bytes, b: Byte)
    requires b in s && b >= 128
    ensures b in AfterPrefix(s)
  {
    if |s| >= 2 && s[0] == 0x30 && s[1] in {0x78, 0x58} { InTail(s, if |s| >= 3 && s[2] == 0x5F then 3 else 2, b); }
  }

  /** The two length fields of the member's header are strict. */
  predicate StrictLengths(data: Bytes, r: Record) {
    StrictHex(Slice(data, r.pos + 54, r.pos + 62)) && StrictHex(Slice(data, r.pos + 94, r.pos + 102))
  }

  /** Every record is what the parser sees at its position. */
  lemma {:induction false} RecordsAreMembers(data: Bytes, pos: int, room: nat, i: nat)
    requires RecordsFrom(data, pos, room).Members? && i < |RecordsFrom(data, pos, room).value|
    ensures var r := RecordsFrom(data, pos, room).value[i]; MemberAt(data, r.pos) == Found(r)
    decreases room
  {
    hide MemberAt;
    FoundMeaning(data, pos);
    if i > 0 { RecordsAreMembers(data, NextPos(MemberAt(data, pos).record), room - 1, i - 1); }
  }

  lemma StrictRecord(data: Bytes, r: Record)
    requires MemberAt(data, r.pos) == Found(r) && StrictLengths(data, r)
    ensures NoNegativeSize(r)
  {
    hide U32Hex, HexValue, UpToNul, Slice, Pad4;
    StrictField(Slice(data, r.pos + 54, r.pos + 62));
    StrictField(Slice(data, r.pos + 94, r.pos + 102));
  }

  /** With eight hex digits in every length field, an accepted archive has its members in bounds, aligned,
      ascending and disjoint. */
  lemma StrictSpans(data: Bytes, maxEntries: int)
    requires Parsed(data, maxEntries).Members?
    requires forall i :: 0 <= i < |Parsed(data, maxEntries).value| ==> StrictLengths(data, Parsed(data, maxEntries).value[i])
    ensures var rs := Parsed(data, maxEntries).value; (forall i :: 0 <= i < |rs| ==> LaidOut(data, rs[i])) && InOrder(rs)
  {
    hide StrictLengths, MemberAt, RecordsFrom;
    var rs := Parsed(data, maxEntries).value;
    forall i | 0 <= i < |rs| ensures NoNegativeSize(rs[i]) {
      RecordsAreMembers(data, 0, maxEntries, i);
      StrictRecord(data, rs[i]);
    }
    SpansFrom(data, 0, maxEntries);
  }

  function HexChar(d: nat): Byte
    requires d < 16
  {
    if d < 10 then 0x30 + d else 0x61 + d - 10
  }

  /** `n` in exactly `k` hex digits. */
  function Hex(n: nat, k: nat): (s: Bytes)
    ensures |s| == k && forall i :: 0 <= i < k ==> IsHex(s[i])
  {
    if k == 0 then [] else Hex(n / 16, k - 1) + [HexChar(n % 16)]
  }

  lemma {:induction false} HexRoundTrip(n: nat, k: nat)
    requires n < Pow16(k)
    ensures HexValue(Hex(n, k)) == n
  {
    if k > 0 {
      HexRoundTrip(n / 16, k - 1);
      assert Hex(n, k)[..k - 1] == Hex(n / 16, k - 1);
    }
  }

  lemma HexField(n: nat)
    requires n < 0x1_0000_0000
    ensures U32Hex(Hex(n, 8)) == Some(n) && StrictHex(Hex(n, 8)) && HexValue(Hex(n, 8)) == n
  {
    assert Pow16(8) == 0x1_0000_0000 by {
      assert Pow16(1) == 16 && Pow16(2) == 256 && Pow16(4) == 65536;
    }
    HexRoundTrip(n, 8);
    StrictField(Hex(n, 8));
  }

  // ---------- the printer

  /** A member as it is written: the fields the parser reads are given as text, those it skips and the padding
      (`gap` after the name, `tail` after the data) are any bytes. */
  datatype Spelled = Spelled(
    crc: bool, ino: Bytes, modeField: Bytes, owner: Bytes, sizeField: Bytes, devices: Bytes, nameField: Bytes, check: Bytes,
    name: Bytes, gap: Bytes, data: Bytes, tail: Bytes)

  predicate FieldWidths(m: Spelled) {
    && |m.ino| == 8 && |m.modeField| == 8 && |m.owner| == 32 && |m.sizeField| == 8 && |m.devices| == 32
    && |m.nameField| == 8 && |m.check| == 8
    && var n := HEADER_LEN + |m.name| + 1; |m.gap| == Pad4(n) - n && |m.tail| == Pad4(Pad4(n) + |m.data|) - Pad4(n) - |m.data|
  }

  function Header(m: Spelled): (h: Bytes)
    requires FieldWidths(m)
    ensures |h| == HEADER_LEN
  {
    (if m.crc then MAGIC_NEWC_CRC else MAGIC_NEWC) + m.ino + m.modeField + m.owner + m.sizeField + m.devices + m.nameField + m.check
  }

  function Zeros(n: nat): (z: Bytes)
    ensures |z| == n
  {
    seq(n, i => 0)
  }

  /** The printer: header, name, NUL, padding, data, padding. */
  function Spell(m: Spelled): (s: Bytes)
    requires FieldWidths(m)
    ensures |s| == Pad4(Pad4(HEADER_LEN + |m.name| + 1) + |m.data|)
  {
    Header(m) + m.name + [0] + m.gap + m.data + m.tail
  }

  lemma {:induction false} NameUpToNul(name: Bytes, rest: Bytes)
    requires 0 !in name
    ensures UpToNul(name + [0] + rest) == name
  {
    if name != [] {
      assert (name + [0] + rest)[1..] == name[1..] + [0] + rest;
      NameUpToNul(name[1..], rest);
    }
  }

  lemma HeaderSlices(m: Spelled)
    requires FieldWidths(m)
    ensures var h := Header(m);
      && h[..6] == (if m.crc then MAGIC_NEWC_CRC else MAGIC_NEWC)
      && h[14..22] == m.modeField && h[54..62] == m.sizeField && h[94..102] == m.nameField
  {
  }

  lemma SliceInside(before: Bytes, mid: Bytes, after: Bytes, a: nat, b: nat)
    requires a <= b <= |mid|
    ensures Slice(before + mid + after, |before| + a, |before| + b) == mid[a..b]
  {
  }

  lemma SpellSlices(m: Spelled)
    requires FieldWidths(m)
    ensures |Spell(m)| >= HEADER_LEN + |m.name| + 1
    ensures var s := Spell(m);
      && s[0..6] == (if m.crc then MAGIC_NEWC_CRC else MAGIC_NEWC)
      && s[14..22] == m.modeField && s[54..62] == m.sizeField && s[94..102] == m.nameField
      && s[HEADER_LEN..HEADER_LEN + |m.name| + 1] == m.name + [0]
  {
    var s, h := Spell(m), Header(m);
    HeaderSlices(m);
    hide Header;
    assert s[..HEADER_LEN] == h;
    assert s[0..6] == h[..6];
    assert s[14..22] == h[14..22];
    assert s[54..62] == h[54..62];
    assert s[94..102] == h[94..102];
  }

  /** What the parser sees of a spelled member that stands at an aligned position. */
  lemma SpelledMember(before: Bytes, m: Spelled, after: Bytes, mode: int, size: int)
    requires FieldWidths(m) && |before| % 4 == 0 && 0 !in m.name && |m.name| < MAX_NAME_LEN
    requires U32Hex(m.modeField) == Some(mode) && U32Hex(m.sizeField) == Some(size) && U32Hex(m.nameField) == Some(|m.name| + 1)
    requires size <= |m.data|
    ensures var at := MemberAt(before + Spell(m) + after, |before|); var nameEnd := |before| + HEADER_LEN + |m.name| + 1;
      if m.name == TRAILER then at == Trailer
      else at == Found(Record(|before|, nameEnd, MakeEntry(m.name, mode, size, Pad4(nameEnd))))
  {
    hide U32Hex, UpToNul, Slice, Spell, MakeEntry;
    var s := Spell(m);
    SpellSlices(m);
    SliceInside(before, s, after, 0, 6);
    SliceInside(before, s, after, 14, 22);
    SliceInside(before, s, after, 54, 62);
    SliceInside(before, s, after, 94, 102);
    SliceInside(before, s, after, HEADER_LEN, HEADER_LEN + |m.name| + 1);
    NameUpToNul(m.name, []);
    assert m.name + [0] + [] == m.name + [0];
    PadShift(|before|, HEADER_LEN + |m.name| + 1);
  }

  lemma PadShift(p: int, v: int)
    requires p % 4 == 0
    ensures Pad4(p + v) == p + Pad4(v)
  {
  }

  // ---------- archives

  /** A well-formed member: the three fields that are read are eight hex digits of either case, the lengths are true,
      and the name is free of NUL and within its cap. */
  predicate Strict(m: Spelled) {
    && FieldWidths(m) && 0 !in m.name && |m.name| < MAX_NAME_LEN
    && StrictHex(m.modeField) && StrictHex(m.sizeField) && StrictHex(m.nameField)
    && HexValue(m.sizeField) == |m.data| && HexValue(m.nameField) == |m.name| + 1
  }

  predicate AllStrict(ms: seq<Spelled>) { forall i :: 0 <= i < |ms| ==> Strict(ms[i]) && ms[i].name != TRAILER }

  function Padding(n: nat): Bytes { Zeros(Pad4(n) - n) }

  /** Every file has a well-formed spelling. */
  lemma SpellingExists(mode: nat, name: Bytes, data: Bytes) returns (m: Spelled)
    requires mode < 0x1_0000_0000 && |data| < 0x1_0000_0000 && 0 !in name && |name| < MAX_NAME_LEN
    ensures Strict(m) && m.name == name && m.data == data && HexValue(m.modeField) == mode
  {
    hide Hex, HexValue, Pad4;
    HexField(mode);
    HexField(|data|);
    HexField(|name| + 1);
    var n := HEADER_LEN + |name| + 1;
    m := Spelled(false, Zeros(8), Hex(mode, 8), Zeros(32), Hex(|data|, 8), Zeros(32), Hex(|name| + 1, 8), Zeros(8),
                 name, Padding(n), data, Padding(Pad4(n) + |data|));
  }

  function SpellAll(ms: seq<Spelled>): Bytes
    requires AllStrict(ms)
  {
    if ms == [] then [] else Spell(ms[0]) + SpellAll(ms[1..])
  }

  /** What is to be read back of a member written at `pos`. */
  function RecordOf(m: Spelled, pos: int): Record
    requires Strict(m)
  {
    var nameEnd := pos + HEADER_LEN + |m.name| + 1;
    Record(pos, nameEnd, MakeEntry(m.name, HexValue(m.modeField), |m.data|, Pad4(nameEnd)))
  }

  /** The records of members written one after the other from `pos` on. */
  function RecordsOf(ms: seq<Spelled>, pos: int): (rs: seq<Record>)
    requires AllStrict(ms)
    ensures |rs| == |ms|
  {
    if ms == [] then [] else [RecordOf(ms[0], pos)] + RecordsOf(ms[1..], pos + |Spell(ms[0])|)
  }

  /** The member after a written one begins where it ends. */
  lemma AfterWritten(at: int, m: Spelled)
    requires Strict(m) && at % 4 == 0
    ensures NextPos(RecordOf(m, at)) == at + |Spell(m)| && (at + |Spell(m)|) % 4 == 0
  {
    hide Spell, HexValue, StrictHex;
    PadShift(at, HEADER_LEN + |m.name| + 1);
    PadShift(at, Pad4(HEADER_LEN + |m.name| + 1) + |m.data|);
  }

  lemma WrittenMember(before: Bytes, m: Spelled, after: Bytes)
    requires Strict(m) && |before| % 4 == 0
    ensures MemberAt(before + Spell(m) + after, |before|) == if m.name == TRAILER then Trailer else Found(RecordOf(m, |before|))
  {
    hide MemberAt, U32Hex, Spell, HexValue, MakeEntry, Pad4;
    StrictField(m.modeField);
    StrictField(m.sizeField);
    StrictField(m.nameField);
    SpelledMember(before, m, after, HexValue(m.modeField), |m.data|);
  }

  /** Members, then a trailer, then anything: parsed back exactly if there is room for them, refused otherwise. */
  lemma {:induction false} WrittenFrom(before: Bytes, ms: seq<Spelled>, trailer: Spelled, after: Bytes, room: nat)
    requires AllStrict(ms) && Strict(trailer) && trailer.name == TRAILER && |before| % 4 == 0
    ensures RecordsFrom(before + SpellAll(ms) + Spell(trailer) + after, |before|, room)
         == if |ms| <= room then Members(RecordsOf(ms, |before|)) else CpioError
    decreases |ms|
  {
    hide MemberAt, Spell, FieldWidths, StrictHex, HexValue, RecordOf, NextPos;
    var all := before + SpellAll(ms) + Spell(trailer) + after;
    if ms == [] {
      assert all == before + Spell(trailer) + after;
      WrittenMember(before, trailer, after);
    } else {
      var rest := SpellAll(ms[1..]) + Spell(trailer) + after;
      assert all == before + Spell(ms[0]) + rest;
      WrittenMember(before, ms[0], rest);
      AfterWritten(|before|, ms[0]);
      if room > 0 {
        var next := before + Spell(ms[0]);
        assert all == next + SpellAll(ms[1..]) + Spell(trailer) + after;
        WrittenFrom(next, ms[1..], trailer, after, room - 1);
      }
    }
  }

  /** Parsing undoes printing. */
  lemma PrintParse(ms: seq<Spelled>, trailer: Spelled, after: Bytes, maxEntries: int)
    requires AllStrict(ms) && Strict(trailer) && trailer.name == TRAILER
    ensures Parsed(SpellAll(ms) + Spell(trailer) + after, maxEntries)
         == if 0 < maxEntries && |ms| <= maxEntries then Members(RecordsOf(ms, 0)) else CpioError
  {
    hide Spell, SpellAll, RecordsFrom, RecordsOf, FieldWidths, StrictHex, HexValue, AllStrict;
    if maxEntries > 0 { WrittenFrom([], ms, trailer, after, maxEntries); }
    assert [] + SpellAll(ms) + Spell(trailer) + after == SpellAll(ms) + Spell(trailer) + after;
  }

  /** The reported offset is where the member's data is. */
  lemma {:induction false} DataAtOffset(before: Bytes, ms: seq<Spelled>, after: Bytes, i: nat)
    requires AllStrict(ms) && |before| % 4 == 0 && i < |ms|
    ensures var e := RecordsOf(ms, |before|)[i].entry;
      && e.name == ms[i].name && e.mode == HexValue(ms[i].modeField) && e.size == |ms[i].data|
      && (e.isDir <==> 0x4000 <= HexValue(ms[i].modeField) % 0x10000 <= 0x4FFF)
      && (e.isSymlink <==> 0xA000 <= HexValue(ms[i].modeField) % 0x10000 <= 0xAFFF)
      && Slice(before + SpellAll(ms) + after, e.dataOffset, e.dataOffset + e.size) == ms[i].data
    decreases |ms|
  {
    hide Slice, Spell, FieldWidths, StrictHex, RecordOf, NextPos, HexValue;
    AfterWritten(|before|, ms[0]);
    var next, rest := before + Spell(ms[0]), SpellAll(ms[1..]) + after;
    if i == 0 {
      assert before + SpellAll(ms) + after == before + Spell(ms[0]) + rest;
      FirstData(before, ms[0], rest);
    } else {
      assert before + SpellAll(ms) + after == next + SpellAll(ms[1..]) + after;
      DataAtOffset(next, ms[1..], after, i - 1);
    }
  }

  lemma FirstData(before: Bytes, m: Spelled, rest: Bytes)
    requires Strict(m) && |before| % 4 == 0
    ensures var e := RecordOf(m, |before|).entry;
      && e.name == m.name && e.mode == HexValue(m.modeField) && e.size == |m.data|
      && (e.isDir <==> 0x4000 <= e.mode % 0x10000 <= 0x4FFF) && (e.isSymlink <==> 0xA000 <= e.mode % 0x10000 <= 0xAFFF)
      && Slice(before + Spell(m) + rest, e.dataOffset, e.dataOffset + e.size) == m.data
  {
    hide Slice, Spell, Pad4, HexValue, HasType;
    TypeBits(HexValue(m.modeField), 4);
    TypeBits(HexValue(m.modeField), 10);
    var n := HEADER_LEN + |m.name| + 1;
    PadShift(|before|, n);
    DataInSpelling(m);
    SliceInside(before, Spell(m), rest, Pad4(n), Pad4(n) + |m.data|);
  }

  lemma DataInSpelling(m: Spelled)
    requires FieldWidths(m)
    ensures var start := Pad4(HEADER_LEN + |m.name| + 1);
      |Spell(m)| >= start + |m.data| && Spell(m)[start..start + |m.data|] == m.data
  {
    hide Header, Pad4;
  }

  /** Without a trailer nothing is accepted. */
  lemma {:induction false} NoTrailerNoArchive(before: Bytes, ms: seq<Spelled>, room: nat)
    requires AllStrict(ms) && |before| % 4 == 0
    ensures RecordsFrom(before + SpellAll(ms), |before|, room) == CpioError
    decreases |ms|
  {
    hide MemberAt, Spell, FieldWidths, StrictHex, HexValue, RecordOf, NextPos;
    if ms == [] {
      assert before + SpellAll(ms) == before;
      NothingThere(before);
    } else {
      var rest, next := SpellAll(ms[1..]), before + Spell(ms[0]);
      assert before + SpellAll(ms) == before + Spell(ms[0]) + rest == next + rest;
      WrittenMember(before, ms[0], rest);
      AfterWritten(|before|, ms[0]);
      if room > 0 { NoTrailerNoArchive(next, ms[1..], room - 1); }
    }
  }

  lemma NothingThere(data: Bytes)
    ensures MemberAt(data, |data|) == Malformed
  {
  }

  // ---------- what a field that is not eight hex digits can do

  const MINUS_ONE: Bytes := [0x2D, 0x30, 0x30, 0x30, 0x30, 0x30, 0x30, 0x31]

  lemma MinusOneField()
    ensures U32Hex(MINUS_ONE) == Some(-1)
  {
    var digits := MINUS_ONE[1..];
    assert TrimLeft(MINUS_ONE) == MINUS_ONE && TrimRight(MINUS_ONE) == MINUS_ONE;
    DigitsOfHex(digits);
    var zeros := digits[..6];
    assert forall i :: 0 <= i < 6 ==> zeros[i] == 0x30;
    ZerosAreZero(zeros);
    assert HexValue(digits) == HexValue(zeros) * 16 + 1;
  }

  lemma {:induction false} ZerosAreZero(s: Bytes)
    requires forall i :: 0 <= i < |s| ==> s[i] == 0x30
    ensures HexValue(s) == 0
  {
    if s != [] { ZerosAreZero(s[..|s| - 1]); }
  }

  /** A member named "a" whose size field reads "-0000001". */
  function Shrunk(): Spelled {
    Spelled(false, Zeros(8), Hex(0, 8), Zeros(32), MINUS_ONE, Zeros(32), Hex(2, 8), Zeros(8), [0x61], [], [], [])
  }

  lemma ShrunkMember(after: Bytes)
    ensures FieldWidths(Shrunk()) && |Spell(Shrunk())| == 112
    ensures MemberAt(Spell(Shrunk()) + after, 0) == Found(Record(0, 112, MakeEntry([0x61], 0, -1, 112)))
  {
    hide MemberAt, U32Hex, MakeEntry;
    var m := Shrunk();
    MinusOneField();
    HexField(0);
    HexField(2);
    SpelledMember([], m, after, 0, -1);
    assert [] + Spell(m) + after == Spell(m) + after;
  }

  /** The parser accepts an archive whose first member has a size of minus one: its data would end before it starts. */
  lemma NegativeSizeAccepted(trailer: Spelled)
    requires Strict(trailer) && trailer.name == TRAILER
    ensures FieldWidths(Shrunk())
    ensures var data := Spell(Shrunk()) + Spell(trailer); var r := Parsed(data, 1);
      r.Members? && |r.value| == 1 && r.value[0].entry.size == -1 && !LaidOut(data, r.value[0])
  {
    hide MemberAt, Spell, Shrunk, FieldWidths;
    ShrunkMember(Spell(trailer));
    var data := Spell(Shrunk()) + Spell(trailer);
    WrittenMember(Spell(Shrunk()), trailer, []);
    assert data + [] == data;
    assert RecordsFrom(data, 112, 0) == Members([]);
  }
}
