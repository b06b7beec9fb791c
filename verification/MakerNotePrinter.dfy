/** The printer of maker notes, `buildMakerNote` of catalog/fuji_test.go, and the
    round trip with the parser. */
module MakerNotePrinter {
  import opened Wrappers
  import opened MakerNote

  datatype Entry = IntEntry(tag: nat, typ: nat, values: seq<int>) | TextEntry(tag: nat, text: seq<Byte>)

  // ---- Bytes ----

  function Bytes16(v: int): (b: seq<Byte>)
    ensures |b| == 2
  {
    var w := v % 0x1_0000;
    [w % 0x100, w / 0x100]
  }

  function Bytes32(v: int): (b: seq<Byte>)
    ensures |b| == 4
  {
    var w := v % WORD;
    [w % 0x100, w / 0x100 % 0x100, w / 0x100 / 0x100 % 0x100, w / 0x100 / 0x100 / 0x100]
  }

  lemma Back16(v: int, b: seq<Byte>, i: nat)
    requires i + 2 <= |b| && b[i..i + 2] == Bytes16(v)
    ensures Le16(b, i) == v % 0x1_0000
  {
    assert b[i] == b[i..i + 2][0] && b[i + 1] == b[i..i + 2][1];
  }

  lemma Back32(v: int, b: seq<Byte>, i: nat)
    requires i + 4 <= |b| && b[i..i + 4] == Bytes32(v)
    ensures Le32(b, i) == v % WORD
  {
    var f := b[i..i + 4];
    assert b[i] == f[0] && b[i + 1] == f[1] && b[i + 2] == f[2] && b[i + 3] == f[3];
    var w := v % WORD;
    var q := w / 0x100;
    assert w == 0x100 * q + f[0] as int && q == 0x100 * (q / 0x100) + f[1] as int;
  }

  function ElementBytes(typ: nat, v: int): (b: seq<Byte>)
    ensures |b| == Size(typ)
  {
    match Size(typ)
    case 1 => [v % 0x100]
    case 2 => Bytes16(v)
    case 4 => Bytes32(v)
    case _ => []
  }

  function ElementsBytes(typ: nat, vs: seq<int>): (b: seq<Byte>)
    ensures |b| == Size(typ) * |vs|
  {
    if vs == [] then [] else ElementsBytes(typ, vs[..|vs| - 1]) + ElementBytes(typ, vs[|vs| - 1])
  }

  predicate InRange(typ: nat, v: int) {
    match typ
    case 1 => 0 <= v < 0x100
    case 3 => 0 <= v < 0x1_0000
    case 4 => 0 <= v < WORD
    case 6 => -0x80 <= v < 0x80
    case 8 => -0x8000 <= v < 0x8000
    case 9 => -0x8000_0000 <= v < 0x8000_0000
    case _ => false
  }

  /** Two's complement. */
  lemma SignedBack(v: int, modulus: nat)
    requires modulus in [0x100, 0x1_0000, WORD] && 0 <= 2 * v + modulus < 2 * modulus
    ensures v % modulus >= 0 && Signed(v % modulus, modulus) == v
  {
    if modulus == 0x100 {
      assert v % 0x100 == if v < 0 then v + 0x100 else v;
    } else if modulus == 0x1_0000 {
      assert v % 0x1_0000 == if v < 0 then v + 0x1_0000 else v;
    } else {
      assert v % WORD == if v < 0 then v + WORD else v;
    }
  }

  lemma ElementBack(typ: nat, v: int, data: seq<Byte>, j: nat)
    requires InRange(typ, v) && Size(typ) * (j + 1) <= |data|
    requires data[Size(typ) * j..Size(typ) * (j + 1)] == ElementBytes(typ, v)
    ensures Element(data, typ, j) == v
  {
    hide Le16, Le32, Bytes16, Bytes32, Signed;
    var at := Size(typ) * j;
    match typ
    case 1 => assert data[at] == data[at..at + 1][0];
    case 3 => Back16(v, data, at);
    case 4 => Back32(v, data, at);
    case 6 =>
      assert data[at] == data[at..at + 1][0];
      SignedBack(v, 0x100);
    case 8 =>
      Back16(v, data, at);
      SignedBack(v, 0x1_0000);
    case _ =>
      Back32(v, data, at);
      SignedBack(v, WORD);
  }

  lemma {:induction false} ElementsBack(typ: nat, vs: seq<int>, data: seq<Byte>)
    requires forall j :: 0 <= j < |vs| ==> InRange(typ, vs[j])
    requires Size(typ) > 0 && ElementsBytes(typ, vs) <= data
    ensures Elements(data, typ, |vs|) == vs
  {
    hide Element, ElementBytes, InRange, Size;
    if vs != [] {
      var n := |vs| - 1;
      var front := ElementsBytes(typ, vs[..n]);
      assert ElementsBytes(typ, vs) == front + ElementBytes(typ, vs[n]);
      assert front == data[..|front|];
      ElementsBack(typ, vs[..n], data);
      assert data[|front|..|front| + Size(typ)] == ElementBytes(typ, vs[n]);
      assert |front| + Size(typ) == Size(typ) * (n + 1);
      ElementBack(typ, vs[n], data, n);
    }
  }

  lemma {:induction false} TrimmedBack(text: seq<Byte>)
    requires text != [] ==> text[|text| - 1] != 0
    ensures TrimRight(text + [0]) == text
  {
    assert (text + [0])[..|text|] == text;
  }

  // ---- Entries ----

  /** The bytes of a value. Text ends with a NUL. */
  function RawBytes(e: Entry): seq<Byte> {
    match e
    case IntEntry(_, typ, values) => ElementsBytes(typ, values)
    case TextEntry(_, text) => text + [0]
  }

  function TypeOf(e: Entry): nat {
    if e.IntEntry? then e.typ else ASCII
  }

  function CountOf(e: Entry): nat {
    if e.IntEntry? then |e.values| else |e.text| + 1
  }

  /** A value of up to four bytes goes into the entry, a longer one to the tail. */
  function TailBytes(e: Entry): seq<Byte> {
    if |RawBytes(e)| <= 4 then [] else RawBytes(e)
  }

  function Zeros(n: nat): (b: seq<Byte>)
    ensures |b| == n
  {
    seq(n, _ => 0)
  }

  function Field(e: Entry, tailAt: nat): (b: seq<Byte>)
    ensures |b| == 4
  {
    var raw := RawBytes(e);
    if |raw| <= 4 then raw + Zeros(4 - |raw|) else Bytes32(tailAt)
  }

  function EntryBytes(e: Entry, tailAt: nat): (b: seq<Byte>)
    ensures |b| == 12
  {
    Bytes16(e.tag) + Bytes16(TypeOf(e)) + Bytes32(CountOf(e)) + Field(e, tailAt)
  }

  /** The entries one after the other, and their tails. */
  function Table(entries: seq<Entry>, dataOff: nat): (b: seq<Byte>)
    ensures |b| == 12 * |entries|
  {
    if entries == [] then []
    else
      var n := |entries| - 1;
      Table(entries[..n], dataOff) + EntryBytes(entries[n], dataOff + |Tails(entries[..n])|)
  }

  function Tails(entries: seq<Entry>): seq<Byte> {
    if entries == [] then []
    else Tails(entries[..|entries| - 1]) + TailBytes(entries[|entries| - 1])
  }

  function Build(entries: seq<Entry>): seq<Byte> {
    MAGIC + Bytes32(12) + Bytes16(|entries|) + Table(entries, 14 + 12 * |entries|) + Tails(entries)
  }

  /** The printer as the test helper runs it: one pass, two buffers. */
  method BuildMakerNote(entries: seq<Entry>) returns (buf: seq<Byte>)
    ensures buf == Build(entries)
  {
    hide EntryBytes, Bytes16, Bytes32, ElementBytes, Field, RawBytes;
    buf := MAGIC + Bytes32(12) + Bytes16(|entries|);
    ghost var head := buf;
    var dataOff := 12 + 2 + 12 * |entries|;
    var tail: seq<Byte> := [];
    var i := 0;
    while i < |entries|
      invariant 0 <= i <= |entries|
      invariant buf == head + Table(entries[..i], dataOff) && tail == Tails(entries[..i])
    {
      var e := entries[i];
      assert entries[..i + 1][..i] == entries[..i];
      buf := buf + EntryBytes(e, dataOff + |tail|);
      if |RawBytes(e)| > 4 {
        tail := tail + RawBytes(e);
      }
      i := i + 1;
    }
    assert entries[..i] == entries;
    buf := buf + tail;
  }

  // ---- The round trip ----

  /** An entry that the format can carry: 1 to 64 elements within the range of
      their type, or a text of at most 4095 bytes that does not end with NUL. */
  predicate Printable(e: Entry) {
    && e.tag < 0x1_0000
    && match e
       case IntEntry(_, typ, values) => 1 <= |values| <= MAX_COUNT && forall j :: 0 <= j < |values| ==> InRange(typ, values[j])
       case TextEntry(_, text) => |text| < MAX_TEXT && (text != [] ==> text[|text| - 1] != 0)
  }

  function ValueOf(e: Entry): Value {
    if e.IntEntry? then Numbers(e.values) else Text(e.text)
  }

  /** What a list of entries means: for each tag its last integer value and its
      last text. */
  function Meaning(entries: seq<Entry>): Note {
    if entries == [] then Note(map[], map[])
    else Put(Meaning(entries[..|entries| - 1]), entries[|entries| - 1].tag, ValueOf(entries[|entries| - 1]))
  }

  lemma RawSize(e: Entry)
    requires Printable(e)
    ensures 1 <= |RawBytes(e)| <= MAX_TEXT && |TailBytes(e)| <= MAX_TEXT
    ensures CountOf(e) < WORD && TypeOf(e) < 0x1_0000
    ensures e.IntEntry? ==> 0 < Size(e.typ) && |RawBytes(e)| == Size(e.typ) * |e.values| && e.typ != ASCII
  {
    if e.IntEntry? {
      assert InRange(e.typ, e.values[0]);
    }
  }

  lemma Slice<T>(s: seq<T>, lo: nat, hi: nat, i: nat, j: nat)
    requires lo <= hi <= |s| && i <= j <= hi - lo
    ensures s[lo..hi][i..j] == s[lo + i..lo + j]
  {
    var a, b := s[lo..hi][i..j], s[lo + i..lo + j];
    forall k | 0 <= k < j - i
      ensures a[k] == b[k]
    {
      assert a[k] == s[lo..hi][i + k] == s[lo + i + k];
    }
  }

  lemma EntryParts(e: Entry, tailAt: nat)
    ensures var all := EntryBytes(e, tailAt);
      all[0..2] == Bytes16(e.tag) && all[2..4] == Bytes16(TypeOf(e)) && all[4..8] == Bytes32(CountOf(e)) && all[8..12] == Field(e, tailAt)
  {
    hide Bytes16, Bytes32, Field;
  }

  /** The value of an entry is read back, from the entry or from the tail. */
  lemma ValueBack(e: Entry, b: seq<Byte>, off: nat, tailAt: nat)
    requires Printable(e) && off + 12 <= |b| && b[off..off + 12] == EntryBytes(e, tailAt)
    requires tailAt + |TailBytes(e)| <= |b| < WORD && b[tailAt..tailAt + |TailBytes(e)|] == TailBytes(e)
    ensures Le16(b, off) == e.tag && ReadValue(b, off) == ValueOf(e)
  {
    hide Le16, Le32, Bytes16, Bytes32, ElementsBytes, Printable, Size, Field, EntryBytes, ReadNumbers, ReadText, RawBytes, TailBytes;
    RawSize(e);
    EntryParts(e, tailAt);
    Slice(b, off, off + 12, 0, 2);
    Slice(b, off, off + 12, 2, 4);
    Slice(b, off, off + 12, 4, 8);
    Slice(b, off, off + 12, 8, 12);
    var field := b[off + 8..off + 12];
    Back16(e.tag, b, off);
    Back16(TypeOf(e), b, off + 2);
    Back32(CountOf(e), b, off + 4);
    assert e.tag < 0x1_0000 by { TagSmall(e); }
    if e.IntEntry? {
      NumbersBack(e, b, field, tailAt);
    } else {
      TextBack(e, b, field, tailAt);
    }
  }

  lemma TagSmall(e: Entry)
    requires Printable(e)
    ensures e.tag < 0x1_0000
  {
  }

  lemma NumbersBack(e: Entry, b: seq<Byte>, field: seq<Byte>, tailAt: nat)
    requires Printable(e) && e.IntEntry? && field == Field(e, tailAt)
    requires tailAt + |TailBytes(e)| <= |b| < WORD && b[tailAt..tailAt + |TailBytes(e)|] == TailBytes(e)
    ensures ReadNumbers(b, field, e.typ, |e.values|) == Numbers(e.values)
  {
    hide Le32, Bytes32, ElementsBytes, Elements, InRange, Size;
    RawSize(e);
    var raw := RawBytes(e);
    if |raw| <= 4 {
      ElementsBack(e.typ, e.values, field);
    } else {
      Back32(tailAt, field, 0);
      ElementsBack(e.typ, e.values, b[tailAt..tailAt + |raw|]);
    }
  }

  lemma TextBack(e: Entry, b: seq<Byte>, field: seq<Byte>, tailAt: nat)
    requires Printable(e) && e.TextEntry? && field == Field(e, tailAt)
    requires tailAt + |TailBytes(e)| <= |b| < WORD && b[tailAt..tailAt + |TailBytes(e)|] == TailBytes(e)
    ensures CountOf(e) <= MAX_TEXT && ReadText(b, field, CountOf(e)) == e.text
  {
    hide Le32, Bytes32, TrimRight, Size;
    TrimmedBack(e.text);
    var raw := RawBytes(e);
    if |raw| <= 4 {
      assert field[..|raw|] == raw;
    } else {
      Back32(tailAt, field, 0);
    }
  }

  lemma {:induction false} TableAt(entries: seq<Entry>, dataOff: nat, i: nat)
    requires i < |entries|
    ensures Table(entries, dataOff)[12 * i..12 * i + 12] == EntryBytes(entries[i], dataOff + |Tails(entries[..i])|)
    ensures |Tails(entries[..i])| + |TailBytes(entries[i])| <= |Tails(entries)|
    ensures var t := |Tails(entries[..i])|;
      Tails(entries)[t..t + |TailBytes(entries[i])|] == TailBytes(entries[i])
  {
    hide EntryBytes, TailBytes;
    var n := |entries| - 1;
    var front := Table(entries[..n], dataOff);
    var last := EntryBytes(entries[n], dataOff + |Tails(entries[..n])|);
    assert Table(entries, dataOff) == front + last;
    if i < n {
      TableAt(entries[..n], dataOff, i);
      assert entries[..n][..i] == entries[..i];
      assert (front + last)[12 * i..12 * i + 12] == front[12 * i..12 * i + 12];
    } else {
      assert (front + last)[|front|..|front| + 12] == last;
    }
  }

  lemma {:induction false} TailsSize(entries: seq<Entry>)
    requires forall i :: 0 <= i < |entries| ==> Printable(entries[i])
    ensures |Tails(entries)| <= MAX_TEXT * |entries|
  {
    hide Printable, TailBytes;
    if entries != [] {
      TailsSize(entries[..|entries| - 1]);
      RawSize(entries[|entries| - 1]);
    }
  }

  /** A list the printer can print. */
  predicate PrintableList(entries: seq<Entry>) {
    |entries| < 0x1_0000 && forall i :: 0 <= i < |entries| ==> Printable(entries[i])
  }

  /** A printed note is far below the size the parser's arithmetic allows. */
  lemma BuildSize(entries: seq<Entry>)
    requires PrintableList(entries)
    ensures |Build(entries)| == 14 + 12 * |entries| + |Tails(entries)| < WORD
  {
    hide Printable, Tails, Table;
    TailsSize(entries);
  }

  lemma Layout(entries: seq<Entry>, b: seq<Byte>)
    requires Build(entries) <= b
    ensures var n := |entries|;
      |b| >= 14 + 12 * n + |Tails(entries)|
      && b[..8] == MAGIC && b[8..12] == Bytes32(12) && b[12..14] == Bytes16(n)
      && b[14..14 + 12 * n] == Table(entries, 14 + 12 * n)
      && b[14 + 12 * n..14 + 12 * n + |Tails(entries)|] == Tails(entries)
  {
    hide Tails, Table, Bytes16, Bytes32;
    var n := |entries|;
    var built := Build(entries);
    assert b[..|built|] == built;
    assert b[14..14 + 12 * n] == built[14..14 + 12 * n];
    assert b[14 + 12 * n..14 + 12 * n + |Tails(entries)|] == built[14 + 12 * n..];
  }

  lemma EntryBack(entries: seq<Entry>, b: seq<Byte>, i: nat)
    requires PrintableList(entries) && Build(entries) <= b && |b| < WORD && i < |entries|
    ensures 14 + 12 * i + 12 <= |b|
    ensures Le16(b, 14 + 12 * i) == entries[i].tag && ReadValue(b, 14 + 12 * i) == ValueOf(entries[i])
  {
    hide Tails, Table, Bytes16, Bytes32, EntryBytes, TailBytes, Printable, Le16, ReadValue, Build;
    var n := |entries|;
    var dataOff := 14 + 12 * n;
    Layout(entries, b);
    TableAt(entries, dataOff, i);
    var off := 14 + 12 * i;
    var t := |Tails(entries[..i])|;
    var len := |TailBytes(entries[i])|;
    Slice(b, 14, 14 + 12 * n, 12 * i, 12 * i + 12);
    Slice(b, dataOff, dataOff + |Tails(entries)|, t, t + len);
    ValueBack(entries[i], b, off, dataOff + t);
  }

  lemma {:induction false} EntriesBack(entries: seq<Entry>, b: seq<Byte>, i: nat)
    requires PrintableList(entries) && Build(entries) <= b && |b| < WORD && i <= |entries|
    ensures ReadEntries(b, 14, i, |entries|, Meaning(entries[..i])) == Meaning(entries)
    decreases |entries| - i
  {
    hide Build, PrintableList, Le16, ReadValue, Put;
    if i == |entries| {
      assert entries[..i] == entries;
    } else {
      EntryBack(entries, b, i);
      assert entries[..i + 1][..i] == entries[..i];
      EntriesBack(entries, b, i + 1);
    }
  }

  lemma BlockBack(entries: seq<Entry>, b: seq<Byte>)
    requires PrintableList(entries) && Build(entries) <= b && |b| < WORD
    ensures MagicAt(b, 0) && ParseBlock(b) == Ok(Meaning(entries))
  {
    hide Build, PrintableList, Meaning, ReadEntries, Bytes16, Bytes32, Le16, Le32, Tails, Table;
    Layout(entries, b);
    Back32(12, b, 8);
    Back16(|entries|, b, 12);
    EntriesBack(entries, b, 0);
    NoEntries(entries);
    ListSize(entries);
  }

  /** Parsing what was printed gives back exactly the tags, wherever the note
      sits: any bytes may follow it, and any bytes may come first in which the
      magic does not start earlier. */
  lemma RoundTrip(entries: seq<Entry>, before: seq<Byte>, after: seq<Byte>, r: Result<Note, Failure>)
    requires PrintableList(entries)
    requires var raw := before + Build(entries) + after;
      |raw| < WORD && (forall i :: 0 <= i < |before| ==> !MagicAt(raw, i)) && Parses(raw, r)
    ensures r == Ok(Meaning(entries))
  {
    hide Build, PrintableList, Meaning, ParseBlock;
    var raw := before + Build(entries) + after;
    var b := raw[|before|..];
    assert b == Build(entries) + after;
    BlockBack(entries, b);
    Slice(raw, |before|, |raw|, 0, 8);
    assert MagicAt(raw, |before|);
    if i: nat :| FirstMagic(raw, i) && r == ParseBlock(raw[i..]) {
      assert i == |before|;
    }
  }

  lemma NoEntries(entries: seq<Entry>)
    ensures Meaning(entries[..0]) == Note(map[], map[])
  {
  }

  lemma ListSize(entries: seq<Entry>)
    requires PrintableList(entries)
    ensures |entries| < 0x1_0000
  {
  }

  /** The note alone. */
  lemma RoundTripAlone(entries: seq<Entry>, r: Result<Note, Failure>)
    requires PrintableList(entries) && Parses(Build(entries), r)
    ensures |Build(entries)| < WORD && r == Ok(Meaning(entries))
  {
    hide Build, PrintableList, Meaning, Parses;
    BuildSize(entries);
    assert [] + Build(entries) + [] == Build(entries);
    RoundTrip(entries, [], [], r);
  }
}
