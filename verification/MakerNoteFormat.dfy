/** The layout the parser reads, byte by byte: the magic, the offset, the entries
    and their values (catalog/fuji.go:35-118, section 2 of TIFF 6.0). */
module MakerNoteFormat {
  import opened Wrappers
  import opened MakerNote

  const NAME := "FUJIFILM"

  lemma MagicMeans(raw: seq<Byte>, i: nat)
    ensures MagicAt(raw, i) <==> i + 8 <= |raw| && forall j :: 0 <= j < 8 ==> raw[i + j] as int == NAME[j] as int
  {
    if i + 8 <= |raw| {
      var block := raw[i..i + 8];
      assert forall j :: 0 <= j < 8 ==> block[j] == raw[i + j];
      assert forall j :: 0 <= j < 8 ==> MAGIC[j] as int == NAME[j] as int;
    }
  }

  /** A note is what follows the first magic; without a magic there is none. */
  lemma ParsesMean(raw: seq<Byte>, r: Result<Note, Failure>, i: nat)
    requires Parses(raw, r)
    ensures MagicAt(raw, i) && (forall j :: 0 <= j < i ==> !MagicAt(raw, j)) ==> i <= |raw| && r == ParseBlock(raw[i..])
    ensures (forall j: nat :: !MagicAt(raw, j)) ==> r == Err(NotFuji)
  {
    hide ParseBlock;
    if MagicAt(raw, i) && forall j :: 0 <= j < i ==> !MagicAt(raw, j) {
      var first: nat :| FirstMagic(raw, first) && r == ParseBlock(raw[first..]);
      assert MagicAt(raw, first);
      assert first == i;
    }
  }

  /** After the magic comes the place of the table, in four bytes, the lowest first;
      the table starts with the number of its entries, in two. */
  lemma BlockMeans(b: seq<Byte>)
    ensures |b| < 12 ==> ParseBlock(b) == Err(TooShort)
    ensures |b| >= 12 ==>
      var at := b[8] as int + 256 * b[9] as int + 65536 * b[10] as int + 16777216 * b[11] as int;
      && (at + 2 > |b| ==> ParseBlock(b) == Err(BadOffset))
      && (at + 2 <= |b| ==> ParseBlock(b) == Ok(ReadEntries(b, at + 2, 0, b[at] as int + 256 * b[at + 1] as int, Note(map[], map[]))))
  {
  }

  /** The entry at off: its type, its count, the offset it may hold. */
  function TypeAt(b: seq<Byte>, off: nat): nat
    requires off + 12 <= |b|
  {
    b[off + 2] as int + 256 * b[off + 3] as int
  }

  function CountAt(b: seq<Byte>, off: nat): nat
    requires off + 12 <= |b|
  {
    b[off + 4] as int + 256 * b[off + 5] as int + 65536 * b[off + 6] as int + 16777216 * b[off + 7] as int
  }

  function OffsetAt(b: seq<Byte>, off: nat): nat
    requires off + 12 <= |b|
  {
    b[off + 8] as int + 256 * b[off + 9] as int + 65536 * b[off + 10] as int + 16777216 * b[off + 11] as int
  }

  /** Where the data of an entry of n bytes begins: in the entry if they fit. */
  function DataAt(b: seq<Byte>, off: nat, n: nat): nat
    requires off + 12 <= |b|
  {
    if n <= 4 then off + 8 else OffsetAt(b, off)
  }

  /** Bytes, shorts, longs and their signed kinds. */
  predicate IsNumeric(typ: nat) {
    typ in {1, 3, 4, 6, 8, 9}
  }

  function Width(typ: nat): nat {
    if typ in {1, 6} then 1 else if typ in {3, 8} then 2 else 4
  }

  /** The number of w bytes from at on, the lowest first. */
  function Unsigned(b: seq<Byte>, at: nat, w: nat): nat
    requires at + w <= |b|
    decreases w
  {
    if w == 0 then 0 else b[at] as int + 256 * Unsigned(b, at + 1, w - 1)
  }

  function Modulus(w: nat): nat {
    if w == 0 then 1 else 256 * Modulus(w - 1)
  }

  /** v is what these bytes stand for: in the upper half of a signed type it is
      negative. */
  predicate StandsFor(b: seq<Byte>, at: nat, typ: nat, v: int)
    requires at + Width(typ) <= |b|
  {
    var u := Unsigned(b, at, Width(typ));
    v == if typ in {6, 8, 9} && u >= Modulus(Width(typ)) / 2 then u - Modulus(Width(typ)) else u
  }

  lemma WidthMeans(typ: nat)
    ensures IsNumeric(typ) <==> Size(typ) > 0
    ensures IsNumeric(typ) ==> Size(typ) == Width(typ)
  {
  }

  lemma Unsigned2(b: seq<Byte>, at: nat)
    requires at + 2 <= |b|
    ensures Unsigned(b, at, 1) == b[at] as int && Unsigned(b, at, 2) == Le16(b, at)
    ensures Modulus(1) == 0x100 && Modulus(2) == 0x1_0000
  {
    assert Unsigned(b, at + 1, 1) == b[at + 1] as int + 256 * Unsigned(b, at + 2, 0);
  }

  lemma Unsigned4(b: seq<Byte>, at: nat)
    requires at + 4 <= |b|
    ensures Unsigned(b, at, 4) == Le32(b, at) && Modulus(4) == WORD
  {
    assert Unsigned(b, at + 3, 1) == b[at + 3] as int + 256 * Unsigned(b, at + 4, 0);
    assert Unsigned(b, at + 2, 2) == b[at + 2] as int + 256 * Unsigned(b, at + 3, 1);
    assert Unsigned(b, at + 1, 3) == b[at + 1] as int + 256 * Unsigned(b, at + 2, 2);
    assert Modulus(1) == 256 && Modulus(2) == 65536 && Modulus(3) == 16777216;
  }

  lemma Unsigned1(b: seq<Byte>, at: nat)
    requires at + 1 <= |b|
    ensures Unsigned(b, at, 1) == b[at] as int && Modulus(1) == 0x100
  {
    assert Unsigned(b, at + 1, 0) == 0;
  }

  lemma ElementMeans(data: seq<Byte>, typ: nat, j: nat)
    requires IsNumeric(typ) && Width(typ) * (j + 1) <= |data|
    ensures Size(typ) == Width(typ) && StandsFor(data, Width(typ) * j, typ, Element(data, typ, j))
  {
    hide Unsigned, Modulus, Le16, Le32;
    WidthMeans(typ);
    var at := Width(typ) * j;
    match typ
    case 1 => Unsigned1(data, at);
    case 3 => Unsigned2(data, at);
    case 4 => Unsigned4(data, at);
    case 6 => Unsigned1(data, at);
    case 8 => Unsigned2(data, at);
    case _ => Unsigned4(data, at);
  }

  lemma {:induction false} ElementsMean(data: seq<Byte>, typ: nat, cnt: nat, j: nat)
    requires IsNumeric(typ) && Width(typ) * cnt <= |data| && j < cnt
    ensures Size(typ) == Width(typ) && |Elements(data, typ, cnt)| == cnt && Width(typ) * (j + 1) <= |data|
    ensures StandsFor(data, Width(typ) * j, typ, Elements(data, typ, cnt)[j])
    decreases cnt
  {
    hide StandsFor, Element;
    WidthMeans(typ);
    FitsBefore(Width(typ), j, cnt);
    FitsBefore(Width(typ), cnt - 1, cnt);
    if j < cnt - 1 {
      ElementsMean(data, typ, cnt - 1, j);
    } else {
      ElementMeans(data, typ, j);
    }
  }

  /** The same bytes at another place. */
  lemma {:induction false} UnsignedSlice(b: seq<Byte>, from: nat, to: nat, at: nat, w: nat)
    requires from <= to <= |b| && at + w <= to - from
    ensures Unsigned(b[from..to], at, w) == Unsigned(b, from + at, w)
    decreases w
  {
    if w > 0 {
      UnsignedSlice(b, from, to, at + 1, w - 1);
    }
  }

  /** A numeric entry of 1 to 64 elements whose data is there: the elements one after
      the other, from the entry itself when they fit into four bytes. */
  lemma NumbersMean(b: seq<Byte>, off: nat, j: nat)
    requires off + 12 <= |b| && IsNumeric(TypeAt(b, off)) && 1 <= CountAt(b, off) <= 64 && j < CountAt(b, off)
    requires var n := Width(TypeAt(b, off)) * CountAt(b, off); n <= 4 || OffsetAt(b, off) + n <= |b|
    ensures var typ, cnt := TypeAt(b, off), CountAt(b, off);
      var at := DataAt(b, off, Width(typ) * cnt) + Width(typ) * j;
      && ReadValue(b, off).Numbers? && |ReadValue(b, off).values| == cnt
      && at + Width(typ) <= |b| && StandsFor(b, at, typ, ReadValue(b, off).values[j])
  {
    hide StandsFor, Elements, Element;
    var typ, cnt := TypeAt(b, off), CountAt(b, off);
    var w := Width(typ);
    var from := DataAt(b, off, w * cnt);
    var to := if w * cnt <= 4 then off + 12 else from + w * cnt;
    WidthMeans(typ);
    ReadsNumbers(b, off);
    FitsBefore(w, j, cnt);
    ElementsMean(b[from..to], typ, cnt, j);
    StandsInSlice(b, from, to, w * j, typ, Elements(b[from..to], typ, cnt)[j]);
  }

  lemma StandsInSlice(b: seq<Byte>, from: nat, to: nat, at: nat, typ: nat, v: int)
    requires from <= to <= |b| && at + Width(typ) <= to - from && StandsFor(b[from..to], at, typ, v)
    ensures StandsFor(b, from + at, typ, v)
  {
    UnsignedSlice(b, from, to, at, Width(typ));
  }

  lemma ReadsNumbers(b: seq<Byte>, off: nat)
    requires off + 12 <= |b| && IsNumeric(TypeAt(b, off)) && 1 <= CountAt(b, off) <= 64
    requires var n := Width(TypeAt(b, off)) * CountAt(b, off); n <= 4 || OffsetAt(b, off) + n <= |b|
    ensures var typ, cnt := TypeAt(b, off), CountAt(b, off);
      var w := Width(typ);
      var from := DataAt(b, off, w * cnt);
      var to := if w * cnt <= 4 then off + 12 else from + w * cnt;
      && Size(typ) == w > 0 && from <= to <= |b| && w * cnt <= to - from
      && ReadValue(b, off) == Numbers(Elements(b[from..to], typ, cnt))
  {
    hide Elements;
    WidthMeans(TypeAt(b, off));
    FieldMeans(b, off);
  }

  lemma FieldMeans(b: seq<Byte>, off: nat)
    requires off + 12 <= |b|
    ensures Le16(b, off + 2) == TypeAt(b, off) && Le32(b, off + 4) == CountAt(b, off)
    ensures |b[off + 8..off + 12]| == 4 && Le32(b[off + 8..off + 12], 0) == OffsetAt(b, off)
  {
    var f := b[off + 8..off + 12];
    assert f[0] == b[off + 8] && f[1] == b[off + 9] && f[2] == b[off + 10] && f[3] == b[off + 11];
  }

  /** Whatever else an entry is, it has no value: another type, no element or more
      than 64, or data that is not there. */
  lemma NothingElse(b: seq<Byte>, off: nat)
    requires off + 12 <= |b| && TypeAt(b, off) != 2
    ensures ReadValue(b, off) == Nothing <==>
      var typ, cnt := TypeAt(b, off), CountAt(b, off);
      !IsNumeric(typ) || cnt == 0 || cnt > 64 || (Width(typ) * cnt > 4 && OffsetAt(b, off) + Width(typ) * cnt > |b|)
  {
    hide Elements;
    WidthMeans(TypeAt(b, off));
    FieldMeans(b, off);
  }

  lemma {:induction false} TrimmedMeans(s: seq<Byte>)
    ensures TrimRight(s) <= s && (TrimRight(s) != [] ==> TrimRight(s)[|TrimRight(s)| - 1] != 0)
    ensures forall i :: |TrimRight(s)| <= i < |s| ==> s[i] == 0
  {
    if s != [] && s[|s| - 1] == 0 {
      TrimmedMeans(s[..|s| - 1]);
      assert forall i :: 0 <= i < |s| - 1 ==> s[i] == s[..|s| - 1][i];
    }
  }

  /** t is the bytes from at on, cnt of them, without the NULs at the end. */
  predicate TextAt(b: seq<Byte>, at: nat, cnt: nat, t: seq<Byte>) {
    && at + cnt <= |b| && |t| <= cnt && (t != [] ==> t[|t| - 1] != 0)
    && (forall i :: 0 <= i < |t| ==> t[i] == b[at + i]) && (forall i :: at + |t| <= i < at + cnt ==> b[i] == 0)
  }

  lemma TrimmedText(b: seq<Byte>, at: nat, cnt: nat)
    requires at + cnt <= |b|
    ensures TextAt(b, at, cnt, TrimRight(b[at..at + cnt]))
  {
    hide TrimRight;
    var data := b[at..at + cnt];
    TrimmedMeans(data);
    var t := TrimRight(data);
    assert forall i :: at <= i < at + cnt ==> b[i] == data[i - at];
    assert forall i :: 0 <= i < |t| ==> t[i] == data[i];
  }

  lemma ReadsText(b: seq<Byte>, off: nat)
    requires off + 12 <= |b| && TypeAt(b, off) == 2
    ensures var cnt := CountAt(b, off);
      ReadValue(b, off) ==
        if cnt > 4096 then Nothing
        else if cnt > 4 && OffsetAt(b, off) + cnt > |b| then Text([])
        else Text(TrimRight(b[DataAt(b, off, cnt)..DataAt(b, off, cnt) + cnt]))
  {
    hide TrimRight, Le16, Le32;
    FieldMeans(b, off);
    var cnt := CountAt(b, off);
    if cnt <= 4 {
      assert b[off + 8..off + 12][..cnt] == b[off + 8..off + 8 + cnt];
    }
  }

  /** A text is what its bytes are without the NULs at the end; of at most 4096
      bytes, and empty when they are not there. */
  lemma TextMeans(b: seq<Byte>, off: nat)
    requires off + 12 <= |b| && TypeAt(b, off) == 2
    ensures var cnt := CountAt(b, off);
      && (cnt > 4096 ==> ReadValue(b, off) == Nothing)
      && (4 < cnt <= 4096 && OffsetAt(b, off) + cnt > |b| ==> ReadValue(b, off) == Text([]))
      && (cnt <= 4096 && (cnt <= 4 || OffsetAt(b, off) + cnt <= |b|) ==>
            ReadValue(b, off).Text? && TextAt(b, DataAt(b, off, cnt), cnt, ReadValue(b, off).text))
  {
    hide TrimRight, ReadValue, TextAt;
    ReadsText(b, off);
    var cnt := CountAt(b, off);
    if cnt <= 4096 && (cnt <= 4 || OffsetAt(b, off) + cnt <= |b|) {
      TrimmedText(b, DataAt(b, off, cnt), cnt);
    }
  }

  // ---- The table ----

  /** Entry i is whole, and holds a value of this kind under this tag. */
  predicate Holds(b: seq<Byte>, base: nat, count: nat, i: nat, tag: nat, numbers: bool) {
    && i < count && base + 12 * i + 12 <= |b|
    && b[base + 12 * i] as int + 256 * b[base + 12 * i + 1] as int == tag
    && (if numbers then ReadValue(b, base + 12 * i).Numbers? else ReadValue(b, base + 12 * i).Text?)
  }

  /** No entry from i on holds such a value under the tag. */
  ghost predicate NoneFrom(b: seq<Byte>, base: nat, count: nat, i: nat, tag: nat, numbers: bool) {
    forall k :: i <= k ==> !Holds(b, base, count, k, tag, numbers)
  }

  /** What the note has under the tag. */
  function Under(note: Note, tag: nat, numbers: bool): Value {
    if numbers then (if tag in note.ints then Numbers(note.ints[tag]) else Nothing)
    else if tag in note.strs then Text(note.strs[tag]) else Nothing
  }

  /** The value of entry i. */
  function ValueAt(b: seq<Byte>, base: nat, i: nat): Value {
    if base + 12 * i + 12 <= |b| then ReadValue(b, base + 12 * i) else Nothing
  }

  /** The note after entry i. */
  function After(b: seq<Byte>, base: nat, i: nat, note: Note): Note {
    if base + 12 * i + 12 <= |b| then Put(note, Le16(b, base + 12 * i), ReadValue(b, base + 12 * i)) else note
  }

  /** An entry changes what its own tag says, and nothing else. */
  lemma AfterMeans(b: seq<Byte>, base: nat, i: nat, count: nat, note: Note, tag: nat, numbers: bool)
    ensures i < count ==>
      Under(After(b, base, i, note), tag, numbers) == if Holds(b, base, count, i, tag, numbers) then ValueAt(b, base, i) else Under(note, tag, numbers)
  {
    hide ReadValue;
  }

  lemma Step(b: seq<Byte>, base: nat, i: nat, count: nat, note: Note)
    ensures var goesOn := i < count && base + 12 * i + 12 <= |b|;
      ReadEntries(b, base, i, count, note) == if goesOn then ReadEntries(b, base, i + 1, count, After(b, base, i, note)) else note
  {
    hide ReadValue, Le16, Put;
  }

  /** A tag that no entry has keeps what it had. */
  lemma {:induction false} TagKept(b: seq<Byte>, base: nat, i: nat, count: nat, note: Note, tag: nat, numbers: bool)
    requires NoneFrom(b, base, count, i, tag, numbers)
    ensures Under(ReadEntries(b, base, i, count, note), tag, numbers) == Under(note, tag, numbers)
    decreases count - i
  {
    hide Holds, Under, After, ReadEntries;
    Step(b, base, i, count, note);
    if i < count && base + 12 * i + 12 <= |b| {
      AfterMeans(b, base, i, count, note, tag, numbers);
      TagKept(b, base, i + 1, count, After(b, base, i, note), tag, numbers);
    }
  }

  lemma HeldIsThere(b: seq<Byte>, base: nat, count: nat, k: nat, tag: nat, numbers: bool)
    requires Holds(b, base, count, k, tag, numbers)
    ensures k < count && base + 12 * k + 12 <= |b| && ValueAt(b, base, k) != Nothing
  {
    hide ReadValue;
  }

  /** Of the entries with a tag the last one counts; entries that are cut off end the
      table. */
  lemma {:induction false} LastWins(b: seq<Byte>, base: nat, i: nat, count: nat, note: Note, tag: nat, numbers: bool, k: nat)
    requires i <= k && Holds(b, base, count, k, tag, numbers) && NoneFrom(b, base, count, k + 1, tag, numbers)
    ensures Under(ReadEntries(b, base, i, count, note), tag, numbers) == ValueAt(b, base, k) != Nothing
    decreases count - i
  {
    hide Holds, NoneFrom, Under, ValueAt, After, ReadEntries, ReadValue;
    HeldIsThere(b, base, count, k, tag, numbers);
    Step(b, base, i, count, note);
    AfterMeans(b, base, i, count, note, tag, numbers);
    if i < k {
      LastWins(b, base, i + 1, count, After(b, base, i, note), tag, numbers, k);
    } else {
      TagKept(b, base, i + 1, count, After(b, base, i, note), tag, numbers);
    }
  }
}
