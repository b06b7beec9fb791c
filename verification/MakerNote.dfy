/** The Fujifilm maker note: the parser of catalog/fuji.go and the printer that
    catalog/fuji_test.go builds its fixtures with. The block is the magic
    "FUJIFILM", a 32-bit offset, and an image file directory as in section 2 of
    TIFF 6.0, little-endian, with offsets relative to the magic. */
module MakerNote {
  import opened Wrappers

  type Byte = x: int | 0 <= x < 256

  const WORD := 0x1_0000_0000
  const MAGIC: seq<Byte> := [0x46, 0x55, 0x4A, 0x49, 0x46, 0x49, 0x4C, 0x4D]
  const ASCII := 2
  const MAX_TEXT := 4096
  const MAX_COUNT := 64

  /** The integer tags, all elements, and the text tags. */
  datatype Note = Note(ints: map<nat, seq<int>>, strs: map<nat, seq<Byte>>)

  datatype Failure = NotFuji | TooShort | BadOffset

  datatype Value = Nothing | Numbers(values: seq<int>) | Text(text: seq<Byte>)

  // ---- Bytes ----

  function Le16(b: seq<Byte>, i: nat): (v: nat)
    requires i + 2 <= |b|
    ensures v < 0x1_0000
  {
    b[i] as int + 0x100 * b[i + 1] as int
  }

  function Le32(b: seq<Byte>, i: nat): (v: nat)
    requires i + 4 <= |b|
    ensures v < WORD
  {
    b[i] as int + 0x100 * b[i + 1] as int + 0x1_0000 * b[i + 2] as int + 0x100_0000 * b[i + 3] as int
  }

  /** Unsigned 32-bit arithmetic wraps around. */
  function U32(x: nat): (w: nat)
    ensures x < WORD ==> w == x
  {
    x % WORD
  }

  function Signed(v: nat, modulus: nat): int {
    if 2 * v >= modulus then v - modulus else v
  }

  /** The size of an element of a TIFF integer type; 0 for the other types. */
  function Size(typ: nat): (size: nat)
    ensures size <= 4
  {
    match typ
    case 1 => 1
    case 3 => 2
    case 4 => 4
    case 6 => 1
    case 8 => 2
    case 9 => 4
    case _ => 0
  }

  function Element(data: seq<Byte>, typ: nat, j: nat): int
    requires Size(typ) > 0 && Size(typ) * (j + 1) <= |data|
  {
    match typ
    case 1 => data[j]
    case 3 => Le16(data, 2 * j)
    case 4 => Le32(data, 4 * j)
    case 6 => Signed(data[j], 0x100)
    case 8 => Signed(Le16(data, 2 * j), 0x1_0000)
    case _ => Signed(Le32(data, 4 * j), WORD)
  }

  function Elements(data: seq<Byte>, typ: nat, cnt: nat): (vs: seq<int>)
    requires Size(typ) > 0 && Size(typ) * cnt <= |data|
    ensures |vs| == cnt
    decreases cnt
  {
    if cnt == 0 then [] else Elements(data, typ, cnt - 1) + [Element(data, typ, cnt - 1)]
  }

  /** Without the NUL bytes at the end. */
  function TrimRight(s: seq<Byte>): seq<Byte> {
    if s != [] && s[|s| - 1] == 0 then TrimRight(s[..|s| - 1]) else s
  }

  // ---- The parser, as a function ----

  function ReadText(b: seq<Byte>, field: seq<Byte>, cnt: nat): seq<Byte>
    requires |field| == 4
  {
    if cnt <= 4 then TrimRight(field[..cnt])
    else
      var o := Le32(field, 0);
      if o + cnt > |b| then [] else TrimRight(b[o..o + cnt])
  }

  function ReadNumbers(b: seq<Byte>, field: seq<Byte>, typ: nat, cnt: nat): Value
    requires |field| == 4
  {
    var size := Size(typ);
    if size == 0 || cnt == 0 || cnt > MAX_COUNT then Nothing
    else if size * cnt <= 4 then Numbers(Elements(field, typ, cnt))
    else
      var o := Le32(field, 0);
      if o + size * cnt > |b| then Nothing else Numbers(Elements(b[o..o + size * cnt], typ, cnt))
  }

  /** The value of the entry at `off`: inline when it fits in four bytes, and
      nothing when its type, its count or its offset is not usable. */
  function ReadValue(b: seq<Byte>, off: nat): Value
    requires off + 12 <= |b|
  {
    var typ := Le16(b, off + 2);
    var cnt := Le32(b, off + 4);
    var field := b[off + 8..off + 12];
    if typ == ASCII then (if cnt > MAX_TEXT then Nothing else Text(ReadText(b, field, cnt)))
    else ReadNumbers(b, field, typ, cnt)
  }

  function Put(note: Note, tag: nat, v: Value): Note {
    match v
    case Nothing => note
    case Numbers(values) => note.(ints := note.ints[tag := values])
    case Text(text) => note.(strs := note.strs[tag := text])
  }

  /** The entries from i on, as far as the bytes go. */
  function ReadEntries(b: seq<Byte>, base: nat, i: nat, count: nat, note: Note): Note
    decreases count - i
  {
    if i >= count || base + 12 * i + 12 > |b| then note
    else
      var off := base + 12 * i;
      ReadEntries(b, base, i + 1, count, Put(note, Le16(b, off), ReadValue(b, off)))
  }

  predicate MagicAt(raw: seq<Byte>, i: nat) {
    i + 8 <= |raw| && raw[i..i + 8] == MAGIC
  }

  ghost predicate FirstMagic(raw: seq<Byte>, i: nat) {
    MagicAt(raw, i) && forall j :: 0 <= j < i ==> !MagicAt(raw, j)
  }

  /** A note that starts with the magic. */
  function ParseBlock(b: seq<Byte>): Result<Note, Failure> {
    if |b| < 12 then Err(TooShort)
    else
      var ifd := Le32(b, 8);
      if ifd + 2 > |b| then Err(BadOffset)
      else Ok(ReadEntries(b, ifd + 2, 0, Le16(b, ifd), Note(map[], map[])))
  }

  /** What the parser has to return: the block starts at the first magic. */
  ghost predicate Parses(raw: seq<Byte>, r: Result<Note, Failure>) {
    || (exists i: nat :: FirstMagic(raw, i) && r == ParseBlock(raw[i..]))
    || ((forall i: nat :: !MagicAt(raw, i)) && r == Err(NotFuji))
  }

  // ---- The parser, as the program runs it ----

  method IndexOfMagic(raw: seq<Byte>) returns (idx: int)
    ensures idx >= 0 ==> FirstMagic(raw, idx)
    ensures idx < 0 ==> forall i: nat :: !MagicAt(raw, i)
  {
    var i := 0;
    while i + 8 <= |raw|
      invariant forall j :: 0 <= j < i ==> !MagicAt(raw, j)
    {
      if raw[i..i + 8] == MAGIC {
        return i;
      }
      i := i + 1;
    }
    return -1;
  }

  method DecodeElement(el: seq<Byte>, typ: nat) returns (v: int)
    requires 0 < Size(typ) <= |el|
    ensures v == Element(el, typ, 0)
  {
    hide Le16, Le32, Signed;
    match typ {
      case 1 => v := el[0];
      case 3 => v := Le16(el, 0);
      case 4 => v := Le32(el, 0);
      case 6 => v := Signed(el[0], 0x100);
      case 8 => v := Signed(Le16(el, 0), 0x1_0000);
      case _ => v := Signed(Le32(el, 0), WORD);
    }
  }

  lemma ElementShift(data: seq<Byte>, typ: nat, j: nat)
    requires Size(typ) > 0 && Size(typ) * (j + 1) <= |data|
    ensures Element(data[Size(typ) * j..], typ, 0) == Element(data, typ, j)
  {
    hide Signed;
  }

  method DecodeElements(data: seq<Byte>, typ: nat, cnt: nat) returns (vals: seq<int>)
    requires Size(typ) > 0 && Size(typ) * cnt <= |data| && cnt <= MAX_COUNT
    ensures vals == Elements(data, typ, cnt)
  {
    hide Element, U32;
    vals := [];
    var j := 0;
    var size := Size(typ);
    while j < cnt
      invariant 0 <= j <= cnt
      invariant vals == Elements(data, typ, j)
    {
      assert 0 <= size * j && size * (j + 1) == size * j + size <= size * cnt by { FitsBefore(size, j, cnt); }
      var el := data[U32(j * size)..];
      ElementShift(data, typ, j);
      var v := DecodeElement(el, typ);
      vals := vals + [v];
      j := j + 1;
    }
  }

  lemma FitsBefore(size: nat, j: nat, cnt: nat)
    requires j < cnt
    ensures 0 <= size * j && size * (j + 1) == size * j + size <= size * cnt
  {
  }

  method ParseMakerNote(raw: seq<Byte>) returns (r: Result<Note, Failure>)
    requires |raw| < WORD
    ensures Parses(raw, r)
  {
    hide ReadValue, Le16, Le32, MagicAt;
    var idx := IndexOfMagic(raw);
    if idx < 0 {
      return Err(NotFuji);
    }
    assert idx <= |raw| by { MagicFits(raw, idx); }
    var b := raw[idx..];
    if |b| < 12 {
      return Err(TooShort);
    }
    var ifdOff := Le32(b, 8);
    if ifdOff + 2 > |b| {
      return Err(BadOffset);
    }
    var count := Le16(b, ifdOff);
    var entryBase := ifdOff + 2;
    var fn := Note(map[], map[]);
    var i := 0;
    while i < count
      invariant 0 <= i <= count
      invariant ReadEntries(b, entryBase, i, count, fn) == ReadEntries(b, entryBase, 0, count, Note(map[], map[]))
    {
      var off := entryBase + i * 12;
      if off + 12 > |b| {
        break;
      }
      var tag := Le16(b, off);
      var v := ReadEntry(b, off);
      match v {
        case Nothing =>
        case Numbers(values) => fn := fn.(ints := fn.ints[tag := values]);
        case Text(text) => fn := fn.(strs := fn.strs[tag := text]);
      }
      i := i + 1;
    }
    return Ok(fn);
  }

  lemma MagicFits(raw: seq<Byte>, i: nat)
    requires MagicAt(raw, i)
    ensures i + 8 <= |raw|
  {
  }

  /** One entry. The sums are 32-bit ones, and none wraps: the guards come first. */
  method ReadEntry(b: seq<Byte>, off: nat) returns (v: Value)
    requires off + 12 <= |b| < WORD
    ensures v == ReadValue(b, off)
  {
    hide Le16, Le32, Elements, TrimRight, U32;
    var typ := Le16(b, off + 2);
    var cnt := Le32(b, off + 4);
    var valField := b[off + 8..off + 12];
    if typ == ASCII {
      if cnt > MAX_TEXT {
        return Nothing;
      }
      var data: seq<Byte>;
      if cnt <= 4 {
        data := valField[..cnt];
      } else {
        var o := Le32(valField, 0);
        if o + cnt > |b| {
          return Text([]);
        }
        data := b[o..U32(o + cnt)];
      }
      return Text(TrimRight(data));
    }
    var size := Size(typ);
    if size == 0 || cnt == 0 || cnt > MAX_COUNT {
      return Nothing;
    }
    var data := valField;
    if U32(size * cnt) > 4 {
      var o := Le32(valField, 0);
      if o + size * cnt > |b| {
        return Nothing;
      }
      data := b[o..U32(o + U32(size * cnt))];
    }
    var vals := DecodeElements(data, typ, cnt);
    return Numbers(vals);
  }
}
