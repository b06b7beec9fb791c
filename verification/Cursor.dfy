/** The opaque page cursor: `encodeCursor` and `decodeCursor` of
    catalog/query.go, through unpadded base64url (sections 3.2 and 5 of
    RFC 4648). Strings stand for their bytes. */
module Cursor {
  import opened Wrappers
  import Decimal

  predicate IsBytes(s: string) {
    forall i :: 0 <= i < |s| ==> s[i] as int < 256
  }

  // ---- base64url ----

  function Symbol(v: nat): char
    requires v < 64
  {
    if v < 26 then ('A' as int + v) as char
    else if v < 52 then ('a' as int + v - 26) as char
    else if v < 62 then ('0' as int + v - 52) as char
    else if v == 62 then '-' else '_'
  }

  function Digit(c: char): (d: Option<nat>)
    ensures d.Some? ==> d.value < 64
  {
    if 'A' <= c <= 'Z' then Some(c as int - 'A' as int)
    else if 'a' <= c <= 'z' then Some(c as int - 'a' as int + 26)
    else if '0' <= c <= '9' then Some(c as int - '0' as int + 52)
    else if c == '-' then Some(62)
    else if c == '_' then Some(63)
    else None
  }

  function Encode(s: string): string
    requires IsBytes(s)
  {
    if s == [] then []
    else
      var a := s[0] as int;
      if |s| == 1 then [Symbol(a / 4), Symbol(a % 4 * 16)]
      else
        var b := s[1] as int;
        if |s| == 2 then [Symbol(a / 4), Symbol(a % 4 * 16 + b / 16), Symbol(b % 16 * 4)]
        else
          var c := s[2] as int;
          [Symbol(a / 4), Symbol(a % 4 * 16 + b / 16), Symbol(b % 16 * 4 + c / 64), Symbol(c % 64)] + Encode(s[3..])
  }

  /** The decoder passes over line ends. */
  function Strip(t: string): string {
    if t == [] then [] else (if t[0] == '\r' || t[0] == '\n' then [] else [t[0]]) + Strip(t[1..])
  }

  /** Groups of four symbols, and a last group of two or three whose spare bits
      are ignored. */
  function DecodeGroups(t: string): Option<string> {
    if t == [] then Some([])
    else if |t| == 1 || Digit(t[0]).None? || Digit(t[1]).None? then None
    else
      var a, b := Digit(t[0]).value, Digit(t[1]).value;
      var first := (a * 4 + b / 16) as char;
      if |t| == 2 then Some([first])
      else if Digit(t[2]).None? then None
      else
        var c := Digit(t[2]).value;
        var second := (b % 16 * 16 + c / 4) as char;
        if |t| == 3 then Some([first, second])
        else if Digit(t[3]).None? then None
        else
          var d := Digit(t[3]).value;
          var third := (c % 4 * 64 + d) as char;
          var rest := DecodeGroups(t[4..]);
          if rest.None? then None else Some([first, second, third] + rest.value)
  }

  function Decode(t: string): Option<string> {
    DecodeGroups(Strip(t))
  }

  lemma SymbolDigit(v: nat)
    requires v < 64
    ensures Digit(Symbol(v)) == Some(v)
  {
  }

  lemma {:induction false} GroupsBack(s: string)
    requires IsBytes(s)
    ensures DecodeGroups(Encode(s)) == Some(s)
  {
    hide Symbol, Digit;
    if s == [] {
    } else if |s| == 1 {
      LastByte(s);
    } else if |s| == 2 {
      LastTwo(s);
    } else {
      GroupsBack(s[3..]);
      FullGroup(s, Encode(s[3..]));
    }
  }

  lemma LastByte(s: string)
    requires IsBytes(s) && |s| == 1
    ensures DecodeGroups(Encode(s)) == Some(s)
  {
    hide Symbol, Digit;
    var a := s[0] as int;
    SymbolDigit(a / 4);
    SymbolDigit(a % 4 * 16);
    var first := (a / 4 * 4 + a % 4 * 16 / 16) as char;
    assert first == s[0];
    assert Encode(s) == [Symbol(a / 4), Symbol(a % 4 * 16)];
    assert [first] == s;
  }

  lemma LastTwo(s: string)
    requires IsBytes(s) && |s| == 2
    ensures DecodeGroups(Encode(s)) == Some(s)
  {
    hide Symbol, Digit;
    var a, b := s[0] as int, s[1] as int;
    SymbolDigit(a / 4);
    SymbolDigit(a % 4 * 16 + b / 16);
    SymbolDigit(b % 16 * 4);
    assert Encode(s) == [Symbol(a / 4), Symbol(a % 4 * 16 + b / 16), Symbol(b % 16 * 4)];
    assert (a % 4 * 16 + b / 16) / 16 == a % 4 && (a % 4 * 16 + b / 16) % 16 == b / 16;
    assert [s[0], s[1]] == s;
  }

  /** Three bytes into four groups of six bits, and back. */
  lemma Repacked(a: nat, b: nat, c: nat)
    requires a < 256 && b < 256 && c < 256
    ensures a / 4 < 64 && a % 4 * 16 + b / 16 < 64 && b % 16 * 4 + c / 64 < 64 && c % 64 < 64
    ensures a / 4 * 4 + (a % 4 * 16 + b / 16) / 16 == a
    ensures (a % 4 * 16 + b / 16) % 16 * 16 + (b % 16 * 4 + c / 64) / 4 == b
    ensures (b % 16 * 4 + c / 64) % 4 * 64 + c % 64 == c
  {
    assert (a % 4 * 16 + b / 16) / 16 == a % 4 && (a % 4 * 16 + b / 16) % 16 == b / 16;
    assert (b % 16 * 4 + c / 64) / 4 == b % 16 && (b % 16 * 4 + c / 64) % 4 == c / 64;
  }

  lemma FullGroup(s: string, tail: string)
    requires IsBytes(s) && |s| >= 3 && IsBytes(s[3..]) && tail == Encode(s[3..]) && DecodeGroups(tail) == Some(s[3..])
    ensures DecodeGroups(Encode(s)) == Some(s)
  {
    hide Symbol, Digit;
    var a, b, c := s[0] as int, s[1] as int, s[2] as int;
    Repacked(a, b, c);
    var p, q, r, u := a / 4, a % 4 * 16 + b / 16, b % 16 * 4 + c / 64, c % 64;
    SymbolDigit(p);
    SymbolDigit(q);
    SymbolDigit(r);
    SymbolDigit(u);
    var t := Encode(s);
    assert t == [Symbol(p), Symbol(q), Symbol(r), Symbol(u)] + tail;
    assert t[4..] == tail;
    DecodesGroup(t, p, q, r, u, s[3..]);
    assert [a as char, b as char, c as char] + s[3..] == s;
  }

  lemma DecodesGroup(t: string, p: nat, q: nat, r: nat, u: nat, rest: string)
    requires |t| >= 4 && Digit(t[0]) == Some(p) && Digit(t[1]) == Some(q) && Digit(t[2]) == Some(r) && Digit(t[3]) == Some(u)
    requires DecodeGroups(t[4..]) == Some(rest)
    ensures p < 64 && q < 64 && r < 64 && u < 64
    ensures DecodeGroups(t) ==
      Some([(p * 4 + q / 16) as char, (q % 16 * 16 + r / 4) as char, (r % 4 * 64 + u) as char] + rest)
  {
    hide Digit;
  }

  lemma {:induction false} NothingStripped(s: string)
    requires IsBytes(s)
    ensures Strip(Encode(s)) == Encode(s)
  {
    SymbolsPrintable();
    StripKeeps(Encode(s), s);
  }

  lemma SymbolsPrintable()
    ensures forall v: nat :: v < 64 ==> Symbol(v) != '\r' && Symbol(v) != '\n'
  {
  }

  lemma {:induction false} StripJoin(a: string, b: string)
    ensures Strip(a + b) == Strip(a) + Strip(b)
  {
    if a == [] {
      assert a + b == b;
    } else {
      assert (a + b)[1..] == a[1..] + b;
      StripJoin(a[1..], b);
    }
  }

  lemma StripMiddle(a: string, e: string, b: string)
    requires Strip(e) == []
    ensures Strip(a + e + b) == Strip(a + b)
  {
    hide Strip;
    StripJoin(a + e, b);
    StripJoin(a, e);
    StripJoin(a, b);
    assert Strip(a) + [] == Strip(a);
  }

  lemma LineEnds()
    ensures Strip("\n") == [] && Strip("\r") == []
  {
    assert "\n"[1..] == [] && "\r"[1..] == [];
  }

  /** Line ends anywhere in a cursor make no difference. */
  lemma LineEndsIgnored(a: string, b: string)
    ensures Decode(a + "\n" + b) == Decode(a + b) && Decode(a + "\r" + b) == Decode(a + b)
  {
    hide DecodeGroups, Strip;
    LineEnds();
    StripMiddle(a, "\n", b);
    StripMiddle(a, "\r", b);
  }

  lemma {:induction false} EncodeSymbols(s: string)
    requires IsBytes(s)
    ensures forall i :: 0 <= i < |Encode(s)| ==> Encode(s)[i] != '\r' && Encode(s)[i] != '\n'
  {
    hide Symbol;
    SymbolsPrintable();
    if |s| >= 3 {
      EncodeSymbols(s[3..]);
    }
  }

  lemma {:induction false} Unchanged(t: string)
    requires forall i :: 0 <= i < |t| ==> t[i] != '\r' && t[i] != '\n'
    ensures Strip(t) == t
  {
    if t != [] {
      Unchanged(t[1..]);
    }
  }

  lemma StripKeeps(t: string, s: string)
    requires IsBytes(s) && t == Encode(s)
    ensures Strip(t) == t
  {
    EncodeSymbols(s);
    Unchanged(t);
  }

  /** Decoding undoes encoding, on every string of bytes. */
  lemma DecodeEncode(s: string)
    requires IsBytes(s)
    ensures Decode(Encode(s)) == Some(s)
  {
    GroupsBack(s);
    NothingStripped(s);
  }

  const UPPER := "ABCDEFGHIJKLMNOPQRSTUVWXYZ"
  const LOWER := "abcdefghijklmnopqrstuvwxyz"
  const ALPHABET := UPPER + LOWER + "0123456789-_"

  lemma UpperLetters(v: nat)
    requires v < 26
    ensures UPPER[v] == ('A' as int + v) as char
  {
  }

  lemma LowerLetters(v: nat)
    requires v < 26
    ensures LOWER[v] == ('a' as int + v) as char
  {
  }

  lemma Others(v: nat)
    requires v < 12
    ensures "0123456789-_"[v] == if v < 10 then ('0' as int + v) as char else if v == 10 then '-' else '_'
  {
  }

  /** The symbols are those of section 5 of RFC 4648. */
  lemma SymbolMeans(v: nat)
    requires v < 64
    ensures Symbol(v) == ALPHABET[v] && Digit(Symbol(v)) == Some(v)
  {
    SymbolDigit(v);
    if v < 26 {
      UpperLetters(v);
    } else if v < 52 {
      LowerLetters(v - 26);
    } else {
      Others(v - 52);
    }
  }

  /** One byte at the end is two symbols, filled up with zero bits. */
  lemma OneByteMeans(s: string) returns (p: nat, q: nat)
    requires IsBytes(s) && |s| == 1
    ensures p < 64 && q < 64 && Encode(s) == [Symbol(p), Symbol(q)]
    ensures 64 * p + q == 16 * s[0] as int
  {
    hide Symbol;
    var a := s[0] as int;
    p, q := a / 4, a % 4 * 16;
  }

  lemma TwoBytesMean(s: string) returns (p: nat, q: nat, r: nat)
    requires IsBytes(s) && |s| == 2
    ensures p < 64 && q < 64 && r < 64 && Encode(s) == [Symbol(p), Symbol(q), Symbol(r)]
    ensures 4096 * p + 64 * q + r == 4 * (256 * s[0] as int + s[1] as int)
  {
    hide Symbol;
    var a, b := s[0] as int, s[1] as int;
    p, q, r := a / 4, a % 4 * 16 + b / 16, b % 16 * 4;
    TwoBytesAdd(a, b);
  }

  lemma TwoBytesAdd(a: nat, b: nat)
    requires a < 256 && b < 256
    ensures a / 4 < 64 && a % 4 * 16 + b / 16 < 64 && b % 16 * 4 < 64
    ensures 4096 * (a / 4) + 64 * (a % 4 * 16 + b / 16) + b % 16 * 4 == 4 * (256 * a + b)
  {
  }

  /** Three bytes are four symbols of six bits, the highest bits first. */
  lemma ThreeBytesMean(s: string) returns (p: nat, q: nat, r: nat, u: nat)
    requires IsBytes(s) && |s| >= 3
    ensures p < 64 && q < 64 && r < 64 && u < 64 && Encode(s) == [Symbol(p), Symbol(q), Symbol(r), Symbol(u)] + Encode(s[3..])
    ensures 262144 * p + 4096 * q + 64 * r + u == 65536 * s[0] as int + 256 * s[1] as int + s[2] as int
  {
    hide Symbol;
    var a, b, c := s[0] as int, s[1] as int, s[2] as int;
    p, q, r, u := a / 4, a % 4 * 16 + b / 16, b % 16 * 4 + c / 64, c % 64;
    Repacked(a, b, c);
    ThreeBytesAdd(a, b, c);
  }

  lemma ThreeBytesAdd(a: nat, b: nat, c: nat)
    requires a < 256 && b < 256 && c < 256
    ensures 262144 * (a / 4) + 4096 * (a % 4 * 16 + b / 16) + 64 * (b % 16 * 4 + c / 64) + c % 64 == 65536 * a + 256 * b + c
  {
    assert a == 4 * (a / 4) + a % 4 && b == 16 * (b / 16) + b % 16 && c == 64 * (c / 64) + c % 64;
  }

  // ---- The cursor ----

  function IndexOf(s: string, c: char): (i: nat)
    ensures i <= |s| && c !in s[..i] && (i < |s| ==> s[i] == c)
  {
    if s == [] || s[0] == c then 0 else 1 + IndexOf(s[1..], c)
  }

  /** The three parts around the first two bars, if there are two. */
  function Split3(s: string): Option<(string, string, string)> {
    var i := IndexOf(s, '|');
    if i == |s| then None
    else
      var rest := s[i + 1..];
      var j := IndexOf(rest, '|');
      if j == |rest| then None else Some((s[..i], rest[..j], rest[j + 1..]))
  }

  function Raw(takenAt: Option<string>, id: int): string {
    (if takenAt.None? then "1" else "0") + "|" + (if takenAt.None? then "" else takenAt.value) + "|" + Decimal.Itoa(id)
  }

  function EncodeCursor(takenAt: Option<string>, id: int): string
    requires IsBytes(Raw(takenAt, id))
  {
    Encode(Raw(takenAt, id))
  }

  /** The null flag, the text and the id, or nothing for an invalid cursor. */
  function DecodeCursor(s: string): Option<(bool, string, int)> {
    var raw := Decode(s);
    if raw.None? || Split3(raw.value).None? then None
    else
      var (flag, text, number) := Split3(raw.value).value;
      var id := Decimal.ParseInt(number);
      if id.None? then None else Some((flag == "1", text, id.value))
  }

  lemma RawIsBytes(takenAt: Option<string>, id: int)
    requires takenAt.Some? ==> IsBytes(takenAt.value)
    ensures IsBytes(Raw(takenAt, id))
  {
    hide Decimal.Itoa;
    var n := Decimal.Itoa(id);
    forall i | 0 <= i < |n|
      ensures n[i] as int < 256
    {
      Decimal.ItoaCharacters(id, n[i]);
    }
  }

  lemma SplitAt(a: string, b: string, c: string)
    requires '|' !in a && '|' !in b
    ensures Split3(a + "|" + b + "|" + c) == Some((a, b, c))
  {
    var s := a + "|" + b + "|" + c;
    var rest := b + "|" + c;
    assert s == a + "|" + rest;
    IndexAt(a, rest);
    assert s[|a| + 1..] == rest && s[..|a|] == a;
    IndexAt(b, c);
    assert rest[|b| + 1..] == c && rest[..|b|] == b;
  }

  lemma {:induction false} IndexAt(a: string, rest: string)
    requires '|' !in a
    ensures IndexOf(a + "|" + rest, '|') == |a|
  {
    if a != [] {
      assert (a + "|" + rest)[1..] == a[1..] + "|" + rest;
      IndexAt(a[1..], rest);
    }
  }

  lemma {:induction false} ParseRejects(s: string)
    requires '|' in s
    ensures Decimal.ParseInt(s) == None
  {
    var i :| 0 <= i < |s| && s[i] == '|';
    if i > 0 && (s[0] == '-' || s[0] == '+') {
      assert s[1..][i - 1] == '|';
    }
  }

  /** A cursor decodes to what it was made of exactly when its text has no bar:
      for every 64-bit id, with or without a text. */
  lemma CursorRoundTrip(takenAt: Option<string>, id: int)
    requires takenAt.Some? ==> IsBytes(takenAt.value)
    ensures IsBytes(Raw(takenAt, id))
    ensures EncodeCursor(takenAt, id) != ""
    ensures DecodeCursor(EncodeCursor(takenAt, id)) == Some((takenAt.None?, if takenAt.None? then "" else takenAt.value, id))
      <==> Decimal.MIN64 <= id <= Decimal.MAX64 && (takenAt.Some? ==> '|' !in takenAt.value)
  {
    hide Encode, Decode, Raw, Decimal.Itoa, DecodeCursor;
    RawIsBytes(takenAt, id);
    var raw := Raw(takenAt, id);
    DecodeEncode(raw);
    RawNotEmpty(takenAt, id);
    NotEmpty(raw);
    DecodesRaw(Encode(raw), takenAt, id);
  }

  lemma RawNotEmpty(takenAt: Option<string>, id: int)
    ensures Raw(takenAt, id) != ""
  {
    hide Decimal.Itoa;
  }

  lemma DecodesRaw(s: string, takenAt: Option<string>, id: int)
    requires Decode(s) == Some(Raw(takenAt, id))
    ensures DecodeCursor(s) == Some((takenAt.None?, if takenAt.None? then "" else takenAt.value, id))
      <==> Decimal.MIN64 <= id <= Decimal.MAX64 && (takenAt.Some? ==> '|' !in takenAt.value)
  {
    hide Decode, Decimal.Itoa, Decimal.ParseInt;
    Decimal.ParseItoa(id);
    var text := if takenAt.None? then "" else takenAt.value;
    var flag := if takenAt.None? then "1" else "0";
    if '|' !in text {
      SplitAt(flag, text, Decimal.Itoa(id));
    } else {
      BarInText(s, flag, text, Decimal.Itoa(id));
    }
  }

  /** With a bar in its text a cursor is not read back: what follows the bar is no
      integer. */
  lemma BarInText(s: string, flag: string, text: string, number: string)
    requires '|' in text && '|' !in flag && Decode(s) == Some(flag + "|" + text + "|" + number)
    ensures DecodeCursor(s) == None
  {
    hide Decode, Decimal.ParseInt;
    var j := IndexOf(text, '|');
    var more := text[j + 1..] + "|" + number;
    assert text == text[..j] + "|" + text[j + 1..];
    assert flag + "|" + text + "|" + number == flag + "|" + text[..j] + "|" + more;
    SplitAt(flag, text[..j], more);
    assert more[|text| - j - 1] == '|';
    ParseRejects(more);
  }

  lemma NotEmpty(s: string)
    requires IsBytes(s) && s != []
    ensures Encode(s) != ""
  {
    hide Symbol;
  }

  /** What a cursor holds, before it is encoded. */
  lemma CursorHolds(takenAt: string, id: int)
    ensures Raw(Some(takenAt), id) == "0|" + takenAt + "|" + Decimal.Itoa(id)
    ensures Raw(None, id) == "1||" + Decimal.Itoa(id)
  {
    hide Decimal.Itoa;
    assert "0" + "|" == "0|" && "1" + "|" + "" + "|" == "1||";
  }

  /** A text is a cursor exactly when it decodes to three parts around its first two
      bars, the last one an integer; the first part tells the undated rows. */
  lemma CursorExactly(s: string, isNull: bool, text: string, id: int)
    ensures DecodeCursor(s) == Some((isNull, text, id)) <==>
      exists flag, number :: '|' !in flag && '|' !in text && Decode(s) == Some(flag + "|" + text + "|" + number)
        && Decimal.ParseInt(number) == Some(id) && (isNull <==> flag == "1")
  {
    hide Decode, Decimal.ParseInt;
    if DecodeCursor(s) == Some((isNull, text, id)) {
      var (flag, t, number) := Split3(Decode(s).value).value;
      Rejoined(Decode(s).value);
    }
    forall flag, number | '|' !in flag && '|' !in text && Decode(s) == Some(flag + "|" + text + "|" + number)
      ensures Split3(Decode(s).value) == Some((flag, text, number))
    {
      SplitAt(flag, text, number);
    }
  }

  lemma Rejoined(s: string)
    requires Split3(s).Some?
    ensures var (a, b, c) := Split3(s).value;
      '|' !in a && '|' !in b && s == a + "|" + b + "|" + c
  {
    var i := IndexOf(s, '|');
    var rest := s[i + 1..];
    var j := IndexOf(rest, '|');
    hide *;
    AroundBar(s, i);
    AroundBar(rest, j);
    Regrouped(s[..i], rest[..j], rest[j + 1..]);
    SplitParts(s);
  }

  lemma SplitParts(s: string)
    requires Split3(s).Some?
    ensures var i := IndexOf(s, '|');
      var j := IndexOf(s[i + 1..], '|');
      i < |s| && j < |s[i + 1..]| && Split3(s) == Some((s[..i], s[i + 1..][..j], s[i + 1..][j + 1..]))
  {
  }

  lemma Regrouped(a: string, b: string, c: string)
    ensures a + "|" + (b + "|" + c) == a + "|" + b + "|" + c
  {
  }

  lemma AroundBar(s: string, i: nat)
    requires i < |s| && s[i] == '|'
    ensures s == s[..i] + "|" + s[i + 1..]
  {
  }
}
