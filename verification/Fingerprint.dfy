/** The text a recipe fingerprint is the digest of (`Fingerprint` of
    catalog/recipe.go): sorted lines "key=value" of the normalized fields. */
module Fingerprint {
  import opened Wrappers
  import opened Recipe
  import Decimal
  import Lex

  // ---- Numbers ----

  /** The decimals of r sixteenths. */
  function Frac(r: nat): string {
    match r
    case 1 => ".0625"
    case 2 => ".125"
    case 3 => ".1875"
    case 4 => ".25"
    case 5 => ".3125"
    case 6 => ".375"
    case 7 => ".4375"
    case 8 => ".5"
    case 9 => ".5625"
    case 10 => ".625"
    case 11 => ".6875"
    case 12 => ".75"
    case 13 => ".8125"
    case 14 => ".875"
    case 15 => ".9375"
    case _ => ""
  }

  function Unsigned(m: nat): string {
    Decimal.Digits(m / 16) + Frac(m % 16)
  }

  /** A tone in the shortest decimal form; both zeros print as "0". */
  function Num(t: Tone): string {
    match t
    case NegZero => "0"
    case Tone(s) => if s < 0 then "-" + Unsigned(-s) else Unsigned(s)
  }

  /** The sixteenths that a decimal part stands for. */
  function FracBack(s: string): nat {
    if |s| < 2 then 0
    else if |s| == 2 then 8
    else if |s| == 3 then (if s[1] == '2' then 4 else 12)
    else if |s| == 4 then (if s[1] == '1' then 2 else if s[1] == '3' then 6 else if s[1] == '6' then 10 else 14)
    else if s[1] == '0' then 1 else if s[1] == '1' then 3 else if s[1] == '3' then 5 else if s[1] == '4' then 7
    else if s[1] == '5' then 9 else if s[1] == '6' then 11 else if s[1] == '8' then 13 else 15
  }

  lemma FracInjective(r: nat)
    requires r < 16
    ensures FracBack(Frac(r)) == r && (Frac(r) == "" || Frac(r)[0] == '.') && '\n' !in Frac(r) && '-' !in Frac(r)
  {
  }

  lemma UnsignedInjective(a: nat, b: nat)
    requires Unsigned(a) == Unsigned(b)
    ensures a == b
  {
    hide Frac, FracBack, Decimal.Digits;
    FracInjective(a % 16);
    FracInjective(b % 16);
    var da, db := Decimal.Digits(a / 16), Decimal.Digits(b / 16);
    var fa, fb := Frac(a % 16), Frac(b % 16);
    DotAt(da, fa, db, fb);
    DotAt(db, fb, da, fa);
    assert da == (da + fa)[..|da|] == db;
    assert fa == (da + fa)[|da|..] == fb;
    Decimal.ValueOfDigits(a / 16);
    Decimal.ValueOfDigits(b / 16);
  }

  /** Digits end where the decimals begin. */
  lemma DotAt(da: string, fa: string, db: string, fb: string)
    requires da + fa == db + fb && Decimal.AllDigits(da) && Decimal.AllDigits(db)
    requires fa == "" || fa[0] == '.'
    requires fb == "" || fb[0] == '.'
    ensures |da| <= |db|
  {
    var all := da + fa;
    forall k | 0 <= k < |da|
      ensures Decimal.IsDigit(all[k])
    {
      assert all[k] == da[k];
    }
    if fb != "" {
      assert all[|db|] == (db + fb)[|db|] == '.';
    }
  }

  lemma NumInjective(a: Tone, b: Tone)
    requires Num(a) == Num(b)
    ensures Sixteenths(a) == Sixteenths(b)
  {
    hide Unsigned;
    var x, y := Sixteenths(a), Sixteenths(b);
    ZeroPrints();
    DigitFirst(if x < 0 then -x else x);
    DigitFirst(if y < 0 then -y else y);
    if x < 0 && y < 0 {
      assert Num(a)[1..] == Unsigned(-x) && Num(b)[1..] == Unsigned(-y);
      UnsignedInjective(-x, -y);
    } else if x >= 0 && y >= 0 {
      UnsignedInjective(x, y);
    }
  }

  lemma ZeroPrints()
    ensures Unsigned(0) == "0"
  {
  }

  lemma DigitFirst(m: nat)
    ensures Unsigned(m) != "" && Decimal.IsDigit(Unsigned(m)[0])
  {
    assert Decimal.IsDigit(Decimal.Digits(m / 16)[0]);
  }

  // ---- Lines ----

  type Line = (string, string)

  /** The lines up to the place of the color temperature, and from there on. */
  function Front(g: Fields): seq<Line>
    requires AllSet(g)
  {
    [("clarity=", Decimal.Itoa(g.clarity.value)), ("color=", Decimal.Itoa(g.color.value)),
     ("colorChrome=", g.colorChrome.value), ("colorChromeFXBlue=", g.colorChromeFXBlue.value)]
  }

  function Rear(g: Fields): seq<Line>
    requires AllSet(g)
  {
    [("dRangePriority=", g.dRangePriority.value), ("dynamicRange=", g.dynamicRange.value), ("filmSimulation=", g.filmSimulation.value),
     ("grainEffect=", g.grainEffect.value), ("grainSize=", g.grainSize.value), ("highlightTone=", Num(g.highlightTone.value)),
     ("monochromaticMG=", Decimal.Itoa(g.monochromaticMG.value)), ("monochromaticWC=", Decimal.Itoa(g.monochromaticWC.value)),
     ("noiseReduction=", Decimal.Itoa(g.noiseReduction.value)), ("shadowTone=", Num(g.shadowTone.value)),
     ("sharpness=", Decimal.Itoa(g.sharpness.value)), ("wbShiftBlue=", Decimal.Itoa(g.wbShiftBlue.value)),
     ("wbShiftRed=", Decimal.Itoa(g.wbShiftRed.value)), ("whiteBalance=", g.whiteBalance.value)]
  }

  function Temperature(g: Fields): seq<Line> {
    if g.colorTemperature.Some? then [("colorTemperature=", Decimal.Itoa(g.colorTemperature.value))] else []
  }

  function Printed(lines: seq<Line>): (s: seq<string>)
    ensures |s| == |lines| && forall i :: 0 <= i < |s| ==> s[i] == lines[i].0 + lines[i].1
  {
    seq(|lines|, i requires 0 <= i < |lines| => lines[i].0 + lines[i].1)
  }

  /** The lines as the program lists them: the temperature, if any, is appended. */
  function Listed(g: Fields): seq<Line>
    requires AllSet(g)
  {
    Front(g) + Rear(g) + Temperature(g)
  }

  /** The lines by key. */
  function Ordered(g: Fields): seq<Line>
    requires AllSet(g)
  {
    Front(g) + Temperature(g) + Rear(g)
  }

  function Join(lines: seq<string>): string {
    if lines == [] then "" else if |lines| == 1 then lines[0] else lines[0] + "\n" + Join(lines[1..])
  }

  /** The text that is hashed, or nothing for incomplete fields. */
  function HashedText(f: Fields): Option<string> {
    if !Complete(f) then None
    else
      NormalizedAllSet(f);
      Some("v1\n" + Join(Lex.Sort(Printed(Listed(Normalized(f))))))
  }

  // ---- The order of the lines is that of the keys ----

  predicate DecidesAt(a: string, b: string, i: nat) {
    i < |a| && i < |b| && a[..i] == b[..i] && a[i] < b[i]
  }

  /** The keys decide, whatever the values. */
  lemma KeysDecide(a: Line, b: Line, i: nat)
    requires DecidesAt(a.0, b.0, i)
    ensures Lex.Less(a.0 + a.1, b.0 + b.1)
  {
    assert (a.0 + a.1)[..i] == a.0[..i];
    assert (b.0 + b.1)[..i] == b.0[..i];
    Lex.Decided(a.0 + a.1, b.0 + b.1, i);
  }

  /** Where consecutive keys first differ. */
  const DECISIVE: seq<nat> := [1, 5, 11, 5, 0, 1, 0, 0, 5, 0, 0, 13, 0, 0, 3, 0, 7, 1]

  const KEYS := [
    "clarity=", "color=", "colorChrome=", "colorChromeFXBlue=", "colorTemperature=", "dRangePriority=", "dynamicRange=", "filmSimulation=",
    "grainEffect=", "grainSize=", "highlightTone=", "monochromaticMG=", "monochromaticWC=", "noiseReduction=", "shadowTone=",
    "sharpness=", "wbShiftBlue=", "wbShiftRed=", "whiteBalance="]

  lemma KeysOrdered()
    ensures forall i :: 0 <= i < 18 ==> DecidesAt(KEYS[i], KEYS[i + 1], DECISIVE[i])
    ensures DecidesAt(KEYS[3], KEYS[5], 0)
  {
  }

  /** The index of the key of line i. */
  function KeyIndex(g: Fields, i: nat): nat {
    if g.colorTemperature.None? && i >= 4 then i + 1 else i
  }

  function LineCount(g: Fields): nat {
    if g.colorTemperature.None? then 18 else 19
  }

  lemma OrderedKeys(g: Fields)
    requires AllSet(g)
    ensures |Ordered(g)| == |Listed(g)| == LineCount(g)
    ensures forall i :: 0 <= i < LineCount(g) ==> Ordered(g)[i].0 == KEYS[KeyIndex(g, i)]
  {
    hide Num, Decimal.Itoa, AllSet;
  }

  lemma {:induction false} AscendingBySteps(s: seq<string>)
    requires forall i :: 0 <= i < |s| - 1 ==> Lex.Less(s[i], s[i + 1])
    ensures Lex.Ascending(s)
  {
    hide Lex.Less;
    if |s| > 1 {
      AscendingBySteps(s[1..]);
      forall j | 0 < j < |s|
        ensures Lex.Less(s[0], s[j])
      {
        if j > 1 {
          assert Lex.Less(s[1..][0], s[1..][j - 1]);
          Lex.Transitive(s[0], s[1], s[j]);
        }
      }
      forall i, j | 0 <= i < j < |s|
        ensures Lex.Less(s[i], s[j])
      {
        if i > 0 {
          assert Lex.Less(s[1..][i - 1], s[1..][j - 1]);
        }
      }
    }
  }

  lemma OrderedAscends(g: Fields)
    requires AllSet(g)
    ensures Lex.Ascending(Printed(Ordered(g)))
  {
    hide AllSet, Ordered, Lex.Less, Listed, DecidesAt;
    OrderedKeys(g);
    KeysOrdered();
    var o := Ordered(g);
    forall i | 0 <= i < |o| - 1
      ensures Lex.Less(Printed(o)[i], Printed(o)[i + 1])
    {
      if g.colorTemperature.None? && i == 3 {
        KeysDecide(o[i], o[i + 1], 0);
      } else {
        KeysDecide(o[i], o[i + 1], DECISIVE[KeyIndex(g, i)]);
      }
    }
    AscendingBySteps(Printed(o));
  }

  /** The place of a listed line among the ordered ones. */
  function Place(g: Fields, i: nat): nat {
    if g.colorTemperature.None? || i < 4 then i else if i == 18 then 4 else i + 1
  }

  lemma ListedPlaces(g: Fields)
    requires AllSet(g)
    ensures |Ordered(g)| == |Listed(g)| == LineCount(g)
    ensures forall i :: 0 <= i < LineCount(g) ==> Place(g, i) < LineCount(g) && Listed(g)[i] == Ordered(g)[Place(g, i)]
  {
    hide Num, Decimal.Itoa, AllSet;
    OrderedKeys(g);
  }

  /** Sorting puts the lines in the order of their keys, whatever the values. */
  lemma SortedByKey(g: Fields)
    requires AllSet(g)
    ensures Lex.Sort(Printed(Listed(g))) == Printed(Ordered(g))
  {
    hide AllSet, Ordered, Listed, Lex.Less, Lex.Sort;
    ListedPlaces(g);
    OrderedAscends(g);
    var l, o := Printed(Listed(g)), Printed(Ordered(g));
    assert forall i :: 0 <= i < |l| ==> l[i] == o[Place(g, i)];
    forall i, j | 0 <= i < j < |l|
      ensures l[i] != l[j]
    {
      Lex.Irreflexive(l[i]);
      assert Lex.Less(o[Place(g, i)], o[Place(g, j)]) || Lex.Less(o[Place(g, j)], o[Place(g, i)]);
    }
    Lex.SortAscends(l);
    forall x
      ensures x in Lex.Sort(l) <==> x in o
    {
      Lex.SortMembers(l, x);
      if x in o {
        var j :| 0 <= j < |o| && o[j] == x;
        var i := if g.colorTemperature.None? || j < 4 then j else if j == 4 then 18 else j - 1;
        assert Place(g, i) == j;
        assert l[i] == x;
      }
    }
    Lex.AscendingUnique(Lex.Sort(l), o);
  }

  // ---- The text determines the fields ----

  predicate OneLine(s: string) {
    '\n' !in s
  }

  lemma {:induction false} JoinHasNewline(a: seq<string>)
    requires a != [] && forall i :: 0 <= i < |a| ==> OneLine(a[i])
    ensures |a| == 1 <==> OneLine(Join(a))
    ensures |a| > 1 ==> Join(a)[|a[0]|] == '\n'
    ensures Join(a)[..|a[0]|] == a[0]
  {
    if |a| > 1 {
      assert Join(a) == a[0] + "\n" + Join(a[1..]);
      assert Join(a)[|a[0]|] == '\n';
    }
  }

  lemma {:induction false} JoinInjective(a: seq<string>, b: seq<string>)
    requires a != [] && b != []
    requires forall i :: 0 <= i < |a| ==> OneLine(a[i])
    requires forall i :: 0 <= i < |b| ==> OneLine(b[i])
    requires Join(a) == Join(b)
    ensures a == b
  {
    JoinHasNewline(a);
    JoinHasNewline(b);
    if |a| == 1 {
      assert a == b;
    } else {
      FirstNewline(a[0], b[0], Join(a));
      FirstNewline(b[0], a[0], Join(a));
      assert a[0] == b[0];
      assert Join(a)[|a[0]| + 1..] == Join(a[1..]) && Join(b)[|b[0]| + 1..] == Join(b[1..]);
      JoinInjective(a[1..], b[1..]);
    }
  }

  lemma FirstNewline(x: string, y: string, all: string)
    requires OneLine(y) && |x| < |all| && |y| <= |all| && all[|x|] == '\n' && all[..|y|] == y
    ensures |y| <= |x|
  {
    forall i | 0 <= i < |y|
      ensures all[i] != '\n'
    {
      assert all[i] == all[..|y|][i] == y[i] && y[i] in y;
    }
  }

  /** The strings a recipe can carry have no newline. */
  predicate OneLiners(g: Fields)
    requires AllSet(g)
  {
    && OneLine(g.colorChrome.value) && OneLine(g.colorChromeFXBlue.value) && OneLine(g.dRangePriority.value)
    && OneLine(g.dynamicRange.value) && OneLine(g.filmSimulation.value) && OneLine(g.grainEffect.value)
    && OneLine(g.grainSize.value) && OneLine(g.whiteBalance.value)
  }

  lemma NumbersOneLine(n: int, t: Tone)
    ensures OneLine(Decimal.Itoa(n)) && OneLine(Num(t))
  {
    hide Frac, Decimal.Digits;
    if '\n' in Decimal.Itoa(n) {
      Decimal.ItoaCharacters(n, '\n');
    }
    if t.Tone? {
      var m: nat := if t.sixteenths < 0 then -t.sixteenths else t.sixteenths;
      FracInjective(m % 16);
      assert forall i :: 0 <= i < |Decimal.Digits(m / 16)| ==> Decimal.IsDigit(Decimal.Digits(m / 16)[i]);
    }
  }

  lemma KeysOneLine()
    ensures forall i :: 0 <= i < |KEYS| ==> OneLine(KEYS[i])
  {
  }

  lemma ValuesOneLine(g: Fields)
    requires AllSet(g) && OneLiners(g)
    ensures forall i :: 0 <= i < |Ordered(g)| ==> OneLine(Ordered(g)[i].1)
  {
    hide OneLine, Num, Decimal.Itoa;
    NumbersOneLine(g.clarity.value, g.highlightTone.value);
    NumbersOneLine(g.color.value, g.shadowTone.value);
    NumbersOneLine(g.monochromaticMG.value, NegZero);
    NumbersOneLine(g.monochromaticWC.value, NegZero);
    NumbersOneLine(g.noiseReduction.value, NegZero);
    NumbersOneLine(g.sharpness.value, NegZero);
    NumbersOneLine(g.wbShiftBlue.value, NegZero);
    NumbersOneLine(g.wbShiftRed.value, NegZero);
    NumbersOneLine(if g.colorTemperature.Some? then g.colorTemperature.value else 0, NegZero);
  }

  lemma LinesOneLine(g: Fields)
    requires AllSet(g) && OneLiners(g)
    ensures forall i :: 0 <= i < |Printed(Ordered(g))| ==> OneLine(Printed(Ordered(g))[i])
  {
    hide AllSet, Ordered, OneLiners, Listed;
    OrderedKeys(g);
    ValuesOneLine(g);
    KeysOneLine();
  }

  lemma SameLines(g: Fields, h: Fields)
    requires AllSet(g) && AllSet(h) && Printed(Ordered(g)) == Printed(Ordered(h))
    ensures Ordered(g) == Ordered(h) && LineCount(g) == LineCount(h)
  {
    hide AllSet, Ordered, Listed;
    OrderedKeys(g);
    OrderedKeys(h);
    var a, b := Ordered(g), Ordered(h);
    forall i | 0 <= i < |a|
      ensures a[i] == b[i]
    {
      assert Printed(a)[i] == Printed(b)[i];
      assert a[i].1 == (a[i].0 + a[i].1)[|a[i].0|..];
      assert b[i].1 == (b[i].0 + b[i].1)[|b[i].0|..];
    }
  }

  lemma SameValues(g: Fields, h: Fields)
    requires AllSet(g) && AllSet(h) && Ordered(g) == Ordered(h) && LineCount(g) == LineCount(h)
    ensures Front(g) == Front(h) && Rear(g) == Rear(h) && Temperature(g) == Temperature(h)
  {
    hide AllSet, Front, Rear;
    FrontRearSizes(g);
    FrontRearSizes(h);
    var k := 4 + |Temperature(g)|;
    assert Ordered(g)[..4] == Front(g) && Ordered(h)[..4] == Front(h);
    assert Ordered(g)[4..k] == Temperature(g) && Ordered(h)[4..k] == Temperature(h);
    assert Ordered(g)[k..] == Rear(g) && Ordered(h)[k..] == Rear(h);
  }

  lemma FrontRearSizes(g: Fields)
    requires AllSet(g)
    ensures |Front(g)| == 4 && |Rear(g)| == 14 && |Temperature(g)| == LineCount(g) - 18
  {
  }

  lemma SameFront(g: Fields, h: Fields)
    requires AllSet(g) && AllSet(h) && Front(g) == Front(h) && Temperature(g) == Temperature(h)
    ensures g.clarity == h.clarity && g.color == h.color && g.colorChrome == h.colorChrome && g.colorChromeFXBlue == h.colorChromeFXBlue
    ensures g.colorTemperature == h.colorTemperature
  {
    hide Decimal.Itoa;
    var a, b := Front(g), Front(h);
    assert a[0].1 == b[0].1 && a[1].1 == b[1].1 && a[2].1 == b[2].1 && a[3].1 == b[3].1;
    Decimal.ItoaInjective(g.clarity.value, h.clarity.value);
    Decimal.ItoaInjective(g.color.value, h.color.value);
    if g.colorTemperature.Some? && h.colorTemperature.Some? {
      assert Temperature(g)[0].1 == Temperature(h)[0].1;
      Decimal.ItoaInjective(g.colorTemperature.value, h.colorTemperature.value);
    }
  }

  lemma SameRear(g: Fields, h: Fields)
    requires AllSet(g) && AllSet(h) && Rear(g) == Rear(h)
    ensures g.dRangePriority == h.dRangePriority && g.dynamicRange == h.dynamicRange && g.filmSimulation == h.filmSimulation
    ensures g.grainEffect == h.grainEffect && g.grainSize == h.grainSize && g.whiteBalance == h.whiteBalance
    ensures g.monochromaticMG == h.monochromaticMG && g.monochromaticWC == h.monochromaticWC && g.noiseReduction == h.noiseReduction
    ensures g.sharpness == h.sharpness && g.wbShiftBlue == h.wbShiftBlue && g.wbShiftRed == h.wbShiftRed
    ensures Sixteenths(g.highlightTone.value) == Sixteenths(h.highlightTone.value)
    ensures Sixteenths(g.shadowTone.value) == Sixteenths(h.shadowTone.value)
  {
    hide Decimal.Itoa, Num, Sixteenths;
    var a, b := Rear(g), Rear(h);
    assert a[0].1 == b[0].1 && a[1].1 == b[1].1 && a[2].1 == b[2].1 && a[3].1 == b[3].1 && a[4].1 == b[4].1 && a[5].1 == b[5].1;
    assert a[6].1 == b[6].1 && a[7].1 == b[7].1 && a[8].1 == b[8].1 && a[9].1 == b[9].1 && a[10].1 == b[10].1;
    assert a[11].1 == b[11].1 && a[12].1 == b[12].1 && a[13].1 == b[13].1;
    NumInjective(g.highlightTone.value, h.highlightTone.value);
    NumInjective(g.shadowTone.value, h.shadowTone.value);
    Decimal.ItoaInjective(g.monochromaticMG.value, h.monochromaticMG.value);
    Decimal.ItoaInjective(g.monochromaticWC.value, h.monochromaticWC.value);
    Decimal.ItoaInjective(g.noiseReduction.value, h.noiseReduction.value);
    Decimal.ItoaInjective(g.sharpness.value, h.sharpness.value);
    Decimal.ItoaInjective(g.wbShiftBlue.value, h.wbShiftBlue.value);
    Decimal.ItoaInjective(g.wbShiftRed.value, h.wbShiftRed.value);
  }

  /** Fields that differ only in the sign of a zero print alike. */
  lemma PlainPrintsAlike(g: Fields)
    requires AllSet(g)
    ensures AllSet(Plain(g)) && Listed(Plain(g)) == Listed(g)
  {
    hide Decimal.Itoa;
    ZeroPrints();
  }

  /** Two complete recipes without newlines in their strings have the same
      fingerprint text exactly when their normalized fields are the same, up to
      the sign of a zero. */
  lemma SameTextSameRecipe(f: Fields, k: Fields)
    requires Complete(f) && Complete(k) && AllSet(Normalized(f)) && AllSet(Normalized(k))
    requires OneLiners(Normalized(f)) && OneLiners(Normalized(k))
    ensures HashedText(f) == HashedText(k) <==> Plain(Normalized(f)) == Plain(Normalized(k))
  {
    hide Complete, Normalized, AllSet, OneLiners, Listed, Ordered, Plain, Lex.Sort, Join;
    var g, h := Normalized(f), Normalized(k);
    PlainPrintsAlike(g);
    PlainPrintsAlike(h);
    SortedByKey(g);
    SortedByKey(h);
    if HashedText(f) == HashedText(k) {
      var a, b := Printed(Ordered(g)), Printed(Ordered(h));
      assert ("v1\n" + Join(a))[3..] == Join(a) && ("v1\n" + Join(b))[3..] == Join(b);
      LinesOneLine(g);
      LinesOneLine(h);
      OrderedKeys(g);
      OrderedKeys(h);
      JoinInjective(a, b);
      SameLines(g, h);
      SameValues(g, h);
      SameFront(g, h);
      SameRear(g, h);
      SamePlain(g, h);
    }
  }

  lemma SamePlain(g: Fields, h: Fields)
    requires AllSet(g) && AllSet(h)
    requires g.clarity == h.clarity && g.color == h.color && g.colorChrome == h.colorChrome && g.colorChromeFXBlue == h.colorChromeFXBlue
    requires g.colorTemperature == h.colorTemperature
    requires g.dRangePriority == h.dRangePriority && g.dynamicRange == h.dynamicRange && g.filmSimulation == h.filmSimulation
    requires g.grainEffect == h.grainEffect && g.grainSize == h.grainSize && g.whiteBalance == h.whiteBalance
    requires g.monochromaticMG == h.monochromaticMG && g.monochromaticWC == h.monochromaticWC && g.noiseReduction == h.noiseReduction
    requires g.sharpness == h.sharpness && g.wbShiftBlue == h.wbShiftBlue && g.wbShiftRed == h.wbShiftRed
    requires Sixteenths(g.highlightTone.value) == Sixteenths(h.highlightTone.value)
    requires Sixteenths(g.shadowTone.value) == Sixteenths(h.shadowTone.value)
    ensures Plain(g) == Plain(h)
  {
  }

  /** Any fields equivalent after normalization, newlines or not, have the same
      text: in particular normalizing first changes nothing. */
  lemma NormalizedSameText(f: Fields)
    ensures HashedText(Normalized(f)) == HashedText(f)
  {
    hide Complete, Normalized, Listed, Lex.Sort, Join;
    NormalizedIdempotent(f);
  }

  // ---- Newlines ----

  lemma JoinFour(s: seq<string>)
    requires |s| > 4
    ensures Join(s) == s[0] + "\n" + s[1] + "\n" + (s[2] + "\n" + s[3]) + "\n" + Join(s[4..])
  {
    JoinTwo(s);
    JoinTwo(s[2..]);
    assert s[2..][2..] == s[4..];
    Regroup(s[0], s[1], s[2], s[3], Join(s[4..]));
  }

  lemma JoinTwo(s: seq<string>)
    requires |s| > 2
    ensures Join(s) == s[0] + "\n" + (s[1] + "\n" + Join(s[2..]))
  {
    assert s[1..][1..] == s[2..];
  }

  lemma Regroup(a: string, b: string, c: string, d: string, e: string)
    ensures a + "\n" + (b + "\n" + (c + "\n" + (d + "\n" + e))) == a + "\n" + b + "\n" + (c + "\n" + d) + "\n" + e
  {
    var x := c + "\n" + (d + "\n" + e);
    assert x == (c + "\n" + d) + "\n" + e;
    assert a + "\n" + (b + "\n" + x) == (a + "\n" + b + "\n") + x;
    assert (a + "\n" + b + "\n") + ((c + "\n" + d) + "\n" + e) == (a + "\n" + b + "\n") + (c + "\n" + d) + "\n" + e;
  }

  const FX_LINE := "\ncolorChromeFXBlue="

  /** Why the values must be free of newlines: with one, a value can pose as the
      end of its line and the next line. Neither the vocabulary of the editor nor
      the tables of the decoder hold such a value (`RecipeTheorems.ValidOneLiners`,
      `RecipeTheorems.DecodedOneLiners`), so no recipe of the program collides this
      way: this shows only why `SameTextSameRecipe` asks for it. */
  lemma NewlineCollides(f: Fields, p: string, q: string, r: string)
    requires Complete(f)
    ensures var a := f.(colorChrome := Some(p + FX_LINE + q), colorChromeFXBlue := Some(r));
      var b := f.(colorChrome := Some(p), colorChromeFXBlue := Some(q + FX_LINE + r));
      && Complete(a) && Complete(b) && HashedText(a) == HashedText(b)
      && Plain(Normalized(a)) != Plain(Normalized(b))
  {
    hide IsMonochrome, Lex.Sort, Num, Decimal.Itoa, Join;
    var a := f.(colorChrome := Some(p + FX_LINE + q), colorChromeFXBlue := Some(r));
    var b := f.(colorChrome := Some(p), colorChromeFXBlue := Some(q + FX_LINE + r));
    NormalizedAllSet(a);
    NormalizedAllSet(b);
    var g, h := Normalized(a), Normalized(b);
    assert g.colorChrome.value != h.colorChrome.value;
    SortedByKey(g);
    SortedByKey(h);
    Collision(g, h, p, q, r);
  }

  lemma Collision(g: Fields, h: Fields, p: string, q: string, r: string)
    requires AllSet(g) && h == g.(colorChrome := Some(p), colorChromeFXBlue := Some(q + FX_LINE + r))
    requires g.colorChrome == Some(p + FX_LINE + q) && g.colorChromeFXBlue == Some(r)
    ensures Join(Printed(Ordered(g))) == Join(Printed(Ordered(h)))
  {
    hide Num, Decimal.Itoa, Join;
    var x, y := Printed(Ordered(g)), Printed(Ordered(h));
    OrderedKeys(g);
    OrderedKeys(h);
    JoinFour(x);
    JoinFour(y);
    assert x[4..] == y[4..] && x[0] == y[0] && x[1] == y[1];
    var key := "colorChromeFXBlue=";
    assert FX_LINE == "\n" + key;
    assert x[2] == "colorChrome=" + (p + FX_LINE + q) && x[3] == key + r;
    assert y[2] == "colorChrome=" + p && y[3] == key + (q + FX_LINE + r);
    Reassociate("colorChrome=", p, key, q, r);
  }

  lemma Reassociate(c: string, p: string, key: string, q: string, r: string)
    ensures var fx := "\n" + key;
      c + (p + fx + q) + "\n" + (key + r) == c + p + "\n" + (key + (q + fx + r))
  {
    var fx := "\n" + key;
    assert c + (p + fx + q) + "\n" + (key + r) == c + p + fx + q + fx + r;
    assert c + p + "\n" + (key + (q + fx + r)) == c + p + fx + q + fx + r;
  }
}
