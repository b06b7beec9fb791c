/** Which recipes are the same, told on the fields as they come: what the editor
    compares and what a photo is matched by (catalog/recipe.go:172-359). */
module RecipeIdentity {
  import opened Wrappers
  import opened Recipe
  import opened Fingerprint
  import Decimal
  import Lex

  const MONOCHROME_NAMES := [
    "Acros", "Acros + Ye Filter", "Acros + R Filter", "Acros + G Filter",
    "Monochrome", "Monochrome + Ye Filter", "Monochrome + R Filter", "Monochrome + G Filter", "Sepia"]

  /** The settings that every fingerprint needs are there: color of a color
      simulation, size of a grain that is not Off, temperature of Kelvin. */
  ghost predicate Told(f: Fields) {
    && f.filmSimulation != None && f.dynamicRange != None && f.highlightTone != None && f.shadowTone != None
    && f.sharpness != None && f.noiseReduction != None && f.clarity != None && f.grainEffect != None
    && f.colorChrome != None && f.colorChromeFXBlue != None && f.whiteBalance != None
    && f.wbShiftRed != None && f.wbShiftBlue != None
    && (f.color == None ==> f.filmSimulation.value in MONOCHROME_NAMES)
    && (f.grainSize == None ==> f.grainEffect == Some("Off"))
    && (f.colorTemperature == None ==> f.whiteBalance != Some("Kelvin"))
  }

  /** Two tones are the same number; the two zeros are one. */
  ghost predicate SameTone(a: Option<Tone>, b: Option<Tone>) {
    a == b || (a in {Some(Tone(0)), Some(NegZero)} && b in {Some(Tone(0)), Some(NegZero)})
  }

  /** The same setting, where none stands for this value. */
  ghost predicate SameOr<T>(a: Option<T>, b: Option<T>, neutral: T) {
    a == b || (a in {None, Some(neutral)} && b in {None, Some(neutral)})
  }

  ghost predicate SameRecipe(f: Fields, k: Fields) {
    && f.filmSimulation == k.filmSimulation && f.dynamicRange == k.dynamicRange
    && SameOr(f.dRangePriority, k.dRangePriority, "Off")
    && SameTone(f.highlightTone, k.highlightTone) && SameTone(f.shadowTone, k.shadowTone)
    && f.sharpness == k.sharpness && f.noiseReduction == k.noiseReduction && f.clarity == k.clarity
    && f.grainEffect == k.grainEffect && (f.grainEffect != Some("Off") ==> f.grainSize == k.grainSize)
    && f.colorChrome == k.colorChrome && f.colorChromeFXBlue == k.colorChromeFXBlue
    && f.whiteBalance == k.whiteBalance && (f.whiteBalance == Some("Kelvin") ==> f.colorTemperature == k.colorTemperature)
    && f.wbShiftRed == k.wbShiftRed && f.wbShiftBlue == k.wbShiftBlue
    && (if f.filmSimulation.Some? && f.filmSimulation.value in MONOCHROME_NAMES
        then SameOr(f.monochromaticWC, k.monochromaticWC, 0) && SameOr(f.monochromaticMG, k.monochromaticMG, 0)
        else f.color == k.color)
  }

  ghost predicate NoNewline(s: Option<string>) {
    s.Some? ==> '\n' !in s.value
  }

  ghost predicate NoNewlines(f: Fields) {
    && NoNewline(f.filmSimulation) && NoNewline(f.dynamicRange) && NoNewline(f.dRangePriority) && NoNewline(f.grainEffect)
    && NoNewline(f.grainSize) && NoNewline(f.colorChrome) && NoNewline(f.colorChromeFXBlue) && NoNewline(f.whiteBalance)
  }

  lemma MonochromeNames(s: string)
    ensures IsMonochrome(s) <==> s in MONOCHROME_NAMES
  {
    assert MONOCHROME_NAMES == MONOCHROME;
  }

  lemma CompleteTold(f: Fields)
    ensures Complete(f) <==> Told(f)
  {
    hide IsMonochrome;
    if f.filmSimulation.Some? {
      MonochromeNames(f.filmSimulation.value);
    }
  }

  /** There is a text exactly for recipes that tell what is needed. */
  lemma TextExactly(f: Fields)
    ensures HashedText(f).Some? <==> Told(f)
  {
    hide Complete, Told, Normalized, Listed, Lex.Sort;
    CompleteTold(f);
  }

  lemma StillOneLined(f: Fields)
    requires Complete(f) && NoNewlines(f)
    ensures AllSet(Normalized(f)) && OneLiners(Normalized(f))
  {
    hide IsMonochrome, Complete;
    NormalizedAllSet(f);
  }

  lemma SameNormalized(f: Fields, k: Fields)
    requires Complete(f) && Complete(k)
    ensures Plain(Normalized(f)) == Plain(Normalized(k)) <==> SameRecipe(f, k)
  {
    hide IsMonochrome;
    MonochromeNames(f.filmSimulation.value);
    MonochromeNames(k.filmSimulation.value);
  }

  /** Recipes without newlines have the same text exactly when they are the same
      recipe. */
  lemma SameTextExactly(f: Fields, k: Fields)
    requires Told(f) && Told(k) && NoNewlines(f) && NoNewlines(k)
    ensures HashedText(f) == HashedText(k) <==> SameRecipe(f, k)
  {
    hide Complete, Told, NoNewlines, Normalized, SameRecipe, Plain, AllSet, OneLiners, HashedText;
    CompleteTold(f);
    CompleteTold(k);
    StillOneLined(f);
    StillOneLined(k);
    SameTextSameRecipe(f, k);
    SameNormalized(f, k);
  }

  // ---- The text itself ----

  ghost function Number(v: Option<int>): string {
    if v.Some? then Decimal.Itoa(v.value) else "0"
  }

  ghost function Word(v: Option<string>, neutral: string): string {
    if v.Some? then v.value else neutral
  }

  ghost function ToneText(v: Option<Tone>): string {
    if v.Some? then Num(v.value) else ""
  }

  ghost function FirstLines(f: Fields): seq<string>
    requires f.filmSimulation.Some?
  {
    var mono := f.filmSimulation.value in MONOCHROME_NAMES;
    ["clarity=" + Number(f.clarity), "color=" + (if mono then "0" else Number(f.color)),
     "colorChrome=" + Word(f.colorChrome, ""), "colorChromeFXBlue=" + Word(f.colorChromeFXBlue, "")]
  }

  ghost function LastLines(f: Fields): seq<string>
    requires f.filmSimulation.Some?
  {
    var mono := f.filmSimulation.value in MONOCHROME_NAMES;
    ["dRangePriority=" + Word(f.dRangePriority, "Off"), "dynamicRange=" + Word(f.dynamicRange, ""),
       "filmSimulation=" + f.filmSimulation.value, "grainEffect=" + Word(f.grainEffect, ""),
       "grainSize=" + (if f.grainEffect == Some("Off") then "Off" else Word(f.grainSize, "")),
       "highlightTone=" + ToneText(f.highlightTone),
       "monochromaticMG=" + (if mono then Number(f.monochromaticMG) else "0"),
       "monochromaticWC=" + (if mono then Number(f.monochromaticWC) else "0"),
       "noiseReduction=" + Number(f.noiseReduction), "shadowTone=" + ToneText(f.shadowTone), "sharpness=" + Number(f.sharpness),
       "wbShiftBlue=" + Number(f.wbShiftBlue), "wbShiftRed=" + Number(f.wbShiftRed)]
  }

  /** One line a setting in the order of their names, white balance last. */
  ghost function LinesOf(f: Fields): seq<string>
    requires f.filmSimulation.Some?
  {
    FirstLines(f)
    + (if f.whiteBalance == Some("Kelvin") then ["colorTemperature=" + Number(f.colorTemperature)] else [])
    + LastLines(f)
  }

  /** Each line with a newline after it. */
  function Ended(lines: seq<string>): string {
    if lines == [] then "" else lines[0] + "\n" + Ended(lines[1..])
  }

  lemma {:induction false} JoinEnded(lines: seq<string>, last: string)
    ensures Join(lines + [last]) == Ended(lines) + last
  {
    if lines == [] {
      assert lines + [last] == [last];
    } else {
      assert (lines + [last])[1..] == lines[1..] + [last];
      JoinEnded(lines[1..], last);
      assert lines[0] + "\n" + (Ended(lines[1..]) + last) == Ended(lines) + last;
    }
  }

  lemma LinesSpelled(f: Fields)
    requires Complete(f)
    ensures AllSet(Normalized(f))
    ensures Printed(Ordered(Normalized(f))) == LinesOf(f) + ["whiteBalance=" + Word(f.whiteBalance, "")]
  {
    hide IsMonochrome, Num, Decimal.Itoa;
    NormalizedAllSet(f);
    MonochromeNames(f.filmSimulation.value);
    hide *;
    FrontSpelled(f);
    RearSpelled(f);
    PrintedAppend(f);
  }

  lemma NoughtSpelled()
    ensures Decimal.Itoa(0) == "0"
  {
  }

  lemma FrontSpelled(f: Fields)
    requires Complete(f) && AllSet(Normalized(f))
    ensures f.filmSimulation.Some? && Printed(Front(Normalized(f))) == FirstLines(f)
    ensures Printed(Temperature(Normalized(f))) == if f.whiteBalance == Some("Kelvin") then ["colorTemperature=" + Number(f.colorTemperature)] else []
  {
    hide IsMonochrome, Num, Decimal.Itoa;
    MonochromeNames(f.filmSimulation.value);
    NoughtSpelled();
  }

  lemma RearSpelled(f: Fields)
    requires Complete(f) && AllSet(Normalized(f))
    ensures f.filmSimulation.Some? && Printed(Rear(Normalized(f))) == LastLines(f) + ["whiteBalance=" + Word(f.whiteBalance, "")]
  {
    hide IsMonochrome, Num, Decimal.Itoa;
    MonochromeNames(f.filmSimulation.value);
    NoughtSpelled();
  }

  lemma PrintedAppend(f: Fields)
    requires AllSet(Normalized(f)) && f.filmSimulation.Some?
    requires Printed(Front(Normalized(f))) == FirstLines(f)
    requires Printed(Temperature(Normalized(f))) == if f.whiteBalance == Some("Kelvin") then ["colorTemperature=" + Number(f.colorTemperature)] else []
    requires Printed(Rear(Normalized(f))) == LastLines(f) + ["whiteBalance=" + Word(f.whiteBalance, "")]
    ensures Printed(Ordered(Normalized(f))) == LinesOf(f) + ["whiteBalance=" + Word(f.whiteBalance, "")]
  {
    hide AllSet, Normalized, Front, Temperature, Rear, FirstLines, LastLines, Number;
    var g := Normalized(f);
    assert Printed(Ordered(g)) == Printed(Front(g)) + Printed(Temperature(g)) + Printed(Rear(g));
  }

  /** The text that is hashed, in full. */
  lemma TextSpelled(f: Fields)
    requires Told(f)
    ensures HashedText(f) == Some("v1\n" + (Ended(LinesOf(f)) + ("whiteBalance=" + f.whiteBalance.value)))
  {
    hide Complete, Told, Normalized, Listed, Ordered, LinesOf, Lex.Sort, Join, Printed, AllSet;
    CompleteTold(f);
    LinesSpelled(f);
    SortedByKey(Normalized(f));
    BalanceTold(f);
    JoinEnded(LinesOf(f), "whiteBalance=" + f.whiteBalance.value);
  }

  lemma BalanceTold(f: Fields)
    requires Told(f)
    ensures f.whiteBalance.Some? && f.filmSimulation.Some?
  {
  }

  function Ten(n: nat): nat {
    if n == 0 then 1 else 10 * Ten(n - 1)
  }

  /** A tone prints as its whole part and, unless they are nought, the shortest
      decimals that make up its sixteenths. */
  lemma ToneSpelled(sixteenths: int)
    ensures var m := if sixteenths < 0 then -sixteenths else sixteenths;
      && Num(Tone(sixteenths)) == (if sixteenths < 0 then "-" else "") + (Decimal.Itoa(m / 16) + Frac(m % 16))
      && Num(NegZero) == "0"
  {
    hide Frac;
    var m := if sixteenths < 0 then -sixteenths else sixteenths;
    assert "" + (Decimal.Itoa(m / 16) + Frac(m % 16)) == Decimal.Itoa(m / 16) + Frac(m % 16);
  }

  lemma DecimalsSpelled(r: nat)
    requires r < 16
    ensures var s := Frac(r);
      && (s == "" <==> r == 0)
      && (r > 0 ==> s[0] == '.' && |s| > 1 && s[|s| - 1] != '0' && Decimal.AllDigits(s[1..]) && 16 * Decimal.Value(s[1..]) == r * Ten(|s| - 1))
  {
    if r > 0 {
      DecimalsOf(r);
    }
  }

  lemma DecimalsOf(r: nat)
    requires 0 < r < 16
    ensures var s := Frac(r);
      s[0] == '.' && |s| > 1 && s[|s| - 1] != '0' && Decimal.AllDigits(s[1..]) && 16 * Decimal.Value(s[1..]) == r * Ten(|s| - 1)
  {
    var s := Frac(r);
    var d := s[1..];
    if |d| == 1 {
      OneDigit(d);
    } else if |d| == 2 {
      TwoDigits(d);
    } else if |d| == 3 {
      ThreeDigits(d);
    } else {
      FourDigits(d);
    }
  }

  function DigitOf(c: char): nat
    requires Decimal.IsDigit(c)
  {
    c as int - '0' as int
  }

  lemma OneDigit(s: string)
    requires |s| == 1 && Decimal.AllDigits(s)
    ensures Decimal.Value(s) == DigitOf(s[0])
  {
    assert s[..0] == [];
  }

  lemma TwoDigits(s: string)
    requires |s| == 2 && Decimal.AllDigits(s)
    ensures Decimal.Value(s) == 10 * DigitOf(s[0]) + DigitOf(s[1])
  {
    OneDigit(s[..1]);
  }

  lemma ThreeDigits(s: string)
    requires |s| == 3 && Decimal.AllDigits(s)
    ensures Decimal.Value(s) == 100 * DigitOf(s[0]) + 10 * DigitOf(s[1]) + DigitOf(s[2])
  {
    TwoDigits(s[..2]);
  }

  lemma FourDigits(s: string)
    requires |s| == 4 && Decimal.AllDigits(s)
    ensures Decimal.Value(s) == 1000 * DigitOf(s[0]) + 100 * DigitOf(s[1]) + 10 * DigitOf(s[2]) + DigitOf(s[3])
  {
    ThreeDigits(s[..3]);
  }
}
