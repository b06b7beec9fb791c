/** What a recipe may say and what it must, in numbers and names: the vocabulary of
    the editor, the bounds, and the settings that are asked for
    (catalog/recipe.go:53-288). */
module RecipeRules {
  import opened Wrappers
  import opened Recipe

  const SIMULATIONS := [
    "Acros", "Acros + G Filter", "Acros + R Filter", "Acros + Ye Filter", "Astia/Soft", "Bleach Bypass/Eterna Bleach Bypass",
    "Classic Chrome", "Classic Negative", "Eterna/Cinema", "Fujichrome/Velvia", "Monochrome", "Monochrome + G Filter",
    "Monochrome + R Filter", "Monochrome + Ye Filter", "Nostalgic Neg", "Pro Neg. Hi", "Pro Neg. Std", "Provia/Standard", "Reala ACE",
    "Sepia", "Studio Portrait", "Studio Portrait Enhanced Saturation", "Studio Portrait Ex", "Studio Portrait Increased Sharpness",
    "Velvia/Vivid"]

  const BALANCES := [
    "Auto", "Auto (ambiance priority)", "Auto (white priority)", "Cloudy", "Custom", "Custom2", "Custom3", "Custom4", "Custom5",
    "Day White Fluorescent", "Daylight", "Daylight Fluorescent", "Flash", "Incandescent", "Kelvin", "Living Room Warm White Fluorescent",
    "Underwater", "Warm White Fluorescent", "White Fluorescent"]

  const RANGE_NAMES := ["Auto", "DR100", "DR200", "DR400"]
  const PRIORITY_NAMES := ["Auto", "Off", "Strong", "Weak"]
  const STRENGTH_NAMES := ["Off", "Strong", "Weak"]
  const SIZE_NAMES := ["Large", "Off", "Small"]

  /** From -2 to 4 by halves. */
  predicate HalfSteps(t: Option<Tone>) {
    t == None || t == Some(NegZero) || exists k :: -4 <= k <= 8 && t == Some(Tone(8 * k))
  }

  predicate AtMost(v: Option<int>, n: int) {
    v == None || -n <= v.value <= n
  }

  predicate Named(v: Option<string>, names: seq<string>) {
    v == None || v.value in names
  }

  ghost predicate Allowed(f: Fields) {
    && Named(f.filmSimulation, SIMULATIONS) && Named(f.whiteBalance, BALANCES)
    && Named(f.dynamicRange, RANGE_NAMES) && Named(f.dRangePriority, PRIORITY_NAMES)
    && HalfSteps(f.highlightTone) && HalfSteps(f.shadowTone)
    && AtMost(f.color, 4) && AtMost(f.sharpness, 4) && AtMost(f.noiseReduction, 4) && AtMost(f.clarity, 5)
    && AtMost(f.wbShiftRed, 9) && AtMost(f.wbShiftBlue, 9) && AtMost(f.monochromaticWC, 18) && AtMost(f.monochromaticMG, 18)
    && (f.colorTemperature == None || 2500 <= f.colorTemperature.value <= 10000)
    && Named(f.grainEffect, STRENGTH_NAMES) && Named(f.grainSize, SIZE_NAMES)
    && (f.grainEffect in {None, Some("Off")} || f.grainSize != Some("Off"))
    && Named(f.colorChrome, STRENGTH_NAMES) && Named(f.colorChromeFXBlue, STRENGTH_NAMES)
  }

  /** In any order, the same names. */
  ghost predicate SameNames(a: seq<string>, b: seq<string>) {
    (forall i :: 0 <= i < |a| ==> a[i] in b) && (forall i :: 0 <= i < |b| ==> b[i] in a)
  }

  /** Where a name of the one list is in the other. */
  ghost predicate Found(a: seq<string>, b: seq<string>, at: seq<nat>) {
    |at| == |a| && forall i :: 0 <= i < |a| ==> at[i] < |b| && b[at[i]] == a[i]
  }

  /** Where the names from one place to another are in the other list. */
  ghost predicate FoundFrom(a: seq<string>, from: nat, to: nat, b: seq<string>, at: seq<nat>) {
    from <= to <= |a| && |at| == to - from && forall i :: 0 <= i < to - from ==> at[i] < |b| && b[at[i]] == a[from + i]
  }

  lemma Simulations1()
    ensures FoundFrom(SIMULATIONS, 0, 7, FILM_SIMULATIONS, [16, 19, 18, 17, 2, 10, 3])
  {
  }

  lemma Simulations2()
    ensures FoundFrom(SIMULATIONS, 7, 13, FILM_SIMULATIONS, [7, 9, 11, 20, 23, 22])
  {
  }

  lemma Simulations3()
    ensures FoundFrom(SIMULATIONS, 13, 19, FILM_SIMULATIONS, [21, 8, 5, 6, 0, 4])
  {
  }

  lemma Simulations4()
    ensures FoundFrom(SIMULATIONS, 19, 25, FILM_SIMULATIONS, [24, 12, 13, 15, 14, 1])
  {
  }

  lemma Vocabulary1()
    ensures FoundFrom(FILM_SIMULATIONS, 0, 7, SIMULATIONS, [17, 24, 4, 6, 18, 15, 16])
  {
  }

  lemma Vocabulary2()
    ensures FoundFrom(FILM_SIMULATIONS, 7, 13, SIMULATIONS, [7, 14, 8, 5, 9, 20])
  {
  }

  lemma Vocabulary3()
    ensures FoundFrom(FILM_SIMULATIONS, 13, 19, SIMULATIONS, [21, 23, 22, 0, 3, 2])
  {
  }

  lemma Vocabulary4()
    ensures FoundFrom(FILM_SIMULATIONS, 19, 25, SIMULATIONS, [1, 10, 13, 12, 11, 19])
  {
  }

  lemma SimulationNames()
    ensures SameNames(SIMULATIONS, FILM_SIMULATIONS)
  {
    hide FoundFrom;
    Simulations1();
    Simulations2();
    Simulations3();
    Simulations4();
    Vocabulary1();
    Vocabulary2();
    Vocabulary3();
    Vocabulary4();
    FromFound(SIMULATIONS, 0, 7, FILM_SIMULATIONS, [16, 19, 18, 17, 2, 10, 3]);
    FromFound(SIMULATIONS, 7, 13, FILM_SIMULATIONS, [7, 9, 11, 20, 23, 22]);
    FromFound(SIMULATIONS, 13, 19, FILM_SIMULATIONS, [21, 8, 5, 6, 0, 4]);
    FromFound(SIMULATIONS, 19, 25, FILM_SIMULATIONS, [24, 12, 13, 15, 14, 1]);
    FromFound(FILM_SIMULATIONS, 0, 7, SIMULATIONS, [17, 24, 4, 6, 18, 15, 16]);
    FromFound(FILM_SIMULATIONS, 7, 13, SIMULATIONS, [7, 14, 8, 5, 9, 20]);
    FromFound(FILM_SIMULATIONS, 13, 19, SIMULATIONS, [21, 23, 22, 0, 3, 2]);
    FromFound(FILM_SIMULATIONS, 19, 25, SIMULATIONS, [1, 10, 13, 12, 11, 19]);
  }

  lemma FromFound(a: seq<string>, from: nat, to: nat, b: seq<string>, at: seq<nat>)
    requires FoundFrom(a, from, to, b, at)
    ensures forall i :: from <= i < to ==> i < |a| && a[i] in b
  {
    forall i | from <= i < to
      ensures i < |a| && a[i] in b
    {
      assert b[at[i - from]] == a[i];
    }
  }

  lemma BalancesFound()
    ensures Found(BALANCES, WHITE_BALANCES, [0, 2, 1, 4, 14, 15, 16, 17, 18, 6, 3, 5, 11, 10, 13, 9, 12, 8, 7])
  {
  }

  lemma VocabularyBalances()
    ensures Found(WHITE_BALANCES, BALANCES, [0, 2, 1, 10, 3, 11, 9, 18, 17, 15, 13, 12, 16, 14, 4, 5, 6, 7, 8])
  {
  }

  lemma BalanceNames()
    ensures SameNames(BALANCES, WHITE_BALANCES)
  {
    hide Found;
    BalancesFound();
    VocabularyBalances();
    AllFound(BALANCES, WHITE_BALANCES, [0, 2, 1, 4, 14, 15, 16, 17, 18, 6, 3, 5, 11, 10, 13, 9, 12, 8, 7]);
    AllFound(WHITE_BALANCES, BALANCES, [0, 2, 1, 10, 3, 11, 9, 18, 17, 15, 13, 12, 16, 14, 4, 5, 6, 7, 8]);
  }

  lemma AllFound(a: seq<string>, b: seq<string>, at: seq<nat>)
    requires Found(a, b, at)
    ensures forall i :: 0 <= i < |a| ==> a[i] in b
  {
  }

  lemma NamedAlike(v: Option<string>, a: seq<string>, b: seq<string>)
    requires SameNames(a, b)
    ensures OneOf(v, b) <==> Named(v, a)
  {
  }

  lemma TonesAlike(t: Option<Tone>)
    ensures ToneInBounds(t) <==> HalfSteps(t)
  {
    match t
    case Some(Tone(s)) =>
      if ToneInBounds(t) {
        assert t == Some(Tone(8 * (s / 8)));
      }
    case _ =>
  }

  lemma RangeNames()
    ensures SameNames(RANGE_NAMES, DYNAMIC_RANGES)
  {
    hide SameNames;
    assert Found(RANGE_NAMES, DYNAMIC_RANGES, [0, 1, 2, 3]);
    assert Found(DYNAMIC_RANGES, RANGE_NAMES, [0, 1, 2, 3]);
    BothFound(RANGE_NAMES, DYNAMIC_RANGES, [0, 1, 2, 3], [0, 1, 2, 3]);
  }

  lemma PriorityNames()
    ensures SameNames(PRIORITY_NAMES, PRIORITIES)
  {
    hide SameNames;
    assert Found(PRIORITY_NAMES, PRIORITIES, [1, 0, 3, 2]);
    assert Found(PRIORITIES, PRIORITY_NAMES, [1, 0, 3, 2]);
    BothFound(PRIORITY_NAMES, PRIORITIES, [1, 0, 3, 2], [1, 0, 3, 2]);
  }

  lemma StrengthNames()
    ensures SameNames(STRENGTH_NAMES, STRENGTHS)
  {
    hide SameNames;
    assert Found(STRENGTH_NAMES, STRENGTHS, [0, 2, 1]);
    assert Found(STRENGTHS, STRENGTH_NAMES, [0, 2, 1]);
    BothFound(STRENGTH_NAMES, STRENGTHS, [0, 2, 1], [0, 2, 1]);
  }

  lemma SizeNames()
    ensures SameNames(SIZE_NAMES, GRAIN_SIZES)
  {
    hide SameNames;
    assert Found(SIZE_NAMES, GRAIN_SIZES, [2, 0, 1]);
    assert Found(GRAIN_SIZES, SIZE_NAMES, [1, 2, 0]);
    BothFound(SIZE_NAMES, GRAIN_SIZES, [2, 0, 1], [1, 2, 0]);
  }

  lemma BothFound(a: seq<string>, b: seq<string>, inB: seq<nat>, inA: seq<nat>)
    requires Found(a, b, inB) && Found(b, a, inA)
    ensures SameNames(a, b)
  {
    AllFound(a, b, inB);
    AllFound(b, a, inA);
  }

  /** A recipe is valid exactly when all it says is allowed. */
  lemma ValidExactly(f: Fields)
    ensures Valid(f) <==> Allowed(f)
  {
    hide OneOf, Named, SameNames, ToneInBounds, HalfSteps, Within, AtMost, GrainAgrees;
    SimulationNames();
    BalanceNames();
    RangeNames();
    PriorityNames();
    StrengthNames();
    SizeNames();
    NamedAlike(f.filmSimulation, SIMULATIONS, FILM_SIMULATIONS);
    NamedAlike(f.whiteBalance, BALANCES, WHITE_BALANCES);
    NamedAlike(f.dynamicRange, RANGE_NAMES, DYNAMIC_RANGES);
    NamedAlike(f.dRangePriority, PRIORITY_NAMES, PRIORITIES);
    NamedAlike(f.grainEffect, STRENGTH_NAMES, STRENGTHS);
    NamedAlike(f.grainSize, SIZE_NAMES, GRAIN_SIZES);
    NamedAlike(f.colorChrome, STRENGTH_NAMES, STRENGTHS);
    NamedAlike(f.colorChromeFXBlue, STRENGTH_NAMES, STRENGTHS);
    TonesAlike(f.highlightTone);
    TonesAlike(f.shadowTone);
    WithinAlike(f.color, 4);
    WithinAlike(f.sharpness, 4);
    WithinAlike(f.noiseReduction, 4);
    WithinAlike(f.clarity, 5);
    WithinAlike(f.wbShiftRed, 9);
    WithinAlike(f.wbShiftBlue, 9);
    WithinAlike(f.monochromaticWC, 18);
    WithinAlike(f.monochromaticMG, 18);
    GrainAlike(f);
    KelvinAlike(f.colorTemperature);
  }

  lemma WithinAlike(v: Option<int>, n: int)
    ensures Within(v, -n, n) <==> AtMost(v, n)
  {
  }

  lemma KelvinAlike(v: Option<int>)
    ensures Within(v, 2500, 10000) <==> v == None || 2500 <= v.value <= 10000
  {
  }

  lemma GrainAlike(f: Fields)
    ensures GrainAgrees(f) <==> f.grainEffect in {None, Some("Off")} || f.grainSize != Some("Off")
  {
  }

  // ---- What an absence means ----

  /** Absent are taken as neutral: the priority as Off, the monochromatic color as 0,
      the color of a monochrome simulation as 0, the size of no grain as Off; nothing
      else is filled in. */
  lemma DefaultsMean(f: Fields)
    ensures var g := WithDefaults(f);
      && g.dRangePriority == (if f.dRangePriority == None then Some("Off") else f.dRangePriority)
      && g.monochromaticWC == (if f.monochromaticWC == None then Some(0) else f.monochromaticWC)
      && g.monochromaticMG == (if f.monochromaticMG == None then Some(0) else f.monochromaticMG)
      && g.color == (if f.color == None && f.filmSimulation.Some? && f.filmSimulation.value in MONOCHROME then Some(0) else f.color)
      && g.grainSize == (if f.grainSize == None && f.grainEffect == Some("Off") then Some("Off") else f.grainSize)
      && g == f.(dRangePriority := g.dRangePriority, monochromaticWC := g.monochromaticWC, monochromaticMG := g.monochromaticMG,
                 color := g.color, grainSize := g.grainSize)
  {
    hide IsMonochrome;
    MonoMeans(f);
  }

  // ---- What is missing ----

  const ASKED := [
    "filmSimulation", "dynamicRange", "highlightTone", "shadowTone", "color", "sharpness", "noiseReduction", "clarity",
    "grainEffect", "grainSize", "colorChrome", "colorChromeFXBlue", "whiteBalance", "wbShiftRed", "wbShiftBlue", "colorTemperature"]

  /** The setting of that name is asked for, and absent. */
  ghost predicate Lacks(f: Fields, i: nat) {
    match i
    case 0 => f.filmSimulation == None
    case 1 => f.dynamicRange == None
    case 2 => f.highlightTone == None
    case 3 => f.shadowTone == None
    case 4 => f.color == None && !(f.filmSimulation.Some? && f.filmSimulation.value in MONOCHROME)
    case 5 => f.sharpness == None
    case 6 => f.noiseReduction == None
    case 7 => f.clarity == None
    case 8 => f.grainEffect == None
    case 9 => f.grainSize == None && f.grainEffect != Some("Off")
    case 10 => f.colorChrome == None
    case 11 => f.colorChromeFXBlue == None
    case 12 => f.whiteBalance == None
    case 13 => f.wbShiftRed == None
    case 14 => f.wbShiftBlue == None
    case 15 => f.colorTemperature == None && f.whiteBalance == Some("Kelvin")
    case _ => false
  }

  lemma MonoMeans(f: Fields)
    ensures Mono(f) <==> f.filmSimulation.Some? && f.filmSimulation.value in MONOCHROME
  {
  }

  lemma AskedCount(f: Fields)
    ensures |Required(WithDefaults(f))| == if f.whiteBalance == Some("Kelvin") then 16 else 15
  {
    hide IsMonochrome;
  }

  lemma AskedName(f: Fields, i: nat)
    requires i < |Required(WithDefaults(f))|
    ensures i < 16 && Required(WithDefaults(f))[i].0 == ASKED[i]
  {
    hide WithDefaults;
  }

  lemma AskedEarly(f: Fields, i: nat)
    requires i < 8 && i < |Required(WithDefaults(f))|
    ensures Required(WithDefaults(f))[i].1 <==> !Lacks(f, i)
  {
    hide IsMonochrome;
    MonoMeans(f);
  }

  lemma AskedLate(f: Fields, i: nat)
    requires 8 <= i < |Required(WithDefaults(f))|
    ensures Required(WithDefaults(f))[i].1 <==> !Lacks(f, i)
  {
    hide IsMonochrome;
    MonoMeans(f);
  }

  lemma AskedAt(f: Fields)
    ensures var r := Required(WithDefaults(f));
      && |r| == (if f.whiteBalance == Some("Kelvin") then 16 else 15)
      && forall i :: 0 <= i < |r| ==> r[i].0 == ASKED[i] && (r[i].1 <==> !Lacks(f, i))
  {
    hide Required, WithDefaults, Lacks;
    AskedCount(f);
    forall i | 0 <= i < |Required(WithDefaults(f))|
      ensures Required(WithDefaults(f))[i].0 == ASKED[i] && (Required(WithDefaults(f))[i].1 <==> !Lacks(f, i))
    {
      AskedName(f, i);
      if i < 8 {
        AskedEarly(f, i);
      } else {
        AskedLate(f, i);
      }
    }
  }

  /** The names reported missing are those of the settings asked for and absent. */
  lemma MissingExactly(f: Fields, name: string)
    ensures name in Absent(Required(WithDefaults(f))) <==> exists i :: 0 <= i < 16 && ASKED[i] == name && Lacks(f, i)
  {
    hide IsMonochrome, Absent, Required, WithDefaults, Lacks;
    var r := Required(WithDefaults(f));
    AbsentNames(r);
    AskedAt(f);
    LacksKelvin(f);
    if i :| 0 <= i < 16 && ASKED[i] == name && Lacks(f, i) {
      assert r[i] == (name, false);
    }
  }

  lemma LacksKelvin(f: Fields)
    ensures Lacks(f, 15) ==> f.whiteBalance == Some("Kelvin")
  {
  }
}
