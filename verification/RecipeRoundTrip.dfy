/** Every valid, complete recipe has a maker note that decodes back to it: the
    editor and the decoder agree on every setting. */
module RecipeRoundTrip {
  import opened Wrappers
  import opened MakerNote
  import opened MakerNotePrinter
  import opened Recipe
  import opened RecipeCodec
  import Decimal

  // ---- The tables backwards ----

  function FilmModeCode(name: string): (code: int)
    ensures 0 <= code <= 0xFFF
  {
    if name == "Provia/Standard" then 0x000
    else if name == "Studio Portrait" then 0x100
    else if name == "Studio Portrait Enhanced Saturation" then 0x110
    else if name == "Astia/Soft" then 0x120
    else if name == "Studio Portrait Increased Sharpness" then 0x130
    else if name == "Fujichrome/Velvia" then 0x200
    else if name == "Studio Portrait Ex" then 0x300
    else if name == "Velvia/Vivid" then 0x400
    else if name == "Pro Neg. Std" then 0x500
    else if name == "Pro Neg. Hi" then 0x501
    else if name == "Classic Chrome" then 0x600
    else if name == "Eterna/Cinema" then 0x700
    else if name == "Classic Negative" then 0x800
    else if name == "Bleach Bypass/Eterna Bleach Bypass" then 0x900
    else if name == "Nostalgic Neg" then 0xA00
    else 0xB00
  }

  function SaturationCode(name: string): (code: int)
    ensures 0 <= code <= 0xFFF
  {
    if name == "Monochrome" then 0x300
    else if name == "Monochrome + R Filter" then 0x301
    else if name == "Monochrome + Ye Filter" then 0x302
    else if name == "Monochrome + G Filter" then 0x303
    else if name == "Sepia" then 0x310
    else if name == "Acros" then 0x500
    else if name == "Acros + R Filter" then 0x501
    else if name == "Acros + Ye Filter" then 0x502
    else 0x503
  }

  function ColorCode(ui: int): (code: int)
    ensures 0 <= code <= 0xFFF
  {
    match ui
    case 1 => 0x080
    case 2 => 0x100
    case 3 => 0x0C0
    case 4 => 0x0E0
    case -1 => 0x180
    case -2 => 0x400
    case -3 => 0x4C0
    case -4 => 0x4E0
    case _ => 0x000
  }

  function SharpnessCode(ui: int): (code: int)
    ensures 0 <= code <= 0xFFF
  {
    match ui
    case -4 => 0x00
    case -3 => 0x01
    case -2 => 0x02
    case -1 => 0x82
    case 1 => 0x84
    case 2 => 0x04
    case 3 => 0x05
    case 4 => 0x06
    case _ => 0x03
  }

  function NoiseReductionCode(ui: int): (code: int)
    ensures 0 <= code <= 0xFFF
  {
    match ui
    case 1 => 0x180
    case 2 => 0x100
    case 3 => 0x1C0
    case 4 => 0x1E0
    case -1 => 0x280
    case -2 => 0x200
    case -3 => 0x2C0
    case -4 => 0x2E0
    case _ => 0x000
  }

  function LightCode(name: string): (code: int)
    ensures 0 <= code <= 0xFFF
  {
    if name == "Auto" then 0x000
    else if name == "Auto (white priority)" then 0x001
    else if name == "Auto (ambiance priority)" then 0x002
    else if name == "Daylight" then 0x100
    else if name == "Cloudy" then 0x200
    else if name == "Daylight Fluorescent" then 0x300
    else if name == "Day White Fluorescent" then 0x301
    else if name == "White Fluorescent" then 0x302
    else if name == "Warm White Fluorescent" then 0x303
    else if name == "Living Room Warm White Fluorescent" then 0x304
    else if name == "Incandescent" then 0x400
    else if name == "Flash" then 0x500
    else 0x600
  }

  function WhiteBalanceCode(name: string): (code: int)
    ensures 0 <= code <= 0xFFF
  {
    if IsLight(name) then LightCode(name)
    else if name == "Custom" then 0xF00
    else if name == "Custom2" then 0xF01
    else if name == "Custom3" then 0xF02
    else if name == "Custom4" then 0xF03
    else if name == "Custom5" then 0xF04
    else 0xFF0
  }

  function StrengthCode(name: string): (code: int)
    ensures 0 <= code <= 0xFFF
  {
    if name == "Weak" then 32 else if name == "Strong" then 64 else 0
  }

  function GrainSizeCode(name: string): (code: int)
    ensures 0 <= code <= 0xFFF
  {
    if name == "Small" then 16 else if name == "Large" then 32 else 0
  }

  predicate IsLight(name: string) {
    name in LIGHTS
  }

  lemma NotLight(name: string)
    requires name in WHITE_BALANCES && !IsLight(name)
    ensures name in ["Kelvin", "Custom", "Custom2", "Custom3", "Custom4", "Custom5"]
  {
  }

  predicate IsColor(name: string) {
    name in COLOR_SIMULATIONS
  }

  lemma FilmModeBack(name: string)
    requires IsColor(name)
    ensures FilmModeName(FilmModeCode(name)) == Some(name)
  {
  }

  lemma SaturationBack(name: string)
    requires IsMonochrome(name)
    ensures SaturationSim(SaturationCode(name)) == Some(name)
  {
  }

  lemma ScalesBack(ui: int)
    requires -4 <= ui <= 4
    ensures SaturationValue(ColorCode(ui)) == Some(ui) && SaturationSim(ColorCode(ui)) == None
    ensures SharpnessValue(SharpnessCode(ui)) == Some(ui)
    ensures NoiseReductionValue(NoiseReductionCode(ui)) == Some(ui)
  {
  }

  lemma LightBack(name: string)
    requires IsLight(name)
    ensures WhiteBalanceName(LightCode(name)) == Some(name)
  {
  }

  lemma WhiteBalanceBack(name: Option<string>)
    requires name.Some? && OneOf(name, WHITE_BALANCES)
    ensures WhiteBalanceName(WhiteBalanceCode(name.value)) == name
  {
    hide IsLight, LightCode;
    if IsLight(name.value) {
      LightBack(name.value);
    } else {
      NotLight(name.value);
    }
  }

  lemma StrengthBack(name: Option<string>)
    requires name.Some? && OneOf(name, STRENGTHS)
    ensures StrengthName(StrengthCode(name.value)) == name
  {
  }

  lemma GrainSizeBack(name: Option<string>)
    requires name.Some? && OneOf(name, GRAIN_SIZES)
    ensures GrainSizeName(GrainSizeCode(name.value)) == name
  {
  }

  // ---- The maker note of a recipe ----

  const TAGS: seq<nat> := [
    SHARPNESS, WHITE_BALANCE, SATURATION, COLOR_TEMPERATURE, WB_FINE_TUNE, NOISE_REDUCTION, CLARITY, SHADOW_TONE, HIGHLIGHT_TONE,
    GRAIN_EFFECT, COLOR_CHROME, BW_ADJUSTMENT, BW_MAGENTA_GREEN, GRAIN_SIZE, COLOR_CHROME_FX_BLUE,
    FILM_MODE, DYNAMIC_RANGE_SET, DEV_DYNAMIC_RANGE, D_RANGE_PRIORITY, D_RANGE_PRIORITY_FIXED]

  /** A complete, valid and normalized recipe. */
  ghost predicate Canonical(g: Fields) {
    && Complete(g) && Valid(g) && Normalized(g) == g
  }

  /** The elements of a tag; none when the tag is left out. */
  function Setting(g: Fields, tag: nat): seq<int>
    requires Complete(g) && Normalized(g) == g
  {
    if tag == SHARPNESS then [SharpnessCode(g.sharpness.value)]
    else if tag == WHITE_BALANCE then [WhiteBalanceCode(g.whiteBalance.value)]
    else if tag == SATURATION then [if Mono(g) then SaturationCode(g.filmSimulation.value) else ColorCode(g.color.value)]
    else if tag == COLOR_TEMPERATURE then (if g.colorTemperature.Some? then [g.colorTemperature.value] else [])
    else if tag == WB_FINE_TUNE then [20 * g.wbShiftRed.value, 20 * g.wbShiftBlue.value]
    else if tag == NOISE_REDUCTION then [NoiseReductionCode(g.noiseReduction.value)]
    else if tag == CLARITY then [1000 * g.clarity.value]
    else if tag == SHADOW_TONE then [-Sixteenths(g.shadowTone.value)]
    else if tag == HIGHLIGHT_TONE then [-Sixteenths(g.highlightTone.value)]
    else if tag == GRAIN_EFFECT then [StrengthCode(g.grainEffect.value)]
    else if tag == COLOR_CHROME then [StrengthCode(g.colorChrome.value)]
    else if tag == COLOR_CHROME_FX_BLUE then [StrengthCode(g.colorChromeFXBlue.value)]
    else if tag == BW_ADJUSTMENT then [g.monochromaticWC.value]
    else if tag == BW_MAGENTA_GREEN then [g.monochromaticMG.value]
    else if tag == GRAIN_SIZE then [GrainSizeCode(g.grainSize.value)]
    else if tag == FILM_MODE then (if Mono(g) then [] else [FilmModeCode(g.filmSimulation.value)])
    else if tag == DYNAMIC_RANGE_SET then [if g.dynamicRange.value == "Auto" then 0x0000 else 0x0001]
    else if tag == DEV_DYNAMIC_RANGE then
      (if g.dynamicRange.value == "DR100" then [100] else if g.dynamicRange.value == "DR200" then [200]
       else if g.dynamicRange.value == "DR400" then [400] else [])
    else if tag == D_RANGE_PRIORITY then
      (if g.dRangePriority.value == "Off" then [] else if g.dRangePriority.value == "Auto" then [0] else [1])
    else if tag == D_RANGE_PRIORITY_FIXED then
      (if g.dRangePriority.value == "Weak" then [1] else if g.dRangePriority.value == "Strong" then [2] else [])
    else []
  }

  /** SLONG for the signed settings, SHORT for the others, as cameras do. */
  function TypeFor(tag: nat): nat {
    if tag in [WB_FINE_TUNE, CLARITY, SHADOW_TONE, HIGHLIGHT_TONE, GRAIN_EFFECT, COLOR_CHROME, BW_ADJUSTMENT, BW_MAGENTA_GREEN, COLOR_CHROME_FX_BLUE]
    then 9 else 3
  }

  function EntriesFor(g: Fields, tags: seq<nat>): seq<Entry>
    requires Complete(g) && Normalized(g) == g
  {
    if tags == [] then []
    else
      var tag := tags[|tags| - 1];
      EntriesFor(g, tags[..|tags| - 1]) + if Setting(g, tag) == [] then [] else [IntEntry(tag, TypeFor(tag), Setting(g, tag))]
  }

  /** The note carries the settings of the recipe, and nothing else. */
  ghost predicate Carries(n: Note, g: Fields, tags: seq<nat>)
    requires Complete(g) && Normalized(g) == g
  {
    forall tag ::
      && (tag in n.ints <==> tag in tags && Setting(g, tag) != [])
      && (tag in n.ints ==> n.ints[tag] == Setting(g, tag))
  }

  lemma MeaningAppend(entries: seq<Entry>, e: Entry)
    ensures Meaning(entries + [e]) == Put(Meaning(entries), e.tag, ValueOf(e))
  {
    assert (entries + [e])[..|entries|] == entries;
  }

  lemma {:induction false} EntriesCarry(g: Fields, tags: seq<nat>)
    requires Complete(g) && Normalized(g) == g
    ensures Carries(Meaning(EntriesFor(g, tags)), g, tags)
  {
    hide Setting, Complete, Normalized, TypeFor, Meaning;
    NoEntries([]);
    if tags != [] {
      var tag := tags[|tags| - 1];
      var before := EntriesFor(g, tags[..|tags| - 1]);
      EntriesCarry(g, tags[..|tags| - 1]);
      assert tags == tags[..|tags| - 1] + [tag];
      if Setting(g, tag) != [] {
        MeaningAppend(before, IntEntry(tag, TypeFor(tag), Setting(g, tag)));
      } else {
        assert before + [] == before;
      }
    }
  }

  lemma SettingsInRange(g: Fields, tag: nat)
    requires Canonical(g)
    ensures |Setting(g, tag)| <= 2 && forall j :: 0 <= j < |Setting(g, tag)| ==> InRange(TypeFor(tag), Setting(g, tag)[j])
  {
    hide FilmModeCode, SaturationCode, WhiteBalanceCode, ColorCode, SharpnessCode, NoiseReductionCode, StrengthCode, GrainSizeCode,
         Complete, Valid, Normalized, Mono, Sixteenths;
    NumbersInRange(g);
  }

  lemma NumbersInRange(g: Fields)
    requires Complete(g) && Valid(g) && Normalized(g) == g
    ensures -9 <= g.wbShiftRed.value <= 9 && -9 <= g.wbShiftBlue.value <= 9 && -5 <= g.clarity.value <= 5
    ensures -32 <= Sixteenths(g.highlightTone.value) <= 64 && -32 <= Sixteenths(g.shadowTone.value) <= 64
    ensures -18 <= g.monochromaticWC.value <= 18 && -18 <= g.monochromaticMG.value <= 18
    ensures g.colorTemperature.Some? ==> 2500 <= g.colorTemperature.value <= 10000
  {
    hide IsMonochrome, OneOf, GrainAgrees;
  }

  lemma {:induction false} EntriesPrintable(g: Fields, tags: seq<nat>)
    requires Canonical(g) && forall i :: 0 <= i < |tags| ==> tags[i] < 0x1_0000
    ensures |EntriesFor(g, tags)| <= |tags| && forall i :: 0 <= i < |EntriesFor(g, tags)| ==> Printable(EntriesFor(g, tags)[i])
  {
    hide Setting, Complete, Valid, Normalized, TypeFor, InRange;
    if tags != [] {
      EntriesPrintable(g, tags[..|tags| - 1]);
      SettingsInRange(g, tags[|tags| - 1]);
    }
  }

  lemma FirstCarried(n: Note, g: Fields, tag: nat)
    requires Complete(g) && Normalized(g) == g && Carries(n, g, TAGS) && tag in TAGS
    ensures First(n, tag) == if Setting(g, tag) == [] then None else Some(Setting(g, tag)[0])
  {
    hide Setting, Complete, Normalized;
  }

  // ---- Each setting decodes back ----

  /** What a canonical recipe has, list by list. */
  lemma Vocabulary(g: Fields)
    requires Canonical(g)
    ensures AllSet(g)
    ensures Mono(g) || IsColor(g.filmSimulation.value)
    ensures OneOf(g.dynamicRange, DYNAMIC_RANGES) && OneOf(g.dRangePriority, PRIORITIES) && OneOf(g.whiteBalance, WHITE_BALANCES)
    ensures OneOf(g.grainEffect, STRENGTHS) && OneOf(g.grainSize, GRAIN_SIZES)
    ensures OneOf(g.colorChrome, STRENGTHS) && OneOf(g.colorChromeFXBlue, STRENGTHS)
    ensures -4 <= g.color.value <= 4 && -4 <= g.sharpness.value <= 4 && -4 <= g.noiseReduction.value <= 4
    ensures OneOf(g.filmSimulation, FILM_SIMULATIONS) && (Mono(g) ==> g.color.value == 0)
    ensures g.colorTemperature.Some? <==> g.whiteBalance.value == "Kelvin"
  {
    hide OneOf, IsMonochrome, IsColor, ToneInBounds, GrainAgrees, Normalized, AllSet;
    OneOfMeans(g.filmSimulation);
    InFamilies(g.filmSimulation.value);
    NormalFacts(g);
  }

  lemma OneOfMeans(v: Option<string>)
    requires v.Some? && OneOf(v, FILM_SIMULATIONS)
    ensures v.value in FILM_SIMULATIONS
  {
  }

  lemma InFamilies(name: string)
    requires name in FILM_SIMULATIONS
    ensures IsMonochrome(name) || IsColor(name)
  {
  }

  lemma NormalFacts(g: Fields)
    requires Complete(g) && Normalized(g) == g
    ensures AllSet(g)
    ensures Mono(g) ==> g.color.value == 0
    ensures g.colorTemperature.Some? <==> g.whiteBalance.value == "Kelvin"
  {
    hide IsMonochrome;
  }

  lemma ColorSimDecodes(n: Note, name: string, color: int)
    requires IsColor(name) && -4 <= color <= 4
    requires First(n, SATURATION) == Some(ColorCode(color)) && First(n, FILM_MODE) == Some(FilmModeCode(name))
    ensures FilmSimulation(n) == name && ColorOf(n) == color
  {
    hide IsColor, FilmModeName, SaturationSim, FilmModeCode, ColorCode, SaturationValue, First;
    FilmModeBack(name);
    ScalesBack(color);
  }

  lemma MonochromeSimDecodes(n: Note, name: string)
    requires IsMonochrome(name) && First(n, SATURATION) == Some(SaturationCode(name))
    ensures FilmSimulation(n) == name && ColorOf(n) == 0
  {
    hide IsMonochrome, FilmModeName, SaturationSim, SaturationCode, SaturationValue, First;
    SaturationBack(name);
  }

  lemma SimulationSettings(g: Fields)
    requires Complete(g) && Normalized(g) == g
    ensures g.filmSimulation.Some? && g.color.Some?
    ensures Setting(g, SATURATION) == [if Mono(g) then SaturationCode(g.filmSimulation.value) else ColorCode(g.color.value)]
    ensures Setting(g, FILM_MODE) == if Mono(g) then [] else [FilmModeCode(g.filmSimulation.value)]
  {
    hide Complete, Normalized, SaturationCode, ColorCode, FilmModeCode, Mono;
    NormalFacts(g);
  }

  lemma SimulationBack(n: Note, g: Fields)
    requires Canonical(g) && Carries(n, g, TAGS)
    ensures FilmSimulation(n) == g.filmSimulation.value != "" && ColorOf(n) == g.color.value
  {
    hide Complete, Valid, Normalized, Carries, IsMonochrome, IsColor, FilmModeCode, SaturationCode, ColorCode, OneOf, Setting, First, AllSet,
         FilmSimulation, ColorOf;
    Vocabulary(g);
    SimulationSettings(g);
    FirstCarried(n, g, SATURATION);
    FirstCarried(n, g, FILM_MODE);
    if Mono(g) {
      MonochromeSimDecodes(n, g.filmSimulation.value);
    } else {
      ColorSimDecodes(n, g.filmSimulation.value, g.color.value);
    }
    OneOfMeans(g.filmSimulation);
    NamesNotEmpty(g.filmSimulation.value);
  }

  lemma NamesNotEmpty(name: string)
    requires name in FILM_SIMULATIONS
    ensures name != ""
  {
  }

  lemma DynamicRangeDecodes(n: Note, name: Option<string>)
    requires name.Some? && OneOf(name, DYNAMIC_RANGES)
    requires First(n, DYNAMIC_RANGE_SET) == Some(if name.value == "Auto" then 0x0000 else 0x0001)
    requires First(n, DEV_DYNAMIC_RANGE) ==
      if name.value == "DR100" then Some(100) else if name.value == "DR200" then Some(200)
      else if name.value == "DR400" then Some(400) else None
    ensures DynamicRange(n) == name.value
  {
    hide First, Decimal.Itoa;
    Hundreds();
  }

  lemma PriorityDecodes(n: Note, name: Option<string>)
    requires name.Some? && OneOf(name, PRIORITIES)
    requires First(n, D_RANGE_PRIORITY) ==
      if name.value == "Off" then None else if name.value == "Auto" then Some(0) else Some(1)
    requires First(n, D_RANGE_PRIORITY_FIXED) ==
      if name.value == "Weak" then Some(1) else if name.value == "Strong" then Some(2) else None
    ensures DRangePriority(n) == name.value
  {
    hide First;
  }

  lemma RangesCarried(n: Note, g: Fields)
    requires Complete(g) && Normalized(g) == g && Carries(n, g, TAGS)
    ensures g.dynamicRange.Some? && g.dRangePriority.Some?
    ensures First(n, DYNAMIC_RANGE_SET) == Some(if g.dynamicRange.value == "Auto" then 0x0000 else 0x0001)
    ensures First(n, DEV_DYNAMIC_RANGE) ==
      if g.dynamicRange.value == "DR100" then Some(100) else if g.dynamicRange.value == "DR200" then Some(200)
      else if g.dynamicRange.value == "DR400" then Some(400) else None
    ensures First(n, D_RANGE_PRIORITY) ==
      if g.dRangePriority.value == "Off" then None else if g.dRangePriority.value == "Auto" then Some(0) else Some(1)
    ensures First(n, D_RANGE_PRIORITY_FIXED) ==
      if g.dRangePriority.value == "Weak" then Some(1) else if g.dRangePriority.value == "Strong" then Some(2) else None
  {
    hide Complete, Normalized, Carries, First, Mono;
    NormalFacts(g);
    FirstCarried(n, g, DYNAMIC_RANGE_SET);
    FirstCarried(n, g, DEV_DYNAMIC_RANGE);
    FirstCarried(n, g, D_RANGE_PRIORITY);
    FirstCarried(n, g, D_RANGE_PRIORITY_FIXED);
  }

  lemma RangesBack(n: Note, g: Fields)
    requires Canonical(g) && Carries(n, g, TAGS)
    ensures DynamicRange(n) == g.dynamicRange.value && DRangePriority(n) == g.dRangePriority.value
  {
    hide Complete, Valid, Normalized, Carries, OneOf, First, DynamicRange, DRangePriority, AllSet;
    Vocabulary(g);
    RangesCarried(n, g);
    DynamicRangeDecodes(n, g.dynamicRange);
    PriorityDecodes(n, g.dRangePriority);
  }

  lemma Hundreds()
    ensures "DR" + Decimal.Itoa(100) == "DR100" && "DR" + Decimal.Itoa(200) == "DR200" && "DR" + Decimal.Itoa(400) == "DR400"
  {
    assert Decimal.Digits(10) == "10" && Decimal.Digits(20) == "20" && Decimal.Digits(40) == "40";
  }

  lemma ScalesDecode(n: Note, sharpness: int, noiseReduction: int, clarity: int, highlight: int, shadow: int)
    requires -4 <= sharpness <= 4 && -4 <= noiseReduction <= 4
    requires First(n, SHARPNESS) == Some(SharpnessCode(sharpness)) && First(n, NOISE_REDUCTION) == Some(NoiseReductionCode(noiseReduction))
    requires First(n, CLARITY) == Some(1000 * clarity)
    requires First(n, HIGHLIGHT_TONE) == Some(-highlight) && First(n, SHADOW_TONE) == Some(-shadow)
    ensures SharpnessOf(n) == sharpness && NoiseReductionOf(n) == noiseReduction && ClarityOf(n) == clarity
    ensures ToneOf(n, HIGHLIGHT_TONE) == Tone(highlight) && ToneOf(n, SHADOW_TONE) == Tone(shadow)
  {
    hide First, SharpnessCode, SharpnessValue, NoiseReductionCode, NoiseReductionValue;
    ScalesBack(sharpness);
    ScalesBack(noiseReduction);
  }

  lemma ScalesCarried(n: Note, g: Fields)
    requires Complete(g) && Normalized(g) == g && Carries(n, g, TAGS)
    ensures g.sharpness.Some? && g.noiseReduction.Some? && g.clarity.Some?
    ensures First(n, SHARPNESS) == Some(SharpnessCode(g.sharpness.value))
    ensures First(n, NOISE_REDUCTION) == Some(NoiseReductionCode(g.noiseReduction.value))
    ensures First(n, CLARITY) == Some(1000 * g.clarity.value)
  {
    hide Complete, Normalized, Carries, SharpnessCode, NoiseReductionCode, Mono, First;
    NormalFacts(g);
    FirstCarried(n, g, SHARPNESS);
    FirstCarried(n, g, NOISE_REDUCTION);
    FirstCarried(n, g, CLARITY);
  }

  lemma TonesCarried(n: Note, g: Fields)
    requires Complete(g) && Normalized(g) == g && Carries(n, g, TAGS)
    ensures g.highlightTone.Some? && g.shadowTone.Some?
    ensures First(n, HIGHLIGHT_TONE) == Some(-Sixteenths(g.highlightTone.value))
    ensures First(n, SHADOW_TONE) == Some(-Sixteenths(g.shadowTone.value))
  {
    hide Complete, Normalized, Carries, Mono, First, Sixteenths;
    NormalFacts(g);
    FirstCarried(n, g, HIGHLIGHT_TONE);
    FirstCarried(n, g, SHADOW_TONE);
  }

  lemma ScaleSettingsBack(n: Note, g: Fields)
    requires Canonical(g) && Carries(n, g, TAGS)
    ensures SharpnessOf(n) == g.sharpness.value && NoiseReductionOf(n) == g.noiseReduction.value && ClarityOf(n) == g.clarity.value
    ensures ToneOf(n, HIGHLIGHT_TONE) == Tone(Sixteenths(g.highlightTone.value)) && ToneOf(n, SHADOW_TONE) == Tone(Sixteenths(g.shadowTone.value))
  {
    hide Complete, Valid, Normalized, Carries, Mono, OneOf, SharpnessCode, NoiseReductionCode, First, AllSet, Sixteenths,
         SharpnessOf, NoiseReductionOf, ClarityOf, ToneOf;
    Vocabulary(g);
    ScalesCarried(n, g);
    TonesCarried(n, g);
    ScalesDecode(n, g.sharpness.value, g.noiseReduction.value, g.clarity.value,
                 Sixteenths(g.highlightTone.value), Sixteenths(g.shadowTone.value));
  }

  lemma EffectSettings(g: Fields)
    requires Complete(g) && Normalized(g) == g
    ensures g.grainEffect.Some? && g.grainSize.Some? && g.colorChrome.Some? && g.colorChromeFXBlue.Some?
    ensures Setting(g, GRAIN_EFFECT) == [StrengthCode(g.grainEffect.value)] && Setting(g, GRAIN_SIZE) == [GrainSizeCode(g.grainSize.value)]
    ensures Setting(g, COLOR_CHROME) == [StrengthCode(g.colorChrome.value)]
    ensures Setting(g, COLOR_CHROME_FX_BLUE) == [StrengthCode(g.colorChromeFXBlue.value)]
  {
    hide Complete, Normalized, StrengthCode, GrainSizeCode, Mono;
    NormalFacts(g);
  }

  lemma ColorSettings(g: Fields)
    requires Complete(g) && Normalized(g) == g
    ensures g.whiteBalance.Some? && g.wbShiftRed.Some? && g.wbShiftBlue.Some? && g.monochromaticWC.Some? && g.monochromaticMG.Some?
    ensures Setting(g, WHITE_BALANCE) == [WhiteBalanceCode(g.whiteBalance.value)]
    ensures Setting(g, COLOR_TEMPERATURE) == if g.colorTemperature.Some? then [g.colorTemperature.value] else []
    ensures Setting(g, BW_ADJUSTMENT) == [g.monochromaticWC.value] && Setting(g, BW_MAGENTA_GREEN) == [g.monochromaticMG.value]
  {
    hide Complete, Normalized, WhiteBalanceCode, Mono;
    NormalFacts(g);
  }

  lemma StrengthDecodes(n: Note, tag: nat, name: Option<string>)
    requires name.Some? && OneOf(name, STRENGTHS) && First(n, tag) == Some(StrengthCode(name.value))
    ensures StrengthOf(n, tag) == name.value
  {
    hide OneOf, StrengthCode, StrengthName, First;
    StrengthBack(name);
  }

  lemma GrainSizeDecodes(n: Note, name: Option<string>)
    requires name.Some? && OneOf(name, GRAIN_SIZES) && First(n, GRAIN_SIZE) == Some(GrainSizeCode(name.value))
    ensures GrainSizeOf(n) == name.value
  {
    hide OneOf, GrainSizeCode, GrainSizeName, First;
    GrainSizeBack(name);
  }

  lemma EffectsBack(n: Note, g: Fields)
    requires Canonical(g) && Carries(n, g, TAGS)
    ensures StrengthOf(n, GRAIN_EFFECT) == g.grainEffect.value && GrainSizeOf(n) == g.grainSize.value
    ensures StrengthOf(n, COLOR_CHROME) == g.colorChrome.value && StrengthOf(n, COLOR_CHROME_FX_BLUE) == g.colorChromeFXBlue.value
  {
    hide Complete, Valid, Normalized, Carries, Mono, OneOf, StrengthCode, GrainSizeCode, Setting, First, AllSet, StrengthOf, GrainSizeOf;
    Vocabulary(g);
    EffectSettings(g);
    FirstCarried(n, g, GRAIN_EFFECT);
    FirstCarried(n, g, GRAIN_SIZE);
    FirstCarried(n, g, COLOR_CHROME);
    FirstCarried(n, g, COLOR_CHROME_FX_BLUE);
    StrengthDecodes(n, GRAIN_EFFECT, g.grainEffect);
    GrainSizeDecodes(n, g.grainSize);
    StrengthDecodes(n, COLOR_CHROME, g.colorChrome);
    StrengthDecodes(n, COLOR_CHROME_FX_BLUE, g.colorChromeFXBlue);
  }

  lemma WhiteBalanceDecodes(n: Note, name: Option<string>, temperature: Option<int>)
    requires name.Some? && OneOf(name, WHITE_BALANCES) && First(n, WHITE_BALANCE) == Some(WhiteBalanceCode(name.value))
    requires First(n, COLOR_TEMPERATURE) == temperature && (temperature.Some? <==> name.value == "Kelvin")
    ensures WhiteBalanceOf(n) == name.value && TemperatureOf(n) == temperature
  {
    hide OneOf, WhiteBalanceCode, WhiteBalanceName, First;
    WhiteBalanceBack(name);
  }

  lemma NumbersDecode(n: Note, red: int, blue: int, wc: int, mg: int)
    requires Pair(n, WB_FINE_TUNE) == Some((20 * red, 20 * blue))
    requires First(n, BW_ADJUSTMENT) == Some(wc) && First(n, BW_MAGENTA_GREEN) == Some(mg)
    ensures WbShiftOf(n) == (red, blue) && NumberOf(n, BW_ADJUSTMENT) == wc && NumberOf(n, BW_MAGENTA_GREEN) == mg
  {
    hide First, Pair;
  }

  lemma ColorsBack(n: Note, g: Fields)
    requires Canonical(g) && Carries(n, g, TAGS)
    ensures WhiteBalanceOf(n) == g.whiteBalance.value && TemperatureOf(n) == g.colorTemperature
    ensures WbShiftOf(n) == (g.wbShiftRed.value, g.wbShiftBlue.value)
    ensures NumberOf(n, BW_ADJUSTMENT) == g.monochromaticWC.value && NumberOf(n, BW_MAGENTA_GREEN) == g.monochromaticMG.value
  {
    hide Complete, Valid, Normalized, Carries, Mono, OneOf, WhiteBalanceCode, Setting, First, Pair, AllSet,
         WhiteBalanceOf, TemperatureOf, WbShiftOf, NumberOf;
    Vocabulary(g);
    ColorSettings(g);
    ShiftCarried(n, g);
    FirstCarried(n, g, WHITE_BALANCE);
    FirstCarried(n, g, COLOR_TEMPERATURE);
    FirstCarried(n, g, BW_ADJUSTMENT);
    FirstCarried(n, g, BW_MAGENTA_GREEN);
    WhiteBalanceDecodes(n, g.whiteBalance, g.colorTemperature);
    NumbersDecode(n, g.wbShiftRed.value, g.wbShiftBlue.value, g.monochromaticWC.value, g.monochromaticMG.value);
  }

  lemma ShiftCarried(n: Note, g: Fields)
    requires Complete(g) && Normalized(g) == g && Carries(n, g, TAGS)
    ensures Pair(n, WB_FINE_TUNE) == Some((20 * g.wbShiftRed.value, 20 * g.wbShiftBlue.value))
  {
    hide Complete, Normalized;
    assert WB_FINE_TUNE in TAGS && Setting(g, WB_FINE_TUNE) != [];
    assert n.ints[WB_FINE_TUNE] == Setting(g, WB_FINE_TUNE);
  }

  lemma CarriedBack(n: Note, g: Fields)
    requires Canonical(g) && Carries(n, g, TAGS)
    ensures RecipeFields(n) == Some(Plain(g))
  {
    hide Carries, FilmSimulation, DynamicRange, DRangePriority, ToneOf, ColorOf, SharpnessOf, NoiseReductionOf, ClarityOf,
         StrengthOf, GrainSizeOf, WhiteBalanceOf, TemperatureOf, WbShiftOf, NumberOf, Valid, IsMonochrome;
    SimulationBack(n, g);
    RangesBack(n, g);
    ScaleSettingsBack(n, g);
    EffectsBack(n, g);
    ColorsBack(n, g);
  }

  lemma NormalizedCanonical(f: Fields)
    requires Complete(f) && Valid(f)
    ensures Canonical(Normalized(f))
  {
    hide Complete, Valid, Normalized;
    NormalizedIdempotent(f);
    NormalizedValid(f);
  }

  lemma TagsSmall()
    ensures forall i :: 0 <= i < |TAGS| ==> TAGS[i] < 0x1_0000
  {
  }

  /** The maker note of a recipe. */
  function NoteFor(f: Fields): seq<Byte>
    requires Complete(f) && Valid(f)
  {
    NormalizedCanonical(f);
    Build(EntriesFor(Normalized(f), TAGS))
  }

  /** For every complete recipe that validation accepts there are bytes, its maker
      note, from which the parser and the decoder recover exactly its normalized
      fields, with -0 read back as 0. */
  lemma RecipeHasMakerNote(f: Fields, parsed: Result<Note, Failure>)
    requires Complete(f) && Valid(f) && Parses(NoteFor(f), parsed)
    ensures parsed.Ok? && RecipeFields(parsed.value) == Some(Plain(Normalized(f)))
    ensures Normalized(Plain(Normalized(f))) == Plain(Normalized(f))
  {
    hide Complete, Valid, Parses, Build, Meaning, EntriesFor, RecipeFields, Carries;
    NormalizedCanonical(f);
    var g := Normalized(f);
    TagsSmall();
    EntriesPrintable(g, TAGS);
    EntriesCarry(g, TAGS);
    RoundTripAlone(EntriesFor(g, TAGS), parsed);
    CarriedBack(parsed.value, g);
    PlainStaysNormal(g);
  }

  lemma PlainStaysNormal(g: Fields)
    requires Normalized(g) == g
    ensures Normalized(Plain(g)) == Plain(g)
  {
    hide IsMonochrome;
  }
}
