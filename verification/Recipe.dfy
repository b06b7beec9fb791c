/** Recipe fields: defaults, completeness, validation and normalization
    (catalog/recipe.go). A tone is a multiple of 1/16, which is what maker notes
    carry; floating point adds a negative zero. */
module Recipe {
  import opened Wrappers

  datatype Tone = Tone(sixteenths: int) | NegZero

  /** Every field may be absent. */
  datatype Fields = Fields(
    filmSimulation: Option<string>, dynamicRange: Option<string>, dRangePriority: Option<string>,
    highlightTone: Option<Tone>, shadowTone: Option<Tone>,
    color: Option<int>, sharpness: Option<int>, noiseReduction: Option<int>, clarity: Option<int>,
    grainEffect: Option<string>, grainSize: Option<string>, colorChrome: Option<string>, colorChromeFXBlue: Option<string>,
    whiteBalance: Option<string>, colorTemperature: Option<int>, wbShiftRed: Option<int>, wbShiftBlue: Option<int>,
    monochromaticWC: Option<int>, monochromaticMG: Option<int>)

  // ---- Vocabulary ----

  const MONOCHROME := [
    "Acros", "Acros + Ye Filter", "Acros + R Filter", "Acros + G Filter",
    "Monochrome", "Monochrome + Ye Filter", "Monochrome + R Filter", "Monochrome + G Filter",
    "Sepia"]

  const COLOR_SIMULATIONS := [
    "Provia/Standard", "Velvia/Vivid", "Astia/Soft", "Classic Chrome", "Reala ACE", "Pro Neg. Hi", "Pro Neg. Std",
    "Classic Negative", "Nostalgic Neg", "Eterna/Cinema", "Bleach Bypass/Eterna Bleach Bypass", "Fujichrome/Velvia",
    "Studio Portrait", "Studio Portrait Enhanced Saturation", "Studio Portrait Increased Sharpness", "Studio Portrait Ex"]

  /** Color simulations first, then the monochrome family. */
  const FILM_SIMULATIONS := COLOR_SIMULATIONS + MONOCHROME

  const DYNAMIC_RANGES := ["Auto", "DR100", "DR200", "DR400"]
  const PRIORITIES := ["Off", "Auto", "Weak", "Strong"]
  const STRENGTHS := ["Off", "Weak", "Strong"]
  const GRAIN_SIZES := ["Off", "Small", "Large"]

  const LIGHTS := [
    "Auto", "Auto (white priority)", "Auto (ambiance priority)", "Daylight", "Cloudy",
    "Daylight Fluorescent", "Day White Fluorescent", "White Fluorescent", "Warm White Fluorescent",
    "Living Room Warm White Fluorescent", "Incandescent", "Flash", "Underwater"]

  const WHITE_BALANCES := LIGHTS + ["Kelvin", "Custom", "Custom2", "Custom3", "Custom4", "Custom5"]

  predicate IsMonochrome(sim: string) {
    sim in MONOCHROME
  }

  const DEFAULTS := Fields(
    Some("Provia/Standard"), Some("Auto"), Some("Off"), Some(Tone(0)), Some(Tone(0)),
    Some(0), Some(0), Some(0), Some(0), Some("Off"), Some("Off"), Some("Off"), Some("Off"),
    Some("Auto"), None, Some(0), Some(0), Some(0), Some(0))

  function Or<T>(a: Option<T>, b: T): Option<T> {
    if a.Some? then a else Some(b)
  }

  predicate Is(a: Option<string>, s: string) {
    a.Some? && a.value == s
  }

  predicate Mono(f: Fields) {
    f.filmSimulation.Some? && IsMonochrome(f.filmSimulation.value)
  }

  // ---- Neutral defaults, completeness ----

  /** The fields with the absences that mean "neutral" filled in. */
  function WithDefaults(f: Fields): Fields {
    Fields(f.filmSimulation, f.dynamicRange, Or(f.dRangePriority, "Off"), f.highlightTone, f.shadowTone,
           if Mono(f) then Or(f.color, 0) else f.color, f.sharpness, f.noiseReduction, f.clarity,
           f.grainEffect, if Is(f.grainEffect, "Off") then Or(f.grainSize, "Off") else f.grainSize,
           f.colorChrome, f.colorChromeFXBlue, f.whiteBalance, f.colorTemperature, f.wbShiftRed, f.wbShiftBlue,
           Or(f.monochromaticWC, 0), Or(f.monochromaticMG, 0))
  }

  /** The pairs of canonical name and presence a fingerprint asks for. */
  function Required(g: Fields): seq<(string, bool)> {
    [("filmSimulation", g.filmSimulation.Some?), ("dynamicRange", g.dynamicRange.Some?),
     ("highlightTone", g.highlightTone.Some?), ("shadowTone", g.shadowTone.Some?),
     ("color", g.color.Some?), ("sharpness", g.sharpness.Some?), ("noiseReduction", g.noiseReduction.Some?),
     ("clarity", g.clarity.Some?), ("grainEffect", g.grainEffect.Some?), ("grainSize", g.grainSize.Some?),
     ("colorChrome", g.colorChrome.Some?), ("colorChromeFXBlue", g.colorChromeFXBlue.Some?),
     ("whiteBalance", g.whiteBalance.Some?), ("wbShiftRed", g.wbShiftRed.Some?), ("wbShiftBlue", g.wbShiftBlue.Some?)]
    + if Is(g.whiteBalance, "Kelvin") then [("colorTemperature", g.colorTemperature.Some?)] else []
  }

  function Absent(required: seq<(string, bool)>): seq<string> {
    if required == [] then []
    else Absent(required[..|required| - 1]) + if required[|required| - 1].1 then [] else [required[|required| - 1].0]
  }

  /** Nothing a fingerprint needs is missing. */
  predicate Complete(f: Fields) {
    && f.filmSimulation.Some? && f.dynamicRange.Some? && f.highlightTone.Some? && f.shadowTone.Some?
    && (f.color.Some? || Mono(f)) && f.sharpness.Some? && f.noiseReduction.Some? && f.clarity.Some?
    && f.grainEffect.Some? && (f.grainSize.Some? || f.grainEffect.value == "Off")
    && f.colorChrome.Some? && f.colorChromeFXBlue.Some?
    && f.whiteBalance.Some? && (f.whiteBalance.value == "Kelvin" ==> f.colorTemperature.Some?)
    && f.wbShiftRed.Some? && f.wbShiftBlue.Some?
  }

  method ApplyNeutralDefaults(f: Fields) returns (g: Fields)
    ensures g == WithDefaults(f)
  {
    hide IsMonochrome;
    g := f;
    if g.dRangePriority.None? {
      g := g.(dRangePriority := Some("Off"));
    }
    if g.monochromaticWC.None? {
      g := g.(monochromaticWC := Some(0));
    }
    if g.monochromaticMG.None? {
      g := g.(monochromaticMG := Some(0));
    }
    if g.grainSize.None? && g.grainEffect.Some? && g.grainEffect.value == "Off" {
      g := g.(grainSize := Some("Off"));
    }
    if g.filmSimulation.Some? && IsMonochrome(g.filmSimulation.value) && g.color.None? {
      g := g.(color := Some(0));
    }
  }

  lemma {:induction false} AbsentNames(required: seq<(string, bool)>)
    ensures Absent(required) == [] <==> forall i :: 0 <= i < |required| ==> required[i].1
    ensures forall name :: name in Absent(required) <==> exists i :: 0 <= i < |required| && required[i] == (name, false)
  {
    if required != [] {
      var n := |required| - 1;
      AbsentNames(required[..n]);
      forall name
        ensures name in Absent(required) <==> exists i :: 0 <= i < |required| && required[i] == (name, false)
      {
        if name in Absent(required[..n]) {
          var i :| 0 <= i < n && required[..n][i] == (name, false);
          assert required[i] == (name, false);
        }
        if i :| 0 <= i < |required| && required[i] == (name, false) {
          if i < n {
            assert required[..n][i] == (name, false);
          }
        }
      }
    }
  }

  lemma RequiredComplete(f: Fields)
    ensures (forall i :: 0 <= i < |Required(WithDefaults(f))| ==> Required(WithDefaults(f))[i].1) <==> Complete(f)
  {
    hide IsMonochrome;
    var r := Required(WithDefaults(f));
    if forall i :: 0 <= i < |r| ==> r[i].1 {
      assert r[0].1 && r[1].1 && r[2].1 && r[3].1 && r[4].1 && r[5].1 && r[6].1 && r[7].1;
      assert r[8].1 && r[9].1 && r[10].1 && r[11].1 && r[12].1 && r[13].1 && r[14].1;
      if Is(f.whiteBalance, "Kelvin") {
        assert r[15].1;
      }
    }
  }

  /** The missing fields, in the order the import report shows them; there are
      none exactly when the fields are complete. */
  method MissingFields(f: Fields) returns (missing: seq<string>)
    ensures missing == [] <==> Complete(f)
    ensures missing == Absent(Required(WithDefaults(f)))
  {
    hide WithDefaults, Required;
    var g := ApplyNeutralDefaults(f);
    var required := Required(g);
    RequiredComplete(f);
    missing := [];
    var i := 0;
    while i < |required|
      invariant 0 <= i <= |required|
      invariant missing == Absent(required[..i])
    {
      assert required[..i + 1][..i] == required[..i];
      if !required[i].1 {
        missing := missing + [required[i].0];
      }
      i := i + 1;
    }
    assert required[..i] == required;
    AbsentNames(required);
  }

  // ---- Validation ----

  predicate ToneInBounds(v: Option<Tone>) {
    match v
    case Some(Tone(s)) => -32 <= s <= 64 && s % 8 == 0
    case _ => true
  }

  predicate Within(v: Option<int>, low: int, high: int) {
    v.Some? ==> low <= v.value <= high
  }

  predicate OneOf(v: Option<string>, list: seq<string>) {
    v.Some? ==> v.value in list
  }

  /** An active grain effect carries a size. */
  predicate GrainAgrees(f: Fields) {
    !(f.grainEffect.Some? && f.grainEffect.value != "Off" && Is(f.grainSize, "Off"))
  }

  predicate Valid(f: Fields) {
    && OneOf(f.filmSimulation, FILM_SIMULATIONS) && OneOf(f.dynamicRange, DYNAMIC_RANGES) && OneOf(f.dRangePriority, PRIORITIES)
    && ToneInBounds(f.highlightTone) && ToneInBounds(f.shadowTone)
    && Within(f.color, -4, 4) && Within(f.sharpness, -4, 4) && Within(f.noiseReduction, -4, 4) && Within(f.clarity, -5, 5)
    && Within(f.wbShiftRed, -9, 9) && Within(f.wbShiftBlue, -9, 9)
    && Within(f.monochromaticWC, -18, 18) && Within(f.monochromaticMG, -18, 18) && Within(f.colorTemperature, 2500, 10000)
    && OneOf(f.grainEffect, STRENGTHS) && OneOf(f.grainSize, GRAIN_SIZES) && GrainAgrees(f)
    && OneOf(f.colorChrome, STRENGTHS) && OneOf(f.colorChromeFXBlue, STRENGTHS) && OneOf(f.whiteBalance, WHITE_BALANCES)
  }

  /** One more complaint, unless the check passed. */
  function Noted(errs: seq<string>, name: string, ok: bool): (r: seq<string>)
    ensures r == [] <==> errs == [] && ok
  {
    if ok then errs else errs + [name]
  }

  /** The names of the fields complained about, one per failed check. */
  method Validate(f: Fields) returns (errs: seq<string>)
    ensures errs == [] <==> Valid(f)
  {
    hide ToneInBounds, Within, OneOf, GrainAgrees, Noted;
    errs := [];
    errs := Noted(errs, "filmSimulation", OneOf(f.filmSimulation, FILM_SIMULATIONS));
    errs := Noted(errs, "dynamicRange", OneOf(f.dynamicRange, DYNAMIC_RANGES));
    errs := Noted(errs, "dRangePriority", OneOf(f.dRangePriority, PRIORITIES));
    errs := Noted(errs, "highlightTone", ToneInBounds(f.highlightTone));
    errs := Noted(errs, "shadowTone", ToneInBounds(f.shadowTone));
    errs := Noted(errs, "color", Within(f.color, -4, 4));
    errs := Noted(errs, "sharpness", Within(f.sharpness, -4, 4));
    errs := Noted(errs, "noiseReduction", Within(f.noiseReduction, -4, 4));
    errs := Noted(errs, "clarity", Within(f.clarity, -5, 5));
    errs := Noted(errs, "wbShiftRed", Within(f.wbShiftRed, -9, 9));
    errs := Noted(errs, "wbShiftBlue", Within(f.wbShiftBlue, -9, 9));
    errs := Noted(errs, "monochromaticWC", Within(f.monochromaticWC, -18, 18));
    errs := Noted(errs, "monochromaticMG", Within(f.monochromaticMG, -18, 18));
    errs := Noted(errs, "colorTemperature", Within(f.colorTemperature, 2500, 10000));
    errs := Noted(errs, "grainEffect", OneOf(f.grainEffect, STRENGTHS));
    errs := Noted(errs, "grainSize", OneOf(f.grainSize, GRAIN_SIZES));
    errs := Noted(errs, "grainSize", GrainAgrees(f));
    errs := Noted(errs, "colorChrome", OneOf(f.colorChrome, STRENGTHS));
    errs := Noted(errs, "colorChromeFXBlue", OneOf(f.colorChromeFXBlue, STRENGTHS));
    errs := Noted(errs, "whiteBalance", OneOf(f.whiteBalance, WHITE_BALANCES));
  }

  // ---- Normalization ----

  /** The equivalences of a fingerprint: a monochrome simulation has no color
      scale and a color one no monochromatic color, grain Off has size Off, and
      only Kelvin has a temperature. */
  function Normalized(f: Fields): Fields {
    var g := WithDefaults(f);
    Fields(g.filmSimulation, g.dynamicRange, g.dRangePriority, g.highlightTone, g.shadowTone,
           if Mono(f) then Some(0) else g.color, g.sharpness, g.noiseReduction, g.clarity,
           g.grainEffect, if Is(g.grainEffect, "Off") then Some("Off") else g.grainSize,
           g.colorChrome, g.colorChromeFXBlue, g.whiteBalance,
           if Is(g.whiteBalance, "Kelvin") then g.colorTemperature else None, g.wbShiftRed, g.wbShiftBlue,
           if g.filmSimulation.Some? && !Mono(f) then Some(0) else g.monochromaticWC,
           if g.filmSimulation.Some? && !Mono(f) then Some(0) else g.monochromaticMG)
  }

  method Normalize(f: Fields) returns (g: Fields)
    ensures g == Normalized(f)
  {
    hide IsMonochrome;
    g := ApplyNeutralDefaults(f);
    if g.filmSimulation.Some? {
      if IsMonochrome(g.filmSimulation.value) {
        g := g.(color := Some(0));
      } else {
        g := g.(monochromaticWC := Some(0));
        g := g.(monochromaticMG := Some(0));
      }
    }
    if g.grainEffect.Some? && g.grainEffect.value == "Off" {
      g := g.(grainSize := Some("Off"));
    }
    if g.whiteBalance.None? || g.whiteBalance.value != "Kelvin" {
      g := g.(colorTemperature := None);
    }
  }

  /** Normalizing again changes nothing, and normalizing neither completes an
      incomplete recipe nor spoils a complete or a valid one. */
  lemma NormalizedIdempotent(f: Fields)
    ensures Normalized(Normalized(f)) == Normalized(f)
    ensures Complete(Normalized(f)) <==> Complete(f)
  {
    hide IsMonochrome;
  }

  lemma NormalizedValid(f: Fields)
    requires Valid(f)
    ensures Valid(Normalized(f))
  {
    hide IsMonochrome;
    assert "Off" == PRIORITIES[0] && "Off" == GRAIN_SIZES[0];
  }

  /** Every setting a fingerprint prints is there. */
  predicate AllSet(g: Fields) {
    && g.filmSimulation.Some? && g.dynamicRange.Some? && g.dRangePriority.Some? && g.highlightTone.Some? && g.shadowTone.Some?
    && g.color.Some? && g.sharpness.Some? && g.noiseReduction.Some? && g.clarity.Some?
    && g.grainEffect.Some? && g.grainSize.Some? && g.colorChrome.Some? && g.colorChromeFXBlue.Some?
    && g.whiteBalance.Some? && g.wbShiftRed.Some? && g.wbShiftBlue.Some? && g.monochromaticWC.Some? && g.monochromaticMG.Some?
  }

  function Sixteenths(t: Tone): int {
    if t.NegZero? then 0 else t.sixteenths
  }

  /** -0 and 0 are the same tone. */
  function Plain(f: Fields): Fields {
    f.(highlightTone := if f.highlightTone == Some(NegZero) then Some(Tone(0)) else f.highlightTone,
       shadowTone := if f.shadowTone == Some(NegZero) then Some(Tone(0)) else f.shadowTone)
  }

  lemma NormalizedAllSet(f: Fields)
    requires Complete(f)
    ensures AllSet(Normalized(f))
    ensures Normalized(f).colorTemperature.Some? <==> Normalized(f).whiteBalance.value == "Kelvin"
  {
    hide IsMonochrome;
  }
}
