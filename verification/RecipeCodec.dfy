/** Decoding recipe fields from a maker note (catalog/fuji.go and `recipeFields`
    of catalog/recipe.go), and the maker note of a recipe. */
module RecipeCodec {
  import opened Wrappers
  import opened MakerNote
  import opened Recipe
  import Decimal

  const SHARPNESS := 0x1001
  const WHITE_BALANCE := 0x1002
  const SATURATION := 0x1003
  const COLOR_TEMPERATURE := 0x1005
  const WB_FINE_TUNE := 0x100A
  const NOISE_REDUCTION := 0x100E
  const CLARITY := 0x100F
  const SHADOW_TONE := 0x1040
  const HIGHLIGHT_TONE := 0x1041
  const GRAIN_EFFECT := 0x1047
  const COLOR_CHROME := 0x1048
  const BW_ADJUSTMENT := 0x1049
  const BW_MAGENTA_GREEN := 0x104B
  const GRAIN_SIZE := 0x104C
  const COLOR_CHROME_FX_BLUE := 0x104E
  const FILM_MODE := 0x1401
  const DYNAMIC_RANGE_SET := 0x1402
  const DEV_DYNAMIC_RANGE := 0x1403
  const D_RANGE_PRIORITY := 0x1443
  const D_RANGE_PRIORITY_FIXED := 0x1445

  function First(n: Note, tag: nat): Option<int> {
    if tag in n.ints && n.ints[tag] != [] then Some(n.ints[tag][0]) else None
  }

  function Pair(n: Note, tag: nat): Option<(int, int)> {
    if tag in n.ints && |n.ints[tag]| >= 2 then Some((n.ints[tag][0], n.ints[tag][1])) else None
  }

  // ---- The tables ----

  function FilmModeName(v: int): Option<string> {
    match v
    case 0x000 => Some("Provia/Standard")
    case 0x100 => Some("Studio Portrait")
    case 0x110 => Some("Studio Portrait Enhanced Saturation")
    case 0x120 => Some("Astia/Soft")
    case 0x130 => Some("Studio Portrait Increased Sharpness")
    case 0x200 => Some("Fujichrome/Velvia")
    case 0x300 => Some("Studio Portrait Ex")
    case 0x400 => Some("Velvia/Vivid")
    case 0x500 => Some("Pro Neg. Std")
    case 0x501 => Some("Pro Neg. Hi")
    case 0x600 => Some("Classic Chrome")
    case 0x700 => Some("Eterna/Cinema")
    case 0x800 => Some("Classic Negative")
    case 0x900 => Some("Bleach Bypass/Eterna Bleach Bypass")
    case 0xA00 => Some("Nostalgic Neg")
    case 0xB00 => Some("Reala ACE")
    case _ => None
  }

  function SaturationSim(v: int): Option<string> {
    match v
    case 0x300 => Some("Monochrome")
    case 0x301 => Some("Monochrome + R Filter")
    case 0x302 => Some("Monochrome + Ye Filter")
    case 0x303 => Some("Monochrome + G Filter")
    case 0x310 => Some("Sepia")
    case 0x500 => Some("Acros")
    case 0x501 => Some("Acros + R Filter")
    case 0x502 => Some("Acros + Ye Filter")
    case 0x503 => Some("Acros + G Filter")
    case _ => None
  }

  function SharpnessValue(v: int): Option<int> {
    match v
    case 0x00 => Some(-4)
    case 0x01 => Some(-3)
    case 0x02 => Some(-2)
    case 0x82 => Some(-1)
    case 0x03 => Some(0)
    case 0x84 => Some(1)
    case 0x04 => Some(2)
    case 0x05 => Some(3)
    case 0x06 => Some(4)
    case _ => None
  }

  function SaturationValue(v: int): Option<int> {
    match v
    case 0x000 => Some(0)
    case 0x080 => Some(1)
    case 0x100 => Some(2)
    case 0x0C0 => Some(3)
    case 0x0E0 => Some(4)
    case 0x180 => Some(-1)
    case 0x400 => Some(-2)
    case 0x4C0 => Some(-3)
    case 0x4E0 => Some(-4)
    case _ => None
  }

  function NoiseReductionValue(v: int): Option<int> {
    match v
    case 0x000 => Some(0)
    case 0x180 => Some(1)
    case 0x100 => Some(2)
    case 0x1C0 => Some(3)
    case 0x1E0 => Some(4)
    case 0x280 => Some(-1)
    case 0x200 => Some(-2)
    case 0x2C0 => Some(-3)
    case 0x2E0 => Some(-4)
    case _ => None
  }

  function WhiteBalanceName(v: int): Option<string> {
    match v
    case 0x000 => Some("Auto")
    case 0x001 => Some("Auto (white priority)")
    case 0x002 => Some("Auto (ambiance priority)")
    case 0x100 => Some("Daylight")
    case 0x200 => Some("Cloudy")
    case 0x300 => Some("Daylight Fluorescent")
    case 0x301 => Some("Day White Fluorescent")
    case 0x302 => Some("White Fluorescent")
    case 0x303 => Some("Warm White Fluorescent")
    case 0x304 => Some("Living Room Warm White Fluorescent")
    case 0x400 => Some("Incandescent")
    case 0x500 => Some("Flash")
    case 0x600 => Some("Underwater")
    case 0xF00 => Some("Custom")
    case 0xF01 => Some("Custom2")
    case 0xF02 => Some("Custom3")
    case 0xF03 => Some("Custom4")
    case 0xF04 => Some("Custom5")
    case 0xFF0 => Some("Kelvin")
    case _ => None
  }

  function StrengthName(v: int): Option<string> {
    match v
    case 0 => Some("Off")
    case 32 => Some("Weak")
    case 64 => Some("Strong")
    case _ => None
  }

  function GrainSizeName(v: int): Option<string> {
    match v
    case 0 => Some("Off")
    case 16 => Some("Small")
    case 32 => Some("Large")
    case _ => None
  }

  // ---- Decoding one setting ----

  /** A key of an unsigned table: conversions wrap around. */
  function Unsigned(v: int): int {
    v % WORD
  }

  function HexDigits(n: nat): string {
    var d := "0123456789abcdef"[n % 16];
    if n < 16 then [d] else HexDigits(n / 16) + [d]
  }

  function Hex(v: int): string {
    if v < 0 then "-" + HexDigits(-v) else HexDigits(v)
  }

  function Unknown(name: string, v: int): string {
    name + "(0x" + Hex(v) + ")"
  }

  /** "" when the note tells no film simulation. */
  function FilmSimulation(n: Note): string {
    var sat := First(n, SATURATION);
    var mode := First(n, FILM_MODE);
    if sat.Some? && SaturationSim(Unsigned(sat.value)).Some? then SaturationSim(Unsigned(sat.value)).value
    else if mode.None? then ""
    else if FilmModeName(Unsigned(mode.value)).Some? then FilmModeName(Unsigned(mode.value)).value
    else Unknown("FilmMode", mode.value)
  }

  function ToneValue(raw: int): Tone {
    Tone(-raw)
  }

  /** Division that truncates toward zero. */
  function Quotient(a: int, b: nat): int
    requires b > 0
  {
    if a >= 0 then a / b else -(-a / b)
  }

  function WbShiftValue(raw: int): int {
    if raw >= 0 then Quotient(raw + 10, 20) else -Quotient(-raw + 10, 20)
  }

  function DRangePriority(n: Note): string {
    match First(n, D_RANGE_PRIORITY)
    case None => "Off"
    case Some(mode) =>
      if mode == 0 then "Auto"
      else if mode == 1 then
        match First(n, D_RANGE_PRIORITY_FIXED)
        case Some(1) => "Weak"
        case Some(2) => "Strong"
        case _ => "Fixed"
      else Unknown("DRangePriority", mode)
  }

  function DynamicRange(n: Note): string {
    match First(n, DYNAMIC_RANGE_SET)
    case None => "Auto"
    case Some(set_) =>
      if set_ in [0x0001, 0x0100, 0x0200, 0x0201] then
        var dev := First(n, DEV_DYNAMIC_RANGE);
        if dev.Some? && dev.value > 0 then "DR" + Decimal.Itoa(dev.value)
        else if set_ == 0x0100 then "DR100"
        else if set_ == 0x0201 then "DR400"
        else "Auto"
      else "Auto"
  }

  function ToneOf(n: Note, tag: nat): Tone {
    match First(n, tag)
    case Some(raw) => ToneValue(raw)
    case None => Tone(0)
  }

  function ColorOf(n: Note): int {
    match First(n, SATURATION)
    case Some(v) => if SaturationSim(Unsigned(v)).None? && SaturationValue(v).Some? then SaturationValue(v).value else 0
    case None => 0
  }

  function SharpnessOf(n: Note): int {
    match First(n, SHARPNESS)
    case Some(v) => if SharpnessValue(v).Some? then SharpnessValue(v).value else 0
    case None => 0
  }

  function NoiseReductionOf(n: Note): int {
    match First(n, NOISE_REDUCTION)
    case Some(v) => if NoiseReductionValue(v).Some? then NoiseReductionValue(v).value else 0
    case None => 0
  }

  function ClarityOf(n: Note): int {
    match First(n, CLARITY)
    case Some(v) => Quotient(v, 1000)
    case None => 0
  }

  function StrengthOf(n: Note, tag: nat): string {
    match First(n, tag)
    case Some(v) => if StrengthName(Unsigned(v)).Some? then StrengthName(Unsigned(v)).value else "Off"
    case None => "Off"
  }

  function GrainSizeOf(n: Note): string {
    match First(n, GRAIN_SIZE)
    case Some(v) => if GrainSizeName(Unsigned(v)).Some? then GrainSizeName(Unsigned(v)).value else "Off"
    case None => "Off"
  }

  function WhiteBalanceOf(n: Note): string {
    match First(n, WHITE_BALANCE)
    case Some(v) =>
      if WhiteBalanceName(Unsigned(v)).Some? then WhiteBalanceName(Unsigned(v)).value else Unknown("WhiteBalance", v)
    case None => "Auto"
  }

  function TemperatureOf(n: Note): Option<int> {
    if First(n, WHITE_BALANCE).Some? && WhiteBalanceOf(n) == "Kelvin" then
      Or(First(n, COLOR_TEMPERATURE), 0)
    else None
  }

  function WbShiftOf(n: Note): (int, int) {
    match Pair(n, WB_FINE_TUNE)
    case Some((r, b)) => (WbShiftValue(r), WbShiftValue(b))
    case None => (0, 0)
  }

  function NumberOf(n: Note, tag: nat): int {
    match First(n, tag)
    case Some(v) => v
    case None => 0
  }

  // ---- Decoding a recipe ----

  /** The complete recipe of a shot, or none without a film simulation. Absent
      or unknown settings keep their defaults. */
  function RecipeFields(n: Note): Option<Fields> {
    if FilmSimulation(n) == "" then None
    else
      Some(Fields(
        Some(FilmSimulation(n)), Some(DynamicRange(n)), Some(DRangePriority(n)),
        Some(ToneOf(n, HIGHLIGHT_TONE)), Some(ToneOf(n, SHADOW_TONE)),
        Some(ColorOf(n)), Some(SharpnessOf(n)), Some(NoiseReductionOf(n)), Some(ClarityOf(n)),
        Some(StrengthOf(n, GRAIN_EFFECT)), Some(GrainSizeOf(n)), Some(StrengthOf(n, COLOR_CHROME)), Some(StrengthOf(n, COLOR_CHROME_FX_BLUE)),
        Some(WhiteBalanceOf(n)), TemperatureOf(n), Some(WbShiftOf(n).0), Some(WbShiftOf(n).1),
        Some(NumberOf(n, BW_ADJUSTMENT)), Some(NumberOf(n, BW_MAGENTA_GREEN))))
  }

  /** Whatever the note says, a decoded recipe has a fingerprint. */
  lemma DecodedComplete(n: Note)
    requires RecipeFields(n).Some?
    ensures Complete(RecipeFields(n).value)
  {
    hide IsMonochrome, FilmSimulation, DynamicRange, DRangePriority, WhiteBalanceName, StrengthOf, ColorOf, SharpnessOf, NoiseReductionOf, GrainSizeOf;
  }

  /** The tones, the scales and the numbers, assigned one by one. */
  method DecodeScales(n: Note, f0: Fields) returns (f: Fields)
    requires f0.highlightTone == f0.shadowTone == Some(Tone(0))
    requires f0.color == f0.sharpness == f0.noiseReduction == f0.clarity == Some(0)
    ensures f == f0.(highlightTone := Some(ToneOf(n, HIGHLIGHT_TONE)), shadowTone := Some(ToneOf(n, SHADOW_TONE)),
                     color := Some(ColorOf(n)), sharpness := Some(SharpnessOf(n)),
                     noiseReduction := Some(NoiseReductionOf(n)), clarity := Some(ClarityOf(n)))
  {
    hide First, SaturationSim, SaturationValue, SharpnessValue, NoiseReductionValue, Quotient, Unsigned;
    f := f0;
    var v := First(n, HIGHLIGHT_TONE);
    if v.Some? {
      f := f.(highlightTone := Some(ToneValue(v.value)));
    }
    v := First(n, SHADOW_TONE);
    if v.Some? {
      f := f.(shadowTone := Some(ToneValue(v.value)));
    }
    v := First(n, SATURATION);
    if v.Some? && SaturationSim(Unsigned(v.value)).None? && SaturationValue(v.value).Some? {
      f := f.(color := SaturationValue(v.value));
    }
    v := First(n, SHARPNESS);
    if v.Some? && SharpnessValue(v.value).Some? {
      f := f.(sharpness := SharpnessValue(v.value));
    }
    v := First(n, NOISE_REDUCTION);
    if v.Some? && NoiseReductionValue(v.value).Some? {
      f := f.(noiseReduction := NoiseReductionValue(v.value));
    }
    v := First(n, CLARITY);
    if v.Some? {
      f := f.(clarity := Some(Quotient(v.value, 1000)));
    }
  }

  method DecodeEffects(n: Note, f0: Fields) returns (f: Fields)
    requires f0.grainEffect == f0.grainSize == f0.colorChrome == f0.colorChromeFXBlue == Some("Off")
    ensures f == f0.(grainEffect := Some(StrengthOf(n, GRAIN_EFFECT)), grainSize := Some(GrainSizeOf(n)),
                     colorChrome := Some(StrengthOf(n, COLOR_CHROME)), colorChromeFXBlue := Some(StrengthOf(n, COLOR_CHROME_FX_BLUE)))
  {
    hide First, StrengthName, GrainSizeName, Unsigned;
    f := f0;
    var v := First(n, GRAIN_EFFECT);
    if v.Some? && StrengthName(Unsigned(v.value)).Some? {
      f := f.(grainEffect := StrengthName(Unsigned(v.value)));
    }
    v := First(n, GRAIN_SIZE);
    if v.Some? && GrainSizeName(Unsigned(v.value)).Some? {
      f := f.(grainSize := GrainSizeName(Unsigned(v.value)));
    }
    v := First(n, COLOR_CHROME);
    if v.Some? && StrengthName(Unsigned(v.value)).Some? {
      f := f.(colorChrome := StrengthName(Unsigned(v.value)));
    }
    v := First(n, COLOR_CHROME_FX_BLUE);
    if v.Some? && StrengthName(Unsigned(v.value)).Some? {
      f := f.(colorChromeFXBlue := StrengthName(Unsigned(v.value)));
    }
  }

  method DecodeColors(n: Note, f0: Fields) returns (f: Fields)
    requires f0.whiteBalance == Some("Auto") && f0.colorTemperature == None
    requires f0.wbShiftRed == f0.wbShiftBlue == f0.monochromaticWC == f0.monochromaticMG == Some(0)
    ensures f == f0.(whiteBalance := Some(WhiteBalanceOf(n)), colorTemperature := TemperatureOf(n),
                     wbShiftRed := Some(WbShiftOf(n).0), wbShiftBlue := Some(WbShiftOf(n).1),
                     monochromaticWC := Some(NumberOf(n, BW_ADJUSTMENT)), monochromaticMG := Some(NumberOf(n, BW_MAGENTA_GREEN)))
  {
    hide First, Pair, WhiteBalanceName, WbShiftValue, Unsigned, Unknown;
    f := f0;
    var v := First(n, WHITE_BALANCE);
    if v.Some? {
      var name := WhiteBalanceName(Unsigned(v.value));
      f := f.(whiteBalance := Some(if name.Some? then name.value else Unknown("WhiteBalance", v.value)));
      if f.whiteBalance.value == "Kelvin" {
        var t := First(n, COLOR_TEMPERATURE);
        f := f.(colorTemperature := if t.Some? then t else Some(0));
      }
    }
    var pair := Pair(n, WB_FINE_TUNE);
    if pair.Some? {
      f := f.(wbShiftRed := Some(WbShiftValue(pair.value.0)), wbShiftBlue := Some(WbShiftValue(pair.value.1)));
    }
    v := First(n, BW_ADJUSTMENT);
    if v.Some? {
      f := f.(monochromaticWC := v);
    }
    v := First(n, BW_MAGENTA_GREEN);
    if v.Some? {
      f := f.(monochromaticMG := v);
    }
  }

  /** The decoder of the program: the defaults, overwritten tag by tag. */
  method DecodeRecipe(n: Note) returns (r: Option<Fields>)
    ensures r == RecipeFields(n)
  {
    hide FilmSimulation, DynamicRange, DRangePriority, ToneOf, ColorOf, SharpnessOf, NoiseReductionOf, ClarityOf,
         StrengthOf, GrainSizeOf, WhiteBalanceOf, TemperatureOf, WbShiftOf, NumberOf;
    var sim := FilmSimulation(n);
    if sim == "" {
      return None;
    }
    var f := DEFAULTS;
    f := f.(filmSimulation := Some(sim), dynamicRange := Some(DynamicRange(n)), dRangePriority := Some(DRangePriority(n)));
    f := DecodeScales(n, f);
    f := DecodeEffects(n, f);
    f := DecodeColors(n, f);
    return Some(f);
  }
}
