/** What a decoded recipe says, setting by setting, in the numbers that the camera
    writes: tags, codes and scales (catalog/fuji.go:140-323, `recipeFields` of
    catalog/recipe.go). Nothing here goes through the tables of the decoder. */
module RecipeDecoding {
  import opened Wrappers
  import opened MakerNote
  import opened Recipe
  import RecipeCodec
  import Decimal

  // ---- The codes of the camera ----

  const FILM_CODES: seq<(int, string)> := [
    (0x000, "Provia/Standard"), (0x100, "Studio Portrait"), (0x110, "Studio Portrait Enhanced Saturation"), (0x120, "Astia/Soft"),
    (0x130, "Studio Portrait Increased Sharpness"), (0x200, "Fujichrome/Velvia"), (0x300, "Studio Portrait Ex"), (0x400, "Velvia/Vivid"),
    (0x500, "Pro Neg. Std"), (0x501, "Pro Neg. Hi"), (0x600, "Classic Chrome"), (0x700, "Eterna/Cinema"), (0x800, "Classic Negative"),
    (0x900, "Bleach Bypass/Eterna Bleach Bypass"), (0xA00, "Nostalgic Neg"), (0xB00, "Reala ACE")]

  const MONOCHROME_CODES: seq<(int, string)> := [
    (0x300, "Monochrome"), (0x301, "Monochrome + R Filter"), (0x302, "Monochrome + Ye Filter"), (0x303, "Monochrome + G Filter"),
    (0x310, "Sepia"), (0x500, "Acros"), (0x501, "Acros + R Filter"), (0x502, "Acros + Ye Filter"), (0x503, "Acros + G Filter")]

  const BALANCE_CODES: seq<(int, string)> := [
    (0x000, "Auto"), (0x001, "Auto (white priority)"), (0x002, "Auto (ambiance priority)"), (0x100, "Daylight"), (0x200, "Cloudy"),
    (0x300, "Daylight Fluorescent"), (0x301, "Day White Fluorescent"), (0x302, "White Fluorescent"), (0x303, "Warm White Fluorescent"),
    (0x304, "Living Room Warm White Fluorescent"), (0x400, "Incandescent"), (0x500, "Flash"), (0x600, "Underwater"),
    (0xF00, "Custom"), (0xF01, "Custom2"), (0xF02, "Custom3"), (0xF03, "Custom4"), (0xF04, "Custom5"), (0xFF0, "Kelvin")]

  const STRENGTH_CODES: seq<(int, string)> := [(0, "Off"), (32, "Weak"), (64, "Strong")]
  const SIZE_CODES: seq<(int, string)> := [(0, "Off"), (16, "Small"), (32, "Large")]

  const SHARPNESS_CODES: seq<(int, int)> := [(0x00, -4), (0x01, -3), (0x02, -2), (0x82, -1), (0x03, 0), (0x84, 1), (0x04, 2), (0x05, 3), (0x06, 4)]
  const COLOR_CODES: seq<(int, int)> := [(0x000, 0), (0x080, 1), (0x100, 2), (0x0C0, 3), (0x0E0, 4), (0x180, -1), (0x400, -2), (0x4C0, -3), (0x4E0, -4)]
  const NOISE_CODES: seq<(int, int)> := [(0x000, 0), (0x180, 1), (0x100, 2), (0x1C0, 3), (0x1E0, 4), (0x280, -1), (0x200, -2), (0x2C0, -3), (0x2E0, -4)]

  /** The code stands for this. */
  ghost predicate Codes<T>(table: seq<(int, T)>, code: int, meaning: T) {
    exists i :: 0 <= i < |table| && table[i].0 == code && table[i].1 == meaning
  }

  ghost predicate Known<T>(table: seq<(int, T)>, code: int) {
    exists i :: 0 <= i < |table| && table[i].0 == code
  }

  /** A setting that a table decodes: the meaning of its code, or the default. */
  ghost predicate Decodes<T>(table: seq<(int, T)>, code: Option<int>, default: T, v: Option<T>) {
    && v.Some?
    && (code.Some? && Known(table, code.value) ==> Codes(table, code.value, v.value))
    && (code.None? || !Known(table, code.value) ==> v.value == default)
  }

  /** The element of a tag, if there are that many. */
  ghost predicate Reads(n: Note, tag: nat, at: nat, v: Option<int>) {
    if tag in n.ints && at < |n.ints[tag]| then v == Some(n.ints[tag][at]) else v == None
  }

  /** As a 32-bit key. */
  ghost predicate Key32(v: Option<int>, key: Option<int>) {
    v.Some? == key.Some? && (v.Some? ==> 0 <= key.value < 0x1_0000_0000 && (v.value - key.value) % 0x1_0000_0000 == 0)
  }

  /** s spells v in base 16, small letters, the sign in front, no leading zeros. */
  ghost predicate SpellsHex(s: string, v: int) {
    if v < 0 then s != "" && s[0] == '-' && s[1..] == HexOf(-v) else s == HexOf(v)
  }

  function HexOf(v: nat): string
    decreases v
  {
    var d := if v % 16 < 10 then ('0' as int + v % 16) as char else ('a' as int + v % 16 - 10) as char;
    if v / 16 == 0 then [d] else HexOf(v / 16) + [d]
  }

  ghost predicate SpellsUnknown(s: string, name: string, v: int) {
    exists hex :: SpellsHex(hex, v) && s == name + "(0x" + hex + ")"
  }

  lemma {:induction false} HexSpelled(n: nat)
    ensures RecipeCodec.HexDigits(n) == HexOf(n)
  {
    if n >= 16 {
      HexSpelled(n / 16);
    }
  }

  lemma UnknownSpelled(name: string, v: int)
    ensures SpellsUnknown(RecipeCodec.Unknown(name, v), name, v)
  {
    HexSpelled(if v < 0 then -v else v);
    assert SpellsHex(RecipeCodec.Hex(v), v);
  }

  // ---- The tables ----

  lemma FilmCode(v: int)
    ensures RecipeCodec.FilmModeName(v).Some? <==> Known(FILM_CODES, v)
    ensures RecipeCodec.FilmModeName(v).Some? ==> Codes(FILM_CODES, v, RecipeCodec.FilmModeName(v).value)
  {
    match v
    case 0x000 => assert FILM_CODES[0].0 == v;
    case 0x100 => assert FILM_CODES[1].0 == v;
    case 0x110 => assert FILM_CODES[2].0 == v;
    case 0x120 => assert FILM_CODES[3].0 == v;
    case 0x130 => assert FILM_CODES[4].0 == v;
    case 0x200 => assert FILM_CODES[5].0 == v;
    case 0x300 => assert FILM_CODES[6].0 == v;
    case 0x400 => assert FILM_CODES[7].0 == v;
    case 0x500 => assert FILM_CODES[8].0 == v;
    case 0x501 => assert FILM_CODES[9].0 == v;
    case 0x600 => assert FILM_CODES[10].0 == v;
    case 0x700 => assert FILM_CODES[11].0 == v;
    case 0x800 => assert FILM_CODES[12].0 == v;
    case 0x900 => assert FILM_CODES[13].0 == v;
    case 0xA00 => assert FILM_CODES[14].0 == v;
    case 0xB00 => assert FILM_CODES[15].0 == v;
    case _ =>
  }

  lemma MonochromeCode(v: int)
    ensures RecipeCodec.SaturationSim(v).Some? <==> Known(MONOCHROME_CODES, v)
    ensures RecipeCodec.SaturationSim(v).Some? ==> Codes(MONOCHROME_CODES, v, RecipeCodec.SaturationSim(v).value)
  {
    match v
    case 0x300 => assert MONOCHROME_CODES[0].0 == v;
    case 0x301 => assert MONOCHROME_CODES[1].0 == v;
    case 0x302 => assert MONOCHROME_CODES[2].0 == v;
    case 0x303 => assert MONOCHROME_CODES[3].0 == v;
    case 0x310 => assert MONOCHROME_CODES[4].0 == v;
    case 0x500 => assert MONOCHROME_CODES[5].0 == v;
    case 0x501 => assert MONOCHROME_CODES[6].0 == v;
    case 0x502 => assert MONOCHROME_CODES[7].0 == v;
    case 0x503 => assert MONOCHROME_CODES[8].0 == v;
    case _ =>
  }

  lemma BalanceCode(v: int)
    ensures RecipeCodec.WhiteBalanceName(v).Some? <==> Known(BALANCE_CODES, v)
    ensures RecipeCodec.WhiteBalanceName(v).Some? ==> Codes(BALANCE_CODES, v, RecipeCodec.WhiteBalanceName(v).value)
  {
    match v
    case 0x000 => assert BALANCE_CODES[0].0 == v;
    case 0x001 => assert BALANCE_CODES[1].0 == v;
    case 0x002 => assert BALANCE_CODES[2].0 == v;
    case 0x100 => assert BALANCE_CODES[3].0 == v;
    case 0x200 => assert BALANCE_CODES[4].0 == v;
    case 0x300 => assert BALANCE_CODES[5].0 == v;
    case 0x301 => assert BALANCE_CODES[6].0 == v;
    case 0x302 => assert BALANCE_CODES[7].0 == v;
    case 0x303 => assert BALANCE_CODES[8].0 == v;
    case 0x304 => assert BALANCE_CODES[9].0 == v;
    case 0x400 => assert BALANCE_CODES[10].0 == v;
    case 0x500 => assert BALANCE_CODES[11].0 == v;
    case 0x600 => assert BALANCE_CODES[12].0 == v;
    case 0xF00 => assert BALANCE_CODES[13].0 == v;
    case 0xF01 => assert BALANCE_CODES[14].0 == v;
    case 0xF02 => assert BALANCE_CODES[15].0 == v;
    case 0xF03 => assert BALANCE_CODES[16].0 == v;
    case 0xF04 => assert BALANCE_CODES[17].0 == v;
    case 0xFF0 => assert BALANCE_CODES[18].0 == v;
    case _ =>
  }

  lemma StrengthCode(v: int)
    ensures RecipeCodec.StrengthName(v).Some? <==> Known(STRENGTH_CODES, v)
    ensures RecipeCodec.StrengthName(v).Some? ==> Codes(STRENGTH_CODES, v, RecipeCodec.StrengthName(v).value)
    ensures RecipeCodec.GrainSizeName(v).Some? <==> Known(SIZE_CODES, v)
    ensures RecipeCodec.GrainSizeName(v).Some? ==> Codes(SIZE_CODES, v, RecipeCodec.GrainSizeName(v).value)
  {
    match v
    case 0 => assert STRENGTH_CODES[0].0 == v && SIZE_CODES[0].0 == v;
    case 16 => assert SIZE_CODES[1].0 == v;
    case 32 => assert STRENGTH_CODES[1].0 == v && SIZE_CODES[2].0 == v;
    case 64 => assert STRENGTH_CODES[2].0 == v;
    case _ =>
  }

  lemma SharpnessCode(v: int)
    ensures RecipeCodec.SharpnessValue(v).Some? <==> Known(SHARPNESS_CODES, v)
    ensures RecipeCodec.SharpnessValue(v).Some? ==> Codes(SHARPNESS_CODES, v, RecipeCodec.SharpnessValue(v).value)
  {
    match v
    case 0x00 => assert SHARPNESS_CODES[0].0 == v;
    case 0x01 => assert SHARPNESS_CODES[1].0 == v;
    case 0x02 => assert SHARPNESS_CODES[2].0 == v;
    case 0x82 => assert SHARPNESS_CODES[3].0 == v;
    case 0x03 => assert SHARPNESS_CODES[4].0 == v;
    case 0x84 => assert SHARPNESS_CODES[5].0 == v;
    case 0x04 => assert SHARPNESS_CODES[6].0 == v;
    case 0x05 => assert SHARPNESS_CODES[7].0 == v;
    case 0x06 => assert SHARPNESS_CODES[8].0 == v;
    case _ =>
  }

  lemma ColorCode(v: int)
    ensures RecipeCodec.SaturationValue(v).Some? <==> Known(COLOR_CODES, v)
    ensures RecipeCodec.SaturationValue(v).Some? ==> Codes(COLOR_CODES, v, RecipeCodec.SaturationValue(v).value)
  {
    match v
    case 0x000 => assert COLOR_CODES[0].0 == v;
    case 0x080 => assert COLOR_CODES[1].0 == v;
    case 0x100 => assert COLOR_CODES[2].0 == v;
    case 0x0C0 => assert COLOR_CODES[3].0 == v;
    case 0x0E0 => assert COLOR_CODES[4].0 == v;
    case 0x180 => assert COLOR_CODES[5].0 == v;
    case 0x400 => assert COLOR_CODES[6].0 == v;
    case 0x4C0 => assert COLOR_CODES[7].0 == v;
    case 0x4E0 => assert COLOR_CODES[8].0 == v;
    case _ =>
  }

  lemma NoiseCode(v: int)
    ensures RecipeCodec.NoiseReductionValue(v).Some? <==> Known(NOISE_CODES, v)
    ensures RecipeCodec.NoiseReductionValue(v).Some? ==> Codes(NOISE_CODES, v, RecipeCodec.NoiseReductionValue(v).value)
  {
    match v
    case 0x000 => assert NOISE_CODES[0].0 == v;
    case 0x180 => assert NOISE_CODES[1].0 == v;
    case 0x100 => assert NOISE_CODES[2].0 == v;
    case 0x1C0 => assert NOISE_CODES[3].0 == v;
    case 0x1E0 => assert NOISE_CODES[4].0 == v;
    case 0x280 => assert NOISE_CODES[5].0 == v;
    case 0x200 => assert NOISE_CODES[6].0 == v;
    case 0x2C0 => assert NOISE_CODES[7].0 == v;
    case 0x2E0 => assert NOISE_CODES[8].0 == v;
    case _ =>
  }

  // ---- The settings ----

  /** The simulation: the saturation code if it names a monochrome one, else the
      film mode, a name made up for an unknown code; without either no recipe. */
  lemma FilmMeans(n: Note, sat: Option<int>, satKey: Option<int>, mode: Option<int>, modeKey: Option<int>)
    requires Reads(n, 0x1003, 0, sat) && Key32(sat, satKey) && Reads(n, 0x1401, 0, mode) && Key32(mode, modeKey)
    ensures var mono := satKey.Some? && Known(MONOCHROME_CODES, satKey.value);
      && (RecipeCodec.RecipeFields(n) == None <==> !mono && mode == None)
      && (RecipeCodec.RecipeFields(n).Some? ==>
            var film := RecipeCodec.RecipeFields(n).value.filmSimulation;
            && film.Some?
            && (mono ==> Codes(MONOCHROME_CODES, satKey.value, film.value))
            && (!mono && Known(FILM_CODES, modeKey.value) ==> Codes(FILM_CODES, modeKey.value, film.value))
            && (!mono && !Known(FILM_CODES, modeKey.value) ==> SpellsUnknown(film.value, "FilmMode", mode.value)))
  {
    hide RecipeCodec.SaturationSim, RecipeCodec.FilmModeName, RecipeCodec.Unknown, Known, Codes, SpellsUnknown,
         RecipeCodec.DynamicRange, RecipeCodec.DRangePriority, RecipeCodec.WhiteBalanceOf, RecipeCodec.TemperatureOf;
    if sat.Some? {
      SameKey(sat.value, satKey.value);
      MonochromeCode(satKey.value);
    }
    if mode.Some? {
      SameKey(mode.value, modeKey.value);
      FilmCode(modeKey.value);
      UnknownSpelled("FilmMode", mode.value);
    }
    FilmNamed(n);
  }

  lemma SameKey(v: int, key: int)
    requires 0 <= key < 0x1_0000_0000 && (v - key) % 0x1_0000_0000 == 0
    ensures RecipeCodec.Unsigned(v) == key
  {
  }

  /** A name is never empty. */
  lemma FilmNamed(n: Note)
    ensures RecipeCodec.FilmSimulation(n) == "" <==>
      !(RecipeCodec.First(n, 0x1003).Some? && RecipeCodec.SaturationSim(RecipeCodec.Unsigned(RecipeCodec.First(n, 0x1003).value)).Some?)
      && RecipeCodec.First(n, 0x1401).None?
  {
    hide RecipeCodec.Hex, RecipeCodec.First, RecipeCodec.Unsigned;
  }

  /** Highlight is minus the first element of 0x1041, shadow that of 0x1040, in
      sixteenths; absent, they are 0. */
  lemma TonesMean(n: Note, high: Option<int>, shadow: Option<int>)
    requires Reads(n, 0x1041, 0, high) && Reads(n, 0x1040, 0, shadow) && RecipeCodec.RecipeFields(n).Some?
    ensures var f := RecipeCodec.RecipeFields(n).value;
      && f.highlightTone == Some(Tone(if high.Some? then -high.value else 0))
      && f.shadowTone == Some(Tone(if shadow.Some? then -shadow.value else 0))
  {
    hide RecipeCodec.FilmSimulation, RecipeCodec.DynamicRange, RecipeCodec.DRangePriority, RecipeCodec.WhiteBalanceOf, RecipeCodec.TemperatureOf;
  }

  /** Color, unless the saturation code names a monochrome simulation; sharpness;
      noise reduction; clarity in thousands, cut towards 0. */
  lemma ScalesMean(n: Note, sat: Option<int>, satKey: Option<int>, sharp: Option<int>, noise: Option<int>, clarity: Option<int>)
    requires Reads(n, 0x1003, 0, sat) && Key32(sat, satKey) && Reads(n, 0x1001, 0, sharp) && Reads(n, 0x100E, 0, noise)
    requires Reads(n, 0x100F, 0, clarity) && RecipeCodec.RecipeFields(n).Some?
    ensures var f := RecipeCodec.RecipeFields(n).value;
      && (if satKey.Some? && Known(MONOCHROME_CODES, satKey.value) then f.color == Some(0) else Decodes(COLOR_CODES, sat, 0, f.color))
      && Decodes(SHARPNESS_CODES, sharp, 0, f.sharpness)
      && Decodes(NOISE_CODES, noise, 0, f.noiseReduction)
      && f.clarity.Some? && CutTowardsZero(if clarity.Some? then clarity.value else 0, 1000, f.clarity.value)
  {
    hide RecipeCodec.FilmSimulation, RecipeCodec.DynamicRange, RecipeCodec.DRangePriority, RecipeCodec.WhiteBalanceOf, RecipeCodec.TemperatureOf,
         RecipeCodec.SaturationSim, RecipeCodec.SaturationValue, RecipeCodec.SharpnessValue, RecipeCodec.NoiseReductionValue, Known, Codes,
         RecipeCodec.Quotient, CutTowardsZero;
    if sat.Some? {
      SameKey(sat.value, satKey.value);
      MonochromeCode(satKey.value);
      ColorCode(sat.value);
    }
    if sharp.Some? {
      SharpnessCode(sharp.value);
    }
    if noise.Some? {
      NoiseCode(noise.value);
    }
    QuotientCuts(if clarity.Some? then clarity.value else 0, 1000);
  }

  /** q is v divided by d, the remainder having the sign of v. */
  predicate CutTowardsZero(v: int, d: nat, q: int) {
    if v >= 0 then q * d <= v < q * d + d else q * d - d < v <= q * d
  }

  lemma QuotientCuts(v: int, d: nat)
    requires d > 0
    ensures CutTowardsZero(v, d, RecipeCodec.Quotient(v, d))
    ensures RecipeCodec.Quotient(0, d) == 0
  {
    var m := if v >= 0 then v else -v;
    assert m == m / d * d + m % d;
    if v < 0 {
      assert -(m / d) * d == -(m / d * d);
    }
  }

  /** Grain, its size and the two color chromes. */
  lemma EffectsMean(n: Note, grain: Option<int>, grainKey: Option<int>, size: Option<int>, sizeKey: Option<int>,
                    chrome: Option<int>, chromeKey: Option<int>, blue: Option<int>, blueKey: Option<int>)
    requires Reads(n, 0x1047, 0, grain) && Key32(grain, grainKey) && Reads(n, 0x104C, 0, size) && Key32(size, sizeKey)
    requires Reads(n, 0x1048, 0, chrome) && Key32(chrome, chromeKey) && Reads(n, 0x104E, 0, blue) && Key32(blue, blueKey)
    requires RecipeCodec.RecipeFields(n).Some?
    ensures var f := RecipeCodec.RecipeFields(n).value;
      && Decodes(STRENGTH_CODES, grainKey, "Off", f.grainEffect) && Decodes(SIZE_CODES, sizeKey, "Off", f.grainSize)
      && Decodes(STRENGTH_CODES, chromeKey, "Off", f.colorChrome) && Decodes(STRENGTH_CODES, blueKey, "Off", f.colorChromeFXBlue)
  {
    hide RecipeCodec.FilmSimulation, RecipeCodec.DynamicRange, RecipeCodec.DRangePriority, RecipeCodec.WhiteBalanceOf, RecipeCodec.TemperatureOf,
         RecipeCodec.StrengthName, RecipeCodec.GrainSizeName, Known, Codes;
    if grain.Some? {
      SameKey(grain.value, grainKey.value);
      StrengthCode(grainKey.value);
    }
    if size.Some? {
      SameKey(size.value, sizeKey.value);
      StrengthCode(sizeKey.value);
    }
    if chrome.Some? {
      SameKey(chrome.value, chromeKey.value);
      StrengthCode(chromeKey.value);
    }
    if blue.Some? {
      SameKey(blue.value, blueKey.value);
      StrengthCode(blueKey.value);
    }
  }

  /** White balance, a name made up for an unknown code; the temperature only of
      Kelvin; the monochromatic color. */
  lemma ColorsMean(n: Note, balance: Option<int>, balanceKey: Option<int>, kelvin: Option<int>, wc: Option<int>, mg: Option<int>)
    requires Reads(n, 0x1002, 0, balance) && Key32(balance, balanceKey) && Reads(n, 0x1005, 0, kelvin)
    requires Reads(n, 0x1049, 0, wc) && Reads(n, 0x104B, 0, mg) && RecipeCodec.RecipeFields(n).Some?
    ensures var f := RecipeCodec.RecipeFields(n).value;
      && f.whiteBalance.Some?
      && (balance == None ==> f.whiteBalance.value == "Auto")
      && (balance.Some? && Known(BALANCE_CODES, balanceKey.value) ==> Codes(BALANCE_CODES, balanceKey.value, f.whiteBalance.value))
      && (balance.Some? && !Known(BALANCE_CODES, balanceKey.value) ==> SpellsUnknown(f.whiteBalance.value, "WhiteBalance", balance.value))
      && f.colorTemperature == (if f.whiteBalance.value == "Kelvin" then Some(if kelvin.Some? then kelvin.value else 0) else None)
      && f.monochromaticWC == Some(if wc.Some? then wc.value else 0) && f.monochromaticMG == Some(if mg.Some? then mg.value else 0)
  {
    hide RecipeCodec.FilmSimulation, RecipeCodec.DynamicRange, RecipeCodec.DRangePriority,
         RecipeCodec.WhiteBalanceName, RecipeCodec.Unknown, Known, Codes, SpellsUnknown;
    if balance.Some? {
      SameKey(balance.value, balanceKey.value);
      BalanceCode(balanceKey.value);
      UnknownSpelled("WhiteBalance", balance.value);
    }
  }

  /** The nearest multiple, halves away from 0. */
  predicate RoundedBy(v: int, d: nat, q: int) {
    if v >= 0 then 2 * q * d - d <= 2 * v < 2 * q * d + d else 2 * q * d - d < 2 * v <= 2 * q * d + d
  }

  /** Red and then blue are the elements of 0x100A in twentieths; both 0 unless
      there are two. */
  lemma ShiftsMean(n: Note, red: Option<int>, blue: Option<int>)
    requires Reads(n, 0x100A, 0, red) && Reads(n, 0x100A, 1, blue) && RecipeCodec.RecipeFields(n).Some?
    ensures var f := RecipeCodec.RecipeFields(n).value;
      && f.wbShiftRed.Some? && f.wbShiftBlue.Some?
      && (blue == None ==> f.wbShiftRed.value == 0 && f.wbShiftBlue.value == 0)
      && (blue.Some? ==> red.Some? && RoundedBy(red.value, 20, f.wbShiftRed.value) && RoundedBy(blue.value, 20, f.wbShiftBlue.value))
  {
    hide RecipeCodec.FilmSimulation, RecipeCodec.DynamicRange, RecipeCodec.DRangePriority, RecipeCodec.WhiteBalanceOf, RecipeCodec.TemperatureOf;
  }

  /** The dynamic range, and its priority. */
  lemma RangesMean(n: Note, set_: Option<int>, dev: Option<int>, mode: Option<int>, fixed: Option<int>)
    requires Reads(n, 0x1402, 0, set_) && Reads(n, 0x1403, 0, dev) && Reads(n, 0x1443, 0, mode) && Reads(n, 0x1445, 0, fixed)
    requires RecipeCodec.RecipeFields(n).Some?
    ensures var f := RecipeCodec.RecipeFields(n).value;
      var manual := set_ == Some(1) || set_ == Some(0x100) || set_ == Some(0x200) || set_ == Some(0x201);
      && f.dynamicRange.Some? && f.dRangePriority.Some?
      && (manual && dev.Some? && dev.value > 0 ==> |f.dynamicRange.value| > 2 && f.dynamicRange.value[..2] == "DR" && SpellsDecimal(f.dynamicRange.value[2..], dev.value))
      && (!(manual && dev.Some? && dev.value > 0) ==>
            f.dynamicRange.value == if set_ == Some(0x100) then "DR100" else if set_ == Some(0x201) then "DR400" else "Auto")
      && (mode == None ==> f.dRangePriority.value == "Off")
      && (mode == Some(0) ==> f.dRangePriority.value == "Auto")
      && (mode == Some(1) ==> f.dRangePriority.value == if fixed == Some(1) then "Weak" else if fixed == Some(2) then "Strong" else "Fixed")
      && (mode.Some? && mode.value != 0 && mode.value != 1 ==> SpellsUnknown(f.dRangePriority.value, "DRangePriority", mode.value))
  {
    hide RecipeCodec.FilmSimulation, RecipeCodec.WhiteBalanceOf, RecipeCodec.TemperatureOf, RecipeCodec.Unknown, SpellsUnknown, Decimal.Itoa,
         SpellsDecimal;
    if mode.Some? {
      UnknownSpelled("DRangePriority", mode.value);
    }
    if dev.Some? && dev.value > 0 {
      DecimalSpelled(dev.value);
      var s := "DR" + Decimal.Itoa(dev.value);
      assert s[..2] == "DR" && s[2..] == Decimal.Itoa(dev.value);
    }
  }

  /** s spells a positive v in base 10 without leading zeros. */
  ghost predicate SpellsDecimal(s: string, v: int) {
    v > 0 && s == DecimalOf(v)
  }

  function DecimalOf(v: nat): string {
    var d := ('0' as int + v % 10) as char;
    if v / 10 == 0 then [d] else DecimalOf(v / 10) + [d]
  }

  lemma {:induction false} DigitsSpelled(v: nat)
    ensures Decimal.Digits(v) == DecimalOf(v)
  {
    if v >= 10 {
      DigitsSpelled(v / 10);
    }
  }

  lemma DecimalSpelled(v: int)
    requires v > 0
    ensures SpellsDecimal(Decimal.Itoa(v), v) && Decimal.Itoa(v) != ""
  {
    DigitsSpelled(v);
  }
}
