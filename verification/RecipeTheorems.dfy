/** The promise behind recipe matching: the editor and the decoder hash the same
    text for the same recipe, and different ones for different recipes. */
module RecipeTheorems {
  import opened Wrappers
  import opened MakerNote
  import opened Recipe
  import opened RecipeCodec
  import opened RecipeRoundTrip
  import opened Fingerprint
  import Decimal
  import RecipeIdentity
  import RecipeRules

  lemma PlainSameText(g: Fields)
    requires Complete(g) && Normalized(g) == g
    ensures Complete(Plain(g)) && HashedText(Plain(g)) == HashedText(g)
  {
    hide IsMonochrome, Normalized, Listed;
    PlainStaysNormal(g);
    NormalizedAllSet(g);
    PlainPrintsAlike(g);
  }

  /** For every complete recipe that validation accepts, what is decoded from its
      maker note has its fingerprint text. */
  lemma DecodedSameText(f: Fields, parsed: Result<Note, Failure>)
    requires Complete(f) && Valid(f) && Parses(NoteFor(f), parsed)
    ensures parsed.Ok? && RecipeFields(parsed.value).Some?
    ensures HashedText(RecipeFields(parsed.value).value) == HashedText(f)
  {
    hide Complete, Valid, Normalized, Plain, RecipeFields, HashedText, NoteFor, Parses;
    RecipeHasMakerNote(f, parsed);
    NormalizedIdempotent(f);
    PlainSameText(Normalized(f));
    NormalizedSameText(f);
  }

  /** A decoded recipe always has a text. */
  lemma DecodedHasText(n: Note)
    requires RecipeFields(n).Some?
    ensures HashedText(RecipeFields(n).value).Some?
  {
    hide RecipeFields, Complete;
    DecodedComplete(n);
  }

  /** No canonical name has a newline. */
  lemma NamesOneLine(v: Option<string>)
    requires v.Some?
    requires OneOf(v, FILM_SIMULATIONS) || OneOf(v, WHITE_BALANCES)
      || OneOf(v, DYNAMIC_RANGES) || OneOf(v, PRIORITIES) || OneOf(v, STRENGTHS) || OneOf(v, GRAIN_SIZES)
    ensures OneLine(v.value)
  {
    hide OneLine;
    if v.value in FILM_SIMULATIONS {
      SimulationsOneLine(v.value);
    }
    BalancesOneLine();
    ListsOneLine();
  }

  lemma FirstSimulationsOneLine()
    ensures forall i :: 0 <= i < 8 ==> OneLine(COLOR_SIMULATIONS[i])
  {
  }

  lemma LastSimulationsOneLine()
    ensures forall i :: 8 <= i < |COLOR_SIMULATIONS| ==> OneLine(COLOR_SIMULATIONS[i])
  {
  }

  lemma MonochromeOneLine()
    ensures forall i :: 0 <= i < |MONOCHROME| ==> OneLine(MONOCHROME[i])
  {
  }

  lemma SimulationsOneLine(name: string)
    requires name in FILM_SIMULATIONS
    ensures OneLine(name)
  {
    hide OneLine;
    FirstSimulationsOneLine();
    LastSimulationsOneLine();
    MonochromeOneLine();
  }

  lemma BalancesOneLine()
    ensures forall i :: 0 <= i < |WHITE_BALANCES| ==> OneLine(WHITE_BALANCES[i])
  {
  }

  lemma ListsOneLine()
    ensures forall i :: 0 <= i < |DYNAMIC_RANGES| ==> OneLine(DYNAMIC_RANGES[i])
    ensures forall i :: 0 <= i < |PRIORITIES| ==> OneLine(PRIORITIES[i])
    ensures forall i :: 0 <= i < |STRENGTHS| ==> OneLine(STRENGTHS[i])
    ensures forall i :: 0 <= i < |GRAIN_SIZES| ==> OneLine(GRAIN_SIZES[i])
  {
  }

  lemma ValidOneLiners(f: Fields)
    requires Complete(f) && Valid(f)
    ensures AllSet(Normalized(f)) && OneLiners(Normalized(f))
  {
    hide Complete, Valid, Normalized, OneOf, OneLine;
    NormalizedCanonical(f);
    NormalizedAllSet(f);
    var g := Normalized(f);
    Vocabulary(g);
    NamesOneLine(g.filmSimulation);
    NamesOneLine(g.dynamicRange);
    NamesOneLine(g.dRangePriority);
    NamesOneLine(g.grainEffect);
    NamesOneLine(g.grainSize);
    NamesOneLine(g.colorChrome);
    NamesOneLine(g.colorChromeFXBlue);
    NamesOneLine(g.whiteBalance);
  }

  /** Among valid, complete recipes the text identifies the recipe. */
  lemma ValidSameText(f: Fields, k: Fields)
    requires Complete(f) && Valid(f) && Complete(k) && Valid(k)
    ensures HashedText(f) == HashedText(k) <==> Plain(Normalized(f)) == Plain(Normalized(k))
  {
    hide Complete, Valid, Normalized, HashedText, Plain, AllSet, OneLiners;
    ValidOneLiners(f);
    ValidOneLiners(k);
    SameTextSameRecipe(f, k);
  }

  // ---- Whatever the decoder yields ----

  lemma FirstModesOneLine(v: int)
    ensures v < 0x300 && FilmModeName(v).Some? ==> OneLine(FilmModeName(v).value)
  {
  }

  lemma MiddleModesOneLine(v: int)
    ensures 0x300 <= v < 0x700 && FilmModeName(v).Some? ==> OneLine(FilmModeName(v).value)
  {
  }

  lemma LastModesOneLine(v: int)
    ensures 0x700 <= v && FilmModeName(v).Some? ==> OneLine(FilmModeName(v).value)
  {
  }

  lemma FilmModesOneLine(v: int)
    ensures FilmModeName(v).Some? ==> OneLine(FilmModeName(v).value)
  {
    hide FilmModeName, OneLine;
    FirstModesOneLine(v);
    MiddleModesOneLine(v);
    LastModesOneLine(v);
  }

  lemma SaturationsOneLine(v: int)
    ensures SaturationSim(v).Some? ==> OneLine(SaturationSim(v).value)
  {
  }

  lemma PresetsOneLine(v: int)
    ensures v < 0x301 && WhiteBalanceName(v).Some? ==> OneLine(WhiteBalanceName(v).value)
  {
  }

  lemma LampsOneLine(v: int)
    ensures 0x301 <= v < 0x600 && WhiteBalanceName(v).Some? ==> OneLine(WhiteBalanceName(v).value)
  {
  }

  lemma CustomsOneLine(v: int)
    ensures 0x600 <= v && WhiteBalanceName(v).Some? ==> OneLine(WhiteBalanceName(v).value)
  {
  }

  lemma WhiteBalancesOneLine(v: int)
    ensures WhiteBalanceName(v).Some? ==> OneLine(WhiteBalanceName(v).value)
  {
    hide WhiteBalanceName, OneLine;
    PresetsOneLine(v);
    LampsOneLine(v);
    CustomsOneLine(v);
  }

  lemma {:induction false} HexOneLine(n: nat)
    ensures OneLine(HexDigits(n))
  {
    if n >= 16 {
      HexOneLine(n / 16);
    }
  }

  lemma UnknownOneLine(name: string, v: int)
    requires OneLine(name)
    ensures OneLine(Unknown(name, v))
  {
    HexOneLine(if v < 0 then -v else v);
  }

  lemma SettingsOneLine(n: Note)
    ensures OneLine(DRangePriority(n)) && OneLine(DynamicRange(n))
    ensures OneLine(StrengthOf(n, GRAIN_EFFECT)) && OneLine(StrengthOf(n, COLOR_CHROME)) && OneLine(StrengthOf(n, COLOR_CHROME_FX_BLUE))
    ensures OneLine(GrainSizeOf(n))
  {
    hide First, RecipeCodec.Unsigned, Unknown, Decimal.Itoa;
    var mode := First(n, D_RANGE_PRIORITY);
    if mode.Some? {
      UnknownOneLine("DRangePriority", mode.value);
    }
    var dev := First(n, DEV_DYNAMIC_RANGE);
    if dev.Some? {
      NumbersOneLine(dev.value, Tone(0));
    }
  }

  lemma NamesOfNoteOneLine(n: Note)
    ensures OneLine(FilmSimulation(n)) && OneLine(WhiteBalanceOf(n))
  {
    hide First, RecipeCodec.Unsigned, Unknown, FilmModeName, SaturationSim, WhiteBalanceName;
    var sat, mode, wb := First(n, SATURATION), First(n, FILM_MODE), First(n, WHITE_BALANCE);
    if sat.Some? {
      SaturationsOneLine(RecipeCodec.Unsigned(sat.value));
    }
    if mode.Some? {
      FilmModesOneLine(RecipeCodec.Unsigned(mode.value));
      UnknownOneLine("FilmMode", mode.value);
    }
    if wb.Some? {
      WhiteBalancesOneLine(RecipeCodec.Unsigned(wb.value));
      UnknownOneLine("WhiteBalance", wb.value);
    }
  }

  /** No decoded string has a newline, not even one made up for an unknown code. */
  lemma DecodedOneLiners(n: Note)
    requires RecipeFields(n).Some?
    ensures var f := RecipeFields(n).value; Complete(f) && AllSet(Normalized(f)) && OneLiners(Normalized(f))
  {
    hide Complete, OneLine, FilmSimulation, DynamicRange, DRangePriority, ToneOf, ColorOf, SharpnessOf, NoiseReductionOf, ClarityOf,
         StrengthOf, GrainSizeOf, WhiteBalanceOf, TemperatureOf, WbShiftOf, NumberOf, IsMonochrome;
    DecodedComplete(n);
    NormalizedAllSet(RecipeFields(n).value);
    SettingsOneLine(n);
    NamesOfNoteOneLine(n);
    OffOneLine();
  }

  lemma OffOneLine()
    ensures OneLine("Off")
  {
  }

  /** The text identifies every decoded recipe, among decoded ones and among the
      complete ones that validation accepts. */
  lemma DecodedIdentified(n: Note, m: Note)
    requires RecipeFields(n).Some? && RecipeFields(m).Some?
    ensures var f, k := RecipeFields(n).value, RecipeFields(m).value;
      HashedText(f) == HashedText(k) <==> Plain(Normalized(f)) == Plain(Normalized(k))
  {
    hide Complete, Normalized, HashedText, Plain, AllSet, OneLiners, RecipeFields;
    DecodedOneLiners(n);
    DecodedOneLiners(m);
    SameTextSameRecipe(RecipeFields(n).value, RecipeFields(m).value);
  }

  lemma DecodedMatchesExactly(n: Note, f: Fields)
    requires RecipeFields(n).Some? && Complete(f) && Valid(f)
    ensures var k := RecipeFields(n).value;
      HashedText(k) == HashedText(f) <==> Plain(Normalized(k)) == Plain(Normalized(f))
  {
    hide Complete, Valid, Normalized, HashedText, Plain, AllSet, OneLiners, RecipeFields;
    DecodedOneLiners(n);
    ValidOneLiners(f);
    SameTextSameRecipe(RecipeFields(n).value, f);
  }

  // ---- The same, on the fields as they come ----

  lemma PlainTwice(f: Fields)
    ensures Plain(Plain(f)) == Plain(f)
  {
  }

  /** What is decoded from the maker note of a recipe is the same recipe. */
  lemma DecodedIsRecipe(f: Fields, parsed: Result<Note, Failure>)
    requires RecipeIdentity.Told(f) && RecipeRules.Allowed(f) && Parses(NoteFor(f), parsed)
    ensures parsed.Ok? && RecipeFields(parsed.value).Some?
    ensures RecipeIdentity.SameRecipe(RecipeFields(parsed.value).value, f)
  {
    hide Complete, Valid, Normalized, Plain, RecipeFields, NoteFor, Parses, RecipeIdentity.Told, RecipeIdentity.SameRecipe, RecipeRules.Allowed;
    RecipeIdentity.CompleteTold(f);
    RecipeRules.ValidExactly(f);
    RecipeHasMakerNote(f, parsed);
    DecodedComplete(parsed.value);
    PlainTwice(Normalized(f));
    RecipeIdentity.SameNormalized(RecipeFields(parsed.value).value, f);
  }

  /** Recipes that the editor takes have one text exactly when they are the same. */
  lemma EditedSameRecipe(f: Fields, k: Fields)
    requires RecipeIdentity.Told(f) && RecipeRules.Allowed(f) && RecipeIdentity.Told(k) && RecipeRules.Allowed(k)
    ensures HashedText(f) == HashedText(k) <==> RecipeIdentity.SameRecipe(f, k)
  {
    hide Complete, Valid, Normalized, HashedText, Plain, RecipeIdentity.Told, RecipeIdentity.SameRecipe, RecipeRules.Allowed;
    RecipeIdentity.CompleteTold(f);
    RecipeIdentity.CompleteTold(k);
    RecipeRules.ValidExactly(f);
    RecipeRules.ValidExactly(k);
    ValidSameText(f, k);
    RecipeIdentity.SameNormalized(f, k);
  }

  /** So have two decoded ones, and a decoded and an edited one. */
  lemma DecodedSameRecipe(n: Note, m: Note)
    requires RecipeFields(n).Some? && RecipeFields(m).Some?
    ensures var f, k := RecipeFields(n).value, RecipeFields(m).value;
      HashedText(f) == HashedText(k) <==> RecipeIdentity.SameRecipe(f, k)
  {
    hide Complete, Normalized, HashedText, Plain, RecipeFields, RecipeIdentity.SameRecipe;
    DecodedComplete(n);
    DecodedComplete(m);
    DecodedIdentified(n, m);
    RecipeIdentity.SameNormalized(RecipeFields(n).value, RecipeFields(m).value);
  }

  lemma PhotoMatchesExactly(n: Note, f: Fields)
    requires RecipeFields(n).Some? && RecipeIdentity.Told(f) && RecipeRules.Allowed(f)
    ensures HashedText(RecipeFields(n).value) == HashedText(f) <==> RecipeIdentity.SameRecipe(RecipeFields(n).value, f)
  {
    hide Complete, Valid, Normalized, HashedText, Plain, RecipeFields, RecipeIdentity.Told, RecipeIdentity.SameRecipe, RecipeRules.Allowed;
    RecipeIdentity.CompleteTold(f);
    RecipeRules.ValidExactly(f);
    DecodedComplete(n);
    DecodedMatchesExactly(n, f);
    RecipeIdentity.SameNormalized(RecipeFields(n).value, f);
  }
}
