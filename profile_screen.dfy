/**
 * The taste-profile screen: the label-to-percentage mapping of the
 * preference meters and which sections are rendered for a profile.
 */
module ProfileScreen {
  import opened Wrappers

  /** The meter labels, from lowest to highest. */
  const Levels: seq<string> := ["Very Low", "Low", "Medium-Low", "Medium", "Medium-High", "High", "Very High"]
  /** The bar width, in percent, that each level maps to. */
  const LevelPercentages: seq<nat> := [10, 30, 45, 50, 70, 85, 95]
  const DefaultPercentage: nat := 50

  /** `getValuePercentage`: the switch on the meter's value; anything else, including undefined, is 50. */
  function Percentage(value: Option<string>): (r: nat)
    ensures r in LevelPercentages
  {
    match value
    case None => 50
    case Some(v) =>
      if v == "Very Low" then 10
      else if v == "Low" then 30
      else if v == "Medium-Low" then 45
      else if v == "Medium" then 50
      else if v == "Medium-High" then 70
      else if v == "High" then 85
      else if v == "Very High" then 95
      else 50
  }

  /** Each level maps to its own percentage; anything else maps to the default. */
  lemma PercentageTable(value: Option<string>)
    ensures forall k :: 0 <= k < |Levels| && value == Some(Levels[k]) ==> Percentage(value) == LevelPercentages[k]
    ensures (value.None? || value.value !in Levels) ==> Percentage(value) == DefaultPercentage
  {
  }

  /** A higher level always gives a wider bar. */
  lemma PercentageIncreasing(i: nat, j: nat)
    requires i < j < |Levels|
    ensures Percentage(Some(Levels[i])) < Percentage(Some(Levels[j]))
  {
    PercentageTable(Some(Levels[i]));
    PercentageTable(Some(Levels[j]));
    assert LevelPercentages[i] < LevelPercentages[j];
  }

  /** Every value, known or not, gives a width between the lowest and the highest level's. */
  lemma PercentageBounds(value: Option<string>)
    ensures LevelPercentages[0] <= Percentage(value) <= LevelPercentages[|Levels| - 1]
  {
  }

  datatype VisitFrequency = VisitFrequency(breakfast: string, lunch: string, dinner: string, dessert: string)

  /**
   * The taste profile as the screen reads it. A list field that may be
   * missing is an `Option`; a present list is truthy even when empty.
   */
  datatype TasteProfile = TasteProfile(
    spicePreference: Option<string>,
    saltPreference: Option<string>,
    sweetnessPreference: Option<string>,
    bitterPreference: Option<string>,
    sourPreference: Option<string>,
    umamiPreference: Option<string>,
    favoriteEthnicCuisines: seq<string>,
    dietaryRestrictions: Option<seq<string>>,
    frequentlyOrderedDishes: Option<seq<string>>,
    visitFrequency: Option<VisitFrequency>)

  datatype Meter = Meter(title: string, value: Option<string>, percentage: nat)

  datatype TagKind = Cuisine | Restriction | Preference

  datatype Tag = Tag(text: string, kind: TagKind)

  datatype Section =
    | UploadPrompt
    | ProfileHeader
    | FlavorPreferences(meters: seq<Meter>)
    | FavoriteCuisines(tags: seq<Tag>)
    | DietaryRestrictions(tags: seq<Tag>)
    | FrequentlyOrdered(tags: seq<Tag>)
    | VisitPatterns(visits: VisitFrequency)
    | Actions

  function MeterFor(title: string, value: Option<string>): Meter {
    Meter(title, value, Percentage(value))
  }

  /** One tag per text, in order. */
  function Tags(texts: seq<string>, kind: TagKind): seq<Tag> {
    seq(|texts|, k requires 0 <= k < |texts| => Tag(texts[k], kind))
  }

  function Meters(p: TasteProfile): seq<Meter> {
    [MeterFor("Spice Level", p.spicePreference),
     MeterFor("Salt Level", p.saltPreference),
     MeterFor("Sweetness", p.sweetnessPreference),
     MeterFor("Bitterness", p.bitterPreference),
     MeterFor("Sourness", p.sourPreference),
     MeterFor("Umami", p.umamiPreference)]
  }

  /** The sections `ProfileScreen` renders, top to bottom. */
  function Screen(profile: Option<TasteProfile>): (ss: seq<Section>)
    ensures profile.None? ==> ss == [UploadPrompt]
    ensures profile.Some? ==> 4 <= |ss| <= 7 && ss[0] == ProfileHeader && ss[|ss| - 1] == Actions
  {
    match profile
    case None => [UploadPrompt]
    case Some(p) =>
      [ProfileHeader, FlavorPreferences(Meters(p)), FavoriteCuisines(Tags(p.favoriteEthnicCuisines, Cuisine))]
      + (if p.dietaryRestrictions.Some? && |p.dietaryRestrictions.value| > 0
         then [DietaryRestrictions(Tags(p.dietaryRestrictions.value, Restriction))] else [])
      + (if p.frequentlyOrderedDishes.Some? then [FrequentlyOrdered(Tags(p.frequentlyOrderedDishes.value, Preference))] else [])
      + (if p.visitFrequency.Some? then [VisitPatterns(p.visitFrequency.value)] else [])
      + [Actions]
  }

  predicate ShowsPrompt(ss: seq<Section>) { exists i :: 0 <= i < |ss| && ss[i].UploadPrompt? }
  predicate ShowsDietary(ss: seq<Section>) { exists i :: 0 <= i < |ss| && ss[i].DietaryRestrictions? }
  predicate ShowsFrequent(ss: seq<Section>) { exists i :: 0 <= i < |ss| && ss[i].FrequentlyOrdered? }
  predicate ShowsVisits(ss: seq<Section>) { exists i :: 0 <= i < |ss| && ss[i].VisitPatterns? }

  /** Without a profile only the upload prompt is rendered; with one, the prompt never is. */
  lemma NoProfileOnlyPrompt(profile: Option<TasteProfile>)
    ensures profile.None? <==> Screen(profile) == [UploadPrompt]
    ensures profile.None? <==> ShowsPrompt(Screen(profile))
  {
    if profile.Some? {
      var ss := Screen(profile);
      assert ss[0] == ProfileHeader;
      assert forall i :: 0 <= i < |ss| ==> !ss[i].UploadPrompt?;
    } else {
      assert Screen(profile)[0].UploadPrompt?;
    }
  }

  /** The dietary section appears exactly when the restrictions list exists and is non-empty. */
  lemma DietaryShownIff(profile: Option<TasteProfile>)
    ensures ShowsDietary(Screen(profile)) <==>
      profile.Some? && profile.value.dietaryRestrictions.Some? && |profile.value.dietaryRestrictions.value| > 0
  {
    if profile.Some? {
      var p := profile.value;
      if p.dietaryRestrictions.Some? && |p.dietaryRestrictions.value| > 0 {
        assert Screen(profile)[3].DietaryRestrictions?;
      }
    }
  }

  /** The frequently-ordered section appears exactly when the list exists, even when it is empty. */
  lemma FrequentShownIff(profile: Option<TasteProfile>)
    ensures ShowsFrequent(Screen(profile)) <==> profile.Some? && profile.value.frequentlyOrderedDishes.Some?
  {
    if profile.Some? {
      var p := profile.value;
      var d := if p.dietaryRestrictions.Some? && |p.dietaryRestrictions.value| > 0 then 1 else 0;
      if p.frequentlyOrderedDishes.Some? {
        assert Screen(profile)[3 + d].FrequentlyOrdered?;
      }
    }
  }

  /** The visit-pattern section appears exactly when the visit frequencies exist. */
  lemma VisitsShownIff(profile: Option<TasteProfile>)
    ensures ShowsVisits(Screen(profile)) <==> profile.Some? && profile.value.visitFrequency.Some?
  {
    if profile.Some? {
      var p := profile.value;
      var d := if p.dietaryRestrictions.Some? && |p.dietaryRestrictions.value| > 0 then 1 else 0;
      var f := if p.frequentlyOrderedDishes.Some? then 1 else 0;
      if p.visitFrequency.Some? {
        assert Screen(profile)[3 + d + f].VisitPatterns?;
      }
    }
  }

  /** Every bar on the screen has a width between 10% and 95%. */
  lemma MetersInRange(profile: TasteProfile)
    ensures forall m :: m in Meters(profile) ==> 10 <= m.percentage <= 95
  {
    PercentageBounds(profile.spicePreference);
    PercentageBounds(profile.saltPreference);
    PercentageBounds(profile.sweetnessPreference);
    PercentageBounds(profile.bitterPreference);
    PercentageBounds(profile.sourPreference);
    PercentageBounds(profile.umamiPreference);
  }
}
