/**
 * The recommendation back end: nearby-restaurant lookup (radius units and
 * truncation), flavor-profile attachment from the language model's reply,
 * the user profile read from its CSV row, the "already tried" and
 * dietary filters, the five-taste similarity score, top-n selection and the
 * feedback rule that nudges one taste at a time.
 *
 * The HTTP search, the language-model call and the CSV file are not modelled
 * as effects: their results are parameters.
 */
module Recommend {
  import opened Wrappers
  import opened Seqs
  import opened Text

  // ---------------------------------------------------------------------
  // Tastes and flavor profiles
  // ---------------------------------------------------------------------

  datatype Taste = Salty | Umami | Spicy | Sweet | Sour

  /** The order in which every loop of the back end walks the tastes. */
  const TasteOrder: seq<Taste> := [Salty, Umami, Spicy, Sweet, Sour]
  const AllTastes: set<Taste> := {Salty, Umami, Spicy, Sweet, Sour}

  function TasteName(t: Taste): string {
    match t
    case Salty => "salty"
    case Umami => "umami"
    case Spicy => "spicy"
    case Sweet => "sweet"
    case Sour => "sour"
  }

  lemma AllTastesComplete(t: Taste)
    ensures t in AllTastes
  {
  }

  /** The position of a taste in `TasteOrder`. */
  function TasteIndex(t: Taste): (k: nat)
    ensures k < |TasteOrder| && TasteOrder[k] == t
  {
    match t
    case Salty => 0
    case Umami => 1
    case Spicy => 2
    case Sweet => 3
    case Sour => 4
  }

  /** `d.get(taste, 0)`: the stored value, 0 when the taste is missing. */
  function TasteValue(m: map<Taste, real>, t: Taste): real {
    if t in m then m[t] else 0.0
  }

  /** Every taste that `m` would report lies in [0, 1]. */
  predicate InUnit(m: map<Taste, real>) {
    forall t :: 0.0 <= TasteValue(m, t) <= 1.0
  }

  /** A flavor profile: the five taste intensities (any may be missing) and texture words. */
  datatype FlavorProfile = FlavorProfile(tastes: map<Taste, real>, textures: seq<string>)

  /** The profile used for a restaurant the model said nothing about. */
  const Fallback: FlavorProfile :=
    FlavorProfile(map[Salty := 0.5, Umami := 0.5, Spicy := 0.5, Sweet := 0.5, Sour := 0.5], ["varied"])

  /** A restaurant as the places search returns it, plus the attached profile. */
  datatype Restaurant = Restaurant(
    id: Option<string>,
    name: Option<string>,
    vicinity: Option<string>,
    flavorProfile: Option<FlavorProfile>)

  /** `r.get("name", "")`. */
  function NameOf(r: Restaurant): string {
    r.name.GetOr("")
  }

  function Min(a: int, b: int): int { if a <= b then a else b }
  function Max(a: int, b: int): int { if a <= b then b else a }

  // ---------------------------------------------------------------------
  // Nearby search: radius units and truncation
  // ---------------------------------------------------------------------

  const RestaurantCount: nat := 20
  const MetersPerKilometer: real := 1000.0
  const MetersPerMile: real := 1609.34

  /** The search radius in metres, or None for a unit other than km/kilometers/mi/miles (any case). */
  function RadiusMeters(value: real, unit: string): (r: Option<real>)
    ensures r.Some? <==> Lower(unit) in ["kilometers", "km", "miles", "mi"]
    ensures Lower(unit) in ["kilometers", "km"] ==> r == Some(value * MetersPerKilometer)
    ensures Lower(unit) in ["miles", "mi"] ==> r == Some(value * MetersPerMile)
  {
    var u := Lower(unit);
    if u in ["kilometers", "km"] then Some(value * MetersPerKilometer)
    else if u in ["miles", "mi"] then Some(value * MetersPerMile)
    else None
  }

  /** The unit is read case-insensitively: lowering it first changes nothing. */
  lemma RadiusCaseInsensitive(value: real, unit: string)
    ensures RadiusMeters(value, unit) == RadiusMeters(value, Lower(unit))
  {
    LowerIdempotent(unit);
  }

  /** The parameters of the nearby-search request that the model hands to the search function. */
  datatype SearchRequest = SearchRequest(lat: real, lon: real, radiusMeters: real, placeType: string)

  /** The HTTP reply: its status code and its `results` list (empty when the key is absent). */
  datatype SearchResponse = SearchResponse(statusCode: int, results: seq<Restaurant>)

  /**
   * `find_nearby_restaurants`: no request for an invalid unit, the first
   * `RestaurantCount` results of a 200 reply, and nothing otherwise.
   */
  function FindNearbyRestaurants(lat: real, lon: real, radiusValue: real, radiusUnit: string,
                                 search: SearchRequest -> SearchResponse): (r: seq<Restaurant>)
    ensures |r| <= RestaurantCount
    ensures RadiusMeters(radiusValue, radiusUnit).None? ==> r == []
    ensures RadiusMeters(radiusValue, radiusUnit).Some? ==>
              var resp := search(SearchRequest(lat, lon, RadiusMeters(radiusValue, radiusUnit).value, "restaurant"));
              if resp.statusCode == 200
              then |r| == Min(RestaurantCount, |resp.results|) && r == resp.results[..|r|]
              else r == []
  {
    match RadiusMeters(radiusValue, radiusUnit)
    case None => []
    case Some(meters) =>
      var resp := search(SearchRequest(lat, lon, meters, "restaurant"));
      if resp.statusCode == 200 then
        if |resp.results| <= RestaurantCount then resp.results else resp.results[..RestaurantCount]
      else []
  }

  // ---------------------------------------------------------------------
  // Flavor profiles from the language model
  // ---------------------------------------------------------------------

  const FunctionName := "generate_flavor_profiles"

  const PromptHeader :=
    "You are given a list of restaurant names. Please call the function "
    + "'generate_flavor_profiles' and produce a JSON object mapping each restaurant's name "
    + "to a flavor profile with keys: 'salty', 'umami', 'spicy', 'sweet', 'sour', and 'textures'. "
    + "Each dimension is a float in [0,1], and 'textures' is an array of strings. "
    + "Only return the function call with no additional commentary.\n\nRestaurants:"

  /** The prompt's lines: the header, then one "- name" line per restaurant ("Unknown" when unnamed). */
  function PromptLines(rs: seq<Restaurant>): (lines: seq<string>)
    ensures |lines| == |rs| + 1 && lines[0] == PromptHeader
    ensures forall i :: 0 <= i < |rs| ==> lines[i + 1] == "- " + rs[i].name.GetOr("Unknown")
  {
    [PromptHeader] + seq(|rs|, i requires 0 <= i < |rs| => "- " + rs[i].name.GetOr("Unknown"))
  }

  /** `"\n".join(prompt_lines)`. */
  function Prompt(rs: seq<Restaurant>): (p: string)
    ensures StartsWith(p, PromptHeader)
  {
    JoinPieceAt(PromptLines(rs), "\n", 0);
    Join(PromptLines(rs), "\n")
  }

  /** Where the newline before the `i`-th restaurant's line sits in the prompt. */
  function LineStart(rs: seq<Restaurant>, i: nat): nat
    requires i < |rs|
  {
    Offset(PromptLines(rs), "\n", i + 1) - 1
  }

  function RestaurantLine(r: Restaurant): string {
    "\n- " + r.name.GetOr("Unknown")
  }

  // The prompt is the header followed by one newline-led "- name" line per
  // restaurant, in order and back to back, and nothing after the last one.

  /** With no restaurants the prompt is the header alone. */
  lemma PromptEmpty(rs: seq<Restaurant>)
    requires rs == []
    ensures Prompt(rs) == PromptHeader
  {
    assert PromptLines(rs) == [PromptHeader];
  }

  /** The first restaurant's line starts right after the header. */
  lemma FirstLineAfterHeader(rs: seq<Restaurant>)
    requires rs != []
    ensures LineStart(rs, 0) == |PromptHeader|
  {
    var lines := PromptLines(rs);
    assert Offset(lines, "\n", 1) == |lines[0]| + 1 + Offset(lines[1..], "\n", 0);
  }

  /** The `i`-th restaurant's line sits at its start position. */
  lemma LineAt(rs: seq<Restaurant>, i: nat)
    requires i < |rs|
    ensures OccursAt(Prompt(rs), RestaurantLine(rs[i]), LineStart(rs, i))
  {
    var lines := PromptLines(rs);
    JoinSepBefore(lines, "\n", i + 1);
    assert "\n" + lines[i + 1] == RestaurantLine(rs[i]);
  }

  /** The next restaurant's line starts where this one ends. */
  lemma LinesBackToBack(rs: seq<Restaurant>, i: nat)
    requires i + 1 < |rs|
    ensures LineStart(rs, i + 1) == LineStart(rs, i) + |RestaurantLine(rs[i])|
  {
    var lines := PromptLines(rs);
    OffsetStep(lines, "\n", i + 1);
    assert |lines[i + 1]| + 1 == |RestaurantLine(rs[i])|;
  }

  /** Nothing follows the last restaurant's line. */
  lemma LastLineEnds(rs: seq<Restaurant>)
    requires rs != []
    ensures |Prompt(rs)| == LineStart(rs, |rs| - 1) + |RestaurantLine(rs[|rs| - 1])|
  {
    var lines := PromptLines(rs);
    JoinEnds(lines, "\n");
    assert |lines[|rs|]| + 1 == |RestaurantLine(rs[|rs| - 1])|;
  }

  /**
   * The first part of the model's reply: no function call, or a call with a
   * name and, when its arguments hold one, the `profiles` mapping.
   */
  datatype ModelReply =
    | NoFunctionCall
    | FunctionCall(name: string, profiles: Option<map<string, FlavorProfile>>)

  /** `flavor_dict`: the returned profiles, used only from a call named `generate_flavor_profiles`. */
  function FlavorDict(reply: ModelReply): (d: map<string, FlavorProfile>)
    ensures d != map[] ==> reply.FunctionCall? && reply.name == FunctionName
    ensures reply.FunctionCall? && reply.name == FunctionName && reply.profiles.Some?
            ==> d == reply.profiles.value
    ensures reply.FunctionCall? && reply.name == FunctionName && reply.profiles.None? ==> d == map[]
  {
    match reply
    case NoFunctionCall => map[]
    case FunctionCall(name, profiles) =>
      if name == FunctionName then profiles.GetOr(map[]) else map[]
  }

  /** The profile attached to `r`: the entry under its name ("" when unnamed), else the fallback. */
  function ProfileFor(d: map<string, FlavorProfile>, r: Restaurant): FlavorProfile {
    if NameOf(r) in d then d[NameOf(r)] else Fallback
  }

  function WithProfile(r: Restaurant, d: map<string, FlavorProfile>): Restaurant {
    r.(flavorProfile := Some(ProfileFor(d, r)))
  }

  /** The restaurants after profile attachment: same length and order, only `flavorProfile` set. */
  function Attached(rs: seq<Restaurant>, d: map<string, FlavorProfile>): (out: seq<Restaurant>)
    ensures |out| == |rs|
    ensures forall i :: 0 <= i < |rs| ==>
              && out[i].flavorProfile.Some?
              && (NameOf(rs[i]) in d ==> out[i].flavorProfile.value == d[NameOf(rs[i])])
              && (NameOf(rs[i]) !in d ==> out[i].flavorProfile.value == Fallback)
              && out[i] == rs[i].(flavorProfile := out[i].flavorProfile)
  {
    seq(|rs|, i requires 0 <= i < |rs| => WithProfile(rs[i], d))
  }

  /** With a reply that carries no usable call, every restaurant gets the fallback profile. */
  lemma AttachedWithoutCall(rs: seq<Restaurant>, reply: ModelReply)
    requires reply.NoFunctionCall? || reply.name != FunctionName
    ensures forall r :: r in Attached(rs, FlavorDict(reply)) ==> r.flavorProfile == Some(Fallback)
  {
  }

  /**
   * `generate_flavor_profiles` after the model call: every restaurant of the
   * list is given its profile, in place.
   */
  method AttachFlavorProfiles(a: array<Restaurant>, reply: ModelReply)
    modifies a
    ensures a[..] == Attached(old(a[..]), FlavorDict(reply))
  {
    var d := FlavorDict(reply);
    var i := 0;
    while i < a.Length
      invariant 0 <= i <= a.Length
      invariant forall k :: 0 <= k < i ==> a[k] == WithProfile(old(a[k]), d)
      invariant forall k :: i <= k < a.Length ==> a[k] == old(a[k])
    {
      a[i] := WithProfile(a[i], d);
      i := i + 1;
    }
  }

  // ---------------------------------------------------------------------
  // The user profile and its CSV row
  // ---------------------------------------------------------------------

  /** A CSV cell as pandas hands it over: missing (NaN) or text. */
  datatype Cell = NaN | Str(s: string)

  /** `parse_list`: comma-separated text to its stripped, non-empty pieces in order; NaN to []. */
  function ParseList(v: Cell): (r: seq<string>)
    ensures v.NaN? ==> r == []
    ensures v.Str? ==> |r| <= Count(v.s, ',') + 1
  {
    match v
    case NaN => []
    case Str(s) => CleanListShape(s, ','); CleanList(s, ',')
  }

  /** NaN reads as no items; text reads as its non-empty, stripped, comma-free pieces in order. */
  lemma ParseListShape(v: Cell)
    ensures v.NaN? ==> ParseList(v) == []
    ensures forall x :: x in ParseList(v) ==> x != "" && IsStripped(x) && ',' !in x
    ensures v.Str? ==> Subseq(ParseList(v), StripAll(Split(v.s, ','))) && |ParseList(v)| <= Count(v.s, ',') + 1
  {
    if v.Str? {
      CleanListShape(v.s, ',');
    }
  }

  /**
   * Only blank pieces are dropped: text reads as the filter of its stripped
   * comma pieces on non-emptiness, so a repeated item is kept every time.
   */
  lemma ParseListKeepsRepeats(v: Cell)
    requires v.Str?
    ensures ParseList(v) == Filter(StripAll(Split(v.s, ',')), NonBlank)
    ensures forall x :: multiset(ParseList(v))[x] == if x == "" then 0 else multiset(StripAll(Split(v.s, ',')))[x]
  {
    CleanIsFilter(Split(v.s, ','));
    CleanCounts(Split(v.s, ','));
  }

  /** After the separator, `Split` goes on independently: a separator-free prefix is one piece. */
  lemma {:induction false} SplitConcat(a: string, b: string, sep: char)
    requires sep !in a
    ensures Split(a + [sep] + b, sep) == [a] + Split(b, sep)
  {
    if a == [] {
      assert a + [sep] + b == [sep] + b;
      assert ([sep] + b)[1..] == b;
    } else {
      SplitConcat(a[1..], b, sep);
      assert (a + [sep] + b)[1..] == a[1..] + [sep] + b;
      assert [a[0]] + a[1..] == a;
    }
  }

  lemma {:induction false} TrimLeftPadded(pad: string, x: string)
    requires AllSpace(pad) && (x == [] || !IsSpace(x[0]))
    ensures TrimLeft(pad + x) == x
  {
    if pad == [] {
      assert pad + x == x;
    } else {
      TrimLeftPadded(pad[1..], x);
      assert (pad + x)[1..] == pad[1..] + x;
    }
  }

  /** White space in front of a stripped, non-empty string is exactly what `strip` removes. */
  lemma StripPadded(pad: string, x: string)
    requires AllSpace(pad) && IsStripped(x) && x != ""
    ensures Strip(pad + x) == x
  {
    TrimLeftPadded(pad, x);
  }

  /** Items that survive a write-back: non-empty, stripped and free of commas. */
  predicate Writable(xs: seq<string>) {
    forall x :: x in xs ==> x != "" && IsStripped(x) && ',' !in x
  }

  lemma {:induction false} ParseJoinFrom(pad: string, xs: seq<string>)
    requires AllSpace(pad) && ',' !in pad
    requires Writable(xs)
    ensures Clean(Split(pad + Join(xs, ", "), ',')) == xs
    decreases |xs|
  {
    if xs == [] {
      ParseJoinEmpty(pad);
    } else if |xs| == 1 {
      assert xs[0] in xs && xs == [xs[0]];
      ParseJoinLast(pad, xs[0]);
    } else {
      assert xs[0] in xs;
      var rest := " " + Join(xs[1..], ", ");
      assert Writable(xs[1..]) by {
        assert forall x :: x in xs[1..] ==> x in xs;
      }
      assert AllSpace(" ");
      ParseJoinFrom(" ", xs[1..]);
      ParseJoinFirst(pad, xs[0], rest);
      JoinStep(pad, xs);
      assert [xs[0]] + xs[1..] == xs;
    }
  }

  lemma ParseJoinEmpty(pad: string)
    requires AllSpace(pad) && ',' !in pad
    ensures Clean(Split(pad + Join([], ", "), ',')) == []
  {
    assert pad + Join([], ", ") == pad;
    SplitAbsent(pad, ',');
    BlankStrips(pad);
  }

  lemma ParseJoinLast(pad: string, x: string)
    requires AllSpace(pad) && ',' !in pad
    requires x != "" && IsStripped(x) && ',' !in x
    ensures Clean(Split(pad + Join([x], ", "), ',')) == [x]
  {
    assert pad + Join([x], ", ") == pad + x;
    SplitAbsent(pad + x, ',');
    StripPadded(pad, x);
    CleanSingle(pad + x);
  }

  /** The first item and its padding come out as one cleaned piece, ahead of the rest. */
  lemma ParseJoinFirst(pad: string, x: string, rest: string)
    requires AllSpace(pad) && ',' !in pad
    requires x != "" && IsStripped(x) && ',' !in x
    ensures Clean(Split((pad + x) + [','] + rest, ',')) == [x] + Clean(Split(rest, ','))
  {
    SplitConcat(pad + x, rest, ',');
    CleanConcat([pad + x], Split(rest, ','));
    StripPadded(pad, x);
    CleanSingle(pad + x);
  }

  lemma JoinStep(pad: string, xs: seq<string>)
    requires |xs| >= 2
    ensures pad + Join(xs, ", ") == (pad + xs[0]) + [','] + (" " + Join(xs[1..], ", "))
  {
    var rest := Join(xs[1..], ", ");
    assert Join(xs, ", ") == xs[0] + ", " + rest;
    assert ", " == [','] + " ";
    calc {
      pad + Join(xs, ", ");
      pad + (xs[0] + ([','] + " ") + rest);
      { assert xs[0] + ([','] + " ") + rest == xs[0] + [','] + (" " + rest); }
      pad + (xs[0] + [','] + (" " + rest));
      (pad + xs[0]) + [','] + (" " + rest);
    }
  }


  /**
   * Round trip of the CSV write-back: a list written as `", ".join(xs)` is
   * read back by `parse_list` as `xs`, when its items are non-empty,
   * stripped and free of commas.
   */
  lemma ParseListJoin(xs: seq<string>)
    requires Writable(xs)
    ensures ParseList(Str(Join(xs, ", "))) == xs
  {
    ParseJoinFrom("", xs);
    assert "" + Join(xs, ", ") == Join(xs, ", ");
  }

  datatype ListColumn = TexturePreferences | DietaryRestrictions | Allergies

  /** The first CSV row: its user id, the taste columns present and the list columns present. */
  datatype CsvRow = CsvRow(userId: Option<string>, tastes: map<Taste, real>, lists: map<ListColumn, Cell>)

  /** `{taste: row.get(taste, 0) ...}`: all five tastes, 0 for a missing column. */
  function FavoriteTastes(row: CsvRow): (m: map<Taste, real>)
    ensures m.Keys == AllTastes
    ensures forall t :: t in m ==> m[t] == TasteValue(row.tastes, t)
  {
    map t | t in AllTastes :: TasteValue(row.tastes, t)
  }

  /** `parse_list(row.get(col, ""))`: a missing column reads as empty text. */
  function ListOf(row: CsvRow, col: ListColumn): (r: seq<string>)
    ensures col !in row.lists ==> r == []
    ensures col in row.lists ==> r == ParseList(row.lists[col])
  {
    ParseList(if col in row.lists then row.lists[col] else Str(""))
  }

  /** The profile dictionary that `update_user_profile` changes in place. */
  class UserProfile {
    var userId: Option<string>
    var favoriteTastes: map<Taste, real>
    var texturePreferences: seq<string>
    var dietaryRestrictions: seq<string>
    var allergies: seq<string>

    /** `get_user_profile` always fills in the five tastes, so indexing one never fails. */
    ghost predicate Valid()
      reads this
    {
      favoriteTastes.Keys == AllTastes
    }

    /** `get_user_profile` on the first CSV row. */
    constructor FromRow(row: CsvRow)
      ensures Valid()
      ensures userId == row.userId && favoriteTastes == FavoriteTastes(row)
      ensures texturePreferences == ListOf(row, TexturePreferences)
      ensures dietaryRestrictions == ListOf(row, DietaryRestrictions)
      ensures allergies == ListOf(row, Allergies)
    {
      userId := row.userId;
      favoriteTastes := FavoriteTastes(row);
      texturePreferences := ListOf(row, TexturePreferences);
      dietaryRestrictions := ListOf(row, DietaryRestrictions);
      allergies := ListOf(row, Allergies);
    }

    /**
     * `update_user_profile`: each taste named by "too <taste>" drops by 0.1
     * (not below 0), else each named by "not <taste> enough" rises by 0.1
     * (not above 1). The favorability is not used; the CSV write-back is not modelled.
     */
    method UpdateUserProfile(favorability: real, comment: string)
      requires Valid()
      modifies this
      ensures Valid()
      ensures favoriteTastes == Adjusted(old(favoriteTastes), comment)
      ensures userId == old(userId) && texturePreferences == old(texturePreferences)
      ensures dietaryRestrictions == old(dietaryRestrictions) && allergies == old(allergies)
    {
      var commentLower := Lower(comment);
      ghost var before := favoriteTastes;
      var i := 0;
      while i < |TasteOrder|
        invariant 0 <= i <= |TasteOrder|
        invariant favoriteTastes.Keys == AllTastes
        invariant forall k :: 0 <= k < |TasteOrder| ==>
                    favoriteTastes[TasteOrder[k]] == if k < i then Nudge(before[TasteOrder[k]], commentLower, TasteOrder[k])
                                                     else before[TasteOrder[k]]
        invariant userId == old(userId) && texturePreferences == old(texturePreferences)
        invariant dietaryRestrictions == old(dietaryRestrictions) && allergies == old(allergies)
      {
        var taste := TasteOrder[i];
        if Contains(commentLower, TooPhrase(taste)) {
          var oldVal := favoriteTastes[taste];
          favoriteTastes := favoriteTastes[taste := RealMax(oldVal - 0.1, 0.0)];
        } else if Contains(commentLower, NotEnoughPhrase(taste)) {
          var oldVal := favoriteTastes[taste];
          favoriteTastes := favoriteTastes[taste := RealMin(oldVal + 0.1, 1.0)];
        }
        i := i + 1;
      }
      forall t | t in AllTastes ensures favoriteTastes[t] == Adjusted(before, comment)[t] {
        assert t == TasteOrder[TasteIndex(t)];
      }
    }
  }

  // ---------------------------------------------------------------------
  // Feedback rule
  // ---------------------------------------------------------------------

  function TooPhrase(t: Taste): string { "too " + TasteName(t) }
  function NotEnoughPhrase(t: Taste): string { "not " + TasteName(t) + " enough" }

  function RealMax(a: real, b: real): real { if a >= b then a else b }
  function RealMin(a: real, b: real): real { if a <= b then a else b }

  /** One taste's new value for an already lower-cased comment. */
  function Nudge(v: real, commentLower: string, t: Taste): (r: real)
    ensures 0.0 <= v <= 1.0 ==> 0.0 <= r <= 1.0 && -0.1 <= r - v <= 0.1
  {
    if Contains(commentLower, TooPhrase(t)) then RealMax(v - 0.1, 0.0)
    else if Contains(commentLower, NotEnoughPhrase(t)) then RealMin(v + 0.1, 1.0)
    else v
  }

  /** The tastes after feedback `comment`; each taste is adjusted on its own. */
  function Adjusted(m: map<Taste, real>, comment: string): (r: map<Taste, real>)
    ensures r.Keys == m.Keys
  {
    map t | t in m :: Nudge(m[t], Lower(comment), t)
  }

  /**
   * Feedback on one taste: "too" lowers it by 0.1 down to 0 and wins over
   * "not ... enough", which raises it by 0.1 up to 1; with neither phrase the
   * value is unchanged; a value in [0, 1] stays in [0, 1].
   */
  lemma NudgeRule(v: real, comment: string, t: Taste)
    ensures var c := Lower(comment); var r := Nudge(v, c, t);
      && (Contains(c, TooPhrase(t)) ==> r >= 0.0 && (v >= 0.1 ==> r == v - 0.1) && (v <= 0.1 ==> r == 0.0))
      && (!Contains(c, TooPhrase(t)) && Contains(c, NotEnoughPhrase(t)) ==>
            r <= 1.0 && (v <= 0.9 ==> r == v + 0.1) && (v >= 0.9 ==> r == 1.0))
      && (!Contains(c, TooPhrase(t)) && !Contains(c, NotEnoughPhrase(t)) ==> r == v)
      && (0.0 <= v <= 1.0 ==> 0.0 <= r <= 1.0)
  {
  }

  /** Feedback keeps a profile whose tastes lie in [0, 1] inside [0, 1]. */
  lemma AdjustedStaysInUnit(m: map<Taste, real>, comment: string)
    requires InUnit(m)
    ensures InUnit(Adjusted(m, comment))
  {
    forall t ensures 0.0 <= TasteValue(Adjusted(m, comment), t) <= 1.0 {
      if t in m {
        assert 0.0 <= TasteValue(m, t) <= 1.0;
        NudgeRule(m[t], comment, t);
      }
    }
  }

  /** A comment that names no taste leaves every taste as it was. */
  lemma AdjustedUnchanged(m: map<Taste, real>, comment: string)
    requires forall t :: !Contains(Lower(comment), TooPhrase(t)) && !Contains(Lower(comment), NotEnoughPhrase(t))
    ensures Adjusted(m, comment) == m
  {
  }

  // ---------------------------------------------------------------------
  // Filters
  // ---------------------------------------------------------------------

  function LowerAll(xs: seq<string>): (r: seq<string>)
    ensures |r| == |xs| && forall i :: 0 <= i < |xs| ==> r[i] == Lower(xs[i])
  {
    seq(|xs|, i requires 0 <= i < |xs| => Lower(xs[i]))
  }

  /** The restaurant's name equals some tried entry, ignoring case. */
  predicate WasTried(r: Restaurant, tried: seq<string>) {
    Lower(NameOf(r)) in LowerAll(tried)
  }

  /** The survivors of the "already tried" filter, in their input order. */
  function FilterTried(rs: seq<Restaurant>, tried: seq<string>): (out: seq<Restaurant>)
    ensures forall r :: r in out ==> forall t :: t in tried ==> Lower(NameOf(r)) != Lower(t)
    ensures forall r :: r in rs && !WasTried(r, tried) ==> r in out
    ensures Subseq(out, rs)
    ensures forall r :: multiset(out)[r] == if WasTried(r, tried) then 0 else multiset(rs)[r]
  {
    var out := Filter(rs, r => !WasTried(r, tried));
    assert forall r, t :: r in out && t in tried ==> Lower(t) in LowerAll(tried);
    out
  }

  const GlutenFree := "gluten-free"

  predicate MentionsBurger(r: Restaurant) {
    Contains(Lower(NameOf(r)), "burger")
  }

  /** The dietary rule: a gluten-free user loses every restaurant whose name mentions "burger". */
  function FilterDietary(rs: seq<Restaurant>, restrictions: seq<string>): (out: seq<Restaurant>)
    ensures GlutenFree in restrictions ==> forall r :: r in out ==> !MentionsBurger(r)
    ensures forall r :: r in rs && (GlutenFree !in restrictions || !MentionsBurger(r)) ==> r in out
    ensures GlutenFree !in restrictions ==> out == rs
    ensures Subseq(out, rs)
    ensures forall r :: multiset(out)[r] == if GlutenFree in restrictions && MentionsBurger(r) then 0 else multiset(rs)[r]
  {
    SubseqRefl(rs);
    if GlutenFree in restrictions then Filter(rs, r => !MentionsBurger(r)) else rs
  }

  // ---------------------------------------------------------------------
  // Similarity
  // ---------------------------------------------------------------------

  function Abs(x: real): real { if x < 0.0 then -x else x }

  function Closeness(user: map<Taste, real>, rest: map<Taste, real>, t: Taste): real {
    1.0 - Abs(TasteValue(user, t) - TasteValue(rest, t))
  }

  /** The running score of the loop after the tastes `ts`. */
  function ScoreSum(user: map<Taste, real>, rest: map<Taste, real>, ts: seq<Taste>): real {
    if ts == [] then 0.0
    else ScoreSum(user, rest, ts[..|ts| - 1]) + Closeness(user, rest, ts[|ts| - 1])
  }

  /** The mean closeness over the five tastes. */
  function SimilarityOf(user: map<Taste, real>, rest: map<Taste, real>): (r: real)
    ensures r <= 1.0
  {
    ScoreSumBounds(user, rest, TasteOrder);
    ScoreSum(user, rest, TasteOrder) / 5.0
  }

  /** `similarity(row)`: the score loop over the five tastes, divided by 5. */
  method Similarity(user: map<Taste, real>, rest: map<Taste, real>) returns (score: real)
    ensures score == SimilarityOf(user, rest)
  {
    var sum := 0.0;
    var i := 0;
    while i < |TasteOrder|
      invariant 0 <= i <= |TasteOrder|
      invariant sum == ScoreSum(user, rest, TasteOrder[..i])
    {
      var taste := TasteOrder[i];
      assert TasteOrder[..i + 1][..i] == TasteOrder[..i];
      sum := sum + (1.0 - Abs(TasteValue(user, taste) - TasteValue(rest, taste)));
      i := i + 1;
    }
    assert TasteOrder[..i] == TasteOrder;
    score := sum / 5.0;
  }

  lemma {:induction false} ScoreSumBounds(user: map<Taste, real>, rest: map<Taste, real>, ts: seq<Taste>)
    ensures ScoreSum(user, rest, ts) <= |ts| as real
    ensures InUnit(user) && InUnit(rest) ==> 0.0 <= ScoreSum(user, rest, ts)
    ensures ScoreSum(user, rest, ts) == |ts| as real <==>
              forall k :: 0 <= k < |ts| ==> TasteValue(user, ts[k]) == TasteValue(rest, ts[k])
  {
    if ts != [] {
      var init := ts[..|ts| - 1];
      ScoreSumBounds(user, rest, init);
      var last := ts[|ts| - 1];
      assert InUnit(user) && InUnit(rest) ==> 0.0 <= Closeness(user, rest, last);
      assert forall k :: 0 <= k < |init| ==> init[k] == ts[k];
    }
  }

  /** With tastes in [0, 1] on both sides the similarity is in [0, 1]. */
  lemma SimilarityBounds(user: map<Taste, real>, rest: map<Taste, real>)
    requires InUnit(user) && InUnit(rest)
    ensures 0.0 <= SimilarityOf(user, rest) <= 1.0
  {
    ScoreSumBounds(user, rest, TasteOrder);
  }

  /** The similarity is exactly 1 iff the two sides agree on every taste. */
  lemma SimilarityOneIffEqual(user: map<Taste, real>, rest: map<Taste, real>)
    ensures SimilarityOf(user, rest) == 1.0 <==> forall t :: TasteValue(user, t) == TasteValue(rest, t)
  {
    ScoreSumBounds(user, rest, TasteOrder);
    forall t | forall k :: 0 <= k < |TasteOrder| ==> TasteValue(user, TasteOrder[k]) == TasteValue(rest, TasteOrder[k])
      ensures TasteValue(user, t) == TasteValue(rest, t)
    {
      assert t == TasteOrder[TasteIndex(t)];
    }
  }

  /** The score does not depend on which side is the user. */
  lemma {:induction false} ScoreSumSymmetric(user: map<Taste, real>, rest: map<Taste, real>, ts: seq<Taste>)
    ensures ScoreSum(user, rest, ts) == ScoreSum(rest, user, ts)
  {
    if ts != [] {
      ScoreSumSymmetric(user, rest, ts[..|ts| - 1]);
    }
  }

  // ---------------------------------------------------------------------
  // Records, ranking and the pipeline
  // ---------------------------------------------------------------------

  /** One DataFrame row before scoring. */
  datatype Record = Record(
    restaurantId: Option<string>,
    name: Option<string>,
    vicinity: Option<string>,
    tastes: map<Taste, real>,
    textures: string)

  /** A scored row. */
  datatype Row = Row(record: Record, similarity: real)

  /** The record built from a restaurant: absent tastes become 0, textures are joined with ", ". */
  function ToRecord(r: Restaurant): (rec: Record)
    ensures rec.tastes.Keys == AllTastes
    ensures forall t :: TasteValue(rec.tastes, t) == TasteValue(r.flavorProfile.GetOr(FlavorProfile(map[], [])).tastes, t)
  {
    var flavor := r.flavorProfile.GetOr(FlavorProfile(map[], []));
    assert forall t :: t in AllTastes by {
      forall t ensures t in AllTastes { AllTastesComplete(t); }
    }
    Record(r.id, r.name, r.vicinity,
           map t | t in AllTastes :: TasteValue(flavor.tastes, t),
           Join(flavor.textures, ", "))
  }

  function Score(user: map<Taste, real>, rec: Record): Row {
    Row(rec, SimilarityOf(user, rec.tastes))
  }

  predicate SortedDesc(rows: seq<Row>) {
    forall i, j :: 0 <= i < j < |rows| ==> rows[j].similarity <= rows[i].similarity
  }

  function Insert(x: Row, s: seq<Row>): (r: seq<Row>)
    ensures multiset(r) == multiset(s) + multiset{x}
    ensures |r| == |s| + 1
  {
    if s == [] then [x]
    else if x.similarity >= s[0].similarity then [x] + s
    else
      assert s == [s[0]] + s[1..];
      [s[0]] + Insert(x, s[1..])
  }

  /** Inserting adds `x` and nothing else. */
  lemma {:induction false} InsertMembers(x: Row, s: seq<Row>)
    ensures forall y :: y in Insert(x, s) ==> y == x || y in s
  {
    if s != [] && x.similarity < s[0].similarity {
      InsertMembers(x, s[1..]);
      assert Insert(x, s) == [s[0]] + Insert(x, s[1..]);
      assert forall y :: y in s[1..] ==> y in s;
    }
  }

  /** A sequence that starts with its largest element and is sorted after it is sorted. */
  lemma ConsSorted(h: Row, t: seq<Row>)
    requires SortedDesc(t)
    requires forall y :: y in t ==> y.similarity <= h.similarity
    ensures SortedDesc([h] + t)
  {
    var r := [h] + t;
    forall i, j | 0 <= i < j < |r| ensures r[j].similarity <= r[i].similarity {
      assert r[j] == t[j - 1];
      if i > 0 {
        assert r[i] == t[i - 1];
      } else {
        assert t[j - 1] in t;
      }
    }
  }

  lemma {:induction false} InsertSorted(x: Row, s: seq<Row>)
    requires SortedDesc(s)
    ensures SortedDesc(Insert(x, s))
  {
    if s == [] {
    } else if x.similarity >= s[0].similarity {
      forall y | y in s ensures y.similarity <= x.similarity {
        var j :| 0 <= j < |s| && s[j] == y;
      }
      ConsSorted(x, s);
    } else {
      var tail := Insert(x, s[1..]);
      assert SortedDesc(s[1..]);
      InsertSorted(x, s[1..]);
      InsertMembers(x, s[1..]);
      forall y | y in tail ensures y.similarity <= s[0].similarity {
        if y != x {
          var j :| 0 <= j < |s[1..]| && s[1..][j] == y;
          assert s[j + 1] == y;
        }
      }
      ConsSorted(s[0], tail);
    }
  }

  /** The rows in non-increasing order of similarity; a permutation of the input. */
  function SortBySimilarity(rows: seq<Row>): (r: seq<Row>)
    ensures SortedDesc(r)
    ensures multiset(r) == multiset(rows)
  {
    if rows == [] then []
    else
      assert rows == [rows[0]] + rows[1..];
      var rest := SortBySimilarity(rows[1..]);
      InsertSorted(rows[0], rest);
      Insert(rows[0], rest)
  }

  /** `DataFrame.head(n)`: the first n rows; a negative n drops the last |n| rows instead. */
  function Head(rows: seq<Row>, n: int): (r: seq<Row>)
    ensures n >= 0 ==> |r| == Min(n, |rows|)
    ensures n < 0 ==> |r| == Max(|rows| + n, 0)
    ensures r == rows[..|r|]
  {
    if n >= 0 then rows[..Min(n, |rows|)] else rows[..Max(|rows| + n, 0)]
  }

  /** `sort_values(...).head(n)`: rows of the input, none more often than there. */
  function TopN(rows: seq<Row>, n: int): (r: seq<Row>)
    ensures multiset(r) <= multiset(rows)
  {
    var sorted := SortBySimilarity(rows);
    var r := Head(sorted, n);
    assert sorted == r + sorted[|r|..];
    r
  }

  /**
   * Top-n selection: for n >= 0 it keeps min(n, |rows|) rows, best first,
   * taken from the input, and every row it leaves out scores no higher than
   * any row it keeps.
   */
  lemma TopNSelects(rows: seq<Row>, n: int)
    requires n >= 0
    ensures var top := TopN(rows, n);
      && |top| == Min(n, |rows|)
      && SortedDesc(top)
      && multiset(top) <= multiset(rows)
      && forall x, y :: x in top && y in multiset(rows) - multiset(top) ==> y.similarity <= x.similarity
  {
    var sorted := SortBySimilarity(rows);
    var top := TopN(rows, n);
    var k := |top|;
    assert top == sorted[..k];
    SplitMultiset(sorted, k);
    PrefixDominates(sorted, k);
  }

  lemma SplitMultiset(s: seq<Row>, k: nat)
    requires k <= |s|
    ensures multiset(s) == multiset(s[..k]) + multiset(s[k..])
    ensures multiset(s) - multiset(s[..k]) == multiset(s[k..])
  {
    assert s == s[..k] + s[k..];
  }

  /** In a sorted sequence every element of a prefix scores at least every element after it. */
  lemma PrefixDominates(s: seq<Row>, k: nat)
    requires SortedDesc(s) && k <= |s|
    ensures forall x, y :: x in s[..k] && y in s[k..] ==> y.similarity <= x.similarity
  {
    forall x, y | x in s[..k] && y in s[k..] ensures y.similarity <= x.similarity {
      var i :| 0 <= i < k && s[i] == x;
      var j :| k <= j < |s| && s[j] == y;
    }
  }

  /** The restaurants left after both filters: a subsequence of the input. */
  function Candidates(restrictions: seq<string>, restaurants: seq<Restaurant>, tried: seq<string>): (r: seq<Restaurant>)
    ensures Subseq(r, restaurants) && |r| <= |restaurants|
  {
    var tried1 := FilterTried(restaurants, tried);
    var r := FilterDietary(tried1, restrictions);
    SubseqBounds(tried1, restaurants);
    SubseqBounds(r, tried1);
    SubseqTrans(r, tried1, restaurants);
    r
  }

  function ScoreAll(user: map<Taste, real>, rs: seq<Restaurant>): (rows: seq<Row>)
    ensures |rows| == |rs|
    ensures forall i :: 0 <= i < |rs| ==> rows[i] == Score(user, ToRecord(rs[i]))
  {
    seq(|rs|, i requires 0 <= i < |rs| => Score(user, ToRecord(rs[i])))
  }

  /**
   * The rows `generate_recommendations` returns, or `None` for the
   * `ValueError` pandas raises when no restaurant survives the filters: the
   * frame built from no records has no columns, and a frame without columns
   * cannot be assigned to its `similarity` column.
   */
  function Recommendations(user: map<Taste, real>, restrictions: seq<string>, restaurants: seq<Restaurant>,
                           tried: seq<string>, reply: ModelReply, n: int): (r: Option<seq<Row>>)
    ensures r.None? <==> Candidates(restrictions, restaurants, tried) == []
  {
    var cands := Candidates(restrictions, restaurants, tried);
    if cands == [] then None
    else Some(TopN(ScoreAll(user, Attached(cands, FlavorDict(reply))), n))
  }

  /**
   * The candidates come from the input in order; none was tried (ignoring
   * case) and, for a gluten-free user, none mentions "burger"; every other
   * restaurant of the input is a candidate.
   */
  lemma CandidatesSound(restrictions: seq<string>, restaurants: seq<Restaurant>, tried: seq<string>)
    ensures var cands := Candidates(restrictions, restaurants, tried);
      && Subseq(cands, restaurants)
      && (forall r :: r in cands ==>
            && r in restaurants
            && (forall t :: t in tried ==> Lower(NameOf(r)) != Lower(t))
            && (GlutenFree in restrictions ==> !MentionsBurger(r)))
      && (forall r :: r in restaurants && !WasTried(r, tried) && (GlutenFree !in restrictions || !MentionsBurger(r))
            ==> r in cands)
      && (forall r :: multiset(cands)[r] ==
            if WasTried(r, tried) || (GlutenFree in restrictions && MentionsBurger(r)) then 0 else multiset(restaurants)[r])
  {
    var tried1 := FilterTried(restaurants, tried);
    var cands := Candidates(restrictions, restaurants, tried);
    SubseqBounds(tried1, restaurants);
    SubseqBounds(cands, tried1);
  }

  /**
   * What `generate_recommendations` promises: an error exactly when no
   * restaurant is a candidate, and otherwise min(n, |candidates|) rows, best
   * first, each one a candidate scored with its attached profile.
   */
  lemma RecommendationsSound(user: map<Taste, real>, restrictions: seq<string>, restaurants: seq<Restaurant>,
                             tried: seq<string>, reply: ModelReply, n: int)
    requires n >= 0
    ensures Recommendations(user, restrictions, restaurants, tried, reply, n).None?
            <==> Candidates(restrictions, restaurants, tried) == []
    ensures var out := Recommendations(user, restrictions, restaurants, tried, reply, n);
      out.Some? ==> |out.value| == Min(n, |Candidates(restrictions, restaurants, tried)|) && SortedDesc(out.value)
    ensures var out := Recommendations(user, restrictions, restaurants, tried, reply, n);
      out.Some? ==> forall row :: row in out.value ==>
        exists r :: r in Candidates(restrictions, restaurants, tried) && row == Score(user, ToRecord(WithProfile(r, FlavorDict(reply))))
  {
    var cands := Candidates(restrictions, restaurants, tried);
    var d := FlavorDict(reply);
    var rows := ScoreAll(user, Attached(cands, d));
    TopNShape(rows, n);
    TopNFromRows(rows, n);
    ScoredCandidates(user, cands, d);
  }

  /** The top-n rows are min(n, |rows|) rows, best first. */
  lemma TopNShape(rows: seq<Row>, n: int)
    requires n >= 0
    ensures |TopN(rows, n)| == Min(n, |rows|) && SortedDesc(TopN(rows, n))
  {
    var sorted := SortBySimilarity(rows);
    assert |multiset(sorted)| == |multiset(rows)|;
    var top := TopN(rows, n);
    forall i, j | 0 <= i < j < |top| ensures top[j].similarity <= top[i].similarity {
      assert top[i] == sorted[i] && top[j] == sorted[j];
    }
  }

  /** Every scored row is a candidate scored with its attached profile. */
  lemma ScoredCandidates(user: map<Taste, real>, cands: seq<Restaurant>, d: map<string, FlavorProfile>)
    ensures forall row :: row in ScoreAll(user, Attached(cands, d)) ==>
      exists r :: r in cands && row == Score(user, ToRecord(WithProfile(r, d)))
  {
    var rows := ScoreAll(user, Attached(cands, d));
    forall row | row in rows
      ensures exists r :: r in cands && row == Score(user, ToRecord(WithProfile(r, d)))
    {
      var i :| 0 <= i < |rows| && rows[i] == row;
      assert row == Score(user, ToRecord(WithProfile(cands[i], d)));
    }
  }

  /** The top-n rows are rows of the input. */
  lemma TopNFromRows(rows: seq<Row>, n: int)
    ensures forall x :: x in TopN(rows, n) ==> x in rows
  {
    var sorted := SortBySimilarity(rows);
    forall x | x in TopN(rows, n) ensures x in rows {
      assert x in sorted;
      assert x in multiset(sorted);
    }
  }

  /** A profile whose tastes lie in [0, 1] gives a record whose tastes do too. */
  lemma RecordInUnit(r: Restaurant)
    requires r.flavorProfile.Some? && InUnit(r.flavorProfile.value.tastes)
    ensures InUnit(ToRecord(r).tastes)
  {
    var rec := ToRecord(r);
    forall t ensures 0.0 <= TasteValue(rec.tastes, t) <= 1.0 {
      assert TasteValue(rec.tastes, t) == TasteValue(r.flavorProfile.value.tastes, t);
    }
  }

  /** Scoring restaurants whose attached tastes lie in [0, 1] gives similarities in [0, 1]. */
  lemma ScoresInUnit(user: map<Taste, real>, prof: seq<Restaurant>)
    requires InUnit(user)
    requires forall i :: 0 <= i < |prof| ==> prof[i].flavorProfile.Some? && InUnit(prof[i].flavorProfile.value.tastes)
    ensures forall row :: row in ScoreAll(user, prof) ==> 0.0 <= row.similarity <= 1.0
  {
    var rows := ScoreAll(user, prof);
    forall i | 0 <= i < |rows| ensures 0.0 <= rows[i].similarity <= 1.0 {
      RecordInUnit(prof[i]);
      SimilarityBounds(user, ToRecord(prof[i]).tastes);
    }
  }

  /** When every profile involved lies in [0, 1], so does every recommendation's similarity. */
  lemma RecommendationsScoresInUnit(user: map<Taste, real>, restrictions: seq<string>, restaurants: seq<Restaurant>,
                                    tried: seq<string>, reply: ModelReply, n: int)
    requires InUnit(user)
    requires forall k :: k in FlavorDict(reply) ==> InUnit(FlavorDict(reply)[k].tastes)
    ensures var out := Recommendations(user, restrictions, restaurants, tried, reply, n);
      out.Some? ==> forall row :: row in out.value ==> 0.0 <= row.similarity <= 1.0
  {
    var cands := Candidates(restrictions, restaurants, tried);
    if cands != [] {
      var prof := Attached(cands, FlavorDict(reply));
      assert InUnit(Fallback.tastes);
      ScoresInUnit(user, prof);
      TopNFromRows(ScoreAll(user, prof), n);
    }
  }

  /** The filtered restaurants are copied into a buffer and given their profiles there. */
  method ProfileCandidates(filtered: seq<Restaurant>, reply: ModelReply) returns (profiled: seq<Restaurant>)
    ensures profiled == Attached(filtered, FlavorDict(reply))
  {
    var a := new Restaurant[|filtered|](i requires 0 <= i < |filtered| => filtered[i]);
    assert a[..] == filtered;
    AttachFlavorProfiles(a, reply);
    profiled := a[..];
  }

  /** The loop that builds one record per restaurant. */
  method BuildRecords(profiled: seq<Restaurant>) returns (records: seq<Record>)
    ensures |records| == |profiled|
    ensures forall k :: 0 <= k < |profiled| ==> records[k] == ToRecord(profiled[k])
  {
    records := [];
    var i := 0;
    while i < |profiled|
      invariant 0 <= i <= |profiled|
      invariant |records| == i
      invariant forall k :: 0 <= k < i ==> records[k] == ToRecord(profiled[k])
    {
      records := records + [ToRecord(profiled[i])];
      i := i + 1;
    }
  }

  /** The `similarity` column: each record scored against the user's tastes. */
  method ScoreRecords(user: map<Taste, real>, records: seq<Record>) returns (rows: seq<Row>)
    ensures |rows| == |records|
    ensures forall k :: 0 <= k < |records| ==> rows[k] == Score(user, records[k])
  {
    rows := [];
    var j := 0;
    while j < |records|
      invariant 0 <= j <= |records|
      invariant |rows| == j
      invariant forall k :: 0 <= k < j ==> rows[k] == Score(user, records[k])
    {
      var score := Similarity(user, records[j].tastes);
      rows := rows + [Row(records[j], score)];
      j := j + 1;
    }
  }

  /**
   * `generate_recommendations` on a user profile: the filters, the profile
   * attachment on the filtered list, the record loop, the similarity column
   * and the sorted head.
   */
  method GenerateRecommendations(profile: UserProfile, restaurants: seq<Restaurant>, tried: seq<string>,
                                 reply: ModelReply, n: int) returns (df: Option<seq<Row>>)
    ensures df == Recommendations(profile.favoriteTastes, profile.dietaryRestrictions, restaurants, tried, reply, n)
  {
    var user := profile.favoriteTastes;
    var filtered := FilterTried(restaurants, tried);
    filtered := FilterDietary(filtered, profile.dietaryRestrictions);
    var profiled := ProfileCandidates(filtered, reply);
    var records := BuildRecords(profiled);
    var rows := ScoreRecords(user, records);
    assert rows == ScoreAll(user, profiled);
    if |records| == 0 {
      // `df["similarity"] = ...` on a frame without columns raises ValueError
      df := None;
    } else {
      df := Some(TopN(rows, n));
    }
  }
}
