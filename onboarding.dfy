/**
 * The onboarding form: parsing the three text areas into lists, the
 * validation of the favourites list, and the state changes around the
 * profile-creation request.
 */
module Onboarding {
  import opened Wrappers
  import opened Seqs
  import opened Text
  import opened AppShell

  /** `text.split('\n').map(trim).filter(item => item)`. */
  function ParseLines(text: string): (r: seq<string>)
    ensures |r| <= Count(text, '\n') + 1
  {
    CleanListShape(text, '\n');
    CleanList(text, '\n')
  }

  /** Each item is non-empty, trimmed and a single line; the lines keep their order and no more items arise than lines. */
  lemma ParseLinesShape(text: string)
    ensures |ParseLines(text)| <= Count(text, '\n') + 1
    ensures forall x :: x in ParseLines(text) ==> x != "" && IsStripped(x) && '\n' !in x
    ensures Subseq(ParseLines(text), StripAll(Split(text, '\n')))
  {
    CleanListShape(text, '\n');
  }

  /** Every line that is not blank appears, trimmed, among the parsed items. */
  lemma ParseLinesComplete(text: string)
    ensures forall line :: line in Split(text, '\n') && Strip(line) != "" ==> Strip(line) in ParseLines(text)
    ensures ParseLines(text) == Filter(StripAll(Split(text, '\n')), NonBlank)
    ensures forall x :: multiset(ParseLines(text))[x] == if x == "" then 0 else multiset(StripAll(Split(text, '\n')))[x]
  {
    CleanComplete(Split(text, '\n'));
    CleanIsFilter(Split(text, '\n'));
    CleanCounts(Split(text, '\n'));
  }

  /** Parsing yields no items exactly when every line is blank. */
  lemma ParseLinesEmpty(text: string)
    ensures ParseLines(text) == [] <==> forall line :: line in Split(text, '\n') ==> Strip(line) == ""
  {
    CleanEmpty(Split(text, '\n'));
  }

  /** A single non-blank line parses to that line, trimmed. */
  lemma ParseSingleLine(text: string)
    requires '\n' !in text && Strip(text) != ""
    ensures ParseLines(text) == [Strip(text)]
  {
    CleanListSingle(text, '\n');
  }

  const EmptyFavoritesError := "Please enter at least one favorite food."
  const FailureError := "Failed to create profile. Please try again."
  const DefaultUserId := "testUser"
  const Destination := "/dashboard"

  /** The JSON body of the profile-creation request. */
  datatype RequestBody = RequestBody(favorites: seq<string>, dietaryRestrictions: seq<string>, allergies: seq<string>)

  datatype Request = Post(url: string, body: RequestBody)

  /** The body sent for the three text areas: exactly the parsed lists. */
  function BodyFor(favoritesText: string, dietaryText: string, allergiesText: string): (b: RequestBody)
    ensures |b.favorites| <= Count(favoritesText, '\n') + 1
    ensures |b.dietaryRestrictions| <= Count(dietaryText, '\n') + 1
    ensures |b.allergies| <= Count(allergiesText, '\n') + 1
  {
    RequestBody(ParseLines(favoritesText), ParseLines(dietaryText), ParseLines(allergiesText))
  }

  /** Only the favourites list is required: blank restrictions and allergies still make a valid body. */
  lemma OnlyFavoritesRequired(favoritesText: string, dietaryText: string, allergiesText: string)
    requires ParseLines(favoritesText) != []
    requires forall line :: line in Split(dietaryText, '\n') ==> Strip(line) == ""
    requires forall line :: line in Split(allergiesText, '\n') ==> Strip(line) == ""
    ensures var b := BodyFor(favoritesText, dietaryText, allergiesText);
      b.favorites != [] && b.dietaryRestrictions == [] && b.allergies == []
  {
    ParseLinesEmpty(dietaryText);
    ParseLinesEmpty(allergiesText);
  }

  /** The id the form uses: the stored one when truthy, otherwise the placeholder. */
  function FormUserId(storage: map<string, string>): (u: string)
    ensures u != ""
    ensures Truthy(GetItem(storage, "userId")) ==> u == storage["userId"]
  {
    if Truthy(GetItem(storage, "userId")) then storage["userId"] else DefaultUserId
  }

  class OnboardingForm {
    const userId: string
    var loading: bool
    var error: string
    /** The requests sent to the backend so far. */
    var requests: seq<Request>
    /** The path passed to `navigate`, once it has been called. */
    var navigatedTo: Option<string>

    constructor (app: App)
      ensures userId == FormUserId(app.storage)
      ensures !loading && error == "" && requests == [] && navigatedTo == None
    {
      userId := FormUserId(app.storage);
      loading := false;
      error := "";
      requests := [];
      navigatedTo := None;
    }

    /**
     * The submit handler. `postSucceeds` is the outcome of the request,
     * which the model does not perform.
     */
    method HandleSubmit(app: App, favoritesText: string, dietaryText: string, allergiesText: string, postSucceeds: bool)
      modifies this, app
      ensures app.userId == old(app.userId)
      ensures ParseLines(favoritesText) == [] ==>
        error == EmptyFavoritesError && loading == old(loading) && requests == old(requests)
        && navigatedTo == old(navigatedTo) && app.storage == old(app.storage) && app.onboarded == old(app.onboarded)
      ensures ParseLines(favoritesText) != [] ==>
        !loading
        && requests == old(requests) + [Post("/onboarding/" + userId, BodyFor(favoritesText, dietaryText, allergiesText))]
      ensures ParseLines(favoritesText) != [] && postSucceeds ==>
        error == "" && navigatedTo == Some(Destination) && app.onboarded
        && app.storage == old(app.storage)["onboarded" := "true"]["userId" := userId]
      ensures ParseLines(favoritesText) != [] && !postSucceeds ==>
        error == FailureError && navigatedTo == old(navigatedTo)
        && app.storage == old(app.storage) && app.onboarded == old(app.onboarded)
    {
      var favorites := ParseLines(favoritesText);
      var dietaryRestrictions := ParseLines(dietaryText);
      var allergies := ParseLines(allergiesText);
      if favorites == [] {
        error := EmptyFavoritesError;
        return;
      }
      loading := true;
      error := "";
      var body := RequestBody(favorites, dietaryRestrictions, allergies);
      requests := requests + [Post("/onboarding/" + userId, body)];
      if postSucceeds {
        app.SetItem("onboarded", "true");
        app.SetItem("userId", userId);
        app.SetOnboarded(true);
        navigatedTo := Some(Destination);
      } else {
        error := FailureError;
      }
      loading := false;
    }
  }

  /** After a successful submit the re-synchronised app state lets the user past the guard to the home page. */
  lemma SuccessReachesHome(storage: map<string, string>, userId: Option<string>, formUserId: string)
    requires formUserId != ""
    ensures var s := Synced(userId, false, storage["onboarded" := "true"]["userId" := formUserId]);
      s == (Some(formUserId), true)
      && Render(Destination, s.0, s.1) == Layout(true, NavigateTo("/"), true)
      && Render("/", s.0, s.1) == Layout(true, Show(Recommendations), true)
  {
    var st := storage["onboarded" := "true"]["userId" := formUserId];
    assert GetItem(st, "userId") == Some(formUserId);
    assert GetItem(st, "onboarded") == Some("true");
    assert ProtectedRoute(Destination).None? by {
      AppShell.ParamNotShort(Destination, "/restaurant/");
      AppShell.ParamNotShort(Destination, "/recipe/");
    }
  }
}
