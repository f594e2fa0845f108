/**
 * The recommendations screen: the cuisine filter bar, the list it selects,
 * the empty-state panel, and the star row and expand toggle of each card.
 */
module RecommendationsScreen {
  import opened Seqs

  /** A recommendation as the screen reads it. */
  datatype Recommendation = Recommendation(id: string, name: string, cuisine: string, rating: real, topDishes: seq<string>)

  const All := "All"
  const Filters: seq<string> := ["All", "Thai", "Mexican", "Indian", "American"]

  // ---------------------------------------------------------------------
  // Cuisine filter
  // ---------------------------------------------------------------------

  /**
   * `filteredRecommendations`: with 'All' the list unchanged; with any other
   * filter only that cuisine, all of it, in the original order.
   */
  function Shown(recs: seq<Recommendation>, active: string): (r: seq<Recommendation>)
    ensures active == All ==> r == recs
    ensures active != All ==> forall x :: x in r ==> x.cuisine == active && x in recs
    ensures active != All ==> forall x :: x in recs && x.cuisine == active ==> x in r
    ensures Subseq(r, recs)
    ensures forall x :: multiset(r)[x] == if active == All || x.cuisine == active then multiset(recs)[x] else 0
  {
    if active == All then SubseqRefl(recs); recs
    else Filter(recs, (x: Recommendation) => x.cuisine == active)
  }

  // ---------------------------------------------------------------------
  // List or empty state
  // ---------------------------------------------------------------------

  datatype Body = Cards(cards: seq<Recommendation>) | EmptyPanel(message: string, showAllButton: bool)

  const NoneFound := "No recommendations found"
  const NoneForProfile := "We couldn't find any recommendations based on your taste profile."

  function NoneOfCuisine(active: string): string {
    "No " + active + " restaurants found that match your preferences."
  }

  /** The cards, or the "No recommendations found" panel with its message and optional reset button. */
  function BodyFor(recs: seq<Recommendation>, active: string): (b: Body)
    ensures b.Cards? ==> b.cards != [] && Subseq(b.cards, recs)
    ensures active == All && recs != [] ==> b == Cards(recs)
  {
    var shown := Shown(recs, active);
    if |shown| > 0 then Cards(shown)
    else EmptyPanel(if active == All then NoneForProfile else NoneOfCuisine(active), active != All)
  }

  /** The panel replaces the cards exactly when nothing is shown; its reset button exactly when a cuisine is selected. */
  lemma EmptyStateRule(recs: seq<Recommendation>, active: string)
    ensures BodyFor(recs, active).EmptyPanel? <==> Shown(recs, active) == []
    ensures BodyFor(recs, active).Cards? ==> BodyFor(recs, active).cards == Shown(recs, active)
    ensures BodyFor(recs, active).EmptyPanel? ==> (BodyFor(recs, active).showAllButton <==> active != All)
  {
  }

  /** With 'All' the panel appears only for an empty list. */
  lemma EmptyOnlyWithoutRecommendations(recs: seq<Recommendation>)
    ensures BodyFor(recs, All).EmptyPanel? <==> recs == []
    ensures BodyFor(recs, All).EmptyPanel? ==> !BodyFor(recs, All).showAllButton
  {
  }

  // ---------------------------------------------------------------------
  // Filter bar
  // ---------------------------------------------------------------------

  datatype FilterButton = FilterButton(title: string, active: bool)

  /** The filter bar: one button per filter, marked when it is the active one. */
  function Buttons(active: string): (bs: seq<FilterButton>)
    ensures |bs| == |Filters|
    ensures forall k :: 0 <= k < |Filters| ==> bs[k] == FilterButton(Filters[k], Filters[k] == active)
  {
    seq(|Filters|, k requires 0 <= k < |Filters| => FilterButton(Filters[k], Filters[k] == active))
  }

  /** For a filter from the list, exactly one button is marked, and it is that filter's. */
  lemma ExactlyOneActive(active: string)
    requires active in Filters
    ensures exists k :: 0 <= k < |Filters| && Buttons(active)[k].active && Buttons(active)[k].title == active
    ensures forall i, j :: 0 <= i < j < |Filters| ==> !(Buttons(active)[i].active && Buttons(active)[j].active)
  {
    var k :| 0 <= k < |Filters| && Filters[k] == active;
    assert Buttons(active)[k].active;
  }

  /** The screen's `activeFilter` state. */
  class FilterState {
    var active: string

    ghost predicate Valid()
      reads this
    {
      active in Filters
    }

    constructor ()
      ensures active == All && Valid()
    {
      active := All;
    }

    /** A filter button's handler. */
    method Press(filter: string)
      modifies this
      ensures active == filter
      ensures filter in Filters ==> Valid()
    {
      active := filter;
    }

    /** The empty panel's "Show all recommendations" handler. */
    method ShowAll()
      modifies this
      ensures active == All && Valid()
    {
      active := All;
    }
  }

  // ---------------------------------------------------------------------
  // Restaurant card
  // ---------------------------------------------------------------------

  /** The star row; `Array(n)` throws a RangeError unless `n` is a valid array length. */
  datatype StarRow = Stars(count: nat) | RangeError

  const MaxArrayLength := 0x1_0000_0000 - 1

  /** `floor(rating)` stars, and one more when the fractional part is at least one half. */
  function StarsFor(rating: real): (s: StarRow)
    ensures s.RangeError? <==> rating < 0.0 || rating.Floor > MaxArrayLength
  {
    var whole := rating.Floor;
    if whole < 0 || whole > MaxArrayLength then RangeError
    else
      var fraction := rating - whole as real;
      Stars(whole + if fraction >= 0.5 then 1 else 0)
  }

  /** The star count is the rating rounded half up, at most one half away from it. */
  lemma StarsRoundHalfUp(rating: real)
    requires StarsFor(rating).Stars?
    ensures StarsFor(rating).count == (rating + 0.5).Floor
    ensures -0.5 < StarsFor(rating).count as real - rating <= 0.5
  {
    var whole := rating.Floor;
    var fraction := rating - whole as real;
    if fraction >= 0.5 {
      assert whole as real + 1.0 <= rating + 0.5 < whole as real + 2.0;
    } else {
      assert whole as real <= rating + 0.5 < whole as real + 1.0;
    }
  }

  /** A card's `expanded` state. */
  class Card {
    var expanded: bool

    constructor ()
      ensures !expanded
    {
      expanded := false;
    }

    method Toggle()
      modifies this
      ensures expanded == !old(expanded)
    {
      expanded := !expanded;
    }
  }
}
