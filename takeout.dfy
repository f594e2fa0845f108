/**
 * Visit collection from a Google Takeout location history: one table entry
 * per place ID (the last visit's times and location win, the first visit
 * fixes the position), then the places whose details say they serve food.
 * The JSON file is a sequence of entries and the details request is a map
 * from place ID to the reply.
 */
module Takeout {
  import opened Wrappers

  datatype TopCandidate = TopCandidate(placeId: Option<string>, placeLocation: Option<string>)
  datatype Visit = Visit(topCandidate: Option<TopCandidate>)
  /** One location-history entry; any key may be missing. */
  datatype Entry = Entry(visit: Option<Visit>, startTime: Option<string>, endTime: Option<string>)

  /** What the table keeps for a place. */
  datatype VisitInfo = VisitInfo(start: Option<string>, end: Option<string>, placeLocation: string)

  /** The insertion-ordered dictionary `place_ids`: its keys in order and its values. */
  datatype PlaceTable = PlaceTable(order: seq<string>, info: map<string, VisitInfo>)

  /** `entry.get("visit", {}).get("topCandidate", {})`, as an optional candidate. */
  function CandidateOf(e: Entry): Option<TopCandidate> {
    match e.visit
    case None => None
    case Some(v) => v.topCandidate
  }

  /** The entry's place ID when it is truthy (present and non-empty). */
  function PlaceIdOf(e: Entry): (p: Option<string>)
    ensures p.Some? ==> p.value != ""
  {
    match CandidateOf(e)
    case None => None
    case Some(c) => if c.placeId.Some? && c.placeId.value != "" then c.placeId else None
  }

  /** The stored value: start and end may be None, the location defaults to "". */
  function InfoOf(e: Entry): VisitInfo {
    var loc := match CandidateOf(e) case None => "" case Some(c) => c.placeLocation.GetOr("");
    VisitInfo(e.startTime, e.endTime, loc)
  }

  /** The keys are distinct and are exactly the keys of the value map. */
  ghost predicate ValidTable(t: PlaceTable) {
    && (forall i, j :: 0 <= i < j < |t.order| ==> t.order[i] != t.order[j])
    && (forall p :: p in t.order <==> p in t.info)
  }

  /** `place_ids[pid] = {...}`: overwrite the value, append the key only when it is new. */
  function Put(t: PlaceTable, pid: string, v: VisitInfo): PlaceTable {
    PlaceTable(if pid in t.info then t.order else t.order + [pid], t.info[pid := v])
  }

  /** The table after the loop has seen `data`. */
  function Collected(data: seq<Entry>): (t: PlaceTable)
    ensures |t.order| <= |data|
  {
    if data == [] then PlaceTable([], map[])
    else
      var t := Collected(data[..|data| - 1]);
      var e := data[|data| - 1];
      match PlaceIdOf(e)
      case None => t
      case Some(pid) => Put(t, pid, InfoOf(e))
  }

  /** The loop that fills `place_ids` from the location history. */
  method CollectPlaces(data: seq<Entry>) returns (table: PlaceTable)
    ensures table == Collected(data)
  {
    table := PlaceTable([], map[]);
    var i := 0;
    while i < |data|
      invariant 0 <= i <= |data|
      invariant table == Collected(data[..i])
    {
      var entry := data[i];
      assert data[..i + 1][..i] == data[..i];
      var pid := PlaceIdOf(entry);
      if pid.Some? {
        var info := InfoOf(entry);
        table := PlaceTable(if pid.value in table.info then table.order else table.order + [pid.value],
                            table.info[pid.value := info]);
      }
      i := i + 1;
    }
    assert data[..i] == data;
  }

  /** `p` is the truthy place ID of some entry. */
  predicate Mentioned(data: seq<Entry>, p: string) {
    exists i :: 0 <= i < |data| && PlaceIdOf(data[i]) == Some(p)
  }

  /**
   * The table is a well-formed dictionary whose keys are exactly the truthy
   * place IDs of the entries; it has at most one key per entry.
   */
  lemma {:induction false} CollectedKeys(data: seq<Entry>)
    ensures var t := Collected(data);
      && ValidTable(t)
      && (forall p :: p in t.info <==> Mentioned(data, p))
      && |t.order| <= |data|
  {
    if data != [] {
      var init := data[..|data| - 1];
      CollectedKeys(init);
      var e := data[|data| - 1];
      forall p | Mentioned(init, p) ensures Mentioned(data, p) {
        var i :| 0 <= i < |init| && PlaceIdOf(init[i]) == Some(p);
        assert data[i] == init[i];
      }
      forall p | Mentioned(data, p) ensures Mentioned(init, p) || PlaceIdOf(e) == Some(p) {
        var i :| 0 <= i < |data| && PlaceIdOf(data[i]) == Some(p);
        if i < |init| {
          assert init[i] == data[i];
        }
      }
      if PlaceIdOf(e).Some? {
        assert Mentioned(data, PlaceIdOf(e).value) by {
          assert PlaceIdOf(data[|data| - 1]) == PlaceIdOf(e);
        }
      }
    }
  }

  /** The value stored under each key comes from the key's last entry. */
  lemma {:induction false} CollectedLastWins(data: seq<Entry>, i: nat)
    requires i < |data| && PlaceIdOf(data[i]).Some?
    requires forall j :: i < j < |data| ==> PlaceIdOf(data[j]) != PlaceIdOf(data[i])
    ensures PlaceIdOf(data[i]).value in Collected(data).info
    ensures Collected(data).info[PlaceIdOf(data[i]).value] == InfoOf(data[i])
  {
    if i < |data| - 1 {
      var init := data[..|data| - 1];
      assert init[i] == data[i];
      forall j | i < j < |init| ensures PlaceIdOf(init[j]) != PlaceIdOf(init[i]) {
        assert init[j] == data[j];
      }
      CollectedLastWins(init, i);
    }
  }

  /** Some entry with ID `p` comes before every entry with ID `q`. */
  predicate FirstSeenBefore(data: seq<Entry>, p: string, q: string) {
    forall j :: 0 <= j < |data| && PlaceIdOf(data[j]) == Some(q) ==>
      exists i :: 0 <= i < j && PlaceIdOf(data[i]) == Some(p)
  }

  lemma NotMentionedPrefix(data: seq<Entry>, q: string)
    requires data != [] && !Mentioned(data[..|data| - 1], q)
    ensures forall j :: 0 <= j < |data| - 1 ==> PlaceIdOf(data[j]) != Some(q)
  {
    var init := data[..|data| - 1];
    forall j | 0 <= j < |data| - 1 ensures PlaceIdOf(data[j]) != Some(q) {
      assert init[j] == data[j];
    }
  }

  /** An order already established by the earlier entries survives one more entry. */
  lemma ExtendFirstSeen(data: seq<Entry>, p: string, q: string)
    requires data != []
    requires FirstSeenBefore(data[..|data| - 1], p, q) && Mentioned(data[..|data| - 1], q)
    ensures FirstSeenBefore(data, p, q)
  {
    var init := data[..|data| - 1];
    forall j | 0 <= j < |data| && PlaceIdOf(data[j]) == Some(q)
      ensures exists i :: 0 <= i < j && PlaceIdOf(data[i]) == Some(p)
    {
      if j < |init| {
        assert init[j] == data[j];
        var i :| 0 <= i < j && PlaceIdOf(init[i]) == Some(p);
        assert data[i] == init[i];
      } else {
        var jq :| 0 <= jq < |init| && PlaceIdOf(init[jq]) == Some(q);
        var i :| 0 <= i < jq && PlaceIdOf(init[i]) == Some(p);
        assert data[i] == init[i];
      }
    }
  }

  /** A key first seen in the last entry comes after every key seen before it. */
  lemma NewKeyAfter(data: seq<Entry>, p: string, q: string)
    requires data != []
    requires Mentioned(data[..|data| - 1], p) && !Mentioned(data[..|data| - 1], q)
    ensures FirstSeenBefore(data, p, q)
  {
    var init := data[..|data| - 1];
    var ip :| 0 <= ip < |init| && PlaceIdOf(init[ip]) == Some(p);
    assert data[ip] == init[ip];
    NotMentionedPrefix(data, q);
  }

  /** Keys are ordered by first occurrence: overwriting a key does not move it. */
  lemma {:induction false} CollectedFirstOrder(data: seq<Entry>)
    ensures var order := Collected(data).order;
      forall a, b :: 0 <= a < b < |order| ==> FirstSeenBefore(data, order[a], order[b])
  {
    if data != [] {
      var init := data[..|data| - 1];
      CollectedFirstOrder(init);
      CollectedKeys(init);
      var oldOrder := Collected(init).order;
      var order := Collected(data).order;
      assert oldOrder == order[..|oldOrder|];
      forall a, b | 0 <= a < b < |order| ensures FirstSeenBefore(data, order[a], order[b]) {
        assert order[a] == oldOrder[a];
        assert Mentioned(init, order[a]);
        if b < |oldOrder| {
          assert order[b] == oldOrder[b];
          ExtendFirstSeen(data, order[a], order[b]);
        } else {
          assert order[b] !in Collected(init).info;
          NewKeyAfter(data, order[a], order[b]);
        }
      }
    }
  }

  // ---------------------------------------------------------------------
  // Restaurant check
  // ---------------------------------------------------------------------

  /** The place-details reply: its status and the `result` fields read. */
  datatype Details = Details(status: Option<string>, types: Option<seq<string>>, name: Option<string>)

  const FoodTypes: seq<string> := ["restaurant", "food", "cafe", "meal_takeaway", "bar"]

  /** `any(t in types for t in [...])`. */
  predicate IsFoodPlace(types: seq<string>) {
    exists k :: 0 <= k < |FoodTypes| && FoodTypes[k] in types
  }

  /** One "possible restaurant visit". */
  datatype Report = Report(name: string, placeId: string, types: seq<string>,
                           start: Option<string>, end: Option<string>, location: string)

  /** A successful reply says "OK" and lists a food-related type. */
  predicate Qualifies(lookup: map<string, Details>, p: string) {
    p in lookup && lookup[p].status == Some("OK") && IsFoodPlace(lookup[p].types.GetOr([]))
  }

  function ReportFor(lookup: map<string, Details>, p: string, v: VisitInfo): Report
    requires p in lookup
  {
    var d := lookup[p];
    Report(d.name.GetOr("Unknown"), p, d.types.GetOr([]), v.start, v.end, v.placeLocation)
  }

  /** The reports, in table order, of the keys `order`. */
  function Reported(order: seq<string>, info: map<string, VisitInfo>, lookup: map<string, Details>): (r: seq<Report>)
    requires forall p :: p in order ==> p in info
    ensures |r| <= |order|
  {
    if order == [] then []
    else
      var init := order[..|order| - 1];
      var p := order[|order| - 1];
      assert forall q :: q in init ==> q in order;
      var before := Reported(init, info, lookup);
      if Qualifies(lookup, p) then before + [ReportFor(lookup, p, info[p])] else before
  }

  /** A place is reported iff its details are "OK" and food-related, with its stored visit. */
  lemma {:induction false} ReportedIff(order: seq<string>, info: map<string, VisitInfo>, lookup: map<string, Details>)
    requires forall p :: p in order ==> p in info
    ensures forall r :: r in Reported(order, info, lookup) ==>
              r.placeId in order && Qualifies(lookup, r.placeId) && r == ReportFor(lookup, r.placeId, info[r.placeId])
    ensures forall p :: p in order && Qualifies(lookup, p) ==> ReportFor(lookup, p, info[p]) in Reported(order, info, lookup)
    ensures |Reported(order, info, lookup)| <= |order|
  {
    if order != [] {
      var init := order[..|order| - 1];
      assert forall q :: q in init ==> q in order;
      assert forall q :: q in order ==> q in init || q == order[|order| - 1];
      ReportedIff(init, info, lookup);
    }
  }

  /** Each place is reported at most once, since the table's keys are distinct. */
  lemma {:induction false} ReportedOnce(order: seq<string>, info: map<string, VisitInfo>, lookup: map<string, Details>)
    requires forall p :: p in order ==> p in info
    requires forall i, j :: 0 <= i < j < |order| ==> order[i] != order[j]
    ensures var reports := Reported(order, info, lookup);
      forall i, j :: 0 <= i < j < |reports| ==> reports[i].placeId != reports[j].placeId
  {
    if order != [] {
      var init := order[..|order| - 1];
      var p := order[|order| - 1];
      assert forall q :: q in init ==> q in order;
      ReportedOnce(init, info, lookup);
      ReportedIff(init, info, lookup);
      assert p !in init by {
        forall k | 0 <= k < |init| ensures init[k] != p {
          assert init[k] == order[k];
        }
      }
    }
  }

  /** The loop over `place_ids.items()` that prints the possible restaurant visits. */
  method ReportRestaurants(table: PlaceTable, lookup: map<string, Details>) returns (reports: seq<Report>)
    requires ValidTable(table)
    ensures reports == Reported(table.order, table.info, lookup)
  {
    reports := [];
    var i := 0;
    while i < |table.order|
      invariant 0 <= i <= |table.order|
      invariant reports == Reported(table.order[..i], table.info, lookup)
    {
      var placeId := table.order[i];
      assert table.order[..i + 1][..i] == table.order[..i];
      if placeId in lookup && lookup[placeId].status == Some("OK") {
        var details := lookup[placeId];
        var types := details.types.GetOr([]);
        var name := details.name.GetOr("Unknown");
        if exists k :: 0 <= k < |FoodTypes| && FoodTypes[k] in types {
          var info := table.info[placeId];
          reports := reports + [Report(name, placeId, types, info.start, info.end, info.placeLocation)];
        }
      }
      i := i + 1;
    }
    assert table.order[..i] == table.order;
  }
}
