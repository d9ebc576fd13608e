/**
 * `getAllTripsFromDB` and the record assembly of `createTripIntoDB`
 * (src/app/modules/trip/trip.service.ts). The listing splits `searchTerm` off
 * the query parameters, searches the fields of src/app/modules/trip/trip.constant.ts,
 * and turns every other key, unchecked, into an `equals` condition.
 */
module TripService {
  import opened Wrappers
  import opened Json
  import opened Where
  import opened Errors
  import opened Pagination
  import opened Repository
  import opened Records
  import opened Listing
  import Formats
  import TripValidation

  const TripSearchableFields: seq<string> := ["destination", "type", "itinerary", "activities"]

  /** `{ [key]: { equals: value } }` for every remaining key, in key order, the value unchanged. */
  function EqualsGroup(rest: seq<(string, Json)>): seq<Pred> {
    seq(|rest|, i requires 0 <= i < |rest| => Equals([rest[i].0], rest[i].1))
  }

  /** Over an object, each equality carries the value read back by its key, `(filteredData as any)[key]`. */
  lemma EqualsGroupByKey(rest: seq<(string, Json)>)
    requires DistinctKeys(rest)
    ensures |EqualsGroup(rest)| == |rest|
    ensures forall i | 0 <= i < |rest| :: Get(rest, rest[i].0).Some? && EqualsGroup(rest)[i] == Equals([rest[i].0], Get(rest, rest[i].0).value)
  {
    forall i | 0 <= i < |rest| ensures Get(rest, rest[i].0) == Some(rest[i].1) {
      DistinctGet(rest, i);
    }
  }

  /** AND of the present groups, or `{}` when there are none. */
  function Combine(search: seq<Pred>, rest: seq<(string, Json)>): Pred {
    var groups := search + (if |rest| > 0 then [And(EqualsGroup(rest))] else []);
    if |groups| > 0 then And(groups) else All
  }

  /** The `where` tree as written: a case-sensitive `contains` on every searchable field, `activities` included. */
  function TripWhere(params: seq<(string, Json)>): Pred {
    var term := Get(params, "searchTerm");
    Combine(if Truthy(term) then [SearchGroup(TripSearchableFields, term.value, false)] else [], Without(params, "searchTerm"))
  }

  // ---- The search on the list column, corrected ----

  /** `has term` on a text-list column, `contains term` on any other. */
  function SearchCondition(schema: Schema, field: string, term: Json): Pred {
    if field in schema && schema[field].Scalar? && schema[field].column.kind.TextList? then Has([field], term)
    else Contains([field], term, false)
  }

  function CorrectedSearchGroup(term: Json): Pred {
    Or(seq(|TripSearchableFields|, i requires 0 <= i < |TripSearchableFields| =>
      SearchCondition(TripSchema, TripSearchableFields[i], term)))
  }

  /** The `where` tree with the corrected search group; the rest as written. */
  function CorrectedTripWhere(params: seq<(string, Json)>): Pred {
    var term := Get(params, "searchTerm");
    Combine(if Truthy(term) then [CorrectedSearchGroup(term.value)] else [], Without(params, "searchTerm"))
  }

  // ---- The service ----

  /** Pushes the present groups onto `andConditions`, then wraps them. */
  method CompileTripWhere(params: seq<(string, Json)>) returns (where: Pred)
    requires DistinctKeys(params)
    ensures where == CorrectedTripWhere(params)
  {
    var searchTerm := Get(params, "searchTerm");
    var filteredData := Without(params, "searchTerm");
    var andConditions: seq<Pred> := [];
    if Truthy(searchTerm) {
      andConditions := andConditions + [CorrectedSearchGroup(searchTerm.value)];
    }
    if |filteredData| > 0 {
      andConditions := andConditions + [And(EqualsGroup(filteredData))];
    }
    where := if |andConditions| > 0 then And(andConditions) else All;
  }

  /** One page of trips and the total, under the compiled `where`. */
  method GetAllTripsFromDB(trips: seq<Trip>, params: seq<(string, Json)>, options: Options)
    returns (result: Result<Page<Trip>, Thrown>)
    requires DistinctKeys(params)
    ensures result == ListPage(trips, TripView, TripSchema, CorrectedTripWhere(params), options)
    ensures result.Success? <==>
      TripQueryAccepted(params) && OrderAccepted(TripSchema, OrderFor(options)) && CalculatePagination(options).skip >= 0
    ensures result.Failure? ==> result.error == ValidationFailure
    ensures result.Success? ==> forall t :: t in result.value.data ==> t in trips && TripSelected(params, t)
  {
    var where := CompileTripWhere(params);
    result := ListPage(trips, TripView, TripSchema, where, options);
    ListPageRows(trips, TripView, TripSchema, where, options);
    TripWhereAccepted(params);
    if result.Success? {
      forall t | t in result.value.data ensures TripSelected(params, t) {
        TripWhereMatches(params, t);
      }
    }
  }

  /** `photos` after an upload: `{ url, isDeleted: false }`, where an upload without a URL leaves `url` undefined. */
  function PhotoEntry(url: Option<string>): Json {
    JObj((if url.Some? then [("url", JStr(url.value))] else []) + [("isDeleted", JBool(false))])
  }

  /**
   * The `data` of `trip.create`: the body, then `userId` from the caller and
   * `photos` from the upload, which override the body's own. `upload` is None
   * when no file came, and otherwise the URL the upload returned, if any.
   */
  method CreateTripData(body: seq<(string, Json)>, userId: Option<string>, upload: Option<Option<string>>)
    returns (data: seq<(string, Json)>)
    ensures upload.None? ==> Get(data, "photos") == Some(JArr([]))
    ensures upload.Some? ==> Get(data, "photos") == Some(JArr([PhotoEntry(upload.value)]))
    ensures Get(data, "userId") == if userId.Some? then Some(JStr(userId.value)) else None
    ensures forall k | k != "photos" && k != "userId" :: Get(data, k) == Get(body, k)
  {
    var photos: Json := JArr([]);
    if upload.Some? {
      photos := JArr([PhotoEntry(upload.value)]);
    }
    var owner: Option<Json> := if userId.Some? then Some(JStr(userId.value)) else None;
    data := Put(Put(body, "userId", owner), "photos", Some(photos));
  }

  // ---- What the listing selects, stated on the trip's own fields ----

  /** No search term, or it is text that a text field contains or that is one of the activities. */
  predicate TripSearchHolds(term: Option<Json>, t: Trip) {
    Truthy(term) ==>
      term.value.JStr? &&
      (IsSubstring(term.value.s, t.destination) || IsSubstring(term.value.s, t.tripType) ||
       (t.itinerary.Some? && IsSubstring(term.value.s, t.itinerary.value)) || term.value.s in t.activities)
  }

  /** The trip's column `key` holds `value`. */
  predicate EntryHolds(key: string, value: Json, t: Trip) {
    var f := TripView(t, [key]);
    f.Some? && FieldEquals(f.value, value)
  }

  predicate EntriesHold(rest: seq<(string, Json)>, t: Trip) {
    forall i | 0 <= i < |rest| :: EntryHolds(rest[i].0, rest[i].1, t)
  }

  /** The trip is listed for these parameters. */
  predicate TripSelected(params: seq<(string, Json)>, t: Trip) {
    TripSearchHolds(Get(params, "searchTerm"), t) && EntriesHold(Without(params, "searchTerm"), t)
  }

  /** `key` is a scalar column of Trip and `value` a value Prisma accepts for it. */
  predicate EntryAccepted(key: string, value: Json) {
    var c := Resolve(TripSchema, [key]);
    c.Some? && ValueFits(c.value, value)
  }

  predicate EntriesAccepted(rest: seq<(string, Json)>) {
    forall i | 0 <= i < |rest| :: EntryAccepted(rest[i].0, rest[i].1)
  }

  /** The parameters compile to a `where` Prisma accepts. */
  predicate TripQueryAccepted(params: seq<(string, Json)>) {
    var term := Get(params, "searchTerm");
    (Truthy(term) ==> term.value.JStr?) && EntriesAccepted(Without(params, "searchTerm"))
  }

  // ---- Lemmas ----

  /** The searchable columns. */
  lemma TripColumns()
    ensures Resolve(TripSchema, ["destination"]) == Some(Column(Text, false))
    ensures Resolve(TripSchema, ["type"]) == Some(Column(Text, false))
    ensures Resolve(TripSchema, ["itinerary"]) == Some(Column(Text, true))
    ensures Resolve(TripSchema, ["activities"]) == Some(Column(TextList, false))
  {
    assert TripSchema["destination"] == Scalar(Column(Text, false));
    assert TripSchema["type"] == Scalar(Column(Text, false));
    assert TripSchema["itinerary"] == Scalar(Column(Text, true));
    assert TripSchema["activities"] == Scalar(Column(TextList, false));
  }

  /** The corrected group searches the three text fields with `contains` and the activities with `has`. */
  lemma CorrectedSearchGroupShape(term: Json)
    ensures CorrectedSearchGroup(term) == Or([
      Contains(["destination"], term, false), Contains(["type"], term, false),
      Contains(["itinerary"], term, false), Has(["activities"], term)])
  {
    TripColumns();
  }

  /** As written, a truthy search term gets the trip listing rejected: `contains` is not a filter of the list column `activities`. */
  lemma TripSearchRejected(trips: seq<Trip>, params: seq<(string, Json)>, options: Options)
    requires Truthy(Get(params, "searchTerm"))
    ensures !Accepts(TripSchema, TripWhere(params))
    ensures ListPage(trips, TripView, TripSchema, TripWhere(params), options) == Failure(ValidationFailure)
  {
    var term := Get(params, "searchTerm").value;
    var g := SearchGroup(TripSearchableFields, term, false);
    TripColumns();
    assert g.conds[3] == Contains(["activities"], term, false);
    assert !Accepts(TripSchema, g.conds[3]);
    var w := TripWhere(params);
    assert w.conds[0] == g;
  }

  /** The corrected group is accepted exactly when the term is text. */
  lemma CorrectedSearchAccepted(term: Json)
    ensures Accepts(TripSchema, CorrectedSearchGroup(term)) <==> term.JStr?
  {
    CorrectedSearchGroupShape(term);
    TripColumns();
    var g := CorrectedSearchGroup(term);
    if Accepts(TripSchema, g) {
      assert Accepts(TripSchema, g.conds[0]);
    }
  }

  /** A trip satisfies the corrected group exactly when a text field contains the term or the term is one of its activities. */
  lemma CorrectedSearchMatches(term: Json, t: Trip)
    requires Truthy(Some(term))
    ensures Matches(CorrectedSearchGroup(term), t, TripView) <==> TripSearchHolds(Some(term), t)
  {
    CorrectedSearchGroupShape(term);
    SearchCondMeanings(term, t);
    AnyOfFour(Contains(["destination"], term, false), Contains(["type"], term, false),
      Contains(["itinerary"], term, false), Has(["activities"], term), t);
  }

  /** An OR of four conditions holds exactly when one of them does. */
  lemma AnyOfFour(c0: Pred, c1: Pred, c2: Pred, c3: Pred, t: Trip)
    ensures Matches(Or([c0, c1, c2, c3]), t, TripView) <==>
      Matches(c0, t, TripView) || Matches(c1, t, TripView) || Matches(c2, t, TripView) || Matches(c3, t, TripView)
  {
    var cs := [c0, c1, c2, c3];
    assert cs[0] == c0 && cs[1] == c1 && cs[2] == c2 && cs[3] == c3;
  }

  /** What each of the four corrected search conditions asks of a trip. */
  lemma SearchCondMeanings(term: Json, t: Trip)
    ensures Matches(Contains(["destination"], term, false), t, TripView) <==> term.JStr? && IsSubstring(term.s, t.destination)
    ensures Matches(Contains(["type"], term, false), t, TripView) <==> term.JStr? && IsSubstring(term.s, t.tripType)
    ensures Matches(Contains(["itinerary"], term, false), t, TripView) <==>
      term.JStr? && t.itinerary.Some? && IsSubstring(term.s, t.itinerary.value)
    ensures Matches(Has(["activities"], term), t, TripView) <==> term.JStr? && term.s in t.activities
  {
    TextArrayHas(t.activities, term);
  }

  /** A one-condition list holds, and is accepted, exactly when its condition is. */
  lemma Single(c: Pred, t: Trip)
    ensures Matches(And([c]), t, TripView) <==> Matches(c, t, TripView)
    ensures Accepts(TripSchema, And([c])) <==> Accepts(TripSchema, c)
  {
    assert [c][0] == c;
  }

  /** The assembled `where` holds exactly when the search group (if any) holds and every remaining entry does, and is accepted likewise. */
  lemma CombineMeaning(search: seq<Pred>, rest: seq<(string, Json)>, t: Trip)
    requires |search| <= 1
    ensures Matches(Combine(search, rest), t, TripView) <==> Matches(And(search), t, TripView) && EntriesHold(rest, t)
    ensures Accepts(TripSchema, Combine(search, rest)) <==> Accepts(TripSchema, And(search)) && EntriesAccepted(rest)
  {
    var fields := if |rest| > 0 then [And(EqualsGroup(rest))] else [];
    AndConcat(search, fields, t, TripView);
    AcceptsConcat(TripSchema, search, fields);
    if |rest| > 0 {
      Single(fields[0], t);
      EqualsGroupMeaning(rest, t);
    }
  }

  /** The group of equalities holds, and is accepted, exactly when every entry does. */
  lemma EqualsGroupMeaning(rest: seq<(string, Json)>, t: Trip)
    ensures Matches(And(EqualsGroup(rest)), t, TripView) <==> EntriesHold(rest, t)
    ensures Accepts(TripSchema, And(EqualsGroup(rest))) <==> EntriesAccepted(rest)
  {
    var e := EqualsGroup(rest);
    assert forall i | 0 <= i < |rest| :: Matches(e[i], t, TripView) == EntryHolds(rest[i].0, rest[i].1, t);
    assert forall i | 0 <= i < |rest| :: Accepts(TripSchema, e[i]) == EntryAccepted(rest[i].0, rest[i].1);
  }

  /** A trip satisfies the compiled `where` exactly when it is selected by the parameters. */
  lemma TripWhereMatches(params: seq<(string, Json)>, t: Trip)
    ensures Matches(CorrectedTripWhere(params), t, TripView) <==> TripSelected(params, t)
  {
    var term := Get(params, "searchTerm");
    var search := if Truthy(term) then [CorrectedSearchGroup(term.value)] else [];
    CombineMeaning(search, Without(params, "searchTerm"), t);
    if Truthy(term) {
      Single(search[0], t);
      CorrectedSearchMatches(term.value, t);
    }
  }

  /** Prisma accepts the compiled `where` exactly when the term is text and every remaining key is a column given a fitting value. */
  lemma TripWhereAccepted(params: seq<(string, Json)>)
    ensures Accepts(TripSchema, CorrectedTripWhere(params)) <==> TripQueryAccepted(params)
  {
    var term := Get(params, "searchTerm");
    var search := if Truthy(term) then [CorrectedSearchGroup(term.value)] else [];
    var t := Trip("", "", "", "", "", 0, "", "", None, [], [], "", "");
    CombineMeaning(search, Without(params, "searchTerm"), t);
    if Truthy(term) {
      Single(search[0], t);
      CorrectedSearchAccepted(term.value);
    }
  }

  /** No whitelist: a remaining key that is not a column of Trip gets the whole listing rejected. */
  lemma UnknownKeyRejected(trips: seq<Trip>, params: seq<(string, Json)>, options: Options, key: string, value: Json)
    requires (key, value) in Without(params, "searchTerm")
    requires key !in TripSchema
    ensures ListPage(trips, TripView, TripSchema, CorrectedTripWhere(params), options) == Failure(ValidationFailure)
  {
    var rest := Without(params, "searchTerm");
    var i :| 0 <= i < |rest| && rest[i] == (key, value);
    assert !EntryAccepted(rest[i].0, rest[i].1);
    TripWhereAccepted(params);
  }

  /** Every remaining key becomes `{ [key]: { equals: value } }`, one per key in key order, the value unchanged, as the last group. */
  lemma EveryKeyEquals(params: seq<(string, Json)>)
    requires Without(params, "searchTerm") != []
    ensures var w := TripWhere(params); var rest := Without(params, "searchTerm");
      w.And? && w.conds[|w.conds| - 1] == And(EqualsGroup(rest)) &&
      |EqualsGroup(rest)| == |rest| &&
      forall i | 0 <= i < |rest| :: EqualsGroup(rest)[i] == Equals([rest[i].0], rest[i].1)
  {
  }

  /** `where` is `{}` exactly when there is no truthy search term and no other key. */
  lemma EmptyTripWhere(params: seq<(string, Json)>)
    ensures TripWhere(params) == All <==> !Truthy(Get(params, "searchTerm")) && Without(params, "searchTerm") == []
    ensures CorrectedTripWhere(params) == All <==> TripWhere(params) == All
  {
  }

  /** The correction changes only the search group: without a truthy term both trees are the same. */
  lemma CorrectionOnlySearch(params: seq<(string, Json)>)
    requires !Truthy(Get(params, "searchTerm"))
    ensures CorrectedTripWhere(params) == TripWhere(params)
  {
  }

  /**
   * The photo entry an upload creates is `{ url, isDeleted: false }`, and the
   * trip schema's photo rule accepts it exactly when the upload returned a
   * URL-formatted address; an upload without an address gives an entry the
   * rule rejects.
   */
  lemma UploadedPhoto(f: Formats.FormatChecks, url: string)
    ensures var p := PhotoEntry(Some(url));
      p.JObj? && Get(p.fields, "url") == Some(JStr(url)) && Get(p.fields, "isDeleted") == Some(JBool(false)) && |p.fields| == 2
    ensures TripValidation.ParsePhoto(f, PhotoEntry(Some(url)))
         == if f.isUrl(url) then Some(TripValidation.Photo(url, false)) else None
    ensures TripValidation.ParsePhoto(f, PhotoEntry(None)) == None
  {
    assert Get(PhotoEntry(None).fields, "url") == None;
  }
}
