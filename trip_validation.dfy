/**
 * The request schemas of src/app/modules/trip/trip.validation.ts as parsers of
 * a decoded body: each returns the parsed record, with its defaults applied, or
 * None where the schema reports an error. Keys the schemas do not name are
 * dropped, as the validation library strips them.
 */
module TripValidation {
  import opened Wrappers
  import opened Json
  import opened Formats

  datatype Photo = Photo(url: string, isDeleted: bool)

  /** An optional, nullable field: absent, null, or a value. */
  datatype Nullable<T> = Missing | Null | Present(value: T)

  datatype TripCreate = TripCreate(
    destination: string, startDate: int, endDate: int, budget: int, tripType: string, description: string,
    itinerary: Nullable<string>, photos: seq<Photo>, activities: seq<string>)

  datatype TripUpdate = TripUpdate(
    destination: Option<string>, startDate: Option<int>, endDate: Option<int>, budget: Option<int>,
    tripType: Option<string>, description: Option<string>, itinerary: Nullable<string>,
    photos: Option<seq<Photo>>, activities: Option<seq<string>>)

  // ---- One parser per field, shared by both schemas ----

  /** `z.string().min(1)`, where `.min` counts UTF-16 code units. */
  function ParseText(v: Option<Json>): Option<string> {
    if v.Some? && v.value.JStr? && Utf16Length(v.value.s) >= 1 then Some(v.value.s) else None
  }

  /** `z.coerce.date()`: an undefined value is always an invalid date. */
  function ParseDate(f: FormatChecks, v: Option<Json>): Option<int> {
    if v.None? then None else f.toDate(v.value)
  }

  /** `z.coerce.number().nonnegative()`: `Number(v)`, which must be a number and not negative. */
  function ParseBudget(v: Option<Json>): Option<int> {
    var n := ToNumber(v);
    if n.Some? && n.value >= 0 then n else None
  }

  /** `z.string().nullable().optional()`; the outer None is an error. */
  function ParseItinerary(v: Option<Json>): Option<Nullable<string>> {
    if v.None? then Some(Missing)
    else if v.value.JNull? then Some(Null)
    else if v.value.JStr? then Some(Present(v.value.s))
    else None
  }

  /** `photoSchema`: an object whose `url` is URL text and whose `isDeleted` is a boolean. */
  function ParsePhoto(f: FormatChecks, v: Json): Option<Photo> {
    if !v.JObj? then None
    else
      var url := Get(v.fields, "url");
      var deleted := Get(v.fields, "isDeleted");
      if url.Some? && url.value.JStr? && f.isUrl(url.value.s) && deleted.Some? && deleted.value.JBool?
      then Some(Photo(url.value.s, deleted.value.b))
      else None
  }

  /** `z.array(photoSchema)` over the items of an array. */
  function ParsePhotos(f: FormatChecks, items: seq<Json>): (r: Option<seq<Photo>>)
    ensures r.Some? <==> forall i | 0 <= i < |items| :: ParsePhoto(f, items[i]).Some?
    ensures r.Some? ==> |r.value| == |items| && forall i | 0 <= i < |items| :: r.value[i] == ParsePhoto(f, items[i]).value
  {
    if items == [] then Some([])
    else
      var init := ParsePhotos(f, items[..|items| - 1]);
      var last := ParsePhoto(f, items[|items| - 1]);
      if init.Some? && last.Some? then Some(init.value + [last.value])
      else
        assert forall i | 0 <= i < |items| - 1 :: items[..|items| - 1][i] == items[i];
        None
  }

  /** `z.array(z.string())` over the items of an array. */
  function ParseStrings(items: seq<Json>): (r: Option<seq<string>>)
    ensures r.Some? <==> forall i | 0 <= i < |items| :: items[i].JStr?
    ensures r.Some? ==> |r.value| == |items| && forall i | 0 <= i < |items| :: r.value[i] == items[i].s
  {
    if items == [] then Some([])
    else
      var init := ParseStrings(items[..|items| - 1]);
      var last := items[|items| - 1];
      if init.Some? && last.JStr? then Some(init.value + [last.s])
      else
        assert forall i | 0 <= i < |items| - 1 :: items[..|items| - 1][i] == items[i];
        None
  }

  function ParsePhotoList(f: FormatChecks, v: Json): Option<seq<Photo>> {
    if v.JArr? then ParsePhotos(f, v.items) else None
  }

  function ParseStringList(v: Json): Option<seq<string>> {
    if v.JArr? then ParseStrings(v.items) else None
  }

  /** `.optional()` around a field parser: an absent field is accepted as absent. */
  function Optional<T>(v: Option<Json>, parsed: Option<T>): Option<Option<T>> {
    if v.None? then Some(None) else if parsed.Some? then Some(Some(parsed.value)) else None
  }

  // ---- The schemas ----

  /** `createTripZodSchema`. */
  function ParseCreate(f: FormatChecks, v: Json): Option<TripCreate> {
    if !v.JObj? then None
    else
      var o := v.fields;
      var destination := ParseText(Get(o, "destination"));
      var startDate := ParseDate(f, Get(o, "startDate"));
      var endDate := ParseDate(f, Get(o, "endDate"));
      var budget := ParseBudget(Get(o, "budget"));
      var tripType := ParseText(Get(o, "type"));
      var description := ParseText(Get(o, "description"));
      var itinerary := ParseItinerary(Get(o, "itinerary"));
      var photos := if Get(o, "photos").None? then Some([]) else ParsePhotoList(f, Get(o, "photos").value);
      var activities := if Get(o, "activities").None? then Some([]) else ParseStringList(Get(o, "activities").value);
      if destination.Some? && startDate.Some? && endDate.Some? && budget.Some? && tripType.Some? &&
         description.Some? && itinerary.Some? && photos.Some? && activities.Some?
      then Some(TripCreate(destination.value, startDate.value, endDate.value, budget.value, tripType.value,
                           description.value, itinerary.value, photos.value, activities.value))
      else None
  }

  /** `updateTripZodSchema`: every field optional, no defaults. */
  function ParseUpdate(f: FormatChecks, v: Json): Option<TripUpdate> {
    if !v.JObj? then None
    else
      var o := v.fields;
      var destination := Optional(Get(o, "destination"), ParseText(Get(o, "destination")));
      var startDate := Optional(Get(o, "startDate"), ParseDate(f, Get(o, "startDate")));
      var endDate := Optional(Get(o, "endDate"), ParseDate(f, Get(o, "endDate")));
      var budget := Optional(Get(o, "budget"), ParseBudget(Get(o, "budget")));
      var tripType := Optional(Get(o, "type"), ParseText(Get(o, "type")));
      var description := Optional(Get(o, "description"), ParseText(Get(o, "description")));
      var itinerary := ParseItinerary(Get(o, "itinerary"));
      var photos := Optional(Get(o, "photos"), if Get(o, "photos").Some? then ParsePhotoList(f, Get(o, "photos").value) else None);
      var activities := Optional(Get(o, "activities"), if Get(o, "activities").Some? then ParseStringList(Get(o, "activities").value) else None);
      if destination.Some? && startDate.Some? && endDate.Some? && budget.Some? && tripType.Some? &&
         description.Some? && itinerary.Some? && photos.Some? && activities.Some?
      then Some(TripUpdate(destination.value, startDate.value, endDate.value, budget.value, tripType.value,
                           description.value, itinerary.value, photos.value, activities.value))
      else None
  }

  /** `createSendTravelBuddyRequestSchema`: `{ body: { message?: string } }`, giving the message if any. */
  function ParseSendRequest(v: Json): Option<Option<string>> {
    if !v.JObj? then None
    else
      var body := Get(v.fields, "body");
      if body.None? || !body.value.JObj? then None
      else
        var message := Get(body.value.fields, "message");
        if message.None? then Some(None)
        else if message.value.JStr? then Some(Some(message.value.s))
        else None
  }

  // ---- Lemmas ----

  const RequiredFields: seq<string> := ["destination", "startDate", "endDate", "budget", "type", "description"]

  /**
   * Create accepts a body exactly when update accepts it and the six required
   * fields are present; then both read the same values, and create fills in
   * the defaults for absent photos and activities.
   */
  lemma CreateIsUpdateWithRequired(f: FormatChecks, v: Json)
    requires v.JObj?
    ensures ParseCreate(f, v).Some? <==>
      ParseUpdate(f, v).Some? && forall k | k in RequiredFields :: Get(v.fields, k).Some?
    ensures ParseCreate(f, v).Some? ==>
      var c := ParseCreate(f, v).value; var u := ParseUpdate(f, v).value;
      && u.destination == Some(c.destination) && u.startDate == Some(c.startDate) && u.endDate == Some(c.endDate)
      && u.budget == Some(c.budget) && u.tripType == Some(c.tripType) && u.description == Some(c.description)
      && u.itinerary == c.itinerary
      && c.photos == (if u.photos.Some? then u.photos.value else [])
      && c.activities == (if u.activities.Some? then u.activities.value else [])
  {
    CreateNeedsRequired(f, v);
    UpdateWithRequiredIsCreate(f, v);
    if ParseCreate(f, v).Some? {
      CreateValuesAreUpdateValues(f, v);
    }
  }

  /** What create accepts, update accepts too, and all required fields are present. */
  lemma CreateNeedsRequired(f: FormatChecks, v: Json)
    requires v.JObj?
    ensures ParseCreate(f, v).Some? ==>
      ParseUpdate(f, v).Some? && forall k | k in RequiredFields :: Get(v.fields, k).Some?
  {
  }

  /** Where create accepts, update reads the same values, and create fills in the list defaults. */
  lemma CreateValuesAreUpdateValues(f: FormatChecks, v: Json)
    requires v.JObj? && ParseCreate(f, v).Some? && ParseUpdate(f, v).Some?
    ensures var c := ParseCreate(f, v).value; var u := ParseUpdate(f, v).value;
      && u.destination == Some(c.destination) && u.startDate == Some(c.startDate) && u.endDate == Some(c.endDate)
      && u.budget == Some(c.budget) && u.tripType == Some(c.tripType) && u.description == Some(c.description)
      && u.itinerary == c.itinerary
      && c.photos == (if u.photos.Some? then u.photos.value else [])
      && c.activities == (if u.activities.Some? then u.activities.value else [])
  {
  }

  /** What update accepts with all required fields present, create accepts. */
  lemma UpdateWithRequiredIsCreate(f: FormatChecks, v: Json)
    requires v.JObj?
    ensures ParseUpdate(f, v).Some? && (forall k | k in RequiredFields :: Get(v.fields, k).Some?) ==>
      ParseCreate(f, v).Some?
  {
    var o := v.fields;
    if ParseUpdate(f, v).Some? && forall k | k in RequiredFields :: Get(o, k).Some? {
      assert Get(o, "destination").Some? && Get(o, "startDate").Some? && Get(o, "endDate").Some?;
      assert Get(o, "budget").Some? && Get(o, "type").Some? && Get(o, "description").Some?;
    }
  }

  /** Update accepts the empty object and fills in nothing. */
  lemma UpdateAcceptsEmpty(f: FormatChecks)
    ensures ParseUpdate(f, JObj([])) == Some(TripUpdate(None, None, None, None, None, None, Missing, None, None))
    ensures ParseCreate(f, JObj([])) == None
  {
  }

  /** Create rejects an empty destination, type or description. */
  lemma EmptyTextRejected(f: FormatChecks, v: Json, field: string)
    requires v.JObj? && field in {"destination", "type", "description"}
    requires Get(v.fields, field) == Some(JStr(""))
    ensures ParseCreate(f, v) == None
    ensures ParseUpdate(f, v) == None
  {
  }

  /** The budget is coerced: the decimal text of a whole number is read as that number, and only a negative one is rejected. */
  lemma BudgetFromText(n: int)
    ensures ParseBudget(Some(JStr(IntText(n)))) == if n >= 0 then Some(n) else None
  {
    NumberOfText(n);
  }

  /** The itinerary may be absent, null or text in both schemas, and is read the same way by both. */
  lemma ItineraryForms(f: FormatChecks, v: Json)
    requires v.JObj?
    ensures var i := Get(v.fields, "itinerary");
      (ParseItinerary(i).Some? <==> i.None? || i.value.JNull? || i.value.JStr?) &&
      (ParseCreate(f, v).Some? ==> ParseCreate(f, v).value.itinerary == ParseItinerary(i).value) &&
      (ParseUpdate(f, v).Some? ==> ParseUpdate(f, v).value.itinerary == ParseItinerary(i).value)
  {
  }

  /**
   * A photo list is accepted exactly when every item is an object with URL text `url` and boolean `isDeleted`;
   * the parsed list then has one photo per item, keeping that item's `url` and `isDeleted`.
   */
  lemma PhotoListValid(f: FormatChecks, items: seq<Json>)
    ensures ParsePhotos(f, items).Some? <==>
      forall i | 0 <= i < |items| ::
        var p := items[i];
        p.JObj? && Get(p.fields, "url").Some? && Get(p.fields, "url").value.JStr? && f.isUrl(Get(p.fields, "url").value.s)
        && Get(p.fields, "isDeleted").Some? && Get(p.fields, "isDeleted").value.JBool?
    ensures ParsePhotos(f, items).Some? ==>
      |ParsePhotos(f, items).value| == |items| &&
      forall i | 0 <= i < |items| ::
        items[i].JObj? && Get(items[i].fields, "url").Some? && Get(items[i].fields, "url").value.JStr? &&
        Get(items[i].fields, "isDeleted").Some? && Get(items[i].fields, "isDeleted").value.JBool? &&
        ParsePhotos(f, items).value[i] == Photo(Get(items[i].fields, "url").value.s, Get(items[i].fields, "isDeleted").value.b)
  {
  }

  /** The buddy-request body needs `body` to be an object; its `message` is optional text, so `{ body: {} }` is accepted. */
  lemma SendRequestBody(message: string)
    ensures ParseSendRequest(JObj([("body", JObj([]))])) == Some(None)
    ensures ParseSendRequest(JObj([("body", JObj([("message", JStr(message))]))])) == Some(Some(message))
    ensures ParseSendRequest(JObj([])) == None
    ensures ParseSendRequest(JObj([("message", JStr(message))])) == None
  {
  }
}
