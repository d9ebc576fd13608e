/**
 * `getUsersFromDB` (src/app/modules/user/user.service.ts): split `searchTerm`
 * off the query parameters, build the `where` tree (a case-insensitive search
 * group and one condition per recognised key), then list one page of users.
 * The searchable fields come from a file that is not part of this model, so
 * they are a parameter.
 */
module UserService {
  import opened Wrappers
  import opened Json
  import opened Where
  import opened Errors
  import opened Pagination
  import opened Repository
  import opened Records
  import opened Listing

  const AgePath: Path := ["profile", "age"]
  const BioPath: Path := ["profile", "bio"]

  /** The two `console.warn` diagnostics, for an `age` value that yields no condition. */
  datatype Warning = AgeRangeUnusable(value: Json) | AgeUnprocessable(value: Json)

  /** What one filter key contributes: a condition, a warning, or nothing. */
  datatype Step = Push(cond: Pred) | Warn(warning: Warning) | Skip

  /** `value.min` / `value.max`: a member of an object; an array has neither. */
  function Member(v: Json, name: string): Option<Json> {
    if v.JObj? then Get(v.fields, name) else None
  }

  /** An age bound: a number as it is, text through `parseInt(_, 10)`, anything else no bound. */
  function AgeBound(v: Option<Json>): Option<int> {
    if v.Some? && v.value.JNum? then Some(v.value.n)
    else if v.Some? && v.value.JStr? then ParseInt(v.value.s)
    else None
  }

  /** The `age` key, dispatched on the value's runtime type. */
  function AgeStep(value: Json): Step {
    if value.JNum? then Push(Equals(AgePath, value))
    else if value.JStr? && ParseInt(value.s).Some? then Push(Equals(AgePath, JNum(ParseInt(value.s).value)))
    else if value.JObj? || value.JArr? then
      var lo := AgeBound(Member(value, "min"));
      var hi := AgeBound(Member(value, "max"));
      if lo.Some? || hi.Some? then Push(Range(AgePath, lo, hi)) else Warn(AgeRangeUnusable(value))
    else Warn(AgeUnprocessable(value))
  }

  /** The contribution of one `key: value` entry of the filter map. */
  function KeyStep(key: string, value: Json): Step {
    if key == "age" then AgeStep(value)
    else if key == "bio" then Push(Contains(BioPath, JStr(JsString(value)), true))
    else if key == "role" || key == "status" then Push(Equals([key], value))
    else if key == "email" || key == "name" then Push(Equals([key], JStr(JsString(value))))
    else Skip
  }

  function Conds(s: Step): seq<Pred> {
    if s.Push? then [s.cond] else []
  }

  function Warned(s: Step): seq<Warning> {
    if s.Warn? then [s.warning] else []
  }

  /** `specificFilters` after the loop over the given entries. */
  function FieldFilters(entries: seq<(string, Json)>): seq<Pred> {
    if entries == [] then []
    else
      var last := entries[|entries| - 1];
      FieldFilters(entries[..|entries| - 1]) + Conds(KeyStep(last.0, last.1))
  }

  /** The warnings logged by the loop over the given entries. */
  function Warnings(entries: seq<(string, Json)>): seq<Warning> {
    if entries == [] then []
    else
      var last := entries[|entries| - 1];
      Warnings(entries[..|entries| - 1]) + Warned(KeyStep(last.0, last.1))
  }

  /** The `where` tree built from the query parameters. */
  function UserWhere(params: seq<(string, Json)>, searchable: seq<string>): Pred {
    var term := Get(params, "searchTerm");
    var specific := FieldFilters(Without(params, "searchTerm"));
    var groups :=
      (if Truthy(term) then [SearchGroup(searchable, term.value, true)] else []) +
      (if |specific| > 0 then [And(specific)] else []);
    if |groups| > 0 then And(groups) else All
  }

  // ---- The compiler as the source writes it ----

  /** Fills `ageRangeFilter.gte` and `.lte` field by field for an object value. */
  method AgeCondition(value: Json) returns (step: Step)
    ensures step == AgeStep(value)
  {
    if value.JNum? {
      return Push(Equals(AgePath, value));
    }
    if value.JStr? {
      var parsed := ParseInt(value.s);
      if parsed.Some? {
        return Push(Equals(AgePath, JNum(parsed.value)));
      }
    }
    if value.JObj? || value.JArr? {
      var gte: Option<int> := None;
      var lte: Option<int> := None;
      var minAge := Member(value, "min");
      var maxAge := Member(value, "max");
      if minAge.Some? && minAge.value.JNum? {
        gte := Some(minAge.value.n);
      } else if minAge.Some? && minAge.value.JStr? && ParseInt(minAge.value.s).Some? {
        gte := ParseInt(minAge.value.s);
      }
      if maxAge.Some? && maxAge.value.JNum? {
        lte := Some(maxAge.value.n);
      } else if maxAge.Some? && maxAge.value.JStr? && ParseInt(maxAge.value.s).Some? {
        lte := ParseInt(maxAge.value.s);
      }
      assert gte == AgeBound(minAge) && lte == AgeBound(maxAge);
      if gte.Some? || lte.Some? {
        step := Push(Range(AgePath, gte, lte));
      } else {
        step := Warn(AgeRangeUnusable(value));
      }
      return;
    }
    step := Warn(AgeUnprocessable(value));
  }

  /** The `for...in` loop: one push onto `specificFilters`, or one warning, per recognised entry. */
  method CompileFieldFilters(filteredData: seq<(string, Json)>) returns (specificFilters: seq<Pred>, warnings: seq<Warning>)
    requires DistinctKeys(filteredData)
    ensures specificFilters == FieldFilters(filteredData)
    ensures warnings == Warnings(filteredData)
  {
    specificFilters := [];
    warnings := [];
    var i := 0;
    while i < |filteredData|
      invariant 0 <= i <= |filteredData|
      invariant specificFilters == FieldFilters(filteredData[..i])
      invariant warnings == Warnings(filteredData[..i])
    {
      var key := filteredData[i].0;
      DistinctGet(filteredData, i);
      var value := Get(filteredData, key).value;
      StepAppended(filteredData[..i], filteredData[i]);
      assert filteredData[..i + 1] == filteredData[..i] + [filteredData[i]];
      if key == "age" {
        var step := AgeCondition(value);
        if step.Push? {
          specificFilters := specificFilters + [step.cond];
        } else if step.Warn? {
          warnings := warnings + [step.warning];
        }
      } else if key == "bio" {
        specificFilters := specificFilters + [Contains(BioPath, JStr(JsString(value)), true)];
      } else if key == "role" || key == "status" {
        specificFilters := specificFilters + [Equals([key], value)];
      } else if key == "email" || key == "name" {
        specificFilters := specificFilters + [Equals([key], JStr(JsString(value)))];
      }
      i := i + 1;
    }
    assert filteredData[..i] == filteredData;
  }

  /** Grows `andConditions` with the search group and the field group, then wraps them in AND. */
  method CompileUserWhere(params: seq<(string, Json)>, searchable: seq<string>) returns (where: Pred, warnings: seq<Warning>)
    requires DistinctKeys(params)
    ensures where == UserWhere(params, searchable)
    ensures warnings == Warnings(Without(params, "searchTerm"))
  {
    var searchTerm := Get(params, "searchTerm");
    var filteredData := Without(params, "searchTerm");
    var andConditions: seq<Pred> := [];
    warnings := [];
    if Truthy(searchTerm) {
      andConditions := andConditions + [SearchGroup(searchable, searchTerm.value, true)];
    }
    if |filteredData| > 0 {
      var specificFilters;
      WithoutDistinct(params, "searchTerm");
      specificFilters, warnings := CompileFieldFilters(filteredData);
      if |specificFilters| > 0 {
        andConditions := andConditions + [And(specificFilters)];
      }
    }
    where := if |andConditions| > 0 then And(andConditions) else All;
  }

  /** One page of users and the total, under the compiled `where`; the warnings are the logged diagnostics. */
  method GetUsersFromDB(users: seq<User>, params: seq<(string, Json)>, options: Options, searchable: seq<string>)
    returns (result: Result<Page<User>, Thrown>, warnings: seq<Warning>)
    requires DistinctKeys(params)
    ensures result == ListPage(users, UserView, UserSchema, UserWhere(params, searchable), options)
    ensures result.Success? <==>
      UserQueryAccepted(params, searchable) && OrderAccepted(UserSchema, OrderFor(options)) && CalculatePagination(options).skip >= 0
    ensures result.Failure? ==> result.error == ValidationFailure
    ensures result.Success? ==> forall u :: u in result.value.data ==> u in users && UserSelected(params, searchable, u)
    ensures warnings == Warnings(Without(params, "searchTerm"))
  {
    var where;
    where, warnings := CompileUserWhere(params, searchable);
    result := ListPage(users, UserView, UserSchema, where, options);
    ListPageRows(users, UserView, UserSchema, where, options);
    UserWhereAccepted(params, searchable);
    if result.Success? {
      forall u | u in result.value.data ensures UserSelected(params, searchable, u) {
        UserWhereMatches(params, searchable, u);
      }
    }
  }

  // ---- What the filters mean for a user, stated on the user's own fields ----

  function ProfileAge(u: User): Option<int> {
    if u.profile.Some? then u.profile.value.age else None
  }

  /** The user satisfies one filter entry; an entry that yields no condition is satisfied by everyone. */
  predicate KeyHolds(key: string, value: Json, u: User) {
    var age := ProfileAge(u);
    if key == "age" then
      if value.JNum? then age == Some(value.n)
      else if value.JStr? && ParseInt(value.s).Some? then age == ParseInt(value.s)
      else if value.JObj? || value.JArr? then
        var lo := AgeBound(Member(value, "min"));
        var hi := AgeBound(Member(value, "max"));
        (lo.Some? || hi.Some?) ==>
          age.Some? && (lo.Some? ==> lo.value <= age.value) && (hi.Some? ==> age.value <= hi.value)
      else true
    else if key == "bio" then
      u.profile.Some? && u.profile.value.bio.Some? &&
      IsSubstring(Lower(JsString(value)), Lower(u.profile.value.bio.value))
    else if key == "role" then value == JStr(RoleName(u.role))
    else if key == "status" then value == JStr(UserStatusName(u.status))
    else if key == "email" then u.email == JsString(value)
    else if key == "name" then u.name == JsString(value)
    else true
  }

  /** No search term, or one of the searchable fields contains it, ignoring ASCII case. */
  predicate SearchHolds(term: Option<Json>, searchable: seq<string>, u: User) {
    Truthy(term) ==> exists i | 0 <= i < |searchable| :: ContainsText(UserView(u, [searchable[i]]), term.value, true)
  }

  predicate FiltersHold(entries: seq<(string, Json)>, u: User) {
    forall i | 0 <= i < |entries| :: KeyHolds(entries[i].0, entries[i].1, u)
  }

  /** The user is listed for these parameters. */
  predicate UserSelected(params: seq<(string, Json)>, searchable: seq<string>, u: User) {
    SearchHolds(Get(params, "searchTerm"), searchable, u) && FiltersHold(Without(params, "searchTerm"), u)
  }

  /** Prisma rejects a `role` or `status` value outside its enum; every other entry is always accepted. */
  predicate KeyAccepted(key: string, value: Json) {
    (key == "role" ==> value.JStr? && value.s in {"USER", "ADMIN"}) &&
    (key == "status" ==> value.JStr? && value.s in {"ACTIVE", "INACTIVE"})
  }

  /** The parameters compile to a `where` Prisma accepts. */
  predicate UserQueryAccepted(params: seq<(string, Json)>, searchable: seq<string>) {
    var term := Get(params, "searchTerm");
    var rest := Without(params, "searchTerm");
    (Truthy(term) ==> SearchAccepted(UserSchema, searchable, term.value)) &&
    EntriesAccepted(rest)
  }

  predicate EntriesAccepted(entries: seq<(string, Json)>) {
    forall i | 0 <= i < |entries| :: KeyAccepted(entries[i].0, entries[i].1)
  }

  // ---- Lemmas ----

  /** One more entry adds its own condition and warning, if any, at the end. */
  lemma StepAppended(entries: seq<(string, Json)>, e: (string, Json))
    ensures FieldFilters(entries + [e]) == FieldFilters(entries) + Conds(KeyStep(e.0, e.1))
    ensures Warnings(entries + [e]) == Warnings(entries) + Warned(KeyStep(e.0, e.1))
  {
    assert (entries + [e])[..|entries|] == entries;
  }

  /** The columns the filter keys name. */
  lemma UserColumns()
    ensures Resolve(UserSchema, ["role"]) == Some(Column(Enum({"USER", "ADMIN"}), false))
    ensures Resolve(UserSchema, ["status"]) == Some(Column(Enum({"ACTIVE", "INACTIVE"}), false))
    ensures Resolve(UserSchema, ["email"]) == Some(Column(Text, false))
    ensures Resolve(UserSchema, ["name"]) == Some(Column(Text, false))
    ensures Resolve(UserSchema, AgePath) == Some(Column(Int, true))
    ensures Resolve(UserSchema, BioPath) == Some(Column(Text, true))
  {
    assert UserSchema["role"] == Scalar(Column(Enum({"USER", "ADMIN"}), false));
    assert UserSchema["status"] == Scalar(Column(Enum({"ACTIVE", "INACTIVE"}), false));
    assert UserSchema["profile"].columns["age"] == Column(Int, true);
    assert UserSchema["profile"].columns["bio"] == Column(Text, true);
  }

  /** A one-condition list holds, and is accepted, exactly when its condition is. */
  lemma Single(c: Pred, u: User)
    ensures Matches(And([c]), u, UserView) <==> Matches(c, u, UserView)
    ensures Accepts(UserSchema, And([c])) <==> Accepts(UserSchema, c)
  {
    assert [c][0] == c;
  }

  /** A user's `profile.age` as the where tree sees it. */
  lemma AgeView(u: User)
    ensures UserView(u, AgePath) == if u.profile.Some? then Some(NullableInt(ProfileAge(u))) else None
  {
  }

  /** `profile: { age: { equals: n } }` selects the users whose profile has age n, and is always accepted. */
  lemma AgeEqualsMeaning(n: int, u: User)
    ensures Matches(Equals(AgePath, JNum(n)), u, UserView) <==> ProfileAge(u) == Some(n)
    ensures Accepts(UserSchema, Equals(AgePath, JNum(n)))
  {
    UserColumns();
    AgeView(u);
  }

  /** `profile: { age: { gte, lte } }` selects the users whose profile age lies within the given bounds, and is always accepted. */
  lemma AgeRangeMeaning(lo: Option<int>, hi: Option<int>, u: User)
    ensures Matches(Range(AgePath, lo, hi), u, UserView) <==>
      ProfileAge(u).Some? && (lo.Some? ==> lo.value <= ProfileAge(u).value) && (hi.Some? ==> ProfileAge(u).value <= hi.value)
    ensures Accepts(UserSchema, Range(AgePath, lo, hi))
  {
    UserColumns();
    AgeView(u);
  }

  lemma AgeStepMeaning(value: Json, u: User)
    ensures Matches(And(Conds(AgeStep(value))), u, UserView) <==> KeyHolds("age", value, u)
    ensures Accepts(UserSchema, And(Conds(AgeStep(value))))
  {
    var step := AgeStep(value);
    if value.JNum? {
      AgeEqualsMeaning(value.n, u);
      assert step == Push(Equals(AgePath, JNum(value.n)));
      Single(step.cond, u);
    } else if value.JStr? && ParseInt(value.s).Some? {
      AgeEqualsMeaning(ParseInt(value.s).value, u);
      Single(step.cond, u);
    } else if value.JObj? || value.JArr? {
      var lo := AgeBound(Member(value, "min"));
      var hi := AgeBound(Member(value, "max"));
      if lo.Some? || hi.Some? {
        AgeRangeMeaning(lo, hi, u);
        Single(step.cond, u);
      }
    }
  }

  lemma BioStepMeaning(value: Json, u: User)
    ensures Matches(And(Conds(KeyStep("bio", value))), u, UserView) <==> KeyHolds("bio", value, u)
    ensures Accepts(UserSchema, And(Conds(KeyStep("bio", value))))
  {
    UserColumns();
    Single(Contains(BioPath, JStr(JsString(value)), true), u);
    assert UserView(u, BioPath) == if u.profile.Some? then Some(NullableText(u.profile.value.bio)) else None;
  }

  /** `role` and `status` compare the raw value with the enum name; Prisma accepts only a member of the enum. */
  lemma EnumEqualsMeaning(key: string, value: Json, u: User)
    requires key == "role" || key == "status"
    ensures Matches(Equals([key], value), u, UserView) <==> KeyHolds(key, value, u)
    ensures Accepts(UserSchema, Equals([key], value)) <==> KeyAccepted(key, value)
  {
    UserColumns();
  }

  /** `email` and `name` compare the stored text with `String(value)`, which Prisma always accepts. */
  lemma TextEqualsMeaning(key: string, value: Json, u: User)
    requires key == "email" || key == "name"
    ensures Matches(Equals([key], JStr(JsString(value))), u, UserView) <==> KeyHolds(key, value, u)
    ensures Accepts(UserSchema, Equals([key], JStr(JsString(value))))
  {
    UserColumns();
  }

  lemma EqualsStepMeaning(key: string, value: Json, u: User)
    requires key in {"role", "status", "email", "name"}
    ensures Matches(And(Conds(KeyStep(key, value))), u, UserView) <==> KeyHolds(key, value, u)
    ensures Accepts(UserSchema, And(Conds(KeyStep(key, value)))) <==> KeyAccepted(key, value)
  {
    var step := KeyStep(key, value);
    Single(step.cond, u);
    if key == "role" || key == "status" {
      assert step == Push(Equals([key], value));
      EnumEqualsMeaning(key, value, u);
    } else {
      assert step == Push(Equals([key], JStr(JsString(value))));
      TextEqualsMeaning(key, value, u);
    }
  }

  /** One entry's condition, if any, holds for a user exactly when the entry holds, and is accepted exactly when the entry is. */
  lemma StepMeaning(key: string, value: Json, u: User)
    ensures Matches(And(Conds(KeyStep(key, value))), u, UserView) <==> KeyHolds(key, value, u)
    ensures Accepts(UserSchema, And(Conds(KeyStep(key, value)))) <==> KeyAccepted(key, value)
  {
    if key == "age" {
      AgeStepMeaning(value, u);
    } else if key == "bio" {
      BioStepMeaning(value, u);
    } else if key in {"role", "status", "email", "name"} {
      EqualsStepMeaning(key, value, u);
    }
  }

  /** The field conditions all hold for a user exactly when every entry holds, and are accepted exactly when every entry is. */
  lemma {:induction false} FieldFiltersMeaning(entries: seq<(string, Json)>, u: User)
    ensures Matches(And(FieldFilters(entries)), u, UserView) <==> FiltersHold(entries, u)
    ensures Accepts(UserSchema, And(FieldFilters(entries))) <==> EntriesAccepted(entries)
  {
    if entries != [] {
      var init := entries[..|entries| - 1];
      var last := entries[|entries| - 1];
      FieldFiltersMeaning(init, u);
      StepMeaning(last.0, last.1, u);
      var tail := Conds(KeyStep(last.0, last.1));
      AndConcat(FieldFilters(init), tail, u, UserView);
      AcceptsConcat(UserSchema, FieldFilters(init), tail);
      EntriesSplit(entries, u);
    }
  }

  /** The quantified facts about a list are those about its front and its last entry. */
  lemma EntriesSplit(entries: seq<(string, Json)>, u: User)
    requires entries != []
    ensures var init := entries[..|entries| - 1]; var last := entries[|entries| - 1];
      && (FiltersHold(entries, u) <==> FiltersHold(init, u) && KeyHolds(last.0, last.1, u))
      && (EntriesAccepted(entries) <==> EntriesAccepted(init) && KeyAccepted(last.0, last.1))
  {
    var init := entries[..|entries| - 1];
    var n := |entries| - 1;
    if FiltersHold(entries, u) {
      forall i | 0 <= i < |init| ensures KeyHolds(init[i].0, init[i].1, u) {
        assert init[i] == entries[i];
      }
      assert KeyHolds(entries[n].0, entries[n].1, u);
    }
    if FiltersHold(init, u) && KeyHolds(entries[n].0, entries[n].1, u) {
      forall i | 0 <= i < |entries| ensures KeyHolds(entries[i].0, entries[i].1, u) {
        if i < n {
          assert entries[i] == init[i];
        }
      }
    }
    if EntriesAccepted(entries) {
      forall i | 0 <= i < |init| ensures KeyAccepted(init[i].0, init[i].1) {
        assert init[i] == entries[i];
      }
      assert KeyAccepted(entries[n].0, entries[n].1);
    }
    if EntriesAccepted(init) && KeyAccepted(entries[n].0, entries[n].1) {
      forall i | 0 <= i < |entries| ensures KeyAccepted(entries[i].0, entries[i].1) {
        if i < n {
          assert entries[i] == init[i];
        }
      }
    }
  }

  /** A user satisfies the compiled `where` exactly when the search and every filter entry hold for them. */
  lemma UserWhereMatches(params: seq<(string, Json)>, searchable: seq<string>, u: User)
    ensures Matches(UserWhere(params, searchable), u, UserView) <==> UserSelected(params, searchable, u)
  {
    var term := Get(params, "searchTerm");
    var rest := Without(params, "searchTerm");
    var specific := FieldFilters(rest);
    FieldFiltersMeaning(rest, u);
    var search := if Truthy(term) then [SearchGroup(searchable, term.value, true)] else [];
    var fields := if |specific| > 0 then [And(specific)] else [];
    AndConcat(search, fields, u, UserView);
    if Truthy(term) {
      SearchGroupMatches(searchable, term.value, true, u, UserView);
      Single(search[0], u);
    }
    if |specific| > 0 {
      Single(fields[0], u);
    }
  }

  /** Prisma accepts the compiled `where` exactly when the search fields and term fit and every `role`/`status` value is a member of its enum. */
  lemma UserWhereAccepted(params: seq<(string, Json)>, searchable: seq<string>)
    ensures Accepts(UserSchema, UserWhere(params, searchable)) <==> UserQueryAccepted(params, searchable)
  {
    var term := Get(params, "searchTerm");
    var rest := Without(params, "searchTerm");
    var specific := FieldFilters(rest);
    var u := User("", "", "", "", USER, ACTIVE, "", "", None);
    FieldFiltersMeaning(rest, u);
    var search := if Truthy(term) then [SearchGroup(searchable, term.value, true)] else [];
    var fields := if |specific| > 0 then [And(specific)] else [];
    AcceptsConcat(UserSchema, search, fields);
    assert Accepts(UserSchema, And(search)) <==> (Truthy(term) ==> SearchAccepted(UserSchema, searchable, term.value)) by {
      if Truthy(term) {
        SearchGroupAccepted(UserSchema, searchable, term.value, true);
        Single(search[0], u);
      }
    }
    assert Accepts(UserSchema, And(fields)) <==> EntriesAccepted(rest) by {
      if |specific| > 0 {
        Single(fields[0], u);
      }
    }
  }

  /** `searchTerm` never becomes a field condition: adding a `searchTerm` entry leaves the field conditions unchanged, and a falsy one adds no search group. */
  lemma SearchTermNotAField(params: seq<(string, Json)>, term: Json)
    ensures Without(params + [("searchTerm", term)], "searchTerm") == Without(params, "searchTerm")
  {
    WithoutAppend(params, [("searchTerm", term)], "searchTerm");
    assert Without([("searchTerm", term)], "searchTerm") == [];
  }

  /** A falsy (absent, empty, null, false or zero) search term adds no OR-group. */
  lemma FalsySearchTerm(params: seq<(string, Json)>, searchable: seq<string>)
    requires !Truthy(Get(params, "searchTerm"))
    ensures var f := FieldFilters(Without(params, "searchTerm"));
      UserWhere(params, searchable) == if |f| > 0 then And([And(f)]) else All
  {
  }

  /** A truthy search term adds exactly one OR-group, first, with one case-insensitive `contains` per searchable field. */
  lemma TruthySearchGroup(params: seq<(string, Json)>, searchable: seq<string>)
    requires Truthy(Get(params, "searchTerm"))
    ensures var w := UserWhere(params, searchable);
      w.And? && 1 <= |w.conds| <= 2 && w.conds[0] == SearchGroup(searchable, Get(params, "searchTerm").value, true) &&
      forall i | 1 <= i < |w.conds| :: !w.conds[i].Or?
  {
  }

  /** Removing a key distributes over concatenation. */
  lemma {:induction false} WithoutAppend(a: seq<(string, Json)>, b: seq<(string, Json)>, key: string)
    ensures Without(a + b, key) == Without(a, key) + Without(b, key)
  {
    if b != [] {
      var binit := b[..|b| - 1];
      var blast := b[|b| - 1];
      assert (a + b)[..|a + b| - 1] == a + binit;
      assert (a + b)[|a + b| - 1] == blast;
      WithoutAppend(a, binit, key);
      assert b[..|b| - 1] == binit;
    } else {
      assert a + b == a;
    }
  }

  /** A numeric age, or text that `parseInt` reads, selects exactly the users whose profile has that age. */
  lemma AgeEquals(value: Json, n: int)
    requires value == JNum(n) || (value.JStr? && ParseInt(value.s) == Some(n))
    ensures KeyStep("age", value) == Push(Equals(AgePath, JNum(n)))
    ensures forall u :: KeyHolds("age", value, u) <==> ProfileAge(u) == Some(n)
  {
  }

  /** An age object selects the users whose age lies within its parseable bounds; with neither bound usable it only warns. */
  lemma AgeRange(value: Json, u: User)
    requires value.JObj? || value.JArr?
    ensures var lo := AgeBound(Member(value, "min")); var hi := AgeBound(Member(value, "max"));
      && (lo.Some? || hi.Some? ==> KeyStep("age", value) == Push(Range(AgePath, lo, hi)))
      && (lo.None? && hi.None? ==> KeyStep("age", value) == Warn(AgeRangeUnusable(value)) && KeyHolds("age", value, u))
      && (lo.Some? || hi.Some? ==>
           (Matches(Range(AgePath, lo, hi), u, UserView) <==>
             ProfileAge(u).Some? && (lo.Some? ==> lo.value <= ProfileAge(u).value) && (hi.Some? ==> ProfileAge(u).value <= hi.value)))
  {
    StepMeaning("age", value, u);
    var lo := AgeBound(Member(value, "min"));
    var hi := AgeBound(Member(value, "max"));
    if lo.Some? || hi.Some? {
      assert Range(AgePath, lo, hi) in Conds(KeyStep("age", value));
    }
  }

  /** A key outside the six recognised ones, and an `age` of any other type, adds no condition and never fails the listing. */
  lemma IgnoredKeys(key: string, value: Json)
    requires key !in {"age", "bio", "role", "status", "email", "name"} ||
      (key == "age" && !value.JNum? && !value.JObj? && !value.JArr? && !(value.JStr? && ParseInt(value.s).Some?))
    ensures Conds(KeyStep(key, value)) == []
    ensures KeyAccepted(key, value)
    ensures forall u :: KeyHolds(key, value, u)
  {
  }

  /** `where` is `{}` exactly when there is neither a truthy search term nor a field condition. */
  lemma EmptyWhere(params: seq<(string, Json)>, searchable: seq<string>)
    ensures UserWhere(params, searchable) == All <==>
      !Truthy(Get(params, "searchTerm")) && FieldFilters(Without(params, "searchTerm")) == []
  {
  }
}
