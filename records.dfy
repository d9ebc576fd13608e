/**
 * The stored entities (generated/prisma/index.d.ts: the enums and the User,
 * Profile, Trip and TravelBuddyRequest scalars), how each shows its fields to a
 * `where` tree, and the schema Prisma validates `where` and `orderBy` against.
 * Dates are kept as their ISO-8601 text; budget is a whole number.
 */
module Records {
  import opened Wrappers
  import opened Json
  import opened Where

  datatype UserRole = USER | ADMIN
  datatype UserStatus = ACTIVE | INACTIVE
  datatype RequestStatus = PENDING | APPROVED | REJECTED

  function RoleName(r: UserRole): string {
    match r
    case USER => "USER"
    case ADMIN => "ADMIN"
  }

  function UserStatusName(s: UserStatus): string {
    match s
    case ACTIVE => "ACTIVE"
    case INACTIVE => "INACTIVE"
  }

  function RequestStatusName(s: RequestStatus): string {
    match s
    case PENDING => "PENDING"
    case APPROVED => "APPROVED"
    case REJECTED => "REJECTED"
  }

  datatype Profile = Profile(
    id: string, userId: string, bio: Option<string>, age: Option<int>, profilePhoto: Option<string>,
    createdAt: string, updatedAt: string)

  datatype User = User(
    id: string, name: string, email: string, password: string, role: UserRole, status: UserStatus,
    createdAt: string, updatedAt: string, profile: Option<Profile>)

  datatype Trip = Trip(
    id: string, userId: string, destination: string, startDate: string, endDate: string, budget: int,
    tripType: string, description: string, itinerary: Option<string>, photos: seq<string>,
    activities: seq<string>, createdAt: string, updatedAt: string)

  datatype BuddyRequest = BuddyRequest(
    id: string, tripId: string, userId: string, status: RequestStatus, message: Option<string>,
    createdAt: string, updatedAt: string)

  function NullableText(s: Option<string>): Json {
    if s.Some? then JStr(s.value) else JNull
  }

  function NullableInt(n: Option<int>): Json {
    if n.Some? then JNum(n.value) else JNull
  }

  function TextArray(xs: seq<string>): (j: Json)
    ensures j.JArr? && |j.items| == |xs|
    ensures forall i | 0 <= i < |xs| :: j.items[i] == JStr(xs[i])
  {
    JArr(seq(|xs|, i requires 0 <= i < |xs| => JStr(xs[i])))
  }

  function ProfileColumn(p: Profile, name: string): Option<Json> {
    if name == "id" then Some(JStr(p.id))
    else if name == "userId" then Some(JStr(p.userId))
    else if name == "bio" then Some(NullableText(p.bio))
    else if name == "age" then Some(NullableInt(p.age))
    else if name == "profilePhoto" then Some(NullableText(p.profilePhoto))
    else if name == "createdAt" then Some(JStr(p.createdAt))
    else if name == "updatedAt" then Some(JStr(p.updatedAt))
    else None
  }

  /** A user's value at a path; `profile.<column>` has no value when the user has no profile. */
  function UserView(u: User, path: Path): Option<Json> {
    if |path| == 1 then
      var name := path[0];
      if name == "id" then Some(JStr(u.id))
      else if name == "name" then Some(JStr(u.name))
      else if name == "email" then Some(JStr(u.email))
      else if name == "password" then Some(JStr(u.password))
      else if name == "role" then Some(JStr(RoleName(u.role)))
      else if name == "status" then Some(JStr(UserStatusName(u.status)))
      else if name == "createdAt" then Some(JStr(u.createdAt))
      else if name == "updatedAt" then Some(JStr(u.updatedAt))
      else None
    else if |path| == 2 && path[0] == "profile" && u.profile.Some? then ProfileColumn(u.profile.value, path[1])
    else None
  }

  /** A trip's value at a path. */
  function TripView(t: Trip, path: Path): Option<Json> {
    if |path| != 1 then None
    else
      var name := path[0];
      if name == "id" then Some(JStr(t.id))
      else if name == "userId" then Some(JStr(t.userId))
      else if name == "destination" then Some(JStr(t.destination))
      else if name == "startDate" then Some(JStr(t.startDate))
      else if name == "endDate" then Some(JStr(t.endDate))
      else if name == "budget" then Some(JNum(t.budget))
      else if name == "type" then Some(JStr(t.tripType))
      else if name == "description" then Some(JStr(t.description))
      else if name == "itinerary" then Some(NullableText(t.itinerary))
      else if name == "photos" then Some(TextArray(t.photos))
      else if name == "activities" then Some(TextArray(t.activities))
      else if name == "createdAt" then Some(JStr(t.createdAt))
      else if name == "updatedAt" then Some(JStr(t.updatedAt))
      else None
  }

  const RequiredText := Scalar(Column(Text, false))
  const OptionalText := Column(Text, true)
  const Timestamp := Column(DateTime, false)

  /** UserWhereInput and ProfileWhereInput (index.d.ts:6062-6076, 6138-6150); the list relations are left out. */
  const UserSchema: Schema := map[
    "id" := RequiredText, "name" := RequiredText, "email" := RequiredText, "password" := RequiredText,
    "role" := Scalar(Column(Enum({"USER", "ADMIN"}), false)),
    "status" := Scalar(Column(Enum({"ACTIVE", "INACTIVE"}), false)),
    "createdAt" := Scalar(Timestamp), "updatedAt" := Scalar(Timestamp),
    "profile" := Relation(map[
      "id" := Column(Text, false), "userId" := Column(Text, false), "bio" := OptionalText,
      "age" := Column(Int, true), "profilePhoto" := OptionalText,
      "createdAt" := Timestamp, "updatedAt" := Timestamp])]

  /** TripWhereInput (index.d.ts:6205-6224); the relations are left out. */
  const TripSchema: Schema := map[
    "id" := RequiredText, "userId" := RequiredText, "destination" := RequiredText,
    "startDate" := Scalar(Timestamp), "endDate" := Scalar(Timestamp),
    "budget" := Scalar(Column(Decimal, false)), "type" := RequiredText, "description" := RequiredText,
    "itinerary" := Scalar(OptionalText),
    "photos" := Scalar(Column(TextList, false)), "activities" := Scalar(Column(TextList, false)),
    "createdAt" := Scalar(Timestamp), "updatedAt" := Scalar(Timestamp)]

  /** A value is an element of a stored text list exactly when it is text and one of the list's strings. */
  lemma TextArrayHas(xs: seq<string>, e: Json)
    ensures e in TextArray(xs).items <==> e.JStr? && e.s in xs
  {
    var items := TextArray(xs).items;
    if e in items {
      var i :| 0 <= i < |items| && items[i] == e;
      assert xs[i] == e.s;
    }
    if e.JStr? && e.s in xs {
      var i :| 0 <= i < |xs| && xs[i] == e.s;
      assert items[i] == e;
    }
  }
}
