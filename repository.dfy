/**
 * An in-memory stand-in for Prisma's `findMany` and `count` over one table:
 * validate the arguments, filter, order, then skip and take.
 */
module Repository {
  import opened Wrappers
  import opened Json
  import opened Where
  import opened Errors

  /** `orderBy: { [field]: direction }`. */
  datatype OrderBy = OrderBy(field: string, direction: string)

  /** The arguments of one `findMany` call. */
  datatype Query = Query(where: Pred, skip: int, take: int, orderBy: OrderBy)

  /** What Prisma throws for arguments it does not accept (its message text is not modelled). */
  const ValidationFailure := Thrown(PrismaValidation, "Invalid query arguments", None)

  /** Prisma orders by a scalar column of the model, ascending or descending. */
  predicate OrderAccepted(schema: Schema, o: OrderBy) {
    o.field in schema && schema[o.field].Scalar? && (o.direction == "asc" || o.direction == "desc")
  }

  /** The rows that satisfy `p`, in table order. */
  function Filter<R(==,!new)>(rows: seq<R>, p: Pred, view: (R, Path) -> Option<Json>): (r: seq<R>)
    ensures |r| <= |rows|
    ensures forall x :: x in r <==> x in rows && Matches(p, x, view)
    ensures forall x :: multiset(r)[x] == if Matches(p, x, view) then multiset(rows)[x] else 0
  {
    if rows == [] then []
    else
      var head := if Matches(p, rows[0], view) then [rows[0]] else [];
      assert rows == [rows[0]] + rows[1..];
      assert multiset(rows) == multiset{rows[0]} + multiset(rows[1..]);
      head + Filter(rows[1..], p, view)
  }

  /** Text ordered character by character, a prefix first. */
  predicate TextLeq(a: string, b: string) {
    a == [] || (b != [] && (a[0] < b[0] || (a[0] == b[0] && TextLeq(a[1..], b[1..]))))
  }

  /** Absent and null values first, then booleans, numbers, text, lists and objects. */
  function Rank(v: Option<Json>): nat {
    match v
    case None => 0
    case Some(JNull) => 0
    case Some(JBool(_)) => 1
    case Some(JNum(_)) => 2
    case Some(JStr(_)) => 3
    case Some(JArr(_)) => 4
    case Some(JObj(_)) => 5
  }

  /** A fixed total preorder on stored values; the database's own collation is not modelled. */
  predicate KeyLeq(a: Option<Json>, b: Option<Json>) {
    Rank(a) < Rank(b) ||
    (Rank(a) == Rank(b) &&
      match (a, b)
      case (Some(JBool(x)), Some(JBool(y))) => x ==> y
      case (Some(JNum(x)), Some(JNum(y))) => x <= y
      case (Some(JStr(x)), Some(JStr(y))) => TextLeq(x, y)
      case _ => true)
  }

  /** Row x may stay ahead of row y under the ordering. */
  predicate Before<R>(o: OrderBy, view: (R, Path) -> Option<Json>, x: R, y: R) {
    if o.direction == "asc" then KeyLeq(view(x, [o.field]), view(y, [o.field]))
    else KeyLeq(view(y, [o.field]), view(x, [o.field]))
  }

  /** The rows are in `orderBy` order: every row may stay ahead of every later one. */
  predicate Ordered<R>(o: OrderBy, view: (R, Path) -> Option<Json>, s: seq<R>) {
    forall i, j | 0 <= i < j < |s| :: Before(o, view, s[i], s[j])
  }

  lemma {:induction false} TextLeqTotal(a: string, b: string)
    ensures TextLeq(a, b) || TextLeq(b, a)
  {
    if a != [] && b != [] && a[0] == b[0] {
      TextLeqTotal(a[1..], b[1..]);
    }
  }

  lemma {:induction false} TextLeqTrans(a: string, b: string, c: string)
    requires TextLeq(a, b) && TextLeq(b, c)
    ensures TextLeq(a, c)
  {
    if a != [] && a[0] == b[0] && b[0] == c[0] {
      TextLeqTrans(a[1..], b[1..], c[1..]);
    }
  }

  /** Any two rows are comparable, and the ordering is transitive: a total preorder. */
  lemma BeforeTotal<R>(o: OrderBy, view: (R, Path) -> Option<Json>, x: R, y: R)
    ensures Before(o, view, x, y) || Before(o, view, y, x)
  {
    var a, b := view(x, [o.field]), view(y, [o.field]);
    if a.Some? && b.Some? && a.value.JStr? && b.value.JStr? {
      TextLeqTotal(a.value.s, b.value.s);
    }
  }

  lemma BeforeTrans<R>(o: OrderBy, view: (R, Path) -> Option<Json>, x: R, y: R, z: R)
    requires Before(o, view, x, y) && Before(o, view, y, z)
    ensures Before(o, view, x, z)
  {
    var a, b, c := view(x, [o.field]), view(y, [o.field]), view(z, [o.field]);
    if a.Some? && b.Some? && c.Some? && a.value.JStr? && b.value.JStr? && c.value.JStr? {
      if o.direction == "asc" {
        if Rank(a) == Rank(b) == Rank(c) {
          TextLeqTrans(a.value.s, b.value.s, c.value.s);
        }
      } else if Rank(a) == Rank(b) == Rank(c) {
        TextLeqTrans(c.value.s, b.value.s, a.value.s);
      }
    }
  }

  /** A row that may stay ahead of every row of an ordered list may head it. */
  lemma ConsOrdered<R>(o: OrderBy, view: (R, Path) -> Option<Json>, y: R, s: seq<R>)
    requires Ordered(o, view, s)
    requires forall z | z in s :: Before(o, view, y, z)
    ensures Ordered(o, view, [y] + s)
  {
    var t := [y] + s;
    forall i, j | 0 <= i < j < |t| ensures Before(o, view, t[i], t[j]) {
      if i > 0 {
        assert t[i] == s[i - 1] && t[j] == s[j - 1];
      } else {
        assert t[j] in s;
      }
    }
  }

  /** A row ahead of the head of an ordered list is ahead of all of it. */
  lemma AheadOfHead<R>(o: OrderBy, view: (R, Path) -> Option<Json>, x: R, s: seq<R>)
    requires s != [] && Ordered(o, view, s) && Before(o, view, x, s[0])
    ensures forall z | z in s :: Before(o, view, x, z)
  {
    forall z | z in s ensures Before(o, view, x, z) {
      var k :| 0 <= k < |s| && s[k] == z;
      if k > 0 {
        BeforeTrans(o, view, x, s[0], z);
      }
    }
  }

  /** The head of an ordered list is ahead of everything inserted behind it. */
  lemma HeadAheadOfInserted<R>(o: OrderBy, view: (R, Path) -> Option<Json>, x: R, sorted: seq<R>, rest: seq<R>)
    requires sorted != [] && Ordered(o, view, sorted) && Before(o, view, sorted[0], x)
    requires multiset(rest) == multiset(sorted[1..]) + multiset{x}
    ensures forall z | z in rest :: Before(o, view, sorted[0], z)
  {
    forall z | z in rest ensures Before(o, view, sorted[0], z) {
      assert z in multiset(rest);
      if z != x {
        assert z in multiset(sorted[1..]);
        var k :| 0 <= k < |sorted[1..]| && sorted[1..][k] == z;
        assert sorted[k + 1] == z;
      }
    }
  }

  /** Insert x behind every row that may stay ahead of it. */
  function Insert<R(==,!new)>(x: R, sorted: seq<R>, o: OrderBy, view: (R, Path) -> Option<Json>): (r: seq<R>)
    ensures multiset(r) == multiset(sorted) + multiset{x}
    ensures |r| == |sorted| + 1
    ensures Ordered(o, view, sorted) ==> Ordered(o, view, r)
  {
    if sorted == [] then [x]
    else if !Before(o, view, sorted[0], x) then
      BeforeTotal(o, view, sorted[0], x);
      if Ordered(o, view, sorted) then
        AheadOfHead(o, view, x, sorted);
        ConsOrdered(o, view, x, sorted);
        [x] + sorted
      else [x] + sorted
    else
      var rest := Insert(x, sorted[1..], o, view);
      assert sorted == [sorted[0]] + sorted[1..];
      if Ordered(o, view, sorted) then
        assert Ordered(o, view, sorted[1..]) by {
          forall i, j | 0 <= i < j < |sorted[1..]| ensures Before(o, view, sorted[1..][i], sorted[1..][j]) {
            assert sorted[1..][i] == sorted[i + 1] && sorted[1..][j] == sorted[j + 1];
          }
        }
        HeadAheadOfInserted(o, view, x, sorted, rest);
        ConsOrdered(o, view, sorted[0], rest);
        [sorted[0]] + rest
      else [sorted[0]] + rest
  }

  /** The rows in `orderBy` order; equal keys keep table order. */
  function Sort<R(==,!new)>(rows: seq<R>, o: OrderBy, view: (R, Path) -> Option<Json>): (r: seq<R>)
    ensures multiset(r) == multiset(rows) && |r| == |rows|
    ensures Ordered(o, view, r)
  {
    if rows == [] then []
    else
      var r := Insert(rows[|rows| - 1], Sort(rows[..|rows| - 1], o, view), o, view);
      assert rows == rows[..|rows| - 1] + [rows[|rows| - 1]];
      r
  }

  /** Ordering keeps the same rows and their number. */
  lemma SortSameRows<R(!new)>(rows: seq<R>, o: OrderBy, view: (R, Path) -> Option<Json>)
    ensures |Sort(rows, o, view)| == |rows|
    ensures forall x :: x in Sort(rows, o, view) <==> x in rows
  {
    var r := Sort(rows, o, view);
    assert |r| == |multiset(r)| == |multiset(rows)| == |rows|;
    forall x ensures x in r <==> x in rows {
      assert x in r <==> x in multiset(r);
      assert x in rows <==> x in multiset(rows);
    }
  }

  function Min(a: int, b: int): int { if a <= b then a else b }
  function Max(a: int, b: int): int { if a >= b then a else b }

  /**
   * `skip` then `take`. A negative take reads backwards: it keeps the last
   * |take| rows before the `skip` rows cut from the end.
   */
  function Window<R(==,!new)>(s: seq<R>, skip: nat, take: int): (r: seq<R>)
    ensures forall x :: x in r ==> x in s
    ensures take >= 0 ==> |r| == Min(take, Max(0, |s| - skip))
    ensures take < 0 ==> |r| == Min(-take, Max(0, |s| - skip))
    ensures take >= 0 ==> forall i | 0 <= i < |r| :: r[i] == s[skip + i]
    ensures take < 0 ==> forall i | 0 <= i < |r| :: r[i] == s[|s| - Min(skip, |s|) - |r| + i]
  {
    if take >= 0 then
      var start := Min(skip, |s|);
      s[start..Min(start + take, |s|)]
    else
      var end := |s| - Min(skip, |s|);
      s[Max(end + take, 0)..end]
  }

  /** A window of ordered rows is ordered: it is one contiguous run of them. */
  lemma WindowOrdered<R(!new)>(s: seq<R>, skip: nat, take: int, o: OrderBy, view: (R, Path) -> Option<Json>)
    requires Ordered(o, view, s)
    ensures Ordered(o, view, Window(s, skip, take))
  {
    var r := Window(s, skip, take);
    var d := if take >= 0 then skip else |s| - Min(skip, |s|) - |r|;
    assert forall i | 0 <= i < |r| :: r[i] == s[d + i];
    forall i, j | 0 <= i < j < |r| ensures Before(o, view, r[i], r[j]) {
      assert r[i] == s[d + i] && r[j] == s[d + j];
    }
  }

  /** `findMany({ where, skip, take, orderBy })`: the matching rows, in `orderBy` order, then skip and take. */
  function FindMany<R(==,!new)>(rows: seq<R>, view: (R, Path) -> Option<Json>, schema: Schema, q: Query): (r: Result<seq<R>, Thrown>)
    ensures r.Success? <==> Accepts(schema, q.where) && OrderAccepted(schema, q.orderBy) && q.skip >= 0
    ensures r.Failure? ==> r.error == ValidationFailure
    ensures r.Success? ==> r.value == Window(Sort(Filter(rows, q.where, view), q.orderBy, view), q.skip, q.take)
    ensures r.Success? ==> Ordered(q.orderBy, view, r.value)
  {
    if Accepts(schema, q.where) && OrderAccepted(schema, q.orderBy) && q.skip >= 0 then
      var sorted := Sort(Filter(rows, q.where, view), q.orderBy, view);
      WindowOrdered(sorted, q.skip, q.take, q.orderBy, view);
      Success(Window(sorted, q.skip, q.take))
    else Failure(ValidationFailure)
  }

  /** What `findMany` returns holds matching rows only, as many as skip and take leave of them. */
  lemma FindManyRows<R(!new)>(rows: seq<R>, view: (R, Path) -> Option<Json>, schema: Schema, q: Query)
    ensures var r := FindMany(rows, view, schema, q);
      r.Success? ==>
        var matching := Filter(rows, q.where, view);
        && (forall x :: x in r.value ==> x in matching)
        && |r.value| <= |matching|
        && (q.take >= 0 ==> |r.value| == Min(q.take, Max(0, |matching| - q.skip)))
        && (q.take < 0 ==> |r.value| == Min(-q.take, Max(0, |matching| - q.skip)))
  {
    var r := FindMany(rows, view, schema, q);
    if r.Success? {
      var matching := Filter(rows, q.where, view);
      PageOfOrdered(matching, q.orderBy, view, q.skip, q.take, r.value);
    }
  }

  /** A window never holds more rows than its input, nor rows from elsewhere. */
  lemma WindowWithin<R(!new)>(s: seq<R>, skip: nat, take: int)
    ensures |Window(s, skip, take)| <= |s|
    ensures forall x :: x in Window(s, skip, take) ==> x in s
  {
  }

  /** The page cut from ordered rows holds some of those rows, as many as skip and take leave. */
  lemma PageOfOrdered<R(!new)>(s: seq<R>, o: OrderBy, view: (R, Path) -> Option<Json>, skip: nat, take: int, page: seq<R>)
    requires page == Window(Sort(s, o, view), skip, take)
    ensures forall x :: x in page ==> x in s
    ensures |page| <= |s|
    ensures take >= 0 ==> |page| == Min(take, Max(0, |s| - skip))
    ensures take < 0 ==> |page| == Min(-take, Max(0, |s| - skip))
  {
    SortSameRows(s, o, view);
    WindowWithin(Sort(s, o, view), skip, take);
  }

  /** `count({ where })`: the number of matching rows. */
  function Count<R(==,!new)>(rows: seq<R>, view: (R, Path) -> Option<Json>, schema: Schema, where: Pred): (r: Result<nat, Thrown>)
    ensures r.Success? <==> Accepts(schema, where)
    ensures r.Failure? ==> r.error == ValidationFailure
    ensures r.Success? ==> r.value == |Filter(rows, where, view)| <= |rows|
  {
    if Accepts(schema, where) then Success(|Filter(rows, where, view)|) else Failure(ValidationFailure)
  }
}
