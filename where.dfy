/**
 * The `where` trees the listing services hand to Prisma, what they mean for a
 * stored record, and which of them Prisma's argument validation accepts for a
 * given model (generated/prisma/index.d.ts: the `...WhereInput` types and the
 * field filters StringFilter, IntNullableFilter, StringNullableListFilter).
 */
module Where {
  import opened Wrappers
  import opened Json

  /** A field name, or a relation name followed by a field of the related model (`profile.age`). */
  type Path = seq<string>

  /** A `where` argument. */
  datatype Pred =
    | All                                              // `{}`
    | And(conds: seq<Pred>)                            // `{ AND: [...] }`
    | Or(conds: seq<Pred>)                             // `{ OR: [...] }`
    | Contains(path: Path, term: Json, insensitive: bool)  // `{ f: { contains: term, mode?: 'insensitive' } }`
    | Has(path: Path, element: Json)                   // `{ f: { has: element } }` on a list field
    | Equals(path: Path, value: Json)                  // `{ f: { equals: value } }`
    | Range(path: Path, gte: Option<int>, lte: Option<int>)  // `{ f: { gte?, lte? } }`

  /** `term` occurs in `text` starting at position i. */
  predicate OccursAt(term: string, text: string, i: int) {
    0 <= i <= |text| - |term| && text[i..i + |term|] == term
  }

  /** `term` occurs in `text`. */
  predicate IsSubstring(term: string, text: string) {
    exists i | 0 <= i <= |text| - |term| :: OccursAt(term, text, i)
  }

  /** Letter case folded the way `mode: 'insensitive'` folds ASCII letters. */
  function Lower(s: string): (r: string)
    ensures |r| == |s|
  {
    seq(|s|, i requires 0 <= i < |s| => if 'A' <= s[i] <= 'Z' then ((s[i] as int) + 32) as char else s[i])
  }

  /** A stored value satisfies `contains: term`: it is text and the term occurs in it. */
  predicate ContainsText(field: Option<Json>, term: Json, insensitive: bool) {
    field.Some? && field.value.JStr? && term.JStr? &&
    if insensitive then IsSubstring(Lower(term.s), Lower(field.value.s)) else IsSubstring(term.s, field.value.s)
  }

  /** `equals`: the same value, where a decimal column also compares equal to its decimal text. */
  predicate FieldEquals(field: Json, value: Json) {
    field == value || (field.JNum? && value.JStr? && SignedDigits(value.s) == Some(field.n))
  }

  /** Whether a record, seen through `view` (its value at each path), satisfies the predicate. */
  predicate Matches<R>(p: Pred, x: R, view: (R, Path) -> Option<Json>)
    decreases p
  {
    match p
    case All => true
    case And(ps) => forall i | 0 <= i < |ps| :: Matches(ps[i], x, view)
    case Or(ps) => exists i | 0 <= i < |ps| :: Matches(ps[i], x, view)
    case Contains(path, term, insensitive) => ContainsText(view(x, path), term, insensitive)
    case Has(path, e) => var f := view(x, path); f.Some? && f.value.JArr? && e in f.value.items
    case Equals(path, v) => var f := view(x, path); f.Some? && FieldEquals(f.value, v)
    case Range(path, lo, hi) =>
      var f := view(x, path);
      f.Some? && f.value.JNum? && (lo.Some? ==> lo.value <= f.value.n) && (hi.Some? ==> f.value.n <= hi.value)
  }

  /** The free-text OR-group: one `contains term` per searchable field, in the given order. */
  function SearchGroup(fields: seq<string>, term: Json, insensitive: bool): (p: Pred)
    ensures p.Or? && |p.conds| == |fields|
    ensures forall i | 0 <= i < |fields| :: p.conds[i] == Contains([fields[i]], term, insensitive)
  {
    Or(seq(|fields|, i requires 0 <= i < |fields| => Contains([fields[i]], term, insensitive)))
  }

  /** A record satisfies the OR-group exactly when one of the searchable fields contains the term. */
  lemma SearchGroupMatches<R>(fields: seq<string>, term: Json, insensitive: bool, x: R, view: (R, Path) -> Option<Json>)
    ensures Matches(SearchGroup(fields, term, insensitive), x, view)
        <==> exists i | 0 <= i < |fields| :: ContainsText(view(x, [fields[i]]), term, insensitive)
  {
    var g := SearchGroup(fields, term, insensitive);
    if Matches(g, x, view) {
      var i :| 0 <= i < |g.conds| && Matches(g.conds[i], x, view);
      assert ContainsText(view(x, [fields[i]]), term, insensitive);
    }
    if exists i | 0 <= i < |fields| :: ContainsText(view(x, [fields[i]]), term, insensitive) {
      var i :| 0 <= i < |fields| && ContainsText(view(x, [fields[i]]), term, insensitive);
      assert Matches(g.conds[i], x, view);
    }
  }

  /** A conjunction of two condition lists holds exactly when each list holds. */
  lemma AndConcat<R>(a: seq<Pred>, b: seq<Pred>, x: R, view: (R, Path) -> Option<Json>)
    ensures Matches(And(a + b), x, view) <==> Matches(And(a), x, view) && Matches(And(b), x, view)
  {
    if Matches(And(a + b), x, view) {
      forall i | 0 <= i < |a| ensures Matches(a[i], x, view) {
        assert (a + b)[i] == a[i];
      }
      forall i | 0 <= i < |b| ensures Matches(b[i], x, view) {
        assert (a + b)[|a| + i] == b[i];
      }
    }
  }

  // ---- What Prisma's argument validation accepts ----

  /** The scalar kinds the two models use. */
  datatype ScalarKind =
    | Text
    | Enum(members: set<string>)
    | Int
    | Decimal
    | DateTime
    | TextList

  datatype Column = Column(kind: ScalarKind, nullable: bool)

  /** A model's field: a scalar column, or a to-one relation with the related model's columns. */
  datatype Field = Scalar(column: Column) | Relation(columns: map<string, Column>)

  type Schema = map<string, Field>

  /** The column a path names, if it names one. */
  function Resolve(schema: Schema, path: Path): (c: Option<Column>)
    ensures c.Some? ==> 1 <= |path| <= 2 && path[0] in schema
  {
    if |path| == 1 && path[0] in schema && schema[path[0]].Scalar? then Some(schema[path[0]].column)
    else if |path| == 2 && path[0] in schema && schema[path[0]].Relation? && path[1] in schema[path[0]].columns
    then Some(schema[path[0]].columns[path[1]])
    else None
  }

  /** A value Prisma accepts for `equals` on the column. Date text is accepted without checking its format. */
  predicate ValueFits(c: Column, v: Json) {
    (v.JNull? && c.nullable) ||
    match c.kind
    case Text => v.JStr?
    case Enum(members) => v.JStr? && v.s in members
    case Int => v.JNum?
    case Decimal => v.JNum? || (v.JStr? && SignedDigits(v.s).Some?)
    case DateTime => v.JStr?
    case TextList => v.JArr? && forall i | 0 <= i < |v.items| :: v.items[i].JStr?
  }

  /** Prisma validates the whole argument before querying: one bad leaf rejects it all. */
  predicate Accepts(schema: Schema, p: Pred)
    decreases p
  {
    match p
    case All => true
    case And(ps) => forall i | 0 <= i < |ps| :: Accepts(schema, ps[i])
    case Or(ps) => forall i | 0 <= i < |ps| :: Accepts(schema, ps[i])
    case Contains(path, term, _) => var c := Resolve(schema, path); c.Some? && c.value.kind.Text? && term.JStr?
    case Has(path, e) => var c := Resolve(schema, path); c.Some? && c.value.kind.TextList? && e.JStr?
    case Equals(path, v) => var c := Resolve(schema, path); c.Some? && ValueFits(c.value, v)
    case Range(path, _, _) => var c := Resolve(schema, path); c.Some? && c.value.kind.Int?
  }

  /** Validation of an AND of two lists accepts exactly when it accepts each list. */
  lemma AcceptsConcat(schema: Schema, a: seq<Pred>, b: seq<Pred>)
    ensures Accepts(schema, And(a + b)) <==> Accepts(schema, And(a)) && Accepts(schema, And(b))
  {
    if Accepts(schema, And(a + b)) {
      forall i | 0 <= i < |a| ensures Accepts(schema, a[i]) {
        assert (a + b)[i] == a[i];
      }
      forall i | 0 <= i < |b| ensures Accepts(schema, b[i]) {
        assert (a + b)[|a| + i] == b[i];
      }
    }
  }

  /** One `contains` on a single field is accepted exactly when the field is a text column and the term is text. */
  lemma ContainsAccepted(schema: Schema, field: string, term: Json, insensitive: bool)
    ensures Accepts(schema, Contains([field], term, insensitive)) <==> TextColumn(schema, field) && term.JStr?
  {
  }

  /** The OR-group is accepted exactly when every searchable field is a text column and, if there is one, the term is text. */
  lemma SearchGroupAccepted(schema: Schema, fields: seq<string>, term: Json, insensitive: bool)
    ensures Accepts(schema, SearchGroup(fields, term, insensitive)) <==> SearchAccepted(schema, fields, term)
  {
    var g := SearchGroup(fields, term, insensitive);
    forall i | 0 <= i < |fields|
      ensures Accepts(schema, g.conds[i]) <==> TextColumn(schema, fields[i]) && term.JStr?
    {
      ContainsAccepted(schema, fields[i], term, insensitive);
    }
    if Accepts(schema, g) {
      forall i | 0 <= i < |fields| ensures TextColumn(schema, fields[i]) {
        assert Accepts(schema, g.conds[i]);
      }
      if fields != [] {
        assert Accepts(schema, g.conds[0]);
      }
    }
    if SearchAccepted(schema, fields, term) {
      forall i | 0 <= i < |g.conds| ensures Accepts(schema, g.conds[i]) {
        assert TextColumn(schema, fields[i]);
      }
    }
  }

  /** Every searchable field is a text column and, if there is one, the term is text. */
  predicate SearchAccepted(schema: Schema, fields: seq<string>, term: Json) {
    (forall i | 0 <= i < |fields| :: TextColumn(schema, fields[i])) && (fields != [] ==> term.JStr?)
  }

  /** The field is a text column of the model. */
  predicate TextColumn(schema: Schema, field: string) {
    field in schema && schema[field].Scalar? && schema[field].column.kind.Text?
  }
}
