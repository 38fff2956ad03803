/** The query the data hook hands to the hosted database, as data: the table,
    the chained filter predicates, the chained order clauses and an optional
    row limit. A reference evaluator, labelled as such, gives the chained
    predicates their conjunctive meaning over abstract rows; it stands in for
    the database and is not part of the front-end. */
module Query {
  import opened JsValues

  /** A cell value as the query builder passes it. Prices are whole numbers here. */
  datatype Value = Text(s: string) | Number(n: int) | Flag(b: bool)

  /** `column.ilike.%needle%`: a case-insensitive substring pattern. */
  datatype Pattern = ILike(column: string, needle: string)

  /** One chained filter call: `.eq`, `.gte`, `.lte`, or `.or` over patterns. */
  datatype Predicate =
    | Eq(column: string, value: Value)
    | Gte(column: string, bound: int)
    | Lte(column: string, bound: int)
    | AnyOf(patterns: seq<Pattern>)

  /** One chained `.order(column, { ascending })` call. */
  datatype OrderClause = OrderBy(column: string, ascending: bool)

  datatype QueryDesc = QueryDesc(
    table: string,
    predicates: seq<Predicate>,
    orders: seq<OrderClause>,
    limit: Option<int>)

  /** `from(table).select(...)`: no predicates, no ordering, no limit. */
  function Select(table: string): QueryDesc {
    QueryDesc(table, [], [], None)
  }

  /** Chains one more filter predicate after the existing ones. */
  function Where(q: QueryDesc, p: Predicate): QueryDesc {
    q.(predicates := q.predicates + [p])
  }

  /** Chains one more order clause after the existing ones. */
  function Order(q: QueryDesc, column: string, ascending: bool): QueryDesc {
    q.(orders := q.orders + [OrderBy(column, ascending)])
  }

  /** `.limit(n)`. */
  function Limit(q: QueryDesc, n: int): QueryDesc {
    q.(limit := Some(n))
  }

  /** True when some predicate of `ps` compares `column` by equality or range. */
  predicate Constrains(ps: seq<Predicate>, column: string) {
    exists i :: 0 <= i < |ps| && !ps[i].AnyOf? && ps[i].column == column
  }

  /** True when some predicate of `ps` is a disjunction of patterns. */
  predicate HasPatternSearch(ps: seq<Predicate>) {
    exists i :: 0 <= i < |ps| && ps[i].AnyOf?
  }

  // ---------------------------------------------------------------------
  // Reference evaluator (stands in for the database, not the front-end)
  // ---------------------------------------------------------------------

  /** An abstract stored row: column name to cell value. */
  type Row = map<string, Value>

  /** `needle` occurs in `hay` starting at position `i`. */
  predicate OccursAt(hay: string, needle: string, i: int) {
    0 <= i && i + |needle| <= |hay| && hay[i..i + |needle|] == needle
  }

  /** Case-insensitive (ASCII) substring test: the meaning given to `%needle%`. */
  predicate ContainsIgnoringCase(hay: string, needle: string) {
    exists i :: 0 <= i <= |hay| && OccursAt(LowerAscii(hay), LowerAscii(needle), i)
  }

  predicate PatternHolds(row: Row, p: Pattern) {
    p.column in row && row[p.column].Text? && ContainsIgnoringCase(row[p.column].s, p.needle)
  }

  predicate Holds(row: Row, p: Predicate) {
    match p
    case Eq(c, v) => c in row && row[c] == v
    case Gte(c, b) => c in row && row[c].Number? && row[c].n >= b
    case Lte(c, b) => c in row && row[c].Number? && row[c].n <= b
    case AnyOf(pats) => exists j :: 0 <= j < |pats| && PatternHolds(row, pats[j])
  }

  /** Chained predicates are a conjunction. */
  predicate Selects(ps: seq<Predicate>, row: Row) {
    forall i :: 0 <= i < |ps| ==> Holds(row, ps[i])
  }

  /** The rows of `rows` the predicates select, in their stored order. */
  function Matching(ps: seq<Predicate>, rows: seq<Row>): (r: seq<Row>)
    ensures |r| <= |rows|
    ensures forall k :: 0 <= k < |r| ==> Selects(ps, r[k])
  {
    if |rows| == 0 then []
    else (if Selects(ps, rows[0]) then [rows[0]] else []) + Matching(ps, rows[1..])
  }

  /** The exact count the database reports: it depends on the predicates only. */
  function ExactCount(q: QueryDesc, rows: seq<Row>): nat {
    |Matching(q.predicates, rows)|
  }

  /** If every row `ps` selects is also selected by `qs`, then `ps` matches
      no more rows than `qs`, and each row it matches is matched by `qs`. */
  lemma {:induction false} MatchingNarrows(ps: seq<Predicate>, qs: seq<Predicate>, rows: seq<Row>)
    requires forall row :: Selects(ps, row) ==> Selects(qs, row)
    ensures |Matching(ps, rows)| <= |Matching(qs, rows)|
    ensures forall row :: row in Matching(ps, rows) ==> row in Matching(qs, rows)
  {
    if |rows| > 0 {
      MatchingNarrows(ps, qs, rows[1..]);
    }
  }
}
