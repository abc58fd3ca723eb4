/**
 * BaseModel<T>: the generic CRUD layer over one SQLite table. The table is a
 * sequence of rows in scan order; every SQL statement BaseModel issues is given
 * its effect on that sequence, including the statements SQLite refuses.
 */
module Base {
  import opened Wrappers
  import opened Sql
  import opened Clause

  /** A row: column name to value. */
  type Row = map<string, Value>

  /** Why SQLite refuses a statement (BaseModel rethrows it). */
  datatype DbError =
    | SyntaxError       // an empty WHERE, SET or column list
    | NoSuchColumn      // a key that is not a column of the table
    | ConstraintFailed  // a UNIQUE or PRIMARY KEY violation

  /** The outcome of a BaseModel call: a value, or the error it throws. */
  datatype Db<+T> = Ok(value: T) | Fail(error: DbError)

  datatype Direction = Asc | Desc

  /** `orderBy: { column, direction }` of findManyPaginated */
  datatype OrderBy = OrderBy(column: string, direction: Direction)

  /** The keys of a JavaScript object are distinct. */
  predicate DistinctKeys(f: Fields)
  {
    forall i, j :: 0 <= i < j < |f| ==> f[i].0 != f[j].0
  }

  function KeySet(f: Fields): (r: set<string>)
    ensures forall i :: 0 <= i < |f| ==> f[i].0 in r
  {
    set i | 0 <= i < |f| :: f[i].0
  }

  /** `WHERE k1 = ? AND k2 = ? ...` holds of `row`. */
  predicate Matches(row: Row, where: Fields)
  {
    forall i :: 0 <= i < |where| ==> where[i].0 in row && SqlEq(row[where[i].0], where[i].1)
  }

  /** The rows a SELECT with that WHERE returns, in scan order. */
  function Filter(rows: seq<Row>, where: Fields): (r: seq<Row>)
    ensures |r| <= |rows|
    ensures forall x :: x in r ==> x in rows && Matches(x, where)
  {
    if |rows| == 0 then []
    else (if Matches(rows[0], where) then [rows[0]] else []) + Filter(rows[1..], where)
  }

  /** The rows a DELETE with that WHERE leaves, in scan order. */
  function Reject(rows: seq<Row>, where: Fields): (r: seq<Row>)
    ensures |r| <= |rows|
    ensures forall x :: x in r ==> x in rows && !Matches(x, where)
  {
    if |rows| == 0 then []
    else (if Matches(rows[0], where) then [] else [rows[0]]) + Reject(rows[1..], where)
  }

  /** Index of the first row matching `where`, or |rows| when none does. */
  function FirstIndex(rows: seq<Row>, where: Fields): (k: nat)
    ensures k <= |rows|
    ensures forall j :: 0 <= j < k ==> !Matches(rows[j], where)
    ensures k < |rows| ==> Matches(rows[k], where)
  {
    if |rows| == 0 then 0
    else if Matches(rows[0], where) then 0
    else 1 + FirstIndex(rows[1..], where)
  }

  /** `SET k1 = ?, k2 = ? ...` applied to one row. */
  function Assign(row: Row, data: Fields): (r: Row)
    requires DistinctKeys(data)
    ensures r.Keys == row.Keys + KeySet(data)
    ensures forall i :: 0 <= i < |data| ==> r[data[i].0] == data[i].1
    ensures forall k :: k in row && k !in KeySet(data) ==> r[k] == row[k]
    decreases |data|
  {
    if |data| == 0 then row
    else
      var rest := data[1..];
      assert KeySet(data) == {data[0].0} + KeySet(rest) by {
        forall k | k in KeySet(data) ensures k in {data[0].0} + KeySet(rest) {
          var i :| 0 <= i < |data| && data[i].0 == k;
          if i > 0 { assert rest[i - 1].0 == k; }
        }
      }
      assert data[0].0 !in KeySet(rest);
      Assign(row[data[0].0 := data[0].1], rest)
  }

  /** An UPDATE's effect on the whole table. */
  function UpdateRows(rows: seq<Row>, where: Fields, data: Fields): (r: seq<Row>)
    requires DistinctKeys(data)
    ensures |r| == |rows|
  {
    seq(|rows|, i requires 0 <= i < |rows| => if Matches(rows[i], where) then Assign(rows[i], data) else rows[i])
  }

  predicate AnyMatch(rows: seq<Row>, where: Fields)
  {
    exists i :: 0 <= i < |rows| && Matches(rows[i], where)
  }

  /** No two rows share a non-NULL value in any of the columns `cols`. */
  predicate UniqueIn(rows: seq<Row>, cols: set<string>)
  {
    forall i, j, c ::
      (0 <= i < |rows| && 0 <= j < |rows| && i != j && c in cols
       && c in rows[i] && c in rows[j] && rows[i][c] != Null) ==> rows[i][c] != rows[j][c]
  }

  /** `row` would violate a uniqueness constraint of `cols` against `rows`. */
  predicate Clashes(rows: seq<Row>, row: Row, cols: set<string>)
  {
    exists i, c :: 0 <= i < |rows| && c in cols && c in row && c in rows[i] && row[c] != Null && rows[i][c] == row[c]
  }

  function KeyOf(row: Row, column: string): Value
  {
    if column in row then row[column] else Null
  }

  /** `WHERE k = ?` is `KeyOf(row, k) = v`. */
  lemma MatchesKey(row: Row, k: string, v: Value)
    ensures Matches(row, [(k, v)]) <==> SqlEq(KeyOf(row, k), v)
  {
    var w := [(k, v)];
    assert w[0] == (k, v);
  }

  /** `a` may come before `b` under ORDER BY `o`. */
  predicate Before(o: OrderBy, a: Row, b: Row)
  {
    match o.direction
    case Asc => ValueLe(KeyOf(a, o.column), KeyOf(b, o.column))
    case Desc => ValueLe(KeyOf(b, o.column), KeyOf(a, o.column))
  }

  predicate SortedBy(s: seq<Row>, o: OrderBy)
  {
    forall i, j :: 0 <= i < j < |s| ==> Before(o, s[i], s[j])
  }

  /** Insert `x` into `s` before the first row it may precede. */
  function InsertOrdered(o: OrderBy, x: Row, s: seq<Row>): (r: seq<Row>)
    ensures multiset(r) == multiset(s) + multiset{x}
  {
    if |s| == 0 then [x]
    else if Before(o, x, s[0]) then [x] + s
    else
      assert s == [s[0]] + s[1..];
      [s[0]] + InsertOrdered(o, x, s[1..])
  }

  /** ORDER BY: an insertion sort, stable among rows with equal keys. */
  function SortBy(o: OrderBy, s: seq<Row>): (r: seq<Row>)
    ensures multiset(r) == multiset(s)
  {
    if |s| == 0 then []
    else
      assert s == [s[0]] + s[1..];
      InsertOrdered(o, s[0], SortBy(o, s[1..]))
  }

  /** The effective OFFSET: a negative offset acts as 0. */
  function Skip(n: nat, offset: int): (k: nat)
    ensures k <= n
  {
    if offset < 0 then 0 else if offset > n then n else offset
  }

  /** `LIMIT ? OFFSET ?`: a negative limit means no upper bound. */
  function Page(s: seq<Row>, limit: int, offset: int): (r: seq<Row>)
  {
    var rest := s[Skip(|s|, offset)..];
    if limit < 0 || limit > |rest| then rest else rest[..limit]
  }

  /** The candidate rows in the order the query returns them. */
  function Arrange(orderBy: Option<OrderBy>, s: seq<Row>): (r: seq<Row>)
    ensures multiset(r) == multiset(s) && |r| == |s|
  {
    if orderBy.Some? then
      assert |multiset(SortBy(orderBy.value, s))| == |multiset(s)|;
      SortBy(orderBy.value, s)
    else s
  }

  /** Rows of a paginated query: how many of `n` candidates are returned. */
  function PageLength(n: nat, limit: int, offset: int): nat
  {
    var rest := n - Skip(n, offset);
    if limit < 0 || limit > rest then rest else limit
  }

  // ---------------------------------------------------------------- lemmas

  lemma {:induction false} FilterMembership(rows: seq<Row>, where: Fields)
    ensures forall x :: x in Filter(rows, where) <==> x in rows && Matches(x, where)
  {
    if |rows| > 0 {
      FilterMembership(rows[1..], where);
      assert forall x :: x in rows <==> x == rows[0] || x in rows[1..];
    }
  }

  lemma {:induction false} FilterNoCondition(rows: seq<Row>)
    ensures Filter(rows, []) == rows
  {
    if |rows| > 0 {
      FilterNoCondition(rows[1..]);
      assert rows == [rows[0]] + rows[1..];
    }
  }

  /** Filtering distributes over concatenation: the result keeps scan order. */
  lemma {:induction false} FilterAppend(a: seq<Row>, b: seq<Row>, where: Fields)
    ensures Filter(a + b, where) == Filter(a, where) + Filter(b, where)
  {
    if |a| == 0 {
      assert a + b == b;
    } else {
      assert (a + b)[1..] == a[1..] + b;
      FilterAppend(a[1..], b, where);
    }
  }

  lemma {:induction false} FilterMultiset(rows: seq<Row>, where: Fields)
    ensures multiset(Filter(rows, where)) <= multiset(rows)
  {
    if |rows| > 0 {
      var rest := rows[1..];
      FilterMultiset(rest, where);
      assert rows == [rows[0]] + rest;
      assert multiset(rows) == multiset{rows[0]} + multiset(rest);
    }
  }

  lemma {:induction false} RejectMembership(rows: seq<Row>, where: Fields)
    ensures forall x :: x in Reject(rows, where) <==> x in rows && !Matches(x, where)
  {
    if |rows| > 0 {
      RejectMembership(rows[1..], where);
      assert forall x :: x in rows <==> x == rows[0] || x in rows[1..];
    }
  }

  /** A DELETE removes rows iff some row matched. */
  lemma {:induction false} RejectShrinks(rows: seq<Row>, where: Fields)
    ensures |Reject(rows, where)| < |rows| <==> AnyMatch(rows, where)
  {
    if |rows| > 0 {
      RejectShrinks(rows[1..], where);
      if AnyMatch(rows[1..], where) {
        var i :| 0 <= i < |rows[1..]| && Matches(rows[1..][i], where);
        assert Matches(rows[i + 1], where);
      }
      if AnyMatch(rows, where) && !Matches(rows[0], where) {
        var i :| 0 <= i < |rows| && Matches(rows[i], where);
        assert Matches(rows[1..][i - 1], where);
      }
    }
  }

  lemma FilterNonEmpty(rows: seq<Row>, where: Fields)
    ensures |Filter(rows, where)| > 0 <==> AnyMatch(rows, where)
  {
    FilterMembership(rows, where);
    if AnyMatch(rows, where) {
      var i :| 0 <= i < |rows| && Matches(rows[i], where);
      assert rows[i] in Filter(rows, where);
    }
    if |Filter(rows, where)| > 0 {
      var x := Filter(rows, where)[0];
      assert x in rows;
      var i :| 0 <= i < |rows| && rows[i] == x;
    }
  }

  lemma UniqueAppend(rows: seq<Row>, x: Row, cols: set<string>)
    requires UniqueIn(rows, cols) && !Clashes(rows, x, cols)
    ensures UniqueIn(rows + [x], cols)
  {
    var s := rows + [x];
    forall i, j, c | 0 <= i < |s| && 0 <= j < |s| && i != j && c in cols
      && c in s[i] && c in s[j] && s[i][c] != Null
      ensures s[i][c] != s[j][c]
    {
      if i == |rows| {
        assert s[j] == rows[j];
      } else if j == |rows| {
        assert s[i] == rows[i];
      }
    }
  }

  lemma UniqueCons(x: Row, rows: seq<Row>, cols: set<string>)
    requires UniqueIn([x] + rows, cols)
    ensures UniqueIn(rows, cols) && !Clashes(rows, x, cols)
  {
    var s := [x] + rows;
    forall i, j, c | 0 <= i < |rows| && 0 <= j < |rows| && i != j && c in cols
      && c in rows[i] && c in rows[j] && rows[i][c] != Null
      ensures rows[i][c] != rows[j][c]
    {
      assert s[i + 1] == rows[i] && s[j + 1] == rows[j];
    }
    forall i, c | 0 <= i < |rows| && c in cols && c in x && c in rows[i] && x[c] != Null
      ensures rows[i][c] != x[c]
    {
      assert s[0] == x && s[i + 1] == rows[i];
    }
  }

  lemma ConsUnique(x: Row, rows: seq<Row>, cols: set<string>)
    requires UniqueIn(rows, cols) && !Clashes(rows, x, cols)
    ensures UniqueIn([x] + rows, cols)
  {
    var s := [x] + rows;
    forall i, j, c | 0 <= i < |s| && 0 <= j < |s| && i != j && c in cols
      && c in s[i] && c in s[j] && s[i][c] != Null
      ensures s[i][c] != s[j][c]
    {
      if i == 0 {
        assert s[j] == rows[j - 1];
      } else if j == 0 {
        assert s[i] == rows[i - 1];
        if s[i][c] == s[j][c] {
          assert Clashes(rows, x, cols);
        }
      } else {
        assert s[i] == rows[i - 1] && s[j] == rows[j - 1];
      }
    }
  }

  /** A DELETE never breaks a uniqueness constraint. */
  lemma {:induction false} RejectUnique(rows: seq<Row>, where: Fields, cols: set<string>)
    requires UniqueIn(rows, cols)
    ensures UniqueIn(Reject(rows, where), cols)
  {
    if |rows| > 0 {
      assert rows == [rows[0]] + rows[1..];
      UniqueCons(rows[0], rows[1..], cols);
      RejectUnique(rows[1..], where, cols);
      if !Matches(rows[0], where) {
        var rest := Reject(rows[1..], where);
        forall i | 0 <= i < |rest| ensures rest[i] in rows[1..] {
        }
        ConsUnique(rows[0], rest, cols);
      }
    }
  }

  /** Two rows that agree on a unique column are the same row. */
  lemma UniqueIndex(rows: seq<Row>, cols: set<string>, c: string, i: nat, j: nat)
    requires UniqueIn(rows, cols) && c in cols
    requires i < |rows| && j < |rows| && c in rows[i] && c in rows[j]
    requires rows[i][c] != Null && rows[i][c] == rows[j][c]
    ensures i == j
  {
  }

  /** An UPDATE that assigns no constrained column keeps the table's uniqueness. */
  lemma UpdateKeepsUnique(rows: seq<Row>, where: Fields, data: Fields, cols: set<string>)
    requires DistinctKeys(data) && UniqueIn(rows, cols)
    requires forall i :: 0 <= i < |data| ==> data[i].0 !in cols
    ensures UniqueIn(UpdateRows(rows, where, data), cols)
  {
    var u := UpdateRows(rows, where, data);
    forall i, c | 0 <= i < |rows| && c in cols && c in rows[i]
      ensures c in u[i] && u[i][c] == rows[i][c]
    {
      assert c !in KeySet(data);
    }
  }

  lemma BeforeTotal(o: OrderBy, a: Row, b: Row)
    ensures Before(o, a, b) || Before(o, b, a)
  {
    ValueLeTotal(KeyOf(a, o.column), KeyOf(b, o.column));
  }

  lemma BeforeTransitive(o: OrderBy, a: Row, b: Row, c: Row)
    requires Before(o, a, b) && Before(o, b, c)
    ensures Before(o, a, c)
  {
    var ka, kb, kc := KeyOf(a, o.column), KeyOf(b, o.column), KeyOf(c, o.column);
    if o.direction == Asc {
      ValueLeTransitive(ka, kb, kc);
    } else {
      ValueLeTransitive(kc, kb, ka);
    }
  }

  lemma {:induction false} InsertOrderedSorted(o: OrderBy, x: Row, s: seq<Row>)
    requires SortedBy(s, o)
    ensures SortedBy(InsertOrdered(o, x, s), o)
  {
    if |s| == 0 {
    } else if Before(o, x, s[0]) {
      var r := [x] + s;
      forall i, j | 0 <= i < j < |r| ensures Before(o, r[i], r[j]) {
        if i == 0 && j > 1 {
          BeforeTransitive(o, x, s[0], s[j - 1]);
        }
      }
    } else {
      BeforeTotal(o, x, s[0]);
      var tail := InsertOrdered(o, x, s[1..]);
      InsertOrderedSorted(o, x, s[1..]);
      var r := [s[0]] + tail;
      forall i, j | 0 <= i < j < |r| ensures Before(o, r[i], r[j]) {
        if i == 0 {
          var y := r[j];
          assert y in multiset(tail);
          assert y in multiset(s[1..]) + multiset{x};
          if y != x {
            assert y in s[1..];
            var k :| 0 <= k < |s[1..]| && s[1..][k] == y;
            assert s[k + 1] == y;
          }
        }
      }
    }
  }

  lemma {:induction false} SortBySorted(o: OrderBy, s: seq<Row>)
    ensures SortedBy(SortBy(o, s), o)
  {
    if |s| > 0 {
      SortBySorted(o, s[1..]);
      InsertOrderedSorted(o, s[0], SortBy(o, s[1..]));
    }
  }

  lemma PageShape(s: seq<Row>, limit: int, offset: int)
    ensures |Page(s, limit, offset)| == PageLength(|s|, limit, offset)
    ensures Page(s, limit, offset) == s[Skip(|s|, offset)..Skip(|s|, offset) + PageLength(|s|, limit, offset)]
    ensures limit >= 0 ==> |Page(s, limit, offset)| <= limit
  {
  }

  lemma PageMultiset(s: seq<Row>, limit: int, offset: int)
    ensures multiset(Page(s, limit, offset)) <= multiset(s)
  {
    var k := Skip(|s|, offset);
    var n := PageLength(|s|, limit, offset);
    PageShape(s, limit, offset);
    assert s == s[..k] + s[k..k + n] + s[k + n..];
  }

  /** `p` is the run at offset `k` of some ordering of `s` by `o`: which rows a sorted page
      holds is fixed up to rows that tie on the ORDER BY column. */
  ghost predicate SliceOfSorting(p: seq<Row>, s: seq<Row>, o: OrderBy, k: nat)
  {
    exists a :: |a| == |s| && multiset(a) == multiset(s) && SortedBy(a, o)
      && k + |p| <= |a| && p == a[k..k + |p|]
  }

  lemma PageOfArranged(orderBy: Option<OrderBy>, s: seq<Row>, limit: int, offset: int)
    ensures var p := Page(Arrange(orderBy, s), limit, offset);
      |p| == PageLength(|s|, limit, offset)
      && (limit >= 0 ==> |p| <= limit)
      && multiset(p) <= multiset(s)
      && (forall x :: x in p ==> x in s)
      && (orderBy.Some? ==> SortedBy(p, orderBy.value))
      && (orderBy.None? ==> p == s[Skip(|s|, offset)..Skip(|s|, offset) + |p|])
      && (orderBy.Some? ==> SliceOfSorting(p, s, orderBy.value, Skip(|s|, offset)))
  {
    var a := Arrange(orderBy, s);
    if orderBy.Some? {
      SortBySorted(orderBy.value, s);
      PageSorted(a, orderBy.value, limit, offset);
    }
    PageShape(a, limit, offset);
    PageMultiset(a, limit, offset);
    var p := Page(a, limit, offset);
    forall x | x in p ensures x in s {
      assert x in multiset(p);
    }
  }

  lemma PageSorted(s: seq<Row>, o: OrderBy, limit: int, offset: int)
    requires SortedBy(s, o)
    ensures SortedBy(Page(s, limit, offset), o)
  {
    var k := Skip(|s|, offset);
    PageShape(s, limit, offset);
    var p := Page(s, limit, offset);
    forall i, j | 0 <= i < j < |p| ensures Before(o, p[i], p[j]) {
      assert p[i] == s[k + i] && p[j] == s[k + j];
    }
  }

  // ------------------------------------------------------------ the table

  class BaseModel {
    const tableName: string
    const primaryKey: string
    /** The table's columns (the DDL), and those declared UNIQUE. */
    const columns: set<string>
    const uniqueColumns: set<string>
    /** The constant DEFAULTs of the DDL: what an INSERT writes to a column it does not name. */
    const defaults: map<string, Value>
    /** The table, in scan order, and the largest rowid handed out so far. */
    var rows: seq<Row>
    var lastRowId: nat

    /** Columns no two rows may share a value in: UNIQUE ones and the primary key. */
    function KeyColumns(): set<string>
    {
      uniqueColumns + {primaryKey}
    }

    /** Every key of `f` names a column; otherwise SQLite answers "no such column". */
    predicate Known(f: Fields)
    {
      forall i :: 0 <= i < |f| ==> f[i].0 in columns
    }

    lemma KnownKey(k: string, v: Value)
      ensures Known([(k, v)]) <==> k in columns
    {
      var w := [(k, v)];
      assert w[0] == (k, v);
    }

    /** The table invariant on a given table state: every row has exactly the DDL's
        columns, an integer primary key no larger than the last rowid, and no two rows
        share a key value. */
    ghost predicate Stored(rs: seq<Row>, last: nat)
    {
      (forall i :: 0 <= i < |rs| ==> rs[i].Keys == columns)
      && (primaryKey in columns ==>
            forall i :: 0 <= i < |rs| ==> rs[i][primaryKey].Int? && 0 < rs[i][primaryKey].n <= last)
      && UniqueIn(rs, KeyColumns())
    }

    ghost predicate Valid()
      reads this
    {
      Stored(rows, lastRowId)
    }

    /** Appending a full row under the next rowid that clashes with no key keeps the invariant. */
    lemma AppendStored(rs: seq<Row>, last: nat, row: Row)
      requires Stored(rs, last) && row.Keys == columns && !Clashes(rs, row, KeyColumns())
      requires primaryKey in columns ==> row[primaryKey] == Int(last + 1)
      ensures Stored(rs + [row], last + 1)
    {
      UniqueAppend(rs, row, KeyColumns());
    }

    constructor (tableName: string, primaryKey: string, columns: set<string>, uniqueColumns: set<string>,
                 defaults: map<string, Value>)
      ensures this.tableName == tableName && this.primaryKey == primaryKey
      ensures this.columns == columns && this.uniqueColumns == uniqueColumns && this.defaults == defaults
      ensures rows == [] && lastRowId == 0 && Valid()
    {
      this.tableName := tableName;
      this.primaryKey := primaryKey;
      this.columns := columns;
      this.uniqueColumns := uniqueColumns;
      this.defaults := defaults;
      rows := [];
      lastRowId := 0;
    }

    /** The row an INSERT of `data` adds with rowid `id`: an unnamed column takes its
        DEFAULT, or NULL when it has none. */
    function NewRow(data: Fields, id: nat): (r: Row)
      requires DistinctKeys(data) && Known(data) && primaryKey !in KeySet(data)
      ensures r.Keys == columns
      ensures forall i :: 0 <= i < |data| ==> r[data[i].0] == data[i].1
      ensures primaryKey in columns ==> r[primaryKey] == Int(id)
      ensures forall c :: c in columns && c != primaryKey && c !in KeySet(data) ==>
        r[c] == if c in defaults then defaults[c] else Null
    {
      Assign(map c | c in columns :: if c == primaryKey then Int(id) else if c in defaults then defaults[c] else Null, data)
    }

    /** findMany(where) */
    function FindMany(where: Fields): (r: Db<seq<Row>>)
      reads this
      ensures r.Ok? <==> Known(where)
      ensures r.Ok? ==> r.value == Filter(rows, where)
      ensures r.Ok? ==> forall x :: x in r.value <==> x in rows && Matches(x, where)
      ensures r.Ok? ==> multiset(r.value) <= multiset(rows)
      ensures |where| == 0 ==> r == Ok(rows)
    {
      if !Known(where) then Fail(NoSuchColumn)
      else
        FilterMembership(rows, where);
        FilterMultiset(rows, where);
        FilterNoCondition(rows);
        Ok(Filter(rows, where))
    }

    /** findUnique(where): `... WHERE ... LIMIT 1` */
    function FindUnique(where: Fields): (r: Db<Option<Row>>)
      reads this
      ensures r.Ok? <==> |where| > 0 && Known(where)
      ensures r.Ok? ==> (r.value.None? <==> !AnyMatch(rows, where))
      ensures r.Ok? && r.value.Some? ==>
        exists i :: 0 <= i < |rows| && rows[i] == r.value.value && Matches(rows[i], where)
          && forall j :: 0 <= j < i ==> !Matches(rows[j], where)
    {
      if |where| == 0 then Fail(SyntaxError)
      else if !Known(where) then Fail(NoSuchColumn)
      else
        var k := FirstIndex(rows, where);
        if k < |rows| then Ok(Some(rows[k])) else Ok(None)
    }

    /** findById(id): findUnique on the primary key; a table whose primary key is
        not a column (the empty name) makes the statement invalid. */
    function FindById(id: Value): (r: Db<Option<Row>>)
      reads this
      ensures primaryKey in columns ==> r == FindUnique([(primaryKey, id)])
      ensures r.Ok? <==> primaryKey in columns
      ensures r.Ok? && r.value.Some? ==> r.value.value in rows && SqlEq(KeyOf(r.value.value, primaryKey), id)
    {
      if primaryKey !in columns then
        (if primaryKey == "" then Fail(SyntaxError) else Fail(NoSuchColumn))
      else
        var k := FirstIndex(rows, [(primaryKey, id)]);
        if k < |rows| then
          MatchesKey(rows[k], primaryKey, id);
          FindUnique([(primaryKey, id)])
        else FindUnique([(primaryKey, id)])
    }

    /** Under the table invariant the row with that key is the one findById returns. */
    lemma FindByIdIsTheKeyedRow(id: Value, i: nat)
      requires Valid() && primaryKey in columns
      requires i < |rows| && SqlEq(rows[i][primaryKey], id)
      ensures FindById(id) == Ok(Some(rows[i]))
    {
      var k := FirstIndex(rows, [(primaryKey, id)]);
      assert Matches(rows[i], [(primaryKey, id)]);
      assert k <= i;
      MatchesKey(rows[i], primaryKey, id);
      MatchesKey(rows[k], primaryKey, id);
      UniqueIndex(rows, KeyColumns(), primaryKey, i, k);
    }

    /** SQLite accepts `INSERT ... (keys) VALUES (...)` of `data`: a non-empty column list
        of known columns whose row clashes with no key of the table. */
    predicate Insertable(data: Fields)
      requires DistinctKeys(data) && primaryKey !in KeySet(data)
      reads this
    {
      |data| > 0 && Known(data) && !Clashes(rows, NewRow(data, lastRowId + 1), KeyColumns())
    }

    /** The INSERT half of create: adds one row, or fails leaving the table as it was. */
    method Insert(data: Fields) returns (r: Db<Row>)
      requires Valid() && DistinctKeys(data) && primaryKey !in KeySet(data)
      modifies this
      ensures Valid()
      ensures r.Ok? <==> old(Insertable(data))
      ensures r.Ok? ==> lastRowId == old(lastRowId) + 1 && r.value == NewRow(data, lastRowId)
                        && rows == old(rows) + [r.value]
      ensures r.Fail? ==> rows == old(rows) && lastRowId == old(lastRowId)
    {
      if |data| == 0 {
        return Fail(SyntaxError);
      }
      if !Known(data) {
        return Fail(NoSuchColumn);
      }
      var row := NewRow(data, lastRowId + 1);
      if Clashes(rows, row, KeyColumns()) {
        return Fail(ConstraintFailed);
      }
      AppendStored(rows, lastRowId, row);
      rows := rows + [row];
      lastRowId := lastRowId + 1;
      r := Ok(row);
    }

    /** create(data): INSERT, then findById(lastID). `lastID` of an insert is never 0,
        so the call never yields null; it fails when findById cannot run. */
    method Create(data: Fields) returns (r: Db<Option<Row>>)
      requires Valid() && DistinctKeys(data) && primaryKey !in KeySet(data)
      modifies this
      ensures Valid()
      ensures old(Insertable(data)) ==>
        lastRowId == old(lastRowId) + 1 && rows == old(rows) + [NewRow(data, lastRowId)]
      ensures old(Insertable(data)) ==> (r.Ok? <==> primaryKey in columns)
      ensures old(Insertable(data)) && primaryKey == "" && primaryKey !in columns ==> r == Fail(SyntaxError)
      ensures !old(Insertable(data)) ==> r.Fail? && rows == old(rows) && lastRowId == old(lastRowId)
      ensures r.Ok? ==> r.value == Some(rows[|rows| - 1])
    {
      var ins := Insert(data);
      if ins.Fail? {
        return Fail(ins.error);
      }
      if primaryKey in columns {
        FindByIdIsTheKeyedRow(Int(lastRowId), |rows| - 1);
      }
      r := FindById(Int(lastRowId));
    }

    /** update(where, data): `UPDATE ... SET ... WHERE ...`; true iff a row matched. */
    method Update(where: Fields, data: Fields) returns (r: Db<bool>)
      requires Valid() && DistinctKeys(data) && primaryKey !in KeySet(data)
      modifies this
      ensures Valid() && lastRowId == old(lastRowId)
      ensures r.Ok? <==> |data| > 0 && |where| > 0 && Known(data) && Known(where)
                         && UniqueIn(UpdateRows(old(rows), where, data), KeyColumns())
      ensures r.Ok? ==> |rows| == |old(rows)|
      ensures r.Ok? ==> forall i :: 0 <= i < |rows| ==>
                rows[i] == if Matches(old(rows)[i], where) then Assign(old(rows)[i], data) else old(rows)[i]
      ensures r.Ok? ==> (r.value <==> AnyMatch(old(rows), where))
      ensures r.Fail? ==> rows == old(rows)
    {
      if |data| == 0 || |where| == 0 {
        return Fail(SyntaxError);
      }
      if !Known(data) || !Known(where) {
        return Fail(NoSuchColumn);
      }
      var updated := UpdateRows(rows, where, data);
      if !UniqueIn(updated, KeyColumns()) {
        return Fail(ConstraintFailed);
      }
      forall i | 0 <= i < |updated| ensures updated[i].Keys == columns {
        assert KeySet(data) <= columns;
      }
      r := Ok(AnyMatch(rows, where));
      rows := updated;
    }

    /** updateById(id, data): update restricted to the primary key. */
    method UpdateById(id: Value, data: Fields) returns (r: Db<bool>)
      requires Valid() && DistinctKeys(data) && primaryKey !in KeySet(data)
      modifies this
      ensures Valid() && lastRowId == old(lastRowId)
      ensures r.Ok? <==> |data| > 0 && primaryKey in columns && Known(data)
                         && UniqueIn(UpdateRows(old(rows), [(primaryKey, id)], data), KeyColumns())
      ensures r.Ok? ==> |rows| == |old(rows)|
      ensures r.Ok? ==> forall i :: 0 <= i < |rows| ==>
                rows[i] == if SqlEq(KeyOf(old(rows)[i], primaryKey), id) then Assign(old(rows)[i], data) else old(rows)[i]
      ensures r.Ok? ==> (r.value <==> exists i :: 0 <= i < |old(rows)| && SqlEq(KeyOf(old(rows)[i], primaryKey), id))
      ensures r.Fail? ==> rows == old(rows)
    {
      KnownKey(primaryKey, id);
      forall x { MatchesKey(x, primaryKey, id); }
      r := Update([(primaryKey, id)], data);
    }

    /** delete(where): `DELETE ... WHERE ...`; true iff a row was removed. */
    method Delete(where: Fields) returns (r: Db<bool>)
      requires Valid()
      modifies this
      ensures Valid() && lastRowId == old(lastRowId)
      ensures r.Ok? <==> |where| > 0 && Known(where)
      ensures r.Ok? ==> rows == Reject(old(rows), where)
      ensures r.Ok? ==> forall x :: x in rows <==> x in old(rows) && !Matches(x, where)
      ensures r.Ok? ==> (r.value <==> AnyMatch(old(rows), where)) && (r.value <==> |rows| < |old(rows)|)
      ensures r.Fail? ==> rows == old(rows)
    {
      if |where| == 0 {
        return Fail(SyntaxError);
      }
      if !Known(where) {
        return Fail(NoSuchColumn);
      }
      RejectMembership(rows, where);
      RejectShrinks(rows, where);
      RejectUnique(rows, where, KeyColumns());
      var kept := Reject(rows, where);
      forall i | 0 <= i < |kept|
        ensures kept[i].Keys == columns
        ensures primaryKey in columns ==> kept[i][primaryKey].Int? && 0 < kept[i][primaryKey].n <= lastRowId
      {
        assert kept[i] in rows;
      }
      r := Ok(AnyMatch(rows, where));
      rows := kept;
    }

    /** deleteById(id) */
    method DeleteById(id: Value) returns (r: Db<bool>)
      requires Valid()
      modifies this
      ensures Valid() && lastRowId == old(lastRowId)
      ensures r.Ok? <==> primaryKey in columns
      ensures r.Ok? ==> rows == Reject(old(rows), [(primaryKey, id)])
      ensures r.Ok? ==> forall x :: x in rows <==> x in old(rows) && !SqlEq(KeyOf(x, primaryKey), id)
      ensures r.Ok? ==> (r.value <==> exists i :: 0 <= i < |old(rows)| && SqlEq(KeyOf(old(rows)[i], primaryKey), id))
      ensures r.Fail? ==> rows == old(rows)
    {
      KnownKey(primaryKey, id);
      forall x { MatchesKey(x, primaryKey, id); }
      r := Delete([(primaryKey, id)]);
    }

    /** count(where) */
    function Count(where: Fields): (r: Db<nat>)
      reads this
      ensures r.Ok? <==> Known(where)
      ensures r.Ok? ==> r.value == |FindMany(where).value|
      ensures r.Ok? ==> (r.value > 0 <==> AnyMatch(rows, where))
      ensures |where| == 0 ==> r == Ok(|rows|)
    {
      if |where| == 0 then Ok(|rows|)
      else if !Known(where) then Fail(NoSuchColumn)
      else
        FilterNonEmpty(rows, where);
        Ok(|Filter(rows, where)|)
    }

    /** exists(where): count(where) > 0 */
    function Exists(where: Fields): (r: Db<bool>)
      reads this
      ensures r.Ok? <==> Known(where)
      ensures r.Ok? ==> (r.value <==> AnyMatch(rows, where))
    {
      match Count(where)
      case Ok(n) => Ok(n > 0)
      case Fail(e) => Fail(e)
    }

    /** findManyPaginated(where, limit, offset, orderBy) */
    function FindManyPaginated(where: Fields, limit: int, offset: int, orderBy: Option<OrderBy>): (r: Db<seq<Row>>)
      reads this
      ensures r.Ok? <==> Known(where) && (orderBy.Some? ==> orderBy.value.column in columns)
      ensures r.Ok? ==> |r.value| == PageLength(|Filter(rows, where)|, limit, offset)
      ensures r.Ok? && limit >= 0 ==> |r.value| <= limit
      ensures r.Ok? ==> forall x :: x in r.value ==> x in rows && Matches(x, where)
      ensures r.Ok? ==> multiset(r.value) <= multiset(Filter(rows, where))
      ensures r.Ok? && orderBy.Some? ==> SortedBy(r.value, orderBy.value)
      ensures r.Ok? && orderBy.None? ==>
        var k := Skip(|Filter(rows, where)|, offset);
        r.value == Filter(rows, where)[k..k + |r.value|]
      ensures r.Ok? && orderBy.Some? ==>
        SliceOfSorting(r.value, Filter(rows, where), orderBy.value, Skip(|Filter(rows, where)|, offset))
    {
      if !Known(where) then Fail(NoSuchColumn)
      else if orderBy.Some? && orderBy.value.column !in columns then Fail(NoSuchColumn)
      else
        var matching := Filter(rows, where);
        PageOfArranged(orderBy, matching, limit, offset);
        Ok(Page(Arrange(orderBy, matching), limit, offset))
    }
  }
}
