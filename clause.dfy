/**
 * The SQL text BaseModel builds: `key = ?` conditions joined by " AND " (WHERE)
 * or ", " (SET), `?` placeholders for INSERT, and the parameter lists bound to them.
 */
module Clause {
  import opened Sql

  /** A `Partial<T>` object: its entries in `Object.keys` order. */
  type Fields = seq<(string, Value)>

  /** `Object.keys(f)` */
  function Keys(f: Fields): (r: seq<string>)
    ensures |r| == |f|
  {
    seq(|f|, i requires 0 <= i < |f| => f[i].0)
  }

  /** `keys.map(key => f[key])`, the values bound to the placeholders */
  function Values(f: Fields): (r: seq<Value>)
    ensures |r| == |f|
  {
    seq(|f|, i requires 0 <= i < |f| => f[i].1)
  }

  /** `Array.prototype.join` */
  function Join(parts: seq<string>, sep: string): string
  {
    if |parts| == 0 then ""
    else if |parts| == 1 then parts[0]
    else parts[0] + sep + Join(parts[1..], sep)
  }

  function Condition(key: string): string
  {
    key + " = ?"
  }

  function Conditions(keys: seq<string>): (r: seq<string>)
    ensures |r| == |keys|
  {
    seq(|keys|, i requires 0 <= i < |keys| => Condition(keys[i]))
  }

  /** `conditions.map(key => `${key} = ?`).join(' AND ')` */
  function WhereClause(keys: seq<string>): string
  {
    Join(Conditions(keys), " AND ")
  }

  /** `dataKeys.map(key => `${key} = ?`).join(', ')` */
  function SetClause(keys: seq<string>): string
  {
    Join(Conditions(keys), ", ")
  }

  /** `keys.map(() => '?').join(', ')` */
  function Placeholders(n: nat): string
  {
    Join(seq(n, _ => "?"), ", ")
  }

  /** The statement findMany, count and findManyPaginated issue for a filter. */
  function SelectSql(table: string, keys: seq<string>): string
  {
    if |keys| == 0 then "SELECT * FROM " + table
    else "SELECT * FROM " + table + " WHERE " + WhereClause(keys)
  }

  function InsertSql(table: string, keys: seq<string>): string
  {
    "INSERT INTO " + table + " (" + Join(keys, ", ") + ") VALUES (" + Placeholders(|keys|) + ")"
  }

  function UpdateSql(table: string, dataKeys: seq<string>, whereKeys: seq<string>): string
  {
    "UPDATE " + table + " SET " + SetClause(dataKeys) + " WHERE " + WhereClause(whereKeys)
  }

  /** `db.run(sql, ...dataValues, ...whereValues)`: data values first, then where values. */
  function UpdateBindings(data: Fields, where: Fields): (r: seq<Value>)
    ensures |r| == |data| + |where|
    ensures forall i :: 0 <= i < |data| ==> r[i] == data[i].1
    ensures forall i :: 0 <= i < |where| ==> r[|data| + i] == where[i].1
  {
    Values(data) + Values(where)
  }

  /** Number of occurrences of `c` in `s`. */
  function Count(s: string, c: char): nat
  {
    if |s| == 0 then 0 else (if s[0] == c then 1 else 0) + Count(s[1..], c)
  }

  /** A name that cannot be mistaken for a placeholder. */
  predicate PlainName(s: string)
  {
    '?' !in s
  }

  predicate PlainNames(keys: seq<string>)
  {
    forall i :: 0 <= i < |keys| ==> PlainName(keys[i])
  }

  lemma {:induction false} CountAppend(a: string, b: string, c: char)
    ensures Count(a + b, c) == Count(a, c) + Count(b, c)
  {
    if |a| == 0 {
      assert a + b == b;
    } else {
      assert (a + b)[1..] == a[1..] + b;
      CountAppend(a[1..], b, c);
    }
  }

  lemma {:induction false} CountAbsent(s: string, c: char)
    requires c !in s
    ensures Count(s, c) == 0
  {
    if |s| > 0 {
      CountAbsent(s[1..], c);
    }
  }

  lemma ConditionPlaceholders(key: string)
    requires PlainName(key)
    ensures Count(Condition(key), '?') == 1
  {
    CountAbsent(key, '?');
    CountAppend(key, " = ?", '?');
    assert Count(" = ?", '?') == 1 by {
      assert " = ?"[1..] == "= ?";
      assert "= ?"[1..] == " ?";
      assert " ?"[1..] == "?";
      assert "?"[1..] == "";
    }
  }

  /** Joining parts that each hold one placeholder with a separator that holds none
      gives exactly one placeholder per part. */
  lemma {:induction false} JoinPlaceholders(parts: seq<string>, sep: string)
    requires '?' !in sep
    requires forall i :: 0 <= i < |parts| ==> Count(parts[i], '?') == 1
    ensures Count(Join(parts, sep), '?') == |parts|
  {
    if |parts| == 1 {
    } else if |parts| > 1 {
      JoinPlaceholders(parts[1..], sep);
      CountAbsent(sep, '?');
      CountAppend(parts[0], sep, '?');
      CountAppend(parts[0] + sep, Join(parts[1..], sep), '?');
    }
  }

  /** Joining plain names with a plain separator introduces no placeholder. */
  lemma {:induction false} JoinPlain(parts: seq<string>, sep: string)
    requires PlainName(sep) && PlainNames(parts)
    ensures Count(Join(parts, sep), '?') == 0
  {
    if |parts| == 1 {
      CountAbsent(parts[0], '?');
    } else if |parts| > 1 {
      JoinPlain(parts[1..], sep);
      CountAbsent(sep, '?');
      CountAbsent(parts[0], '?');
      CountAppend(parts[0], sep, '?');
      CountAppend(parts[0] + sep, Join(parts[1..], sep), '?');
    }
  }

  /** One `key = ?` per key: the where (and set) clause holds exactly as many
      placeholders as there are keys, i.e. as values bound for it. */
  lemma WhereClausePlaceholders(keys: seq<string>)
    requires PlainNames(keys)
    ensures Count(WhereClause(keys), '?') == |keys|
    ensures Count(SetClause(keys), '?') == |keys|
  {
    var conds := Conditions(keys);
    forall i | 0 <= i < |conds| ensures Count(conds[i], '?') == 1 {
      ConditionPlaceholders(keys[i]);
    }
    JoinPlaceholders(conds, " AND ");
    JoinPlaceholders(conds, ", ");
  }

  lemma PlaceholdersCount(n: nat)
    ensures Count(Placeholders(n), '?') == n
  {
    var marks: seq<string> := seq(n, _ => "?");
    forall i | 0 <= i < n ensures Count(marks[i], '?') == 1 {
      assert marks[i] == "?";
      assert "?"[1..] == "";
    }
    JoinPlaceholders(marks, ", ");
  }

  /** The SELECT of findMany/count binds exactly `Values(where)`. */
  lemma SelectBindsWhereValues(table: string, where: Fields)
    requires PlainName(table) && PlainNames(Keys(where))
    ensures Count(SelectSql(table, Keys(where)), '?') == |Values(where)|
  {
    CountAbsent("SELECT * FROM " + table, '?');
    if |where| > 0 {
      CountAbsent("SELECT * FROM " + table + " WHERE ", '?');
      WhereClausePlaceholders(Keys(where));
      CountAppend("SELECT * FROM " + table + " WHERE ", WhereClause(Keys(where)), '?');
    }
  }

  /** The INSERT of create binds exactly `Object.values(data)`. */
  lemma InsertBindsDataValues(table: string, data: Fields)
    requires PlainName(table) && PlainNames(Keys(data))
    ensures Count(InsertSql(table, Keys(data)), '?') == |Values(data)|
  {
    var head := "INSERT INTO " + table + " (";
    var cols := Join(Keys(data), ", ");
    var mid := ") VALUES (";
    var marks := Placeholders(|data|);
    CountAbsent(head, '?');
    JoinPlain(Keys(data), ", ");
    CountAbsent(mid, '?');
    PlaceholdersCount(|data|);
    CountAbsent(")", '?');
    CountAppend(head, cols, '?');
    CountAppend(head + cols, mid, '?');
    CountAppend(head + cols + mid, marks, '?');
    CountAppend(head + cols + mid + marks, ")", '?');
  }

  /** The UPDATE of update binds exactly the data values followed by the where values. */
  lemma UpdateBindsDataThenWhere(table: string, data: Fields, where: Fields)
    requires PlainName(table) && PlainNames(Keys(data)) && PlainNames(Keys(where))
    ensures Count(UpdateSql(table, Keys(data), Keys(where)), '?') == |UpdateBindings(data, where)|
  {
    var head := "UPDATE " + table + " SET ";
    var setc := SetClause(Keys(data));
    var mid := " WHERE ";
    var wc := WhereClause(Keys(where));
    CountAbsent(head, '?');
    CountAbsent(mid, '?');
    WhereClausePlaceholders(Keys(data));
    WhereClausePlaceholders(Keys(where));
    CountAppend(head, setc, '?');
    CountAppend(head + setc, mid, '?');
    CountAppend(head + setc + mid, wc, '?');
  }
}
