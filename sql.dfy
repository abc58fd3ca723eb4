/**
 * SQLite values as the store sees them, the `=` operator of a WHERE clause and
 * the ordering used by ORDER BY.
 */
module Sql {

  /** A column value: NULL, an integer or a text (the storage classes the app uses). */
  datatype Value = Null | Int(n: int) | Text(s: string)

  /** SQL `a = b`: NULL is never equal to anything, not even to NULL. */
  predicate SqlEq(a: Value, b: Value)
  {
    a != Null && a == b
  }

  /** BINARY collation: lexicographic comparison of the characters. */
  predicate TextLe(a: string, b: string)
  {
    if |a| == 0 then true
    else if |b| == 0 then false
    else if a[0] != b[0] then a[0] < b[0]
    else TextLe(a[1..], b[1..])
  }

  /** Rank of a storage class in ORDER BY: NULL, then numbers, then text. */
  function ClassRank(v: Value): nat
  {
    match v
    case Null => 0
    case Int(_) => 1
    case Text(_) => 2
  }

  /** The ascending ORDER BY relation on values. */
  predicate ValueLe(a: Value, b: Value)
  {
    if ClassRank(a) != ClassRank(b) then ClassRank(a) < ClassRank(b)
    else match a
      case Null => true
      case Int(x) => x <= b.n
      case Text(x) => TextLe(x, b.s)
  }

  lemma {:induction false} TextLeTotal(a: string, b: string)
    ensures TextLe(a, b) || TextLe(b, a)
  {
    if |a| > 0 && |b| > 0 && a[0] == b[0] {
      TextLeTotal(a[1..], b[1..]);
    }
  }

  lemma {:induction false} TextLeTransitive(a: string, b: string, c: string)
    requires TextLe(a, b) && TextLe(b, c)
    ensures TextLe(a, c)
  {
    if |a| > 0 && |b| > 0 && |c| > 0 && a[0] == b[0] && b[0] == c[0] {
      TextLeTransitive(a[1..], b[1..], c[1..]);
    }
  }

  lemma ValueLeTotal(a: Value, b: Value)
    ensures ValueLe(a, b) || ValueLe(b, a)
  {
    if a.Text? && b.Text? {
      TextLeTotal(a.s, b.s);
    }
  }

  lemma ValueLeTransitive(a: Value, b: Value, c: Value)
    requires ValueLe(a, b) && ValueLe(b, c)
    ensures ValueLe(a, c)
  {
    if a.Text? && b.Text? && c.Text? {
      TextLeTransitive(a.s, b.s, c.s);
    }
  }
}
