/**
 * What the services need of their relational store: the error values GORM
 * hands back, and `Where(...).Find(&rows)`, a scan that keeps the rows a
 * filter accepts.
 */
module Storage {

  /** A Go `error` as the services see it: GORM's `ErrRecordNotFound`, or any other error with its text. */
  datatype GoError = RecordNotFound | Plain(text: string)
  {
    /** `err.Error()` */
    function Message(): string
    {
      match this
      case RecordNotFound => "record not found"
      case Plain(t) => t
    }
  }

  /** The text the database reports when a write breaks a unique constraint. */
  const UniqueViolation: string := "duplicate key value violates unique constraint"

  /** Keys of the rows a filter accepts. */
  function Matching<T>(rows: map<nat, T>, keep: T -> bool): set<nat>
  {
    set k | k in rows && keep(rows[k])
  }

  /**
   * `db.Where(cond).Find(&out)`: every accepted row once, in no promised order.
   */
  method Where<T(==)>(rows: map<nat, T>, keep: T -> bool) returns (found: seq<T>)
    ensures forall t :: t in found <==> t in rows.Values && keep(t)
    ensures |found| == |Matching(rows, keep)|
  {
    found := [];
    var todo := rows.Keys;
    while todo != {}
      invariant todo <= rows.Keys
      invariant forall t :: t in found <==> exists k :: k in rows && k !in todo && rows[k] == t && keep(t)
      invariant |found| == |set k | k in rows && k !in todo && keep(rows[k])|
      decreases todo
    {
      var k :| k in todo;
      ghost var before := set j | j in rows && j !in todo && keep(rows[j]);
      todo := todo - {k};
      if keep(rows[k]) {
        found := found + [rows[k]];
        assert (set j | j in rows && j !in todo && keep(rows[j])) == before + {k};
      } else {
        assert (set j | j in rows && j !in todo && keep(rows[j])) == before;
      }
    }
    assert (set k | k in rows && k !in todo && keep(rows[k])) == Matching(rows, keep);
  }
}
