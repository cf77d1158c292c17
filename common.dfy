/** Vocabulary shared by both services: nullable values, the exceptions the
    consumers raise, timestamps, the ordinal order on strings used by the
    "order by Make" queries, and the largest element of a set of timestamps. */
module Common {

  /** Timestamps, in whole seconds (DateTime in the services). */
  type Time = int

  /** A C# reference or Nullable<T> value: null is None. */
  datatype Option<+T> = None | Some(value: T)

  /** C#'s `x ?? fallback`. */
  function Coalesce<T>(x: Option<T>, fallback: T): T
  {
    match x
    case Some(v) => v
    case None => fallback
  }

  /** string.IsNullOrEmpty */
  predicate IsNullOrEmpty(s: Option<string>)
  {
    s.None? || s.value == ""
  }

  /** C# string concatenation turns a null operand into "". */
  function NullToEmpty(s: Option<string>): string
  {
    if s.Some? then s.value else ""
  }

  /** The exceptions a handler can end with. */
  datatype Exception =
    | NullReference
    | ArgumentException(message: string)
    | MessageException(message: string)
    | DbUpdateException

  /** How a message consumer finishes: normally, or by throwing. */
  datatype Outcome = Done | Thrown(exception: Exception)

  /** Ordinal (code-point) lexicographic order on strings: `a` sorts no later than `b`. */
  predicate StrLe(a: string, b: string)
  {
    if a == [] then true
    else if b == [] then false
    else if a[0] != b[0] then a[0] < b[0]
    else StrLe(a[1..], b[1..])
  }

  lemma {:induction false} StrLeTotal(a: string, b: string)
    ensures StrLe(a, b) || StrLe(b, a)
  {
    if a != [] && b != [] && a[0] == b[0] {
      StrLeTotal(a[1..], b[1..]);
    }
  }

  lemma {:induction false} StrLeTransitive(a: string, b: string, c: string)
    requires StrLe(a, b) && StrLe(b, c)
    ensures StrLe(a, c)
  {
    if a != [] && b != [] && c != [] && a[0] == b[0] && b[0] == c[0] {
      StrLeTransitive(a[1..], b[1..], c[1..]);
    }
  }

  /** Every non-empty finite set of integers has a largest element. */
  lemma {:induction false} HasMax(s: set<int>)
    requires s != {}
    ensures exists m :: m in s && forall x :: x in s ==> x <= m
  {
    var y := PickOne(s);
    if s != {y} {
      var rest := s - {y};
      HasMax(rest);
      var m :| m in rest && forall x :: x in rest ==> x <= m;
      var top := if m < y then y else m;
      forall x | x in s ensures x <= top {
        if x != y { assert x in rest; }
      }
    } else {
      assert forall x :: x in s ==> x <= y;
    }
  }

  /** Some element of a non-empty set. */
  lemma PickOne<T>(s: set<T>) returns (y: T)
    requires s != {}
    ensures y in s
  {
    if forall e :: e !in s {
      assert false;
    }
    var e :| e in s;
    y := e;
  }

  /** The largest element of a non-empty set. */
  function MaxOf(s: set<int>): (m: int)
    requires s != {}
    ensures m in s
    ensures forall x :: x in s ==> x <= m
  {
    HasMax(s);
    var m :| m in s && forall x :: x in s ==> x <= m;
    m
  }
}
