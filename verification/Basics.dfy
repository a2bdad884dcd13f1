/** Notions shared by several models. */
module Basics {
  datatype Option<+T> = None | Some(value: T)

  ghost predicate NoDuplicates<T>(s: seq<T>) {
    forall a, b :: 0 <= a < b < |s| ==> s[a] != s[b]
  }

  ghost function Elements<T>(s: seq<T>): set<T> {
    set x | x in s
  }

  /** Integer division that truncates towards zero. */
  function Quotient(a: int, b: int): int
    requires b > 0
  {
    if a >= 0 then a / b else -(-a / b)
  }

  /** The elements of a set, in some order. */
  lemma Ordering<T>(s: set<T>) returns (order: seq<T>)
    ensures NoDuplicates(order) && Elements(order) == s
  {
    if s == {} {
      order := [];
    } else {
      var x :| x in s;
      var rest := Ordering(s - {x});
      order := rest + [x];
      assert Elements(order) == Elements(rest) + {x};
      assert x !in Elements(rest);
    }
  }
}
