/** Shapes shared by the other modules. */
module Prelude {
  datatype Option<+T> = None | Some(value: T)

  /** The keys of a JavaScript Map or Set in insertion order hold no key twice. */
  ghost predicate Distinct<T>(s: seq<T>) {
    forall i, j | 0 <= i < j < |s| :: s[i] != s[j]
  }

  function SetOf<T>(s: seq<T>): set<T> {
    set x | x in s
  }

  lemma {:induction false} DistinctCardinality<T>(s: seq<T>)
    requires Distinct(s)
    ensures |SetOf(s)| == |s|
  {
    if s != [] {
      var front, last := s[..|s| - 1], s[|s| - 1];
      DistinctCardinality(front);
      assert SetOf(s) == SetOf(front) + {last};
    }
  }

  lemma FirstIsIn<T>(s: seq<T>)
    ensures s == [] || s[0] in s
  {
  }

  lemma Regroup<T>(a: seq<T>, b: seq<T>, c: seq<T>)
    ensures a + (b + c) == (a + b) + c
  {
  }

  function Max(a: int, b: int): int {
    if a < b then b else a
  }

  /** The Fibonacci numbers, 1 from the start on. */
  function Fib(n: int): nat {
    if n <= 2 then 1 else Fib(n - 1) + Fib(n - 2)
  }
}
