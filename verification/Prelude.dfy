// Small shared vocabulary: optional values, results of calls that may raise, and list helpers.
module Prelude {

  datatype Option<+T> = None | Some(value: T)

  // Ok is a normal return; Err stands for a raised exception.
  datatype Result<+T, +E> = Ok(value: T) | Err(error: E)

  // What is raised, one constructor for each kind of message.
  datatype Problem =
    | AttemptsTooSmall
    | InvalidCounters
    | NotPositive
    | NotAnObject
    | NotIntegers
    | InvalidModelValues
    | InvalidLimits
    | InvalidModel
    | EmptyText
    | ConstraintViolation
    | WrongVectorCount
    | WrongDimension
    | SourceOfOtherKind
    | FailureThreshold

  function Min(a: int, b: int): int {
    if a < b then a else b
  }

  ghost predicate Distinct<T>(s: seq<T>) {
    forall i, j :: 0 <= i < j < |s| ==> s[i] != s[j]
  }

  function Elements<T>(s: seq<T>): set<T> {
    set x | x in s
  }

  lemma {:induction false} DistinctCardinality<T>(s: seq<T>)
    requires Distinct(s)
    ensures |Elements(s)| == |s|
  {
    if s == [] {
      assert Elements(s) == {};
    } else {
      var front, last := s[..|s| - 1], s[|s| - 1];
      DistinctCardinality(front);
      assert s == front + [last];
      assert Elements(s) == Elements(front) + {last};
      assert last !in Elements(front);
    }
  }

  lemma DistinctSnoc<T>(front: seq<T>, last: T)
    requires Distinct(front) && last !in front
    ensures Distinct(front + [last])
    ensures forall x :: x in front + [last] <==> x in front || x == last
  {
  }

  lemma SplitLast<T>(s: seq<T>)
    requires s != []
    ensures s == s[..|s| - 1] + [s[|s| - 1]]
    ensures forall x :: x in s <==> x in s[..|s| - 1] || x == s[|s| - 1]
    ensures Distinct(s) ==> Distinct(s[..|s| - 1]) && s[|s| - 1] !in s[..|s| - 1]
  {
  }

  lemma SubsetOfSameSize<T>(a: set<T>, b: set<T>)
    requires a <= b && |a| == |b|
    ensures a == b
  {
    assert b == a + (b - a);
    assert |b| == |a| + |b - a|;
  }

  lemma SubsetIsSmaller<T>(a: set<T>, b: set<T>)
    requires a <= b
    ensures |a| <= |b|
  {
    assert b == a + (b - a);
  }

  lemma DisjointSum<T>(a: set<T>, b: set<T>, all: set<T>)
    requires a <= all && b <= all && a !! b
    ensures |a| + |b| <= |all|
  {
    SubsetIsSmaller(a + b, all);
    assert |a + b| == |a| + |b|;
  }
}
