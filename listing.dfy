/**
 * The ordering of the task listing: the time value of a task's `createdAt`
 * read as a date, the comparator that subtracts the first task's time value
 * from the second's, and the in-place sort of the filtered array.
 */
module Listing {
  import opened Json
  import opened Tasks

  /** The largest magnitude of a valid time value, in milliseconds. */
  const MAX_TIME := 8_640_000_000_000_000

  /**
   * The time value of `t`'s `createdAt` read as a date, None for an invalid date (NaN).
   * A number is a date when it lies within MAX_TIME of the epoch; null converts
   * to 0 and a boolean to 0 or 1; a missing `createdAt` is undefined, which is
   * NaN. Strings, arrays and objects go through date-string parsing, which this
   * model does not interpret: they count as invalid.
   */
  function Stamp(t: Task): Option<int>
  {
    if "createdAt" !in t then None
    else
      match t["createdAt"]
      case JNum(n) => if -MAX_TIME <= n <= MAX_TIME then Some(n) else None
      case JNull => Some(0)
      case JBool(b) => Some(if b then 1 else 0)
      case _ => None
  }

  /**
   * The comparator: positive when `x` belongs after `y`. A NaN difference
   * counts as 0, as the sort treats a NaN comparator result.
   */
  function Compare(x: Task, y: Task): int
  {
    match (Stamp(x), Stamp(y))
    case (Some(tx), Some(ty)) => ty - tx
    case _ => 0
  }

  /** The time value of a task with a valid date (0 stands in for the others). */
  function Time(t: Task): int
  {
    match Stamp(t)
    case Some(v) => v
    case None => 0
  }

  ghost predicate AllDated(s: seq<Task>)
  {
    forall t :: t in s ==> Stamp(t).Some?
  }

  /** Validity of all dates depends only on which tasks there are. */
  lemma DatedPermutation(s: seq<Task>, t: seq<Task>)
    requires multiset(s) == multiset(t)
    ensures AllDated(s) == AllDated(t)
  {
    assert forall x :: x in s <==> x in multiset(s);
    assert forall x :: x in t <==> x in multiset(t);
  }

  ghost predicate NewestFirst(s: seq<Task>)
  {
    forall j, k :: 0 <= j < k < |s| ==> Time(s[j]) >= Time(s[k])
  }

  /** Exchanges two elements. */
  method Swap(a: array<Task>, i: nat, j: nat)
    requires i < j < a.Length
    modifies a
    ensures a[..] == old(a[..])[i := old(a[j])][j := old(a[i])]
  {
    a[i], a[j] := a[j], a[i];
  }

  /**
   * The state of inserting the element at `j` into the sorted prefix of
   * length `i`: all pairs are in order except those ending at `j`, and the
   * element at `j` is not older than anything after it up to `i`.
   */
  ghost predicate Inserting(s: seq<Task>, j: nat, i: nat)
    requires j <= i < |s|
  {
    && (forall p, q :: 0 <= p < q <= i && q != j ==> Time(s[p]) >= Time(s[q]))
    && (forall q :: j < q <= i ==> Time(s[j]) >= Time(s[q]))
  }

  /** An exchange below `m` leaves everything from `m` on in place. */
  lemma SwapKeepsTail(s: seq<Task>, i: nat, j: nat, m: nat)
    requires i < j < m <= |s|
    ensures s[i := s[j]][j := s[i]][m..] == s[m..]
  {
  }

  /** Between dated tasks the comparator orders by time value. */
  lemma CompareDated(x: Task, y: Task)
    requires Stamp(x).Some? && Stamp(y).Some?
    ensures Compare(x, y) == Time(y) - Time(x)
  {
  }

  /** One exchange moves the element being inserted one place towards the front. */
  lemma InsertStep(s: seq<Task>, j: nat, i: nat)
    requires 0 < j <= i < |s| && AllDated(s) && Inserting(s, j, i)
    requires Compare(s[j - 1], s[j]) > 0
    ensures Inserting(s[j - 1 := s[j]][j := s[j - 1]], j - 1, i)
  {
    CompareDated(s[j - 1], s[j]);
  }

  /** Once the inserted element is in place, the prefix of length i + 1 is newest first. */
  lemma InsertDone(s: seq<Task>, j: nat, i: nat)
    requires j <= i < |s| && AllDated(s) && Inserting(s, j, i)
    requires j == 0 || Compare(s[j - 1], s[j]) <= 0
    ensures NewestFirst(s[..i + 1])
  {
    if 0 < j {
      CompareDated(s[j - 1], s[j]);
    }
  }

  /** One exchange of the insertion pass, with the facts the pass keeps about it. */
  method ExchangeDown(a: array<Task>, j: nat, i: nat, ghost original: seq<Task>, ghost dated: bool)
    requires 0 < j <= i < a.Length == |original|
    requires Compare(a[j - 1], a[j]) > 0
    requires multiset(a[..]) == multiset(original) && a[i + 1..] == original[i + 1..]
    requires dated ==> AllDated(original) && Inserting(a[..], j, i)
    modifies a
    ensures a[..] == old(a[..])[j - 1 := old(a[j])][j := old(a[j - 1])]
    ensures multiset(a[..]) == multiset(original) && a[i + 1..] == original[i + 1..]
    ensures dated ==> Inserting(a[..], j - 1, i)
  {
    ghost var before := a[..];
    if dated {
      DatedPermutation(original, before);
      InsertStep(before, j, i);
    }
    Swap(a, j - 1, j);
    SwapKeepsTail(before, j - 1, j, i + 1);
  }

  /** Moves `a[i]` towards the front past every older task, as one pass of the sort. */
  method InsertAt(a: array<Task>, i: nat)
    requires i < a.Length
    modifies a
    ensures multiset(a[..]) == multiset(old(a[..]))
    ensures AllDated(old(a[..])) && NewestFirst(old(a[..i])) ==> NewestFirst(a[..i + 1])
    ensures a[i + 1..] == old(a[i + 1..])
  {
    ghost var original := a[..];
    ghost var dated := AllDated(original) && NewestFirst(original[..i]);
    var j := i;
    while 0 < j && Compare(a[j - 1], a[j]) > 0
      invariant 0 <= j <= i
      invariant multiset(a[..]) == multiset(original) && a[i + 1..] == original[i + 1..]
      invariant dated ==> Inserting(a[..], j, i)
    {
      ExchangeDown(a, j, i, original, dated);
      j := j - 1;
    }
    if dated {
      DatedPermutation(original, a[..]);
      InsertDone(a[..], j, i);
    }
  }

  /**
   * Sorts `a` in place with the comparator. The result is a permutation;
   * when every task has a valid date the comparator is a consistent order
   * and the result is newest first.
   */
  method SortNewestFirst(a: array<Task>)
    modifies a
    ensures multiset(a[..]) == multiset(old(a[..]))
    ensures AllDated(old(a[..])) ==> NewestFirst(a[..])
  {
    ghost var dated := AllDated(a[..]);
    var i := 0;
    while i < a.Length
      invariant 0 <= i <= a.Length
      invariant multiset(a[..]) == multiset(old(a[..]))
      invariant dated ==> AllDated(a[..]) && NewestFirst(a[..i])
    {
      InsertAt(a, i);
      if dated {
        DatedPermutation(old(a[..]), a[..]);
      }
      i := i + 1;
    }
    assert a[..a.Length] == a[..];
  }
}
