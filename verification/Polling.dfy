/** The vocabulary of a poll-driven program: what one poll may answer. */
module Polling {
  datatype Option<+T> = None | Some(value: T)

  datatype Result<+T, +E> = Ok(value: T) | Err(error: E)

  /** `Poll<Result<T, E>>` of the source, flattened: not yet, done, or failed. */
  datatype Poll<+T, +E> = Pending | Ready(value: T) | Failed(error: E)

  /** One scripted answer of a collaborator that returns nothing but success. */
  datatype Step = StepPending | StepOk | StepError

  /** All elements of `parts`, one after the other. */
  function Concat<T>(parts: seq<seq<T>>): (whole: seq<T>) {
    if parts == [] then [] else Concat(parts[..|parts| - 1]) + parts[|parts| - 1]
  }

  lemma Associative<T>(a: seq<T>, b: seq<T>, c: seq<T>)
    ensures (a + b) + c == a + (b + c)
  {
  }

  lemma Cut<T>(s: seq<T>, lo: nat, mid: nat, hi: nat)
    requires lo <= mid <= hi <= |s|
    ensures s[lo..hi] == s[lo..mid] + s[mid..hi]
    ensures s[lo..hi][..mid - lo] == s[lo..mid]
  {
  }

  lemma ConcatAppend<T>(parts: seq<seq<T>>, last: seq<T>)
    ensures Concat(parts + [last]) == Concat(parts) + last
  {
    assert (parts + [last])[..|parts|] == parts;
  }

  /** A longer prefix of `parts` never has a shorter concatenation. */
  lemma {:induction false} ConcatMonotone<T>(parts: seq<seq<T>>, i: nat, j: nat)
    requires i <= j <= |parts|
    ensures |Concat(parts[..i])| <= |Concat(parts[..j])|
    decreases j - i
  {
    if i < j {
      ConcatMonotone(parts, i, j - 1);
      assert parts[..j] == parts[..j - 1] + [parts[j - 1]];
      ConcatAppend(parts[..j - 1], parts[j - 1]);
    }
  }

  lemma SizeOfParts<T>(a: set<T>, b: set<T>, c: set<T>, d: set<T>)
    requires a !! b !! c !! d
    ensures |a + b + c + d| == |a| + |b| + |c| + |d|
  {
    assert |a + b| == |a| + |b|;
    assert |(a + b) + c| == |a + b| + |c|;
    assert |((a + b) + c) + d| == |(a + b) + c| + |d|;
  }

  lemma SizeOfSubset<T>(a: set<T>, b: set<T>)
    requires a <= b
    ensures |a| <= |b|
  {
    assert b == a + (b - a);
  }
}
