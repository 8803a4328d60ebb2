/**
  The conditions lesson: the exam pass mark, an array that keeps only its
  three most recent numbers, and an empty user name replaced by a default.
 */
module Conditions {

  /** The lowest passing score. */
  const PassMark: int := 7

  /** `score >= 7`: the exam is passed. */
  predicate Passes(score: int)
    ensures Passes(score) <==> PassMark <= score
  {
    score >= PassMark
  }

  /** Passing is upward closed: any higher score passes too. */
  lemma PassesUpwardClosed(a: int, b: int)
    requires a <= b && Passes(a)
    ensures Passes(b)
  {
  }

  /** The worked example: a score of 8 passes. */
  lemma ScoreOfEightPasses()
    ensures Passes(8) && !Passes(PassMark - 1)
  {
  }

  /** The most numbers the array keeps. */
  const MaxCount: nat := 3

  /**
    The effect of `append(x)` followed by `remove(at: 0)` when the count is
    then over three: the new number comes last, and at most the single
    oldest number is dropped, only when there are too many.
   */
  function AppendCapped(s: seq<int>, x: int): (r: seq<int>)
    ensures |r| > 0 && r[|r| - 1] == x
    ensures |s| + 1 > MaxCount ==> |r| == |s| && r[..|r| - 1] == s[1..]
    ensures |s| + 1 <= MaxCount ==> r[..|r| - 1] == s
  {
    var appended := s + [x];
    if |appended| > MaxCount then appended[1..] else appended
  }

  /**
    Starting from at most three numbers, the array ends with the three most
    recent numbers, or all of them when there are fewer, in their original
    order.
   */
  lemma AppendCappedKeepsMostRecent(s: seq<int>, x: int)
    requires |s| <= MaxCount
    ensures |AppendCapped(s, x)| <= MaxCount
    ensures AppendCapped(s, x) == (s + [x])[|s| + 1 - Min(|s| + 1, MaxCount)..]
  {
    var r := AppendCapped(s, x);
    assert r == r[..|r| - 1] + [x];
  }

  function Min(a: int, b: int): int
  {
    if a <= b then a else b
  }

  /** The `addNumbers` array, which the condition keeps to at most three numbers. */
  class RecentNumbers {
    var numbers: seq<int>

    ghost predicate Valid()
      reads this
    {
      |numbers| <= MaxCount
    }

    constructor (initial: seq<int>)
      requires |initial| <= MaxCount
      ensures Valid() && numbers == initial
    {
      numbers := initial;
    }

    /** `append(x)`, then `remove(at: 0)` if the count is over three. */
    method Add(x: int)
      requires Valid()
      modifies this
      ensures Valid()
      ensures numbers == AppendCapped(old(numbers), x)
    {
      numbers := numbers + [x];
      if |numbers| > MaxCount {
        numbers := numbers[1..];
      }
      AppendCappedKeepsMostRecent(old(numbers), x);
    }
  }

  /** The worked example: `[9, 56, 16]` with 37 added becomes `[56, 16, 37]`. */
  method AddNumbersExample() returns (numbers: seq<int>)
    ensures numbers == [56, 16, 37]
  {
    var addNumbers := new RecentNumbers([9, 56, 16]);
    addNumbers.Add(37);
    numbers := addNumbers.numbers;
  }

  /** The name used for a user who gave none. */
  const AnonymousName: string := "Anonymous"

  /**
    The user-name check: an empty name is replaced by "Anonymous" and any
    other name is kept, so the name shown is never empty.
   */
  method DefaultUserName(given: string) returns (userName: string)
    ensures userName != ""
    ensures given != "" ==> userName == given
    ensures given == "" ==> userName == AnonymousName
  {
    userName := given;
    if |userName| == 0 {
      userName := AnonymousName;
    }
  }

  /** The two worked examples: "Oxford##" is kept, the empty name becomes "Anonymous". */
  method UserNameExamples() returns (userName: string, userName2: string)
    ensures userName == "Oxford##" && userName2 == "Anonymous"
  {
    userName := DefaultUserName("Oxford##");
    userName2 := DefaultUserName("");
  }
}
