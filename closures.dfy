/**
  The closures lesson: the `SayHello` closure, `UserData(for:)` passed
  around as a function value, and the closure given to `sorted(by:)` that
  puts the team captain first and everyone else in alphabetical order.
 */
module Closures {

  /** The `SayHello` closure. */
  function SayHello(name: string): (greeting: string)
    ensures |greeting| == |name| + |", welcome to Swift."|
    ensures greeting[..|name|] == name && greeting[|name|..] == ", welcome to Swift."
  {
    name + ", welcome to Swift."
  }

  /** Different names get different greetings. */
  lemma SayHelloInjective(a: string, b: string)
    ensures SayHello(a) == SayHello(b) ==> a == b
  {
  }

  /** The one user id `UserData` knows. */
  const KnownUserId: int := 1986

  /** `UserData(for:)`: a total function that names one user and no other. */
  function UserData(id: int): (user: string)
    ensures user == "Andre Rodriguez" <==> id == KnownUserId
    ensures user != "Andre Rodriguez" ==> user == "Anonymous"
  {
    if id == KnownUserId then "Andre Rodriguez" else "Anonymous"
  }

  /**
    Swift's `<` on strings, taken as the lexicographic order on characters;
    a proper prefix comes first. (Dafny's own `<` on sequences is the
    proper-prefix relation, which is not this.)
   */
  predicate LexLess(a: string, b: string)
    ensures LexLess(a, b) ==> |b| > 0
    ensures |a| < |b| && a == b[..|a|] ==> LexLess(a, b)
    ensures |a| > 0 && |b| > 0 && a[0] < b[0] ==> LexLess(a, b)
  {
    if |b| == 0 then false
    else if |a| == 0 then true
    else if a[0] != b[0] then a[0] < b[0]
    else LexLess(a[1..], b[1..])
  }

  lemma {:induction false} LexLessIrreflexive(a: string)
    ensures !LexLess(a, a)
  {
    if |a| > 0 {
      LexLessIrreflexive(a[1..]);
    }
  }

  lemma {:induction false} LexLessTransitive(a: string, b: string, c: string)
    requires LexLess(a, b) && LexLess(b, c)
    ensures LexLess(a, c)
  {
    if |a| > 0 && a[0] == b[0] && b[0] == c[0] {
      LexLessTransitive(a[1..], b[1..], c[1..]);
    }
  }

  lemma {:induction false} LexLessTrichotomous(a: string, b: string)
    ensures a == b || LexLess(a, b) || LexLess(b, a)
  {
    if |a| > 0 && |b| > 0 && a[0] == b[0] {
      LexLessTrichotomous(a[1..], b[1..]);
      if a[1..] == b[1..] {
        assert a == [a[0]] + a[1..] && b == [b[0]] + b[1..];
      }
    }
  }

  /** No two strings each sort before the other. */
  lemma LexLessAsymmetric(a: string, b: string)
    ensures LexLess(a, b) ==> !LexLess(b, a)
  {
  }

  /** The captain the comparator puts first. */
  const Captain: string := "Lucas"

  /**
    The closure given to `team.sorted(by:)`: true when `name1` is to come
    before `name2`. It is also the commented-out `teamCaptain` function.
   */
  predicate CaptainFirst(name1: string, name2: string)
    ensures name1 == Captain ==> CaptainFirst(name1, name2)
    ensures name1 != Captain && name2 == Captain ==> !CaptainFirst(name1, name2)
    ensures name1 != Captain && name2 != Captain ==> (CaptainFirst(name1, name2) <==> LexLess(name1, name2))
  {
    if name1 == Captain then true
    else if name2 == Captain then false
    else LexLess(name1, name2)
  }

  /**
    The comparator is not a strict order on its own: it claims the captain
    comes before the captain.
   */
  lemma CaptainFirstNotIrreflexive()
    ensures CaptainFirst(Captain, Captain)
  {
  }

  /** Away from the pair (captain, captain), the comparator is asymmetric. */
  lemma CaptainFirstAsymmetric(a: string, b: string)
    requires a != Captain || b != Captain
    ensures CaptainFirst(a, b) ==> !CaptainFirst(b, a)
  {
    LexLessAsymmetric(a, b);
  }

  /**
    "May come before", the negation of the comparator with its arguments
    swapped, is transitive for all names.
   */
  lemma NotAfterTransitive(a: string, b: string, c: string)
    requires !CaptainFirst(b, a) && !CaptainFirst(c, b)
    ensures !CaptainFirst(c, a)
  {
    if a != Captain && b != Captain && c != Captain && LexLess(c, a) {
      LexLessTrichotomous(a, b);
      if LexLess(a, b) {
        LexLessTransitive(c, a, b);
      }
    }
  }

  /** Names the comparator cannot separate are the same name. */
  lemma CaptainFirstTiesAreEqual(a: string, b: string)
    requires !CaptainFirst(a, b) && !CaptainFirst(b, a)
    ensures a == b
  {
    LexLessTrichotomous(a, b);
  }

  /** No element is reported by the comparator to belong before an earlier one. */
  ghost predicate SortedByCaptain(r: seq<string>)
  {
    forall i, j :: 0 <= i < j < |r| ==> !CaptainFirst(r[j], r[i])
  }

  /** Non-decreasing in Swift's string order. */
  ghost predicate Ascending(r: seq<string>)
  {
    forall i, j :: 0 <= i < j < |r| ==> !LexLess(r[j], r[i])
  }

  /** The captain appears at most once: the comparator is a strict weak order only then. */
  ghost predicate AtMostOneCaptain(s: seq<string>)
  {
    multiset(s)[Captain] <= 1
  }

  /** Insertion of one name into a list sorted by the comparator. */
  function Insert(x: string, s: seq<string>): (r: seq<string>)
    ensures multiset(r) == multiset(s) + multiset{x}
  {
    if s == [] then [x]
    else if CaptainFirst(s[0], x) then
      assert s == [s[0]] + s[1..];
      [s[0]] + Insert(x, s[1..])
    else [x] + s
  }

  /**
    `sorted(by:)` with the captain comparator, as an insertion sort. The
    result does not depend on the sorting algorithm (see
    SortedByCaptainIsUnique).
   */
  function SortByCaptain(s: seq<string>): (r: seq<string>)
    ensures multiset(r) == multiset(s)
  {
    if s == [] then []
    else
      assert s == [s[0]] + s[1..];
      Insert(s[0], SortByCaptain(s[1..]))
  }

  lemma {:induction false} InsertSorted(x: string, s: seq<string>)
    requires SortedByCaptain(s) && AtMostOneCaptain([x] + s)
    ensures SortedByCaptain(Insert(x, s))
  {
    if s == [] {
    } else if CaptainFirst(s[0], x) {
      var t := Insert(x, s[1..]);
      assert multiset([x] + s) == multiset([x] + s[1..]) + multiset{s[0]} by {
        assert [x] + s == [x] + [s[0]] + s[1..];
      }
      InsertSorted(x, s[1..]);
      assert s[0] != Captain || x != Captain;
      CaptainFirstAsymmetric(s[0], x);
      forall j | 0 <= j < |t|
        ensures !CaptainFirst(t[j], s[0])
      {
        assert t[j] in multiset(t);
        if t[j] != x {
          assert t[j] in multiset(s[1..]);
          var k :| 0 <= k < |s[1..]| && s[1..][k] == t[j];
          assert s[k + 1] == t[j];
        }
      }
      ConsSorted(s[0], t);
    } else {
      forall j | 0 <= j < |s|
        ensures !CaptainFirst(s[j], x)
      {
        if j > 0 {
          NotAfterTransitive(x, s[0], s[j]);
        }
      }
      ConsSorted(x, s);
    }
  }

  lemma ConsSorted(y: string, t: seq<string>)
    requires SortedByCaptain(t)
    requires forall j :: 0 <= j < |t| ==> !CaptainFirst(t[j], y)
    ensures SortedByCaptain([y] + t)
  {
  }

  /** The result of `sorted(by:)` is in the comparator's order, for a list with at most one captain. */
  lemma {:induction false} SortByCaptainSorted(s: seq<string>)
    requires AtMostOneCaptain(s)
    ensures SortedByCaptain(SortByCaptain(s))
  {
    if s != [] {
      assert s == [s[0]] + s[1..];
      assert multiset(s) == multiset(s[1..]) + multiset{s[0]};
      SortByCaptainSorted(s[1..]);
      assert multiset([s[0]] + SortByCaptain(s[1..])) == multiset(s);
      InsertSorted(s[0], SortByCaptain(s[1..]));
    }
  }

  /**
    A list in the comparator's order with the captain at most once has the
    captain, if present, first, and is ascending everywhere else.
   */
  lemma SortedTeamShape(r: seq<string>)
    requires SortedByCaptain(r) && AtMostOneCaptain(r)
    ensures Captain in r ==> r[0] == Captain && Captain !in r[1..] && Ascending(r[1..])
    ensures Captain !in r ==> Ascending(r)
  {
  }

  /**
    For a team with the captain at most once, the sorted team is a
    permutation of it with the captain first, if present, and everyone else
    in ascending order after.
   */
  lemma CaptainFirstThenAscending(s: seq<string>)
    requires AtMostOneCaptain(s)
    ensures multiset(SortByCaptain(s)) == multiset(s)
    ensures Captain in s ==> SortByCaptain(s)[0] == Captain && Captain !in SortByCaptain(s)[1..] && Ascending(SortByCaptain(s)[1..])
    ensures Captain !in s ==> Ascending(SortByCaptain(s))
  {
    var r := SortByCaptain(s);
    SortByCaptainSorted(s);
    assert Captain in r <==> Captain in s by {
      assert Captain in r <==> Captain in multiset(r);
      assert Captain in s <==> Captain in multiset(s);
    }
    SortedTeamShape(r);
  }

  /** In the comparator's order the captain can only stand first. */
  lemma CaptainOnlyAtFront(r: seq<string>)
    requires SortedByCaptain(r)
    ensures forall j :: 0 < j < |r| ==> r[j] != Captain
  {
    forall j | 0 < j < |r|
      ensures r[j] != Captain
    {
      assert !CaptainFirst(r[j], r[0]);
    }
  }

  /**
    Any permutation of the team that is in the comparator's order is the one
    SortByCaptain gives, so the model does not depend on how `sorted(by:)`
    sorts.
   */
  lemma {:induction false} SortedByCaptainIsUnique(a: seq<string>, b: seq<string>)
    requires multiset(a) == multiset(b)
    requires SortedByCaptain(a) && SortedByCaptain(b)
    ensures a == b
  {
    if a != [] {
      assert |b| == |a| by {
        assert |multiset(a)| == |a| && |multiset(b)| == |b|;
      }
      assert b[0] in multiset(a);
      var i :| 0 <= i < |a| && a[i] == b[0];
      assert a[0] in multiset(b);
      var j :| 0 <= j < |b| && b[j] == a[0];
      if a[0] != b[0] {
        // then b[0] stands later in a and a[0] later in b, so neither comes first
        assert !CaptainFirst(a[i], a[0]) && !CaptainFirst(b[j], b[0]);
        CaptainFirstTiesAreEqual(a[0], b[0]);
      }
      assert a == [a[0]] + a[1..] && b == [b[0]] + b[1..];
      assert multiset(a) == multiset{a[0]} + multiset(a[1..]);
      assert multiset(b) == multiset{b[0]} + multiset(b[1..]);
      assert multiset(a[1..]) == multiset(a) - multiset{a[0]};
      assert multiset(b[1..]) == multiset(b) - multiset{b[0]};
      SortedByCaptainIsUnique(a[1..], b[1..]);
    }
  }

  /**
    Whatever algorithm `sorted(by:)` uses, a list with at most one captain
    sorts to the one permutation of it that is in the comparator's order.
   */
  lemma SortByCaptainIsSortedPermutation(s: seq<string>, e: seq<string>)
    requires AtMostOneCaptain(s) && multiset(e) == multiset(s) && SortedByCaptain(e)
    ensures SortByCaptain(s) == e
  {
    SortByCaptainSorted(s);
    SortedByCaptainIsUnique(SortByCaptain(s), e);
  }

  /** The team of the lesson, sorted with the captain comparator. */
  lemma TeamCaptainName()
    ensures SortByCaptain(["Andre", "Graci", "Lucas", "R2-D2", "C3PO"]) == ["Lucas", "Andre", "C3PO", "Graci", "R2-D2"]
  {
    var team := ["Andre", "Graci", "Lucas", "R2-D2", "C3PO"];
    var expected := ["Lucas", "Andre", "C3PO", "Graci", "R2-D2"];
    assert SortedByCaptain(expected);
    assert multiset(team)[Captain] == 1;
    assert multiset(expected) == multiset(team);
    SortByCaptainIsSortedPermutation(team, expected);
  }
}
