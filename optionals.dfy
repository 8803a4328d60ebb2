/**
  The optionals lesson: a dictionary lookup that may find nothing, the
  nil-coalescing operator `??`, and `square`/`printSquare`, which only
  square a number that is there.
 */
module Optionals {

  import opened Wrappers

  /** Dictionary subscripting `m[key]`: the value under the key, or nil. */
  function Lookup<K, V>(m: map<K, V>, key: K): (r: Option<V>)
    ensures r.Some? <==> key in m
    ensures r.Some? ==> r.value == m[key]
  {
    if key in m then Some(m[key]) else None
  }

  /** `x ?? d`: the contained value when there is one, the default otherwise. */
  function Coalesce<T>(x: Option<T>, default: T): (r: T)
    ensures x.Some? ==> r == x.value
    ensures x.None? ==> r == default
  {
    match x
    case Some(v) => v
    case None => default
  }

  /** The subscript with a default, `m[key, default: d]`. */
  function LookupOrDefault<K, V>(m: map<K, V>, key: K, default: V): (r: V)
    ensures key in m ==> r == m[key]
    ensures key !in m ==> r == default
  {
    if key in m then m[key] else default
  }

  /** `m[key] ?? d` achieves exactly what `m[key, default: d]` does. */
  lemma CoalescedLookupIsLookupOrDefault<K, V>(m: map<K, V>, key: K, default: V)
    ensures Coalesce(Lookup(m, key), default) == LookupOrDefault(m, key, default)
  {
  }

  /** A default makes no difference to a value that is there. */
  lemma CoalesceSome<T>(v: T, default: T)
    ensures Coalesce(Some(v), default) == v
  {
  }

  const Opposite: map<string, string> := map["Mario" := "Wario", "Luigi" := "Waluigi"]

  const Captains: map<string, string> := map["Enterprise" := "Picard", "Voyager" := "Janeway", "Defiant" := "Sisko"]

  /** The worked examples: Peach has no opposite, and Mario's is Wario. */
  lemma OppositeExamples()
    ensures Lookup(Opposite, "Peach") == None
    ensures Lookup(Opposite, "Mario") == Some("Wario")
  {
    assert "Peach" !in Opposite;
  }

  /** The worked example: Serenity has no captain, so the default "N/A" is used. */
  lemma SerenityHasNoCaptain()
    ensures Lookup(Captains, "Serenity") == None
    ensures Coalesce(Lookup(Captains, "Serenity"), "N/A") == "N/A"
  {
    assert "Serenity" !in Captains;
  }

  /** The `Book` of this lesson, whose author may be missing. */
  datatype Book = Book(title: string, author: Option<string>)

  /** `book.author ?? "Anonymous"`. */
  function AuthorName(book: Book): (name: string)
    ensures book.author.Some? ==> name == book.author.value
    ensures book.author.None? ==> name == "Anonymous"
  {
    Coalesce(book.author, "Anonymous")
  }

  /** The worked example: Beowulf, with no author, is by "Anonymous". */
  lemma BeowulfIsAnonymous()
    ensures AuthorName(Book("Beowulf", None)) == "Anonymous"
  {
  }

  /** `square(number:)`: never negative, and never below the number's magnitude. */
  function Square(number: int): (r: int)
    ensures r >= 0
    ensures r >= number && r >= -number
  {
    number * number
  }

  /** What `printSquare(for:)` reports: the early return, or the number and its square. */
  datatype SquareReport = MissingInput | Squared(number: int, square: int)

  /**
    `printSquare(for:)`: a missing number takes the early return; a present
    one is reported with its square.
   */
  function PrintSquare(number: Option<int>): (r: SquareReport)
    ensures r.MissingInput? <==> number.None?
    ensures number.Some? ==> r == Squared(number.value, Square(number.value))
  {
    match number
    case None => MissingInput
    case Some(n) => Squared(n, n * n)
  }

  /** The worked examples: nil is missing input, and 3 squares to 9. */
  lemma PrintSquareExamples()
    ensures PrintSquare(None) == MissingInput
    ensures PrintSquare(Some(3)) == Squared(3, 9)
  {
  }
}
