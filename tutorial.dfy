/** The small pieces of logic among the tutorial's language demos: the greeting
    that counts its visitors, `least`, and the `when`-expression over cards. */
module Tutorial {

  /** The package-level `val visitor`. */
  const Visitor: string := "Donald"

  /** The package-level mutable state: `var totalGreetings`. */
  class Globals {
    var totalGreetings: int

    constructor ()
      ensures totalGreetings == 0
    {
      totalGreetings := 0;
    }

    /** makeGreeting: counts one more greeting and welcomes the visitor by name. */
    method MakeGreeting(name: string) returns (greeting: string)
      modifies this
      ensures totalGreetings == old(totalGreetings) + 1
      ensures greeting == "Welcome to the zoo " + name
    {
      totalGreetings := totalGreetings + 1;
      greeting := "Welcome to the zoo " + name;
    }
  }

  /** The test `greeting`: greeting the visitor gives the expected text, and the count goes up by one. */
  method GreetingTest() returns (actual: string, count: int)
    ensures actual == "Welcome to the zoo Donald"
    ensures count == 1
  {
    var globals := new Globals();
    actual := globals.MakeGreeting(Visitor);
    count := globals.totalGreetings;
  }

  /** least: the smaller of the two arguments. */
  function Least(a: int, b: int): (r: int)
    ensures r <= a && r <= b
    ensures r == a || r == b
  {
    if a < b then a else b
  }

  /** The test `smallest`. */
  lemma SmallestTestCase()
    ensures Least(6, 4) == 4
  {
  }

  datatype Card = Hearts | Diamonds | Clubs | Spades

  /** card2string */
  function CardToString(card: Card): (s: string)
    ensures s in {"clubs", "diamonds", "hearts", "spades"}
  {
    match card
    case Clubs => "clubs"
    case Diamonds => "diamonds"
    case Hearts => "hearts"
    case Spades => "spades"
  }

  /** Different cards get different names, so the name identifies the card. */
  lemma CardToStringIsInjective(c: Card, d: Card)
    ensures CardToString(c) == CardToString(d) ==> c == d
  {
  }
}
