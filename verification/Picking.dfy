/** Choosing from a set. */
module Picking {

  /** Some element of a nonempty set. */
  ghost function Any<T>(s: set<T>): (x: T)
    requires s != {}
    ensures x in s
  {
    var x :| x in s;
    x
  }

  lemma Nonempty<T>(s: set<T>)
    requires s != {}
    ensures exists x :: x in s
  {
    var x := Any(s);
  }
}

