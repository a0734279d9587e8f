/** The small helper on enumerables that the scheduler relies on. */
module Enumerables {
  /** An enumerable is empty when its enumeration yields no first element,
      that is, when nothing is a member of it. */
  function IsEmpty<X>(e: set<X>): (r: bool)
    ensures r <==> forall x :: x !in e
  {
    |e| == 0
  }
}
