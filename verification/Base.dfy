/** Small datatypes and facts shared by the other modules. */
module Base {

  datatype Option<+T> = None | Some(value: T)

  /** What holds at first and is kept by every step holds throughout. */
  lemma {:induction false} Carried(p: nat -> bool, n: nat)
    requires p(0) && forall x: nat :: x < n && p(x) ==> p(x + 1)
    ensures p(n)
  {
    if n > 0 { Carried(p, n - 1); }
  }
}
