/** What several modules share. */
module Common {

  datatype Option<T> = None | Some(value: T)

  lemma MulMono(h: nat, m: nat, n: nat)
    requires m <= n
    ensures h * m <= h * n
  {
  }
}
