/** What several modules share. */
module Basics {

  type Oid = nat     // 0 is InvalidOid

  datatype Option<T> = None | Some(value: T)
  {
    function Or(dflt: T): T { if Some? then value else dflt }
  }

  newtype Byte = x: int | 0 <= x < 256

  type Text = seq<Byte>     // a C string without its terminating NUL

  const NUL: Byte := 0
  const BACKSLASH: Byte := 92

  ghost predicate NulFree(s: Text) { forall i | 0 <= i < |s| :: s[i] != NUL }

  lemma Associative<T>(a: seq<T>, b: seq<T>, c: seq<T>)
    ensures (a + b) + c == a + (b + c)
  {
  }
}
