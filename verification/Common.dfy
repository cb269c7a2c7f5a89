/** Types several modules share. */
module Common {

  datatype Option<+T> = None | Some(value: T)

  type Byte = b: int | 0 <= b < 256

  predicate IsZero(s: seq<Byte>) {
    forall i :: 0 <= i < |s| ==> s[i] == 0
  }
}
