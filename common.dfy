/** Values shared by the gesture-control and keyboard-jog scripts. */
module Common {

  /** A value that may be absent (Python's `None`). */
  datatype Option<+T> = None | Some(value: T)

  /** A Cartesian point of the arm's tool centre, in millimetres. */
  datatype Vec3 = Vec3(x: real, y: real, z: real)

  function Abs(r: real): real {
    if r < 0.0 then -r else r
  }

  /** Appending one element and then a tail equals appending the element with the tail in front. */
  lemma AppendAssoc<T>(a: seq<T>, m: T, b: seq<T>)
    ensures (a + [m]) + b == a + ([m] + b)
  {
  }
}
