/** Small datatypes shared by the models. */
module Common {
  datatype Option<+T> = None | Some(value: T) {
    function GetOr(other: T): T {
      match this case None => other case Some(v) => v
    }
  }

  type Byte = x: int | 0 <= x < 256
  type Bytes = seq<Byte>

  /** `Math.ceil(a / b)`. */
  function CeilDiv(a: int, b: int): int
    requires b > 0
  {
    (a + b - 1) / b
  }

  /** Dividing by a positive number keeps the sign. */
  lemma SignOfProduct(x: real, n: real)
    requires n > 0.0
    ensures (x * n < 0.0 <==> x < 0.0) && (x * n == 0.0 <==> x == 0.0)
  {
    if x > 0.0 { assert x * n > 0.0; }
    if x < 0.0 { assert (-x) * n > 0.0; assert x * n == -((-x) * n); }
  }
}
