/**
 The small part of Python's semantics that the two IAM-20380 drivers rely on:
 the exceptions they raise, the values compared by the chip-id check, and
 `list.index`, which both setters of the iam20380 driver use to turn a legal
 setting into its register code.
 */
module Python {

  /** The exceptions a driver operation can end with. */
  datatype Exception =
    | ValueError          // a setter rejected its argument
    | RuntimeError        // the constructor rejected the chip id
    | TypeError           // an operation applied to a value of the wrong type
    | ZeroDivisionError   // a division by a zero register value
    | FieldOverflow       // a value wider than its bit field reached the register library,
                          // whose handling of such values is not part of this model

  datatype Option<T> = None | Some(value: T)

  /** A value-returning operation: its value, or the exception it raised. */
  datatype Result<T> = Ok(value: T) | Raised(error: Exception)

  /** The Python values the chip-id check compares: integers and tuples of values.
      Python's `==` between an integer and a tuple is always false, which the
      datatype's own equality reproduces (different constructors). */
  datatype Value = Int(n: int) | Tuple(items: seq<Value>)

  /** `xs.index(x)`: the position of the first occurrence of `x`. */
  function IndexOf(xs: seq<int>, x: int): (k: nat)
    requires x in xs
    ensures k < |xs| && xs[k] == x
    ensures forall j :: 0 <= j < k ==> xs[j] != x
  {
    if xs[0] == x then 0 else 1 + IndexOf(xs[1..], x)
  }
}
