/** The argument of an overridden `Equals(object obj)`, as seen from a class `T`:
    a null reference, an object of some other type, or an instance of `T`. */
module Objects {

  datatype Object<T> = Null | OtherType | Instance(value: T)

  /** The result of a C# `int` computation that is allowed to overflow (unchecked
      arithmetic): the mathematical value taken modulo 2^32 into the signed range. */
  function Wrap32(x: int): (r: int)
    ensures -0x8000_0000 <= r < 0x8000_0000
    ensures (r - x) % 0x1_0000_0000 == 0
  {
    (x + 0x8000_0000) % 0x1_0000_0000 - 0x8000_0000
  }
}
