/** The size units the pages print a byte count in. Only the choice of unit
    is modelled; the two-decimal number printed before it is not. */
module ByteUnits {
  datatype Unit = B | KB | MB | GB

  /** The number of bytes in one unit. */
  function Scale(u: Unit): (n: nat)
    ensures n >= 1
  {
    match u
    case B => 1
    case KB => 1024
    case MB => 1024 * 1024
    case GB => 1024 * 1024 * 1024
  }

  /** Units in increasing size. */
  function Rank(u: Unit): nat {
    match u
    case B => 0
    case KB => 1
    case MB => 2
    case GB => 3
  }
}
