/** Names for the shapes the converters are built from. */
module WireTypes {
  import opened WireCodec

  const U16 := Int(2)
  const U32 := Int(4)
  const U64 := Int(8)
  const I64 := Int(8)
  const F32 := Int(4)
  const F64 := Int(8)

  /** An enum whose cases carry nothing. */
  function Tags(names: seq<string>): Shape {
    Enum(seq(|names|, i requires 0 <= i < |names| => Case(names[i], [])))
  }
}
