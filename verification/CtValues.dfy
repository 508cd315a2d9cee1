/** Compile-time values. Strings are sequences of bytes, so that `|s|` is the length the compiler counts;
    a type is identified by its rendered name. */
module CtValues {

  const I64_MIN: int := -0x8000_0000_0000_0000
  const I64_MAX: int := 0x7fff_ffff_ffff_ffff

  type I64 = i: int | I64_MIN <= i <= I64_MAX
  type U64 = i: int | 0 <= i <= 0xffff_ffff_ffff_ffff

  datatype CtValue =
    | Int(i: I64)
    | UInt(n: U64)
    | Float(bits: U64)
    | Bool(b: bool)
    | Str(str: string)
    | Tuple(items: seq<CtValue>)
    | List(items: seq<CtValue>)
    | Type(rendered: string)
    | Reflected(rendered: string)
    | Param(name: string)
}
