/**
Bytes and the sequences of them that both wire formats are made of.
*/
module ByteStrings {

  type Byte = n: int | 0 <= n < 0x100

  type Bytes = seq<Byte>

  function Min(a: nat, b: nat): nat { if a < b then a else b }

  function Concat(bs: seq<Bytes>): Bytes {
    if bs == [] then [] else bs[0] + Concat(bs[1..])
  }
}
