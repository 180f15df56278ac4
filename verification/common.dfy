/** Shared by every component. */
module Common {

  datatype Option<+T> = None | Some(value: T)

  const MAX_INT64: nat := 0x7FFF_FFFF_FFFF_FFFF
  const MAX_UINT64: nat := 0xFFFF_FFFF_FFFF_FFFF

  type Int64 = x: int | -0x8000_0000_0000_0000 <= x <= MAX_INT64

  /** Two's complement: what a 64-bit register holds. */
  function Wrap64(x: int): (w: Int64)
    ensures -0x8000_0000_0000_0000 <= x <= MAX_INT64 ==> w == x
  {
    var m := x % (MAX_UINT64 + 1);
    if m > MAX_INT64 then m - (MAX_UINT64 + 1) else m
  }

  function CeilDiv(a: nat, b: nat): nat
    requires b > 0
  {
    (a + b - 1) / b
  }

  lemma MulMono(a: nat, b: nat, p: nat)
    requires a <= b
    ensures a * p <= b * p
  {
  }

  lemma Assoc<T>(a: seq<T>, b: seq<T>, c: seq<T>)
    ensures (a + b) + c == a + (b + c)
  {
  }
}
