/**
 * SimpleIdGenerator: a 32-bit counter, incremented with Interlocked.Increment (which wraps from
 * Int32.MaxValue to Int32.MinValue), whose new value is returned as decimal text.
 */
module IdGeneration {
  import opened Strings
  import opened Messages

  const Int32Min: int := -0x8000_0000
  const Int32Max: int := 0x7FFF_FFFF

  predicate IsInt32(n: int) {
    Int32Min <= n <= Int32Max
  }

  /** The values of a C# int. */
  type Int32 = n: int | IsInt32(n)

  /** Interlocked.Increment on an Int32: two's-complement wrap-around at the top. */
  function Increment(n: int): (r: int)
    requires IsInt32(n)
    ensures IsInt32(r)
  {
    if n == Int32Max then Int32Min else n + 1
  }

  class SimpleIdGenerator {
    var counter: Int32

    /** The counter starts at 0. */
    constructor ()
      ensures counter == 0
    {
      counter := 0;
    }

    /** Increments the counter and returns its new value as text; the message is not consulted. */
    method GetNextId(msg: Message) returns (id: string)
      modifies this
      ensures counter == Increment(old(counter))
      ensures id == IntText(counter)
    {
      counter := Increment(counter);
      id := IntText(counter);
    }
  }

  /** The ids returned by `n` successive calls on a counter that holds `c`. */
  function IdsFrom(c: int, n: nat): (ids: seq<string>)
    requires IsInt32(c)
    ensures |ids| == n
    decreases n
  {
    if n == 0 then [] else [IntText(Increment(c))] + IdsFrom(Increment(c), n - 1)
  }

  /** A fresh generator's first id is "1". */
  lemma FirstIdIsOne()
    ensures IdsFrom(0, 1) == ["1"]
  {
    assert IntText(1) == NatText(1) == ['1'];
  }

  /** Away from the top of the Int32 range, the i-th id is the decimal text of c + i + 1. */
  lemma {:induction false} IdsFromCount(c: int, n: nat)
    requires IsInt32(c) && c + n <= Int32Max
    ensures forall i :: 0 <= i < n ==> IdsFrom(c, n)[i] == IntText(c + i + 1)
    decreases n
  {
    if n > 0 {
      IdsFromCount(c + 1, n - 1);
      assert forall i :: 1 <= i < n ==> IdsFrom(c, n)[i] == IdsFrom(c + 1, n - 1)[i - 1];
    }
  }

  /** Below Int32.MaxValue, successive ids are distinct and their numeric values strictly increase. */
  lemma IdsIncrease(c: int, n: nat)
    requires IsInt32(c) && c + n <= Int32Max
    ensures forall i, j :: 0 <= i < j < n ==>
              ParseInt(IdsFrom(c, n)[i]) < ParseInt(IdsFrom(c, n)[j]) && IdsFrom(c, n)[i] != IdsFrom(c, n)[j]
  {
    IdsFromCount(c, n);
    forall i, j | 0 <= i < j < n
      ensures ParseInt(IdsFrom(c, n)[i]) < ParseInt(IdsFrom(c, n)[j]) && IdsFrom(c, n)[i] != IdsFrom(c, n)[j]
    {
      var a, b := IdsFrom(c, n)[i], IdsFrom(c, n)[j];
      assert a == IntText(c + i + 1) && b == IntText(c + j + 1);
      IntTextRoundTrip(c + i + 1);
      IntTextRoundTrip(c + j + 1);
      assert ParseInt(a) == c + i + 1 && ParseInt(b) == c + j + 1;
    }
  }

  /** At the top of the range the counter wraps: the id after "2147483647" is "-2147483648". */
  lemma IdsWrapAtMaxValue()
    ensures IdsFrom(Int32Max - 1, 2) == [IntText(Int32Max), IntText(Int32Min)]
    ensures ParseInt(IdsFrom(Int32Max - 1, 2)[1]) < ParseInt(IdsFrom(Int32Max - 1, 2)[0])
  {
    IntTextRoundTrip(Int32Max);
    IntTextRoundTrip(Int32Min);
  }
}
