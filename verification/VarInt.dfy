/** The VarInt length prefix of the binary hub protocol. */
module VarInt {
  import opened Seqs
  import opened Bits

  function Varint(value: nat): (w: seq<byte>)
    ensures w != []
  {
    if value < 128 then [value] else [128 + value % 128] + Varint(value / 128)
  }

  method ToVarint(value: nat) returns (buffer: seq<byte>)
    ensures buffer == Varint(value)
  {
    buffer := [];
    var rest := value;
    Empty(Varint(value));
    while true
      invariant buffer + Varint(rest) == Varint(value)
      decreases rest
    {
      var low := rest % 128;
      OrHighBit(low);
      if rest / 128 != 0 {
        Assoc(buffer, [128 + rest % 128], Varint(rest / 128));
        buffer := buffer + [BitOr(low, 0x80)];
        rest := rest / 128;
      } else {
        return buffer + [low];
      }
    }
  }

  /** A VarInt as the protocol defines it: continuation bytes, then one byte below 128. */
  predicate IsWord(w: seq<byte>) {
    w != [] && w[|w| - 1] < 128 && forall k :: 0 <= k < |w| - 1 ==> w[k] >= 128
  }

  /** The value of a word, seven bits a byte, least significant first. */
  function Value(w: seq<byte>): nat {
    if w == [] then 0 else w[0] % 128 + 128 * Value(w[1..])
  }

  lemma {:induction false} VarintIsWord(value: nat)
    ensures IsWord(Varint(value)) && Value(Varint(value)) == value
  {
    var w := Varint(value);
    if value >= 128 {
      VarintIsWord(value / 128);
      ConsTail((128 + value % 128) as byte, Varint(value / 128));
    } else {
      assert w[1..] == [];
    }
  }

  /** No word is a proper prefix of another. */
  lemma WordsArePrefixFree(a: seq<byte>, b: seq<byte>)
    requires IsWord(a) && IsWord(b) && a <= b
    ensures a == b
  {
    assert b[|a| - 1] == a[|a| - 1];
  }

  /** The encoding is the shortest word of its value. */
  lemma {:induction false} VarintIsMinimal(w: seq<byte>)
    requires IsWord(w)
    ensures |Varint(Value(w))| <= |w|
  {
    if |w| > 1 {
      var rest := w[1..];
      assert IsWord(rest);
      VarintIsMinimal(rest);
      var v := Value(w);
      assert v == w[0] % 128 + 128 * Value(rest);
      assert v / 128 == Value(rest);
    } else {
      assert w[1..] == [];
    }
  }

  /** An encoding has at most n bytes exactly for values of 7n bits. */
  lemma {:induction false} VarintLength(value: nat, n: nat)
    requires n > 0
    ensures |Varint(value)| <= n <==> value < Pow2(7 * n)
  {
    Pow2Seven(7 * (n - 1));
    if n == 1 {
      assert Pow2(0) == 1;
    } else if value >= 128 {
      VarintLength(value / 128, n - 1);
      var p := Pow2(7 * (n - 1));
      assert value / 128 < p <==> value < 128 * p;
    } else {
      assert Pow2(7 * (n - 1)) >= 1;
    }
  }
}
