/** Fixed-width residue blocks: canonical residues as unsigned big-endian numbers, back to back. */
module ResidueCodec {
  import opened NumberTheory
  import opened Options
  import opened Framing

  const MAX_VALUES := 512 * 1024

  /** Bytes needed for a residue of the modulus. */
  function Width(modulus: nat): nat {
    (BitLength(modulus) + 7) / 8
  }

  function Pow256(width: nat): nat {
    if width == 0 then 1 else 256 * Pow256(width - 1)
  }

  function ToBytes(v: nat, width: nat): (b: seq<Byte>)
    ensures |b| == width
  {
    if width == 0 then [] else ToBytes(v / 256, width - 1) + [v % 256]
  }

  function Encoded(values: seq<nat>, width: nat): seq<Byte> {
    if values == [] then []
    else Encoded(values[..|values| - 1], width) + ToBytes(values[|values| - 1], width)
  }

  function Decoded(data: seq<Byte>, width: nat, count: nat): (values: seq<nat>)
    requires |data| == count * width
    ensures |values| == count
  {
    if count == 0 then []
    else
      LastBlock(count, width);
      Decoded(data[..(count - 1) * width], width, count - 1) + [BigEndian(data[(count - 1) * width..])]
  }

  lemma {:induction false} LastBlock(count: nat, width: nat)
    requires count > 0
    ensures (count - 1) * width + width == count * width && 0 <= (count - 1) * width <= count * width
  {
  }

  lemma {:induction false} BytesRoundTrip(v: nat, width: nat)
    requires v < Pow256(width)
    ensures BigEndian(ToBytes(v, width)) == v
  {
    if width > 0 {
      BytesRoundTrip(v / 256, width - 1);
      BigEndianAppend(ToBytes(v / 256, width - 1), v % 256);
    }
  }

  lemma {:induction false} NumberRoundTrip(bytes: seq<Byte>)
    ensures ToBytes(BigEndian(bytes), |bytes|) == bytes && BigEndian(bytes) < Pow256(|bytes|)
  {
    if bytes != [] {
      NumberRoundTrip(bytes[..|bytes| - 1]);
    }
  }

  lemma {:induction false} Pow256IsPower2(width: nat)
    ensures Pow256(width) == Power2(8 * width)
  {
    if width > 0 {
      Pow256IsPower2(width - 1);
      Power2Sum(8, 8 * (width - 1));
      assert Power2(8) == 256;
    }
  }

  /** The width is enough for every residue, and one byte less would not hold the modulus. */
  lemma {:induction false} WidthFits(modulus: nat)
    requires modulus >= 3
    ensures modulus < Pow256(Width(modulus)) && Width(modulus) >= 1 && Pow256(Width(modulus) - 1) <= modulus
  {
    hide BitLength, Power2;
    BitLengthBounds(modulus);
    Pow256IsPower2(Width(modulus));
    Pow256IsPower2(Width(modulus) - 1);
    Power2Grows(BitLength(modulus), 8 * Width(modulus));
    Power2Grows(8 * (Width(modulus) - 1), BitLength(modulus) - 1);
  }

  predicate Canonical(values: seq<nat>, modulus: nat) {
    forall i :: 0 <= i < |values| ==> values[i] < modulus
  }

  predicate Fits(count: nat, modulus: nat) {
    modulus >= 3 && BitLength(modulus) <= 8 * MAX_VALUES && count * Width(modulus) <= MAX_VALUES
  }

  /** The limits in numbers: at most half a mebibyte a block, and a modulus that would itself fit. */
  lemma {:induction false} FitsMeaning(count: nat, modulus: nat)
    ensures Fits(count, modulus) <==>
      modulus >= 3 && BitLength(modulus) <= 4194304 && count * Width(modulus) <= 524288
  {
    hide Width, BitLength;
  }

  /** The blocks the decoder takes: the announced count, the exact length, every residue canonical. */
  predicate Accepts(data: seq<Byte>, count: nat, modulus: nat) {
    Fits(count, modulus) && |data| == count * Width(modulus) && Canonical(Decoded(data, Width(modulus), count), modulus)
  }

  lemma {:induction false} EncodedLength(values: seq<nat>, width: nat)
    ensures |Encoded(values, width)| == |values| * width
  {
    if values != [] {
      EncodedLength(values[..|values| - 1], width);
      LastBlock(|values|, width);
    }
  }

  lemma {:induction false} DecodedEncoded(values: seq<nat>, width: nat)
    requires Canonical(values, Pow256(width))
    ensures |Encoded(values, width)| == |values| * width && Decoded(Encoded(values, width), width, |values|) == values
  {
    EncodedLength(values, width);
    hide Pow256, ToBytes, BigEndian, Encoded;
    if values != [] {
      hide Decoded;
      var init, last := values[..|values| - 1], values[|values| - 1];
      assert init + [last] == values;
      DecodedEncoded(init, width);
      DecodedEncodedLast(init, last, width);
    }
  }

  lemma {:induction false} DecodedEncodedLast(init: seq<nat>, last: nat, width: nat)
    requires |Encoded(init, width)| == |init| * width && Decoded(Encoded(init, width), width, |init|) == init
    requires last < Pow256(width)
    ensures |Encoded(init + [last], width)| == (|init| + 1) * width
    ensures Decoded(Encoded(init + [last], width), width, |init| + 1) == init + [last]
  {
    BytesRoundTrip(last, width);
    EncodedSplit(init, last, width);
    hide Pow256, ToBytes, BigEndian, Encoded, Decoded;
    DecodedSplit(Encoded(init, width), ToBytes(last, width), width, |init|);
  }

  lemma {:induction false} EncodedSplit(init: seq<nat>, last: nat, width: nat)
    ensures Encoded(init + [last], width) == Encoded(init, width) + ToBytes(last, width)
  {
    assert (init + [last])[..|init|] == init;
  }

  lemma {:induction false} DecodedSplit(init: seq<Byte>, last: seq<Byte>, width: nat, count: nat)
    requires |init| == count * width && |last| == width
    ensures |init + last| == (count + 1) * width
    ensures Decoded(init + last, width, count + 1) == Decoded(init, width, count) + [BigEndian(last)]
  {
    LastBlock(count + 1, width);
    var data := init + last;
    assert data[..count * width] == init && data[count * width..] == last;
  }

  lemma {:induction false} EncodedDecoded(data: seq<Byte>, width: nat, count: nat)
    requires |data| == count * width
    ensures Encoded(Decoded(data, width, count), width) == data
  {
    if count > 0 {
      LastBlock(count, width);
      var init, last := data[..(count - 1) * width], data[(count - 1) * width..];
      EncodedDecoded(init, width, count - 1);
      NumberRoundTrip(last);
      var values := Decoded(init, width, count - 1);
      assert (values + [BigEndian(last)])[..count - 1] == values;
      assert init + last == data;
    }
  }

  /** The codec is a bijection between canonical residue vectors and the blocks it accepts. */
  lemma {:induction false} CodecBijection(values: seq<nat>, data: seq<Byte>, count: nat, modulus: nat)
    requires Fits(count, modulus)
    ensures |values| == count && Canonical(values, modulus) ==>
      && Accepts(Encoded(values, Width(modulus)), count, modulus)
      && Decoded(Encoded(values, Width(modulus)), Width(modulus), count) == values
    ensures Accepts(data, count, modulus) ==>
      && Canonical(Decoded(data, Width(modulus), count), modulus)
      && Encoded(Decoded(data, Width(modulus), count), Width(modulus)) == data
  {
    WidthFits(modulus);
    hide BitLength, Width;
    if |values| == count && Canonical(values, modulus) {
      DecodedEncoded(values, Width(modulus));
    }
    if Accepts(data, count, modulus) {
      EncodedDecoded(data, Width(modulus), count);
    }
  }

  /** Two different accepted blocks never stand for the same residues. */
  lemma {:induction false} AcceptedBlocksDiffer(a: seq<Byte>, b: seq<Byte>, count: nat, modulus: nat)
    requires Accepts(a, count, modulus) && Accepts(b, count, modulus)
    requires Decoded(a, Width(modulus), count) == Decoded(b, Width(modulus), count)
    ensures a == b
  {
    EncodedDecoded(a, Width(modulus), count);
    EncodedDecoded(b, Width(modulus), count);
  }

  predicate InRange(values: seq<int>, modulus: nat) {
    forall i :: 0 <= i < |values| ==> 0 <= values[i] < modulus
  }

  function Naturals(values: seq<int>): (r: seq<nat>)
    requires forall i :: 0 <= i < |values| ==> 0 <= values[i]
    ensures |r| == |values| && forall i :: 0 <= i < |r| ==> r[i] == values[i]
  {
    seq(|values|, i requires 0 <= i < |values| => values[i] as nat)
  }

  method EncodeResidues(values: seq<int>, modulus: nat) returns (data: Option<seq<Byte>>)
    ensures data.Some? <==> Fits(|values|, modulus) && InRange(values, modulus)
    ensures data.Some? ==> data.value == Encoded(Naturals(values), Width(modulus))
  {
    if modulus < 3 || BitLength(modulus) > 8 * MAX_VALUES || |values| * Width(modulus) > MAX_VALUES {
      return None;
    }
    hide Fits, BitLength, Width;
    var encoded: seq<Byte> := [];
    for i := 0 to |values|
      invariant InRange(values[..i], modulus)
      invariant encoded == Encoded(Naturals(values[..i]), Width(modulus))
    {
      if !(0 <= values[i] < modulus) {
        return None;
      }
      var more := Naturals(values[..i + 1]);
      assert more[..i] == Naturals(values[..i]);
      encoded := encoded + ToBytes(values[i], Width(modulus));
    }
    assert values[..|values|] == values;
    return Some(encoded);
  }

  lemma {:induction false} DecodedStep(data: seq<Byte>, width: nat, k: nat, count: nat)
    requires |data| == count * width && k < count
    ensures k * width + width == (k + 1) * width <= count * width
    ensures Decoded(data[..(k + 1) * width], width, k + 1)
         == Decoded(data[..k * width], width, k) + [BigEndian(data[k * width..k * width + width])]
  {
    LastBlock(k + 1, width);
    Monotone(k + 1, count, width);
    var block := data[..(k + 1) * width];
    assert block[..k * width] == data[..k * width];
    assert block[k * width..] == data[k * width..k * width + width];
  }

  method DecodeResidues(data: seq<Byte>, count: int, modulus: nat) returns (values: Option<seq<nat>>)
    ensures values.Some? <==> count >= 0 && Accepts(data, count, modulus)
    ensures values.Some? ==> values.value == Decoded(data, Width(modulus), count)
  {
    if modulus < 3 || BitLength(modulus) > 8 * MAX_VALUES {
      return None;
    }
    var width := Width(modulus);
    if count < 0 || count * width > MAX_VALUES || |data| != count * width {
      return None;
    }
    values := DecodeBlocks(data, width, count, modulus);
  }

  /** The loop over the blocks; the first residue that is not canonical ends it. */
  method DecodeBlocks(data: seq<Byte>, width: nat, count: nat, modulus: nat) returns (values: Option<seq<nat>>)
    requires |data| == count * width
    ensures values.Some? <==> Canonical(Decoded(data, width, count), modulus)
    ensures values.Some? ==> values.value == Decoded(data, width, count)
  {
    hide Decoded, BigEndian;
    var decoded: seq<nat> := [];
    var offset := 0;
    NothingDecoded(data, width);
    for k := 0 to count
      invariant offset == k * width <= count * width && decoded == Decoded(data[..offset], width, k)
      invariant Canonical(decoded, modulus)
    {
      DecodedStep(data, width, k, count);
      var value := BigEndian(data[offset..offset + width]);
      decoded := decoded + [value];
      offset := offset + width;
      if value >= modulus {
        DecodedPrefix(data, width, k + 1, count);
        assert Decoded(data, width, count)[k] == value;
        return None;
      }
    }
    assert data[..offset] == data;
    return Some(decoded);
  }

  lemma {:induction false} NothingDecoded(data: seq<Byte>, width: nat)
    ensures 0 * width == 0 && Decoded(data[..0], width, 0) == []
  {
  }

  lemma {:induction false} Monotone(a: nat, b: nat, w: nat)
    requires a <= b
    ensures a * w <= b * w
  {
  }

  lemma {:induction false} DecodedPrefix(data: seq<Byte>, width: nat, k: nat, count: nat)
    requires |data| == count * width && k <= count && k * width <= count * width
    ensures Decoded(data[..k * width], width, k) == Decoded(data, width, count)[..k]
  {
    if k < count {
      LastBlock(count, width);
      Monotone(k, count - 1, width);
      var init := data[..(count - 1) * width];
      DecodedPrefix(init, width, k, count - 1);
      assert init[..k * width] == data[..k * width];
    } else {
      assert data[..k * width] == data;
    }
  }
}
