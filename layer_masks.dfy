/**
 * The layer-mask field of a brush preset (BrushPreset.LayerMaskField).
 *
 * A physics layer mask is a 32-bit C# int. Here it is a Word: its 32 bits,
 * bit i at position i, with the C# operators the field uses (`1 << n`, `&`,
 * `|` and the signed comparison `> 0`) written out over them.
 *
 * The editor shows only the layers that have a name, so the mask is first
 * compressed into a dense mask with one bit per named layer (bit i stands for
 * the i-th named layer), handed to the mask popup, and the popup's answer is
 * expanded back into a physics layer mask.
 *
 * Bare line numbers in this module refer to Editor/BrushPreset.cs.
 */
module LayerMasks {

  /** 32 copies of one bit. */
  function Filled(b: bool): (r: seq<bool>)
    ensures |r| == 32 && forall i :: 0 <= i < 32 ==> r[i] == b
  {
    seq(32, _ => b)
  }

  /** The bits of a C# int, least significant first. */
  type Word = w: seq<bool> | |w| == 32 witness Filled(false)

  /** The int 0. */
  const ZeroWord: Word := Filled(false)

  /** Physics.AllLayers, the int ~0. */
  const AllLayers: Word := Filled(true)

  /** C#'s `1 << n` on int: the shift count is taken modulo 32 (its low five bits). */
  function Shl1(n: int): (r: Word)
    ensures forall i :: 0 <= i < 32 ==> (r[i] <==> i == n % 32)
  {
    seq(32, i => i == n % 32)
  }

  /** C#'s `a | b` on int. */
  function Or(a: Word, b: Word): (r: Word)
    ensures forall i :: 0 <= i < 32 ==> (r[i] <==> a[i] || b[i])
  {
    seq(32, i requires 0 <= i < 32 => a[i] || b[i])
  }

  /** C#'s `a & b` on int. */
  function And(a: Word, b: Word): (r: Word)
    ensures forall i :: 0 <= i < 32 ==> (r[i] <==> a[i] && b[i])
  {
    seq(32, i requires 0 <= i < 32 => a[i] && b[i])
  }

  /**
   * 2^n, the weight of bit n in ToInt32 (bit 31 weighs -Pow2(31)). Every
   * weight is positive, so a set bit makes a word's unsigned value positive
   * (UnsignedPositive).
   */
  function Pow2(n: nat): (r: nat)
    ensures r >= 1
  {
    if n == 0 then 1 else 2 * Pow2(n - 1)
  }

  /** The value of a bit string read as an unsigned binary number. */
  function Unsigned(bits: seq<bool>): nat
  {
    if |bits| == 0 then 0
    else Unsigned(bits[..|bits| - 1]) + (if bits[|bits| - 1] then Pow2(|bits| - 1) else 0)
  }

  /**
   * The value of a word read as a two's-complement C# int: the low 31 bits
   * count as usual and bit 31 counts as -2^31.
   */
  function ToInt32(w: Word): int
  {
    Unsigned(w[..31]) - (if w[31] then Pow2(|w| - 1) else 0)
  }

  /** The test `((1 << layer) & mask) > 0` used when compressing. */
  predicate LayerTest(layer: int, mask: Word)
  {
    ToInt32(And(Shl1(layer), mask)) > 0
  }

  /** The test `(compact & (1 << i)) > 0` used when expanding. */
  predicate CompactTest(compact: Word, i: int)
  {
    ToInt32(And(compact, Shl1(i))) > 0
  }

  /**
   * The dense mask the loop at lines 177-182 accumulates: for every position
   * i of the layer-number list whose layer passes LayerTest, `1 << i` is or-ed in.
   */
  function Compressed(layerNumbers: seq<int>, mask: Word): (r: Word)
    // No bit beyond the last list position is set.
    ensures forall i :: |layerNumbers| <= i < 32 ==> !r[i]
  {
    if |layerNumbers| == 0 then ZeroWord
    else
      var n := |layerNumbers| - 1;
      Or(Compressed(layerNumbers[..n], mask), if LayerTest(layerNumbers[n], mask) then Shl1(n) else ZeroWord)
  }

  /**
   * The physics mask the loop at lines 186-191 accumulates: for every
   * position i whose compact bit passes CompactTest, `1 << layerNumbers[i]` is or-ed in.
   */
  function Expanded(layerNumbers: seq<int>, compact: Word): (r: Word)
    // Only named layers are ever set.
    ensures forall k :: 0 <= k < 32 && r[k] ==> LayerSet(layerNumbers)[k]
  {
    if |layerNumbers| == 0 then ZeroWord
    else
      var n := |layerNumbers| - 1;
      Or(Expanded(layerNumbers[..n], compact), if CompactTest(compact, n) then Shl1(layerNumbers[n]) else ZeroWord)
  }

  /** The mask of the named layers: `1 << layerNumbers[i]` or-ed over every i. */
  function LayerSet(layerNumbers: seq<int>): Word
  {
    if |layerNumbers| == 0 then ZeroWord
    else
      var n := |layerNumbers| - 1;
      Or(LayerSet(layerNumbers[..n]), Shl1(layerNumbers[n]))
  }

  // ---------------------------------------------------------------------
  // The signed comparison `> 0`.

  lemma {:induction false} UnsignedBelowPow2(bits: seq<bool>)
    ensures Unsigned(bits) < Pow2(|bits|)
  {
    if |bits| > 0 {
      UnsignedBelowPow2(bits[..|bits| - 1]);
    }
  }

  lemma {:induction false} UnsignedPositive(bits: seq<bool>)
    ensures Unsigned(bits) > 0 <==> exists i :: 0 <= i < |bits| && bits[i]
  {
    if |bits| > 0 {
      var n := |bits| - 1;
      var prefix := bits[..n];
      UnsignedPositive(prefix);
      if exists i :: 0 <= i < |bits| && bits[i] {
        var i :| 0 <= i < |bits| && bits[i];
        if i < n {
          assert prefix[i];
        }
      }
      if exists i :: 0 <= i < n && prefix[i] {
        var i :| 0 <= i < n && prefix[i];
        assert bits[i];
      }
    }
  }

  /**
   * A C# int is greater than zero exactly when its sign bit (bit 31) is clear
   * and some other bit is set.
   */
  lemma SignedPositive(w: Word)
    ensures ToInt32(w) > 0 <==> !w[31] && exists i :: 0 <= i < 31 && w[i]
  {
    var low := w[..31];
    UnsignedBelowPow2(low);
    UnsignedPositive(low);
    assert forall i :: 0 <= i < 31 ==> low[i] == w[i];
  }

  /** A one-bit test `(x & (1 << n)) > 0` fails exactly for bit 31. */
  lemma OneBitTest(x: Word, n: int)
    ensures ToInt32(And(x, Shl1(n))) > 0 <==> n % 32 != 31 && x[n % 32]
  {
    var y := And(x, Shl1(n));
    SignedPositive(y);
    if n % 32 != 31 && x[n % 32] {
      assert y[n % 32];
    }
  }

  // ---------------------------------------------------------------------
  // Properties of the compress/expand pair.

  /** A layer passes the compress test exactly when it is not layer 31 and its bit is set. */
  lemma LayerTestMeaning(layer: int, mask: Word)
    ensures LayerTest(layer, mask) <==> layer % 32 != 31 && mask[layer % 32]
  {
    assert And(Shl1(layer), mask) == And(mask, Shl1(layer));
    OneBitTest(mask, layer);
  }

  /** An expand test on position i below 31 is just bit i of the dense mask. */
  lemma CompactTestMeaning(compact: Word, i: int)
    requires 0 <= i < 31
    ensures CompactTest(compact, i) <==> compact[i]
  {
    OneBitTest(compact, i);
  }

  /**
   * Compression: with at most 32 named layers, bit i of the dense mask is set
   * exactly when i is a position of the list and its layer passes the test.
   */
  lemma {:induction false} CompressedBit(layerNumbers: seq<int>, mask: Word, i: nat)
    requires |layerNumbers| <= 32 && i < 32
    ensures Compressed(layerNumbers, mask)[i] <==> i < |layerNumbers| && LayerTest(layerNumbers[i], mask)
  {
    if |layerNumbers| > 0 {
      var n := |layerNumbers| - 1;
      var prefix := layerNumbers[..n];
      var pass := LayerTest(layerNumbers[n], mask);
      var t := if pass then Shl1(n) else ZeroWord;
      assert t[i] <==> i == n && pass by {
        assert n % 32 == n;
      }
      CompressedBit(prefix, mask, i);
      if i < n {
        assert prefix[i] == layerNumbers[i];
      }
    }
  }

  /**
   * Expansion: with at most 32 named layers, bit k of the physics mask is set
   * exactly when some position i below 31 names layer k (modulo 32) and bit i
   * of the dense mask is set.
   */
  lemma {:induction false} ExpandedBit(layerNumbers: seq<int>, compact: Word, k: nat)
    requires |layerNumbers| <= 32 && k < 32
    ensures Expanded(layerNumbers, compact)[k] <==>
            exists i :: 0 <= i < |layerNumbers| && i < 31 && layerNumbers[i] % 32 == k && compact[i]
  {
    if |layerNumbers| > 0 {
      var n := |layerNumbers| - 1;
      var prefix := layerNumbers[..n];
      var pass := CompactTest(compact, n);
      assert pass <==> n < 31 && compact[n] by {
        OneBitTest(compact, n);
        assert n % 32 == n;
      }
      var t := if pass then Shl1(layerNumbers[n]) else ZeroWord;
      assert t[k] <==> pass && layerNumbers[n] % 32 == k;
      ExpandedBit(prefix, compact, k);
      var before := Expanded(prefix, compact)[k];
      assert Expanded(layerNumbers, compact)[k] == (before || t[k]);
      if before {
        var i :| 0 <= i < n && i < 31 && prefix[i] % 32 == k && compact[i];
        assert layerNumbers[i] == prefix[i];
      } else if !t[k] {
        forall i | 0 <= i < |layerNumbers| && i < 31 && layerNumbers[i] % 32 == k
          ensures !compact[i]
        {
          if i < n {
            assert layerNumbers[i] == prefix[i];
          }
        }
      }
    }
  }

  /** Bit 31 of the input never survives a round trip through the dense mask. */
  lemma RoundTripDropsLayer31(layerNumbers: seq<int>, mask: Word)
    requires |layerNumbers| <= 32
    ensures !Expanded(layerNumbers, Compressed(layerNumbers, mask))[31]
  {
    var c := Compressed(layerNumbers, mask);
    ExpandedBit(layerNumbers, c, 31);
    forall i | 0 <= i < |layerNumbers| && i < 31 && layerNumbers[i] % 32 == 31
      ensures !c[i]
    {
      CompressedBit(layerNumbers, mask, i);
      LayerTestMeaning(layerNumbers[i], mask);
    }
  }

  /** One step of the expand fold over a prefix. */
  lemma ExpandedStep(layerNumbers: seq<int>, compact: Word, m: nat)
    requires m < |layerNumbers|
    ensures Expanded(layerNumbers[..m + 1], compact) ==
            Or(Expanded(layerNumbers[..m], compact), if CompactTest(compact, m) then Shl1(layerNumbers[m]) else ZeroWord)
  {
    assert layerNumbers[..m + 1][..m] == layerNumbers[..m];
  }

  /** One step of the named-layer fold over a prefix. */
  lemma LayerSetStep(layerNumbers: seq<int>, m: nat)
    requires m < |layerNumbers|
    ensures LayerSet(layerNumbers[..m + 1]) == Or(LayerSet(layerNumbers[..m]), Shl1(layerNumbers[m]))
  {
    assert layerNumbers[..m + 1][..m] == layerNumbers[..m];
  }

  /** Masking distributes over adding one bit that passes or fails together with the mask. */
  lemma MaskOneMore(mask: Word, named: Word, layer: nat)
    requires layer < 32
    ensures Or(And(mask, named), if mask[layer] then Shl1(layer) else ZeroWord) == And(mask, Or(named, Shl1(layer)))
  {
    var lhs := Or(And(mask, named), if mask[layer] then Shl1(layer) else ZeroWord);
    var rhs := And(mask, Or(named, Shl1(layer)));
    assert forall k :: 0 <= k < 32 ==> lhs[k] == rhs[k];
  }

  /** On named layers 0-30, the expand test at a position passes exactly when the layer's bit is set in the input. */
  lemma CompactTestAtPosition(layerNumbers: seq<int>, mask: Word, m: nat)
    requires m < |layerNumbers| <= 31
    requires 0 <= layerNumbers[m] <= 30
    ensures CompactTest(Compressed(layerNumbers, mask), m) == mask[layerNumbers[m]]
  {
    var layer := layerNumbers[m];
    var c := Compressed(layerNumbers, mask);
    assert c[m] == LayerTest(layer, mask) by {
      CompressedBit(layerNumbers, mask, m);
    }
    assert LayerTest(layer, mask) == mask[layer] by {
      LayerTestMeaning(layer, mask);
      assert layer % 32 == layer;
    }
    assert CompactTest(c, m) == c[m] by {
      CompactTestMeaning(c, m);
    }
  }

  /** The prefix form of the round trip, by induction on the prefix length n. */
  lemma {:induction false} RoundTripPrefix(layerNumbers: seq<int>, mask: Word, n: nat)
    requires n <= |layerNumbers| <= 31
    requires forall i :: 0 <= i < |layerNumbers| ==> 0 <= layerNumbers[i] <= 30
    ensures Expanded(layerNumbers[..n], Compressed(layerNumbers, mask)) == And(mask, LayerSet(layerNumbers[..n]))
  {
    if n > 0 {
      var m := n - 1;
      RoundTripPrefix(layerNumbers, mask, m);
      CompactTestAtPosition(layerNumbers, mask, m);
      ExpandedStep(layerNumbers, Compressed(layerNumbers, mask), m);
      LayerSetStep(layerNumbers, m);
      MaskOneMore(mask, LayerSet(layerNumbers[..m]), layerNumbers[m]);
    }
  }

  /**
   * Round trip: when the popup hands the dense mask back unchanged and every
   * named layer is one of 0-30, the result is the input mask restricted to
   * the named layers.
   */
  lemma RoundTrip(layerNumbers: seq<int>, mask: Word)
    requires |layerNumbers| <= 31
    requires forall i :: 0 <= i < |layerNumbers| ==> 0 <= layerNumbers[i] <= 30
    ensures Expanded(layerNumbers, Compressed(layerNumbers, mask)) == And(mask, LayerSet(layerNumbers))
  {
    RoundTripPrefix(layerNumbers, mask, |layerNumbers|);
    assert layerNumbers[..|layerNumbers|] == layerNumbers;
  }

  /**
   * Round trip bit by bit, for any list of up to 32 layers (layer 31 and
   * repeated layers included): with the popup handing the dense mask back,
   * bit k below 31 is set afterwards exactly when it was set before and some
   * position below 31 names layer k.
   */
  lemma RoundTripBit(layerNumbers: seq<int>, mask: Word, k: nat)
    requires |layerNumbers| <= 32 && k < 31
    ensures Expanded(layerNumbers, Compressed(layerNumbers, mask))[k] <==>
            mask[k] && exists i :: 0 <= i < |layerNumbers| && i < 31 && layerNumbers[i] % 32 == k
  {
    var c := Compressed(layerNumbers, mask);
    ExpandedBit(layerNumbers, c, k);
    forall i | 0 <= i < |layerNumbers| && i < 31 && layerNumbers[i] % 32 == k
      ensures c[i] == mask[k]
    {
      CompressedBit(layerNumbers, mask, i);
      LayerTestMeaning(layerNumbers[i], mask);
    }
  }

  // ---------------------------------------------------------------------
  // The loops of LayerMaskField.

  /** The loop at lines 177-182. */
  method CompressMask(layerNumbers: seq<int>, mask: Word) returns (maskWithoutEmpty: Word)
    ensures maskWithoutEmpty == Compressed(layerNumbers, mask)
  {
    maskWithoutEmpty := ZeroWord;
    var i := 0;
    while i < |layerNumbers|
      invariant 0 <= i <= |layerNumbers|
      invariant maskWithoutEmpty == Compressed(layerNumbers[..i], mask)
    {
      assert layerNumbers[..i + 1][..i] == layerNumbers[..i];
      if ToInt32(And(Shl1(layerNumbers[i]), mask)) > 0 {
        maskWithoutEmpty := Or(maskWithoutEmpty, Shl1(i));
      } else {
        assert Or(maskWithoutEmpty, ZeroWord) == maskWithoutEmpty;
      }
      i := i + 1;
    }
    assert layerNumbers[..i] == layerNumbers;
  }

  /** The loop at lines 186-191. */
  method ExpandMask(layerNumbers: seq<int>, maskWithoutEmpty: Word) returns (mask: Word)
    ensures mask == Expanded(layerNumbers, maskWithoutEmpty)
  {
    mask := ZeroWord;
    var i := 0;
    while i < |layerNumbers|
      invariant 0 <= i <= |layerNumbers|
      invariant mask == Expanded(layerNumbers[..i], maskWithoutEmpty)
    {
      assert layerNumbers[..i + 1][..i] == layerNumbers[..i];
      if ToInt32(And(maskWithoutEmpty, Shl1(i))) > 0 {
        mask := Or(mask, Shl1(layerNumbers[i]));
      } else {
        assert Or(mask, ZeroWord) == mask;
      }
      i := i + 1;
    }
    assert layerNumbers[..i] == layerNumbers;
  }

  /** The layer numbers LayerMaskField collects, one per layer name. */
  function LayerNumbers(layers: seq<string>, nameToLayer: string -> int): (r: seq<int>)
    ensures |r| == |layers| && forall i :: 0 <= i < |layers| ==> r[i] == nameToLayer(layers[i])
  {
    seq(|layers|, i requires 0 <= i < |layers| => nameToLayer(layers[i]))
  }

  /**
   * LayerMaskField: refill the layer-number list from the layer names
   * (`nameToLayer` is LayerMask.NameToLayer), compress the mask, let the popup
   * (`maskPopup`, EditorGUILayout.MaskField) edit the dense mask, and expand
   * the popup's answer.
   */
  method LayerMaskField(layers: seq<string>, nameToLayer: string -> int, maskPopup: Word -> Word, layerMask: Word)
    returns (result: Word)
    ensures var numbers := LayerNumbers(layers, nameToLayer);
            result == Expanded(numbers, maskPopup(Compressed(numbers, layerMask)))
  {
    var layerNumbers: seq<int> := [];
    for i := 0 to |layers|
      invariant layerNumbers == LayerNumbers(layers[..i], nameToLayer)
    {
      layerNumbers := layerNumbers + [nameToLayer(layers[i])];
    }
    assert layers[..|layers|] == layers;
    var maskWithoutEmpty := CompressMask(layerNumbers, layerMask);
    maskWithoutEmpty := maskPopup(maskWithoutEmpty);
    result := ExpandMask(layerNumbers, maskWithoutEmpty);
  }
}
