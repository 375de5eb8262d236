/** Symmetric INT8 quantisation per channel, over exact reals. */
module Quantizer {
  import opened Options

  // ---------------------------------------------------------------- rounding

  /** `np.round`: to the nearest integer, halves to the even one. */
  function Round(x: real): int {
    var below := x.Floor;
    var part := x - below as real;
    if part < 0.5 then below
    else if part > 0.5 then below + 1
    else if below % 2 == 0 then below
    else below + 1
  }

  function Abs(x: real): (r: real)
    ensures r >= 0.0 && (r == x || r == -x) && x <= r && -x <= r
  {
    if x < 0.0 then -x else x
  }

  function Distance(x: real, n: int): real {
    Abs(x - n as real)
  }

  /** No integer is nearer to x than r, and if another is as near then r is even. */
  ghost predicate NearestEven(x: real, r: int) {
    forall n :: Distance(x, r) <= Distance(x, n) && (n != r && Distance(x, r) == Distance(x, n) ==> r % 2 == 0)
  }

  lemma FloorBounds(x: real, n: int)
    ensures x.Floor as real <= x < x.Floor as real + 1.0
    ensures n <= x.Floor ==> n as real <= x.Floor as real
    ensures n > x.Floor ==> n as real >= x.Floor as real + 1.0
  {
  }

  lemma RoundIsNearestEven(x: real)
    ensures NearestEven(x, Round(x)) && Distance(x, Round(x)) <= 0.5
  {
    var r := Round(x);
    forall n
      ensures Distance(x, r) <= Distance(x, n) && (n != r && Distance(x, r) == Distance(x, n) ==> r % 2 == 0)
    {
      FloorBounds(x, n);
      FloorBounds(x, r);
    }
  }

  lemma NearestEvenUnique(x: real, r: int, r': int)
    requires NearestEven(x, r) && NearestEven(x, r')
    ensures r == r'
  {
    assert Distance(x, r) == Distance(x, r');
    var low := if r < r' then r else r';
    assert Distance(x, low) <= Distance(x, low + 1);
  }

  /** Rounding halves to even treats both signs alike. */
  lemma RoundIsOdd(x: real)
    ensures Round(-x) == -Round(x)
  {
    var r, y := Round(x), -x;
    RoundIsNearestEven(x);
    RoundIsNearestEven(y);
    forall n
      ensures Distance(y, -r) <= Distance(y, n) && (n != -r && Distance(y, -r) == Distance(y, n) ==> (-r) % 2 == 0)
    {
      Mirrored(x, r);
      Mirrored(x, -n);
      assert Distance(x, r) <= Distance(x, -n);
    }
    NearestEvenUnique(y, Round(y), -r);
  }

  lemma Mirrored(x: real, n: int)
    ensures Distance(-x, -n) == Distance(x, n)
  {
    assert (-n) as real == -(n as real);
  }

  lemma RoundStaysInside(x: real, bound: int)
    requires 0 <= bound && Abs(x) <= bound as real
    ensures -bound <= Round(x) <= bound
  {
    FloorBounds(x, bound);
    FloorBounds(x, -bound);
  }

  lemma RoundOfInt(n: int)
    ensures Round(n as real) == n
  {
  }

  // ---------------------------------------------------------------- real arithmetic

  function Product(a: real, b: real): real {
    a * b
  }

  lemma MulOrder(a: real, b: real, s: real)
    requires s > 0.0
    ensures a <= b <==> Product(a, s) <= Product(b, s)
  {
    if a <= b {
      assert (b - a) * s >= 0.0;
    } else {
      assert (a - b) * s > 0.0;
    }
  }

  lemma MulMinus(a: real, b: real, s: real)
    ensures Product(a - b, s) == Product(a, s) - Product(b, s)
    ensures Product(-a, s) == -Product(a, s)
    ensures Product(s, a) == Product(a, s)
  {
  }

  lemma AbsOfProduct(a: real, s: real)
    requires s > 0.0
    ensures Abs(Product(a, s)) == Product(Abs(a), s)
  {
    MulOrder(a, 0.0, s);
    MulOrder(0.0, a, s);
    MulMinus(a, a, s);
  }

  lemma DivideBack(w: real, s: real)
    requires s > 0.0
    ensures Product(w / s, s) == w
  {
  }

  lemma QuotientIs(w: real, x: real, s: real)
    requires s > 0.0 && Product(x, s) == w
    ensures w / s == x
  {
    DivideBack(w, s);
    MulOrder(w / s, x, s);
    MulOrder(x, w / s, s);
  }

  // ---------------------------------------------------------------- one weight

  function Clip(n: int, low: int, high: int): int {
    if n < low then low else if n > high then high else n
  }

  function QuantizeOne(w: real, s: real): int
    requires s > 0.0
  {
    Clip(Round(w / s), -128, 127)
  }

  function DequantizeOne(q: int, s: real): real {
    Product(q as real, s)
  }

  function HalfOf(s: real): real {
    0.5 * s
  }

  /** Weights up to 127 steps: nothing is clipped, and the error is at most half a step. */
  lemma OneWeight(w: real, s: real)
    requires s > 0.0 && Abs(w) <= 127.0 * s
    ensures QuantizeOne(w, s) == Round(w / s)
    ensures -127 <= QuantizeOne(w, s) <= 127
    ensures Abs(w - DequantizeOne(QuantizeOne(w, s), s)) <= HalfOf(s)
  {
    var x := w / s;
    DivideBack(w, s);
    AbsOfProduct(x, s);
    MulOrder(Abs(x), 127.0, s);
    assert Product(127.0, s) == 127.0 * s;
    RoundStaysInside(x, 127);
    HalfStep(x, s);
  }

  lemma HalfStep(x: real, s: real)
    requires s > 0.0
    ensures Abs(Product(x, s) - DequantizeOne(Round(x), s)) <= HalfOf(s)
  {
    var q := Round(x) as real;
    RoundIsNearestEven(x);
    MulMinus(x, q, s);
    AbsOfProduct(x - q, s);
    MulOrder(Abs(x - q), 0.5, s);
    assert Product(0.5, s) == HalfOf(s);
  }

  lemma DequantizedInside(q: int, s: real)
    requires s > 0.0 && -127 <= q <= 127
    ensures Abs(DequantizeOne(q, s)) <= 127.0 * s
  {
    AbsOfProduct(q as real, s);
    MulOrder(Abs(q as real), 127.0, s);
    assert Product(127.0, s) == 127.0 * s;
  }

  /** Whole multiples of the step within range are reproduced exactly. */
  lemma WholeSteps(q: int, s: real)
    requires s > 0.0 && -127 <= q <= 127
    ensures QuantizeOne(DequantizeOne(q, s), s) == q
  {
    QuotientIs(DequantizeOne(q, s), q as real, s);
    RoundOfInt(q);
  }

  lemma NegatedWeight(w: real, s: real)
    requires s > 0.0 && Abs(w) <= 127.0 * s
    ensures QuantizeOne(-w, s) == -QuantizeOne(w, s)
  {
    OneWeight(w, s);
    OneWeight(-w, s);
    DivideBack(w, s);
    MulMinus(w / s, 0.0, s);
    QuotientIs(-w, -(w / s), s);
    RoundIsOdd(w / s);
  }

  // ---------------------------------------------------------------- one channel

  const FLOOR: real := 0.00000001   // 1e-8

  function Max(a: real, b: real): real {
    if a < b then b else a
  }

  /** `np.abs(w).max()`; a channel holds at least one weight. */
  function AbsMax(w: seq<real>): (m: real)
    requires |w| > 0
  {
    if |w| == 1 then Abs(w[0]) else Max(AbsMax(w[..|w| - 1]), Abs(w[|w| - 1]))
  }

  lemma {:induction false} AbsMaxIsMax(w: seq<real>) returns (k: nat)
    requires |w| > 0
    ensures forall i :: 0 <= i < |w| ==> Abs(w[i]) <= AbsMax(w)
    ensures k < |w| && Abs(w[k]) == AbsMax(w)
  {
    if |w| == 1 {
      k := 0;
    } else {
      k := AbsMaxIsMax(w[..|w| - 1]);
      if AbsMax(w[..|w| - 1]) < Abs(w[|w| - 1]) {
        k := |w| - 1;
      }
    }
  }

  function Scale(w: seq<real>): (s: real)
    requires |w| > 0
    ensures s > 0.0 && 127.0 * s == Max(AbsMax(w), FLOOR)
  {
    Max(AbsMax(w), FLOOR) / 127.0
  }

  function QuantizeWith(w: seq<real>, s: real): (q: seq<int>)
    requires s > 0.0
    ensures |q| == |w|
  {
    seq(|w|, i requires 0 <= i < |w| => QuantizeOne(w[i], s))
  }

  function Quantize(w: seq<real>): (q: seq<int>)
    requires |w| > 0
    ensures |q| == |w|
  {
    QuantizeWith(w, Scale(w))
  }

  function Dequantize(q: seq<int>, s: real): (w: seq<real>)
    ensures |w| == |q|
  {
    seq(|q|, i requires 0 <= i < |q| => DequantizeOne(q[i], s))
  }

  /** What a channel's weights go through and come back as. */
  function Restored(w: seq<real>): (v: seq<real>)
    requires |w| > 0
    ensures |v| == |w|
  {
    Dequantize(Quantize(w), Scale(w))
  }

  /** Clipping never changes a rounded value, -128 is never used, and no weight moves by more than half a step. */
  lemma WithinHalfStep(w: seq<real>, i: nat)
    requires i < |w|
    ensures Quantize(w)[i] == Round(w[i] / Scale(w))
    ensures -127 <= Quantize(w)[i] <= 127
    ensures Abs(w[i] - Restored(w)[i]) <= HalfOf(Scale(w))
  {
    var k := AbsMaxIsMax(w);
    OneWeight(w[i], Scale(w));
  }

  // ---------------------------------------------------------------- dot products

  function Sum(s: seq<real>): real {
    if |s| == 0 then 0.0 else Sum(s[..|s| - 1]) + s[|s| - 1]
  }

  function Products(x: seq<real>, w: seq<real>): (r: seq<real>)
    requires |x| == |w|
    ensures |r| == |x|
  {
    seq(|x|, i requires 0 <= i < |x| => Product(x[i], w[i]))
  }

  function Dot(x: seq<real>, w: seq<real>): real
    requires |x| == |w|
  {
    Sum(Products(x, w))
  }

  function AllAbs(x: seq<real>): (r: seq<real>)
    ensures |r| == |x|
  {
    seq(|x|, i requires 0 <= i < |x| => Abs(x[i]))
  }

  function Times(e: real, s: seq<real>): (r: seq<real>)
    ensures |r| == |s|
  {
    seq(|s|, i requires 0 <= i < |s| => Product(e, s[i]))
  }

  lemma {:induction false} SumsStayNear(a: seq<real>, b: seq<real>, c: seq<real>)
    requires |a| == |b| == |c|
    requires forall i :: 0 <= i < |a| ==> Abs(a[i] - b[i]) <= c[i]
    ensures Abs(Sum(a) - Sum(b)) <= Sum(c)
  {
    if |a| > 0 {
      var n := |a| - 1;
      SumsStayNear(a[..n], b[..n], c[..n]);
    }
  }

  lemma {:induction false} SumOfTimes(e: real, s: seq<real>)
    ensures Sum(Times(e, s)) == Product(e, Sum(s))
  {
    if |s| > 0 {
      var n := |s| - 1;
      SumOfTimes(e, s[..n]);
      assert Times(e, s)[..n] == Times(e, s[..n]);
      Distribute(e, Sum(s[..n]), s[n]);
    }
  }

  lemma Distribute(e: real, a: real, b: real)
    ensures Product(e, a + b) == Product(e, a) + Product(e, b)
  {
  }

  lemma ProductOfNear(x: real, v: real, w: real, e: real)
    requires Abs(v - w) <= e
    ensures Abs(Product(x, v) - Product(x, w)) <= Product(e, Abs(x))
  {
    MulMinus(v, w, x);
    MulMinus(v, x, x);
    MulMinus(w, x, x);
    if x > 0.0 {
      AbsOfProduct(v - w, x);
      MulOrder(Abs(v - w), e, x);
    } else if x < 0.0 {
      AbsOfProduct(v - w, -x);
      MulOrder(Abs(v - w), e, -x);
      MulMinus(x, x, v - w);
      MulMinus(-x, x, v - w);
    }
  }

  ghost predicate Near(v: seq<real>, w: seq<real>, e: real) {
    |v| == |w| && forall i :: 0 <= i < |v| ==> Abs(v[i] - w[i]) <= e
  }

  /** The dot products with v and with w differ by at most e * sum |x_i|. */
  predicate DotNear(x: seq<real>, v: seq<real>, w: seq<real>, e: real) {
    |x| == |v| == |w| ==> Abs(Dot(x, v) - Dot(x, w)) <= Product(e, Sum(AllAbs(x)))
  }

  ghost predicate DotsNear(v: seq<real>, w: seq<real>, e: real) {
    forall x :: DotNear(x, v, w, e)
  }

  lemma DotOfNear(x: seq<real>, v: seq<real>, w: seq<real>, e: real)
    requires |x| == |v| && Near(v, w, e)
    ensures DotNear(x, v, w, e)
  {
    var a, b, c := Products(x, v), Products(x, w), Times(e, AllAbs(x));
    forall i | 0 <= i < |x| ensures Abs(a[i] - b[i]) <= c[i] {
      ProductOfNear(x[i], v[i], w[i], e);
    }
    SumsStayNear(a, b, c);
    SumOfTimes(e, AllAbs(x));
  }

  lemma NearGivesDotsNear(v: seq<real>, w: seq<real>, e: real)
    requires Near(v, w, e)
    ensures DotsNear(v, w, e)
  {
    forall x: seq<real> ensures DotNear(x, v, w, e) {
      if |x| == |v| {
        DotOfNear(x, v, w, e);
      }
    }
  }

  /** A dot product with the dequantised channel is within (scale / 2) * sum |x_i| of the exact one. */
  lemma RestoredNear(w: seq<real>, v: seq<real>, s: real)
    requires |w| > 0 && v == Restored(w) && s == Scale(w)
    ensures Near(w, v, HalfOf(s)) && DotsNear(w, v, HalfOf(s))
  {
    forall i | 0 <= i < |w| ensures Abs(w[i] - v[i]) <= HalfOf(s) {
      WithinHalfStep(w, i);
    }
    NearGivesDotsNear(w, v, HalfOf(s));
  }

  // ---------------------------------------------------------------- quantising twice

  /** The largest weight lands on exactly 127 steps when it sets the scale, and none lands further out. */
  lemma RestoredAbsMax(w: seq<real>)
    requires |w| > 0
    ensures AbsMax(Restored(w)) <= 127.0 * Scale(w)
    ensures AbsMax(w) >= FLOOR ==> AbsMax(Restored(w)) == AbsMax(w)
  {
    var s, v := Scale(w), Restored(w);
    var top := AbsMaxIsMax(v);
    WithinHalfStep(w, top);
    DequantizedInside(Quantize(w)[top], s);
    if AbsMax(w) >= FLOOR {
      var k := AbsMaxIsMax(w);
      ExtremeIsExact(w, k);
      assert Abs(v[k]) <= AbsMax(v);
    }
  }

  lemma ExtremeIsExact(w: seq<real>, k: nat)
    requires k < |w| && Abs(w[k]) == AbsMax(w) >= FLOOR
    ensures Restored(w)[k] == w[k]
    ensures Quantize(w)[k] == if w[k] < 0.0 then -127 else 127
  {
    var s := Scale(w);
    var n := if w[k] < 0.0 then -127 else 127;
    assert w[k] == DequantizeOne(n, s);
    WholeSteps(n, s);
  }

  /** A restored channel has the same scale and the same integers, whichever of the two sets the scale. */
  lemma QuantizingTwice(w: seq<real>)
    requires |w| > 0
    ensures Scale(Restored(w)) == Scale(w) && Quantize(Restored(w)) == Quantize(w)
  {
    var s, q, v := Scale(w), Quantize(w), Restored(w);
    RestoredAbsMax(w);
    assert Scale(v) == s;
    forall i | 0 <= i < |q| ensures Quantize(v)[i] == q[i] {
      WithinHalfStep(w, i);
      WholeSteps(q[i], s);
    }
  }

  function Negated(w: seq<real>): (r: seq<real>)
    ensures |r| == |w|
  {
    seq(|w|, i requires 0 <= i < |w| => -w[i])
  }

  /** Turning a channel around turns its integers around and keeps its scale. */
  lemma SignsAreAlike(w: seq<real>)
    requires |w| > 0
    ensures Scale(Negated(w)) == Scale(w)
    ensures forall i :: 0 <= i < |w| ==> Quantize(Negated(w))[i] == -Quantize(w)[i]
  {
    var v := Negated(w);
    var j := AbsMaxIsMax(w);
    var k := AbsMaxIsMax(v);
    assert Abs(v[j]) == Abs(w[j]) && Abs(v[k]) == Abs(w[k]);
    forall i | 0 <= i < |w| ensures Quantize(v)[i] == -Quantize(w)[i] {
      NegatedWeight(w[i], Scale(w));
    }
  }

  // ---------------------------------------------------------------- the loop over layers

  /** A tensor of one dimension, or of more with its output channels flattened along axis 0. */
  datatype Tensor = Vector(weights: seq<real>) | Channels(channels: seq<seq<real>>)

  datatype Layer = Layer(name: string, tensor: Tensor)

  datatype IntTensor = Kept(weights: seq<real>) | Int8(channels: seq<seq<int>>)

  datatype IntLayer = IntLayer(name: string, tensor: IntTensor)

  datatype LayerScales = LayerScales(name: string, scales: Option<seq<real>>)

  predicate NonEmptyChannels(t: Tensor) {
    t.Channels? ==> forall c :: 0 <= c < |t.channels| ==> |t.channels[c]| > 0
  }

  function QuantizeChannels(channels: seq<seq<real>>): (r: seq<seq<int>>)
    requires forall c :: 0 <= c < |channels| ==> |channels[c]| > 0
    ensures |r| == |channels|
  {
    seq(|channels|, c requires 0 <= c < |channels| => Quantize(channels[c]))
  }

  function ChannelScales(channels: seq<seq<real>>): (r: seq<real>)
    requires forall c :: 0 <= c < |channels| ==> |channels[c]| > 0
    ensures |r| == |channels|
  {
    seq(|channels|, c requires 0 <= c < |channels| => Scale(channels[c]))
  }

  /** 127 steps reach the largest weight, or 1e-8 where no weight is that large. */
  ghost predicate TrueScale(s: real, w: seq<real>) {
    && s > 0.0 && 127.0 * s >= 0.00000001
    && (forall i :: 0 <= i < |w| ==> Abs(w[i]) <= 127.0 * s)
    && (127.0 * s == 0.00000001 || exists i :: 0 <= i < |w| && Abs(w[i]) == 127.0 * s)
  }

  lemma ScaleIsTrue(w: seq<real>)
    requires |w| > 0
    ensures TrueScale(Scale(w), w)
  {
    var k := AbsMaxIsMax(w);
    if AbsMax(w) >= FLOOR {
      assert Abs(w[k]) == 127.0 * Scale(w);
    }
  }

  lemma TrueScaleUnique(s: real, s': real, w: seq<real>)
    requires TrueScale(s, w) && TrueScale(s', w)
    ensures s == s'
  {
  }

  /** The integers and the scale of a channel, and what they promise about the weights they stand for. */
  ghost predicate Stands(q: seq<int>, s: real, w: seq<real>) {
    && |w| > 0 && q == Quantize(w) && TrueScale(s, w) && |q| == |w|
    && (forall i :: 0 <= i < |q| ==> NearestEven(w[i] / s, q[i]))
    && (forall i :: 0 <= i < |q| ==> -127 <= q[i] <= 127)
    && Near(w, Dequantize(q, s), HalfOf(s))
    && DotsNear(w, Dequantize(q, s), HalfOf(s))
  }

  ghost predicate LayerStands(l: Layer, q: IntLayer, s: LayerScales) {
    && q.name == l.name == s.name
    && match l.tensor
       case Vector(w) => q.tensor == Kept(w) && s.scales == None
       case Channels(cs) =>
         && q.tensor.Int8? && s.scales.Some? && |q.tensor.channels| == |cs| == |s.scales.value|
         && forall c :: 0 <= c < |cs| ==> Stands(q.tensor.channels[c], s.scales.value[c], cs[c])
  }

  lemma QuantizedStands(w: seq<real>, q: seq<int>, s: real)
    requires |w| > 0 && q == Quantize(w) && s == Scale(w)
    ensures Stands(q, s, w)
  {
    ScaleIsTrue(w);
    forall i | 0 <= i < |w| ensures -127 <= q[i] <= 127 && NearestEven(w[i] / s, q[i]) {
      WithinHalfStep(w, i);
      RoundIsNearestEven(w[i] / s);
    }
    RestoredNear(w, Dequantize(q, s), s);
  }

  /** Vectors are kept as they are; every channel of every other layer stands for its weights. */
  method QuantizeLayers(layers: seq<Layer>) returns (int8Layers: seq<IntLayer>, int8Scales: seq<LayerScales>)
    requires forall k :: 0 <= k < |layers| ==> NonEmptyChannels(layers[k].tensor)
    ensures |int8Layers| == |int8Scales| == |layers|
    ensures forall k :: 0 <= k < |layers| ==> LayerStands(layers[k], int8Layers[k], int8Scales[k])
  {
    int8Layers, int8Scales := [], [];
    for k := 0 to |layers|
      invariant |int8Layers| == |int8Scales| == k
      invariant forall j :: 0 <= j < k ==> LayerStands(layers[j], int8Layers[j], int8Scales[j])
    {
      var layer := layers[k];
      match layer.tensor {
        case Channels(cs) =>
          assert NonEmptyChannels(layer.tensor);
          var q, s := QuantizeChannels(cs), ChannelScales(cs);
          forall c | 0 <= c < |cs| ensures Stands(q[c], s[c], cs[c]) {
            QuantizedStands(cs[c], q[c], s[c]);
          }
          int8Layers := int8Layers + [IntLayer(layer.name, Int8(q))];
          int8Scales := int8Scales + [LayerScales(layer.name, Some(s))];
        case Vector(w) =>
          int8Layers := int8Layers + [IntLayer(layer.name, Kept(w))];
          int8Scales := int8Scales + [LayerScales(layer.name, None)];
      }
    }
  }
}
