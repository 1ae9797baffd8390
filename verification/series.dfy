/** Position-aligned series and the handful of pandas operations the
    volatility-targeting script applies to them. Every series in the script
    derives from one date index, so a series is a plain sequence and two
    series line up by position. An entry of `None` stands for NaN. Arithmetic
    is exact: floating-point rounding is not modelled. */
module Series {

  /** One entry of a series: a number, or NaN (`None`). */
  datatype Option<+T> = None | Some(value: T)

  /** Every entry is a number. */
  predicate AllDefined(s: seq<Option<real>>) {
    forall i :: 0 <= i < |s| ==> s[i].Some?
  }

  /** Every entry is strictly positive, as closing prices are. */
  predicate AllPositive(s: seq<real>) {
    forall i :: 0 <= i < |s| ==> s[i] > 0.0
  }

  /** `Series.dropna()`: keeps the defined entries, in their order. A series
      without NaN comes back unchanged, and one whose only NaN is its first
      entry loses exactly that entry. */
  function DropNa(s: seq<Option<real>>): (r: seq<real>)
    ensures |r| <= |s|
    ensures forall x :: x in r ==> Some(x) in s
    ensures AllDefined(s) ==> |r| == |s| && forall i :: 0 <= i < |s| ==> r[i] == s[i].value
    ensures |s| > 0 && s[0] == None && AllDefined(s[1..]) ==>
              |r| == |s| - 1 && forall i :: 0 <= i < |r| ==> r[i] == s[i + 1].value
    decreases |s|
  {
    if |s| == 0 then []
    else if s[0].Some? then
      var rest := DropNa(s[1..]);
      assert AllDefined(s) ==> AllDefined(s[1..]);
      [s[0].value] + rest
    else
      var rest := DropNa(s[1..]);
      assert AllDefined(s[1..]) ==> |rest| == |s| - 1;
      rest
  }

  /** What `dropna` keeps of one entry: its value, or nothing for NaN. */
  function Kept(x: Option<real>): seq<real> {
    if x.Some? then [x.value] else []
  }

  /** `dropna` of a non-empty series, with or without a tail appended:
      what it keeps of the first entry, followed by `dropna` of the rest. */
  lemma DropNaFirst(a: seq<Option<real>>, b: seq<Option<real>>)
    requires |a| > 0
    ensures DropNa(a) == Kept(a[0]) + DropNa(a[1..])
    ensures DropNa(a + b) == Kept(a[0]) + DropNa(a[1..] + b)
  {
    assert (a + b)[0] == a[0];
    assert (a + b)[1..] == a[1..] + b;
  }

  /** `dropna` on a single entry: a number is kept, NaN is dropped. */
  lemma DropNaOne(x: Option<real>)
    ensures DropNa([x]) == Kept(x)
  {
    assert [x][1..] == [];
  }

  /** Joining sequences is associative. */
  lemma ConcatAssoc(h: seq<real>, x: seq<real>, y: seq<real>)
    ensures h + (x + y) == (h + x) + y
  {
  }

  /** `dropna` works piecewise: dropping NaN from two series joined end to
      end is dropping it from each and joining the results. With
      `DropNaOne` this fixes `DropNa` on every input, gaps anywhere
      included: the defined values, in their order. */
  lemma {:induction false} DropNaAppend(a: seq<Option<real>>, b: seq<Option<real>>)
    ensures DropNa(a + b) == DropNa(a) + DropNa(b)
    decreases |a|
  {
    if |a| == 0 {
      assert a + b == b;
    } else {
      DropNaAppend(a[1..], b);
      DropNaFirst(a, b);
      ConcatAssoc(Kept(a[0]), DropNa(a[1..]), DropNa(b));
    }
  }

  /** `Series.pct_change()` on a series without NaN and without zeros: the
      first entry has no predecessor and is NaN; every later entry is the
      fractional change from the previous value to the current one. */
  function PctChange(s: seq<real>): (r: seq<Option<real>>)
    requires forall i :: 0 <= i < |s| ==> s[i] != 0.0
    ensures |r| == |s|
    ensures |s| > 0 ==> r[0] == None
    ensures forall i :: 0 <= i < |s| - 1 ==> r[i + 1] == Some(s[i + 1] / s[i] - 1.0)
  {
    if |s| == 0 then []
    else [None] + seq(|s| - 1, i requires 0 <= i < |s| - 1 => Some(s[i + 1] / s[i] - 1.0))
  }

  /** The non-negative dispersion statistic `Series.std()` applies to one
      window. Its internals (a square root of a sample variance) are left
      abstract: any non-negative statistic of the window will do. */
  type Dispersion = f: seq<real> -> real | forall w :: 0.0 <= f(w) witness (w: seq<real>) => 0.0

  /** `Series.rolling(window).std()`: with pandas' default minimum of
      `window` observations and a sample (ddof = 1) deviation, entry `t` is
      the statistic of the `window` values ending at `t` once that many
      exist; a one-point sample deviation is NaN, so a window below two
      yields no number at all. */
  function RollingStd(s: seq<real>, window: nat, std: Dispersion): (r: seq<Option<real>>)
    ensures |r| == |s|
    ensures forall t :: 0 <= t < |s| ==> (r[t].Some? <==> 2 <= window <= t + 1)
    ensures forall t :: 0 <= t < |s| && r[t].Some? ==>
              0.0 <= r[t].value && r[t].value == std(s[t + 1 - window .. t + 1])
  {
    seq(|s|, t requires 0 <= t < |s| =>
      if 2 <= window <= t + 1 then Some(std(s[t + 1 - window .. t + 1])) else None)
  }

  /** Multiplying a series by a scalar: NaN stays NaN. */
  function Scale(s: seq<Option<real>>, k: real): (r: seq<Option<real>>)
    ensures |r| == |s|
    ensures forall t :: 0 <= t < |s| ==> (r[t].Some? <==> s[t].Some?)
    ensures forall t :: 0 <= t < |s| && s[t].Some? ==> r[t].value == s[t].value * k
    ensures k > 0.0 ==> forall t :: 0 <= t < |s| && s[t].Some? ==>
              (0.0 <= r[t].value <==> 0.0 <= s[t].value)
  {
    seq(|s|, t requires 0 <= t < |s| => if s[t].Some? then Some(s[t].value * k) else None)
  }

  /** `Series.shift(1)`: every entry moves one position later and the
      first position becomes NaN; the length is kept, so the last entry is
      dropped. */
  function Shift(s: seq<Option<real>>): (r: seq<Option<real>>)
    ensures |r| == |s|
    ensures |s| > 0 ==> r[0] == None
    ensures forall t :: 1 <= t < |s| ==> r[t] == s[t - 1]
  {
    if |s| == 0 then [] else [None] + s[..|s| - 1]
  }

  /** Element-wise product of a series that may hold NaN with one that does
      not: NaN wherever the first operand is NaN. */
  function Times(a: seq<Option<real>>, b: seq<real>): (r: seq<Option<real>>)
    requires |a| == |b|
    ensures |r| == |a|
    ensures forall t :: 0 <= t < |a| ==> (r[t].Some? <==> a[t].Some?)
    ensures forall t :: 0 <= t < |a| && a[t].Some? ==> r[t].value == a[t].value * b[t]
  {
    seq(|a|, t requires 0 <= t < |a| => if a[t].Some? then Some(a[t].value * b[t]) else None)
  }

  /** `Series.fillna(v)`: NaN entries become `v`, numbers are kept. */
  function FillNa(s: seq<Option<real>>, v: real): (r: seq<real>)
    ensures |r| == |s|
    ensures forall t :: 0 <= t < |s| ==> r[t] == (if s[t].Some? then s[t].value else v)
  {
    seq(|s|, t requires 0 <= t < |s| => if s[t].Some? then s[t].value else v)
  }

  /** `1 + s`, element-wise. */
  function OnePlus(s: seq<real>): (r: seq<real>)
    ensures |r| == |s|
    ensures forall t :: 0 <= t < |s| ==> r[t] - 1.0 == s[t]
  {
    seq(|s|, t requires 0 <= t < |s| => 1.0 + s[t])
  }

  /** `s - 1`, element-wise. */
  function MinusOne(s: seq<real>): (r: seq<real>)
    ensures |r| == |s|
    ensures forall t :: 0 <= t < |s| ==> r[t] + 1.0 == s[t]
  {
    seq(|s|, t requires 0 <= t < |s| => s[t] - 1.0)
  }

  /** Adding one undoes subtracting one: profit and value carry the same
      information. */
  lemma OnePlusMinusOne(s: seq<real>)
    ensures OnePlus(MinusOne(s)) == s
    ensures MinusOne(OnePlus(s)) == s
  {
  }

  /** The product of all factors, the empty product being 1. */
  function Product(s: seq<real>): real
    decreases |s|
  {
    if |s| == 0 then 1.0 else Product(s[..|s| - 1]) * s[|s| - 1]
  }

  /** `Series.cumprod()` on a series without NaN: the running product. Its
      first entry is the first factor and each later entry is the previous
      one times the current factor. */
  function CumProd(s: seq<real>): (r: seq<real>)
    ensures |r| == |s|
    ensures |s| > 0 ==> r[0] == s[0]
    ensures forall t :: 1 <= t < |s| ==> r[t] == r[t - 1] * s[t]
    decreases |s|
  {
    if |s| == 0 then []
    else
      var init := s[..|s| - 1];
      var prev := CumProd(init);
      var r := prev + [if |prev| == 0 then s[0] else prev[|prev| - 1] * s[|s| - 1]];
      assert forall t :: 1 <= t < |s| ==> r[t] == r[t - 1] * s[t] by {
        forall t | 1 <= t < |s|
          ensures r[t] == r[t - 1] * s[t]
        {
          assert r[t - 1] == prev[t - 1];
          if t < |s| - 1 {
            assert r[t] == prev[t] && init[t] == s[t];
          }
        }
      }
      r
  }

  /** Entry `t` of the running product is the product of the first `t + 1`
      factors. */
  lemma {:induction false} CumProdIsPrefixProduct(s: seq<real>, t: nat)
    requires t < |s|
    ensures CumProd(s)[t] == Product(s[..t + 1])
  {
    var c := CumProd(s);
    assert s[..t + 1][..t] == s[..t];
    if t == 0 {
      assert Product(s[..1]) == Product(s[..0]) * s[0];
      assert c[0] == s[0];
    } else {
      CumProdIsPrefixProduct(s, t - 1);
      assert c[t - 1] == Product(s[..t]);
      assert Product(s[..t + 1]) == Product(s[..t]) * s[t];
      assert c[t] == c[t - 1] * s[t];
    }
  }

  /** The running product looks only backwards: the running product of a
      prefix is the prefix of the running product. */
  lemma {:induction false} CumProdPrefix(s: seq<real>, k: nat)
    requires k <= |s|
    ensures CumProd(s[..k]) == CumProd(s)[..k]
    decreases |s|
  {
    if k < |s| {
      var init := s[..|s| - 1];
      CumProdPrefix(init, k);
      assert init[..k] == s[..k];
      assert CumProd(s)[..|init|] == CumProd(init);
      assert CumProd(s)[..k] == CumProd(init)[..k];
    } else {
      assert s[..k] == s;
    }
  }

  /** The product of a concatenation is the product of the parts. */
  lemma {:induction false} ProductAppend(a: seq<real>, b: seq<real>)
    ensures Product(a + b) == Product(a) * Product(b)
    decreases |b|
  {
    if |b| == 0 {
      assert a + b == a;
    } else {
      var b' := b[..|b| - 1];
      ProductAppend(a, b');
      assert (a + b)[..|a + b| - 1] == a + b';
    }
  }

  /** Peeling the first factor off a product. */
  lemma ProductCons(x: real, s: seq<real>)
    ensures Product([x] + s) == x * Product(s)
  {
    ProductAppend([x], s);
    assert [x][..0] == [];
  }

  /** The growth factor a period contributes once NaN is filled with 0. */
  function FilledGrowth(x: Option<real>): real {
    if x.Some? then 1.0 + x.value else 1.0
  }

  /** The zero-filled growth factors of a series are those of its first
      entry followed by those of the rest. */
  lemma FilledGrowthUnfold(s: seq<Option<real>>)
    requires |s| > 0
    ensures OnePlus(FillNa(s, 0.0)) == [FilledGrowth(s[0])] + OnePlus(FillNa(s[1..], 0.0))
  {
    var lhs := OnePlus(FillNa(s, 0.0));
    var rhs := [FilledGrowth(s[0])] + OnePlus(FillNa(s[1..], 0.0));
    assert forall t :: 0 <= t < |lhs| ==> lhs[t] == rhs[t];
  }

  /** When the first entry is defined, the growth factors of the defined
      entries are that entry's factor followed by those of the rest. */
  lemma DroppedGrowthUnfold(s: seq<Option<real>>)
    requires |s| > 0 && s[0].Some?
    ensures OnePlus(DropNa(s)) == [FilledGrowth(s[0])] + OnePlus(DropNa(s[1..]))
  {
    var lhs := OnePlus(DropNa(s));
    var rhs := [FilledGrowth(s[0])] + OnePlus(DropNa(s[1..]));
    assert DropNa(s) == [s[0].value] + DropNa(s[1..]);
    assert forall t :: 0 <= t < |lhs| ==> lhs[t] == rhs[t];
  }

  /** Putting the same factor in front of two sequences with equal products
      keeps their products equal. */
  lemma ProductConsEqual(x: real, a: seq<real>, b: seq<real>)
    requires Product(a) == Product(b)
    ensures Product([x] + a) == Product([x] + b)
  {
    ProductCons(x, a);
    ProductCons(x, b);
  }

  /** Filling NaN with 0 before compounding `1 + r` is the same as
      compounding only over the defined entries: a NaN period contributes
      the neutral factor 1. */
  lemma {:induction false} FillZeroCompoundsLikeDrop(s: seq<Option<real>>)
    ensures Product(OnePlus(FillNa(s, 0.0))) == Product(OnePlus(DropNa(s)))
    decreases |s|
  {
    if |s| > 0 {
      var filledRest := OnePlus(FillNa(s[1..], 0.0));
      var droppedRest := OnePlus(DropNa(s[1..]));
      FillZeroCompoundsLikeDrop(s[1..]);
      FilledGrowthUnfold(s);
      if s[0].Some? {
        DroppedGrowthUnfold(s);
        ProductConsEqual(FilledGrowth(s[0]), filledRest, droppedRest);
      } else {
        assert OnePlus(FillNa(s, 0.0)) == [1.0] + filledRest;
        assert OnePlus(DropNa(s)) == droppedRest;
        ProductCons(1.0, filledRest);
      }
    } else {
      assert OnePlus(FillNa(s, 0.0)) == [];
      assert OnePlus(DropNa(s)) == [];
    }
  }
}
