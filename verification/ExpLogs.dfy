/**
  Exponential and logarithm given by their laws, and reals extended with minus infinity.

  `ExpLog` packages the two functions; `Valid` lists the only facts about them used anywhere in
  this project. Every theorem holds for any pair of functions obeying these laws, so in particular
  for the real exponential and logarithm.
 */
module ExpLogs {

  datatype ExpLog = ExpLog(exp: real -> real, log: real -> real) {

    ghost predicate AddLaw(a: real, b: real) {
      exp(a + b) == exp(a) * exp(b)
    }

    ghost predicate OrderLaw(a: real, b: real) {
      a <= b ==> exp(a) <= exp(b)
    }

    ghost predicate InverseLaw(a: real, x: real) {
      && exp(a) > 0.0
      && log(exp(a)) == a
      && (x > 0.0 ==> exp(log(x)) == x)
    }

    ghost predicate Valid() {
      && exp(0.0) == 1.0
      && (forall a, b :: AddLaw(a, b))
      && (forall a, b :: OrderLaw(a, b))
      && (forall a, x :: InverseLaw(a, x))
    }

    lemma Positive(a: real)
      requires Valid()
      ensures exp(a) > 0.0
    {
      assert InverseLaw(a, 1.0);
    }

    lemma LogOfExp(a: real)
      requires Valid()
      ensures log(exp(a)) == a
    {
      assert InverseLaw(a, 1.0);
    }

    lemma ExpOfLog(x: real)
      requires Valid() && x > 0.0
      ensures exp(log(x)) == x
    {
      assert InverseLaw(0.0, x);
    }

    /** `exp(a - b)` rescales by `exp(b)` to `exp(a)`. */
    lemma Shift(a: real, b: real)
      requires Valid()
      ensures exp(a - b) * exp(b) == exp(a)
    {
      assert AddLaw(a - b, b);
      assert a - b + b == a;
    }

    lemma Sum(a: real, b: real)
      requires Valid()
      ensures exp(a + b) == exp(a) * exp(b)
    {
      assert AddLaw(a, b);
    }

    lemma AtMostOne(a: real)
      requires Valid() && a <= 0.0
      ensures exp(a) <= 1.0
    {
      assert OrderLaw(a, 0.0);
    }

    lemma LogOfAtLeastOne(x: real)
      requires Valid() && x >= 1.0
      ensures log(x) >= 0.0
    {
      ExpOfLog(x);
      var y := log(x);
      if y < 0.0 {
        // then x = exp(y) <= 1, so x = 1 = exp(0) and y = 0
        AtMostOne(y);
        LogOfExp(0.0);
        LogOfExp(y);
      }
    }
  }

  /** A real or minus infinity: the value range of a masked score. */
  datatype Ext = NegInf | Fin(val: real)

  function MaxExt(a: Ext, b: Ext): Ext {
    if a.NegInf? then b
    else if b.NegInf? then a
    else if a.val >= b.val then a else b
  }

  predicate LeqExt(a: Ext, b: Ext) {
    a.NegInf? || (b.Fin? && a.val <= b.val)
  }

  /** `a - b`. The difference of two infinities has no value, so `b` must be finite. */
  function SubExt(a: Ext, b: Ext): Ext
    requires b.Fin?
  {
    if a.NegInf? then NegInf else Fin(a.val - b.val)
  }

  /** Multiplication by a positive number. */
  function ScaleExt(a: Ext, x: real): Ext
    requires x > 0.0
  {
    if a.NegInf? then NegInf else Fin(a.val * x)
  }

  /** Addition of a finite number. */
  function AddExt(a: Ext, x: real): Ext {
    if a.NegInf? then NegInf else Fin(a.val + x)
  }

  function ExpExt(el: ExpLog, a: Ext): real {
    if a.NegInf? then 0.0 else el.exp(a.val)
  }

  lemma ExpExtNonNegative(el: ExpLog, a: Ext)
    requires el.Valid()
    ensures ExpExt(el, a) >= 0.0
    ensures a.Fin? ==> ExpExt(el, a) > 0.0
  {
    if a.Fin? {
      el.Positive(a.val);
    }
  }

  lemma ShiftExt(el: ExpLog, a: Ext, b: Ext)
    requires el.Valid() && b.Fin?
    ensures ExpExt(el, SubExt(a, b)) * el.exp(b.val) == ExpExt(el, a)
  {
    if a.Fin? {
      el.Shift(a.val, b.val);
    }
  }

  lemma ExpExtAtMostOne(el: ExpLog, a: Ext, b: Ext)
    requires el.Valid() && b.Fin? && LeqExt(a, b)
    ensures 0.0 <= ExpExt(el, SubExt(a, b)) <= 1.0
  {
    ExpExtNonNegative(el, SubExt(a, b));
    if a.Fin? {
      el.AtMostOne(a.val - b.val);
    }
  }

  /** The largest of `s(lo), ..., s(hi - 1)`; minus infinity for an empty range. */
  function TileMax(s: int -> Ext, lo: int, hi: int): (top: Ext)
    ensures forall j | lo <= j < hi :: LeqExt(s(j), top)
    ensures top.NegInf? || exists j :: lo <= j < hi && s(j) == top
    decreases hi - lo
  {
    if lo >= hi then NegInf else MaxExt(TileMax(s, lo, hi - 1), s(hi - 1))
  }

  lemma {:induction false} TileMaxSplit(s: int -> Ext, lo: int, mid: int, hi: int)
    requires lo <= mid <= hi
    ensures TileMax(s, lo, hi) == MaxExt(TileMax(s, lo, mid), TileMax(s, mid, hi))
    decreases hi - mid
  {
    if mid < hi {
      TileMaxSplit(s, lo, mid, hi - 1);
    }
  }

  lemma ScaleOrder(a: real, b: real, x: real)
    requires x > 0.0
    ensures a >= b <==> a * x >= b * x
  {
    if a >= b {
      assert (a - b) * x >= 0.0;
    } else {
      assert (b - a) * x > 0.0;
    }
  }

  lemma MaxScale(a: Ext, b: Ext, x: real)
    requires x > 0.0
    ensures MaxExt(ScaleExt(a, x), ScaleExt(b, x)) == ScaleExt(MaxExt(a, b), x)
  {
    if a.Fin? && b.Fin? {
      ScaleOrder(a.val, b.val, x);
    }
  }

  /** Scaling by a positive number commutes with taking the maximum. */
  lemma {:induction false} TileMaxScale(s: int -> Ext, scaled: int -> Ext, x: real, lo: int, hi: int)
    requires x > 0.0
    requires forall j | lo <= j < hi :: scaled(j) == ScaleExt(s(j), x)
    ensures TileMax(scaled, lo, hi) == ScaleExt(TileMax(s, lo, hi), x)
    decreases hi - lo
  {
    if lo < hi {
      TileMaxScale(s, scaled, x, lo, hi - 1);
      MaxScale(TileMax(s, lo, hi - 1), s(hi - 1), x);
    }
  }
}
