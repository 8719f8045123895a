/** Datatypes and real-valued sequence functions shared by every component. */
module Common {
  datatype Option<+T> = None | Some(value: T)

  datatype Result<+T, +E> = Ok(value: T) | Err(error: E)

  const SECONDS_PER_DAY := 86400

  function MinInt(a: int, b: int): int { if a <= b then a else b }

  function MaxInt(a: int, b: int): int { if a <= b then b else a }

  function MinReal(a: real, b: real): real { if a <= b then a else b }

  function MaxReal(a: real, b: real): real { if a <= b then b else a }
}

/** Sums, growth factors and running maxima over sequences of reals. */
module RealSeqs {
  import opened Common
  import opened Arith

  function Sum(s: seq<real>): real {
    if s == [] then 0.0 else Sum(s[..|s| - 1]) + s[|s| - 1]
  }

  function Mean(s: seq<real>): real
    requires s != []
  {
    Sum(s) / |s| as real
  }

  /** The product of 1 + r over all returns r. */
  function Growth(s: seq<real>): real {
    if s == [] then 1.0 else Growth(s[..|s| - 1]) * (1.0 + s[|s| - 1])
  }

  function Max(s: seq<real>): real
    requires s != []
  {
    if |s| == 1 then s[0] else MaxReal(Max(s[..|s| - 1]), s[|s| - 1])
  }

  function Scaled(s: seq<real>, k: real): seq<real> {
    seq(|s|, i requires 0 <= i < |s| => Scale(k, s[i]))
  }

  lemma GrowthAppend(s: seq<real>, x: real)
    ensures Growth(s + [x]) == Growth(s) * (1.0 + x)
  {
    assert (s + [x])[..|s|] == s;
  }

  lemma ScaledSlice(s: seq<real>, k: real, lo: nat, hi: nat)
    requires lo <= hi <= |s|
    ensures Scaled(s, k)[lo..hi] == Scaled(s[lo..hi], k)
  {
    var t, u := Scaled(s, k)[lo..hi], Scaled(s[lo..hi], k);
    assert |t| == |u| == hi - lo;
    forall i | 0 <= i < hi - lo ensures t[i] == u[i] {
      assert t[i] == Scaled(s, k)[lo + i] == Scale(k, s[lo + i]);
      assert u[i] == Scale(k, s[lo..hi][i]);
    }
  }

  lemma ScaledAppend(s: seq<real>, x: real, k: real)
    ensures Scaled(s + [x], k) == Scaled(s, k) + [Scale(k, x)]
  {
    hide Scale;
    var t, u := Scaled(s + [x], k), Scaled(s, k) + [Scale(k, x)];
    forall i | 0 <= i < |t| ensures t[i] == u[i] {
      assert t[i] == Scale(k, (s + [x])[i]);
    }
  }

  lemma {:induction false} SumScaled(s: seq<real>, k: real)
    ensures Sum(Scaled(s, k)) == Scale(k, Sum(s))
  {
    if s != [] {
      hide Scale;
      SumScaled(s[..|s| - 1], k);
      ScaleAdd(k, Sum(s[..|s| - 1]), s[|s| - 1]);
      ScaledSlice(s, k, 0, |s| - 1);
    }
  }

  /** Max really is the greatest element. */
  lemma {:induction false} MaxIsGreatest(s: seq<real>)
    requires s != []
    ensures Max(s) in s
    ensures forall i :: 0 <= i < |s| ==> s[i] <= Max(s)
  {
    if |s| > 1 {
      MaxIsGreatest(s[..|s| - 1]);
      forall i | 0 <= i < |s| ensures s[i] <= Max(s) {
        if i < |s| - 1 { assert s[..|s| - 1][i] == s[i]; }
      }
    }
  }

  lemma MaxScaled(s: seq<real>, k: real)
    requires s != [] && k > 0.0
    ensures Max(Scaled(s, k)) == Scale(k, Max(s))
  {
    hide Max;
    hide Scale;
    var t := Scaled(s, k);
    MaxIsGreatest(s);
    MaxIsGreatest(t);
    var i :| 0 <= i < |t| && t[i] == Max(t);
    ScaleOrder(k, Max(s), s[i]);
    var j :| 0 <= j < |s| && s[j] == Max(s);
    assert t[j] <= Max(t);
  }
}
