// The disciplined wall clock (kernel/time.c): a frequency correction and a
// bounded slew are folded into the offset whenever the clock is read.
module Clock {
  import opened CArith

  const GIGA := 1_000_000_000
  const MEGA := 1_000_000
  const LONG_GAP := 1_000_000_000_000
  const MAX_SLEW_PPM := 500
  const MAX_FREQ_PPB := 500_000

  // `last` is 0 before the first fold.
  datatype State = State(offset: int, last: nat, slewLeft: int, freq: int, freqRem: int, slewRem: int)

  predicate Carried(c: State) {
    -GIGA < c.freqRem < GIGA && 0 <= c.slewRem < MEGA
  }

  function FoldFreq(c: State, elapsed: nat): State {
    if c.freq == 0 then c
    else if elapsed < LONG_GAP then
      var x := c.freqRem + elapsed * c.freq;
      c.(offset := c.offset + CDiv(x, GIGA), freqRem := CMod(x, GIGA))
    else c.(offset := c.offset + CDiv(CDiv(elapsed, 1000) * c.freq, MEGA))
  }

  function Clamped(left: int, max: int): int {
    if left > 0 then Min(left, max) else Max(left, -max)
  }

  function FoldSlew(c: State, elapsed: nat): State {
    if c.slewLeft == 0 then c.(slewRem := 0)
    else
      var x := c.slewRem + elapsed * MAX_SLEW_PPM;
      var max := if elapsed < LONG_GAP then CDiv(x, MEGA) else CDiv(elapsed, MEGA) * MAX_SLEW_PPM;
      var step := Clamped(c.slewLeft, max);
      c.(offset := c.offset + step, slewLeft := c.slewLeft - step,
         slewRem := if elapsed < LONG_GAP then CMod(x, MEGA) else c.slewRem)
  }

  // fold
  function Fold(c: State, now: nat): State {
    var from := if c.last == 0 then now else c.last;
    var c1 := c.(last := now);
    if now <= from then c1 else FoldSlew(FoldFreq(c1, now - from), now - from)
  }

  function Folds(c: State, times: seq<nat>): State {
    if times == [] then c else Fold(Folds(c, times[..|times| - 1]), times[|times| - 1])
  }

  // Reads in order, none more than 1000 seconds after the one before.
  predicate Steady(last: nat, times: seq<nat>) {
    times == [] ||
    var t := if |times| == 1 then last else times[|times| - 2];
    Steady(last, times[..|times| - 1]) && t <= times[|times| - 1] < t + LONG_GAP
  }

  // ---- the closed formula ----

  function Slewed(left: int, rem: int, elapsed: nat): int {
    Clamped(left, (rem + 500 * elapsed) / 1_000_000)
  }

  // The clock `elapsed` after its last fold, however often it was read.
  ghost predicate Formula(c: State, c': State, elapsed: nat) {
    var x := c.freqRem + c.freq * elapsed;
    var s := Slewed(c.slewLeft, c.slewRem, elapsed);
    && c'.offset == c.offset + CDiv(x, GIGA) + s && c'.slewLeft == c.slewLeft - s
    && c'.freqRem == CMod(x, GIGA) && c'.freq == c.freq
    && c'.last == c.last + elapsed
    && (c'.slewLeft != 0 ==> c'.slewRem == (c.slewRem + MAX_SLEW_PPM * elapsed) % MEGA)
    && 0 <= c'.slewRem < MEGA
  }

  // Carrying the remainder of a truncating division loses nothing as long as
  // what is added keeps its sign, whatever the sign of the first remainder.
  lemma CarryComposes(r: int, a: int, b: int, m: int)
    requires m > 0 && -m < r < m && ((a >= 0 && b >= 0) || (a <= 0 && b <= 0))
    ensures CDiv(r + a, m) + CDiv(CMod(r + a, m) + b, m) == CDiv(r + a + b, m)
    ensures CMod(CMod(r + a, m) + b, m) == CMod(r + a + b, m)
  {
    hide CDiv, CMod;
    var q1, r1 := CDiv(r + a, m), CMod(r + a, m);
    var q2, r2 := CDiv(r1 + b, m), CMod(r1 + b, m);
    CModRange(r + a, m);
    CModRange(r1 + b, m);
    SmallQuotient(r + a, m);
    CarrySign(r, a, b, m, r1, r2);
    Parts(r + a, m);
    Parts(r1 + b, m);
    Together(r + a + b, m, q1, q2, m * q1, m * q2, r2);
  }

  lemma Parts(x: int, m: int)
    requires m > 0
    ensures x == m * CDiv(x, m) + CMod(x, m)
  {
    hide CDiv;
  }

  // The last remainder has the sign of the whole.
  lemma CarrySign(r: int, a: int, b: int, m: int, r1: int, r2: int)
    requires -m < r < m && ((a >= 0 && b >= 0) || (a <= 0 && b <= 0)) && -m < r1 < m
    requires (r + a >= 0 ==> r1 >= 0) && (r + a <= 0 ==> r1 <= 0) && (-m < r + a < m ==> r1 == r + a)
    requires (r1 + b >= 0 ==> r2 >= 0) && (r1 + b <= 0 ==> r2 <= 0)
    ensures (r + a + b >= 0 ==> r2 >= 0) && (r + a + b <= 0 ==> r2 <= 0)
  {
  }

  lemma Together(x: int, m: int, q1: int, q2: int, p1: int, p2: int, r: int)
    requires m > 0 && p1 == m * q1 && p2 == m * q2 && x == p1 + p2 + r && -m < r < m
    requires (x >= 0 ==> r >= 0) && (x <= 0 ==> r <= 0)
    ensures CDiv(x, m) == q1 + q2 && CMod(x, m) == r
  {
    hide CDiv;
    assert m * (q1 + q2) == p1 + p2;
    CDivUnique(x, m, q1 + q2);
  }

  // A dividend smaller than the divisor is all remainder.
  lemma SmallQuotient(x: int, m: int)
    requires m > 0
    ensures -m < x < m ==> CDiv(x, m) == 0 && CMod(x, m) == x
  {
    if -m < x < m {
      CDivUnique(x, m, 0);
    }
  }

  lemma OneFold(c: State, elapsed: nat)
    requires Carried(c) && c.last > 0 && elapsed < LONG_GAP
    ensures Formula(c, Fold(c, c.last + elapsed), elapsed)
  {
    var c' := Fold(c, c.last + elapsed);
    SmallQuotient(c.freqRem, GIGA);
    if elapsed > 0 {
      var c1 := FoldFreq(c.(last := c.last + elapsed), elapsed);
      assert elapsed * c.freq == c.freq * elapsed;
      SlewStep(c1, elapsed);
    }
  }

  lemma SlewStep(c: State, elapsed: nat)
    requires 0 <= c.slewRem < MEGA && elapsed < LONG_GAP
    ensures var c' := FoldSlew(c, elapsed); var s := Slewed(c.slewLeft, c.slewRem, elapsed);
            && c' == c.(offset := c.offset + s, slewLeft := c.slewLeft - s, slewRem := c'.slewRem)
            && (c'.slewLeft != 0 ==> c'.slewRem == (c.slewRem + MAX_SLEW_PPM * elapsed) % MEGA)
            && 0 <= c'.slewRem < MEGA
  {
    var x := c.slewRem + elapsed * MAX_SLEW_PPM;
    CModRange(x, MEGA);
  }

  // Two stretches in a row are one stretch.
  lemma FormulaComposes(c: State, c1: State, c2: State, e1: nat, e2: nat)
    requires Carried(c) && Formula(c, c1, e1) && Formula(c1, c2, e2)
    ensures Formula(c, c2, e1 + e2)
  {
    SameSign(c.freq, e1, e2);
    CarryComposes(c.freqRem, c.freq * e1, c.freq * e2, GIGA);
    SlewComposes(c.slewLeft, c.slewRem, c1.slewRem, e1, e2);
    hide CDiv, CMod, Slewed;
    assert c.freq * (e1 + e2) == c.freq * e1 + c.freq * e2;
  }

  lemma SameSign(f: int, a: nat, b: nat)
    ensures (f * a >= 0 && f * b >= 0) || (f * a <= 0 && f * b <= 0)
  {
  }

  lemma SlewComposes(left: int, rem: int, rem1: int, e1: nat, e2: nat)
    requires 0 <= rem < MEGA && 0 <= rem1 < MEGA
    requires var left1 := left - Slewed(left, rem, e1);
             left1 != 0 ==> rem1 == (rem + MAX_SLEW_PPM * e1) % MEGA
    ensures var s1 := Slewed(left, rem, e1); var s2 := Slewed(left - s1, rem1, e2);
            && s1 + s2 == Slewed(left, rem, e1 + e2)
            && (left - s1 - s2 != 0 ==> (rem1 + MAX_SLEW_PPM * e2) % MEGA == (rem + MAX_SLEW_PPM * (e1 + e2)) % MEGA)
  {
    var x := rem + MAX_SLEW_PPM * e1;
    var y := x % MEGA + MAX_SLEW_PPM * e2;
    assert x == MEGA * (x / MEGA) + x % MEGA;
    DivMod(x + MAX_SLEW_PPM * e2, MEGA, x / MEGA + y / MEGA, y % MEGA);
  }

  // Any sequence of reads leaves the clock as one read at the end would.
  lemma {:induction false} FoldsFormula(c: State, times: seq<nat>)
    requires Carried(c) && c.last > 0 && Steady(c.last, times)
    ensures var t := if times == [] then c.last else times[|times| - 1];
            t >= c.last && Formula(c, Folds(c, times), t - c.last) && Carried(Folds(c, times))
  {
    hide Formula, Fold, Carried;
    if times == [] {
      FormulaNothing(c);
    } else {
      var n := |times| - 1;
      FoldsFormula(c, times[..n]);
      var c1 := Folds(c, times[..n]);
      FormulaFacts(c, c1, if n == 0 then 0 else times[n - 1] - c.last);
      OneFold(c1, times[n] - c1.last);
      FormulaComposes(c, c1, Folds(c, times), c1.last - c.last, times[n] - c1.last);
      FormulaFacts(c, Folds(c, times), times[n] - c.last);
    }
  }

  lemma FormulaNothing(c: State)
    requires Carried(c)
    ensures Formula(c, c, 0)
  {
    SmallQuotient(c.freqRem, GIGA);
    NoSlew(c.slewLeft, c.slewRem);
  }

  lemma FormulaFacts(c: State, c': State, elapsed: nat)
    requires Formula(c, c', elapsed)
    ensures c'.last == c.last + elapsed && Carried(c')
  {
    CModRange(c.freqRem + c.freq * elapsed, GIGA);
  }

  lemma NoSlew(left: int, rem: int)
    requires 0 <= rem < MEGA
    ensures Slewed(left, rem, 0) == 0
  {
  }

  // How often the clock is read makes no difference.
  lemma ReadsDoNotMatter(c: State, a: seq<nat>, b: seq<nat>)
    requires Carried(c) && c.last > 0 && Steady(c.last, a) && Steady(c.last, b) && a != [] && b != []
    requires a[|a| - 1] == b[|b| - 1]
    ensures Folds(c, a).offset == Folds(c, b).offset && Folds(c, a).slewLeft == Folds(c, b).slewLeft
    ensures Folds(c, a).freqRem == Folds(c, b).freqRem
  {
    hide Folds, Steady;
    FoldsFormula(c, a);
    FoldsFormula(c, b);
  }

  // Slewing goes toward the target and never past it, over any reads.
  lemma {:induction false} NoOvershoot(c: State, times: seq<nat>)
    requires Carried(c)
    ensures var left := Folds(c, times).slewLeft;
            if c.slewLeft >= 0 then 0 <= left <= c.slewLeft else c.slewLeft <= left <= 0
    ensures Carried(Folds(c, times))
  {
    hide Fold, Carried;
    if times != [] {
      var n := |times| - 1;
      NoOvershoot(c, times[..n]);
      FoldKeepsCarried(Folds(c, times[..n]), times[n]);
      OneFoldShort(Folds(c, times[..n]), times[n]);
    }
  }

  lemma OneFoldShort(c: State, now: nat)
    requires Carried(c)
    ensures var left := Fold(c, now).slewLeft;
            if c.slewLeft >= 0 then 0 <= left <= c.slewLeft else c.slewLeft <= left <= 0
  {
    hide CMod;
    var e := now - (if c.last == 0 then now else c.last);
    if e > 0 {
      assert CDiv(c.slewRem + e * MAX_SLEW_PPM, MEGA) >= 0 && CDiv(e, MEGA) * MAX_SLEW_PPM >= 0;
    }
  }

  // ---- gaps of 1000 seconds and more ----

  // After one, the offset is within 503 ns and a millionth of the frequency of
  // the closed formula, and the rest of the slew within 500 ns.
  lemma LongGap(c: State, elapsed: nat)
    requires Carried(c) && c.last > 0 && elapsed >= LONG_GAP
    ensures var c' := Fold(c, c.last + elapsed); var s := Slewed(c.slewLeft, c.slewRem, elapsed);
            var off := c'.offset - (c.offset + CDiv(c.freqRem + c.freq * elapsed, GIGA) + s);
            && 1_000_000 * (off - 503) <= Abs(c.freq) && 1_000_000 * (-off - 503) <= Abs(c.freq)
            && -500 <= c'.slewLeft - (c.slewLeft - s) <= 500
  {
    hide CDiv, CMod, Slewed, Clamped, Fold;
    FoldLong(c, elapsed);
    LongFreq(c.freqRem, c.freq, elapsed);
    LongSlew(c.slewLeft, c.slewRem, elapsed);
  }

  lemma FoldLong(c: State, elapsed: nat)
    requires c.last > 0 && elapsed >= LONG_GAP
    ensures var c' := Fold(c, c.last + elapsed); var step := Clamped(c.slewLeft, CDiv(elapsed, MEGA) * MAX_SLEW_PPM);
            && c'.offset == c.offset + CDiv(CDiv(elapsed, 1000) * c.freq, MEGA) + step
            && c'.slewLeft == c.slewLeft - step
  {
    hide CMod;
    assert CDiv(elapsed, MEGA) >= 0;
    if c.freq == 0 {
      assert CDiv(elapsed, 1000) * c.freq == 0;
    }
  }

  function Abs(x: int): int {
    if x < 0 then -x else x
  }

  lemma LongSlew(left: int, rem: int, e: nat)
    requires 0 <= rem < MEGA
    ensures var step := Clamped(left, CDiv(e, MEGA) * MAX_SLEW_PPM); -500 <= step - Slewed(left, rem, e) <= 500
  {
    var q, r := e / MEGA, e % MEGA;
    assert rem + 500 * e == MEGA * (500 * q) + (rem + 500 * r);
    var k := (rem + 500 * r) / MEGA;
    DivMod(rem + 500 * e, MEGA, 500 * q + k, (rem + 500 * r) % MEGA);
  }

  lemma LongFreq(rem: int, f: int, e: nat)
    requires -GIGA < rem < GIGA
    ensures var d := CDiv(CDiv(e, 1000) * f, MEGA) - CDiv(rem + f * e, GIGA);
            1_000_000 * (d - 3) <= Abs(f) && 1_000_000 * (-d - 3) <= Abs(f)
  {
    var q, r := e / 1000, e % 1000;
    var a, b := q * f, rem + f * e;
    assert f * e == 1000 * a + f * r by {
      assert e == 1000 * q + r;
      assert f * (1000 * q + r) == 1000 * (q * f) + f * r;
    }
    SmallProduct(f, r);
    CModRange(a, MEGA);
    CModRange(b, GIGA);
    Parts(a, MEGA);
    Parts(b, GIGA);
    hide CDiv, CMod;
  }

  lemma SmallProduct(f: int, r: nat)
    requires r < 1000
    ensures -1000 * Abs(f) <= f * r <= 1000 * Abs(f)
  {
  }

  // With the frequency correction within 500 ppm, wall time advances with
  // monotonic time to within a thousandth and 2 ns.
  lemma RateBound(c: State, times: seq<nat>)
    requires Carried(c) && c.last > 0 && Steady(c.last, times) && -MAX_FREQ_PPB <= c.freq <= MAX_FREQ_PPB
    ensures var c' := Folds(c, times); var t := c'.last - c.last;
            t >= 0 && -(t / 1000 + 2) <= c'.offset - c.offset <= t / 1000 + 2
  {
    hide Folds, Steady;
    FoldsFormula(c, times);
    var c' := Folds(c, times);
    var t := c'.last - c.last;
    FreqBound(c.freqRem, c.freq, t);
    SlewBound(c.slewLeft, c.slewRem, t);
  }

  lemma FreqBound(r: int, f: int, t: nat)
    requires -GIGA < r < GIGA && -MAX_FREQ_PPB <= f <= MAX_FREQ_PPB
    ensures var q := CDiv(r + f * t, GIGA); 2000 * q < 2000 + t && -2000 * q < 2000 + t
  {
    ProductBound(f, t);
    CModRange(r + f * t, GIGA);
  }

  lemma ProductBound(f: int, t: nat)
    requires -MAX_FREQ_PPB <= f <= MAX_FREQ_PPB
    ensures -MAX_FREQ_PPB * t <= f * t <= MAX_FREQ_PPB * t
  {
  }

  lemma SlewBound(left: int, rem: int, t: nat)
    requires 0 <= rem < MEGA
    ensures var s := Slewed(left, rem, t); 2000 * s < 2000 + t && -2000 * s < 2000 + t
  {
  }

  // ---- the clock ----

  class WallClock {
    var offset: int
    var last: nat
    var slewLeft: int
    var freq: int
    var freqRem: int
    var slewRem: int

    function St(): State
      reads this
    {
      State(offset, last, slewLeft, freq, freqRem, slewRem)
    }

    method FoldNow(now: nat)
      modifies this
      ensures St() == Fold(old(St()), now)
    {
      hide CDiv, CMod;
      if last == 0 {
        last := now;
      }
      var elapsed := now - last;
      last := now;
      if elapsed <= 0 {
        return;
      }
      if freq != 0 {
        if elapsed < LONG_GAP {
          freqRem := freqRem + elapsed * freq;
          offset := offset + CDiv(freqRem, GIGA);
          freqRem := CMod(freqRem, GIGA);
        } else {
          offset := offset + CDiv(CDiv(elapsed, 1000) * freq, MEGA);
        }
      }
      if slewLeft != 0 {
        var max;
        if elapsed < LONG_GAP {
          slewRem := slewRem + elapsed * MAX_SLEW_PPM;
          max := CDiv(slewRem, MEGA);
          slewRem := CMod(slewRem, MEGA);
        } else {
          max := CDiv(elapsed, MEGA) * MAX_SLEW_PPM;
        }
        var step := if slewLeft > 0 then Min(slewLeft, max) else Max(slewLeft, -max);
        offset := offset + step;
        slewLeft := slewLeft - step;
      } else {
        slewRem := 0;
      }
    }

    // ktime_realtime_ns
    method Realtime(now: nat) returns (r: int)
      modifies this
      ensures St() == Fold(old(St()), now) && r == now + offset
    {
      FoldNow(now);
      r := now + offset;
    }

    // set_realtime_ns: the clock reads exactly that from now on.
    method SetRealtime(ns: int, now: nat)
      modifies this
      ensures St() == Fold(old(St()), now).(offset := ns - now, slewLeft := 0)
      ensures now + offset == ns
    {
      FoldNow(now);
      offset := ns - now;
      slewLeft := 0;
    }

    // realtime_adjust
    method Adjust(now: nat, stepNs: int, haveStep: bool, slewNs: int, haveSlew: bool, newFreq: int, haveFreq: bool)
      returns (slewOut: int, freqOut: int)
      modifies this
      ensures var c := Fold(old(St()), now);
              St() == c.(offset := c.offset + (if haveStep then stepNs else 0),
                         slewLeft := if haveSlew then slewNs else c.slewLeft,
                         freq := if haveFreq then newFreq else c.freq)
      ensures slewOut == slewLeft && freqOut == freq
    {
      FoldNow(now);
      if haveStep {
        offset := offset + stepNs;
      }
      if haveSlew {
        slewLeft := slewNs;
      }
      if haveFreq {
        freq := newFreq;
      }
      return slewLeft, freq;
    }
  }

  // Carries stay in range through every fold, long gaps included, so the
  // formula applies again after any adjustment.
  lemma FoldKeepsCarried(c: State, now: nat)
    requires Carried(c)
    ensures Carried(Fold(c, now))
  {
    var from := if c.last == 0 then now else c.last;
    if now > from {
      var e := now - from;
      CModRange(c.freqRem + e * c.freq, GIGA);
      CModRange(c.slewRem + e * MAX_SLEW_PPM, MEGA);
    }
  }
}
