/** Percentages in web_app_manager_utils.cc: shares of counters, in tenths of a percent. */
module CpuShares {

  const LONG_WORD := 0x1_0000_0000_0000_0000
  const INT_WORD := 0x1_0000_0000

  predicate IsLong(x: int) {
    -0x8000_0000_0000_0000 <= x <= 0x7FFF_FFFF_FFFF_FFFF
  }

  /** static_cast<int>: the low 32 bits, read as a signed number. */
  function ToInt(x: int): (i: int)
    ensures -0x8000_0000 <= i < 0x8000_0000
    ensures -0x8000_0000 <= x < 0x8000_0000 ==> i == x
  {
    var low := x % INT_WORD;
    if low < 0x8000_0000 then low else low - INT_WORD
  }

  /** Division of `long` values rounds toward zero. */
  function Quotient(x: int, y: int): int
    requires y != 0
  {
    var q := (if x >= 0 then x else -x) / (if y >= 0 then y else -y);
    if (x >= 0) == (y >= 0) then q else -q
  }

  /** The change of one counter; a counter that went back is taken modulo 2^32. */
  function Change(now: int, before: int): int {
    if now - before >= 0 then now - before else ToInt((now - before) % LONG_WORD)
  }

  function Changes(now: seq<int>, before: seq<int>): (changes: seq<int>)
    requires |now| == |before|
    ensures |changes| == |now| && forall i :: 0 <= i < |now| ==> changes[i] == Change(now[i], before[i])
  {
    seq(|now|, i requires 0 <= i < |now| => Change(now[i], before[i]))
  }

  function Sum(xs: seq<int>): int {
    if xs == [] then 0 else Sum(xs[..|xs| - 1]) + xs[|xs| - 1]
  }

  /** What the shares are divided by. */
  function Total(changes: seq<int>): (total: int)
    ensures total != 0
  {
    if Sum(changes) == 0 then 1 else Sum(changes)
  }

  function Scaled(change: int, total: int): int {
    change * 1000 + Quotient(total, 2)
  }

  /** One output value. */
  function Share(change: int, total: int): int
    requires total != 0
  {
    ToInt(Quotient(Scaled(change, total), total))
  }

  function Shares(changes: seq<int>): (shares: seq<int>)
    ensures |shares| == |changes|
    ensures forall i :: 0 <= i < |changes| ==> shares[i] == Share(changes[i], Total(changes))
  {
    seq(|changes|, i requires 0 <= i < |changes| => Share(changes[i], Total(changes)))
  }

  /** No `long` operation of the computation overflows. */
  predicate FitsLong(now: seq<int>, before: seq<int>)
    requires |now| == |before|
  {
    var changes := Changes(now, before);
    && (forall i :: 0 <= i < |now| ==> IsLong(now[i] - before[i]))
    && (forall i :: 0 <= i <= |now| ==> IsLong(Sum(changes[..i])))
    && (forall i :: 0 <= i < |now| ==> IsLong(changes[i] * 1000) && IsLong(Scaled(changes[i], Total(changes))))
  }

  method Percentages(out: array<int>, now: array<int>, before: array<int>, diffs: array<int>) returns (total: int)
    requires out.Length == now.Length == before.Length == diffs.Length
    requires out != now && out != before && out != diffs && now != before && now != diffs && before != diffs
    requires FitsLong(now[..], before[..])
    modifies out, before, diffs
    ensures before[..] == now[..]
    ensures diffs[..] == Changes(now[..], old(before[..]))
    ensures total == Total(diffs[..])
    ensures out[..] == Shares(diffs[..])
  {
    hide Quotient, ToInt, Sum, Scaled, Change;
    ghost var changes := Changes(now[..], before[..]);
    ghost var start := before[..];
    total := 0;
    SumOfNone(changes);
    for i := 0 to now.Length
      invariant diffs[..i] == changes[..i] && before[..i] == now[..i] && before[i..] == start[i..]
      invariant total == Sum(changes[..i])
    {
      SumStep(changes, i);
      assert before[i] == start[i];
      var change := now[i] - before[i];
      assert IsLong(change);
      if change < 0 {
        change := ToInt((now[i] - before[i]) % LONG_WORD);
      }
      ChangeIs(now[i], before[i]);
      assert IsLong(total + change);
      diffs[i] := change;
      total := total + change;
      before[i] := now[i];
    }
    assert changes[..now.Length] == changes;
    assert diffs[..] == changes && before[..] == now[..];
    if total == 0 {
      total := 1;
    }
    var halfTotal := Quotient(total, 2);
    for i := 0 to now.Length
      invariant diffs[..] == changes && before[..] == now[..]
      invariant out[..i] == Shares(changes)[..i]
    {
      assert diffs[i] == changes[i];
      ScaledIs(diffs[i], total);
      assert IsLong(diffs[i] * 1000) && IsLong(diffs[i] * 1000 + halfTotal);
      out[i] := ToInt(Quotient(diffs[i] * 1000 + halfTotal, total));
    }
  }

  lemma SumOfNone(xs: seq<int>)
    ensures Sum(xs[..0]) == 0
  {
  }

  lemma SumStep(xs: seq<int>, i: nat)
    requires i < |xs|
    ensures Sum(xs[..i + 1]) == Sum(xs[..i]) + xs[i]
  {
    assert xs[..i + 1][..i] == xs[..i];
  }

  lemma ChangeIs(now: int, before: int)
    ensures Change(now, before) == if now - before < 0 then ToInt((now - before) % LONG_WORD) else now - before
  {
  }

  lemma ScaledIs(change: int, total: int)
    ensures Scaled(change, total) == change * 1000 + Quotient(total, 2)
  {
  }

  // ---- what the shares mean when no counter went back ----

  predicate NoneNegative(xs: seq<int>) {
    forall i :: 0 <= i < |xs| ==> xs[i] >= 0
  }

  lemma NoCounterWentBack(now: seq<int>, before: seq<int>)
    requires |now| == |before| && forall i :: 0 <= i < |now| ==> before[i] <= now[i]
    ensures NoneNegative(Changes(now, before))
    ensures forall i :: 0 <= i < |now| ==> Changes(now, before)[i] == now[i] - before[i]
  {
  }

  /**
   A counter that went back: the change is the one number in the range of `int` that differs from
   the true one by a multiple of 2^32. A counter that wrapped around at 2^32 and gained less than
   2^31 since has its true gain.
   */
  lemma CounterWentBack(now: int, before: int)
    requires now < before
    ensures var change := Change(now, before);
            && -0x8000_0000 <= change < 0x8000_0000
            && (change - (now - before)) % INT_WORD == 0
            && (0 <= now + INT_WORD - before < 0x8000_0000 ==> change == now + INT_WORD - before)
  {
    var x := now - before;
    var wide := x % LONG_WORD;
    assert wide - x == -(x / LONG_WORD) * LONG_WORD;
    var k := -(x / LONG_WORD) * INT_WORD;
    assert LONG_WORD == INT_WORD * INT_WORD;
    assert wide - x == k * INT_WORD;
    var low := wide % INT_WORD;
    assert wide - low == (wide / INT_WORD) * INT_WORD;
    var change := Change(now, before);
    var m := k - wide / INT_WORD - if low < 0x8000_0000 then 0 else 1;
    assert change - x == m * INT_WORD;
    MultipleOf(m, INT_WORD);
    if 0 <= x + INT_WORD < 0x8000_0000 {
      OneMultiple(change, x, m);
    }
  }

  lemma MultipleOf(m: int, d: int)
    requires d > 0
    ensures (m * d) % d == 0
  {
    Modulo(m * d, d, m, 0);
  }

  lemma Modulo(x: int, d: int, q: int, r: int)
    requires d > 0 && x == q * d + r && 0 <= r < d
    ensures x % d == r
  {
    var p := x / d;
    assert x == p * d + x % d;
    Cancel(d, p, q + 1);
    Cancel(d, q, p + 1);
  }

  /** In the range of `int` there is only one number with that remainder. */
  lemma OneMultiple(change: int, x: int, m: int)
    requires change - x == m * INT_WORD && -0x8000_0000 <= change < 0x8000_0000 && 0 <= x + INT_WORD < 0x8000_0000
    ensures change == x + INT_WORD
  {
    Cancel(INT_WORD, 0, m);
    Cancel(INT_WORD, m, 2);
  }

  /** Division rounds toward zero: the remainder is smaller than the divisor and has the sign of the dividend. */
  lemma QuotientTruncates(x: int, y: int)
    requires y != 0
    ensures var r := x - y * Quotient(x, y);
            && (x >= 0 ==> 0 <= r) && (x <= 0 ==> r <= 0)
            && -(if y > 0 then y else -y) < r < if y > 0 then y else -y
  {
    var m, n := if x >= 0 then x else -x, if y >= 0 then y else -y;
    Division(m, n);
    Signs(n, m / n);
  }

  /**
   Every share, also of counters that went back: the low 32 bits of a number q for which total * q misses
   1000 * change + total / 2 by less than the total, toward zero. The total is the sum, or one for none.
   */
  lemma SharesInGeneral(changes: seq<int>, i: nat) returns (q: int)
    requires i < |changes|
    ensures var total := if Sum(changes) == 0 then 1 else Sum(changes);
            var x := 1000 * changes[i] + if total >= 0 then total / 2 else -(-total / 2);
            && (x >= 0 ==> 0 <= x - total * q) && (x <= 0 ==> x - total * q <= 0)
            && -(if total > 0 then total else -total) < x - total * q < if total > 0 then total else -total
    ensures (Shares(changes)[i] - q) % INT_WORD == 0 && -0x8000_0000 <= Shares(changes)[i] < 0x8000_0000
    ensures -0x8000_0000 <= q < 0x8000_0000 ==> Shares(changes)[i] == q
  {
    hide Sum, ToInt;
    var total := Total(changes);
    q := Quotient(Scaled(changes[i], total), total);
    QuotientTruncates(Scaled(changes[i], total), total);
    LowBits(q);
    if total < 0 {
      Halved(total);
    }
    hide Quotient;
    assert Shares(changes)[i] == ToInt(q);
  }

  lemma Halved(total: int)
    requires total < 0
    ensures Quotient(total, 2) == -(-total / 2)
  {
  }

  lemma LowBits(q: int)
    ensures (ToInt(q) - q) % INT_WORD == 0
  {
    var low := q % INT_WORD;
    assert q == (q / INT_WORD) * INT_WORD + low;
    var m := -(q / INT_WORD) - if low < 0x8000_0000 then 0 else 1;
    assert ToInt(q) - q == m * INT_WORD;
    MultipleOf(m, INT_WORD);
  }

  lemma Division(m: nat, n: nat)
    requires n > 0
    ensures 0 <= m - n * (m / n) < n
  {
    assert m == n * (m / n) + m % n;
  }

  lemma Signs(n: int, q: int)
    ensures (-n) * q == -(n * q) && n * -q == -(n * q) && (-n) * -q == n * q
  {
  }

  lemma {:induction false} SumBounds(xs: seq<int>, i: nat)
    requires NoneNegative(xs) && i < |xs|
    ensures 0 <= xs[i] <= Sum(xs)
  {
    var init := xs[..|xs| - 1];
    if i < |init| {
      SumBounds(init, i);
    } else {
      SumNotNegative(init);
    }
  }

  lemma {:induction false} SumNotNegative(xs: seq<int>)
    requires NoneNegative(xs)
    ensures Sum(xs) >= 0
  {
    if xs != [] {
      SumNotNegative(xs[..|xs| - 1]);
    }
  }

  lemma Cancel(factor: int, x: int, y: int)
    requires factor > 0 && factor * x < factor * y
    ensures x < y
  {
    assert x >= y ==> factor * (x - y) >= 0;
  }

  lemma Distributes(factor: int, x: int, y: int)
    ensures factor * (x + y) == factor * x + factor * y
  {
  }

  /** One share is the exact one rounded to nearest: off by at most half a unit. */
  lemma ShareIsRounded(change: int, total: int)
    requires 0 <= change <= total && total > 0
    ensures 0 <= Share(change, total) <= 1000
    ensures -total <= 2 * (1000 * change - total * Share(change, total)) <= total
  {
    var x := change * 1000 + total / 2;
    var q := x / total;
    assert x == total * q + x % total && 0 <= x % total < total;
    assert Quotient(Scaled(change, total), total) == q;
    Cancel(total, q, 1001);
    Cancel(total, -1, q);
  }

  /** The rounding errors of the first k shares add up to at most k half units. */
  lemma {:induction false} RoundingAddsUp(changes: seq<int>, shares: seq<int>, total: int, k: int)
    requires |shares| == |changes| && 0 <= k <= |changes| && total > 0
    requires forall i :: 0 <= i < |changes| ==> -total <= 2 * (1000 * changes[i] - total * shares[i]) <= total
    ensures -(k * total) <= 2 * (1000 * Sum(changes[..k]) - total * Sum(shares[..k])) <= k * total
  {
    hide Sum;
    SumOfNone(changes);
    SumOfNone(shares);
    if k > 0 {
      RoundingAddsUp(changes, shares, total, k - 1);
      SumStep(changes, k - 1);
      SumStep(shares, k - 1);
      OneMoreError(total, Sum(changes[..k - 1]), changes[k - 1], Sum(shares[..k - 1]), shares[k - 1], k - 1);
    }
  }

  lemma OneMoreError(total: int, changes: int, change: int, shares: int, share: int, k: int)
    requires -(k * total) <= 2 * (1000 * changes - total * shares) <= k * total
    requires -total <= 2 * (1000 * change - total * share) <= total
    ensures -((k + 1) * total) <= 2 * (1000 * (changes + change) - total * (shares + share)) <= (k + 1) * total
  {
    Distributes(total, shares, share);
    Distributes(total, k, 1);
  }

  /**
   Counters that did not go back: every share is between 0 and 1000 and is the nearest one.
   Without any change all are 0.
   */
  lemma EachShareIsNearest(changes: seq<int>, i: nat)
    requires NoneNegative(changes) && i < |changes|
    ensures var total, share := Total(changes), Shares(changes)[i];
            0 <= share <= 1000 && -total <= 2 * (1000 * changes[i] - total * share) <= total
    ensures Sum(changes) == 0 ==> Shares(changes)[i] == 0
  {
    SumBounds(changes, i);
    ShareIsRounded(changes[i], Total(changes));
  }

  /** All shares together miss 1000 by at most half a unit each. */
  lemma SharesMakeAWhole(changes: seq<int>)
    requires NoneNegative(changes) && Sum(changes) > 0
    ensures -|changes| <= 2 * (Sum(Shares(changes)) - 1000) <= |changes|
  {
    hide Share, Sum;
    var total, shares, n := Total(changes), Shares(changes), |changes|;
    forall i | 0 <= i < n
      ensures -total <= 2 * (1000 * changes[i] - total * shares[i]) <= total
    {
      EachShareIsNearest(changes, i);
    }
    RoundingAddsUp(changes, shares, total, n);
    assert changes[..n] == changes && shares[..n] == shares;
    ScaledDown(total, Sum(shares), n);
  }

  lemma ScaledDown(total: int, sum: int, n: int)
    requires total > 0 && -(n * total) <= 2 * (1000 * total - total * sum) <= n * total
    ensures -n <= 2 * (sum - 1000) <= n
  {
    var off := 2 * (sum - 1000);
    assert total * off == 2 * (total * sum - 1000 * total);
    Cancel(total, off, n + 1);
    Cancel(total, -n - 1, off);
  }
}
