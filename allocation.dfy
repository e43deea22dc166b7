/** The proportional MTM allocation: each account's MTM is shared among its component rows
    in proportion to their Allocation, rounded to cents (jainam/app.py:252-271). */
module Allocation {
  import opened Tables
  import opened Accounts

  /** `component_indices`: the rows in [lo, hi) whose Allocation is not NaN, in row order. */
  function Components(rows: seq<Row>, lo: nat, hi: nat): seq<nat>
    requires lo <= hi <= |rows|
    decreases hi - lo
  {
    if hi == lo then []
    else Components(rows, lo, hi - 1) + (if Get(rows[hi - 1], ALLOCATION) != Null then [hi - 1] else [])
  }

  /** The components are exactly the rows in [lo, hi) with an Allocation, listed in row order. */
  lemma {:induction false} ComponentsSpec(rows: seq<Row>, lo: nat, hi: nat)
    requires lo <= hi <= |rows|
    ensures var idx := Components(rows, lo, hi);
            forall t :: 0 <= t < |idx| ==> lo <= idx[t] < hi && Get(rows[idx[t]], ALLOCATION) != Null
    ensures var idx := Components(rows, lo, hi);
            forall x :: lo <= x < hi && Get(rows[x], ALLOCATION) != Null ==> x in idx
    decreases hi - lo
  {
    if hi > lo {
      ComponentsSpec(rows, lo, hi - 1);
    }
  }

  /** The components are listed in increasing row order. */
  lemma {:induction false} ComponentsSorted(rows: seq<Row>, lo: nat, hi: nat)
    requires lo <= hi <= |rows|
    ensures var idx := Components(rows, lo, hi);
            forall s, t :: 0 <= s < t < |idx| ==> idx[s] < idx[t]
    decreases hi - lo
  {
    if hi > lo {
      ComponentsSorted(rows, lo, hi - 1);
      ComponentsSpec(rows, lo, hi - 1);
    }
  }

  /** The component rows of the account at row p. */
  function Members(rows: seq<Row>, p: nat): seq<nat>
    requires p < |rows|
  {
    Components(rows, p + 1, NextAccount(rows, p + 1))
  }

  /** Every listed row holds a number in column `col`. */
  predicate NumericAt(rows: seq<Row>, idx: seq<nat>, col: Label) {
    forall t :: 0 <= t < |idx| ==> idx[t] < |rows| && Get(rows[idx[t]], col).Num?
  }

  /** The sum of column `col` over the listed rows. */
  function SumAt(rows: seq<Row>, idx: seq<nat>, col: Label): real
    requires NumericAt(rows, idx, col)
    decreases |idx|
  {
    if idx == [] then 0.0
    else SumAt(rows, idx[..|idx| - 1], col) + Get(rows[idx[|idx| - 1]], col).value
  }

  /** `total_allocation`. */
  function Total(rows: seq<Row>, p: nat): real
    requires p < |rows| && NumericAt(rows, Members(rows, p), ALLOCATION)
  {
    SumAt(rows, Members(rows, p), ALLOCATION)
  }

  /** The account at row p raises a TypeError: its component allocations do not all hold
      numbers, or they add up to more than zero and its MTM is set but is not a number. */
  predicate Faulty(rows: seq<Row>, p: nat)
    requires p < |rows|
  {
    !NumericAt(rows, Members(rows, p), ALLOCATION) ||
    (Total(rows, p) > 0.0 && Get(rows[p], MTM) != Null && !Get(rows[p], MTM).Num?)
  }

  /** The account at row p shares its MTM among its components. */
  predicate Shares(rows: seq<Row>, p: nat)
    requires p < |rows|
  {
    NumericAt(rows, Members(rows, p), ALLOCATION) && Total(rows, p) > 0.0 && Get(rows[p], MTM).Num?
  }

  /** `round(x, 2)`: to the nearest cent, a tie going to the even cent. */
  function Round2(x: real): real {
    var cents := (x * 100.0).Floor;
    var rest := x * 100.0 - cents as real;
    var n := if rest < 0.5 then cents else if rest > 0.5 then cents + 1 else if cents % 2 == 0 then cents else cents + 1;
    n as real / 100.0
  }

  /** `round(main_mtm * (allocation / total_allocation), 2)`: the rounded share of a component
      with allocation `a` in an account with MTM `m` and total allocation `total`. */
  function Share(m: real, a: real, total: real): real
    requires total > 0.0
  {
    Round2(m * (a / total))
  }

  /** A row after the write-back of an account with MTM `m` and total allocation `total`: a row
      with a numeric Allocation takes its share as MTM, any other row is left alone. */
  function Written(row: Row, m: real, total: real): Row
    requires total > 0.0
  {
    if Get(row, ALLOCATION).Num? then row[MTM := Num(Share(m, Get(row, ALLOCATION).value, total))] else row
  }

  /** What the allocation makes of row k: a component of a sharing account is written back with
      the account's MTM and total; every other row stays as it was. */
  function AllocatedRow(rows: seq<Row>, k: nat): Row
    requires k < |rows|
  {
    var owner := Owner(rows, k);
    if HasID(rows[k]) || owner.None? || !Shares(rows, owner.value) then rows[k]
    else Written(rows[k], Get(rows[owner.value], MTM).value, Total(rows, owner.value))
  }

  /** Some account raises a TypeError. */
  predicate AnyFaulty(rows: seq<Row>) {
    exists p :: 0 <= p < |rows| && HasID(rows[p]) && Faulty(rows, p)
  }

  /** The rows after the allocation, or the TypeError of a faulty account. */
  function Allocated(rows: seq<Row>): Result<seq<Row>> {
    if AnyFaulty(rows) then Err(Internal(NotANumber))
    else Ok(seq(|rows|, k requires 0 <= k < |rows| => AllocatedRow(rows, k)))
  }

  /** The rows of account i are written back with its MTM and total when it shares, and are
      left alone when it does not. */
  lemma Account(rows: seq<Row>, i: nat, k: nat)
    requires i < |rows| && HasID(rows[i]) && i < k < NextAccount(rows, i + 1)
    ensures !Shares(rows, i) ==> AllocatedRow(rows, k) == rows[k]
    ensures Shares(rows, i) ==> AllocatedRow(rows, k) == Written(rows[k], Get(rows[i], MTM).value, Total(rows, i))
  {
    OwnedBlock(rows, i, k);
  }

  /** The inner loop: the rows after the account row up to the next account row, and those of
      them whose Allocation is set. */
  method Gather(df: seq<Row>, i: nat) returns (componentIndices: seq<nat>, j: nat)
    requires i < |df|
    ensures j == NextAccount(df, i + 1)
    ensures componentIndices == Components(df, i + 1, j)
  {
    componentIndices := [];
    j := i + 1;
    while j < |df| && Get(df[j], IDS) == Null
      invariant i + 1 <= j <= |df|
      invariant componentIndices == Components(df, i + 1, j)
      invariant forall q :: i + 1 <= q < j ==> !HasID(df[q])
      decreases |df| - j
    {
      if Get(df[j], ALLOCATION) != Null {
        componentIndices := componentIndices + [j];
      }
      j := j + 1;
    }
    NextAccountExact(df, i + 1, j);
  }

  lemma {:induction false} NextAccountExact(rows: seq<Row>, j: nat, e: nat)
    requires j <= e <= |rows|
    requires forall q :: j <= q < e ==> !HasID(rows[q])
    requires e < |rows| ==> HasID(rows[e])
    ensures NextAccount(rows, j) == e
    decreases e - j
  {
    if j < e {
      NextAccountExact(rows, j + 1, e);
    }
  }

  /** Between two consecutive components (or before the first one, or after the last one) no
      row has an Allocation. */
  lemma Gap(rows: seq<Row>, lo: nat, hi: nat, t: nat)
    requires lo <= hi <= |rows| && t <= |Components(rows, lo, hi)|
    ensures var idx := Components(rows, lo, hi);
            (if t == 0 then lo else idx[t - 1] + 1) <= (if t == |idx| then hi else idx[t]) <= hi
    ensures var idx := Components(rows, lo, hi);
            t < |idx| ==> idx[t] < hi
    ensures var idx := Components(rows, lo, hi);
            forall k :: (if t == 0 then lo else idx[t - 1] + 1) <= k < (if t == |idx| then hi else idx[t]) ==>
              Get(rows[k], ALLOCATION) == Null
  {
    var idx := Components(rows, lo, hi);
    ComponentsSpec(rows, lo, hi);
    ComponentsSorted(rows, lo, hi);
    forall k | (if t == 0 then lo else idx[t - 1] + 1) <= k < (if t == |idx| then hi else idx[t])
      ensures Get(rows[k], ALLOCATION) == Null
    {
      forall s | 0 <= s < |idx|
        ensures idx[s] != k
      {
        if s < t {
          assert s == t - 1 || idx[s] < idx[t - 1];
        } else {
          assert s == t || idx[t] < idx[s];
        }
      }
    }
  }

  /** The write-back loop over one sharing account: each component row in turn gets its share. */
  method Distribute(rows: seq<Row>, df: seq<Row>, i: nat, j: nat, idx: seq<nat>, m: real, total: real)
    returns (out: seq<Row>)
    requires i < j <= |rows| == |df| && idx == Components(rows, i + 1, j)
    requires NumericAt(rows, idx, ALLOCATION) && total > 0.0
    requires forall k :: i < k < |rows| ==> df[k] == rows[k]
    ensures |out| == |rows|
    ensures forall k :: 0 <= k <= i ==> out[k] == df[k]
    ensures forall k :: i < k < j ==> out[k] == Written(rows[k], m, total)
    ensures forall k :: j <= k < |rows| ==> out[k] == rows[k]
  {
    out := df;
    ghost var done := i + 1;
    for t := 0 to |idx|
      invariant |out| == |rows|
      invariant done == (if t == 0 then i + 1 else idx[t - 1] + 1) && i < done
      invariant forall k :: 0 <= k <= i ==> out[k] == df[k]
      invariant forall k :: i < k < done ==> out[k] == Written(rows[k], m, total)
      invariant forall k :: done <= k < |rows| ==> out[k] == rows[k]
    {
      Gap(rows, i + 1, j, t);
      var x := idx[t];
      assert done <= x < j;
      var allocation := Get(out[x], ALLOCATION).value;
      out := out[x := out[x][MTM := Num(Share(m, allocation, total))]];
      done := x + 1;
    }
    Gap(rows, i + 1, j, |idx|);
    assert done <= j;
  }

  /** The body of the account loop for the account at row i: gather its components, total
      their allocations and, when the total is positive and the account has an MTM, write the
      shares back; a TypeError of the account stops the loop. */
  method Settle(rows: seq<Row>, df: seq<Row>, i: nat) returns (fault: bool, out: seq<Row>, j: nat)
    requires i < |rows| == |df| && HasID(rows[i])
    requires forall k :: i <= k < |rows| ==> df[k] == rows[k]
    ensures fault <==> Faulty(rows, i)
    ensures !fault ==> j == NextAccount(rows, i + 1) && |out| == |rows|
    ensures !fault ==> forall k :: 0 <= k <= i ==> out[k] == df[k]
    ensures !fault ==> forall k :: i < k < j ==> out[k] == AllocatedRow(rows, k)
    ensures !fault ==> forall k :: j <= k < |rows| ==> out[k] == rows[k]
  {
    out := df;
    var mainMtm := Get(df[i], MTM);
    var componentIndices;
    componentIndices, j := Gather(df, i);
    ComponentsAgree(df, rows, i + 1, j);
    NextAccountAgree(df, rows, i + 1);
    ComponentsSpec(rows, i + 1, j);
    if !NumericAt(df, componentIndices, ALLOCATION) {
      SumAgreeBack(df, rows, componentIndices, i + 1);
      return true, out, j;
    }
    SumAgree(df, rows, componentIndices, ALLOCATION, i + 1);
    var totalAllocation := SumAt(df, componentIndices, ALLOCATION);
    if totalAllocation > 0.0 && mainMtm != Null {
      if !mainMtm.Num? {
        return true, out, j;
      }
      out := Distribute(rows, df, i, j, componentIndices, mainMtm.value, totalAllocation);
    }
    forall k | i < k < j
      ensures out[k] == AllocatedRow(rows, k)
    {
      Account(rows, i, k);
    }
    fault := false;
  }

  /** The state of the account loop at row i: every account before i passed, every row before
      i has its final value, and the rows from i on are untouched. */
  predicate Upto(rows: seq<Row>, df: seq<Row>, i: nat) {
    i <= |rows| == |df| &&
    (i < |rows| && !HasID(rows[i]) ==> Owner(rows, i).None?) &&
    (forall p :: 0 <= p < i && HasID(rows[p]) ==> !Faulty(rows, p)) &&
    (forall k :: 0 <= k < i ==> df[k] == AllocatedRow(rows, k)) &&
    (forall k :: i <= k < |rows| ==> df[k] == rows[k])
  }

  /** A row without an ID before any account is left alone. */
  lemma UptoSkip(rows: seq<Row>, df: seq<Row>, i: nat)
    requires Upto(rows, df, i) && i < |rows| && !HasID(rows[i])
    ensures Upto(rows, df, i + 1)
  {
  }

  /** No account before the next one raises, once the settled account does not. */
  lemma UptoSound(rows: seq<Row>, i: nat, j: nat)
    requires i < |rows| && HasID(rows[i]) && !Faulty(rows, i) && j == NextAccount(rows, i + 1)
    requires forall p :: 0 <= p < i && HasID(rows[p]) ==> !Faulty(rows, p)
    ensures forall p :: 0 <= p < j && HasID(rows[p]) ==> !Faulty(rows, p)
  {
    forall p | 0 <= p < j && HasID(rows[p])
      ensures !Faulty(rows, p)
    {
      assert p <= i;
    }
  }

  /** The rows up to the next account are the allocated rows once the account row and its
      components are. */
  lemma UptoRows(rows: seq<Row>, df: seq<Row>, out: seq<Row>, i: nat, j: nat)
    requires i < j <= |rows| == |out| && i < |df| && HasID(rows[i])
    requires forall k :: 0 <= k < i ==> df[k] == AllocatedRow(rows, k)
    requires df[i] == rows[i]
    requires forall k :: 0 <= k <= i ==> out[k] == df[k]
    requires forall k :: i < k < j ==> out[k] == AllocatedRow(rows, k)
    ensures forall k :: 0 <= k < j ==> out[k] == AllocatedRow(rows, k)
  {
    forall k | 0 <= k < j
      ensures out[k] == AllocatedRow(rows, k)
    {
      if k == i {
        assert AllocatedRow(rows, i) == rows[i];
        assert out[i] == df[i];
      } else if k < i {
        assert out[k] == df[k];
      }
    }
  }

  /** A settled account extends the finished prefix to the next account. */
  lemma UptoAccount(rows: seq<Row>, df: seq<Row>, out: seq<Row>, i: nat, j: nat)
    requires Upto(rows, df, i) && i < |rows| && HasID(rows[i]) && !Faulty(rows, i)
    requires j == NextAccount(rows, i + 1) && |out| == |rows|
    requires forall k :: 0 <= k <= i ==> out[k] == df[k]
    requires forall k :: i < k < j ==> out[k] == AllocatedRow(rows, k)
    requires forall k :: j <= k < |rows| ==> out[k] == rows[k]
    ensures Upto(rows, out, j)
  {
    UptoSound(rows, i, j);
    assert df[i] == rows[i];
    UptoRows(rows, df, out, i, j);
    assert j < |rows| ==> HasID(rows[j]);
  }

  /** At the end of the rows the loop has computed the allocation. */
  lemma UptoEnd(rows: seq<Row>, df: seq<Row>)
    requires Upto(rows, df, |rows|)
    ensures Allocated(rows) == Ok(df)
  {
    assert df == seq(|rows|, k requires 0 <= k < |rows| => AllocatedRow(rows, k));
  }

  /** The account loop of the source over a copy of the rows. */
  method Allocate(rows: seq<Row>) returns (r: Result<seq<Row>>)
    ensures r == Allocated(rows)
  {
    var df := rows;
    var i := 0;
    while i < |df|
      invariant Upto(rows, df, i)
      decreases |rows| - i
    {
      if Get(df[i], IDS) != Null {
        var fault, out, j := Settle(rows, df, i);
        if fault {
          assert AnyFaulty(rows) by {
            assert HasID(rows[i]) && Faulty(rows, i);
          }
          return Err(Internal(NotANumber));
        }
        UptoAccount(rows, df, out, i, j);
        df, i := out, j;
      } else {
        UptoSkip(rows, df, i);
        i := i + 1;
      }
    }
    UptoEnd(rows, df);
    return Ok(df);
  }

  /** Two row sequences that agree from `lo` on list the same components there. */
  lemma {:induction false} ComponentsAgree(a: seq<Row>, b: seq<Row>, lo: nat, hi: nat)
    requires lo <= hi <= |a| == |b| && forall k :: lo <= k < |a| ==> a[k] == b[k]
    ensures Components(a, lo, hi) == Components(b, lo, hi)
    decreases hi - lo
  {
    if hi > lo {
      ComponentsAgree(a, b, lo, hi - 1);
    }
  }

  lemma {:induction false} NextAccountAgree(a: seq<Row>, b: seq<Row>, j: nat)
    requires j <= |a| == |b| && forall k :: j <= k < |a| ==> a[k] == b[k]
    ensures NextAccount(a, j) == NextAccount(b, j)
    decreases |a| - j
  {
    if j < |a| {
      NextAccountAgree(a, b, j + 1);
    }
  }

  lemma {:induction false} SumAgree(a: seq<Row>, b: seq<Row>, idx: seq<nat>, col: Label, lo: nat)
    requires |a| == |b| && forall k :: lo <= k < |a| ==> a[k] == b[k]
    requires forall t :: 0 <= t < |idx| ==> lo <= idx[t]
    requires NumericAt(a, idx, col)
    ensures NumericAt(b, idx, col) && SumAt(a, idx, col) == SumAt(b, idx, col)
    decreases |idx|
  {
    if idx != [] {
      SumAgree(a, b, idx[..|idx| - 1], col, lo);
    }
  }

  lemma SumAgreeBack(a: seq<Row>, b: seq<Row>, idx: seq<nat>, lo: nat)
    requires |a| == |b| && forall k :: lo <= k < |a| ==> a[k] == b[k]
    requires forall t :: 0 <= t < |idx| ==> lo <= idx[t]
    requires !NumericAt(a, idx, ALLOCATION)
    ensures !NumericAt(b, idx, ALLOCATION)
  {
  }

  /** `round(x, 2)` is within half a cent of x and is a whole number of cents. */
  lemma RoundBound(x: real)
    ensures -0.005 <= Round2(x) - x <= 0.005
    ensures (Round2(x) * 100.0).Floor as real == Round2(x) * 100.0
  {
  }

  /** A share is within half a cent of its unrounded value. */
  lemma ShareBound(m: real, a: real, total: real)
    requires total > 0.0
    ensures -0.005 <= Share(m, a, total) - m * (a / total) <= 0.005
  {
    RoundBound(m * (a / total));
  }

  /** The allocated rows are the rows of the specification, and no account is faulty. */
  lemma AllocatedAt(rows: seq<Row>, k: nat)
    requires Allocated(rows).Ok? && k < |rows|
    ensures |Allocated(rows).value| == |rows| && Allocated(rows).value[k] == AllocatedRow(rows, k)
    ensures forall p :: 0 <= p < |rows| && HasID(rows[p]) ==> !Faulty(rows, p)
  {
  }

  /** The unrounded shares `m * (a / total)` of the listed components. */
  function Exact(rows: seq<Row>, idx: seq<nat>, m: real, total: real): real
    requires NumericAt(rows, idx, ALLOCATION) && total > 0.0
    decreases |idx|
  {
    if idx == [] then 0.0
    else Exact(rows, idx[..|idx| - 1], m, total) + m * (Get(rows[idx[|idx| - 1]], ALLOCATION).value / total)
  }

  /** The rounded shares of the listed components. */
  function Rounded(rows: seq<Row>, idx: seq<nat>, m: real, total: real): real
    requires NumericAt(rows, idx, ALLOCATION) && total > 0.0
    decreases |idx|
  {
    if idx == [] then 0.0
    else Rounded(rows, idx[..|idx| - 1], m, total) + Share(m, Get(rows[idx[|idx| - 1]], ALLOCATION).value, total)
  }

  /** The unrounded shares add up to `m` times the fraction of the total they hold. */
  lemma {:induction false} ExactSum(rows: seq<Row>, idx: seq<nat>, m: real, total: real)
    requires NumericAt(rows, idx, ALLOCATION) && total > 0.0
    ensures Exact(rows, idx, m, total) * total == m * SumAt(rows, idx, ALLOCATION)
    decreases |idx|
  {
    if idx != [] {
      var front, a := idx[..|idx| - 1], Get(rows[idx[|idx| - 1]], ALLOCATION).value;
      ExactSum(rows, front, m, total);
      var e, s := Exact(rows, front, m, total), SumAt(rows, front, ALLOCATION);
      calc {
        Exact(rows, idx, m, total) * total;
        (e + m * (a / total)) * total;
        e * total + m * ((a / total) * total);
        m * s + m * a;
        m * SumAt(rows, idx, ALLOCATION);
      }
    }
  }

  /** Rounding each share moves the sum of the shares by at most half a cent per component. */
  lemma {:induction false} RoundedSum(rows: seq<Row>, idx: seq<nat>, m: real, total: real)
    requires NumericAt(rows, idx, ALLOCATION) && total > 0.0
    ensures -0.005 * |idx| as real <= Rounded(rows, idx, m, total) - Exact(rows, idx, m, total) <= 0.005 * |idx| as real
    decreases |idx|
  {
    if idx != [] {
      var front, a := idx[..|idx| - 1], Get(rows[idx[|idx| - 1]], ALLOCATION).value;
      RoundedSum(rows, front, m, total);
      ShareBound(m, a, total);
      assert Rounded(rows, idx, m, total) == Rounded(rows, front, m, total) + Share(m, a, total);
      assert Exact(rows, idx, m, total) == Exact(rows, front, m, total) + m * (a / total);
      assert |idx| as real == |front| as real + 1.0;
    }
  }

  /** The MTM column of rows whose listed components carry their rounded shares adds up to
      the rounded shares. */
  lemma {:induction false} WrittenSum(rows: seq<Row>, out: seq<Row>, idx: seq<nat>, m: real, total: real)
    requires NumericAt(rows, idx, ALLOCATION) && total > 0.0 && |out| == |rows|
    requires forall t :: 0 <= t < |idx| ==> out[idx[t]] == Written(rows[idx[t]], m, total)
    ensures NumericAt(out, idx, MTM) && SumAt(out, idx, MTM) == Rounded(rows, idx, m, total)
    decreases |idx|
  {
    if idx != [] {
      WrittenSum(rows, out, idx[..|idx| - 1], m, total);
    }
  }

  /** The allocation changes nothing but MTM, and leaves every account row, and every row
      before the first account, as it was. */
  lemma AllocatedKeeps(rows: seq<Row>, k: nat, c: Label)
    requires Allocated(rows).Ok? && k < |rows|
    ensures |Allocated(rows).value| == |rows|
    ensures c != MTM ==> Get(Allocated(rows).value[k], c) == Get(rows[k], c)
    ensures HasID(rows[k]) || Owner(rows, k).None? ==> Allocated(rows).value[k] == rows[k]
  {
    AllocatedAt(rows, k);
  }

  /** A component of an account whose total allocation is not positive, or whose MTM is NaN,
      keeps its MTM; so does a row with a NaN Allocation. */
  lemma AllocatedIdle(rows: seq<Row>, p: nat, k: nat)
    requires Allocated(rows).Ok? && p < |rows| && HasID(rows[p]) && p < k < NextAccount(rows, p + 1)
    requires Total(rows, p) <= 0.0 || Get(rows[p], MTM) == Null || Get(rows[k], ALLOCATION) == Null
    ensures Allocated(rows).value[k] == rows[k]
  {
    AllocatedAt(rows, k);
    Account(rows, p, k);
  }

  /** A component with an Allocation `a` of an account with a positive total and a numeric MTM
      `m` gets `round(m * (a / total), 2)` as its MTM. */
  lemma AllocatedShare(rows: seq<Row>, p: nat, k: nat)
    requires Allocated(rows).Ok? && p < |rows| && HasID(rows[p]) && p < k < NextAccount(rows, p + 1)
    requires Total(rows, p) > 0.0 && Get(rows[p], MTM) != Null && Get(rows[k], ALLOCATION) != Null
    ensures Get(rows[p], MTM).Num? && Get(rows[k], ALLOCATION).Num?
    ensures Get(Allocated(rows).value[k], MTM) ==
              Num(Share(Get(rows[p], MTM).value, Get(rows[k], ALLOCATION).value, Total(rows, p)))
  {
    var idx := Members(rows, p);
    AllocatedAt(rows, k);
    assert !Faulty(rows, p);
    assert Shares(rows, p);
    ComponentsSpec(rows, p + 1, NextAccount(rows, p + 1));
    assert k in idx;
    var t :| 0 <= t < |idx| && idx[t] == k;
    assert Get(rows[k], ALLOCATION).Num?;
    Account(rows, p, k);
  }

  /** The unrounded shares over all the components of an account add up to its MTM. */
  lemma ExactWhole(rows: seq<Row>, idx: seq<nat>, m: real, total: real)
    requires NumericAt(rows, idx, ALLOCATION) && total > 0.0 && total == SumAt(rows, idx, ALLOCATION)
    ensures Exact(rows, idx, m, total) == m
  {
    ExactSum(rows, idx, m, total);
    var e := Exact(rows, idx, m, total);
    assert (e - m) * total == 0.0;
  }

  /** After the allocation every component of a sharing account carries its written-back row. */
  lemma Distributed(rows: seq<Row>, p: nat)
    requires Allocated(rows).Ok? && p < |rows| && HasID(rows[p]) && Shares(rows, p)
    ensures var out, idx := Allocated(rows).value, Members(rows, p);
            |out| == |rows| &&
            forall t :: 0 <= t < |idx| ==> out[idx[t]] == Written(rows[idx[t]], Get(rows[p], MTM).value, Total(rows, p))
  {
    var out, idx := Allocated(rows).value, Members(rows, p);
    ComponentsSpec(rows, p + 1, NextAccount(rows, p + 1));
    forall t | 0 <= t < |idx|
      ensures out[idx[t]] == Written(rows[idx[t]], Get(rows[p], MTM).value, Total(rows, p))
    {
      AllocatedAt(rows, idx[t]);
      Account(rows, p, idx[t]);
    }
  }

  /** The shares of an account add up to its MTM up to half a cent per component: the
      unrounded shares add up to it exactly. */
  lemma Conserved(rows: seq<Row>, p: nat)
    requires Allocated(rows).Ok? && p < |rows| && HasID(rows[p]) && Shares(rows, p)
    ensures var out, idx, m := Allocated(rows).value, Members(rows, p), Get(rows[p], MTM).value;
            NumericAt(out, idx, MTM) &&
            -0.005 * |idx| as real <= SumAt(out, idx, MTM) - m <= 0.005 * |idx| as real
    ensures Exact(rows, Members(rows, p), Get(rows[p], MTM).value, Total(rows, p)) == Get(rows[p], MTM).value
  {
    var out, idx, m, total := Allocated(rows).value, Members(rows, p), Get(rows[p], MTM).value, Total(rows, p);
    Distributed(rows, p);
    WrittenSum(rows, out, idx, m, total);
    RoundedSum(rows, idx, m, total);
    ExactWhole(rows, idx, m, total);
  }
}
