/** The account structure of the expanded Capital Deployed rows: a row with an ID opens an
    account, and the rows without an ID that follow it, up to the next row with an ID, are the
    components of that account (jainam/app.py:226-236 and 254-271). */
module Accounts {
  import opened Tables

  /** `pd.notna(row['IDs'])`. */
  predicate HasID(r: Row) {
    Get(r, IDS) != Null
  }

  /** The last row with an ID before row k: the account row k belongs to. */
  function Owner(rows: seq<Row>, k: nat): (o: Option<nat>)
    requires k <= |rows|
    ensures o.Some? ==> o.value < k && HasID(rows[o.value])
    ensures o.Some? ==> forall q :: o.value < q < k ==> !HasID(rows[q])
    ensures o.None? ==> forall q :: 0 <= q < k ==> !HasID(rows[q])
    decreases k
  {
    if k == 0 then None
    else if HasID(rows[k - 1]) then Some(k - 1)
    else Owner(rows, k - 1)
  }

  /** The first row with an ID at or after j, or the end of the rows. */
  function NextAccount(rows: seq<Row>, j: nat): (e: nat)
    requires j <= |rows|
    ensures j <= e <= |rows|
    ensures forall q :: j <= q < e ==> !HasID(rows[q])
    ensures e < |rows| ==> HasID(rows[e])
    decreases |rows| - j
  {
    if j == |rows| || HasID(rows[j]) then j else NextAccount(rows, j + 1)
  }

  /** The owner is characterised by its two properties: any account row before k with no
      account row between is the owner. */
  lemma {:induction false} OwnerExact(rows: seq<Row>, p: nat, k: nat)
    requires p < k <= |rows| && HasID(rows[p])
    requires forall q :: p < q < k ==> !HasID(rows[q])
    ensures Owner(rows, k) == Some(p)
    decreases k
  {
    if k - 1 != p {
      OwnerExact(rows, p, k - 1);
    }
  }

  /** Every row between an account row and the next one belongs to that account. */
  lemma OwnedBlock(rows: seq<Row>, p: nat, k: nat)
    requires p < |rows| && HasID(rows[p]) && p < k < NextAccount(rows, p + 1)
    ensures Owner(rows, k) == Some(p)
  {
    OwnerExact(rows, p, k);
  }

  /** The component rows of account p are exactly the rows that name p as their owner. */
  lemma OwnedExactly(rows: seq<Row>, p: nat, k: nat)
    requires p < k < |rows| && HasID(rows[p]) && !HasID(rows[k])
    ensures Owner(rows, k) == Some(p) <==> k < NextAccount(rows, p + 1)
  {
    var e := NextAccount(rows, p + 1);
    if k < e {
      OwnerExact(rows, p, k);
    } else {
      assert e < k && HasID(rows[e]);
    }
  }
}
