/** Income, expense and savings entries and the three totals
    (`getTotalIncome`, `getTotalExpenses`, `getTotalSavings`), which all
    fold the same way over a list of entries. */
module Entries {
  import opened Wrappers

  /** One income, expense or savings record as the backend returns it.
      Only the fields the aggregation reads are kept. `amount` is `None`
      when the record has no amount or a falsy one (`null`, `undefined`,
      `""`, `0`); `category`, `source` and `fundType` are `None` when the
      field is absent. Amounts are exact decimals, not doubles. */
  datatype Entry = Entry(
    amount: Option<real>,
    category: Option<string>,
    source: Option<string>,
    fundType: Option<string>)

  /** `parseFloat(e.amount || 0)`: an absent or falsy amount counts as 0. */
  function AmountOf(e: Entry): (a: real)
    ensures e.amount == None ==> a == 0.0
    ensures e.amount.Some? ==> a == e.amount.value
  {
    e.amount.GetOr(0.0)
  }

  /** The sum of the amounts, folded from the left as `reduce` does.
      Used by all three `getTotal*` functions. A list whose amounts are
      all absent totals 0, and non-negative amounts give a non-negative
      total. */
  function Total(entries: seq<Entry>): (t: real)
    ensures (forall i :: 0 <= i < |entries| ==> entries[i].amount == None) ==> t == 0.0
    ensures (forall i :: 0 <= i < |entries| ==> AmountOf(entries[i]) >= 0.0) ==> t >= 0.0
  {
    if entries == [] then 0.0
    else
      var n := |entries| - 1;
      assert forall i :: 0 <= i < n ==> entries[..n][i] == entries[i];
      Total(entries[..n]) + AmountOf(entries[n])
  }

  /** The total of an empty list is 0 and the total of one entry is its amount. */
  lemma TotalSmall(e: Entry)
    ensures Total([]) == 0.0
    ensures Total([e]) == AmountOf(e)
  {
  }

  /** Totals split over concatenation. */
  lemma {:induction false} TotalAppend(xs: seq<Entry>, ys: seq<Entry>)
    ensures Total(xs + ys) == Total(xs) + Total(ys)
  {
    if ys == [] {
      assert xs + ys == xs;
    } else {
      var zs := xs + ys;
      assert zs[..|zs| - 1] == xs + ys[..|ys| - 1];
      assert zs[|zs| - 1] == ys[|ys| - 1];
      TotalAppend(xs, ys[..|ys| - 1]);
    }
  }

  /** The total does not depend on the order of the entries: any two lists
      holding the same entries (as multisets) have the same total. */
  lemma {:induction false} TotalPermutation(xs: seq<Entry>, ys: seq<Entry>)
    requires multiset(xs) == multiset(ys)
    ensures Total(xs) == Total(ys)
    decreases |xs|
  {
    if xs == [] {
      assert |ys| == |multiset(ys)| == 0;
    } else {
      var n := |xs| - 1;
      var x := xs[n];
      assert xs == xs[..n] + [x];
      assert x in multiset(ys);
      var i :| 0 <= i < |ys| && ys[i] == x;
      var left, right := ys[..i], ys[i + 1..];
      assert ys == left + [x] + right by {
        assert ys[i..] == [x] + right;
        assert ys == left + ys[i..];
      }
      var rest := left + right;
      assert Total(xs[..n]) == Total(rest) by {
        RemoveMatching(xs, ys, i);
        TotalPermutation(xs[..n], rest);
      }
      assert Total(rest) == Total(left) + Total(right) by {
        TotalAppend(left, right);
      }
      assert Total(ys) == Total(left) + AmountOf(x) + Total(right) by {
        TotalAppend(left + [x], right);
        TotalAppend(left, [x]);
        TotalSmall(x);
      }
    }
  }

  /** Removing the last entry of one list and a matching entry of another
      keeps their multisets equal. */
  lemma RemoveMatching(xs: seq<Entry>, ys: seq<Entry>, i: nat)
    requires multiset(xs) == multiset(ys) && xs != [] && i < |ys| && ys[i] == xs[|xs| - 1]
    ensures multiset(xs[..|xs| - 1]) == multiset(ys[..i] + ys[i + 1..])
  {
    var n := |xs| - 1;
    var x, left, right := xs[n], ys[..i], ys[i + 1..];
    var a, b := multiset(xs[..n]), multiset(left + right);
    assert multiset(xs) == a + multiset{x} by {
      assert xs == xs[..n] + [x];
    }
    assert multiset(ys) == b + multiset{x} by {
      assert ys == left + ([x] + right) by {
        assert ys[i..] == [x] + right;
        assert ys == left + ys[i..];
      }
      assert multiset(left + ([x] + right)) == multiset(left) + multiset{x} + multiset(right);
    }
    forall z ensures a[z] == b[z] {
      assert (a + multiset{x})[z] == (b + multiset{x})[z];
    }
  }

  /** An entry with an absent or falsy amount leaves the total unchanged,
      wherever it stands in the list. */
  lemma MissingAmountAddsNothing(xs: seq<Entry>, e: Entry, ys: seq<Entry>)
    requires e.amount.None?
    ensures Total(xs + [e] + ys) == Total(xs + ys)
  {
    TotalAppend(xs + [e], ys);
    TotalAppend(xs, [e]);
    TotalAppend(xs, ys);
    TotalSmall(e);
  }

  /** With non-negative amounts, as the entry forms enforce, a total is
      non-negative and at least any one entry's amount. */
  lemma {:induction false} TotalBounds(entries: seq<Entry>)
    requires forall i :: 0 <= i < |entries| ==> AmountOf(entries[i]) >= 0.0
    ensures Total(entries) >= 0.0
    ensures forall i :: 0 <= i < |entries| ==> AmountOf(entries[i]) <= Total(entries)
  {
    if entries != [] {
      var n := |entries| - 1;
      TotalBounds(entries[..n]);
    }
  }
}
