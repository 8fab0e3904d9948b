/** The three groupings of `budget.js`: `getExpensesByCategory`,
    `getIncomeBySource` (both sorted by total, largest first) and
    `getSavingsByType` (a plain key-to-total dictionary). */
module Grouping {
  import opened Wrappers
  import opened Entries

  /** Which entry field a grouping reads. */
  datatype Field = Category | Source | FundType

  /** The key used when the field is absent or empty. */
  function DefaultKey(f: Field): string {
    match f
    case Category => "General"
    case Source => "Other"
    case FundType => "general"
  }

  function RawKey(e: Entry, f: Field): Option<string> {
    match f
    case Category => e.category
    case Source => e.source
    case FundType => e.fundType
  }

  /** `e.category || 'General'` and its two siblings. */
  function KeyOf(e: Entry, f: Field): (k: string)
    ensures RawKey(e, f) == None || RawKey(e, f) == Some("") ==> k == DefaultKey(f)
    ensures RawKey(e, f).Some? && RawKey(e, f).value != "" ==> k == RawKey(e, f).value
    ensures k != ""
  {
    match RawKey(e, f)
    case Some(s) => if s != "" then s else DefaultKey(f)
    case None => DefaultKey(f)
  }

  /** One row of a sorted breakdown: `{ category, total }` or `{ source, total }`. */
  datatype Group = Group(key: string, total: real)

  // ---------------------------------------------------------------------
  // Specification of the accumulation loop
  // ---------------------------------------------------------------------

  /** The sum of the amounts of the entries whose key is `k`. */
  function GroupTotal(entries: seq<Entry>, f: Field, k: string): real {
    if entries == [] then 0.0
    else
      var last := entries[|entries| - 1];
      GroupTotal(entries[..|entries| - 1], f, k) + (if KeyOf(last, f) == k then AmountOf(last) else 0.0)
  }

  /** The keys in the order they are first met, which is the order in which
      the source's dictionary receives them. */
  function FirstSeen(entries: seq<Entry>, f: Field): seq<string> {
    if entries == [] then []
    else
      var prior := FirstSeen(entries[..|entries| - 1], f);
      var k := KeyOf(entries[|entries| - 1], f);
      if k in prior then prior else prior + [k]
  }

  /** Some entry of the list has key `k`. */
  predicate HasKey(entries: seq<Entry>, f: Field, k: string) {
    exists i :: 0 <= i < |entries| && KeyOf(entries[i], f) == k
  }

  /** No value occurs twice. */
  ghost predicate NoDuplicates(s: seq<string>) {
    forall x :: multiset(s)[x] <= 1
  }

  /** `FirstSeen` holds every key of the list, nothing else, and no key twice. */
  lemma {:induction false} FirstSeenKeys(entries: seq<Entry>, f: Field)
    ensures forall k :: k in FirstSeen(entries, f) <==> HasKey(entries, f, k)
    ensures NoDuplicates(FirstSeen(entries, f))
  {
    if entries != [] {
      var n := |entries| - 1;
      var prefix := entries[..n];
      FirstSeenKeys(prefix, f);
      forall k ensures HasKey(entries, f, k) <==> HasKey(prefix, f, k) || KeyOf(entries[n], f) == k {
        if HasKey(prefix, f, k) {
          var i :| 0 <= i < |prefix| && KeyOf(prefix[i], f) == k;
          assert entries[i] == prefix[i];
        }
        if HasKey(entries, f, k) {
          var i :| 0 <= i < |entries| && KeyOf(entries[i], f) == k;
          if i < n { assert prefix[i] == entries[i]; }
        }
      }
    }
  }

  /** The position of the first entry whose key is `k`, or `|entries|` when
      no entry has it. */
  function FirstIndex(entries: seq<Entry>, f: Field, k: string): (r: nat)
    ensures r <= |entries|
    ensures r < |entries| ==> KeyOf(entries[r], f) == k
    ensures forall i :: 0 <= i < r ==> KeyOf(entries[i], f) != k
  {
    if entries == [] then 0
    else if KeyOf(entries[0], f) == k then 0
    else
      var r := 1 + FirstIndex(entries[1..], f, k);
      assert forall i :: 1 <= i < r ==> entries[i] == entries[1..][i - 1];
      r
  }

  /** Appending an entry does not move the first occurrence of a key that
      was already present. */
  lemma FirstIndexKept(entries: seq<Entry>, e: Entry, f: Field, k: string)
    requires HasKey(entries, f, k)
    ensures FirstIndex(entries + [e], f, k) == FirstIndex(entries, f, k) < |entries|
  {
    var all := entries + [e];
    var r1, r2 := FirstIndex(all, f, k), FirstIndex(entries, f, k);
    var w :| 0 <= w < |entries| && KeyOf(entries[w], f) == k;
    assert r2 <= w;
    assert all[r2] == entries[r2];
    assert r1 <= r2;
    assert r1 < |entries| && all[r1] == entries[r1];
  }

  /** Appending the first entry with a new key makes its position that
      key's first occurrence. */
  lemma FirstIndexNew(entries: seq<Entry>, e: Entry, f: Field)
    requires !HasKey(entries, f, KeyOf(e, f))
    ensures FirstIndex(entries + [e], f, KeyOf(e, f)) == |entries|
  {
    var all := entries + [e];
    var r := FirstIndex(all, f, KeyOf(e, f));
    assert all[|entries|] == e;
  }

  /** `FirstSeen` lists keys by the position of their first occurrence:
      a key comes before another exactly when it is first met earlier. */
  lemma {:induction false} FirstSeenOrder(entries: seq<Entry>, f: Field)
    ensures var ks := FirstSeen(entries, f);
      forall a, b :: 0 <= a < |ks| && 0 <= b < |ks| ==>
        (a < b <==> FirstIndex(entries, f, ks[a]) < FirstIndex(entries, f, ks[b]))
  {
    if entries != [] {
      var n := |entries| - 1;
      var prefix, e := entries[..n], entries[n];
      var ks := FirstSeen(prefix, f);
      var k := KeyOf(e, f);
      assert entries == prefix + [e];
      forall a | 0 <= a < |ks|
        ensures FirstIndex(entries, f, ks[a]) == FirstIndex(prefix, f, ks[a]) < n
      {
        FirstSeenKeys(prefix, f);
        FirstIndexKept(prefix, e, f, ks[a]);
      }
      var all := FirstSeen(entries, f);
      assert all == ks || (k !in ks && all == ks + [k]);
      forall a, b | 0 <= a < |all| && 0 <= b < |all|
        ensures a < b <==> FirstIndex(entries, f, all[a]) < FirstIndex(entries, f, all[b])
      {
        if a < |ks| && b < |ks| {
          FirstSeenOrder(prefix, f);
          assert all[a] == ks[a] && all[b] == ks[b];
          assert 0 <= a < |FirstSeen(prefix, f)| && 0 <= b < |FirstSeen(prefix, f)|;
          assert a < b <==> FirstIndex(prefix, f, ks[a]) < FirstIndex(prefix, f, ks[b]);
        } else {
          assert all == ks + [k];
          FirstSeenKeys(prefix, f);
          FirstIndexNew(prefix, e, f);
          if a < |ks| { assert all[a] == ks[a] && all[b] == k; }
          if b < |ks| { assert all[a] == k && all[b] == ks[b]; }
        }
      }
    }
  }

  /** A key that no entry carries has total 0. */
  lemma {:induction false} GroupTotalOfAbsentKey(entries: seq<Entry>, f: Field, k: string)
    requires !HasKey(entries, f, k)
    ensures GroupTotal(entries, f, k) == 0.0
  {
    if entries != [] {
      var n := |entries| - 1;
      forall i | 0 <= i < n ensures KeyOf(entries[..n][i], f) != k {
        assert entries[..n][i] == entries[i];
      }
      GroupTotalOfAbsentKey(entries[..n], f, k);
    }
  }

  // ---------------------------------------------------------------------
  // The accumulation loop (the `forEach` over a local dictionary)
  // ---------------------------------------------------------------------

  /** The dictionary the loop builds: each entry adds its amount to the
      total of its key, starting from 0 when the key is new. */
  function TotalsOf(entries: seq<Entry>, f: Field): map<string, real> {
    if entries == [] then map[]
    else
      var prior := TotalsOf(entries[..|entries| - 1], f);
      var last := entries[|entries| - 1];
      var k := KeyOf(last, f);
      prior[k := (if k in prior then prior[k] else 0.0) + AmountOf(last)]
  }

  /** The dictionary holds exactly the first-seen keys, each with the sum
      of the amounts of the entries carrying it. */
  lemma {:induction false} TotalsOfMeaning(entries: seq<Entry>, f: Field)
    ensures forall k :: k in TotalsOf(entries, f) <==> k in FirstSeen(entries, f)
    ensures forall k :: k in TotalsOf(entries, f) ==> TotalsOf(entries, f)[k] == GroupTotal(entries, f, k)
  {
    if entries != [] {
      var n := |entries| - 1;
      var prefix := entries[..n];
      var key := KeyOf(entries[n], f);
      TotalsOfMeaning(prefix, f);
      if key !in TotalsOf(prefix, f) {
        FirstSeenKeys(prefix, f);
        GroupTotalOfAbsentKey(prefix, f, key);
      }
    }
  }

  /** Builds the dictionary of per-key totals, remembering the order in
      which keys were first inserted. */
  method GroupTotals(entries: seq<Entry>, f: Field) returns (order: seq<string>, totals: map<string, real>)
    ensures order == FirstSeen(entries, f)
    ensures forall k :: k in totals <==> HasKey(entries, f, k)
    ensures forall k :: k in totals ==> totals[k] == GroupTotal(entries, f, k)
  {
    order, totals := [], map[];
    var i := 0;
    while i < |entries|
      invariant 0 <= i <= |entries|
      invariant order == FirstSeen(entries[..i], f)
      invariant totals == TotalsOf(entries[..i], f)
    {
      var key := KeyOf(entries[i], f);
      var prior := if key in totals then totals[key] else 0.0;
      LoopStep(entries, i, f);
      if key !in totals {
        order := order + [key];
      }
      totals := totals[key := prior + AmountOf(entries[i])];
      i := i + 1;
    }
    assert entries[..i] == entries;
    TotalsOfMeaning(entries, f);
    forall k ensures k in totals <==> HasKey(entries, f, k) {
      FirstSeenKeys(entries, f);
    }
  }

  /** One entry more: a new key joins the first-seen keys, and the entry's
      amount joins the total of its key. */
  lemma LoopStep(entries: seq<Entry>, i: nat, f: Field)
    requires i < |entries|
    ensures var key, order, totals := KeyOf(entries[i], f), FirstSeen(entries[..i], f), TotalsOf(entries[..i], f);
      && (key in totals <==> key in order)
      && FirstSeen(entries[..i + 1], f) == (if key in order then order else order + [key])
      && TotalsOf(entries[..i + 1], f)
         == totals[key := (if key in totals then totals[key] else 0.0) + AmountOf(entries[i])]
  {
    TotalsOfMeaning(entries[..i], f);
    assert entries[..i + 1][..i] == entries[..i] && entries[..i + 1][i] == entries[i];
  }

  // ---------------------------------------------------------------------
  // From dictionary to rows (`Object.entries(map).map(...)`)
  // ---------------------------------------------------------------------

  /** The rows for the keys `ks`, in that order. */
  function GroupsOf(ks: seq<string>, entries: seq<Entry>, f: Field): seq<Group> {
    if ks == [] then [] else [Group(ks[0], GroupTotal(entries, f, ks[0]))] + GroupsOf(ks[1..], entries, f)
  }

  /** The unsorted rows, in first-seen key order. */
  function Groups(entries: seq<Entry>, f: Field): seq<Group> {
    GroupsOf(FirstSeen(entries, f), entries, f)
  }

  function Keys(gs: seq<Group>): seq<string> {
    if gs == [] then [] else [gs[0].key] + Keys(gs[1..])
  }

  function SumTotals(gs: seq<Group>): real {
    if gs == [] then 0.0 else gs[0].total + SumTotals(gs[1..])
  }

  /** Each row of `GroupsOf` carries its key's total, and its keys are `ks`. */
  lemma {:induction false} GroupsOfShape(ks: seq<string>, entries: seq<Entry>, f: Field)
    ensures Keys(GroupsOf(ks, entries, f)) == ks
    ensures forall g :: g in GroupsOf(ks, entries, f) ==> g.total == GroupTotal(entries, f, g.key)
  {
    if ks != [] {
      GroupsOfShape(ks[1..], entries, f);
    }
  }

  // ---------------------------------------------------------------------
  // The sort (`.sort((a, b) => b.total - a.total)`, which is stable)
  // ---------------------------------------------------------------------

  /** Places `g` before the first row whose total is not larger than its own. */
  function Insert(g: Group, gs: seq<Group>): seq<Group> {
    if gs == [] || gs[0].total <= g.total then [g] + gs
    else [gs[0]] + Insert(g, gs[1..])
  }

  /** A stable sort by total, largest first: rows with equal totals keep
      their relative order. */
  function SortByTotalDesc(gs: seq<Group>): (r: seq<Group>)
    ensures SortedDesc(r)
    ensures multiset(r) == multiset(gs)
  {
    if gs == [] then []
    else
      var rest := SortByTotalDesc(gs[1..]);
      InsertSorted(gs[0], rest);
      InsertPermutes(gs[0], rest);
      assert gs == [gs[0]] + gs[1..];
      Insert(gs[0], rest)
  }

  predicate SortedDesc(gs: seq<Group>) {
    forall i, j :: 0 <= i < j < |gs| ==> gs[i].total >= gs[j].total
  }

  /** The rows whose total is exactly `t`, in order. */
  function WithTotal(gs: seq<Group>, t: real): seq<Group> {
    if gs == [] then []
    else (if gs[0].total == t then [gs[0]] else []) + WithTotal(gs[1..], t)
  }

  lemma {:induction false} InsertPermutes(g: Group, gs: seq<Group>)
    ensures multiset(Insert(g, gs)) == multiset(gs) + multiset{g}
  {
    if gs != [] && gs[0].total > g.total {
      InsertPermutes(g, gs[1..]);
      assert Insert(g, gs) == [gs[0]] + Insert(g, gs[1..]);
      assert multiset(gs) == multiset{gs[0]} + multiset(gs[1..]) by {
        assert gs == [gs[0]] + gs[1..];
      }
    }
  }

  lemma {:induction false} InsertKeys(g: Group, gs: seq<Group>)
    ensures multiset(Keys(Insert(g, gs))) == multiset(Keys(gs)) + multiset{g.key}
  {
    if gs == [] || gs[0].total <= g.total {
      assert Keys([g] + gs) == [g.key] + Keys(gs) by {
        assert ([g] + gs)[1..] == gs;
      }
    } else {
      var r := Insert(g, gs[1..]);
      assert Keys(Insert(g, gs)) == [gs[0].key] + Keys(r) by {
        assert Insert(g, gs) == [gs[0]] + r;
        assert ([gs[0]] + r)[1..] == r;
      }
      assert multiset(Keys(r)) == multiset(Keys(gs[1..])) + multiset{g.key} by {
        InsertKeys(g, gs[1..]);
      }
      assert Keys(gs) == [gs[0].key] + Keys(gs[1..]);
    }
  }

  lemma {:induction false} InsertSum(g: Group, gs: seq<Group>)
    ensures SumTotals(Insert(g, gs)) == g.total + SumTotals(gs)
  {
    if gs == [] || gs[0].total <= g.total {
      assert ([g] + gs)[1..] == gs;
    } else {
      InsertSum(g, gs[1..]);
      var r := Insert(g, gs[1..]);
      assert ([gs[0]] + r)[1..] == r;
    }
  }

  lemma {:induction false} InsertStable(g: Group, gs: seq<Group>, t: real)
    ensures WithTotal(Insert(g, gs), t) == (if g.total == t then [g] else []) + WithTotal(gs, t)
  {
    var mine: seq<Group> := if g.total == t then [g] else [];
    if gs == [] || gs[0].total <= g.total {
      assert WithTotal([g] + gs, t) == mine + WithTotal(gs, t) by {
        assert ([g] + gs)[1..] == gs;
      }
    } else {
      var r := Insert(g, gs[1..]);
      var head: seq<Group> := if gs[0].total == t then [gs[0]] else [];
      var rest := WithTotal(gs[1..], t);
      assert WithTotal(Insert(g, gs), t) == head + WithTotal(r, t) by {
        assert Insert(g, gs) == [gs[0]] + r;
        assert ([gs[0]] + r)[1..] == r;
      }
      assert WithTotal(r, t) == mine + rest by {
        InsertStable(g, gs[1..], t);
      }
      assert WithTotal(gs, t) == head + rest;
      if head == [] {
        assert head + (mine + rest) == mine + (head + rest);
      } else {
        assert mine == [];
        assert head + (mine + rest) == mine + (head + rest);
      }
    }
  }

  lemma {:induction false} InsertSorted(g: Group, gs: seq<Group>)
    requires SortedDesc(gs)
    ensures SortedDesc(Insert(g, gs))
  {
    if gs != [] && gs[0].total > g.total {
      InsertSorted(g, gs[1..]);
      InsertPermutes(g, gs[1..]);
      var r := Insert(g, gs[1..]);
      forall x | x in r ensures gs[0].total >= x.total {
        assert x in multiset(r);
        assert x == g || x in gs[1..];
      }
      forall i, j | 0 <= i < j < |[gs[0]] + r| ensures ([gs[0]] + r)[i].total >= ([gs[0]] + r)[j].total {
        if i == 0 { assert ([gs[0]] + r)[j] in r; }
      }
    }
  }

  /** The sort keeps the multiset of keys. */
  lemma {:induction false} SortKeepsKeys(gs: seq<Group>)
    ensures multiset(Keys(SortByTotalDesc(gs))) == multiset(Keys(gs))
  {
    if gs != [] {
      var rest := SortByTotalDesc(gs[1..]);
      SortKeepsKeys(gs[1..]);
      InsertKeys(gs[0], rest);
    }
  }

  /** Sorting does not change the sum of the totals. */
  lemma {:induction false} SortKeepsSum(gs: seq<Group>)
    ensures SumTotals(SortByTotalDesc(gs)) == SumTotals(gs)
  {
    if gs != [] {
      SortKeepsSum(gs[1..]);
      InsertSum(gs[0], SortByTotalDesc(gs[1..]));
    }
  }

  /** The sort is stable: the rows of any one total come out in the order
      they went in. */
  lemma {:induction false} SortStable(gs: seq<Group>, t: real)
    ensures WithTotal(SortByTotalDesc(gs), t) == WithTotal(gs, t)
  {
    if gs != [] {
      SortStable(gs[1..], t);
      InsertStable(gs[0], SortByTotalDesc(gs[1..]), t);
    }
  }

  // ---------------------------------------------------------------------
  // What a sorted breakdown promises
  // ---------------------------------------------------------------------

  lemma {:induction false} KeysAt(gs: seq<Group>)
    ensures |Keys(gs)| == |gs|
    ensures forall i :: 0 <= i < |gs| ==> Keys(gs)[i] == gs[i].key
  {
    if gs != [] {
      KeysAt(gs[1..]);
    }
  }

  /** A sequence without duplicates, read position by position. */
  lemma NoDuplicatesAt(s: seq<string>)
    requires NoDuplicates(s)
    ensures forall i, j :: 0 <= i < j < |s| ==> s[i] != s[j]
  {
    forall i, j | 0 <= i < j < |s| ensures s[i] != s[j] {
      assert multiset(s)[s[i]] <= 1;
      assert s == s[..j] + [s[j]] + s[j + 1..];
      assert s[i] in s[..j];
    }
  }

  /** Removing the last entry changes the sum over the distinct keys `ks`
      by that entry's amount exactly when its key is among them. */
  lemma {:induction false} GroupsOfDropLast(ks: seq<string>, entries: seq<Entry>, f: Field)
    requires entries != []
    requires NoDuplicates(ks)
    ensures
      var n := |entries| - 1;
      SumTotals(GroupsOf(ks, entries, f))
        == SumTotals(GroupsOf(ks, entries[..n], f)) + (if KeyOf(entries[n], f) in ks then AmountOf(entries[n]) else 0.0)
  {
    if ks != [] {
      assert ks == [ks[0]] + ks[1..];
      assert multiset(ks) == multiset{ks[0]} + multiset(ks[1..]);
      assert multiset(ks)[ks[0]] <= 1;
      assert multiset(ks[1..])[ks[0]] == 0;
      assert NoDuplicates(ks[1..]) by {
        forall x ensures multiset(ks[1..])[x] <= 1 {
          assert multiset(ks)[x] <= 1;
        }
      }
      GroupsOfDropLast(ks[1..], entries, f);
    }
  }

  lemma {:induction false} GroupsOfAppend(ks: seq<string>, k: string, entries: seq<Entry>, f: Field)
    ensures SumTotals(GroupsOf(ks + [k], entries, f)) == SumTotals(GroupsOf(ks, entries, f)) + GroupTotal(entries, f, k)
  {
    if ks == [] {
      assert [k][1..] == [];
    } else {
      assert (ks + [k])[1..] == ks[1..] + [k];
      GroupsOfAppend(ks[1..], k, entries, f);
    }
  }

  /** The group totals add up to the total of the whole list. */
  lemma {:induction false} GroupsSumToTotal(entries: seq<Entry>, f: Field)
    ensures SumTotals(Groups(entries, f)) == Total(entries)
  {
    if entries != [] {
      var n := |entries| - 1;
      var prefix, e := entries[..n], entries[n];
      var ks := FirstSeen(prefix, f);
      var k := KeyOf(e, f);
      GroupsSumToTotal(prefix, f);
      FirstSeenKeys(prefix, f);
      if k in ks {
        GroupsOfDropLast(ks, entries, f);
      } else {
        GroupsOfAppend(ks, k, entries, f);
        GroupsOfDropLast(ks, entries, f);
        GroupTotalOfAbsentKey(prefix, f, k);
      }
    }
  }

  /** A sorted breakdown has one row for each key that some entry carries,
      no other row, and no key twice. */
  lemma BreakdownKeys(entries: seq<Entry>, f: Field)
    ensures var rows := SortByTotalDesc(Groups(entries, f));
      && (forall k :: k in Keys(rows) <==> HasKey(entries, f, k))
      && (forall i, j :: 0 <= i < j < |rows| ==> rows[i].key != rows[j].key)
  {
    var ks := FirstSeen(entries, f);
    var rows := SortByTotalDesc(Groups(entries, f));
    SortKeepsKeys(Groups(entries, f));
    FirstSeenKeys(entries, f);
    GroupsOfShape(ks, entries, f);
    assert multiset(Keys(rows)) == multiset(ks);
    forall k ensures k in Keys(rows) <==> HasKey(entries, f, k) {
      assert k in Keys(rows) <==> k in multiset(Keys(rows));
      assert k in ks <==> k in multiset(ks);
    }
    assert NoDuplicates(Keys(rows));
    NoDuplicatesAt(Keys(rows));
    KeysAt(rows);
  }

  /** Each row of a sorted breakdown holds the total of its key. */
  lemma BreakdownTotals(entries: seq<Entry>, f: Field)
    ensures forall g :: g in SortByTotalDesc(Groups(entries, f)) ==> g.total == GroupTotal(entries, f, g.key)
  {
    var groups := Groups(entries, f);
    var rows := SortByTotalDesc(groups);
    GroupsOfShape(FirstSeen(entries, f), entries, f);
    forall g | g in rows ensures g.total == GroupTotal(entries, f, g.key) {
      assert g in multiset(rows);
      assert g in groups;
    }
  }

  /** Rows of equal total keep the order in which their keys were first
      met. */
  lemma BreakdownTies(entries: seq<Entry>, f: Field, t: real)
    ensures WithTotal(SortByTotalDesc(Groups(entries, f)), t) == WithTotal(Groups(entries, f), t)
  {
    SortStable(Groups(entries, f), t);
  }

  /** The totals of a sorted breakdown add up to the total of the list. */
  lemma BreakdownSum(entries: seq<Entry>, f: Field)
    ensures SumTotals(SortByTotalDesc(Groups(entries, f))) == Total(entries)
  {
    SortKeepsSum(Groups(entries, f));
    GroupsSumToTotal(entries, f);
  }

  /** An entry without a key (or with an empty one) puts a row for the
      default key into the breakdown, and its amount into that row. */
  lemma DefaultKeyRow(entries: seq<Entry>, f: Field, i: nat)
    requires i < |entries|
    requires RawKey(entries[i], f) == None || RawKey(entries[i], f) == Some("")
    ensures exists g :: (g in SortByTotalDesc(Groups(entries, f)) && g.key == DefaultKey(f)
                         && g.total == GroupTotal(entries, f, DefaultKey(f)))
  {
    BreakdownKeys(entries, f);
    BreakdownTotals(entries, f);
    var rows := SortByTotalDesc(Groups(entries, f));
    assert HasKey(entries, f, DefaultKey(f));
    KeysAt(rows);
    var j :| 0 <= j < |rows| && Keys(rows)[j] == DefaultKey(f);
    assert rows[j] in rows;
  }

  // ---------------------------------------------------------------------
  // The three operations
  // ---------------------------------------------------------------------

  /** Accumulates per-key totals and returns them as rows sorted by total,
      largest first. */
  method SortedBreakdown(entries: seq<Entry>, f: Field) returns (rows: seq<Group>)
    ensures rows == SortByTotalDesc(Groups(entries, f))
  {
    var order, totals := GroupTotals(entries, f);
    FirstSeenKeys(entries, f);
    var listed := seq(|order|, i requires 0 <= i < |order| => Group(order[i], totals[order[i]]));
    assert listed == GroupsOf(order, entries, f) by {
      ListedRows(order, totals, entries, f);
    }
    rows := SortByTotalDesc(listed);
  }

  lemma {:induction false} ListedRows(order: seq<string>, totals: map<string, real>, entries: seq<Entry>, f: Field)
    requires forall k :: k in order ==> k in totals && totals[k] == GroupTotal(entries, f, k)
    ensures seq(|order|, i requires 0 <= i < |order| => Group(order[i], totals[order[i]])) == GroupsOf(order, entries, f)
  {
    if order != [] {
      ListedRows(order[1..], totals, entries, f);
      var s := seq(|order|, i requires 0 <= i < |order| => Group(order[i], totals[order[i]]));
      var t := seq(|order[1..]|, i requires 0 <= i < |order[1..]| => Group(order[1..][i], totals[order[1..][i]]));
      assert s == [s[0]] + t;
    }
  }

  /** `getExpensesByCategory`. */
  method ExpensesByCategory(entries: seq<Entry>) returns (rows: seq<Group>)
    ensures rows == SortByTotalDesc(Groups(entries, Category))
  {
    rows := SortedBreakdown(entries, Category);
  }

  /** `getIncomeBySource`. */
  method IncomeBySource(entries: seq<Entry>) returns (rows: seq<Group>)
    ensures rows == SortByTotalDesc(Groups(entries, Source))
  {
    rows := SortedBreakdown(entries, Source);
  }

  /** `getSavingsByType`: the dictionary itself, unsorted. */
  method SavingsByType(entries: seq<Entry>) returns (totals: map<string, real>)
    ensures forall k :: k in totals <==> HasKey(entries, FundType, k)
    ensures forall k :: k in totals ==> totals[k] == GroupTotal(entries, FundType, k)
  {
    var order;
    order, totals := GroupTotals(entries, FundType);
  }
}
