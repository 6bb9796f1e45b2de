/** The balances table: bulk upserts guarded by height, and its totals (`src/aleph/db/accessors/balances.py`). */
module Balances {
  import opened Wrappers
  import opened Records

  datatype BalanceKey = BalanceKey(address: Address, chain: string, dapp: Option<string>)

  datatype BalanceRow = BalanceRow(balance: real, height: int)

  type BalanceTable = map<BalanceKey, BalanceRow>

  /** One bulk update.  An empty dapp is written as no dapp. */
  datatype Update = Update(chain: string, dapp: Option<string>, height: int, amounts: map<Address, real>)

  function KeyOf(u: Update, address: Address): BalanceKey {
    BalanceKey(address, u.chain, if u.dapp == Some("") then None else u.dapp)
  }

  predicate Sets(u: Update, k: BalanceKey) {
    k.address in u.amounts && k == KeyOf(u, k.address)
  }

  function RowFor(u: Update, k: BalanceKey): BalanceRow
    requires Sets(u, k)
  {
    BalanceRow(u.amounts[k.address], u.height)
  }

  function Applied(t: BalanceTable, u: Update): (r: BalanceTable)
    ensures forall k :: k in r <==> k in t || Sets(u, k)
    ensures forall k :: k in r ==> r[k] == if Sets(u, k) && (k !in t || u.height > t[k].height) then RowFor(u, k)
            else t[k]
  {
    var keys := set a | a in u.amounts :: KeyOf(u, a);
    var changed := map k | k in keys && (k !in t || u.height > t[k].height) :: RowFor(u, k);
    t + changed
  }

  method UpdateBalances(t: BalanceTable, u: Update) returns (r: BalanceTable)
    ensures r == Applied(t, u)
  {
    r := t;
    var left := u.amounts.Keys;
    while left != {}
      invariant left <= u.amounts.Keys
      invariant forall k :: k in r <==> k in t || (Sets(u, k) && k.address !in left)
      invariant forall k :: k in r ==>
                  r[k] == if Sets(u, k) && k.address !in left && (k !in t || u.height > t[k].height) then RowFor(u, k)
                    else t[k]
      decreases left
    {
      var a :| a in left;
      var k := KeyOf(u, a);
      if k !in r || u.height > r[k].height {
        r := r[k := BalanceRow(u.amounts[a], u.height)];
      }
      left := left - {a};
    }
    assert forall k :: k in r <==> k in Applied(t, u);
    assert forall k :: k in r ==> r[k] == Applied(t, u)[k];
  }

  function AppliedAll(t: BalanceTable, us: seq<Update>): BalanceTable {
    if us == [] then t else Applied(AppliedAll(t, us[..|us| - 1]), us[|us| - 1])
  }

  /** An update sets the entries of its own chain and dapp for the addresses it lists, where an empty dapp name stands
      for none, and no other entry. */
  lemma {:induction false} AppliedFresh(u: Update, k: BalanceKey)
    ensures k in Applied(map[], u) <==>
            && k.address in u.amounts && k.chain == u.chain
            && (if u.dapp.None? || u.dapp.value == "" then k.dapp.None? else k.dapp == u.dapp)
    ensures k in Applied(map[], u) ==> Applied(map[], u)[k] == BalanceRow(u.amounts[k.address], u.height)
  {
  }

  /** Entries of another address, chain or dapp stay; an entry of its own changes only from a lower height. */
  lemma {:induction false} AppliedEntry(t: BalanceTable, u: Update, k: BalanceKey)
    ensures var own := && k.address in u.amounts && k.chain == u.chain
                       && (if u.dapp.None? || u.dapp.value == "" then k.dapp.None? else k.dapp == u.dapp);
            var r := Applied(t, u);
            && (k in r <==> k in t || own)
            && (k in t && !(own && u.height > t[k].height) ==> r[k] == t[k])
            && (own && (k !in t || u.height > t[k].height) ==> r[k] == BalanceRow(u.amounts[k.address], u.height))
  {
  }

  // ----- convergence

  /** No update of the list that sets the key is higher. */
  ghost predicate IsHighest(us: seq<Update>, u: Update, k: BalanceKey) {
    u in us && Sets(u, k) && forall v :: v in us && Sets(v, k) ==> v.height <= u.height
  }

  /** For each key, the highest updates that set it agree. */
  ghost predicate HighestAgree(us: seq<Update>) {
    forall u, v, k :: IsHighest(us, u, k) && IsHighest(us, v, k) ==> RowFor(u, k) == RowFor(v, k)
  }

  /** Each entry holds the value of a highest update that names it, and only named entries exist. */
  lemma {:induction false} HighestWins(us: seq<Update>, k: BalanceKey)
    ensures k in AppliedAll(map[], us) <==> exists u :: u in us && Sets(u, k)
    ensures k in AppliedAll(map[], us) ==>
              && (exists u :: u in us && Sets(u, k) && RowFor(u, k) == AppliedAll(map[], us)[k])
              && forall u :: u in us && Sets(u, k) ==> u.height <= AppliedAll(map[], us)[k].height
    decreases |us|
  {
    if us != [] {
      var init, last := us[..|us| - 1], us[|us| - 1];
      HighestWins(init, k);
      assert us == init + [last];
      assert last in us;
      if k in AppliedAll(map[], init) {
        var u :| u in init && Sets(u, k) && RowFor(u, k) == AppliedAll(map[], init)[k];
        assert u in us;
      }
    }
  }

  lemma {:induction false} SameUpdates(us: seq<Update>, vs: seq<Update>)
    requires multiset(us) == multiset(vs)
    ensures forall u :: u in us <==> u in vs
  {
    forall u ensures u in us <==> u in vs {
      assert u in us <==> u in multiset(us);
      assert u in vs <==> u in multiset(vs);
    }
  }

  /** The value of an entry is that of a highest update. */
  lemma {:induction false} HoldsHighest(us: seq<Update>, k: BalanceKey) returns (u: Update)
    requires k in AppliedAll(map[], us)
    ensures IsHighest(us, u, k) && RowFor(u, k) == AppliedAll(map[], us)[k]
  {
    hide AppliedAll;
    HighestWins(us, k);
    u :| u in us && Sets(u, k) && RowFor(u, k) == AppliedAll(map[], us)[k];
  }

  /** Any order of the same updates gives the same table, when the highest updates of each key agree. */
  lemma {:induction false} Converges(us: seq<Update>, vs: seq<Update>)
    requires multiset(us) == multiset(vs) && HighestAgree(us)
    ensures AppliedAll(map[], us) == AppliedAll(map[], vs)
  {
    hide AppliedAll;
    var a, b := AppliedAll(map[], us), AppliedAll(map[], vs);
    SameUpdates(us, vs);
    forall k ensures (k in a <==> k in b) && (k in a ==> a[k] == b[k]) {
      HighestWins(us, k);
      HighestWins(vs, k);
      if k in a {
        var u := HoldsHighest(us, k);
        var v := HoldsHighest(vs, k);
        assert IsHighest(us, v, k);
      }
    }
  }

  /** Of several highest updates, the one that comes first stays. */
  lemma {:induction false} FirstHighestStays(u: Update, rest: seq<Update>, k: BalanceKey)
    requires IsHighest([u] + rest, u, k)
    ensures k in AppliedAll(map[], [u] + rest) && AppliedAll(map[], [u] + rest)[k] == RowFor(u, k)
    decreases |rest|
  {
    var all := [u] + rest;
    if rest == [] {
      assert all[..0] == [];
    } else {
      var n := |rest| - 1;
      assert all[..|all| - 1] == [u] + rest[..n];
      assert forall v :: v in [u] + rest[..n] ==> v in all;
      assert all[|all| - 1] in all;
      FirstHighestStays(u, rest[..n], k);
    }
  }

  /** The list with one member moved to the front. */
  function ToFront(us: seq<Update>, i: nat): (vs: seq<Update>)
    requires i < |us|
    ensures multiset(vs) == multiset(us)
  {
    assert us == us[..i] + [us[i]] + us[i + 1..];
    [us[i]] + (us[..i] + us[i + 1..])
  }

  lemma {:induction false} MovedToFront(us: seq<Update>, u: Update, k: BalanceKey) returns (vs: seq<Update>)
    requires IsHighest(us, u, k)
    ensures multiset(vs) == multiset(us)
    ensures k in AppliedAll(map[], vs) && AppliedAll(map[], vs)[k] == RowFor(u, k)
  {
    hide AppliedAll;
    var i :| 0 <= i < |us| && us[i] == u;
    vs := ToFront(us, i);
    SameUpdates(us, vs);
    FirstHighestStays(u, us[..i] + us[i + 1..], k);
  }

  /** Every order of the updates gives one table. */
  ghost predicate OrderFree(us: seq<Update>) {
    forall vs :: multiset(vs) == multiset(us) ==> AppliedAll(map[], vs) == AppliedAll(map[], us)
  }

  /** The order of the updates does not show if and only if, for each key, its highest updates agree. */
  lemma {:induction false} OrderFreeIff(us: seq<Update>)
    ensures OrderFree(us) <==> HighestAgree(us)
  {
    if HighestAgree(us) {
      forall vs | multiset(vs) == multiset(us) ensures AppliedAll(map[], vs) == AppliedAll(map[], us) {
        Converges(us, vs);
      }
    }
    if OrderFree(us) {
      forall u, v, k | IsHighest(us, u, k) && IsHighest(us, v, k) ensures RowFor(u, k) == RowFor(v, k) {
        var a := MovedToFront(us, u, k);
        var b := MovedToFront(us, v, k);
      }
    }
  }

  /** An input where it shows: the first of two updates at one height stays. */
  lemma {:induction false} OrderShowsOnTies(address: Address, chain: string, height: int)
    ensures var u := Update(chain, None, height, map[address := 1.0]);
            var v := Update(chain, None, height, map[address := 2.0]);
            AppliedAll(map[], [u, v]) != AppliedAll(map[], [v, u])
  {
    hide AppliedAll;
    var u := Update(chain, None, height, map[address := 1.0]);
    var v := Update(chain, None, height, map[address := 2.0]);
    var k := BalanceKey(address, chain, None);
    assert Sets(u, k) && Sets(v, k);
    assert u in [u] + [v] && v in [v] + [u];
    FirstHighestStays(u, [v], k);
    FirstHighestStays(v, [u], k);
    assert [u] + [v] == [u, v] && [v] + [u] == [v, u];
    assert RowFor(u, k).balance == 1.0 && RowFor(v, k).balance == 2.0;
  }

  // ----- totals

  ghost function SumOf(t: BalanceTable, ks: set<BalanceKey>): real
    requires ks <= t.Keys
  {
    if ks == {} then 0.0 else var k := PickOne(ks); t[k].balance + SumOf(t, ks - {k})
  }

  lemma {:induction false} SumWithout(t: BalanceTable, ks: set<BalanceKey>, k: BalanceKey)
    requires ks <= t.Keys && k in ks
    ensures SumOf(t, ks) == t[k].balance + SumOf(t, ks - {k})
    decreases |ks|
  {
    var p := PickOne(ks);
    if p != k {
      SumWithout(t, ks - {p}, k);
      SumWithout(t, ks - {k}, p);
      assert ks - {p} - {k} == ks - {k} - {p};
    }
  }

  lemma {:induction false} SumSplit(t: BalanceTable, a: set<BalanceKey>, b: set<BalanceKey>)
    requires a <= t.Keys && b <= t.Keys && a !! b
    ensures SumOf(t, a + b) == SumOf(t, a) + SumOf(t, b)
    decreases |a|
  {
    if a == {} {
      assert a + b == b;
    } else {
      var p := PickOne(a);
      SumSplit(t, a - {p}, b);
      SumWithout(t, a + b, p);
      assert (a + b) - {p} == (a - {p}) + b;
    }
  }

  function Selected(t: BalanceTable, address: Address, includeDapps: bool): set<BalanceKey> {
    set k | k in t && k.address == address && (includeDapps || k.dapp.None?)
  }

  lemma {:induction false} SumDependsOnRows(t: BalanceTable, t': BalanceTable, ks: set<BalanceKey>)
    requires ks <= t.Keys && ks <= t'.Keys && forall k :: k in ks ==> t[k] == t'[k]
    ensures SumOf(t, ks) == SumOf(t', ks)
    decreases |ks|
  {
    if ks != {} {
      SumDependsOnRows(t, t', ks - {PickOne(ks)});
    }
  }

  /** `get_total_balance`: none without a row. */
  ghost function TotalBalance(t: BalanceTable, address: Address, includeDapps: bool): Option<real> {
    var ks := Selected(t, address, includeDapps);
    if ks == {} then None else Some(SumOf(t, ks))
  }

  /** What a total is: a new row adds its balance to the total of its own address, and without dapps only if it has
      none; every other total stays. */
  lemma {:induction false} TotalGains(t: BalanceTable, k: BalanceKey, row: BalanceRow, a: Address, includeDapps: bool)
    requires k !in t
    ensures TotalBalance(map[], a, includeDapps).None?
    ensures TotalBalance(t[k := row], a, includeDapps) ==
            if k.address == a && (includeDapps || k.dapp.None?) then
              Some(TotalBalance(t, a, includeDapps).GetOr(0.0) + row.balance)
            else TotalBalance(t, a, includeDapps)
  {
    var t' := t[k := row];
    var ks, ks' := Selected(t, a, includeDapps), Selected(t', a, includeDapps);
    SumDependsOnRows(t, t', ks);
    if k in ks' {
      SumWithout(t', ks', k);
      assert ks' - {k} == ks;
    } else {
      assert ks' == ks;
    }
  }

  /** An update for a dapp leaves every total without dapps as it was. */
  lemma {:induction false} DappLeavesTotal(t: BalanceTable, u: Update, a: Address)
    requires u.dapp.Some? && u.dapp.value != ""
    ensures TotalBalance(Applied(t, u), a, false) == TotalBalance(t, a, false)
  {
    var t' := Applied(t, u);
    forall k ensures k in Selected(t', a, false) <==> k in Selected(t, a, false) {
      AppliedEntry(t, u, k);
    }
    assert Selected(t', a, false) == Selected(t, a, false);
    SumDependsOnRows(t, t', Selected(t, a, false));
  }

  function OnChain(ks: set<BalanceKey>, chain: string): set<BalanceKey> {
    set k | k in ks && k.chain == chain
  }

  /** The per-chain details of `get_total_detailed_balance`. */
  ghost function Details(t: BalanceTable, address: Address, includeDapps: bool): map<string, real> {
    var ks := Selected(t, address, includeDapps);
    map c | c in (set k | k in ks :: k.chain) :: SumOf(t, OnChain(ks, c))
  }

  ghost function SumOfDetails(d: map<string, real>, cs: set<string>): real
    requires cs <= d.Keys
  {
    if cs == {} then 0.0 else var c := PickOne(cs); d[c] + SumOfDetails(d, cs - {c})
  }

  lemma {:induction false} DetailsAddUp(t: BalanceTable, ks: set<BalanceKey>, d: map<string, real>, cs: set<string>)
    requires ks <= t.Keys && cs == (set k | k in ks :: k.chain) && cs <= d.Keys
    requires forall c :: c in cs ==> d[c] == SumOf(t, OnChain(ks, c))
    ensures SumOfDetails(d, cs) == SumOf(t, ks)
    decreases |cs|
  {
    assert forall k :: k in ks ==> k.chain in cs;
    if cs == {} {
      assert ks == {};
    } else {
      var c := PickOne(cs);
      var here := OnChain(ks, c);
      var rest := ks - here;
      forall e | e in cs - {c} ensures OnChain(rest, e) == OnChain(ks, e) { }
      forall e ensures e in cs - {c} <==> e in (set k | k in rest :: k.chain) {
        if e in cs - {c} {
          var k :| k in ks && k.chain == e;
          assert k in rest;
        }
      }
      DetailsAddUp(t, rest, d, cs - {c});
      SumSplit(t, here, rest);
      assert here + rest == ks;
    }
  }

  /** `get_total_detailed_balance`: with a chain given, that chain's total and no details. */
  ghost function DetailedBalance(t: BalanceTable, address: Address, chain: Option<string>, includeDapps: bool)
      : (real, map<string, real>)
  {
    var ks := Selected(t, address, includeDapps);
    match chain
    case Some(c) => (SumOf(t, OnChain(ks, c)), map[])
    case None => (SumOf(t, ks), Details(t, address, includeDapps))
  }

  /** Without a chain the reported total is the plain total and the sum of the per-chain details. */
  lemma {:induction false} TotalIsSumOfDetails(t: BalanceTable, address: Address, includeDapps: bool)
    ensures var (total, d) := DetailedBalance(t, address, None, includeDapps);
            total == SumOfDetails(d, d.Keys) == TotalBalance(t, address, includeDapps).GetOr(0.0)
  {
    var ks, d := Selected(t, address, includeDapps), Details(t, address, includeDapps);
    DetailsAddUp(t, ks, d, d.Keys);
  }

  /** With a chain it is the entry of that chain in the details that the query without a chain returns. */
  lemma {:induction false} ChainTotalIsDetail(t: BalanceTable, address: Address, chain: string, includeDapps: bool)
    ensures var (total, none) := DetailedBalance(t, address, Some(chain), includeDapps);
            var d := DetailedBalance(t, address, None, includeDapps).1;
            none == map[] && total == if chain in d then d[chain] else 0.0
  {
    var ks := Selected(t, address, includeDapps);
    if chain !in (set k | k in ks :: k.chain) {
      assert OnChain(ks, chain) == {};
    }
  }
}
