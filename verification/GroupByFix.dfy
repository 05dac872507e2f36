/** Remediation items: findings that share a fix key, collapsed. */
module GroupByFix {
  import opened Basics
  import opened Sorting
  import opened Grouping
  import opened FindingsEngine

  datatype Item = Item(fixKey: string, risk: nat, closes: seq<string>, assets: seq<string>)

  function FixKeyOf(f: Finding): string { f.fixKey }

  function MaxRisk(fs: seq<Finding>): nat {
    if fs == [] then 0 else Max(fs[0].score.r, MaxRisk(fs[1..]))
  }

  function Max(a: nat, b: nat): nat { if a < b then b else a }

  function VulnsOf(fs: seq<Finding>): (r: seq<string>)
    ensures forall v :: v in r <==> exists f :: f in fs && f.identity.vulnId == v
  {
    if fs == [] then []
    else
      assert fs == [fs[0]] + fs[1..];
      [fs[0].identity.vulnId] + VulnsOf(fs[1..])
  }

  function AssetsOf(fs: seq<Finding>): (r: seq<string>)
    ensures forall a :: a in r <==> exists f :: f in fs && f.identity.assetId == a
  {
    if fs == [] then []
    else
      assert fs == [fs[0]] + fs[1..];
      [fs[0].identity.assetId] + AssetsOf(fs[1..])
  }

  function ItemOf(fs: seq<Finding>, key: string): Item {
    var members := With(FixKeyOf, fs, key);
    Item(key, MaxRisk(members), SortedSet(StrLe, VulnsOf(members)), SortedSet(StrLe, AssetsOf(members)))
  }

  function ItemsFor(fs: seq<Finding>, keys: seq<string>): (r: seq<Item>)
    ensures |r| == |keys| && forall i :: 0 <= i < |r| ==> r[i] == ItemOf(fs, keys[i])
  {
    seq(|keys|, i requires 0 <= i < |keys| => ItemOf(fs, keys[i]))
  }

  function Items(fs: seq<Finding>): seq<Item> { ItemsFor(fs, SortedKeys(StrLe, FixKeyOf, fs)) }

  method GroupFindings(fs: seq<Finding>) returns (items: seq<Item>)
    ensures items == Items(fs)
  {
    hide With, Keys, SortBy, StrLe;
    var groups, keys := GroupBy(FixKeyOf, fs);
    var order := SortBy(StrLe, keys);
    SortPermutes(StrLe, keys);
    items := [];
    for k := 0 to |order|
      invariant |items| == k && forall j :: 0 <= j < k ==> items[j] == ItemOf(fs, order[j])
    {
      assert order[k] in multiset(order) && order[k] in multiset(keys);
      var members := groups[order[k]];
      items := items + [Item(order[k], MaxRisk(members), SortedSet(StrLe, VulnsOf(members)),
                             SortedSet(StrLe, AssetsOf(members)))];
    }
  }

  // ----- what the items are, without the grouping -----

  ghost predicate Closes(fs: seq<Finding>, key: string, v: string) {
    exists f :: f in fs && f.fixKey == key && f.identity.vulnId == v
  }

  ghost predicate Touches(fs: seq<Finding>, key: string, a: string) {
    exists f :: f in fs && f.fixKey == key && f.identity.assetId == a
  }

  ghost predicate Risks(fs: seq<Finding>, key: string, r: nat) {
    exists f :: f in fs && f.fixKey == key && f.score.r == r
  }

  /** One item sums up its members: the highest R, and the two sets in ascending order. */
  ghost predicate SumsUp(fs: seq<Finding>, item: Item) {
    && Risks(fs, item.fixKey, item.risk)
    && (forall r: nat :: Risks(fs, item.fixKey, r) ==> r <= item.risk)
    && Ascending(StrLe, item.closes) && (forall v :: v in item.closes <==> Closes(fs, item.fixKey, v))
    && Ascending(StrLe, item.assets) && (forall a :: a in item.assets <==> Touches(fs, item.fixKey, a))
  }

  function KeysOf(items: seq<Item>): (r: seq<string>)
    ensures |r| == |items| && forall i :: 0 <= i < |r| ==> r[i] == items[i].fixKey
  {
    seq(|items|, i requires 0 <= i < |items| => items[i].fixKey)
  }

  ghost predicate HasKey(fs: seq<Finding>, key: string) { exists f :: f in fs && f.fixKey == key }

  ghost predicate Plan(fs: seq<Finding>, items: seq<Item>) {
    && Ascending(StrLe, KeysOf(items)) && (forall k :: k in KeysOf(items) <==> HasKey(fs, k))
    && (forall item :: item in items ==> SumsUp(fs, item))
  }

  lemma {:induction false} MaxRiskExact(fs: seq<Finding>)
    requires fs != []
    ensures exists f :: f in fs && f.score.r == MaxRisk(fs)
    ensures forall f :: f in fs ==> f.score.r <= MaxRisk(fs)
  {
    assert fs == [fs[0]] + fs[1..];
    if |fs| > 1 { MaxRiskExact(fs[1..]); } else { assert fs[1..] == []; }
    assert fs[0] in fs;
  }

  lemma ItemSumsUp(fs: seq<Finding>, key: string)
    requires HasKey(fs, key)
    ensures SumsUp(fs, ItemOf(fs, key))
  {
    hide SortedSet, StrLe, With, VulnsOf, AssetsOf;
    var members := With(FixKeyOf, fs, key);
    WithExact(FixKeyOf, fs, key);
    assert members != [] by {
      var f :| f in fs && f.fixKey == key;
      assert f in members;
    }
    MaxRiskExact(members);
    StrOrder();
    SortedSetExact(StrLe, VulnsOf(members));
    SortedSetExact(StrLe, AssetsOf(members));
  }

  /** The items of a batch sum it up. */
  lemma ItemsArePlan(fs: seq<Finding>)
    ensures Plan(fs, Items(fs))
  {
    hide StrLe, SortedKeys, SumsUp, ItemsFor;
    StrOrder();
    SortedKeysExact(StrLe, FixKeyOf, fs);
    var keys := SortedKeys(StrLe, FixKeyOf, fs);
    assert KeysOf(Items(fs)) == keys by {
      assert forall i :: 0 <= i < |keys| ==> Items(fs)[i].fixKey == keys[i];
    }
    forall k ensures k in keys <==> HasKey(fs, k) {
      if i :| 0 <= i < |fs| && FixKeyOf(fs[i]) == k { assert fs[i] in fs; }
      if f :| f in fs && f.fixKey == k {
        var i :| 0 <= i < |fs| && fs[i] == f;
        assert FixKeyOf(fs[i]) == k;
      }
    }
    forall item | item in Items(fs) ensures SumsUp(fs, item) {
      var i :| 0 <= i < |keys| && item == ItemOf(fs, keys[i]);
      assert keys[i] in keys;
      ItemSumsUp(fs, keys[i]);
    }
  }

  ghost predicate SameFacts(a: seq<Finding>, b: seq<Finding>) {
    && (forall k, v :: Closes(a, k, v) <==> Closes(b, k, v))
    && (forall k, v :: Touches(a, k, v) <==> Touches(b, k, v))
    && (forall k, r: nat :: Risks(a, k, r) <==> Risks(b, k, r))
  }

  lemma OneSummary(a: seq<Finding>, b: seq<Finding>, x: Item, y: Item)
    requires SameFacts(a, b) && SumsUp(a, x) && SumsUp(b, y) && x.fixKey == y.fixKey
    ensures x == y
  {
    hide StrLe, Closes, Touches, Risks;
    StrOrder();
    AscendingUnique(StrLe, x.closes, y.closes);
    AscendingUnique(StrLe, x.assets, y.assets);
  }

  lemma SameKeys(a: seq<Finding>, b: seq<Finding>)
    requires SameFacts(a, b)
    ensures forall k :: HasKey(a, k) <==> HasKey(b, k)
  {
    forall k ensures HasKey(a, k) <==> HasKey(b, k) {
      if f :| f in a && f.fixKey == k { assert Risks(a, k, f.score.r); }
      if f :| f in b && f.fixKey == k { assert Risks(b, k, f.score.r); }
    }
  }

  /** A plan is determined by which keys close what, where and at what R. */
  lemma OnePlan(a: seq<Finding>, b: seq<Finding>, x: seq<Item>, y: seq<Item>)
    requires SameFacts(a, b) && Plan(a, x) && Plan(b, y)
    ensures x == y
  {
    hide StrLe, SumsUp, HasKey, SameFacts;
    SameKeys(a, b);
    StrOrder();
    AscendingUnique(StrLe, KeysOf(x), KeysOf(y));
    assert |x| == |KeysOf(x)| == |KeysOf(y)| == |y|;
    forall i | 0 <= i < |x| ensures x[i] == y[i] {
      assert KeysOf(x)[i] == KeysOf(y)[i];
      assert x[i] in x && y[i] in y;
      OneSummary(a, b, x[i], y[i]);
    }
  }

  /** The order of the findings, and repeats, do not show in the items. */
  lemma OrderDoesNotShow(a: seq<Finding>, b: seq<Finding>)
    requires forall f :: f in a <==> f in b
    ensures Items(a) == Items(b)
  {
    hide Items;
    ItemsArePlan(a);
    ItemsArePlan(b);
    assert SameFacts(a, b);
    OnePlan(a, b, Items(a), Items(b));
  }

  // ----- merging two lists of items -----

  function Find(items: seq<Item>, key: string): (r: Option<Item>)
    ensures r.Some? ==> r.value in items && r.value.fixKey == key
    ensures r.None? ==> forall x :: x in items ==> x.fixKey != key
  {
    if items == [] then None
    else
      assert items == [items[0]] + items[1..];
      if items[0].fixKey == key then Some(items[0]) else Find(items[1..], key)
  }

  lemma FindKey(items: seq<Item>, key: string)
    ensures Find(items, key).Some? <==> key in KeysOf(items)
  {
    hide Find;
    if key in KeysOf(items) {
      var i :| 0 <= i < |items| && KeysOf(items)[i] == key;
      assert items[i] in items && items[i].fixKey == key;
    }
    if Find(items, key).Some? {
      var i :| 0 <= i < |items| && items[i] == Find(items, key).value;
      assert KeysOf(items)[i] == key;
    }
  }

  function MergeItem(x: Item, y: Item): Item {
    Item(x.fixKey, Max(x.risk, y.risk), SortedSet(StrLe, x.closes + y.closes), SortedSet(StrLe, x.assets + y.assets))
  }

  function MergeAt(xs: seq<Item>, ys: seq<Item>, key: string): Item {
    match (Find(xs, key), Find(ys, key))
    case (Some(x), Some(y)) => MergeItem(x, y)
    case (Some(x), None) => x
    case (None, Some(y)) => y
    case (None, None) => Item(key, 0, [], [])
  }

  function MergeOver(xs: seq<Item>, ys: seq<Item>, keys: seq<string>): (r: seq<Item>)
    ensures |r| == |keys| && forall i :: 0 <= i < |r| ==> r[i] == MergeAt(xs, ys, keys[i])
  {
    seq(|keys|, i requires 0 <= i < |keys| => MergeAt(xs, ys, keys[i]))
  }

  /** Key by key: the higher risk, and the unions. */
  function Merge(xs: seq<Item>, ys: seq<Item>): seq<Item> {
    MergeOver(xs, ys, SortedSet(StrLe, KeysOf(xs) + KeysOf(ys)))
  }

  lemma FactsOfBoth(a: seq<Finding>, b: seq<Finding>, k: string)
    ensures forall v :: Closes(a + b, k, v) <==> Closes(a, k, v) || Closes(b, k, v)
    ensures forall v :: Touches(a + b, k, v) <==> Touches(a, k, v) || Touches(b, k, v)
    ensures forall r: nat :: Risks(a + b, k, r) <==> Risks(a, k, r) || Risks(b, k, r)
    ensures HasKey(a + b, k) <==> HasKey(a, k) || HasKey(b, k)
  {
    assert forall f :: f in a + b <==> f in a || f in b;
  }

  lemma NoKeyNoFacts(b: seq<Finding>, k: string)
    requires !HasKey(b, k)
    ensures forall v :: !Closes(b, k, v) && !Touches(b, k, v)
    ensures forall r: nat :: !Risks(b, k, r)
  {
  }

  lemma MergedSumsUp(a: seq<Finding>, b: seq<Finding>, x: Item, y: Item)
    requires SumsUp(a, x) && SumsUp(b, y) && x.fixKey == y.fixKey
    ensures SumsUp(a + b, MergeItem(x, y))
  {
    hide StrLe, SortedSet, Closes, Touches, Risks;
    FactsOfBoth(a, b, x.fixKey);
    StrOrder();
    SortedSetExact(StrLe, x.closes + y.closes);
    SortedSetExact(StrLe, x.assets + y.assets);
  }

  lemma StillSumsUp(a: seq<Finding>, b: seq<Finding>, x: Item)
    requires (SumsUp(a, x) && !HasKey(b, x.fixKey)) || (SumsUp(b, x) && !HasKey(a, x.fixKey))
    ensures SumsUp(a + b, x)
  {
    hide StrLe, Closes, Touches, Risks, HasKey;
    FactsOfBoth(a, b, x.fixKey);
    if !HasKey(b, x.fixKey) { NoKeyNoFacts(b, x.fixKey); }
    if !HasKey(a, x.fixKey) { NoKeyNoFacts(a, x.fixKey); }
  }

  lemma MergeAtSumsUp(a: seq<Finding>, b: seq<Finding>, xs: seq<Item>, ys: seq<Item>, key: string)
    requires Plan(a, xs) && Plan(b, ys) && (key in KeysOf(xs) || key in KeysOf(ys))
    ensures SumsUp(a + b, MergeAt(xs, ys, key)) && MergeAt(xs, ys, key).fixKey == key
  {
    hide StrLe, SumsUp, HasKey, Find, KeysOf, Ascending;
    FindKey(xs, key);
    FindKey(ys, key);
    match (Find(xs, key), Find(ys, key))
    case (Some(x), Some(y)) => MergedSumsUp(a, b, x, y);
    case (Some(x), None) => StillSumsUp(a, b, x);
    case (None, Some(y)) => StillSumsUp(a, b, y);
    case (None, None) =>
  }

  /** Grouping two batches together is merging their items key by key. */
  lemma BatchesMerge(a: seq<Finding>, b: seq<Finding>)
    ensures Items(a + b) == Merge(Items(a), Items(b))
  {
    hide Items, StrLe, SumsUp, HasKey, SortedSet, MergeAt, SameFacts;
    var xs, ys := Items(a), Items(b);
    ItemsArePlan(a);
    ItemsArePlan(b);
    ItemsArePlan(a + b);
    StrOrder();
    var keys := SortedSet(StrLe, KeysOf(xs) + KeysOf(ys));
    SortedSetExact(StrLe, KeysOf(xs) + KeysOf(ys));
    var m := Merge(xs, ys);
    forall i | 0 <= i < |keys| ensures m[i].fixKey == keys[i] && SumsUp(a + b, m[i]) {
      assert keys[i] in keys;
      MergeAtSumsUp(a, b, xs, ys, keys[i]);
    }
    assert KeysOf(m) == keys;
    forall k ensures k in keys <==> HasKey(a + b, k) { FactsOfBoth(a, b, k); }
    assert Plan(a + b, m);
    SameFactsSelf(a + b);
    OnePlan(a + b, a + b, Items(a + b), m);
  }

  lemma SameFactsSelf(a: seq<Finding>)
    ensures SameFacts(a, a)
  {
  }
}
