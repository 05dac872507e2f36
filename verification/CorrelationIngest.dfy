/** Attack-chain records scored from the policy's own rule weights: one finding per asset and edge, at the
    strongest weight seen. */
module CorrelationIngest {
  import opened Basics
  import opened Text
  import opened Sorting
  import opened Grouping
  import opened Scoring
  import opened FindingsEngine

  const CorrelatedActivity: nat := 9002

  /** What the aggregation reads of a record. `rules` holds the well-formed top-level rule names. */
  datatype Envelope = Envelope(
    classUid: nat, hostname: string, rules: seq<string>, image: Option<string>, daddr: Option<string>,
    dport: Option<nat>)

  datatype Chain = Chain(asset: string, edge: string)

  datatype Contribution = Contribution(chain: Chain, weight: real)

  function RuleWeight(rule: string): real {
    if rule == "suspicious_process_suspicious_connection" then 0.9
    else if rule == "suspicious_process_wrote_file_and_connected" then 0.95
    else if rule == "suspicious_process_read_sensitive_and_connected" then 0.95
    else 0.3
  }

  function StrongestRule(rules: seq<string>): real
    requires rules != []
    decreases |rules|
  {
    var last := RuleWeight(rules[|rules| - 1]);
    if |rules| == 1 then last else Max(StrongestRule(rules[..|rules| - 1]), last)
  }

  /** The port keeps its low 16 bits. */
  function Edge(image: string, daddr: string, dport: nat): string {
    image + "->" + daddr + ":" + Decimal(dport % 0x10000)
  }

  function Flagged(e: Envelope): Option<Contribution> {
    if e.classUid != CorrelatedActivity || e.rules == [] then None
    else if e.image.None? || e.daddr.None? || e.dport.None? then None
    else Some(Contribution(Chain(e.hostname, Edge(e.image.value, e.daddr.value, e.dport.value)), StrongestRule(e.rules)))
  }

  predicate ChainLe(a: Chain, b: Chain) {
    if a.asset != b.asset then StrLe(a.asset, b.asset) else StrLe(a.edge, b.edge)
  }

  function ChainOf(c: Contribution): Chain { c.chain }

  function Contributions(envs: seq<Envelope>): seq<Contribution>
    decreases |envs|
  {
    if envs == [] then []
    else
      var before, last := Contributions(envs[..|envs| - 1]), Flagged(envs[|envs| - 1]);
      if last.Some? then before + [last.value] else before
  }

  function MaxWeight(cs: seq<Contribution>): real
    requires cs != []
    decreases |cs|
  {
    var last := cs[|cs| - 1].weight;
    if |cs| == 1 then last else Max(MaxWeight(cs[..|cs| - 1]), last)
  }

  function WeightOf(cs: seq<Contribution>, chain: Chain): Contribution {
    var group := With(ChainOf, cs, chain);
    Contribution(chain, if group == [] then 0.0 else MaxWeight(group))
  }

  function WeightsFor(cs: seq<Contribution>, chains: seq<Chain>): (r: seq<Contribution>)
    ensures |r| == |chains| && forall i :: 0 <= i < |r| ==> r[i] == WeightOf(cs, chains[i])
  {
    seq(|chains|, i requires 0 <= i < |chains| => WeightOf(cs, chains[i]))
  }

  /** Every chain of the batch with its strongest weight, in chain order. */
  function Strongest(envs: seq<Envelope>): seq<Contribution> {
    var cs := Contributions(envs);
    WeightsFor(cs, SortedKeys(ChainLe, ChainOf, cs))
  }

  // ----- findings from weights -----

  const NeutralEnrichment := Enrichment(None, None, false, NoExploit, Affected)

  function WeightedFinding(
    asset: string, vuln: string, component: string, location: string, weight: real, fixKey: string,
    context: string -> AssetContext): Finding
  {
    var id := Identity(asset, vuln, component, location);
    var score := RecomputeCompliance(weight, context(asset));
    var (decision, sla) := Decide(score.r, false, true, score.explain.reach);
    Finding(FindingIdFor(id), id, [Provenance("torda", Authenticated, None, 0.95)], NeutralEnrichment, context(asset),
            score, decision, sla, fixKey, Open)
  }

  /** The text before the first arrow, or all of it. */
  function BeforeArrow(s: string): string {
    if s == [] || "->" <= s then [] else [s[0]] + BeforeArrow(s[1..])
  }

  function ChainFinding(c: Contribution, context: string -> AssetContext): Finding {
    WeightedFinding(c.chain.asset, "correlation:" + c.chain.edge, BeforeArrow(c.chain.edge), "correlation", c.weight,
                    "triage-attack-chain", context)
  }

  function ChainFindings(cs: seq<Contribution>, context: string -> AssetContext): (r: seq<Finding>)
    ensures |r| == |cs| && forall i :: 0 <= i < |r| ==> r[i] == ChainFinding(cs[i], context)
  {
    seq(|cs|, i requires 0 <= i < |cs| => ChainFinding(cs[i], context))
  }

  // ----- the two passes -----

  lemma WithSnoc(cs: seq<Contribution>, c: Contribution, k: Chain)
    ensures With(ChainOf, cs + [c], k) == With(ChainOf, cs, k) + (if c.chain == k then [c] else [])
    ensures Keys(ChainOf, cs + [c]) ==
            if c.chain in Keys(ChainOf, cs) then Keys(ChainOf, cs) else Keys(ChainOf, cs) + [c.chain]
  {
    assert (cs + [c])[..|cs|] == cs;
  }

  lemma MaxSnoc(cs: seq<Contribution>, c: Contribution)
    ensures MaxWeight(cs + [c]) == if cs == [] then c.weight else Max(MaxWeight(cs), c.weight)
  {
    assert (cs + [c])[..|cs|] == cs;
  }

  ghost predicate Filled(cs: seq<Contribution>, best: map<Chain, real>, keys: seq<Chain>) {
    && keys == Keys(ChainOf, cs)
    && (forall k :: k in best <==> k in keys)
    && (forall k :: k in best <==> With(ChainOf, cs, k) != [])
    && (forall k :: k in best ==> best[k] == WeightOf(cs, k).weight)
  }

  lemma FilledStep(cs: seq<Contribution>, c: Contribution, best: map<Chain, real>, keys: seq<Chain>)
    requires Filled(cs, best, keys)
    ensures Filled(cs + [c], best[c.chain := if c.chain in best then Max(best[c.chain], c.weight) else c.weight],
                   if c.chain in best then keys else keys + [c.chain])
  {
    hide With, Keys, MaxWeight;
    forall k ensures With(ChainOf, cs + [c], k) == With(ChainOf, cs, k) + (if c.chain == k then [c] else []) {
      WithSnoc(cs, c, k);
    }
    WithSnoc(cs, c, c.chain);
    MaxSnoc(With(ChainOf, cs, c.chain), c);
    var w := if c.chain in best then Max(best[c.chain], c.weight) else c.weight;
    assert WeightOf(cs + [c], c.chain).weight == w;
    forall k | k in best && k != c.chain ensures WeightOf(cs + [c], k) == WeightOf(cs, k) {
      assert With(ChainOf, cs + [c], k) == With(ChainOf, cs, k);
    }
  }

  /** The strongest weight per chain, kept while reading the batch once. */
  method CollectWeights(envs: seq<Envelope>) returns (best: map<Chain, real>, keys: seq<Chain>)
    ensures Filled(Contributions(envs), best, keys)
  {
    hide Filled, Flagged;
    best, keys := map[], [];
    assert Filled([], map[], []) by { FilledEmpty(); }
    for i := 0 to |envs|
      invariant Filled(Contributions(envs[..i]), best, keys)
    {
      assert envs[..i + 1][..i] == envs[..i];
      var flagged := Flagged(envs[i]);
      if flagged.Some? {
        var c := flagged.value;
        FilledStep(Contributions(envs[..i]), c, best, keys);
        if c.chain in best {
          best := best[c.chain := Max(best[c.chain], c.weight)];
        } else {
          best := best[c.chain := c.weight];
          keys := keys + [c.chain];
        }
      }
    }
    assert envs[..|envs|] == envs;
  }

  lemma FilledEmpty()
    ensures Filled([], map[], [])
  {
  }

  method Aggregate(envs: seq<Envelope>, context: string -> AssetContext) returns (out: seq<Finding>)
    ensures out == ChainFindings(Strongest(envs), context)
  {
    hide Keys, SortBy, ChainLe, With, MaxWeight, ChainFinding;
    var best, keys := CollectWeights(envs);
    var order := SortBy(ChainLe, keys);
    SortPermutes(ChainLe, keys);
    ghost var ws := Strongest(envs);
    out := [];
    for k := 0 to |order|
      invariant |out| == k && forall j :: 0 <= j < k ==> out[j] == ChainFinding(ws[j], context)
    {
      assert order[k] in multiset(order) && order[k] in multiset(keys);
      out := out + [ChainFinding(Contribution(order[k], best[order[k]]), context)];
    }
  }

  // ----- what the weights are, without the map -----

  ghost predicate Weighs(envs: seq<Envelope>, chain: Chain, w: real) {
    exists e :: e in envs && Flagged(e) == Some(Contribution(chain, w))
  }

  ghost predicate IsStrongest(envs: seq<Envelope>, c: Contribution) {
    Weighs(envs, c.chain, c.weight) && forall w :: Weighs(envs, c.chain, w) ==> w <= c.weight
  }

  function ChainsOf(cs: seq<Contribution>): (r: seq<Chain>)
    ensures |r| == |cs| && forall i :: 0 <= i < |r| ==> r[i] == cs[i].chain
  {
    seq(|cs|, i requires 0 <= i < |cs| => cs[i].chain)
  }

  /** Exactly the chains that fired, each once, in order, at its strongest weight. */
  ghost predicate Ranking(envs: seq<Envelope>, ws: seq<Contribution>) {
    && Ascending(ChainLe, ChainsOf(ws))
    && (forall k :: k in ChainsOf(ws) <==> exists w :: Weighs(envs, k, w))
    && (forall c :: c in ws ==> IsStrongest(envs, c))
  }

  lemma ChainOrder()
    ensures TotalOrder(ChainLe) && Antisymmetric(ChainLe)
  {
    StrOrder();
    hide StrLe;
    forall a, b ensures ChainLe(a, b) || ChainLe(b, a) { }
    forall a, b, c | ChainLe(a, b) && ChainLe(b, c) ensures ChainLe(a, c) {
      FieldTrans(a.asset, b.asset, c.asset);
      FieldTrans(a.edge, b.edge, c.edge);
    }
    forall a, b | ChainLe(a, b) && ChainLe(b, a) ensures a == b { }
  }

  lemma {:induction false} ContributionsExact(envs: seq<Envelope>)
    ensures forall c: Contribution :: c in Contributions(envs) <==> Weighs(envs, c.chain, c.weight)
    decreases |envs|
  {
    hide Flagged;
    if envs != [] {
      var front, last := envs[..|envs| - 1], envs[|envs| - 1];
      ContributionsExact(front);
      assert envs == front + [last];
      forall c: Contribution ensures c in Contributions(envs) <==> Weighs(envs, c.chain, c.weight) {
        assert Weighs(envs, c.chain, c.weight) <==> Weighs(front, c.chain, c.weight) || Flagged(last) == Some(c);
      }
    }
  }

  lemma {:induction false} MaxWeightExact(cs: seq<Contribution>)
    requires cs != []
    ensures exists c :: c in cs && c.weight == MaxWeight(cs)
    ensures forall c :: c in cs ==> c.weight <= MaxWeight(cs)
    decreases |cs|
  {
    var front, last := cs[..|cs| - 1], cs[|cs| - 1];
    assert cs == front + [last];
    if front != [] { MaxWeightExact(front); }
    assert last in cs;
  }

  lemma WeightIsStrongest(envs: seq<Envelope>, chain: Chain)
    requires exists w :: Weighs(envs, chain, w)
    ensures IsStrongest(envs, WeightOf(Contributions(envs), chain))
  {
    hide Weighs, With, Contributions, MaxWeight;
    var cs := Contributions(envs);
    ContributionsExact(envs);
    WithExact(ChainOf, cs, chain);
    var group := With(ChainOf, cs, chain);
    var w :| Weighs(envs, chain, w);
    assert Contribution(chain, w) in group;
    MaxWeightExact(group);
    var c :| c in group && c.weight == MaxWeight(group);
    assert c == Contribution(chain, MaxWeight(group)) && c in cs;
    forall v | Weighs(envs, chain, v) ensures v <= MaxWeight(group) { assert Contribution(chain, v) in group; }
  }

  lemma StrongestRanks(envs: seq<Envelope>)
    ensures Ranking(envs, Strongest(envs))
  {
    hide ChainLe, SortedKeys, IsStrongest, Contributions, WeightsFor, Weighs;
    var cs := Contributions(envs);
    ChainOrder();
    SortedKeysExact(ChainLe, ChainOf, cs);
    ContributionsExact(envs);
    var keys, ws := SortedKeys(ChainLe, ChainOf, cs), Strongest(envs);
    assert ChainsOf(ws) == keys by { assert forall i :: 0 <= i < |keys| ==> ws[i].chain == keys[i]; }
    forall k ensures k in keys <==> exists w :: Weighs(envs, k, w) {
      if i :| 0 <= i < |cs| && ChainOf(cs[i]) == k { assert cs[i] in cs && Weighs(envs, k, cs[i].weight); }
      if w :| Weighs(envs, k, w) {
        assert Contribution(k, w) in cs;
        var i :| 0 <= i < |cs| && cs[i] == Contribution(k, w);
        assert ChainOf(cs[i]) == k;
      }
    }
    forall c | c in ws ensures IsStrongest(envs, c) {
      var i :| 0 <= i < |keys| && c == WeightOf(cs, keys[i]);
      assert keys[i] in keys;
      WeightIsStrongest(envs, keys[i]);
    }
  }

  ghost predicate SameWeights(a: seq<Envelope>, b: seq<Envelope>) {
    forall k, w :: Weighs(a, k, w) <==> Weighs(b, k, w)
  }

  lemma OneRanking(a: seq<Envelope>, b: seq<Envelope>, x: seq<Contribution>, y: seq<Contribution>)
    requires SameWeights(a, b) && Ranking(a, x) && Ranking(b, y)
    ensures x == y
  {
    hide ChainLe, Weighs;
    ChainOrder();
    AscendingUnique(ChainLe, ChainsOf(x), ChainsOf(y));
    assert |x| == |ChainsOf(x)| == |ChainsOf(y)| == |y|;
    forall i | 0 <= i < |x| ensures x[i] == y[i] {
      assert ChainsOf(x)[i] == ChainsOf(y)[i];
      assert x[i] in x && y[i] in y;
    }
  }

  /** Order and repeats of the records do not show. */
  lemma ArrivalDoesNotShow(a: seq<Envelope>, b: seq<Envelope>)
    requires forall e :: e in a <==> e in b
    ensures Strongest(a) == Strongest(b)
  {
    hide Strongest, Flagged;
    StrongestRanks(a);
    StrongestRanks(b);
    assert SameWeights(a, b);
    OneRanking(a, b, Strongest(a), Strongest(b));
  }

  // ----- merging -----

  function Find(ws: seq<Contribution>, k: Chain): (r: Option<real>)
    ensures r.Some? ==> Contribution(k, r.value) in ws
    ensures r.None? ==> forall c :: c in ws ==> c.chain != k
  {
    if ws == [] then None
    else
      assert ws == [ws[0]] + ws[1..];
      if ws[0].chain == k then Some(ws[0].weight) else Find(ws[1..], k)
  }

  lemma FindChain(ws: seq<Contribution>, k: Chain)
    ensures Find(ws, k).Some? <==> k in ChainsOf(ws)
  {
    hide Find;
    if k in ChainsOf(ws) {
      var i :| 0 <= i < |ws| && ChainsOf(ws)[i] == k;
      assert ws[i] in ws && ws[i].chain == k;
    }
    if Find(ws, k).Some? {
      var i :| 0 <= i < |ws| && ws[i] == Contribution(k, Find(ws, k).value);
      assert ChainsOf(ws)[i] == k;
    }
  }

  function MergeAt(xs: seq<Contribution>, ys: seq<Contribution>, k: Chain): Contribution {
    Contribution(k, match (Find(xs, k), Find(ys, k))
                    case (Some(x), Some(y)) => Max(x, y)
                    case (Some(x), None) => x
                    case (None, Some(y)) => y
                    case (None, None) => 0.0)
  }

  function MergeOver(xs: seq<Contribution>, ys: seq<Contribution>, keys: seq<Chain>): (r: seq<Contribution>)
    ensures |r| == |keys| && forall i :: 0 <= i < |r| ==> r[i] == MergeAt(xs, ys, keys[i])
  {
    seq(|keys|, i requires 0 <= i < |keys| => MergeAt(xs, ys, keys[i]))
  }

  /** Chain by chain, the stronger weight. */
  function Merge(xs: seq<Contribution>, ys: seq<Contribution>): seq<Contribution> {
    MergeOver(xs, ys, SortedSet(ChainLe, ChainsOf(xs) + ChainsOf(ys)))
  }

  lemma WeighsInBoth(a: seq<Envelope>, b: seq<Envelope>, k: Chain)
    ensures forall w :: Weighs(a + b, k, w) <==> Weighs(a, k, w) || Weighs(b, k, w)
  {
    hide Flagged;
    assert forall e :: e in a + b <==> e in a || e in b;
  }

  lemma MergedIsStrongest(a: seq<Envelope>, b: seq<Envelope>, xs: seq<Contribution>, ys: seq<Contribution>, k: Chain)
    requires Ranking(a, xs) && Ranking(b, ys) && (k in ChainsOf(xs) || k in ChainsOf(ys))
    ensures IsStrongest(a + b, MergeAt(xs, ys, k))
  {
    hide ChainLe, Weighs, Find, Ascending;
    FindChain(xs, k);
    FindChain(ys, k);
    WeighsInBoth(a, b, k);
    match Find(xs, k) {
      case Some(x) => assert IsStrongest(a, Contribution(k, x));
      case None => assert forall w :: !Weighs(a, k, w);
    }
    match Find(ys, k) {
      case Some(y) => assert IsStrongest(b, Contribution(k, y));
      case None => assert forall w :: !Weighs(b, k, w);
    }
  }

  /** Two batches together rank like their rankings merged chain by chain. */
  lemma BatchesMerge(a: seq<Envelope>, b: seq<Envelope>)
    ensures Strongest(a + b) == Merge(Strongest(a), Strongest(b))
  {
    hide Strongest, ChainLe, IsStrongest, Weighs, SortedSet, Find;
    var xs, ys := Strongest(a), Strongest(b);
    StrongestRanks(a);
    StrongestRanks(b);
    StrongestRanks(a + b);
    ChainOrder();
    var keys := SortedSet(ChainLe, ChainsOf(xs) + ChainsOf(ys));
    SortedSetExact(ChainLe, ChainsOf(xs) + ChainsOf(ys));
    var m := Merge(xs, ys);
    forall i | 0 <= i < |keys| ensures IsStrongest(a + b, m[i]) {
      assert keys[i] in keys;
      MergedIsStrongest(a, b, xs, ys, keys[i]);
    }
    assert ChainsOf(m) == keys by { assert forall i :: 0 <= i < |keys| ==> m[i].chain == keys[i]; }
    forall k ensures k in keys <==> exists w :: Weighs(a + b, k, w) { WeighsInBoth(a, b, k); }
    assert Ranking(a + b, m);
    OneRanking(a + b, a + b, Strongest(a + b), m);
  }

  // ----- the identity of a chain -----

  predicate HasArrow(s: string) { s != [] && ("->" <= s || HasArrow(s[1..])) }

  /** The component is the process image exactly when the image holds no arrow itself. */
  lemma {:induction false} ComponentIsImage(image: string, rest: string)
    ensures BeforeArrow(image + "->" + rest) == image <==> !HasArrow(image)
  {
    var s := image + "->" + rest;
    if image == [] {
      assert "->" <= s;
    } else {
      assert s[1..] == image[1..] + "->" + rest;
      ComponentIsImage(image[1..], rest);
      assert image == [image[0]] + image[1..];
      if "->" <= image {
        assert "->" <= s;
      } else {
        assert s[0] == image[0] && s[1] == if |image| == 1 then '-' else image[1];
        assert !("->" <= s);
      }
    }
  }

  lemma {:induction false} DecimalInjective(m: nat, n: nat)
    requires Decimal(m) == Decimal(n)
    ensures m == n
    decreases m
  {
    var dm, dn := Decimal(m), Decimal(n);
    if m >= 10 && n >= 10 {
      assert dm[..|dm| - 1] == Decimal(m / 10) && dn[..|dn| - 1] == Decimal(n / 10);
      assert dm[|dm| - 1] == Digit(m % 10) && dn[|dn| - 1] == Digit(n % 10);
      DecimalInjective(m / 10, n / 10);
    }
  }

  /** Text behind the last colon. */
  lemma {:induction false} LastColon(a: string, x: string, b: string, y: string)
    requires a + ":" + x == b + ":" + y && ':' !in x && ':' !in y
    ensures a == b && x == y
    decreases |x|
  {
    var s := a + ":" + x;
    assert s[|s| - 1] == if x == [] then ':' else x[|x| - 1];
    assert s[|s| - 1] == if y == [] then ':' else y[|y| - 1];
    if x == [] || y == [] {
      assert a == s[..|s| - 1] == b;
    } else {
      assert s[..|s| - 1] == a + ":" + x[..|x| - 1] && s[..|s| - 1] == b + ":" + y[..|y| - 1];
      LastColon(a, x[..|x| - 1], b, y[..|y| - 1]);
      assert x[|x| - 1] == s[|s| - 1] == y[|y| - 1];
    }
  }

  /** Images without an arrow: equal edges mean the same image, address and 16-bit port. */
  lemma EdgeDetermines(i1: string, d1: string, p1: nat, i2: string, d2: string, p2: nat)
    requires !HasArrow(i1) && !HasArrow(i2) && Edge(i1, d1, p1) == Edge(i2, d2, p2)
    ensures i1 == i2 && d1 == d2 && p1 % 0x10000 == p2 % 0x10000
  {
    var n1, n2 := Decimal(p1 % 0x10000), Decimal(p2 % 0x10000);
    var r1, r2 := d1 + ":" + n1, d2 + ":" + n2;
    assert Edge(i1, d1, p1) == i1 + "->" + r1 && Edge(i2, d2, p2) == i2 + "->" + r2;
    ComponentIsImage(i1, r1);
    ComponentIsImage(i2, r2);
    assert r1 == Edge(i1, d1, p1)[|i1| + 2..] && r2 == Edge(i2, d2, p2)[|i2| + 2..];
    LastColon(d1, n1, d2, n2);
    DecimalInjective(p1 % 0x10000, p2 % 0x10000);
  }

  /** An arrow in an image can as well stand in the address. */
  lemma ArrowsCollide(i: string, mid: string, d: string, p: nat)
    ensures Edge(i + "->" + mid, d, p) == Edge(i, mid + "->" + d, p)
    ensures i + "->" + mid != i && mid + "->" + d != d
  {
    assert i + "->" + mid + "->" + d + ":" + Decimal(p % 0x10000) == i + "->" + (mid + "->" + d) + ":" + Decimal(p % 0x10000);
    assert |i + "->" + mid| > |i| && |mid + "->" + d| > |d|;
  }

  lemma {:induction false} ArrowAt(s: string) returns (k: nat)
    requires HasArrow(s)
    ensures k + 2 <= |s| && s[k] == '-' && s[k + 1] == '>' && s == s[..k] + "->" + s[k + 2..]
  {
    if "->" <= s {
      k := 0;
      assert s[0] == '-' && s[1] == '>';
    } else {
      var m := ArrowAt(s[1..]);
      k := m + 1;
    }
    assert s == s[..k] + [s[k], s[k + 1]] + s[k + 2..];
  }

  lemma {:induction false} AtArrow(s: string, k: nat)
    requires k + 2 <= |s| && s[k] == '-' && s[k + 1] == '>'
    ensures HasArrow(s)
  {
    if k == 0 {
      assert s == "->" + s[2..];
    } else {
      AtArrow(s[1..], k - 1);
    }
  }

  /** Text with one arrow splits at it and nowhere else. */
  lemma OneArrowOneSplit(i: string, d: string, i2: string, d2: string)
    requires !HasArrow(i) && !HasArrow(d) && i2 + "->" + d2 == i + "->" + d
    ensures i2 == i && d2 == d
  {
    var s := i + "->" + d;
    var k := |i2|;
    assert s[k] == (i2 + "->" + d2)[k] == '-' && s[k + 1] == (i2 + "->" + d2)[k + 1] == '>';
    assert s[|i|] == '-' && s[|i| + 1] == '>';
    if k + 1 < |i| {
      assert i[k] == s[k] && i[k + 1] == s[k + 1];
      AtArrow(i, k);
    } else if k >= |i| + 2 {
      assert d[k - |i| - 2] == s[k] && d[k - |i| - 1] == s[k + 1];
      AtArrow(d, k - |i| - 2);
    }
    assert k == |i|;
    assert i2 == s[..k] == i && d2 == s[k + 2..] == d;
  }

  /**
   The edge of a record stands for no other image and address exactly when neither its
   image nor its address holds an arrow.
   */
  lemma EdgeUniqueExactly(i: string, d: string, p: nat)
    ensures (forall i2, d2, p2: nat :: Edge(i2, d2, p2) == Edge(i, d, p) ==> i2 == i && d2 == d)
            <==> !HasArrow(i) && !HasArrow(d)
  {
    if HasArrow(i) {
      var k := ArrowAt(i);
      ArrowsCollide(i[..k], i[k + 2..], d, p);
      assert Edge(i[..k], i[k + 2..] + "->" + d, p) == Edge(i, d, p);
    } else if HasArrow(d) {
      var k := ArrowAt(d);
      ArrowsCollide(i, d[..k], d[k + 2..], p);
      assert Edge(i + "->" + d[..k], d[k + 2..], p) == Edge(i, d, p);
    } else {
      forall i2, d2, p2: nat | Edge(i2, d2, p2) == Edge(i, d, p) ensures i2 == i && d2 == d {
        SameBeforeColon(i, d, p, i2, d2, p2);
        OneArrowOneSplit(i, d, i2, d2);
      }
    }
  }

  lemma SameBeforeColon(i: string, d: string, p: nat, i2: string, d2: string, p2: nat)
    requires Edge(i2, d2, p2) == Edge(i, d, p)
    ensures i2 + "->" + d2 == i + "->" + d
  {
    LastColon(i2 + "->" + d2, Decimal(p2 % 0x10000), i + "->" + d, Decimal(p % 0x10000));
  }

  // ----- the chain against its halves -----

  /** A connected chain scores above everything a single sensor may report (at most 0.7) on the
      same asset, exactly where the half does not already saturate the scale. */
  lemma ChainOutranksHalf(ctx: AssetContext)
    ensures RecomputeCompliance(0.9, ctx).r > RecomputeCompliance(0.7, ctx).r <==>
            !(ctx.internetFacing && !ctx.compensatingControls && ctx.criticality in {CrownJewel, High})
  {
  }

  lemma ChainOutranksHalves(ctx: AssetContext, half: real, chain: real)
    requires half <= 0.7 && 0.9 <= chain
    requires !(ctx.internetFacing && !ctx.compensatingControls && ctx.criticality in {CrownJewel, High})
    ensures RecomputeCompliance(chain, ctx).r > RecomputeCompliance(half, ctx).r
  {
    hide RecomputeCompliance;
    ChainOutranksHalf(ctx);
    ComplianceMonotone(half, 0.7, ctx);
    ComplianceMonotone(0.9, chain, ctx);
  }

  /** The triple chains score above the plain one exactly where the plain one leaves room. */
  lemma TripleOutranksPair(ctx: AssetContext)
    ensures RecomputeCompliance(0.95, ctx).r > RecomputeCompliance(0.9, ctx).r <==>
            !(!ctx.compensatingControls &&
              (if ctx.internetFacing then ctx.criticality != Low else ctx.criticality == CrownJewel))
  {
  }

  // ----- the weight of a record -----

  /** The recognized rules weigh more than anything a single sensor reports, which is at most
      0.7; the triple chains most; any other rule the floor. */
  lemma RuleWeights(rule: string)
    ensures var triple := rule == "suspicious_process_wrote_file_and_connected"
                          || rule == "suspicious_process_read_sensitive_and_connected";
            var pair := rule == "suspicious_process_suspicious_connection";
            && (triple <==> RuleWeight(rule) == 0.95) && (pair <==> RuleWeight(rule) == 0.9)
            && (!triple && !pair <==> RuleWeight(rule) == 0.3)
            && (triple || pair <==> RuleWeight(rule) > 0.7)
  {
  }

  lemma {:induction false} StrongestRuleExactly(rules: seq<string>)
    requires rules != []
    ensures exists r :: r in rules && RuleWeight(r) == StrongestRule(rules)
    ensures forall r :: r in rules ==> RuleWeight(r) <= StrongestRule(rules)
    decreases |rules|
  {
    hide RuleWeight;
    var front, last := rules[..|rules| - 1], rules[|rules| - 1];
    assert rules == front + [last] && last in rules;
    if front != [] { StrongestRuleExactly(front); }
  }

  /**
   A record contributes exactly when it is correlated activity, some top-level rule fired and
   image, address and port are there; then under its host and the edge
   image->address:port, at the weight of its strongest rule.
   */
  lemma FlaggedExactly(e: Envelope)
    ensures Flagged(e).Some? <==> e.classUid == 9002 && e.rules != [] && e.image.Some? && e.daddr.Some? && e.dport.Some?
    ensures Flagged(e).Some? ==>
              var c := Flagged(e).value;
              && c.chain.asset == e.hostname
              && c.chain.edge == e.image.value + "->" + e.daddr.value + ":" + Decimal(e.dport.value % 65536)
              && (exists r :: r in e.rules && RuleWeight(r) == c.weight)
              && (forall r :: r in e.rules ==> RuleWeight(r) <= c.weight)
  {
    hide RuleWeight, StrongestRule, Decimal;
    if e.rules != [] { StrongestRuleExactly(e.rules); }
  }

  /** What is reported for a chain: one open triage finding named after its edge, scored by its weight. */
  lemma ChainReported(c: Contribution, context: string -> AssetContext)
    ensures var f := ChainFinding(c, context);
            && f.identity.assetId == c.chain.asset && f.identity.vulnId == "correlation:" + c.chain.edge
            && f.identity.component == BeforeArrow(c.chain.edge)
            && f.identity.location == "correlation" && f.findingId == FindingIdFor(f.identity)
            && f.provenance == [Provenance("torda", Authenticated, None, 0.95)]
            && f.enrichment == Enrichment(None, None, false, NoExploit, Affected)
            && f.fixKey == "triage-attack-chain" && f.status == Open && f.context == context(c.chain.asset)
            && f.score == RecomputeCompliance(c.weight, f.context)
            && (f.decision == Act <==> f.score.r >= 70) && (f.decision == Defer <==> f.score.r < 20)
  {
    hide RecomputeCompliance;
  }
}
