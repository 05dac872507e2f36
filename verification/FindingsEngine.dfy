/** Correlating raw detections by identity and turning each group into one scored finding.
    Confidences are real numbers. */
module FindingsEngine {
  import opened Basics
  import opened Sorting
  import opened Grouping
  import opened Scoring

  datatype Identity = Identity(assetId: string, vulnId: string, component: string, location: string)

  datatype Provenance = Provenance(source: string, how: DetectionMethod, severity: Option<string>, confidence: real)

  datatype RawDetection = RawDetection(
    identity: Identity, source: string, how: DetectionMethod, severity: Option<string>, confidence: real, fixKey: string)

  datatype Correlated = Correlated(identity: Identity, provenance: seq<Provenance>, fixKey: string)

  datatype Finding = Finding(
    findingId: string, identity: Identity, provenance: seq<Provenance>, enrichment: Enrichment, context: AssetContext,
    score: Score, decision: Decision, slaHours: nat, fixKey: string, status: FindingState)

  /** The injected sources. */
  datatype Sources = Sources(
    lookup: string -> Option<Enrichment>, context: string -> AssetContext,
    hasData: string -> bool, confirmed: Identity -> bool)

  // ----- the order of identities -----

  predicate IdLe(a: Identity, b: Identity) {
    if a.assetId != b.assetId then StrLe(a.assetId, b.assetId)
    else if a.vulnId != b.vulnId then StrLe(a.vulnId, b.vulnId)
    else if a.component != b.component then StrLe(a.component, b.component)
    else StrLe(a.location, b.location)
  }

  lemma IdOrder()
    ensures TotalOrder(IdLe) && Antisymmetric(IdLe)
  {
    StrOrder();
    hide StrLe;
    forall a, b ensures IdLe(a, b) || IdLe(b, a) { }
    forall a, b, c | IdLe(a, b) && IdLe(b, c) ensures IdLe(a, c) { IdLeTrans(a, b, c); }
    forall a, b | IdLe(a, b) && IdLe(b, a) ensures a == b { }
  }

  lemma IdLeTrans(a: Identity, b: Identity, c: Identity)
    requires IdLe(a, b) && IdLe(b, c)
    ensures IdLe(a, c)
  {
    hide StrLe;
    FieldTrans(a.assetId, b.assetId, c.assetId);
    FieldTrans(a.vulnId, b.vulnId, c.vulnId);
    FieldTrans(a.component, b.component, c.component);
    FieldTrans(a.location, b.location, c.location);
  }

  lemma FieldTrans(a: string, b: string, c: string)
    ensures StrLe(a, b) && StrLe(b, c) ==> StrLe(a, c)
    ensures StrLe(a, b) && StrLe(b, c) && a == c ==> a == b
  {
    if StrLe(a, b) && StrLe(b, c) {
      StrLeTrans(a, b, c);
      if a == c { StrLeAntisym(a, b); }
    }
  }

  // ----- correlation -----

  predicate ByConfidence(a: RawDetection, b: RawDetection) { a.confidence >= b.confidence }

  function IdentityOf(d: RawDetection): Identity { d.identity }

  function Evidence(d: RawDetection): Provenance { Provenance(d.source, d.how, d.severity, d.confidence) }

  function EvidenceOf(ds: seq<RawDetection>): (r: seq<Provenance>)
    ensures |r| == |ds| && forall i :: 0 <= i < |r| ==> r[i] == Evidence(ds[i])
  {
    seq(|ds|, i requires 0 <= i < |ds| => Evidence(ds[i]))
  }

  function Group(ds: seq<RawDetection>, id: Identity): Correlated {
    var sorted := SortBy(ByConfidence, With(IdentityOf, ds, id));
    Correlated(id, EvidenceOf(sorted), if sorted == [] then "" else sorted[0].fixKey)
  }

  function Groups(ds: seq<RawDetection>, ids: seq<Identity>): (r: seq<Correlated>)
    ensures |r| == |ids| && forall i :: 0 <= i < |r| ==> r[i] == Group(ds, ids[i])
  {
    seq(|ids|, i requires 0 <= i < |ids| => Group(ds, ids[i]))
  }

  /** One group per identity, in identity order. */
  function SortedIds(ds: seq<RawDetection>): seq<Identity> { SortedKeys(IdLe, IdentityOf, ds) }

  method Correlate(ds: seq<RawDetection>) returns (out: seq<Correlated>)
    ensures out == Groups(ds, SortedIds(ds))
  {
    hide With, Keys, SortBy, IdLe;
    var groups, keys := GroupBy(IdentityOf, ds);
    var order := SortBy(IdLe, keys);
    SortPermutes(IdLe, keys);
    out := [];
    for k := 0 to |order|
      invariant |out| == k && forall j :: 0 <= j < k ==> out[j] == Group(ds, order[j])
    {
      assert order[k] in multiset(order) && order[k] in multiset(keys);
      var dets := SortBy(ByConfidence, groups[order[k]]);
      out := out + [Correlated(order[k], EvidenceOf(dets), if dets == [] then "" else dets[0].fixKey)];
    }
  }

  // ----- the engine -----

  const UnknownEnrichment := Enrichment(None, None, false, NoExploit, Unknown)

  function FindingIdFor(id: Identity): string {
    id.assetId + "|" + id.vulnId + "|" + id.component + "|" + id.location
  }

  predicate PipeFree(id: Identity) {
    '|' !in id.assetId && '|' !in id.vulnId && '|' !in id.component && '|' !in id.location
  }

  function Pipes(s: string): nat { if s == [] then 0 else (if s[0] == '|' then 1 else 0) + Pipes(s[1..]) }

  lemma {:induction false} PipesConcat(a: string, b: string)
    ensures Pipes(a + b) == Pipes(a) + Pipes(b)
  {
    if a == [] {
      assert a + b == b;
    } else {
      assert (a + b)[1..] == a[1..] + b;
      PipesConcat(a[1..], b);
    }
  }

  lemma {:induction false} NoPipes(s: string)
    ensures Pipes(s) == 0 <==> '|' !in s
  {
    if s != [] {
      NoPipes(s[1..]);
      assert s == [s[0]] + s[1..];
    }
  }

  lemma PipesOfId(id: Identity)
    ensures Pipes(FindingIdFor(id)) == 3 <==> PipeFree(id)
  {
    hide Pipes;
    var a, v, c, l := id.assetId, id.vulnId, id.component, id.location;
    OnePipe();
    PipesConcat(a, "|");
    PipesConcat(a + "|", v);
    PipesConcat(a + "|" + v, "|");
    PipesConcat(a + "|" + v + "|", c);
    PipesConcat(a + "|" + v + "|" + c, "|");
    PipesConcat(a + "|" + v + "|" + c + "|", l);
    NoPipes(a);
    NoPipes(v);
    NoPipes(c);
    NoPipes(l);
  }

  lemma OnePipe()
    ensures Pipes("|") == 1
  {
    assert "|"[1..] == [];
  }

  /** Text splits at its first bar in one way. */
  lemma FirstPipe(a: string, x: string, b: string, y: string)
    requires a + "|" + x == b + "|" + y && '|' !in a && '|' !in b
    ensures a == b && x == y
  {
    var s := a + "|" + x;
    assert s[|a|] == '|' && s[|b|] == (b + "|" + y)[|b|] == '|';
    assert a == s[..|a|] && b == s[..|b|];
    assert |a| == |b|;
    assert a == s[..|a|] == b && x == s[|a| + 1..] == y;
  }

  lemma SplitAtPipe(s: string) returns (left: string, right: string)
    requires '|' in s
    ensures s == left + "|" + right
  {
    var k :| 0 <= k < |s| && s[k] == '|';
    left, right := s[..k], s[k + 1..];
  }

  /** Another identity with the same id, for one that has a bar in a field. */
  lemma CollidingIdentity(x: Identity) returns (y: Identity)
    requires !PipeFree(x)
    ensures FindingIdFor(y) == FindingIdFor(x) && y != x
  {
    var a, v, c, l := x.assetId, x.vulnId, x.component, x.location;
    if '|' in a {
      var left, right := SplitAtPipe(a);
      y := Identity(left, right, v, c + "|" + l);
      assert |left| < |a|;
      assert FindingIdFor(y) == left + "|" + right + "|" + v + "|" + c + "|" + l;
    } else if '|' in v {
      var left, right := SplitAtPipe(v);
      y := Identity(a, left, right, c + "|" + l);
      assert |left| < |v|;
      assert FindingIdFor(y) == a + "|" + (left + "|" + right) + "|" + c + "|" + l;
    } else if '|' in c {
      var left, right := SplitAtPipe(c);
      y := Identity(a, v, left, right + "|" + l);
      assert |left| < |c|;
      assert FindingIdFor(y) == a + "|" + v + "|" + (left + "|" + right) + "|" + l;
    } else {
      var left, right := SplitAtPipe(l);
      y := Identity(a, v, c + "|" + left, right);
      assert |right| < |l|;
      assert FindingIdFor(y) == a + "|" + v + "|" + c + "|" + (left + "|" + right);
    }
  }

  /** A finding id stands for one identity exactly when no field of it holds a bar. */
  lemma FindingIdExactly(x: Identity)
    ensures (forall y :: FindingIdFor(y) == FindingIdFor(x) ==> y == x) <==> PipeFree(x)
  {
    if PipeFree(x) {
      forall y | FindingIdFor(y) == FindingIdFor(x) ensures y == x {
        PipesOfId(x);
        PipesOfId(y);
        SameFields(x, y);
      }
    } else {
      var y := CollidingIdentity(x);
    }
  }

  lemma SameFields(x: Identity, y: Identity)
    requires PipeFree(x) && PipeFree(y) && FindingIdFor(x) == FindingIdFor(y)
    ensures x == y
  {
    var x3, y3 := x.component + "|" + x.location, y.component + "|" + y.location;
    var x2, y2 := x.vulnId + "|" + x3, y.vulnId + "|" + y3;
    assert FindingIdFor(x) == x.assetId + "|" + x2 && FindingIdFor(y) == y.assetId + "|" + y2;
    FirstPipe(x.assetId, x2, y.assetId, y2);
    FirstPipe(x.vulnId, x3, y.vulnId, y3);
    FirstPipe(x.component, x.location, y.component, y.location);
  }

  /** Everything a finding says besides who reported it and how to fix it. */
  datatype Assessment = Assessment(
    identity: Identity, enrichment: Enrichment, context: AssetContext, score: Score, decision: Decision, slaHours: nat,
    status: FindingState)

  function Assess(env: Sources, id: Identity): Assessment {
    var ctx := env.context(id.assetId);
    var enr := match env.lookup(id.vulnId) case Some(e) => e case None => UnknownEnrichment;
    var runtime := if env.hasData(id.assetId) then Some(env.confirmed(id)) else None;
    var reach := if runtime == Some(true) && enr.vex == Unknown then 1.0 else ReachGate(enr.vex);
    var plain := RecomputeWithReach(enr, ctx, reach);
    var score := plain.(explain := plain.explain.(runtimeReachable := runtime));
    var (decision, sla) := Decide(score.r, enr.kev, true, score.explain.reach);
    Assessment(id, enr, ctx, score, decision, sla, if enr.vex == NotAffected then Suppressed else Open)
  }

  function ToFinding(env: Sources, c: Correlated): Finding {
    var a := Assess(env, c.identity);
    Finding(FindingIdFor(c.identity), c.identity, c.provenance, a.enrichment, a.context, a.score, a.decision,
            a.slaHours, c.fixKey, a.status)
  }

  function AssessmentOf(f: Finding): Assessment {
    Assessment(f.identity, f.enrichment, f.context, f.score, f.decision, f.slaHours, f.status)
  }

  function RunEngine(env: Sources, ds: seq<RawDetection>): seq<Finding> { ToFindings(env, Groups(ds, SortedIds(ds))) }

  function ToFindings(env: Sources, cs: seq<Correlated>): (r: seq<Finding>)
    ensures |r| == |cs| && forall i :: 0 <= i < |r| ==> r[i] == ToFinding(env, cs[i])
  {
    seq(|cs|, i requires 0 <= i < |cs| => ToFinding(env, cs[i]))
  }

  // ----- one finding per identity -----

  lemma SortedIdsExact(ds: seq<RawDetection>)
    ensures Ascending(IdLe, SortedIds(ds))
    ensures forall id :: id in SortedIds(ds) <==> exists i :: 0 <= i < |ds| && ds[i].identity == id
  {
    hide IdLe, SortedKeys;
    IdOrder();
    SortedKeysExact(IdLe, IdentityOf, ds);
    assert forall i :: 0 <= i < |ds| ==> IdentityOf(ds[i]) == ds[i].identity;
  }

  function IdentitiesOf(fs: seq<Finding>): (r: seq<Identity>)
    ensures |r| == |fs| && forall i :: 0 <= i < |r| ==> r[i] == fs[i].identity
  {
    seq(|fs|, i requires 0 <= i < |fs| => fs[i].identity)
  }

  /** The findings stand in the order of the sorted identities. */
  lemma FindingAt(env: Sources, ds: seq<RawDetection>, ids: seq<Identity>)
    ensures IdentitiesOf(ToFindings(env, Groups(ds, ids))) == ids
  {
    hide With, SortBy, EvidenceOf, Assess;
  }

  /** A run gives exactly one finding per distinct identity of the batch, in strictly ascending order. */
  lemma OneFindingPerIdentity(env: Sources, ds: seq<RawDetection>)
    ensures Ascending(IdLe, IdentitiesOf(RunEngine(env, ds)))
    ensures forall id :: id in IdentitiesOf(RunEngine(env, ds)) <==> exists k :: 0 <= k < |ds| && ds[k].identity == id
  {
    hide SortedIds, IdLe, IdentitiesOf;
    SortedIdsExact(ds);
    FindingAt(env, ds, SortedIds(ds));
  }

  // ----- conservation of evidence -----

  /** All evidence of all findings, each with the identity it is filed under. */
  function Filed(fs: seq<Finding>): multiset<(Identity, Provenance)> {
    if fs == [] then multiset{} else Tagged(fs[0].identity, fs[0].provenance) + Filed(fs[1..])
  }

  function Tagged(id: Identity, ps: seq<Provenance>): multiset<(Identity, Provenance)> {
    if ps == [] then multiset{} else multiset{(id, ps[0])} + Tagged(id, ps[1..])
  }

  /** All evidence that came in. */
  function Reported(ds: seq<RawDetection>): multiset<(Identity, Provenance)>
    decreases |ds|
  {
    if ds == [] then multiset{}
    else
      var d := ds[|ds| - 1];
      Reported(ds[..|ds| - 1]) + multiset{(d.identity, Provenance(d.source, d.how, d.severity, d.confidence))}
  }

  lemma {:induction false} TaggedAppend(id: Identity, ps: seq<Provenance>, p: Provenance)
    ensures Tagged(id, ps + [p]) == Tagged(id, ps) + multiset{(id, p)}
  {
    if ps == [] {
      assert ps + [p] == [p];
      assert [p][1..] == [];
    } else {
      assert (ps + [p])[1..] == ps[1..] + [p];
      TaggedAppend(id, ps[1..], p);
    }
  }

  lemma {:induction false} TaggedConcat(id: Identity, a: seq<Provenance>, b: seq<Provenance>)
    ensures Tagged(id, a + b) == Tagged(id, a) + Tagged(id, b)
    decreases |b|
  {
    if b == [] {
      assert a + b == a;
    } else {
      var front := b[..|b| - 1];
      assert a + b == (a + front) + [b[|b| - 1]] && b == front + [b[|b| - 1]];
      TaggedConcat(id, a, front);
      TaggedAppend(id, a + front, b[|b| - 1]);
      TaggedAppend(id, front, b[|b| - 1]);
    }
  }

  lemma {:induction false} EvidenceConcat(a: seq<RawDetection>, b: seq<RawDetection>)
    ensures EvidenceOf(a + b) == EvidenceOf(a) + EvidenceOf(b)
  {
    var l, r := EvidenceOf(a + b), EvidenceOf(a) + EvidenceOf(b);
    assert |l| == |r|;
    forall i | 0 <= i < |l| ensures l[i] == r[i] { assert l[i] == Evidence((a + b)[i]); }
  }

  /** The evidence of a sorted group is that of the group. */
  lemma {:induction false} SortKeepsEvidence(id: Identity, ds: seq<RawDetection>)
    ensures Tagged(id, EvidenceOf(SortBy(ByConfidence, ds))) == Tagged(id, EvidenceOf(ds))
    decreases |ds|
  {
    hide EvidenceOf, Tagged, ByConfidence;
    if ds == [] {
    } else {
      var front, d := ds[..|ds| - 1], ds[|ds| - 1];
      SortKeepsEvidence(id, front);
      InsertKeepsEvidence(id, SortBy(ByConfidence, front), d);
      assert ds == front + [d];
      EvidenceConcat(front, [d]);
      TaggedConcat(id, EvidenceOf(front), EvidenceOf([d]));
      OneEvidence(id, d);
    }
  }

  lemma OneEvidence(id: Identity, d: RawDetection)
    ensures Tagged(id, EvidenceOf([d])) == multiset{(id, Evidence(d))}
  {
    assert EvidenceOf([d]) == [Evidence(d)];
    assert [Evidence(d)][1..] == [];
  }

  lemma {:induction false} InsertKeepsEvidence(id: Identity, s: seq<RawDetection>, d: RawDetection)
    ensures Tagged(id, EvidenceOf(InsertBy(ByConfidence, s, d))) ==
            Tagged(id, EvidenceOf(s)) + multiset{(id, Evidence(d))}
    decreases |s|
  {
    hide EvidenceOf, Tagged, ByConfidence;
    OneEvidence(id, d);
    if s == [] {
      NoEvidence(id);
    } else {
      var front, last := s[..|s| - 1], s[|s| - 1];
      assert s == front + [last];
      if ByConfidence(last, d) {
        EvidenceConcat(s, [d]);
        TaggedConcat(id, EvidenceOf(s), EvidenceOf([d]));
      } else {
        var inner := InsertBy(ByConfidence, front, d);
        InsertKeepsEvidence(id, front, d);
        EvidenceConcat(inner, [last]);
        TaggedConcat(id, EvidenceOf(inner), EvidenceOf([last]));
        EvidenceConcat(front, [last]);
        TaggedConcat(id, EvidenceOf(front), EvidenceOf([last]));
      }
    }
  }

  lemma NoEvidence(id: Identity)
    ensures Tagged(id, EvidenceOf([])) == multiset{}
  {
  }

  /** The evidence filed when each listed identity gets its detections. */
  function FiledFor(ds: seq<RawDetection>, ids: seq<Identity>): multiset<(Identity, Provenance)> {
    if ids == [] then multiset{} else Tagged(ids[0], EvidenceOf(With(IdentityOf, ds, ids[0]))) + FiledFor(ds, ids[1..])
  }

  lemma {:induction false} FiledIsFiledFor(env: Sources, ds: seq<RawDetection>, ids: seq<Identity>)
    ensures Filed(ToFindings(env, Groups(ds, ids))) == FiledFor(ds, ids)
  {
    hide EvidenceOf, Tagged, With, Assess;
    if ids != [] {
      var fs := ToFindings(env, Groups(ds, ids));
      var rest := ToFindings(env, Groups(ds, ids[1..]));
      assert fs[1..] == rest by {
        assert |fs[1..]| == |rest|;
        forall i | 0 <= i < |rest| ensures fs[1..][i] == rest[i] {
          assert Groups(ds, ids)[i + 1] == Groups(ds, ids[1..])[i];
        }
      }
      FiledIsFiledFor(env, ds, ids[1..]);
      SortKeepsEvidence(ids[0], With(IdentityOf, ds, ids[0]));
    }
  }

  lemma {:induction false} FiledForStep(ds: seq<RawDetection>, d: RawDetection, ids: seq<Identity>)
    requires Distinct(ids)
    ensures FiledFor(ds + [d], ids) ==
            FiledFor(ds, ids) + (if d.identity in ids then multiset{(d.identity, Evidence(d))} else multiset{})
    decreases |ids|
  {
    hide EvidenceOf, Tagged;
    if ids != [] {
      FiledForStep(ds, d, ids[1..]);
      assert (ds + [d])[..|ds|] == ds;
      var id := ids[0];
      assert id !in ids[1..];
      if d.identity == id {
        EvidenceConcat(With(IdentityOf, ds, id), [d]);
        TaggedConcat(id, EvidenceOf(With(IdentityOf, ds, id)), EvidenceOf([d]));
        OneEvidence(id, d);
      } else {
        assert With(IdentityOf, ds + [d], id) == With(IdentityOf, ds, id);
      }
    }
  }

  lemma {:induction false} FiledForNone(ids: seq<Identity>)
    ensures FiledFor([], ids) == multiset{}
  {
    if ids != [] {
      FiledForNone(ids[1..]);
      assert With(IdentityOf, [], ids[0]) == [];
    }
  }

  lemma {:induction false} FiledForAll(ds: seq<RawDetection>, ids: seq<Identity>)
    requires Distinct(ids) && forall k :: 0 <= k < |ds| ==> ds[k].identity in ids
    ensures FiledFor(ds, ids) == Reported(ds)
    decreases |ds|
  {
    if ds == [] {
      FiledForNone(ids);
    } else {
      var front, d := ds[..|ds| - 1], ds[|ds| - 1];
      assert ds == front + [d];
      forall k | 0 <= k < |front| ensures front[k].identity in ids { assert ds[k].identity in ids; }
      FiledForAll(front, ids);
      hide FiledFor;
      FiledForStep(front, d, ids);
    }
  }

  ghost predicate ConfidenceFalls(ps: seq<Provenance>) {
    forall i, j :: 0 <= i < j < |ps| ==> ps[i].confidence >= ps[j].confidence
  }

  /** Nothing reported is lost, repeated or filed under another identity, and inside each
      finding the evidence stands in order of falling confidence. */
  lemma EvidenceConserved(env: Sources, ds: seq<RawDetection>)
    ensures Filed(RunEngine(env, ds)) == Reported(ds)
    ensures forall f :: f in RunEngine(env, ds) ==> ConfidenceFalls(f.provenance)
  {
    hide IdLe, Filed, FiledFor, SortedIds, Group, ToFinding, ConfidenceFalls, Reported;
    SortedIdsExact(ds);
    var ids := SortedIds(ds);
    FiledIsFiledFor(env, ds, ids);
    FiledForAll(ds, ids);
    forall f | f in RunEngine(env, ds) ensures ConfidenceFalls(f.provenance) {
      var i :| 0 <= i < |ids| && f == ToFinding(env, Group(ds, ids[i]));
      GroupFalls(env, ds, ids[i]);
    }
  }

  lemma GroupFalls(env: Sources, ds: seq<RawDetection>, id: Identity)
    ensures ConfidenceFalls(ToFinding(env, Group(ds, id)).provenance)
  {
    assert TotalOrder(ByConfidence);
    SortSorts(ByConfidence, With(IdentityOf, ds, id));
  }

  /** The fix key of a group is the key of its first detection with the highest confidence. */
  lemma FixKeyIsMostConfident(ds: seq<RawDetection>, id: Identity, k: nat)
    requires var group := With(IdentityOf, ds, id);
             && k < |group|
             && (forall j :: 0 <= j < |group| ==> group[j].confidence <= group[k].confidence)
             && (forall j :: 0 <= j < k ==> group[j].confidence < group[k].confidence)
    ensures Group(ds, id).fixKey == With(IdentityOf, ds, id)[k].fixKey
  {
    assert TotalOrder(ByConfidence);
    SortHead(ByConfidence, With(IdentityOf, ds, id), k);
  }

  // ----- two runs -----

  function Assessments(fs: seq<Finding>): (r: seq<Assessment>)
    ensures |r| == |fs| && forall i :: 0 <= i < |r| ==> r[i] == AssessmentOf(fs[i])
  {
    seq(|fs|, i requires 0 <= i < |fs| => AssessmentOf(fs[i]))
  }

  /** Two batches that name the same identities get the same scores, decisions, deadlines and
      statuses, whatever their labels, confidences, fix keys, counts and order. */
  lemma OnlyIdentitiesMatter(env: Sources, a: seq<RawDetection>, b: seq<RawDetection>)
    requires forall i :: 0 <= i < |a| ==> exists j :: 0 <= j < |b| && b[j].identity == a[i].identity
    requires forall j :: 0 <= j < |b| ==> exists i :: 0 <= i < |a| && a[i].identity == b[j].identity
    ensures Assessments(RunEngine(env, a)) == Assessments(RunEngine(env, b))
  {
    hide SortedIds, IdLe, Assessments;
    SortedIdsExact(a);
    SortedIdsExact(b);
    IdOrder();
    AscendingUnique(IdLe, SortedIds(a), SortedIds(b));
    AssessedInOrder(env, a, b, SortedIds(a));
  }

  lemma AssessedInOrder(env: Sources, a: seq<RawDetection>, b: seq<RawDetection>, ids: seq<Identity>)
    ensures Assessments(ToFindings(env, Groups(a, ids))) == Assessments(ToFindings(env, Groups(b, ids)))
  {
    hide Group, ToFinding, AssessmentOf, Assess;
    var x, y := Assessments(ToFindings(env, Groups(a, ids))), Assessments(ToFindings(env, Groups(b, ids)));
    assert |x| == |y|;
    forall i | 0 <= i < |x| ensures x[i] == y[i] {
      AssessedById(env, a, ids[i]);
      AssessedById(env, b, ids[i]);
    }
  }

  lemma AssessedById(env: Sources, ds: seq<RawDetection>, id: Identity)
    ensures AssessmentOf(ToFinding(env, Group(ds, id))) == Assess(env, id)
  {
  }

  // ----- runtime reachability only ever confirms -----

  /** The same sources without any runtime telemetry. */
  function WithoutTelemetry(env: Sources): Sources { env.(hasData := _ => false) }

  /** Any runtime reachability source, compared with none: R and urgency never fall, the deadline never lengthens,
      the status stays, and a not-affected finding stays suppressed at R = 0. */
  lemma TelemetryOnlyConfirms(env: Sources, id: Identity)
    ensures var with_, without := Assess(env, id), Assess(WithoutTelemetry(env), id);
            && without.score.r <= with_.score.r
            && Urgency(without.decision) <= Urgency(with_.decision) && with_.slaHours <= without.slaHours
            && with_.status == without.status
            && (with_.enrichment.vex == NotAffected ==> with_.score.r == 0 && with_.status == Suppressed)
  {
    var enr := match env.lookup(id.vulnId) case Some(e) => e case None => UnknownEnrichment;
    var ctx := env.context(id.assetId);
    var r1 := ReachGate(enr.vex);
    var r2 := if env.hasData(id.assetId) && env.confirmed(id) && enr.vex == Unknown then 1.0 else r1;
    ScoreMonotone(enr, ctx, r1, enr, ctx, r2);
    DecisionMonotone(enr, ctx, r1, enr, ctx, r2);
    ZeroReach(enr, ctx);
  }

  // ----- what a finding says -----

  /** Reach by the vendor statement, raised to 1 where telemetry confirms an unknown one. */
  ghost predicate ReachIs(vex: VexStatus, confirmed: bool, reach: real) {
    match vex
    case Affected => reach == 1.0
    case NotAffected => reach == 0.0
    case Unknown => reach == if confirmed then 1.0 else 0.3
  }

  /** An assessment in full: feed data or the unknown default, the asset's own context, the
      exact reach, and suppression for not-affected findings alone. */
  lemma AssessExactly(env: Sources, id: Identity)
    ensures var a := Assess(env, id);
            && a.identity == id && a.context == env.context(id.assetId)
            && (env.lookup(id.vulnId).Some? ==> a.enrichment == env.lookup(id.vulnId).value)
            && (env.lookup(id.vulnId).None? ==> a.enrichment == Enrichment(None, None, false, NoExploit, Unknown))
            && ReachIs(a.enrichment.vex, env.hasData(id.assetId) && env.confirmed(id), a.score.explain.reach)
            && a.score.explain.runtimeReachable == (if env.hasData(id.assetId) then Some(env.confirmed(id)) else None)
            && a.score.r == RecomputeWithReach(a.enrichment, a.context, a.score.explain.reach).r
            && (a.decision, a.slaHours) == Decide(a.score.r, a.enrichment.kev, true, a.score.explain.reach)
            && (a.status == Suppressed <==> a.enrichment.vex == NotAffected)
            && (a.status == Open <==> a.enrichment.vex != NotAffected)
  {
    hide RecomputeWithReach, Decide;
    ReachKept(env, id);
  }

  lemma ReachKept(env: Sources, id: Identity)
    ensures forall enr, ctx, reach :: RecomputeWithReach(enr, ctx, reach).explain.reach == reach
  {
  }

  /** Every finding of a run whose vulnerability is known exploited, and not stated not
      affected, is to be acted on within 48 hours, whatever its score. */
  lemma KevAlwaysActs(env: Sources, ds: seq<RawDetection>, f: Finding)
    requires f in RunEngine(env, ds) && f.enrichment.kev && f.enrichment.vex != NotAffected
    ensures f.decision == Act && f.slaHours == 48
  {
    hide Assess, Decide, Group;
    var groups := Groups(ds, SortedIds(ds));
    var i :| 0 <= i < |groups| && f == ToFinding(env, groups[i]);
    AssessExactly(env, groups[i].identity);
    KevOverrides(f.score.r, f.score.explain.reach);
  }

  /** A finding of a run names the fix of the first most confident detection of its identity. */
  lemma FindingNamesFix(env: Sources, ds: seq<RawDetection>, f: Finding, k: nat)
    requires f in RunEngine(env, ds)
    requires k < |ds| && ds[k].identity == f.identity
    requires forall j :: 0 <= j < |ds| && ds[j].identity == f.identity ==> ds[j].confidence <= ds[k].confidence
    requires forall j :: 0 <= j < k && ds[j].identity == f.identity ==> ds[j].confidence < ds[k].confidence
    ensures f.fixKey == ds[k].fixKey
  {
    hide Group, With, SortBy, Assess;
    var groups := Groups(ds, SortedIds(ds));
    var i :| 0 <= i < |groups| && f == ToFinding(env, groups[i]);
    assert groups[i] == Group(ds, f.identity) by { GroupOfIdentity(ds, SortedIds(ds)[i]); }
    var n := MostConfidentInGroup(ds, f.identity, k);
    FixKeyIsMostConfident(ds, f.identity, n);
  }

  lemma GroupOfIdentity(ds: seq<RawDetection>, id: Identity)
    ensures Group(ds, id).identity == id
  {
  }

  lemma {:induction false} MostConfidentInGroup(ds: seq<RawDetection>, id: Identity, k: nat) returns (n: nat)
    requires k < |ds| && ds[k].identity == id
    requires forall j :: 0 <= j < |ds| && ds[j].identity == id ==> ds[j].confidence <= ds[k].confidence
    requires forall j :: 0 <= j < k && ds[j].identity == id ==> ds[j].confidence < ds[k].confidence
    ensures var group := With(IdentityOf, ds, id);
            && n < |group| && group[n] == ds[k]
            && (forall j :: 0 <= j < |group| ==> group[j].confidence <= ds[k].confidence)
            && (forall j :: 0 <= j < n ==> group[j].confidence < ds[k].confidence)
    decreases |ds|
  {
    var front := ds[..|ds| - 1];
    var group := With(IdentityOf, front, id);
    if k == |ds| - 1 {
      n := |group|;
      forall j | 0 <= j < |group| ensures group[j].confidence < ds[k].confidence {
        var i := FromBatch(front, id, j);
        assert ds[i] == front[i];
      }
    } else {
      assert forall j :: 0 <= j < |front| ==> front[j] == ds[j];
      n := MostConfidentInGroup(front, id, k);
    }
  }

  lemma {:induction false} FromBatch(ds: seq<RawDetection>, id: Identity, j: nat) returns (i: nat)
    requires j < |With(IdentityOf, ds, id)|
    ensures i < |ds| && ds[i] == With(IdentityOf, ds, id)[j] && ds[i].identity == id
    decreases |ds|
  {
    var front := ds[..|ds| - 1];
    if j < |With(IdentityOf, front, id)| {
      i := FromBatch(front, id, j);
      assert ds[i] == front[i];
    } else {
      i := |ds| - 1;
    }
  }
}
