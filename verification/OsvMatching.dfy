/**
 Range-aware advisory matching: the flag-flipping walk over range events, the index of
 advisory clauses by family and package name, and sources queried as one.
 The three version comparators are parameters; `DpkgVersion` has the Debian one.
 */
module OsvMatching {
  import opened Basics
  import opened Text

  datatype Ordering = Less | Equal | Greater

  type Comparator = (string, string) -> Option<Ordering>

  // ----- one range -----

  datatype OsvEvent = OsvEvent(introduced: Option<string>, fixed: Option<string>, lastAffected: Option<string>)

  /** `version` is confirmed to be at or after the introduction. */
  predicate Opens(cmp: Comparator, version: string, e: OsvEvent) {
    e.introduced.Some? &&
    (e.introduced.value == "0" ||
     (var o := cmp(version, e.introduced.value); o == Some(Equal) || o == Some(Greater)))
  }

  /** `version` is, or cannot be shown not to be, past a fix or past the last affected version. */
  predicate Closes(cmp: Comparator, version: string, e: OsvEvent) {
    || (e.fixed.Some? && cmp(version, e.fixed.value) != Some(Less))
    || (e.lastAffected.Some? &&
        (var o := cmp(version, e.lastAffected.value); o == None || o == Some(Greater)))
  }

  /** The flag after walking all events. */
  function Walk(cmp: Comparator, version: string, events: seq<OsvEvent>): bool
    decreases |events|
  {
    if events == [] then false
    else
      var e := events[|events| - 1];
      if Closes(cmp, version, e) then false
      else if Opens(cmp, version, e) then true
      else Walk(cmp, version, events[..|events| - 1])
  }

  method RangeAffects(cmp: Comparator, version: string, events: seq<OsvEvent>) returns (affected: bool)
    ensures affected == Walk(cmp, version, events)
  {
    affected := false;
    for i := 0 to |events|
      invariant affected == Walk(cmp, version, events[..i])
    {
      assert events[..i + 1][..i] == events[..i];
      var event := events[i];
      if event.introduced.Some? {
        if event.introduced.value == "0" {
          affected := true;
        } else {
          var o := cmp(version, event.introduced.value);
          if o.Some? && o.value != Less {
            affected := true;
          }
        }
      }
      if event.fixed.Some? {
        var o := cmp(version, event.fixed.value);
        if o.None? || o.value != Less {
          affected := false;
        }
      }
      if event.lastAffected.Some? {
        var o := cmp(version, event.lastAffected.value);
        if o.None? || o.value == Greater {
          affected := false;
        }
      }
    }
    assert events[..|events|] == events;
  }

  /** The comparator puts `version` at or behind the introduction, which "0" always is. */
  ghost predicate Reached(cmp: Comparator, version: string, e: OsvEvent) {
    && e.introduced.Some?
    && (|| e.introduced == Some("0")
        || cmp(version, e.introduced.value) == Some(Equal) || cmp(version, e.introduced.value) == Some(Greater))
  }

  /** It puts `version` before the fix, and not behind the last affected version. */
  ghost predicate NotPast(cmp: Comparator, version: string, e: OsvEvent) {
    && (e.fixed.Some? ==> cmp(version, e.fixed.value) == Some(Less))
    && (e.lastAffected.Some? ==>
          cmp(version, e.lastAffected.value) == Some(Less) || cmp(version, e.lastAffected.value) == Some(Equal))
  }

  /** For every event list and every comparator, partial ones included: affected exactly when
      some introduction is reached and neither its event nor any later one is passed. */
  lemma WalkIsLastEffective(cmp: Comparator, version: string, events: seq<OsvEvent>)
    ensures Walk(cmp, version, events) <==>
            exists i :: 0 <= i < |events| && Reached(cmp, version, events[i])
                        && forall j :: i <= j < |events| ==> NotPast(cmp, version, events[j])
  {
    hide Walk;
    forall e ensures (Opens(cmp, version, e) <==> Reached(cmp, version, e)) && (Closes(cmp, version, e) <==> !NotPast(cmp, version, e)) {
      FlagMeans(cmp, version, e);
    }
    WalkByFlags(cmp, version, events);
  }

  lemma FlagMeans(cmp: Comparator, version: string, e: OsvEvent)
    ensures Opens(cmp, version, e) <==> Reached(cmp, version, e)
    ensures Closes(cmp, version, e) <==> !NotPast(cmp, version, e)
  {
    if e.lastAffected.Some? {
      match cmp(version, e.lastAffected.value) {
        case Some(o) => assert o == Less || o == Equal || o == Greater;
        case None =>
      }
    }
  }

  lemma {:induction false} WalkByFlags(cmp: Comparator, version: string, events: seq<OsvEvent>)
    ensures Walk(cmp, version, events) <==>
            exists i :: 0 <= i < |events| && Opens(cmp, version, events[i])
                        && forall j :: i <= j < |events| ==> !Closes(cmp, version, events[j])
    decreases |events|
  {
    if events != [] {
      var before := events[..|events| - 1];
      WalkByFlags(cmp, version, before);
      var last := events[|events| - 1];
      if Walk(cmp, version, events) {
        if Opens(cmp, version, last) {
          assert forall j :: |events| - 1 <= j < |events| ==> !Closes(cmp, version, events[j]);
        } else {
          var i :| 0 <= i < |before| && Opens(cmp, version, before[i])
                   && forall j :: i <= j < |before| ==> !Closes(cmp, version, before[j]);
          forall j | i <= j < |events| ensures !Closes(cmp, version, events[j]) {
            if j < |before| { assert events[j] == before[j]; }
          }
          assert Opens(cmp, version, events[i]);
        }
      }
      if i :| 0 <= i < |events| && Opens(cmp, version, events[i])
              && forall j :: i <= j < |events| ==> !Closes(cmp, version, events[j]) {
        if i < |before| {
          assert before[i] == events[i];
          assert forall j :: i <= j < |before| ==> before[j] == events[j];
        }
      }
    }
  }

  // ----- intervals -----

  /** `cmp` orders the versions `vs`. */
  ghost predicate TotalPreorder(cmp: Comparator, vs: iset<string>) {
    && (forall a, b :: a in vs && b in vs ==> cmp(a, b).Some?)
    && (forall a, b :: a in vs && b in vs ==> (cmp(a, b) == Some(Less) <==> cmp(b, a) == Some(Greater)))
    && (forall a, b, c :: a in vs && b in vs && c in vs && cmp(a, b) != Some(Greater) && cmp(b, c) != Some(Greater) ==>
          cmp(a, c) != Some(Greater))
  }

  /** Exactly one of the three fields is present. */
  ghost predicate SingleField(e: OsvEvent) {
    || (e.introduced.Some? && e.fixed.None? && e.lastAffected.None?)
    || (e.introduced.None? && e.fixed.Some? && e.lastAffected.None?)
    || (e.introduced.None? && e.fixed.None? && e.lastAffected.Some?)
  }

  ghost function Bound(e: OsvEvent): string
    requires SingleField(e)
  {
    if e.introduced.Some? then e.introduced.value else if e.fixed.Some? then e.fixed.value else e.lastAffected.value
  }

  /** "From the beginning" stands before every version. */
  ghost predicate Earlier(cmp: Comparator, a: OsvEvent, b: OsvEvent)
    requires SingleField(a) && SingleField(b)
  {
    && b.introduced != Some("0")
    && (a.introduced == Some("0") || cmp(Bound(a), Bound(b)) == Some(Less))
  }

  /** Strictly ascending single-field events over the versions `vs`. */
  ghost predicate Ascending(cmp: Comparator, vs: iset<string>, events: seq<OsvEvent>) {
    && (forall i :: 0 <= i < |events| ==> SingleField(events[i]) && Bound(events[i]) in vs)
    && (forall i, j :: 0 <= i < j < |events| ==> Earlier(cmp, events[i], events[j]))
  }

  /** `j` is the first event after `i` that ends an interval. */
  ghost predicate EndsAt(events: seq<OsvEvent>, i: int, j: int) {
    && 0 <= i < j < |events| && events[j].introduced.None?
    && forall m :: i < m < j ==> events[m].introduced.Some?
  }

  /** `version` lies in [introduced, fixed), [introduced, last affected] or [introduced, oo). */
  ghost predicate InInterval(cmp: Comparator, version: string, events: seq<OsvEvent>, i: int) {
    && 0 <= i < |events| && LowerBound(cmp, version, events[i])
    && (forall j :: EndsAt(events, i, j) ==>
          && (events[j].fixed.Some? ==> cmp(version, events[j].fixed.value) == Some(Less))
          && (events[j].lastAffected.Some? ==> cmp(version, events[j].lastAffected.value) != Some(Greater)))
  }

  /** The introduction is not behind `version`. */
  ghost predicate LowerBound(cmp: Comparator, version: string, e: OsvEvent) {
    && e.introduced.Some?
    && (e.introduced == Some("0") || cmp(e.introduced.value, version) != Some(Greater))
  }

  lemma OpensAtBound(cmp: Comparator, vs: iset<string>, version: string, e: OsvEvent)
    requires TotalPreorder(cmp, vs) && version in vs && SingleField(e) && Bound(e) in vs
    ensures Opens(cmp, version, e) <==> LowerBound(cmp, version, e)
  {
    if e.introduced.Some? {
      var b := e.introduced.value;
      assert cmp(version, b).Some? && (cmp(version, b) == Some(Less) <==> cmp(b, version) == Some(Greater));
      var o := cmp(version, b).value;
      assert o == Less || o == Equal || o == Greater;
    }
  }

  lemma FirstEnd(events: seq<OsvEvent>, i: int, k: int) returns (j: int)
    requires 0 <= i < k < |events| && events[k].introduced.None?
    ensures EndsAt(events, i, j) && j <= k
  {
    j := i + 1;
    while events[j].introduced.Some?
      invariant i < j <= k && forall m :: i < m < j ==> events[m].introduced.Some?
      decreases k - j
    {
      j := j + 1;
    }
  }

  /** Past the end of its interval no later event of an ascending list can close it. */
  lemma NoLaterClose(cmp: Comparator, vs: iset<string>, version: string, events: seq<OsvEvent>, i: int, k: int)
    requires TotalPreorder(cmp, vs) && version in vs && Ascending(cmp, vs, events)
    requires InInterval(cmp, version, events, i)
    requires i <= k < |events|
    ensures !Closes(cmp, version, events[k])
  {
    assert SingleField(events[i]) && SingleField(events[k]);
    if k > i && events[k].introduced.None? {
      var j := FirstEnd(events, i, k);
      assert SingleField(events[j]);
      if j < k {
        assert Earlier(cmp, events[j], events[k]);
        assert cmp(version, Bound(events[j])) != Some(Greater);
        StrictlyBelow(cmp, vs, version, Bound(events[j]), Bound(events[k]));
      }
    }
  }

  lemma StrictlyBelow(cmp: Comparator, vs: iset<string>, a: string, b: string, c: string)
    requires TotalPreorder(cmp, vs) && a in vs && b in vs && c in vs
    requires cmp(a, b) != Some(Greater) && cmp(b, c) == Some(Less)
    ensures cmp(a, c) == Some(Less)
  {
    assert cmp(c, b) == Some(Greater);
    assert cmp(c, a).Some? && cmp(a, c).Some?;
  }

  /**
   For any total preorder on any set of versions and any strictly ascending list of
   single-field events over them the walk is membership in the union of the intervals the
   events describe.
   */
  lemma WalkIsIntervalMembership(cmp: Comparator, vs: iset<string>, version: string, events: seq<OsvEvent>)
    requires TotalPreorder(cmp, vs) && version in vs && Ascending(cmp, vs, events)
    ensures Walk(cmp, version, events) <==> exists i :: InInterval(cmp, version, events, i)
  {
    hide Walk, Opens;
    WalkByFlags(cmp, version, events);
    forall i | 0 <= i < |events| ensures Opens(cmp, version, events[i]) <==> LowerBound(cmp, version, events[i]) {
      assert SingleField(events[i]);
      OpensAtBound(cmp, vs, version, events[i]);
    }
    if Walk(cmp, version, events) {
      var i :| 0 <= i < |events| && Opens(cmp, version, events[i])
               && forall j :: i <= j < |events| ==> !Closes(cmp, version, events[j]);
      forall j | EndsAt(events, i, j)
        ensures events[j].fixed.Some? ==> cmp(version, events[j].fixed.value) == Some(Less)
        ensures events[j].lastAffected.Some? ==> cmp(version, events[j].lastAffected.value) != Some(Greater)
      {
        assert !Closes(cmp, version, events[j]);
      }
      assert InInterval(cmp, version, events, i);
    }
    if i :| InInterval(cmp, version, events, i) {
      forall k | i <= k < |events| ensures !Closes(cmp, version, events[k]) {
        NoLaterClose(cmp, vs, version, events, i, k);
      }
    }
  }

  // ----- advisories -----

  datatype Family = Debian | Ubuntu | Rpm | Other

  datatype OsvRange = OsvRange(kind: string, events: seq<OsvEvent>)
  datatype OsvAffected = OsvAffected(ecosystem: string, name: string, ranges: seq<OsvRange>, versions: seq<string>)
  datatype OsvRecord = OsvRecord(id: string, affected: seq<OsvAffected>)

  /** One clause of one advisory. */
  datatype Clause = Clause(id: string, family: Family, name: string, ranges: seq<OsvRange>, versions: seq<string>)

  datatype CveHit = CveHit(name: string, version: string, vulnId: string, remediationKey: string)

  datatype Comparators = Comparators(dpkg: Comparator, rpm: Comparator, semver: Comparator)

  function FamilyOf(ecosystem: string): Family {
    var base := Trim(Before(ecosystem, ':'));
    if base == "Debian" then Debian
    else if base == "Ubuntu" then Ubuntu
    else if base in {"Red Hat", "Rocky Linux", "AlmaLinux", "CentOS", "Oracle Linux", "SUSE", "openSUSE", "Mageia"} then Rpm
    else Other
  }

  function SourceFamilies(source: string, os: string): seq<Family> {
    if source == "dpkg" then
      var l := Lower(os);
      if Contains(l, "ubuntu") then [Ubuntu]
      else if Contains(l, "debian") then [Debian]
      else [Debian, Ubuntu]
    else if source == "rpm" then [Rpm]
    else []
  }

  function EcosystemComparator(c: Comparators, f: Family): Comparator {
    match f case Debian => c.dpkg case Ubuntu => c.dpkg case Rpm => c.rpm case Other => c.semver
  }

  function ComparatorOf(c: Comparators, f: Family, kind: string): Comparator {
    if kind == "SEMVER" then c.semver else EcosystemComparator(c, f)
  }

  predicate Comparable(kind: string) { kind == "SEMVER" || kind == "ECOSYSTEM" }

  /** Listed exactly, or inside one of the comparable ranges. */
  predicate Matches(c: Comparators, cl: Clause, version: string) {
    || version in cl.versions
    || exists i :: 0 <= i < |cl.ranges| && Comparable(cl.ranges[i].kind)
                   && Walk(ComparatorOf(c, cl.family, cl.ranges[i].kind), version, cl.ranges[i].events)
  }

  method AffectedMatches(c: Comparators, cl: Clause, version: string) returns (hit: bool)
    ensures hit == Matches(c, cl, version)
  {
    if version in cl.versions {
      return true;
    }
    for i := 0 to |cl.ranges|
      invariant forall k :: 0 <= k < i ==>
                  !(Comparable(cl.ranges[k].kind)
                    && Walk(ComparatorOf(c, cl.family, cl.ranges[k].kind), version, cl.ranges[k].events))
    {
      if Comparable(cl.ranges[i].kind) {
        var affected := RangeAffects(ComparatorOf(c, cl.family, cl.ranges[i].kind), version, cl.ranges[i].events);
        if affected {
          return true;
        }
      }
    }
    return false;
  }

  function FirstFixIn(events: seq<OsvEvent>): Option<string> {
    if events == [] then None
    else if events[0].fixed.Some? then events[0].fixed
    else FirstFixIn(events[1..])
  }

  function FirstFix(ranges: seq<OsvRange>): Option<string> {
    if ranges == [] then None
    else if FirstFixIn(ranges[0].events).Some? then FirstFixIn(ranges[0].events)
    else FirstFix(ranges[1..])
  }

  function RemediationKey(name: string, cl: Clause): string {
    match FirstFix(cl.ranges)
    case Some(fix) => "upgrade:" + name + ">=" + fix
    case None => "patch:" + name + ":" + cl.id
  }

  // ----- the index -----

  function ClausesOf(id: string, affected: seq<OsvAffected>): seq<Clause> {
    if affected == [] then []
    else
      var a := affected[0];
      [Clause(id, FamilyOf(a.ecosystem), a.name, a.ranges, a.versions)] + ClausesOf(id, affected[1..])
  }

  /** All clauses of all records, in order. */
  function Clauses(records: seq<OsvRecord>): seq<Clause> {
    if records == [] then [] else ClausesOf(records[0].id, records[0].affected) + Clauses(records[1..])
  }

  type IndexKey = (Family, string)
  type Index = map<IndexKey, seq<Clause>>

  function Select(all: seq<Clause>, key: IndexKey): seq<Clause> {
    if all == [] then []
    else if (all[0].family, all[0].name) == key then [all[0]] + Select(all[1..], key)
    else Select(all[1..], key)
  }

  function Lookup(index: Index, key: IndexKey): seq<Clause> { if key in index then index[key] else [] }

  lemma {:induction false} SelectConcat(a: seq<Clause>, b: seq<Clause>, key: IndexKey)
    ensures Select(a + b, key) == Select(a, key) + Select(b, key)
  {
    if a == [] {
      assert a + b == b;
    } else {
      assert (a + b)[1..] == a[1..] + b;
      SelectConcat(a[1..], b, key);
    }
  }

  lemma {:induction false} ClausesAppend(records: seq<OsvRecord>, r: OsvRecord)
    ensures Clauses(records + [r]) == Clauses(records) + ClausesOf(r.id, r.affected)
  {
    if records == [] {
      assert records + [r] == [r];
      assert Clauses([r]) == ClausesOf(r.id, r.affected) + Clauses([]);
    } else {
      assert (records + [r])[1..] == records[1..] + [r];
      ClausesAppend(records[1..], r);
    }
  }

  lemma {:induction false} ClausesOfAppend(id: string, affected: seq<OsvAffected>, a: OsvAffected)
    ensures ClausesOf(id, affected + [a]) ==
            ClausesOf(id, affected) + [Clause(id, FamilyOf(a.ecosystem), a.name, a.ranges, a.versions)]
  {
    if affected == [] {
      assert affected + [a] == [a];
    } else {
      assert (affected + [a])[1..] == affected[1..] + [a];
      ClausesOfAppend(id, affected[1..], a);
    }
  }

  /** The index answers every key with the matching clauses of a flat list. */
  ghost predicate Indexes(index: Index, all: seq<Clause>) {
    forall key :: Lookup(index, key) == Select(all, key)
  }

  lemma IndexPush(index: Index, all: seq<Clause>, cl: Clause)
    requires Indexes(index, all)
    ensures var key := (cl.family, cl.name); Indexes(index[key := Lookup(index, key) + [cl]], all + [cl])
  {
    forall k ensures Lookup(index[(cl.family, cl.name) := Lookup(index, (cl.family, cl.name)) + [cl]], k) == Select(all + [cl], k) {
      SelectConcat(all, [cl], k);
      assert Lookup(index, k) == Select(all, k);
    }
  }

  method IndexRecord(index: Index, record: OsvRecord, ghost all: seq<Clause>) returns (built: Index)
    requires Indexes(index, all)
    ensures Indexes(built, all + ClausesOf(record.id, record.affected))
  {
    hide Indexes;
    built := index;
    ghost var now := all;
    for a := 0 to |record.affected|
      invariant now == all + ClausesOf(record.id, record.affected[..a]) && Indexes(built, now)
    {
      var affected := record.affected[a];
      var key := (FamilyOf(affected.ecosystem), affected.name);
      var cl := Clause(record.id, key.0, affected.name, affected.ranges, affected.versions);
      IndexPush(built, now, cl);
      ClausesOfAppend(record.id, record.affected[..a], affected);
      assert record.affected[..a + 1] == record.affected[..a] + [affected];
      built := built[key := Lookup(built, key) + [cl]];
      now := now + [cl];
    }
    assert record.affected[..|record.affected|] == record.affected;
  }

  class OsvSource {
    const comparators: Comparators
    var index: Index

    constructor (comparators: Comparators, records: seq<OsvRecord>)
      ensures this.comparators == comparators && Indexes(index, Clauses(records))
    {
      this.comparators := comparators;
      var built: Index := map[];
      ghost var all: seq<Clause> := [];
      for r := 0 to |records|
        invariant all == Clauses(records[..r]) && Indexes(built, all)
      {
        built := IndexRecord(built, records[r], all);
        ClausesAppend(records[..r], records[r]);
        assert records[..r + 1] == records[..r] + [records[r]];
        all := all + ClausesOf(records[r].id, records[r].affected);
      }
      assert records[..|records|] == records;
      index := built;
    }

    /** Goes over the entries of one family. */
    method ScanEntries(entries: seq<Clause>, name: string, version: string, seen: seq<string>)
      returns (hits: seq<CveHit>, seen': seq<string>)
      ensures hits == Collect(comparators, entries, name, version, seen)
      ensures seen' == seen + Used(hits)
    {
      hide Matches, RemediationKey;
      hits, seen' := [], seen;
      ghost var whole := Collect(comparators, entries, name, version, seen);
      assert entries[0..] == entries && seen + Used([]) == seen && hits + whole == whole;
      for e := 0 to |entries|
        invariant whole == hits + Collect(comparators, entries[e..], name, version, seen')
        invariant seen' == seen + Used(hits)
      {
        var entry := entries[e];
        assert entries[e..][0] == entry && entries[e..][1..] == entries[e + 1..];
        if entry.id !in seen' {
          var matching := AffectedMatches(comparators, entry, version);
          if matching {
            var hit := CveHit(name, version, entry.id, RemediationKey(name, entry));
            ghost var tail := Collect(comparators, entries[e + 1..], name, version, seen' + [entry.id]);
            assert hits + ([hit] + tail) == (hits + [hit]) + tail;
            UsedAppend(hits, hit);
            hits, seen' := hits + [hit], seen' + [entry.id];
          }
        }
      }
    }

    method HitsFor(source: string, os: string, name: string, version: string, ghost records: seq<OsvRecord>)
      returns (hits: seq<CveHit>)
      requires Indexes(index, Clauses(records))
      ensures hits == FlatHits(comparators, records, source, os, name, version)
    {
      hide Collect, Clauses, Select;
      hits := [];
      var seen: seq<string> := [];
      var families := SourceFamilies(source, os);
      ghost var all := Clauses(records);
      ghost var whole := Collect(comparators, Candidates(all, families, name), name, version, []);
      assert families[0..] == families && hits + whole == whole;
      for f := 0 to |families|
        invariant whole == hits + Collect(comparators, Candidates(all, families[f..], name), name, version, seen)
      {
        ghost var later := Candidates(all, families[f + 1..], name);
        assert families[f..][1..] == families[f + 1..];
        var entries := Lookup(index, (families[f], name));
        assert Candidates(all, families[f..], name) == entries + later;
        CollectConcat(comparators, entries, later, name, version, seen);
        var found;
        ghost var before := seen;
        found, seen := ScanEntries(entries, name, version, seen);
        assert hits + (found + Collect(comparators, later, name, version, seen)) ==
               (hits + found) + Collect(comparators, later, name, version, seen);
        hits := hits + found;
      }
      CollectNothing(comparators, name, version, seen);
    }
  }

  lemma UsedAppend(hits: seq<CveHit>, h: CveHit)
    ensures Used(hits + [h]) == Used(hits) + [h.vulnId]
  {
    if hits == [] {
      assert hits + [h] == [h];
    } else {
      assert (hits + [h])[1..] == hits[1..] + [h];
      UsedAppend(hits[1..], h);
    }
  }

  lemma CollectNothing(c: Comparators, name: string, version: string, seen: seq<string>)
    ensures Collect(c, [], name, version, seen) == []
  {
  }

  /** The clauses to consider, family by family, each in record order. */
  function Candidates(all: seq<Clause>, families: seq<Family>, name: string): seq<Clause> {
    if families == [] then [] else Select(all, (families[0], name)) + Candidates(all, families[1..], name)
  }

  /** One hit per id, made from its first matching clause. */
  function Collect(c: Comparators, candidates: seq<Clause>, name: string, version: string, seen: seq<string>): seq<CveHit>
    decreases |candidates|
  {
    if candidates == [] then []
    else
      var cl := candidates[0];
      if cl.id in seen || !Matches(c, cl, version) then Collect(c, candidates[1..], name, version, seen)
      else [CveHit(name, version, cl.id, RemediationKey(name, cl))]
           + Collect(c, candidates[1..], name, version, seen + [cl.id])
  }

  /** The answer a scan of all records without an index would give. */
  function FlatHits(c: Comparators, records: seq<OsvRecord>, source: string, os: string, name: string, version: string)
    : seq<CveHit>
  {
    Collect(c, Candidates(Clauses(records), SourceFamilies(source, os), name), name, version, [])
  }

  // ----- what the answer contains -----

  ghost predicate DistinctIds(hits: seq<CveHit>) {
    forall i, j :: 0 <= i < j < |hits| ==> hits[i].vulnId != hits[j].vulnId
  }

  /** `i` is the first candidate with this id that matches. */
  ghost predicate FirstMatch(c: Comparators, candidates: seq<Clause>, version: string, id: string, i: int) {
    && 0 <= i < |candidates| && candidates[i].id == id && Matches(c, candidates[i], version)
    && forall j :: 0 <= j < i ==> candidates[j].id != id || !Matches(c, candidates[j], version)
  }

  ghost predicate FromFirstMatch(c: Comparators, candidates: seq<Clause>, name: string, version: string, h: CveHit) {
    exists i :: FirstMatch(c, candidates, version, h.vulnId, i)
                && h == CveHit(name, version, h.vulnId, RemediationKey(name, candidates[i]))
  }

  /** Every id with a matching candidate not seen before is hit exactly once, from its first matching clause. */
  lemma {:induction false} CollectExact(c: Comparators, candidates: seq<Clause>, name: string, version: string, seen: seq<string>)
    ensures var hits := Collect(c, candidates, name, version, seen);
            && DistinctIds(hits)
            && (forall h :: h in hits <==> h.vulnId !in seen && FromFirstMatch(c, candidates, name, version, h))
    decreases |candidates|
  {
    hide Matches, RemediationKey;
    if candidates != [] {
      var cl, rest := candidates[0], candidates[1..];
      var take := cl.id !in seen && Matches(c, cl, version);
      var seen' := if take then seen + [cl.id] else seen;
      CollectExact(c, rest, name, version, seen');
      var hits, tail := Collect(c, candidates, name, version, seen), Collect(c, rest, name, version, seen');
      forall h ensures h in hits <==> h.vulnId !in seen && FromFirstMatch(c, candidates, name, version, h) {
        FirstMatchShift(c, candidates, version, h.vulnId);
        if h in hits {
          if take && h == hits[0] {
            assert FirstMatch(c, candidates, version, h.vulnId, 0);
          } else {
            assert h in tail;
            var i :| FirstMatch(c, rest, version, h.vulnId, i)
                     && h == CveHit(name, version, h.vulnId, RemediationKey(name, rest[i]));
            assert FirstMatch(c, candidates, version, h.vulnId, i + 1);
          }
        }
        if h.vulnId !in seen {
          if i :| FirstMatch(c, candidates, version, h.vulnId, i)
                  && h == CveHit(name, version, h.vulnId, RemediationKey(name, candidates[i])) {
            if i == 0 {
              assert hits[0] == h;
            } else {
              assert FirstMatch(c, rest, version, h.vulnId, i - 1);
              assert h in tail;
            }
          }
        }
      }
    }
  }

  lemma FirstMatchShift(c: Comparators, candidates: seq<Clause>, version: string, id: string)
    requires candidates != []
    ensures forall i :: FirstMatch(c, candidates[1..], version, id, i)
                        && !(candidates[0].id == id && Matches(c, candidates[0], version)) ==>
                        FirstMatch(c, candidates, version, id, i + 1)
    ensures forall i :: i > 0 && FirstMatch(c, candidates, version, id, i) ==>
                        FirstMatch(c, candidates[1..], version, id, i - 1)
  {
    hide Matches;
    forall i | i > 0 && FirstMatch(c, candidates, version, id, i) ensures FirstMatch(c, candidates[1..], version, id, i - 1) {
      forall j | 0 <= j < i - 1 ensures candidates[1..][j].id != id || !Matches(c, candidates[1..][j], version) {
        assert candidates[1..][j] == candidates[j + 1];
      }
    }
    forall i | FirstMatch(c, candidates[1..], version, id, i) && !(candidates[0].id == id && Matches(c, candidates[0], version))
      ensures FirstMatch(c, candidates, version, id, i + 1)
    {
      forall j | 0 <= j < i + 1 ensures candidates[j].id != id || !Matches(c, candidates[j], version) {
        if j > 0 { assert candidates[j] == candidates[1..][j - 1]; }
      }
    }
  }

  // ----- advisories that come later, or do not concern this host -----

  /** The ids a collection has used up. */
  function Used(hits: seq<CveHit>): seq<string> {
    if hits == [] then [] else [hits[0].vulnId] + Used(hits[1..])
  }

  lemma {:induction false} CollectConcat(c: Comparators, a: seq<Clause>, b: seq<Clause>, name: string, version: string, seen: seq<string>)
    ensures var first := Collect(c, a, name, version, seen);
            Collect(c, a + b, name, version, seen) == first + Collect(c, b, name, version, seen + Used(first))
    decreases |a|
  {
    hide Matches, RemediationKey;
    if a == [] {
      assert a + b == b && seen + Used([]) == seen;
    } else {
      assert (a + b)[1..] == a[1..] + b;
      var take := a[0].id !in seen && Matches(c, a[0], version);
      var seen' := if take then seen + [a[0].id] else seen;
      CollectConcat(c, a[1..], b, name, version, seen');
      if take {
        var tail := Collect(c, a[1..], name, version, seen');
        assert seen + Used([CveHit(name, version, a[0].id, RemediationKey(name, a[0]))] + tail) == seen' + Used(tail);
      }
    }
  }

  lemma {:induction false} ClausesConcat(a: seq<OsvRecord>, b: seq<OsvRecord>)
    ensures Clauses(a + b) == Clauses(a) + Clauses(b)
  {
    if a == [] {
      assert a + b == b;
    } else {
      assert (a + b)[1..] == a[1..] + b;
      ClausesConcat(a[1..], b);
    }
  }

  /** On a host whose distribution is known, advisories added later only add hits at the end. */
  lemma AppendOnlyAdds(c: Comparators, records: seq<OsvRecord>, more: seq<OsvRecord>, source: string, os: string, name: string, version: string)
    requires |SourceFamilies(source, os)| <= 1
    ensures FlatHits(c, records, source, os, name, version) <= FlatHits(c, records + more, source, os, name, version)
  {
    var families := SourceFamilies(source, os);
    if families != [] {
      var key := (families[0], name);
      ClausesConcat(records, more);
      SelectConcat(Clauses(records), Clauses(more), key);
      var a, b := Select(Clauses(records), key), Select(Clauses(more), key);
      CollectConcat(c, a, b, name, version, []);
      assert families[1..] == [];
      forall all ensures Candidates(all, families, name) == Select(all, key) {
        assert Candidates(all, families[1..], name) == [];
      }
    }
  }

  lemma FirstMatchConcat(c: Comparators, a: seq<Clause>, b: seq<Clause>, version: string, id: string, i: int)
    ensures FirstMatch(c, a, version, id, i) ==> FirstMatch(c, a + b, version, id, i)
    ensures FirstMatch(c, b, version, id, i) && !(exists k :: FirstMatch(c, a, version, id, k)) ==>
              FirstMatch(c, a + b, version, id, |a| + i)
  {
    hide Matches;
    if FirstMatch(c, b, version, id, i) && !(exists k :: FirstMatch(c, a, version, id, k)) {
      NoFirstMatch(c, a, version, id, |a|);
      forall j | 0 <= j < |a| + i ensures (a + b)[j].id != id || !Matches(c, (a + b)[j], version) {
        if j >= |a| { assert (a + b)[j] == b[j - |a|]; }
      }
    }
  }

  lemma {:induction false} NoFirstMatch(c: Comparators, a: seq<Clause>, version: string, id: string, n: nat)
    requires n <= |a| && !(exists k :: FirstMatch(c, a, version, id, k))
    ensures forall j :: 0 <= j < n ==> a[j].id != id || !Matches(c, a[j], version)
  {
    hide Matches;
    if n > 0 {
      NoFirstMatch(c, a, version, id, n - 1);
      assert !FirstMatch(c, a, version, id, n - 1);
    }
  }

  lemma FirstMatchUnique(c: Comparators, a: seq<Clause>, version: string, id: string, i: int, j: int)
    requires FirstMatch(c, a, version, id, i) && FirstMatch(c, a, version, id, j)
    ensures i == j
  {
  }

  /** The part of the candidate list in front decides, if it decides at all. */
  lemma FirstOfConcat(c: Comparators, a: seq<Clause>, b: seq<Clause>, name: string, version: string, h: CveHit)
    ensures FromFirstMatch(c, a + b, name, version, h) <==>
              if exists k :: FirstMatch(c, a, version, h.vulnId, k) then FromFirstMatch(c, a, name, version, h)
              else FromFirstMatch(c, b, name, version, h)
  {
    hide Matches, FirstMatch, RemediationKey;
    if k :| FirstMatch(c, a, version, h.vulnId, k) {
      FirstMatchConcat(c, a, b, version, h.vulnId, k);
      InRange(c, a, version, h.vulnId, k);
      if i :| FirstMatch(c, a + b, version, h.vulnId, i) { FirstMatchUnique(c, a + b, version, h.vulnId, i, k); }
      if i :| FirstMatch(c, a, version, h.vulnId, i) { FirstMatchUnique(c, a, version, h.vulnId, i, k); }
      forall i | FirstMatch(c, a + b, version, h.vulnId, i) ensures i == k { FirstMatchUnique(c, a + b, version, h.vulnId, i, k); }
      forall i | FirstMatch(c, a, version, h.vulnId, i) ensures i == k { FirstMatchUnique(c, a, version, h.vulnId, i, k); }
      assert (a + b)[k] == a[k];
    } else {
      forall i | FirstMatch(c, b, version, h.vulnId, i)
        ensures FirstMatch(c, a + b, version, h.vulnId, |a| + i) && 0 <= i < |b| && (a + b)[|a| + i] == b[i]
      {
        FirstMatchConcat(c, a, b, version, h.vulnId, i);
        InRange(c, b, version, h.vulnId, i);
      }
      forall i | FirstMatch(c, a + b, version, h.vulnId, i)
        ensures FirstMatch(c, b, version, h.vulnId, i - |a|) && 0 <= i - |a| < |b| && (a + b)[i] == b[i - |a|]
      {
        FirstMatchBehind(c, a, b, version, h.vulnId, i);
      }
    }
  }

  lemma InRange(c: Comparators, a: seq<Clause>, version: string, id: string, i: int)
    requires FirstMatch(c, a, version, id, i)
    ensures 0 <= i < |a|
  {
  }

  lemma FirstMatchBehind(c: Comparators, a: seq<Clause>, b: seq<Clause>, version: string, id: string, i: int)
    requires FirstMatch(c, a + b, version, id, i) && !(exists k :: FirstMatch(c, a, version, id, k))
    ensures |a| <= i < |a| + |b| && FirstMatch(c, b, version, id, i - |a|)
  {
    hide Matches;
    NoFirstMatch(c, a, version, id, |a|);
    forall j | 0 <= j < i - |a| ensures b[j].id != id || !Matches(c, b[j], version) {
      assert (a + b)[|a| + j] == b[j];
    }
  }

  /**
   On a host of unknown distribution both dpkg families are searched, Debian first. A hit
   then survives added advisories exactly when a Debian clause already made it, or the
   first matching Debian clause added under its id, if any, has the same fix key.
   */
  lemma FallbackKeepsHit(c: Comparators, records: seq<OsvRecord>, more: seq<OsvRecord>, source: string, os: string,
                         name: string, version: string, h: CveHit)
    requires SourceFamilies(source, os) == [Debian, Ubuntu]
    requires h in FlatHits(c, records, source, os, name, version)
    ensures var debian, added := Select(Clauses(records), (Debian, name)), Select(Clauses(more), (Debian, name));
            h in FlatHits(c, records + more, source, os, name, version) <==>
              || (exists i :: FirstMatch(c, debian, version, h.vulnId, i))
              || !(exists i :: FirstMatch(c, added, version, h.vulnId, i))
              || FromFirstMatch(c, added, name, version, h)
  {
    hide Collect, Matches, FirstMatch, FromFirstMatch, Select, Clauses, Candidates, DistinctIds;
    var old_, new_ := Clauses(records), Clauses(more);
    ClausesConcat(records, more);
    SelectConcat(old_, new_, (Debian, name));
    SelectConcat(old_, new_, (Ubuntu, name));
    var d, d', u, u' := Select(old_, (Debian, name)), Select(new_, (Debian, name)), Select(old_, (Ubuntu, name)), Select(new_, (Ubuntu, name));
    TwoFamilies(old_, name);
    TwoFamilies(old_ + new_, name);
    CollectExact(c, d + u, name, version, []);
    CollectExact(c, (d + d') + (u + u'), name, version, []);
    FirstOfFour(c, d, d', u, u', name, version, h);
  }

  ghost predicate HasMatch(c: Comparators, a: seq<Clause>, version: string, id: string) {
    exists k :: FirstMatch(c, a, version, id, k)
  }

  lemma FirstOfTwo(c: Comparators, a: seq<Clause>, b: seq<Clause>, name: string, version: string, h: CveHit)
    ensures FromFirstMatch(c, a + b, name, version, h) <==>
            if HasMatch(c, a, version, h.vulnId) then FromFirstMatch(c, a, name, version, h)
            else FromFirstMatch(c, b, name, version, h)
    ensures FromFirstMatch(c, a, name, version, h) ==> HasMatch(c, a, version, h.vulnId)
  {
    hide FirstMatch, FromFirstMatch;
    FirstOfConcat(c, a, b, name, version, h);
    if FromFirstMatch(c, a, name, version, h) { FromImpliesFirst(c, a, name, version, h); }
  }

  /** A hit of two lists survives lists put behind each of them. */
  lemma FirstOfFour(c: Comparators, d: seq<Clause>, d': seq<Clause>, u: seq<Clause>, u': seq<Clause>,
                    name: string, version: string, h: CveHit)
    requires FromFirstMatch(c, d + u, name, version, h)
    ensures FromFirstMatch(c, (d + d') + (u + u'), name, version, h) <==>
            || (exists i :: FirstMatch(c, d, version, h.vulnId, i))
            || !(exists i :: FirstMatch(c, d', version, h.vulnId, i))
            || FromFirstMatch(c, d', name, version, h)
  {
    hide FirstMatch, FromFirstMatch;
    assert (d + d') + (u + u') == d + (d' + (u + u'));
    FirstOfTwo(c, d, u, name, version, h);
    FirstOfTwo(c, d, d' + (u + u'), name, version, h);
    FirstOfTwo(c, d', u + u', name, version, h);
    FirstOfTwo(c, u, u', name, version, h);
    assert HasMatch(c, d, version, h.vulnId) <==> exists i :: FirstMatch(c, d, version, h.vulnId, i);
    assert HasMatch(c, d', version, h.vulnId) <==> exists i :: FirstMatch(c, d', version, h.vulnId, i);
    hide HasMatch;
  }

  /** An advisory with one clause that lists the version and names a fix. */
  function Listing(id: string, ecosystem: string, name: string, version: string, fix: string): OsvRecord {
    OsvRecord(id, [OsvAffected(ecosystem, name, [OsvRange("ECOSYSTEM", [OsvEvent(None, Some(fix), None)])], [version])])
  }

  lemma ListingClauses(id: string, ecosystem: string, name: string, version: string, fix: string)
    ensures var cl := Clause(id, FamilyOf(ecosystem), name, [OsvRange("ECOSYSTEM", [OsvEvent(None, Some(fix), None)])], [version]);
            && Clauses([Listing(id, ecosystem, name, version, fix)]) == [cl]
            && RemediationKey(name, cl) == "upgrade:" + name + ">=" + fix
  {
    var r := Listing(id, ecosystem, name, version, fix);
    assert [r][1..] == [] && r.affected[1..] == [];
    assert ClausesOf(id, r.affected[1..]) == [] && Clauses([r][1..]) == [];
  }

  /**
   The fallback does change a hit: an Ubuntu advisory made it, and an appended Debian
   advisory of the same id with another fix takes its place.
   */
  lemma FallbackChangesHit(c: Comparators, source: string, os: string, debian: string, ubuntu: string, id: string,
                           name: string, version: string, fix: string, other: string)
    requires SourceFamilies(source, os) == [Debian, Ubuntu] && FamilyOf(debian) == Debian && FamilyOf(ubuntu) == Ubuntu
    requires fix != other
    ensures var records, more := [Listing(id, ubuntu, name, version, fix)], [Listing(id, debian, name, version, other)];
            var h := CveHit(name, version, id, "upgrade:" + name + ">=" + fix);
            && h in FlatHits(c, records, source, os, name, version)
            && h !in FlatHits(c, records + more, source, os, name, version)
  {
    hide FamilyOf, SourceFamilies, Listing, Clauses, RemediationKey, Matches;
    var records, more := [Listing(id, ubuntu, name, version, fix)], [Listing(id, debian, name, version, other)];
    ListingClauses(id, ubuntu, name, version, fix);
    ListingClauses(id, debian, name, version, other);
    var u, d := Clauses(records)[0], Clauses(more)[0];
    var prefix := "upgrade:" + name + ">=";
    var h := CveHit(name, version, id, prefix + fix);
    assert (prefix + fix)[|prefix|..] == fix && (prefix + other)[|prefix|..] == other;
    assert [u][1..] == [] && [d][1..] == [] && Select([], (Ubuntu, name)) == [] && Select([], (Debian, name)) == [];
    assert Select([u], (Debian, name)) == [] && Select([u], (Ubuntu, name)) == [u] && Select([d], (Debian, name)) == [d];
    ListedMatches(c, u, version);
    ListedMatches(c, d, version);
    TwoFamilies([u], name);
    assert Collect(c, [u], name, version, []) == [h] + Collect(c, [u][1..], name, version, [] + [id]);
    assert h in FlatHits(c, records, source, os, name, version);
    FallbackKeepsHit(c, records, more, source, os, name, version, h);
    assert FirstMatch(c, [d], version, id, 0);
  }

  lemma ListedMatches(c: Comparators, cl: Clause, version: string)
    requires version in cl.versions
    ensures Matches(c, cl, version)
  {
  }

  lemma FromImpliesFirst(c: Comparators, a: seq<Clause>, name: string, version: string, h: CveHit)
    requires FromFirstMatch(c, a, name, version, h)
    ensures exists k :: FirstMatch(c, a, version, h.vulnId, k)
  {
    hide FirstMatch;
  }

  lemma TwoFamilies(all: seq<Clause>, name: string)
    ensures Candidates(all, [Debian, Ubuntu], name) == Select(all, (Debian, name)) + Select(all, (Ubuntu, name))
  {
    hide Select;
    var families := [Debian, Ubuntu];
    assert families[1..] == [Ubuntu] && families[1..][1..] == [];
    assert Candidates(all, [Ubuntu], name) == Select(all, (Ubuntu, name)) + [];
  }

  /** A record with no clause for this package in the searched families changes nothing,
      wherever it stands among the records. */
  lemma OtherFamiliesIrrelevant(c: Comparators, a: seq<OsvRecord>, r: OsvRecord, b: seq<OsvRecord>, source: string, os: string, name: string, version: string)
    requires forall cl :: cl in ClausesOf(r.id, r.affected) ==> cl.family !in SourceFamilies(source, os) || cl.name != name
    ensures FlatHits(c, a + [r] + b, source, os, name, version) == FlatHits(c, a + b, source, os, name, version)
  {
    var families := SourceFamilies(source, os);
    ClausesConcat(a + [r], b);
    ClausesAppend(a, r);
    ClausesConcat(a, b);
    SameCandidates(Clauses(a), ClausesOf(r.id, r.affected), Clauses(b), families, name);
  }

  lemma {:induction false} SelectNone(all: seq<Clause>, key: IndexKey)
    requires forall cl :: cl in all ==> (cl.family, cl.name) != key
    ensures Select(all, key) == []
  {
    if all != [] { SelectNone(all[1..], key); }
  }

  lemma {:induction false} SameCandidates(a: seq<Clause>, x: seq<Clause>, b: seq<Clause>, families: seq<Family>, name: string)
    requires forall cl :: cl in x ==> cl.family !in families || cl.name != name
    ensures Candidates(a + x + b, families, name) == Candidates(a + b, families, name)
  {
    if families != [] {
      var key := (families[0], name);
      SelectConcat(a + x, b, key);
      SelectConcat(a, x, key);
      SelectConcat(a, b, key);
      SelectNone(x, key);
      SameCandidates(a, x, b, families[1..], name);
    }
  }

  // ----- several sources as one -----

  predicate HasId(hits: seq<CveHit>, id: string) {
    exists i :: 0 <= i < |hits| && hits[i].vulnId == id
  }

  /** Adds each hit whose id is not there yet. */
  function Merge(out: seq<CveHit>, hits: seq<CveHit>): seq<CveHit>
    decreases |hits|
  {
    if hits == [] then out
    else Merge(if HasId(out, hits[0].vulnId) then out else out + [hits[0]], hits[1..])
  }

  function Concat(answers: seq<seq<CveHit>>): seq<CveHit> {
    if answers == [] then [] else answers[0] + Concat(answers[1..])
  }

  method KnownId(out: seq<CveHit>, id: string) returns (known: bool)
    ensures known == HasId(out, id)
  {
    known := false;
    for k := 0 to |out|
      invariant known <==> exists i :: 0 <= i < k && out[i].vulnId == id
    {
      if out[k].vulnId == id {
        known := true;
      }
    }
  }

  method MergeInto(start: seq<CveHit>, hits: seq<CveHit>) returns (out: seq<CveHit>)
    ensures out == Merge(start, hits)
  {
    hide HasId;
    out := start;
    assert hits[0..] == hits;
    for h := 0 to |hits|
      invariant Merge(start, hits) == Merge(out, hits[h..])
    {
      assert hits[h..][0] == hits[h] && hits[h..][1..] == hits[h + 1..];
      var known := KnownId(out, hits[h].vulnId);
      if !known {
        out := out + [hits[h]];
      }
    }
  }

  /** Queries every sub-source in turn. */
  method CompositeHits(answers: seq<seq<CveHit>>) returns (out: seq<CveHit>)
    ensures out == Merge([], Concat(answers))
  {
    hide Merge;
    out := [];
    assert answers[0..] == answers;
    for a := 0 to |answers|
      invariant Merge([], Concat(answers)) == Merge(out, Concat(answers[a..]))
    {
      assert answers[a..][1..] == answers[a + 1..];
      MergeConcat(out, answers[a], Concat(answers[a + 1..]));
      out := MergeInto(out, answers[a]);
    }
    MergeNothing(out);
  }

  lemma MergeNothing(out: seq<CveHit>)
    ensures Merge(out, []) == out
  {
  }

  /** `h` is the first hit with its id. */
  ghost predicate FirstClaim(hits: seq<CveHit>, h: CveHit) {
    exists i :: 0 <= i < |hits| && hits[i] == h && forall j :: 0 <= j < i ==> hits[j].vulnId != h.vulnId
  }

  /** The merged list has every id once, and keeps the hit of its first claimer. */
  lemma {:induction false} MergeExact(out: seq<CveHit>, hits: seq<CveHit>)
    requires DistinctIds(out)
    ensures var r := Merge(out, hits);
            && DistinctIds(r)
            && (forall id :: HasId(r, id) <==> HasId(out, id) || HasId(hits, id))
            && (forall h :: h in r <==> h in out || (!HasId(out, h.vulnId) && FirstClaim(hits, h)))
    decreases |hits|
  {
    if hits == [] {
    } else {
      var next := if HasId(out, hits[0].vulnId) then out else out + [hits[0]];
      assert DistinctIds(next);
      hide HasId, FirstClaim, DistinctIds;
      MergeExact(next, hits[1..]);
      forall id ensures HasId(next, id) <==> HasId(out, id) || hits[0].vulnId == id {
        GrownIds(out, hits[0], id);
      }
      forall id ensures HasId(hits, id) <==> hits[0].vulnId == id || HasId(hits[1..], id) {
        IdShift(hits, id);
      }
      forall h ensures FirstClaim(hits, h) <==> h == hits[0] || (h.vulnId != hits[0].vulnId && FirstClaim(hits[1..], h)) {
        ClaimShift(hits, h);
      }
    }
  }

  lemma IdShift(hits: seq<CveHit>, id: string)
    requires hits != []
    ensures HasId(hits, id) <==> hits[0].vulnId == id || HasId(hits[1..], id)
  {
    if i :| 0 <= i < |hits| && hits[i].vulnId == id { if i > 0 { assert hits[1..][i - 1].vulnId == id; } }
    if i :| 0 <= i < |hits[1..]| && hits[1..][i].vulnId == id { assert hits[i + 1].vulnId == id; }
    if hits[0].vulnId == id { assert HasId(hits, id); }
  }

  lemma GrownIds(out: seq<CveHit>, x: CveHit, id: string)
    ensures var next := if HasId(out, x.vulnId) then out else out + [x];
            HasId(next, id) <==> HasId(out, id) || x.vulnId == id
  {
    var next := out + [x];
    assert next[|out|] == x;
    if i :| 0 <= i < |out| && out[i].vulnId == id { assert next[i].vulnId == id; }
  }

  lemma ClaimShift(hits: seq<CveHit>, h: CveHit)
    requires hits != []
    ensures FirstClaim(hits, h) <==> h == hits[0] || (h.vulnId != hits[0].vulnId && FirstClaim(hits[1..], h))
  {
    var rest := hits[1..];
    if i :| 0 <= i < |hits| && hits[i] == h && forall j :: 0 <= j < i ==> hits[j].vulnId != h.vulnId {
      if i > 0 {
        assert rest[i - 1] == h && forall j :: 0 <= j < i - 1 ==> rest[j] == hits[j + 1];
      }
    }
    if h == hits[0] { assert FirstClaim(hits, h); }
    if h.vulnId != hits[0].vulnId {
      if i :| 0 <= i < |rest| && rest[i] == h && forall j :: 0 <= j < i ==> rest[j].vulnId != h.vulnId {
        assert hits[i + 1] == h && forall j :: 0 < j < i + 1 ==> hits[j] == rest[j - 1];
      }
    }
  }

  /** A composite of composites, down to the sources that answer themselves. */
  datatype Source = Leaf(hits: seq<CveHit>) | Composite(parts: seq<Source>)

  function Answer(s: Source): seq<CveHit>
    decreases s, 1
  {
    match s case Leaf(hits) => hits case Composite(parts) => Merge([], Concat(Answers(parts)))
  }

  function Answers(parts: seq<Source>): seq<seq<CveHit>>
    decreases parts, 0
  {
    if parts == [] then [] else [Answer(parts[0])] + Answers(parts[1..])
  }

  function AllHits(s: Source): seq<CveHit>
    decreases s, 1
  {
    match s case Leaf(hits) => hits case Composite(parts) => AllPartHits(parts)
  }

  function AllPartHits(parts: seq<Source>): seq<CveHit>
    decreases parts, 0
  {
    if parts == [] then [] else AllHits(parts[0]) + AllPartHits(parts[1..])
  }

  lemma {:induction false} MergeConcat(out: seq<CveHit>, a: seq<CveHit>, b: seq<CveHit>)
    ensures Merge(out, a + b) == Merge(Merge(out, a), b)
    decreases |a|
  {
    if a == [] {
      assert a + b == b;
    } else {
      assert (a + b)[1..] == a[1..] + b;
      MergeConcat(if HasId(out, a[0].vulnId) then out else out + [a[0]], a[1..], b);
    }
  }

  lemma {:induction false} MergeHas(out: seq<CveHit>, a: seq<CveHit>, id: string)
    ensures HasId(out, id) || HasId(a, id) ==> HasId(Merge(out, a), id)
    decreases |a|
  {
    if a != [] {
      var next := if HasId(out, a[0].vulnId) then out else out + [a[0]];
      GrownIds(out, a[0], id);
      if i :| 0 <= i < |a| && a[i].vulnId == id {
        if i > 0 { assert a[1..][i - 1].vulnId == id; }
      }
      MergeHas(next, a[1..], id);
    }
  }

  /** Merging an already merged list is merging its parts. */
  lemma {:induction false} MergeMerged(out: seq<CveHit>, p: seq<CveHit>, a: seq<CveHit>)
    ensures Merge(out, Merge(p, a)) == Merge(Merge(out, p), a)
    decreases |a|
  {
    if a != [] {
      var x := a[0];
      if HasId(p, x.vulnId) {
        MergeHas(out, p, x.vulnId);
        MergeMerged(out, p, a[1..]);
      } else {
        MergeMerged(out, p + [x], a[1..]);
        MergeConcat(out, p, [x]);
      }
    }
  }

  lemma {:induction false} MergeNested(out: seq<CveHit>, parts: seq<Source>)
    ensures Merge(out, Concat(Answers(parts))) == Merge(out, AllPartHits(parts))
    decreases parts
  {
    if parts != [] {
      var s, rest := parts[0], parts[1..];
      assert Answers(parts)[1..] == Answers(rest);
      MergeConcat(out, Answer(s), Concat(Answers(rest)));
      MergeConcat(out, AllHits(s), AllPartHits(rest));
      MergeNested(Merge(out, AllHits(s)), rest);
      if s.Composite? {
        MergeMerged(out, [], Concat(Answers(s.parts)));
        MergeNested(out, s.parts);
      }
    }
  }

  /** However composites are nested, the answer is that of one flat composite. */
  lemma NestingIsFlattening(parts: seq<Source>)
    ensures Answer(Composite(parts)) == Merge([], AllHits(Composite(parts)))
  {
    MergeNested([], parts);
  }

  // ----- which advisories hit, and what the key names -----

  /** An advisory for this ecosystem speaks of packages this host got from `source`. */
  ghost predicate Concerns(source: string, os: string, ecosystem: string) {
    var base := Trim(Before(ecosystem, ':'));
    if source == "dpkg" then
      if Contains(Lower(os), "ubuntu") then base == "Ubuntu"
      else if Contains(Lower(os), "debian") then base == "Debian"
      else base == "Debian" || base == "Ubuntu"
    else
      && source == "rpm"
      && base in {"Red Hat", "Rocky Linux", "AlmaLinux", "CentOS", "Oracle Linux", "SUSE", "openSUSE", "Mageia"}
  }

  /** The version is listed, or in a semantic or ecosystem range by the matching comparator. */
  ghost predicate Affects(c: Comparators, source: string, a: OsvAffected, version: string) {
    || version in a.versions
    || exists i :: 0 <= i < |a.ranges| && RangeHolds(c, source, a.ranges[i], version)
  }

  ghost predicate RangeHolds(c: Comparators, source: string, r: OsvRange, version: string) {
    || (r.kind == "SEMVER" && Walk(c.semver, version, r.events))
    || (r.kind == "ECOSYSTEM" && Walk(if source == "dpkg" then c.dpkg else c.rpm, version, r.events))
  }

  ghost predicate HitBy(c: Comparators, r: OsvRecord, k: int, source: string, os: string, name: string, version: string) {
    && 0 <= k < |r.affected| && r.affected[k].name == name
    && Concerns(source, os, r.affected[k].ecosystem) && Affects(c, source, r.affected[k], version)
  }

  lemma {:induction false} ClausesOfMembers(id: string, affected: seq<OsvAffected>, cl: Clause)
    ensures cl in ClausesOf(id, affected) <==>
            exists k :: 0 <= k < |affected| && cl == ClauseFor(id, affected[k])
  {
    if affected != [] {
      ClausesOfMembers(id, affected[1..], cl);
      if k :| 0 <= k < |affected| && cl == ClauseFor(id, affected[k]) {
        if k > 0 { assert affected[1..][k - 1] == affected[k]; }
      }
      if k :| 0 <= k < |affected[1..]| && cl == ClauseFor(id, affected[1..][k]) {
        assert cl == ClauseFor(id, affected[k + 1]);
      }
    }
  }

  function ClauseFor(id: string, a: OsvAffected): Clause {
    Clause(id, FamilyOf(a.ecosystem), a.name, a.ranges, a.versions)
  }

  lemma {:induction false} ClausesMembers(records: seq<OsvRecord>, cl: Clause)
    ensures cl in Clauses(records) <==>
            exists i :: 0 <= i < |records| && cl in ClausesOf(records[i].id, records[i].affected)
  {
    if records != [] {
      ClausesMembers(records[1..], cl);
      if i :| 0 <= i < |records| && cl in ClausesOf(records[i].id, records[i].affected) {
        if i > 0 { assert records[1..][i - 1] == records[i]; }
      }
      if i :| 0 <= i < |records[1..]| && cl in ClausesOf(records[1..][i].id, records[1..][i].affected) {
        assert cl in ClausesOf(records[i + 1].id, records[i + 1].affected);
      }
    }
  }

  lemma {:induction false} SelectMembers(all: seq<Clause>, key: IndexKey, cl: Clause)
    ensures cl in Select(all, key) <==> cl in all && (cl.family, cl.name) == key
  {
    if all != [] {
      SelectMembers(all[1..], key, cl);
      assert all == [all[0]] + all[1..];
    }
  }

  lemma {:induction false} CandidateMembers(all: seq<Clause>, families: seq<Family>, name: string, cl: Clause)
    ensures cl in Candidates(all, families, name) <==> cl in all && cl.family in families && cl.name == name
  {
    if families != [] {
      SelectMembers(all, (families[0], name), cl);
      CandidateMembers(all, families[1..], name, cl);
      assert families == [families[0]] + families[1..];
    }
  }

  /** The searched families and the comparator of a family are those of the host and its source. */
  lemma FamiliesMean(c: Comparators, source: string, os: string, a: OsvAffected, id: string, version: string)
    ensures FamilyOf(a.ecosystem) in SourceFamilies(source, os) <==> Concerns(source, os, a.ecosystem)
    ensures Concerns(source, os, a.ecosystem) ==> (Matches(c, ClauseFor(id, a), version) <==> Affects(c, source, a, version))
  {
    hide Walk, Trim, Before, Lower, Contains;
    var cl := ClauseFor(id, a);
    if Concerns(source, os, a.ecosystem) {
      forall i | 0 <= i < |a.ranges|
        ensures RangeHolds(c, source, a.ranges[i], version) <==>
                Comparable(a.ranges[i].kind) && Walk(ComparatorOf(c, cl.family, a.ranges[i].kind), version, a.ranges[i].events)
      {
      }
    }
  }

  /** An id has a hit exactly when one of the candidates with it matches. */
  lemma HitPerMatch(c: Comparators, candidates: seq<Clause>, name: string, version: string, id: string)
    ensures (exists h :: h in Collect(c, candidates, name, version, []) && h.vulnId == id) <==>
            exists cl :: cl in candidates && cl.id == id && Matches(c, cl, version)
  {
    hide Collect, Matches;
    CollectExact(c, candidates, name, version, []);
    if h :| h in Collect(c, candidates, name, version, []) && h.vulnId == id {
      var i :| FirstMatch(c, candidates, version, id, i);
      assert candidates[i] in candidates;
    }
    if cl :| cl in candidates && cl.id == id && Matches(c, cl, version) {
      var j :| 0 <= j < |candidates| && candidates[j] == cl;
      if !(exists k :: FirstMatch(c, candidates, version, id, k)) {
        NoFirstMatch(c, candidates, version, id, |candidates|);
      }
      var k :| FirstMatch(c, candidates, version, id, k);
      var h := CveHit(name, version, id, RemediationKey(name, candidates[k]));
      assert FromFirstMatch(c, candidates, name, version, h);
    }
  }

  /**
   A package is hit by exactly the advisories with a clause of its name for an ecosystem of
   its own host that affects its version: an Ubuntu host by Ubuntu clauses alone, a Debian
   host by Debian ones, a host of unknown distribution by both, an rpm host by rpm ones.
   */
  lemma HitExactly(c: Comparators, records: seq<OsvRecord>, source: string, os: string, name: string, version: string, id: string)
    ensures (exists h :: h in FlatHits(c, records, source, os, name, version) && h.vulnId == id) <==>
            exists i, k :: 0 <= i < |records| && records[i].id == id && HitBy(c, records[i], k, source, os, name, version)
  {
    hide Matches, Concerns, Affects, SourceFamilies, FamilyOf, Clauses, ClausesOf, Candidates, Collect;
    var all, families := Clauses(records), SourceFamilies(source, os);
    var candidates := Candidates(all, families, name);
    HitPerMatch(c, candidates, name, version, id);
    if cl :| cl in candidates && cl.id == id && Matches(c, cl, version) {
      CandidateMembers(all, families, name, cl);
      ClausesMembers(records, cl);
      var i :| 0 <= i < |records| && cl in ClausesOf(records[i].id, records[i].affected);
      ClausesOfMembers(records[i].id, records[i].affected, cl);
      var k :| 0 <= k < |records[i].affected| && cl == ClauseFor(records[i].id, records[i].affected[k]);
      FamiliesMean(c, source, os, records[i].affected[k], records[i].id, version);
      assert HitBy(c, records[i], k, source, os, name, version);
    }
    if i, k :| 0 <= i < |records| && records[i].id == id && HitBy(c, records[i], k, source, os, name, version) {
      var cl := ClauseFor(id, records[i].affected[k]);
      FamiliesMean(c, source, os, records[i].affected[k], id, version);
      ClausesOfMembers(id, records[i].affected, cl);
      ClausesMembers(records, cl);
      CandidateMembers(all, families, name, cl);
    }
  }

  /** The `i`-th event of the `r`-th range is the first that names a fix. */
  ghost predicate FirstFixAt(ranges: seq<OsvRange>, r: int, i: int) {
    && 0 <= r < |ranges| && 0 <= i < |ranges[r].events| && ranges[r].events[i].fixed.Some?
    && (forall j :: 0 <= j < i ==> ranges[r].events[j].fixed.None?)
    && (forall q, j :: 0 <= q < r && 0 <= j < |ranges[q].events| ==> ranges[q].events[j].fixed.None?)
  }

  lemma {:induction false} FirstFixInExactly(events: seq<OsvEvent>)
    ensures match FirstFixIn(events)
            case Some(v) => exists i :: 0 <= i < |events| && events[i].fixed == Some(v)
                                        && forall j :: 0 <= j < i ==> events[j].fixed.None?
            case None => forall j :: 0 <= j < |events| ==> events[j].fixed.None?
  {
    if events != [] && events[0].fixed.None? {
      FirstFixInExactly(events[1..]);
      assert forall j :: 0 < j < |events| ==> events[j] == events[1..][j - 1];
      match FirstFixIn(events[1..]) {
        case Some(v) =>
          var i :| 0 <= i < |events[1..]| && events[1..][i].fixed == Some(v)
                   && forall j :: 0 <= j < i ==> events[1..][j].fixed.None?;
          assert events[i + 1].fixed == Some(v);
        case None =>
      }
    }
  }

  lemma {:induction false} FirstFixExactly(ranges: seq<OsvRange>)
    ensures match FirstFix(ranges)
            case Some(v) => exists r, i :: FirstFixAt(ranges, r, i) && ranges[r].events[i].fixed == Some(v)
            case None => forall r, i :: 0 <= r < |ranges| && 0 <= i < |ranges[r].events| ==> ranges[r].events[i].fixed.None?
  {
    if ranges != [] {
      FirstFixInExactly(ranges[0].events);
      if FirstFixIn(ranges[0].events).Some? {
        var v := FirstFixIn(ranges[0].events).value;
        var i :| 0 <= i < |ranges[0].events| && ranges[0].events[i].fixed == Some(v)
                 && forall j :: 0 <= j < i ==> ranges[0].events[j].fixed.None?;
        assert FirstFixAt(ranges, 0, i);
      } else {
        FirstFixExactly(ranges[1..]);
        assert forall q :: 0 < q < |ranges| ==> ranges[q] == ranges[1..][q - 1];
        if FirstFix(ranges).Some? {
          var r, i :| FirstFixAt(ranges[1..], r, i) && ranges[1..][r].events[i].fixed == FirstFix(ranges);
          assert FirstFixAt(ranges, r + 1, i);
        }
      }
    }
  }

  /**
   The key of a clause names the first fix of its ranges as the version to upgrade to, or
   the advisory where no range names one.
   */
  lemma KeyNamesFirstFix(name: string, cl: Clause)
    ensures (exists r, i :: FirstFixAt(cl.ranges, r, i)
                            && RemediationKey(name, cl) == "upgrade:" + name + ">=" + cl.ranges[r].events[i].fixed.value)
            || ((forall r, i :: 0 <= r < |cl.ranges| && 0 <= i < |cl.ranges[r].events| ==> cl.ranges[r].events[i].fixed.None?)
                && RemediationKey(name, cl) == "patch:" + name + ":" + cl.id)
  {
    hide FirstFix;
    FirstFixExactly(cl.ranges);
    if FirstFix(cl.ranges).Some? {
      var r, i :| FirstFixAt(cl.ranges, r, i) && cl.ranges[r].events[i].fixed == FirstFix(cl.ranges);
      assert RemediationKey(name, cl) == "upgrade:" + name + ">=" + cl.ranges[r].events[i].fixed.value;
    }
  }
}
