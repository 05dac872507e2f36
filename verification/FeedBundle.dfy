/** Fail-closed verification of a feed bundle directory. Signatures are ideal; the digest
    is a parameter. */
module FeedBundle {
  import opened Basics
  import opened Text

  newtype byte = x: int | 0 <= x < 256
  type Bytes = seq<byte>
  type Key = nat

  const MaxManifestEntries: nat := 1024
  const MaxContentFileBytes: nat := 256 * 1024 * 1024

  datatype Tier = Community | Enterprise
  datatype ContentKind = Osv | Nvd | Epss | Kev
  datatype FeedEntry = FeedEntry(name: string, sha256: string, kind: ContentKind)
  datatype Manifest = Manifest(version: string, createdAt: int, source: string, tier: Tier, entries: seq<FeedEntry>)

  datatype Signature = Signed(key: Key, manifest: Manifest) | Junk(text: string)

  /** What reading a file and parsing it gives. */
  datatype Parsed<T> = Absent | Garbled | Read(value: T)

  datatype BundleDir = BundleDir(manifest: Parsed<Manifest>, signature: Option<Signature>, files: map<string, Bytes>)

  datatype BundleError =
    | NoTrustedKeys | NoManifest | NoSignature | BadManifest | BadSignature | TooManyEntries
    | NotPlain(name: string) | Listed(name: string) | NoFile(name: string) | TooLarge(name: string)
    | DigestMismatch(name: string)

  predicate IsPlainFileName(name: string) {
    && name != "" && name != "." && name != ".."
    && '/' !in name && '\\' !in name && '\0' !in name
  }

  predicate Trusts(trusted: set<Key>, m: Manifest, sig: Signature) {
    sig.Signed? && sig.key in trusted && sig.manifest == m
  }

  predicate SameHex(a: string, b: string) { Lower(a) == Lower(b) }

  /** What is wrong with an entry, given the names listed before it. */
  function EntryFault(files: map<string, Bytes>, digest: Bytes -> string, before: set<string>, e: FeedEntry)
    : Option<BundleError>
  {
    if !IsPlainFileName(e.name) then Some(NotPlain(e.name))
    else if e.name in before then Some(Listed(e.name))
    else if e.name !in files then Some(NoFile(e.name))
    else if |files[e.name]| > MaxContentFileBytes then Some(TooLarge(e.name))
    else if !SameHex(digest(files[e.name]), Trim(e.sha256)) then Some(DigestMismatch(e.name))
    else None
  }

  function Names(entries: seq<FeedEntry>): set<string> { set e | e in entries :: e.name }

  /** The first fault among the entries, in manifest order. */
  function FirstFault(files: map<string, Bytes>, digest: Bytes -> string, entries: seq<FeedEntry>): Option<BundleError>
    decreases |entries|
  {
    if entries == [] then None
    else
      var earlier := FirstFault(files, digest, entries[..|entries| - 1]);
      if earlier.Some? then earlier
      else EntryFault(files, digest, Names(entries[..|entries| - 1]), entries[|entries| - 1])
  }

  /** Fails with the first reason to refuse the bundle, in the order they are looked for. */
  function Verdict(dir: BundleDir, trusted: set<Key>, digest: Bytes -> string): Reply<Manifest, BundleError> {
    if trusted == {} then Refuse(NoTrustedKeys)
    else if dir.manifest.Absent? then Refuse(NoManifest)
    else if dir.signature.None? then Refuse(NoSignature)
    else if dir.manifest.Garbled? then Refuse(BadManifest)
    else
      var m := dir.manifest.value;
      if !Trusts(trusted, m, dir.signature.value) then Refuse(BadSignature)
      else if |m.entries| > MaxManifestEntries then Refuse(TooManyEntries)
      else match FirstFault(dir.files, digest, m.entries)
        case Some(fault) => Refuse(fault)
        case None => Done(m)
  }

  method VerifyBundle(dir: BundleDir, trusted: set<Key>, digest: Bytes -> string)
    returns (r: Reply<Manifest, BundleError>)
    ensures r == Verdict(dir, trusted, digest)
  {
    if trusted == {} {
      return Refuse(NoTrustedKeys);
    }
    if dir.manifest.Absent? {
      return Refuse(NoManifest);
    }
    if dir.signature.None? {
      return Refuse(NoSignature);
    }
    if dir.manifest.Garbled? {
      return Refuse(BadManifest);
    }
    var m := dir.manifest.value;
    if !Trusts(trusted, m, dir.signature.value) {
      return Refuse(BadSignature);
    }
    if |m.entries| > MaxManifestEntries {
      return Refuse(TooManyEntries);
    }
    var seen: set<string> := {};
    hide EntryFault, Names, Trusts;
    assert Names([]) == {} && m.entries[..0] == [] by { NamesNone(); }
    for i := 0 to |m.entries|
      invariant seen == Names(m.entries[..i])
      invariant FirstFault(dir.files, digest, m.entries[..i]) == None
    {
      var e := m.entries[i];
      assert m.entries[..i + 1] == m.entries[..i] + [e];
      assert m.entries[..i + 1][..i] == m.entries[..i];
      NamesNext(m.entries[..i], e);
      var fault := EntryFault(dir.files, digest, seen, e);
      if fault.Some? {
        FaultStays(dir.files, digest, m.entries, i + 1);
        return Refuse(fault.value);
      }
      seen := seen + {e.name};
    }
    assert m.entries[..|m.entries|] == m.entries;
    r := Done(m);
  }

  lemma NamesNone()
    ensures Names([]) == {}
  {
  }

  lemma NamesNext(entries: seq<FeedEntry>, e: FeedEntry)
    ensures Names(entries + [e]) == Names(entries) + {e.name}
  {
    assert forall x :: x in entries + [e] <==> x in entries || x == e;
  }

  lemma {:induction false} FaultStays(files: map<string, Bytes>, digest: Bytes -> string, entries: seq<FeedEntry>, n: nat)
    requires n <= |entries| && FirstFault(files, digest, entries[..n]).Some?
    ensures FirstFault(files, digest, entries) == FirstFault(files, digest, entries[..n])
    decreases |entries|
  {
    if n < |entries| {
      assert entries[..|entries| - 1][..n] == entries[..n];
      FaultStays(files, digest, entries[..|entries| - 1], n);
    } else {
      assert entries[..n] == entries;
    }
  }

  /** Everything a verified bundle guarantees about one entry. */
  ghost predicate EntryGood(files: map<string, Bytes>, digest: Bytes -> string, e: FeedEntry) {
    && IsPlainFileName(e.name) && e.name in files && |files[e.name]| <= MaxContentFileBytes
    && SameHex(digest(files[e.name]), Trim(e.sha256))
  }

  ghost predicate DistinctNames(entries: seq<FeedEntry>) {
    forall i, j :: 0 <= i < j < |entries| ==> entries[i].name != entries[j].name
  }

  /** The entries pass exactly when each is good on its own and no name is listed twice. */
  lemma {:induction false} NoFaultMeans(files: map<string, Bytes>, digest: Bytes -> string, entries: seq<FeedEntry>)
    ensures FirstFault(files, digest, entries).None? <==>
            DistinctNames(entries) && forall i :: 0 <= i < |entries| ==> EntryGood(files, digest, entries[i])
    decreases |entries|
  {
    if entries != [] {
      var before, last := entries[..|entries| - 1], entries[|entries| - 1];
      NoFaultMeans(files, digest, before);
      NamesGrow(entries);
      EntryFaultMeans(files, digest, Names(before), last);
      hide EntryGood, EntryFault, DistinctNames, Names;
      assert forall i :: 0 <= i < |before| ==> before[i] == entries[i];
    }
  }

  lemma EntryFaultMeans(files: map<string, Bytes>, digest: Bytes -> string, before: set<string>, e: FeedEntry)
    ensures EntryFault(files, digest, before, e).None? <==> EntryGood(files, digest, e) && e.name !in before
  {
    hide SameHex, IsPlainFileName;
  }

  lemma NamesGrow(entries: seq<FeedEntry>)
    requires entries != []
    ensures var before := entries[..|entries| - 1];
            DistinctNames(entries) <==> DistinctNames(before) && entries[|entries| - 1].name !in Names(before)
  {
    var before, last := entries[..|entries| - 1], entries[|entries| - 1];
    if last.name in Names(before) {
      var e :| e in before && e.name == last.name;
      var i :| 0 <= i < |before| && before[i] == e;
      assert entries[i].name == entries[|entries| - 1].name;
    }
    if DistinctNames(before) && last.name !in Names(before) {
      forall i, j | 0 <= i < j < |entries| ensures entries[i].name != entries[j].name {
        assert entries[i] == before[i];
        if j < |before| { assert entries[j] == before[j]; } else { assert before[i] in before; }
      }
    }
    if DistinctNames(entries) {
      assert forall i, j :: 0 <= i < j < |before| ==> before[i] == entries[i] && before[j] == entries[j];
    }
  }

  /** Verification succeeds exactly for a well-formed, trusted, intact bundle, and then
      returns its manifest. */
  lemma VerifiedExactly(dir: BundleDir, trusted: set<Key>, digest: Bytes -> string)
    ensures Verdict(dir, trusted, digest).Done? <==>
            && dir.manifest.Read? && dir.signature.Some?
            && Trusts(trusted, dir.manifest.value, dir.signature.value)
            && |dir.manifest.value.entries| <= MaxManifestEntries
            && DistinctNames(dir.manifest.value.entries)
            && forall i :: 0 <= i < |dir.manifest.value.entries| ==>
                 EntryGood(dir.files, digest, dir.manifest.value.entries[i])
  {
    hide EntryGood, DistinctNames;
    if dir.manifest.Read? { NoFaultMeans(dir.files, digest, dir.manifest.value.entries); }
  }

  /** With a collision-free digest the signed manifest fixes the bytes of every listed file:
      two verified directories with the same manifest install the same content. */
  lemma ContentDetermined(a: BundleDir, b: BundleDir, trusted: set<Key>, digest: Bytes -> string, e: FeedEntry)
    requires forall x, y :: SameHex(digest(x), digest(y)) ==> x == y
    requires Verdict(a, trusted, digest).Done? && Verdict(b, trusted, digest).Done?
    requires a.manifest == b.manifest && e in a.manifest.value.entries
    ensures e.name in a.files && e.name in b.files && a.files[e.name] == b.files[e.name]
  {
    VerifiedExactly(a, trusted, digest);
    VerifiedExactly(b, trusted, digest);
    var i :| 0 <= i < |a.manifest.value.entries| && a.manifest.value.entries[i] == e;
    assert EntryGood(a.files, digest, a.manifest.value.entries[i]) && EntryGood(b.files, digest, a.manifest.value.entries[i]);
    assert SameHex(digest(a.files[e.name]), digest(b.files[e.name]));
  }

  /** Of a verified bundle: the signature is one a trusted key made over this very manifest,
      there are at most 1024 entries of at most 256 MiB, and no name leaves the directory. */
  lemma VerifiedMeans(dir: BundleDir, trusted: set<Key>, digest: Bytes -> string)
    requires Verdict(dir, trusted, digest).Done?
    ensures var m := Verdict(dir, trusted, digest).value;
            && dir.manifest == Read(m)
            && (exists k :: k in trusted && dir.signature == Some(Signed(k, m))) && |m.entries| <= 1024
            && forall e :: e in m.entries ==>
                 && e.name !in {"", ".", ".."} && '/' !in e.name && '\\' !in e.name && '\0' !in e.name
                 && e.name in dir.files && |dir.files[e.name]| <= 268435456
                 && Lower(digest(dir.files[e.name])) == Lower(Trim(e.sha256))
  {
    VerifiedExactly(dir, trusted, digest);
    var m := dir.manifest.value;
    assert dir.signature.value.key in trusted;
    forall e | e in m.entries ensures EntryGood(dir.files, digest, e) {
      var i :| 0 <= i < |m.entries| && m.entries[i] == e;
    }
  }

  /** Digests agree exactly when they differ in nothing but the case of letters. */
  lemma SameHexMeans(a: string, b: string)
    ensures SameHex(a, b) <==>
            |a| == |b| && forall i :: 0 <= i < |a| ==> SameLetter(a[i], b[i])
  {
    LowerLength(a);
    LowerLength(b);
    if |a| == |b| {
      forall i | 0 <= i < |a| ensures Lower(a)[i] == Lower(b)[i] <==> SameLetter(a[i], b[i]) {
        LowerExactly(a, i);
        LowerExactly(b, i);
      }
    }
  }

  ghost predicate SameLetter(c: char, d: char) {
    c == d || ('A' <= c <= 'Z' && d as int == c as int + 32) || ('A' <= d <= 'Z' && c as int == d as int + 32)
  }

  /** Which refusal comes first: missing keys, manifest, signature, then an unreadable
      manifest, a signature not over it, too many entries, and the first faulty entry. */
  lemma RefusedExactly(dir: BundleDir, trusted: set<Key>, digest: Bytes -> string)
    ensures var v := Verdict(dir, trusted, digest);
            var good := dir.manifest.Read? && exists k :: k in trusted && dir.signature == Some(Signed(k, dir.manifest.value));
            && (v == Refuse(NoTrustedKeys) <==> forall k :: k !in trusted)
            && (v == Refuse(NoManifest) <==> (exists k :: k in trusted) && dir.manifest == Absent)
            && (v == Refuse(NoSignature) <==> (exists k :: k in trusted) && dir.manifest != Absent && dir.signature == None)
            && (v == Refuse(BadManifest) <==> (exists k :: k in trusted) && dir.manifest == Garbled && dir.signature != None)
            && (v == Refuse(BadSignature) <==>
                  (exists k :: k in trusted) && dir.manifest.Read? && dir.signature != None && !good)
            && (v == Refuse(TooManyEntries) <==> good && |dir.manifest.value.entries| > 1024)
  {
    if dir.manifest.Read? && FirstFault(dir.files, digest, dir.manifest.value.entries).Some? {
      FaultIsOfEntry(dir.files, digest, dir.manifest.value.entries);
    }
    if dir.signature.Some? && dir.signature.value.Signed? { assert dir.signature == Some(Signed(dir.signature.value.key, dir.signature.value.manifest)); }
  }

  /** All entries before `n` are good and differently named, and entry `n` has this fault. */
  ghost predicate FirstFaulty(files: map<string, Bytes>, digest: Bytes -> string, entries: seq<FeedEntry>, n: nat, fault: BundleError) {
    && n < |entries|
    && DistinctNames(entries[..n]) && (forall i :: 0 <= i < n ==> EntryGood(files, digest, entries[i]))
    && EntryFault(files, digest, Names(entries[..n]), entries[n]) == Some(fault)
  }

  lemma FaultyInFront(files: map<string, Bytes>, digest: Bytes -> string, entries: seq<FeedEntry>, n: nat, fault: BundleError)
    requires entries != [] && FirstFaulty(files, digest, entries[..|entries| - 1], n, fault)
    ensures FirstFaulty(files, digest, entries, n, fault)
  {
    hide EntryGood, EntryFault, DistinctNames, Names;
    assert entries[..|entries| - 1][..n] == entries[..n];
  }

  lemma FaultyAtEnd(files: map<string, Bytes>, digest: Bytes -> string, entries: seq<FeedEntry>)
    requires entries != [] && FirstFault(files, digest, entries[..|entries| - 1]).None? && FirstFault(files, digest, entries).Some?
    ensures FirstFaulty(files, digest, entries, |entries| - 1, FirstFault(files, digest, entries).value)
  {
    NoFaultMeans(files, digest, entries[..|entries| - 1]);
    hide EntryGood, EntryFault, DistinctNames, Names;
    assert forall i :: 0 <= i < |entries| - 1 ==> entries[..|entries| - 1][i] == entries[i];
  }

  /** The fault reported is that of the first faulty entry. */
  lemma {:induction false} FaultIsOfEntry(files: map<string, Bytes>, digest: Bytes -> string, entries: seq<FeedEntry>)
    requires FirstFault(files, digest, entries).Some?
    ensures exists n: nat :: FirstFaulty(files, digest, entries, n, FirstFault(files, digest, entries).value)
    decreases |entries|
  {
    hide FirstFaulty, EntryFault, Names;
    var before := entries[..|entries| - 1];
    if FirstFault(files, digest, before).Some? {
      FaultIsOfEntry(files, digest, before);
      var n: nat :| FirstFaulty(files, digest, before, n, FirstFault(files, digest, before).value);
      FaultyInFront(files, digest, entries, n, FirstFault(files, digest, before).value);
    } else {
      FaultyAtEnd(files, digest, entries);
    }
  }
}
