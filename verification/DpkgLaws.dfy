/**
 The documented laws of the Debian order, for all versions: what sorts before what in text,
 numbers by value, and how a version falls into epoch, upstream part and revision.
 */
module DpkgLaws {
  import opened Basics
  import opened OsvMatching
  import opened DpkgVersion
  import opened NulVersions

  /** Empty, or starting with something that is no digit. */
  predicate NoDigitFirst(p: string) { p == [] || !IsDigit(p[0]) }

  lemma {:induction false} RunStops(x: string, p: string)
    requires NoDigitFirst(p)
    ensures DigitRun(x + p) == DigitRun(x) && AfterRun(x + p) == x[|DigitRun(x)|..] + p
  {
    if p == [] {
      assert x + p == x && x[|DigitRun(x)|..] + p == x[|DigitRun(x)|..];
    } else {
      RunBefore(x, p);
    }
  }

  /** Whatever two versions share in front of text does not show. */
  lemma {:induction false} SharedDoesNotShow(x: string, p: string, q: string)
    requires NoDigitFirst(p) && NoDigitFirst(q)
    ensures FragmentCmp(x + p, x + q) == FragmentCmp(p, q)
    decreases |x|
  {
    hide FragmentCmp, DigitRun, SkipText;
    if x == [] {
      assert x + p == p && x + q == q;
    } else if OnText(x) {
      TextDoesNotShow(x, p, q);
      SharedDoesNotShow(x[1..], p, q);
    } else {
      SharedDigits(x, p, q);
      SharedDoesNotShow(x[|DigitRun(x)|..], p, q);
    }
  }

  lemma SharedDigits(x: string, p: string, q: string)
    requires x != [] && !OnText(x) && NoDigitFirst(p) && NoDigitFirst(q)
    ensures |DigitRun(x)| > 0
    ensures FragmentCmp(x + p, x + q) == FragmentCmp(x[|DigitRun(x)|..] + p, x[|DigitRun(x)|..] + q)
  {
    RunStops(x, p);
    RunStops(x, q);
    assert |DigitRun(x)| > 0;
    hide FragmentCmp, DigitRun, Value;
    CmpByStep(x + p, x + q);
    assert !OnText(x + p) && !OnText(x + q);
  }

  // ----- text -----

  predicate IsText(c: char) { !IsDigit(c) && c != Nul }

  predicate Letter(c: char) { 65 <= c as int <= 90 || 97 <= c as int <= 122 }

  /** Tilde before letters, letters by their code before all else, all else by its code. */
  predicate SortsBefore(c: char, d: char) {
    || (c == '~' && d != '~')
    || (Letter(c) && d != '~' && !Letter(d))
    || (Letter(c) && Letter(d) && c < d)
    || (c != '~' && !Letter(c) && d != '~' && !Letter(d) && c < d)
  }

  /** Behind anything two versions share, the first different character of text decides. */
  lemma TextDecides(x: string, c: char, y: string, d: char, z: string)
    requires IsText(c) && IsText(d) && SortsBefore(c, d)
    ensures FragmentCmp(x + ([c] + y), x + ([d] + z)) == Less && FragmentCmp(x + ([d] + z), x + ([c] + y)) == Greater
  {
    hide FragmentCmp;
    SharedDoesNotShow(x, [c] + y, [d] + z);
    SharedDoesNotShow(x, [d] + z, [c] + y);
    CmpByStep([c] + y, [d] + z);
    CmpByStep([d] + z, [c] + y);
    assert Order(c) < Order(d);
  }

  /** A tilde sorts before the end, any other text behind it. */
  lemma EndDecides(x: string, c: char, y: string)
    requires IsText(c)
    ensures FragmentCmp(x + ([c] + y), x) == if c == '~' then Less else Greater
  {
    hide FragmentCmp;
    SharedDoesNotShow(x, [c] + y, []);
    assert x + [] == x;
    CmpByStep([c] + y, []);
  }

  // ----- numbers -----

  lemma RunIsAll(d: string, p: string)
    requires AllDigits(d) && NoDigitFirst(p)
    ensures DigitRun(d + p) == d && AfterRun(d + p) == p
  {
    RunStops(d, p);
    AllRun(d);
    assert d[|d|..] + p == p;
  }

  lemma {:induction false} AllRun(d: string)
    requires AllDigits(d)
    ensures DigitRun(d) == d
  {
    if d != [] {
      assert d[0] in d && forall c :: c in d[1..] ==> c in d;
      AllRun(d[1..]);
    }
  }

  /** Two numbers behind shared text compare by value, whatever their lengths and leading
      zeros; equal ones leave it to what follows. */
  lemma NumbersDecide(x: string, d: string, p: string, e: string, q: string)
    requires (x == [] || !IsDigit(x[|x| - 1])) && AllDigits(d) && AllDigits(e) && d != [] && e != []
    requires NoDigitFirst(p) && NoDigitFirst(q)
    ensures FragmentCmp(x + (d + p), x + (e + q)) ==
            if Value(d) != Value(e) then CompareInt(Value(d), Value(e)) else FragmentCmp(p, q)
  {
    hide FragmentCmp, DigitRun, Value;
    PrefixDoesNotShow(x, d + p, e + q);
    RunIsAll(d, p);
    RunIsAll(e, q);
    CmpByStep(d + p, e + q);
    assert (d + p)[0] in d && (e + q)[0] in e;
    assert !OnText(d + p) && !OnText(e + q);
  }

  // ----- the three parts -----

  /** How `v` falls into `parts`: digits before the first colon are the epoch, unless there are none
      or something else stands there; what follows the last dash behind it is the revision. */
  ghost predicate FallsInto(v: string, parts: Parts) {
    exists pre, rest :: EpochPart(v, pre, rest, parts.epoch) && RestPart(rest, parts.upstream, parts.revision)
  }

  ghost predicate EpochPart(v: string, pre: string, rest: string, epoch: nat) {
    if pre == [] then v == rest && epoch == 0 && !StartsWithEpoch(v)
    else AllDigits(pre) && v == pre + ":" + rest && epoch == if Value(pre) < EpochLimit then Value(pre) else 0
  }

  ghost predicate RestPart(rest: string, upstream: string, revision: string) {
    || (rest == upstream + "-" + revision && '-' !in revision)
    || (rest == upstream && '-' !in rest && revision == "")
  }

  ghost predicate StartsWithEpoch(v: string) {
    exists n: nat :: 0 < n < |v| && v[n] == ':' && AllDigits(v[..n])
  }

  lemma {:induction false} FirstIndexExactly(s: string, c: char)
    ensures match FirstIndex(s, c) case Some(i) => s[i] == c && c !in s[..i] case None => c !in s
  {
    if s != [] && s[0] != c {
      FirstIndexExactly(s[1..], c);
      assert s == [s[0]] + s[1..];
      match FirstIndex(s[1..], c) {
        case Some(i) => assert s[..i + 1] == [s[0]] + s[1..][..i];
        case None =>
      }
    }
  }

  lemma EpochFalls(v: string)
    ensures exists pre :: EpochPart(v, pre, SplitEpoch(v).1, SplitEpoch(v).0)
  {
    hide Value, FirstIndex;
    FirstIndexExactly(v, ':');
    var colon := FirstIndex(v, ':');
    if colon.Some? && colon.value > 0 && AllDigits(v[..colon.value]) {
      var pre := v[..colon.value];
      assert v == pre + ":" + v[colon.value + 1..];
      assert EpochPart(v, pre, SplitEpoch(v).1, SplitEpoch(v).0);
    } else {
      if n: nat :| 0 < n < |v| && v[n] == ':' && AllDigits(v[..n]) { ColonIsFirst(v, n); }
      assert EpochPart(v, [], SplitEpoch(v).1, SplitEpoch(v).0);
    }
  }

  lemma ColonIsFirst(v: string, n: nat)
    requires 0 < n < |v| && v[n] == ':' && AllDigits(v[..n])
    ensures FirstIndex(v, ':') == Some(n)
  {
    assert ':' !in v[..n];
    FirstIndexAt(v[..n], ':', v[n + 1..]);
    assert v == v[..n] + [':'] + v[n + 1..];
  }

  lemma {:induction false} LastIndexExactly(s: string, c: char)
    ensures match LastIndex(s, c) case Some(i) => s[i] == c && c !in s[i + 1..] case None => c !in s
  {
    NothingBehindLast(s, c);
    LastIndexHits(s, c);
  }

  lemma {:induction false} LastIndexHits(s: string, c: char)
    ensures LastIndex(s, c).Some? ==> s[LastIndex(s, c).value] == c
    decreases |s|
  {
    if s != [] && s[|s| - 1] != c { LastIndexHits(s[..|s| - 1], c); }
  }

  /** Every version falls into its parts so. */
  lemma SplitExactly(v: string)
    ensures FallsInto(v, Split(v))
  {
    hide SplitEpoch, LastIndex, EpochPart;
    EpochFalls(v);
    var rest := SplitEpoch(v).1;
    var pre :| EpochPart(v, pre, rest, SplitEpoch(v).0);
    LastIndexExactly(rest, '-');
    var parts := Split(v);
    match LastIndex(rest, '-') {
      case Some(i) => assert rest == rest[..i] + "-" + rest[i + 1..];
      case None =>
    }
    assert RestPart(rest, parts.upstream, parts.revision);
  }

  /** A higher epoch wins, then the upstream part, then the revision. */
  lemma PartsDecide(x: Parts, y: Parts)
    requires x.epoch < EpochLimit && y.epoch < EpochLimit && '-' !in x.revision && '-' !in y.revision
    ensures var o := DpkgCompare(Glue(x), Glue(y));
            && (x.epoch < y.epoch ==> o == Less) && (x.epoch > y.epoch ==> o == Greater)
            && (x.epoch == y.epoch && FragmentCmp(x.upstream, y.upstream) != Equal ==> o == FragmentCmp(x.upstream, y.upstream))
            && (x.epoch == y.epoch && FragmentCmp(x.upstream, y.upstream) == Equal ==> o == FragmentCmp(x.revision, y.revision))
  {
    hide FragmentCmp, Split, Glue;
    SplitGlued(x);
    SplitGlued(y);
  }
}
