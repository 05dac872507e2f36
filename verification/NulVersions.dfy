/**
 The Debian comparison on versions with a NUL byte, which weighs as much as a digit or the
 end of the text: exactly which of them still fit the order of all others.
 */
module NulVersions {
  import opened Basics
  import opened OsvMatching
  import opened DpkgVersion
  import Text

  const Nul: char := 0 as char

  /** The first NUL byte, if there is one, stands right behind a digit. */
  ghost predicate NulBehindDigit(s: string) {
    forall k :: 0 <= k < |s| && s[k] == Nul && NulFree(s[..k]) ==> k > 0 && IsDigit(s[k - 1])
  }

  // ----- the comparison after its shared text -----

  function ByStep(step: TextStep): Ordering {
    match step
    case Differ(o) => o
    case Same(a, b) =>
      if Number(a) != Number(b) then CompareInt(Number(a), Number(b)) else FragmentCmp(AfterRun(a), AfterRun(b))
  }

  lemma CmpByStep(a: string, b: string)
    ensures FragmentCmp(a, b) == ByStep(SkipText(a, b))
  {
    hide Value;
    if a == [] && b == [] {
      assert AfterRun([]) == [];
    } else if SkipText(a, b).Same? {
      RoundMovesOn(a, b);
    }
  }

  lemma {:induction false} SkipTextFlips(a: string, b: string)
    ensures SkipText(b, a) == match SkipText(a, b) case Differ(o) => Differ(Flip(o)) case Same(x, y) => Same(y, x)
    decreases |a| + |b|
  {
    if (OnText(a) || OnText(b)) && Weight(a) == Weight(b) { SkipTextFlips(Tail(a), Tail(b)); }
  }

  /** The comparison is antisymmetric on all strings. */
  lemma {:induction false} FragmentFlips(a: string, b: string)
    ensures FragmentCmp(b, a) == Flip(FragmentCmp(a, b))
    decreases |a| + |b|
  {
    hide SkipText, DigitRun, Number, FragmentCmp;
    CmpByStep(a, b);
    CmpByStep(b, a);
    SkipTextFlips(a, b);
    if a == [] && b == [] {
      BothEmpty();
    } else {
      match SkipText(a, b)
      case Differ(_) =>
      case Same(x, y) =>
        RoundMovesOn(a, b);
        FragmentFlips(AfterRun(x), AfterRun(y));
    }
  }

  lemma BothEmpty()
    ensures FragmentCmp([], []) == Equal
  {
  }

  // ----- keys still tell when the first NUL stands behind a digit -----

  lemma {:induction false} EndText(s: string)
    ensures match SkipText(s, [])
            case Differ(o) => PadCompare(Round(s), []) == o
            case Same(s', e) => e == [] && PadCompare(Round(s), []) == PadCompare(Round(s'), [])
  {
    hide Round;
    if OnText(s) {
      HeadIsWeight(s);
      RoundAtText(s);
      if Weight(s) == 0 {
        assert Rest(Round(s)) == Round(s[1..]);
        EndText(s[1..]);
      }
    }
  }

  /** Against the empty text the walk is the key order, whatever the string. */
  lemma {:induction false} EndByKey(s: string)
    ensures FragmentCmp(s, []) == PadCompare(Key(s), [])
    decreases |s|
  {
    hide Round, SkipText, DigitRun, Number, PadCompare, FragmentCmp;
    CmpByStep(s, []);
    if s == [] {
      BothEmpty();
      EmptyKeys();
      EmptyKey();
    } else {
      EndText(s);
      match SkipText(s, [])
      case Differ(_) =>
      case Same(s', e) =>
        EmptyKey();
        RoundMovesOn(s, []);
        assert e == [] && |AfterRun(s')| < |s|;
        NumbersByKey(s', []);
        ZerosDoNotShow(Round(s'));
        EndByKey(AfterRun(s'));
    }
  }

  lemma EmptyKey()
    ensures Key([]) == [] && Round([]) == [0, 0] && AfterRun([]) == [] && Number([]) == 0
  {
    RoundAtDigits([]);
    assert AfterRun([]) == [];
  }

  lemma GoodTail(s: string)
    requires NulBehindDigit(s) && OnText(s)
    ensures s[0] != Nul && NulBehindDigit(s[1..])
  {
    assert NulFree(s[..0]);
    assert s[0] != Nul;
    forall k | 0 <= k < |s[1..]| && s[1..][k] == Nul && NulFree(s[1..][..k]) ensures k > 0 && IsDigit(s[1..][k - 1]) {
      assert s[k + 1] == Nul;
      var front := s[..k + 1];
      forall i | 0 <= i < |front| ensures front[i] as int != 0 {
        if i > 0 { assert front[i] == s[1..][..k][i - 1]; }
      }
      assert NulFree(front);
    }
  }

  lemma GoodAfterRun(s: string)
    requires NulBehindDigit(s) && !OnText(s)
    ensures var rest := AfterRun(s); (rest != [] && rest[0] == Nul) || NulBehindDigit(rest)
  {
    var r := |DigitRun(s)|;
    var rest := AfterRun(s);
    if rest != [] && rest[0] != Nul {
      forall k | 0 <= k < |rest| && rest[k] == Nul && NulFree(rest[..k]) ensures k > 0 && IsDigit(rest[k - 1]) {
        assert s[r + k] == Nul;
        var front := s[..r + k];
        forall i | 0 <= i < |front| ensures front[i] as int != 0 {
          if i < r { assert IsDigit(DigitRun(s)[i]); } else { assert front[i] == rest[..k][i - r]; }
        }
        assert NulFree(front);
      }
    }
  }

  lemma {:induction false} GoodText(a: string, b: string)
    requires NulBehindDigit(a) && NulFree(b)
    ensures match SkipText(a, b)
            case Differ(o) => PadCompare(Round(a), Round(b)) == o
            case Same(a', b') =>
              && NulBehindDigit(a') && NulFree(b')
              && PadCompare(Round(a), Round(b)) == PadCompare(Round(a'), Round(b'))
    decreases |a| + |b|
  {
    hide Round, NulBehindDigit;
    if OnText(a) || OnText(b) {
      HeadIsWeight(a);
      HeadIsWeight(b);
      if OnText(a) { GoodTail(a); }
      if Weight(a) == Weight(b) {
        assert OnText(a) && OnText(b) by {
          if OnText(a) { assert Order(a[0]) != 0; }
          if OnText(b) { assert Order(b[0]) != 0; }
        }
        RoundAtText(a);
        RoundAtText(b);
        assert Rest(Round(a)) == Round(a[1..]) && Rest(Round(b)) == Round(b[1..]);
        GoodText(a[1..], b[1..]);
      }
    }
  }

  /** On a NUL byte against text without one, or its end. */
  lemma OnNulByKey(a: string, b: string)
    requires a != [] && a[0] == Nul && NulFree(b) && (b == [] || OnText(b))
    ensures FragmentCmp(a, b) == PadCompare(Key(a), Key(b))
  {
    if b == [] {
      EndByKey(a);
      EmptyKey();
    } else {
      hide Round;
      CmpByStep(a, b);
      HeadIsWeight(a);
      HeadIsWeight(b);
      assert Order(b[0]) != 0 && Order(a[0]) == 0;
    }
  }

  lemma {:induction false} GoodByKey(a: string, b: string)
    requires NulBehindDigit(a) && NulFree(b)
    ensures FragmentCmp(a, b) == PadCompare(Key(a), Key(b))
    decreases |a| + |b|
  {
    hide Round, SkipText, DigitRun, Number, PadCompare, Key, FragmentCmp, NulBehindDigit;
    CmpByStep(a, b);
    if a == [] && b == [] {
      BothEmpty();
      EmptyKeys();
    } else {
      GoodText(a, b);
      KeyIsRound(a, b);
      match SkipText(a, b)
      case Differ(_) =>
      case Same(a', b') =>
        RoundMovesOn(a, b);
        NumbersByKey(a', b');
        GoodAfterRun(a');
        RestNulFree(b');
        var x, y := AfterRun(a'), AfterRun(b');
        if x != [] && x[0] == Nul { OnNulByKey(x, y); } else { GoodByKey(x, y); }
    }
  }

  lemma RestNulFree(s: string)
    requires NulFree(s)
    ensures NulFree(AfterRun(s)) && (AfterRun(s) == [] || OnText(AfterRun(s)))
  {
  }

  // ----- and otherwise it does not fit -----

  lemma FragmentSelf(s: string)
    ensures FragmentCmp(s, s) == Equal && PadCompare(Key(s), Key(s)) == Equal
  {
    hide FragmentCmp, PadCompare;
    FragmentFlips(s, s);
    PadFlips(Key(s), Key(s));
  }

  /** A shared beginning that ends in text does not show. */
  lemma {:induction false} PrefixDoesNotShow(x: string, p: string, q: string)
    requires x == [] || !IsDigit(x[|x| - 1])
    ensures FragmentCmp(x + p, x + q) == FragmentCmp(p, q)
    decreases |x|
  {
    hide FragmentCmp, DigitRun;
    if x == [] {
      assert x + p == p && x + q == q;
    } else if OnText(x) {
      TextDoesNotShow(x, p, q);
      PrefixDoesNotShow(x[1..], p, q);
    } else {
      DigitsDoNotShow(x, p, q);
      PrefixDoesNotShow(x[|DigitRun(x)|..], p, q);
    }
  }

  lemma TextDoesNotShow(x: string, p: string, q: string)
    requires OnText(x)
    ensures FragmentCmp(x + p, x + q) == FragmentCmp(x[1..] + p, x[1..] + q)
  {
    hide FragmentCmp, ByStep, Order, SkipText;
    CmpByStep(x + p, x + q);
    CmpByStep(x[1..] + p, x[1..] + q);
    assert Tail(x + p) == x[1..] + p && Tail(x + q) == x[1..] + q;
    assert OnText(x + p) && Weight(x + p) == Weight(x + q);
    SkipOne(x + p, x + q);
  }

  lemma SkipOne(a: string, b: string)
    requires OnText(a) && Weight(a) == Weight(b)
    ensures SkipText(a, b) == SkipText(Tail(a), Tail(b))
  {
  }

  lemma DigitsDoNotShow(x: string, p: string, q: string)
    requires x != [] && !OnText(x) && !IsDigit(x[|x| - 1])
    ensures 0 < |DigitRun(x)| < |x|
    ensures FragmentCmp(x + p, x + q) == FragmentCmp(x[|DigitRun(x)|..] + p, x[|DigitRun(x)|..] + q)
  {
    RunInPrefix(x, p);
    RunInPrefix(x, q);
    assert |DigitRun(x)| > 0;
    hide FragmentCmp, DigitRun, Value;
    CmpByStep(x + p, x + q);
    assert !OnText(x + p) && !OnText(x + q);
  }

  lemma {:induction false} RunInPrefix(x: string, p: string)
    requires x != [] && !IsDigit(x[|x| - 1])
    ensures DigitRun(x + p) == DigitRun(x) && |DigitRun(x)| < |x|
    ensures AfterRun(x + p) == x[|DigitRun(x)|..] + p
  {
    if IsDigit(x[0]) {
      assert (x + p)[1..] == x[1..] + p;
      RunInPrefix(x[1..], p);
    }
  }

  function Copies(c: char, n: nat): (r: string)
    ensures |r| == n && forall i :: 0 <= i < n ==> r[i] == c
  {
    seq(n, _ => c)
  }

  /** The character of the greatest weight. */
  const Top: char := '\U{10FFFF}'

  lemma {:induction false} BelowTops(y: string, n: nat)
    requires n > |y|
    ensures SkipText(y, Copies(Top, n)) == Differ(Less)
    decreases |y|
  {
    var tops := Copies(Top, n);
    assert OnText(tops) && Weight(tops) == Top as int + 256;
    if y != [] && Weight(y) == Weight(tops) {
      assert Tail(tops) == Copies(Top, n - 1);
      BelowTops(y[1..], n - 1);
    }
  }

  lemma {:induction false} AboveTildes(y: string, n: nat)
    requires n > |y|
    ensures SkipText(y, Copies('~', n)) == Differ(Greater)
    decreases |y|
  {
    var tildes := Copies('~', n);
    assert OnText(tildes) && Weight(tildes) == -1;
    if y != [] && Weight(y) == -1 {
      assert Tail(tildes) == Copies('~', n - 1);
      AboveTildes(y[1..], n - 1);
    }
  }

  /** Two versions without NUL bytes around any text behind a NUL. */
  function LowSide(x: string, y: string): string { x + ("6" + Copies('~', |y| + 1)) }

  function HighSide(x: string, y: string): string { x + ("5" + Copies(Top, |y| + 1)) }

  lemma NulAgainstDigit(y: string, c: char, rest: string)
    requires IsDigit(c) && SkipText(y, rest).Differ?
    ensures FragmentCmp([Nul] + y, [c] + rest) == SkipText(y, rest).order
  {
    CmpByStep([Nul] + y, [c] + rest);
    assert Tail([Nul] + y) == y && Tail([c] + rest) == rest;
  }

  lemma SixAboveFive(p: string, q: string)
    requires OnText(p) && OnText(q)
    ensures FragmentCmp("5" + p, "6" + q) == Less
  {
    CmpByStep("5" + p, "6" + q);
    OneDigit('5', p);
    OneDigit('6', q);
  }

  lemma OneDigit(c: char, p: string)
    requires IsDigit(c) && OnText(p)
    ensures Number([c] + p) == c as int - '0' as int && !OnText([c] + p)
  {
    assert ([c] + p)[1..] == p && DigitRun(p) == [];
    assert DigitRun([c] + p) == [c];
    assert [c][..|[c]| - 1] == [] && Value([]) == 0;
    assert Value([c]) == Value([c][..|[c]| - 1]) * 10 + (c as int - '0' as int);
  }

  /**
   A NUL byte that is first, or behind a character that is no digit, stands above one version
   and below another although these are the other way round.
   */
  lemma NulBreaksOrder(x: string, y: string)
    requires NulFree(x) && (x == [] || !IsDigit(x[|x| - 1]))
    ensures var s := x + ([Nul] + y);
            && NulFree(LowSide(x, y)) && NulFree(HighSide(x, y))
            && FragmentCmp(LowSide(x, y), s) == Less && FragmentCmp(s, HighSide(x, y)) == Less
            && FragmentCmp(HighSide(x, y), LowSide(x, y)) == Less
  {
    hide FragmentCmp, SkipText;
    var n := |y| + 1;
    var low, high := "6" + Copies('~', n), "5" + Copies(Top, n);
    BelowTops(y, n);
    AboveTildes(y, n);
    NulAgainstDigit(y, '5', Copies(Top, n));
    NulAgainstDigit(y, '6', Copies('~', n));
    SixAboveFive(Copies(Top, n), Copies('~', n));
    PrefixDoesNotShow(x, [Nul] + y, high);
    PrefixDoesNotShow(x, [Nul] + y, low);
    PrefixDoesNotShow(x, high, low);
    FragmentFlips(x + ([Nul] + y), x + low);
  }

  lemma FirstBadNul(s: string) returns (x: string, y: string)
    requires !NulBehindDigit(s)
    ensures s == x + ([Nul] + y) && NulFree(x) && (x == [] || !IsDigit(x[|x| - 1]))
  {
    var k :| 0 <= k < |s| && s[k] == Nul && NulFree(s[..k]) && !(k > 0 && IsDigit(s[k - 1]));
    x, y := s[..k], s[k + 1..];
  }

  // ----- exactly, for one fragment -----

  function FragmentComparator(): Comparator { (a, b) => Some(FragmentCmp(a, b)) }

  /** All strings without a NUL byte, and this one. */
  ghost function With(s: string): iset<string> { iset v | NulFree(v) || v == s }

  lemma WithByKey(s: string, a: string, b: string)
    requires NulBehindDigit(s) && a in With(s) && b in With(s)
    ensures FragmentCmp(a, b) == PadCompare(Key(a), Key(b))
  {
    hide FragmentCmp, PadCompare, Key, NulBehindDigit;
    if NulFree(a) && NulFree(b) {
      WalkIsKeyOrder(a, b);
    } else if NulFree(b) {
      GoodByKey(s, b);
    } else if NulFree(a) {
      GoodByKey(s, a);
      FragmentFlips(s, a);
      PadFlips(Key(s), Key(a));
    } else {
      FragmentSelf(s);
    }
  }

  lemma GoodFits(s: string)
    requires NulBehindDigit(s)
    ensures TotalPreorder(FragmentComparator(), With(s))
  {
    hide FragmentCmp, PadCompare, Key, NulBehindDigit, With;
    forall a, b | a in With(s) && b in With(s) ensures FragmentCmp(a, b) == Less <==> FragmentCmp(b, a) == Greater {
      FragmentFlips(a, b);
    }
    forall a, b, c | a in With(s) && b in With(s) && c in With(s) && FragmentCmp(a, b) != Greater && FragmentCmp(b, c) != Greater
      ensures FragmentCmp(a, c) != Greater
    {
      WithByKey(s, a, b);
      WithByKey(s, b, c);
      WithByKey(s, a, c);
      PadTrans(Key(a), Key(b), Key(c));
    }
  }

  /**
   The comparison of fragments totally preorders all strings without NUL bytes together with
   `s` exactly when the first NUL of `s`, if any, stands right behind a digit.
   */
  lemma FragmentPreorderExactly(s: string)
    ensures TotalPreorder(FragmentComparator(), With(s)) <==> NulBehindDigit(s)
  {
    hide NulBehindDigit, FragmentCmp;
    if NulBehindDigit(s) {
      GoodFits(s);
    } else {
      var x, y := FirstBadNul(s);
      NulBreaksOrder(x, y);
      var cmp := FragmentComparator();
      var low, high := LowSide(x, y), HighSide(x, y);
      assert low in With(s) && high in With(s) && s in With(s);
      FragmentFlips(s, high);
      assert cmp(high, low) == Some(Less) && cmp(low, s) == Some(Less) && cmp(high, s) == Some(Greater);
    }
  }

  // ----- exactly, for one whole version -----

  /** A version with these parts. */
  function Glue(x: Parts): string { Text.Decimal(x.epoch) + ":" + (x.upstream + "-" + x.revision) }

  lemma {:induction false} FirstIndexAt(a: string, c: char, b: string)
    requires c !in a
    ensures FirstIndex(a + [c] + b, c) == Some(|a|)
  {
    var s := a + [c] + b;
    if a != [] {
      assert s[0] == a[0] && s[1..] == a[1..] + [c] + b;
      FirstIndexAt(a[1..], c, b);
    }
  }

  lemma {:induction false} LastIndexAt(a: string, c: char, b: string)
    requires c !in b
    ensures LastIndex(a + [c] + b, c) == Some(|a|)
    decreases |b|
  {
    var s := a + [c] + b;
    if b == [] {
      assert s[|s| - 1] == c;
    } else {
      assert s[|s| - 1] == b[|b| - 1] && s[..|s| - 1] == a + [c] + b[..|b| - 1];
      LastIndexAt(a, c, b[..|b| - 1]);
    }
  }

  lemma {:induction false} ValueOfDecimal(n: nat)
    ensures (forall c :: c in Text.Decimal(n) ==> IsDigit(c)) && Value(Text.Decimal(n)) == n
  {
    var d := Text.Decimal(n);
    if n >= 10 {
      ValueOfDecimal(n / 10);
      assert d[..|d| - 1] == Text.Decimal(n / 10) && d[|d| - 1] == Text.Digit(n % 10);
    } else {
      assert d[..|d| - 1] == [] && Value([]) == 0;
    }
  }

  const EpochLimit: nat := 0x1_0000_0000_0000_0000

  lemma SplitGlued(x: Parts)
    requires x.epoch < EpochLimit && '-' !in x.revision
    ensures Split(Glue(x)) == x
  {
    hide FirstIndex, LastIndex, Value;
    var e, rest := Text.Decimal(x.epoch), x.upstream + "-" + x.revision;
    ValueOfDecimal(x.epoch);
    assert Glue(x) == e + [':'] + rest && rest == x.upstream + ['-'] + x.revision;
    FirstIndexAt(e, ':', rest);
    LastIndexAt(x.upstream, '-', x.revision);
    assert Glue(x)[..|e|] == e && Glue(x)[|e| + 1..] == rest;
    assert rest[..|x.upstream|] == x.upstream && rest[|x.upstream| + 1..] == x.revision;
  }

  lemma GluedNulFree(x: Parts)
    requires NulFree(x.upstream) && NulFree(x.revision)
    ensures NulFree(Glue(x))
  {
    var e := Text.Decimal(x.epoch);
    forall i | 0 <= i < |e| ensures e[i] as int != 0 { assert e[i] in e; }
  }

  lemma {:induction false} NothingBehindLast(s: string, c: char)
    ensures match LastIndex(s, c) case Some(i) => c !in s[i + 1..] case None => c !in s
    decreases |s|
  {
    if s != [] && s[|s| - 1] != c {
      var front := s[..|s| - 1];
      NothingBehindLast(front, c);
      assert s == front + [s[|s| - 1]];
      match LastIndex(front, c) {
        case Some(i) => assert s[i + 1..] == front[i + 1..] + [s[|s| - 1]];
        case None =>
      }
    }
  }

  lemma SplitShape(v: string)
    ensures Split(v).epoch < EpochLimit && '-' !in Split(v).revision
  {
    hide LastIndex, FirstIndex, Value;
    NothingBehindLast(SplitEpoch(v).1, '-');
  }

  /** Some fragment without NUL bytes compares equal to this one. */
  ghost predicate Matched(s: string) { exists f :: NulFree(f) && FragmentCmp(s, f) == Equal }

  ghost predicate AllZero(s: string) { forall i :: 0 <= i < |s| ==> s[i] == Nul || s[i] == '0' }

  /** From the first NUL byte on there is nothing but NUL bytes and zeros. */
  ghost predicate ZerosFromNul(s: string) {
    forall k :: 0 <= k < |s| && s[k] == Nul && NulFree(s[..k]) ==> AllZero(s[k..])
  }

  /** The upstream part fits, and so does the revision wherever it can come to it. */
  ghost predicate FittingParts(x: Parts) {
    NulBehindDigit(x.upstream) && (NulBehindDigit(x.revision) || !ZerosFromNul(x.upstream))
  }

  lemma {:induction false} ValueZero(digits: string)
    requires AllDigits(digits)
    ensures Value(digits) == 0 <==> AllZero(digits)
    decreases |digits|
  {
    if digits != [] {
      var front, last := digits[..|digits| - 1], digits[|digits| - 1];
      assert digits == front + [last] && IsDigit(last);
      ValueZero(front);
      assert AllZero(digits) <==> AllZero(front) && last == '0';
    }
  }

  lemma {:induction false} ZeroText(s: string)
    ensures match SkipText(s, [])
            case Differ(o) => o != Equal && !AllZero(s)
            case Same(s', e) => e == [] && (AllZero(s) <==> AllZero(s'))
  {
    if OnText(s) {
      assert AllZero(s) <==> s[0] == Nul && AllZero(s[1..]) by {
        assert s == [s[0]] + s[1..];
      }
      if Weight(s) == 0 { ZeroText(s[1..]); }
    }
  }

  lemma ZeroRun(s: string)
    ensures AllZero(s) <==> Number(s) == 0 && AllZero(AfterRun(s))
  {
    hide Value;
    var d := DigitRun(s);
    ValueZero(d);
    assert s == d + AfterRun(s);
  }

  /** What equals the empty text. */
  lemma {:induction false} EqualsEnd(s: string)
    ensures FragmentCmp(s, []) == Equal <==> AllZero(s)
    decreases |s|
  {
    hide FragmentCmp, SkipText, DigitRun, Number, AllZero;
    CmpByStep(s, []);
    ZeroText(s);
    if s == [] {
      BothEmpty();
      NothingZero();
    } else {
      match SkipText(s, [])
      case Differ(_) =>
      case Same(s', e) =>
        EmptyKey();
        RoundMovesOn(s, []);
        assert e == [] && |AfterRun(s')| < |s|;
        ZeroRun(s');
        EqualsEnd(AfterRun(s'));
    }
  }

  lemma NothingZero()
    ensures AllZero([])
  {
  }

  /** Before the first NUL the rest decides. */
  lemma ZerosFromNulTail(s: string, n: nat)
    requires n <= |s| && NulFree(s[..n])
    ensures ZerosFromNul(s[n..]) ==> ZerosFromNul(s)
  {
    if ZerosFromNul(s[n..]) {
      forall k | 0 <= k < |s| && s[k] == Nul && NulFree(s[..k]) ensures AllZero(s[k..]) {
        assert s[n..][k - n] == Nul;
        var before := s[n..][..k - n];
        forall i | 0 <= i < |before| ensures before[i] as int != 0 { assert before[i] == s[..k][n + i]; }
        assert NulFree(before);
        assert s[n..][k - n..] == s[k..];
      }
    }
  }

  lemma {:induction false} MatchedText(a: string, b: string)
    requires NulBehindDigit(a) && NulFree(b) && SkipText(a, b).Same?
    ensures var st := SkipText(a, b);
            NulBehindDigit(st.a) && NulFree(st.b) && (ZerosFromNul(st.a) ==> ZerosFromNul(a))
    decreases |a| + |b|
  {
    hide NulBehindDigit, ZerosFromNul;
    if OnText(a) || OnText(b) {
      if OnText(a) { GoodTail(a); }
      assert OnText(a) && OnText(b) by {
        if OnText(a) { assert Order(a[0]) != 0; }
        if OnText(b) { assert Order(b[0]) != 0; }
      }
      MatchedText(a[1..], b[1..]);
      ZerosFromNulTail(a, 1);
    }
  }

  lemma RunNulFree(s: string)
    ensures NulFree(s[..|DigitRun(s)|])
  {
    var d := DigitRun(s);
    assert s[..|d|] == d;
    forall i | 0 <= i < |d| ensures d[i] as int != 0 { assert d[i] in d; }
  }

  lemma AllZeroFromNul(s: string)
    requires AllZero(s)
    ensures ZerosFromNul(s)
  {
  }

  lemma {:induction false} EqualMeansZeros(a: string, b: string)
    requires NulBehindDigit(a) && NulFree(b) && FragmentCmp(a, b) == Equal
    ensures ZerosFromNul(a)
    decreases |a| + |b|
  {
    hide FragmentCmp, SkipText, DigitRun, Number, NulBehindDigit, ZerosFromNul, AllZero;
    CmpByStep(a, b);
    if a == [] && b == [] {
      NothingZero();
      AllZeroFromNul([]);
    } else {
      EqualSame(a, b);
      var st := SkipText(a, b);
      MatchedText(a, b);
      RoundMovesOn(a, b);
      var x, y := AfterRun(st.a), AfterRun(st.b);
      GoodAfterRun(st.a);
      RestNulFree(st.b);
      RunNulFree(st.a);
      ZerosFromNulTail(st.a, |DigitRun(st.a)|);
      if x != [] && x[0] == Nul {
        NulEqualsOnlyEnd(x, y);
        EqualsEnd(x);
        AllZeroFromNul(x);
      } else {
        EqualMeansZeros(x, y);
      }
    }
  }

  lemma {:induction false} EqualSame(a: string, b: string)
    ensures SkipText(a, b).Differ? ==> SkipText(a, b).order != Equal
    decreases |a| + |b|
  {
    if (OnText(a) || OnText(b)) && Weight(a) == Weight(b) { EqualSame(Tail(a), Tail(b)); }
  }

  lemma NulEqualsOnlyEnd(a: string, b: string)
    requires a != [] && a[0] == Nul && NulFree(b) && (b == [] || OnText(b)) && FragmentCmp(a, b) == Equal
    ensures b == []
  {
    CmpByStep(a, b);
  }

  /** Zeros and NUL bytes behind a digit add nothing. */
  lemma {:induction false} ZerosAddNothing(x: string, z: string)
    requires x != [] && IsDigit(x[|x| - 1]) && z != [] && z[0] == Nul && AllZero(z)
    ensures FragmentCmp(x + z, x) == Equal
    decreases |x|
  {
    hide FragmentCmp, Value, AllZero;
    CmpByStep(x + z, x);
    if OnText(x) {
      assert Tail(x + z) == x[1..] + z && Tail(x) == x[1..];
      CmpByStep(x[1..] + z, x[1..]);
      ZerosAddNothing(x[1..], z);
    } else {
      RunBefore(x, z);
      var rest := x[|DigitRun(x)|..];
      if rest == [] {
        assert rest + z == z;
        EqualsEnd(z);
      } else {
        ZerosAddNothing(rest, z);
      }
    }
  }

  lemma {:induction false} RunBefore(x: string, z: string)
    requires z != [] && !IsDigit(z[0])
    ensures DigitRun(x + z) == DigitRun(x) && AfterRun(x + z) == x[|DigitRun(x)|..] + z
  {
    if x == [] {
      assert x + z == z;
    } else if IsDigit(x[0]) {
      assert (x + z)[1..] == x[1..] + z;
      RunBefore(x[1..], z);
    }
  }

  lemma {:induction false} FirstNul(s: string) returns (k: nat)
    requires !NulFree(s)
    ensures k < |s| && s[k] == Nul && NulFree(s[..k])
  {
    k := 0;
    while s[k] != Nul
      invariant k < |s| && NulFree(s[..k])
      invariant exists i :: k <= i < |s| && s[i] as int == 0
      decreases |s| - k
    {
      k := k + 1;
    }
  }

  /** Among the strings that fit, those equal to one without NUL bytes. */
  lemma MatchedExactly(s: string)
    requires NulBehindDigit(s)
    ensures Matched(s) <==> ZerosFromNul(s)
  {
    hide FragmentCmp, AllZero;
    if f :| NulFree(f) && FragmentCmp(s, f) == Equal { EqualMeansZeros(s, f); }
    if ZerosFromNul(s) {
      if NulFree(s) {
        FragmentSelf(s);
      } else {
        var k := FirstNul(s);
        assert s == s[..k] + s[k..];
        assert s[..k][k - 1] == s[k - 1];
        ZerosAddNothing(s[..k], s[k..]);
      }
    }
  }

  /** Parts compared by their keys. */
  function KeyCompare(x: Parts, y: Parts): Ordering {
    if x.epoch != y.epoch then CompareInt(x.epoch, y.epoch)
    else if PadCompare(Key(x.upstream), Key(y.upstream)) != Equal then PadCompare(Key(x.upstream), Key(y.upstream))
    else PadCompare(Key(x.revision), Key(y.revision))
  }

  lemma KeyFlips(x: Parts, y: Parts)
    ensures KeyCompare(y, x) == Flip(KeyCompare(x, y))
  {
    hide PadCompare, Key;
    PadFlips(Key(x.upstream), Key(y.upstream));
    PadFlips(Key(x.revision), Key(y.revision));
  }

  lemma KeyTrans(x: Parts, y: Parts, z: Parts)
    requires KeyCompare(x, y) != Greater && KeyCompare(y, z) != Greater
    ensures KeyCompare(x, z) != Greater
  {
    hide PadCompare, Key;
    if x.epoch == y.epoch == z.epoch {
      PadTrans(Key(x.upstream), Key(y.upstream), Key(z.upstream));
      if PadCompare(Key(x.upstream), Key(z.upstream)) == Equal {
        PadTrans(Key(x.revision), Key(y.revision), Key(z.revision));
      }
    }
  }

  lemma FittingByKey(v: string, b: string)
    requires FittingParts(Split(v)) && NulFree(b)
    ensures DpkgCompare(v, b) == KeyCompare(Split(v), Split(b))
  {
    hide Split, FragmentCmp, PadCompare, Key, NulBehindDigit, NulFree, ZerosFromNul;
    var x, y := Split(v), Split(b);
    SplitNulFree(b);
    GoodByKey(x.upstream, y.upstream);
    if x.epoch == y.epoch && FragmentCmp(x.upstream, y.upstream) == Equal {
      EqualMeansZeros(x.upstream, y.upstream);
      GoodByKey(x.revision, y.revision);
    }
  }

  lemma DpkgFlipsAll(a: string, b: string)
    ensures DpkgCompare(b, a) == Flip(DpkgCompare(a, b))
  {
    hide Split, FragmentCmp;
    FragmentFlips(Split(a).upstream, Split(b).upstream);
    FragmentFlips(Split(a).revision, Split(b).revision);
  }

  lemma VersionsByKey(v: string, a: string, b: string)
    requires FittingParts(Split(v)) && a in With(v) && b in With(v)
    ensures DpkgCompare(a, b) == KeyCompare(Split(a), Split(b))
  {
    hide Split, DpkgCompare, KeyCompare, FittingParts;
    if NulFree(a) && NulFree(b) {
      PlainByKey(a, b);
    } else if NulFree(b) {
      FittingByKey(v, b);
    } else if NulFree(a) {
      FittingByKey(v, a);
      DpkgFlipsAll(v, a);
      KeyFlips(Split(v), Split(a));
    } else {
      DpkgFlipsAll(v, v);
      KeyFlips(Split(v), Split(v));
    }
  }

  lemma PlainByKey(a: string, b: string)
    requires NulFree(a) && NulFree(b)
    ensures DpkgCompare(a, b) == KeyCompare(Split(a), Split(b))
  {
    hide Split, DpkgCompare, PadCompare, Key;
    DpkgByKeys(a, b);
  }

  lemma FittingVersionFits(v: string)
    requires FittingParts(Split(v))
    ensures TotalPreorder(DpkgComparator(), With(v))
  {
    hide Split, DpkgCompare, KeyCompare, FittingParts, With;
    forall a, b | a in With(v) && b in With(v) ensures DpkgCompare(a, b) == Less <==> DpkgCompare(b, a) == Greater {
      DpkgFlipsAll(a, b);
    }
    forall a, b, c | a in With(v) && b in With(v) && c in With(v) && DpkgCompare(a, b) != Greater && DpkgCompare(b, c) != Greater
      ensures DpkgCompare(a, c) != Greater
    {
      VersionsByKey(v, a, b);
      VersionsByKey(v, b, c);
      VersionsByKey(v, a, c);
      KeyTrans(Split(a), Split(b), Split(c));
    }
  }

  /** A version between two others that are the other way round fits no preorder. */
  lemma CycleBreaks(v: string, low: string, high: string)
    requires NulFree(low) && NulFree(high)
    requires DpkgCompare(low, v) == Less && DpkgCompare(v, high) == Less && DpkgCompare(high, low) == Less
    ensures !TotalPreorder(DpkgComparator(), With(v))
  {
    hide DpkgCompare;
    var cmp := DpkgComparator();
    DpkgFlipsAll(v, high);
    assert low in With(v) && high in With(v) && v in With(v);
    assert cmp(high, low) == Some(Less) && cmp(low, v) == Some(Less) && cmp(high, v) == Some(Greater);
  }

  lemma BadUpstreamBreaks(v: string)
    requires !NulBehindDigit(Split(v).upstream)
    ensures !TotalPreorder(DpkgComparator(), With(v))
  {
    hide Split, FragmentCmp, NulBehindDigit, Glue, TotalPreorder;
    var p := Split(v);
    SplitShape(v);
    var x, y := FirstBadNul(p.upstream);
    NulBreaksOrder(x, y);
    var low, high := Parts(p.epoch, LowSide(x, y), ""), Parts(p.epoch, HighSide(x, y), "");
    SplitGlued(low);
    SplitGlued(high);
    GluedNulFree(low);
    GluedNulFree(high);
    CycleBreaks(v, Glue(low), Glue(high));
  }

  lemma BadRevisionBreaks(v: string, f: string)
    requires NulFree(f) && FragmentCmp(Split(v).upstream, f) == Equal && !NulBehindDigit(Split(v).revision)
    ensures !TotalPreorder(DpkgComparator(), With(v))
  {
    hide Split, FragmentCmp, NulBehindDigit, Glue, TotalPreorder;
    var p := Split(v);
    SplitShape(v);
    var x, y := FirstBadNul(p.revision);
    NulBreaksOrder(x, y);
    SidesWithoutDash(x, y);
    var low, high := Parts(p.epoch, f, LowSide(x, y)), Parts(p.epoch, f, HighSide(x, y));
    SplitGlued(low);
    SplitGlued(high);
    GluedNulFree(low);
    GluedNulFree(high);
    FragmentFlips(p.upstream, f);
    FragmentSelf(f);
    CycleBreaks(v, Glue(low), Glue(high));
  }

  lemma SidesWithoutDash(x: string, y: string)
    requires '-' !in x
    ensures '-' !in LowSide(x, y) && '-' !in HighSide(x, y)
  {
  }

  /**
   The comparison totally preorders all versions without NUL bytes together with `v` exactly
   when the first NUL of its upstream part stands behind a digit, and that of its revision
   too, unless the upstream part has more than NUL bytes and zeros from its first NUL on: then
   it equals no other and the revision never counts.
   */
  lemma DpkgPreorderExactly(v: string)
    ensures TotalPreorder(DpkgComparator(), With(v)) <==> FittingParts(Split(v))
  {
    hide Split, FragmentCmp, NulBehindDigit, TotalPreorder, ZerosFromNul;
    var p := Split(v);
    if FittingParts(p) {
      FittingVersionFits(v);
    } else if !NulBehindDigit(p.upstream) {
      BadUpstreamBreaks(v);
    } else {
      MatchedExactly(p.upstream);
      var f :| NulFree(f) && FragmentCmp(p.upstream, f) == Equal;
      BadRevisionBreaks(v, f);
    }
  }
}
