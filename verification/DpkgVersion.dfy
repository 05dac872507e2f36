/**
 The Debian version comparison: a two-index walk over alternating text and digit runs.
 It is shown to be the lexicographic order of a key read off each version alone, hence a
 total preorder. Characters stand for bytes.
 */
module DpkgVersion {
  import opened Basics
  import opened OsvMatching

  predicate IsDigit(c: char) { '0' <= c <= '9' }

  predicate IsLetter(c: char) { 'a' <= c <= 'z' || 'A' <= c <= 'Z' }

  function Order(c: char): int {
    if IsDigit(c) then 0
    else if IsLetter(c) then c as int
    else if c == '~' then -1
    else if c as int != 0 then c as int + 256
    else 0
  }

  function CompareInt(x: int, y: int): Ordering { if x < y then Less else if x > y then Greater else Equal }

  // ----- the walk -----

  function From(s: string, i: nat): string { if i <= |s| then s[i..] else [] }

  function Tail(s: string): string { if s == [] then [] else s[1..] }

  predicate OnText(s: string) { s != [] && !IsDigit(s[0]) }

  function Weight(s: string): int { if s == [] then 0 else Order(s[0]) }

  datatype TextStep = Differ(order: Ordering) | Same(a: string, b: string)

  /** Past the text both sides share. */
  function SkipText(a: string, b: string): (r: TextStep)
    ensures r.Same? ==> |r.a| <= |a| && |r.b| <= |b| && !OnText(r.a) && !OnText(r.b)
    decreases |a| + |b|
  {
    if !OnText(a) && !OnText(b) then Same(a, b)
    else if Weight(a) != Weight(b) then Differ(CompareInt(Weight(a), Weight(b)))
    else SkipText(Tail(a), Tail(b))
  }

  function DigitRun(s: string): (r: string)
    ensures r <= s && (forall c :: c in r ==> IsDigit(c))
    ensures |r| < |s| ==> !IsDigit(s[|r|])
  {
    if s == [] || !IsDigit(s[0]) then [] else [s[0]] + DigitRun(s[1..])
  }

  function AfterRun(s: string): string { s[|DigitRun(s)|..] }

  function Value(digits: string): nat
    requires forall c :: c in digits ==> IsDigit(c)
    decreases |digits|
  {
    if digits == [] then 0
    else
      assert IsDigit(digits[|digits| - 1]);
      Value(digits[..|digits| - 1]) * 10 + (digits[|digits| - 1] as int - '0' as int)
  }

  function Number(s: string): nat { Value(DigitRun(s)) }

  function FragmentCmp(a: string, b: string): Ordering
    decreases |a| + |b|
  {
    if a == [] && b == [] then Equal
    else
      match SkipText(a, b)
      case Differ(o) => o
      case Same(a', b') =>
        if Number(a') != Number(b') then CompareInt(Number(a'), Number(b'))
        else if |AfterRun(a')| + |AfterRun(b')| < |a| + |b| then FragmentCmp(AfterRun(a'), AfterRun(b'))
        else Equal
  }

  /** Every round moves on, so the last branch is never taken. */
  lemma RoundMovesOn(a: string, b: string)
    requires (a != [] || b != []) && SkipText(a, b).Same?
    ensures var s := SkipText(a, b); |AfterRun(s.a)| + |AfterRun(s.b)| < |a| + |b|
  {
    if !OnText(a) && !OnText(b) {
      assert (a != [] ==> |DigitRun(a)| > 0) && (b != [] ==> |DigitRun(b)| > 0);
    } else {
      assert SkipText(a, b) == SkipText(Tail(a), Tail(b));
    }
  }

  // ----- numbers read digit by digit -----

  function Pow10(n: nat): nat { if n == 0 then 1 else 10 * Pow10(n - 1) }

  ghost predicate AllDigits(s: string) { forall c :: c in s ==> IsDigit(c) }

  lemma {:induction false} ValueBelow(s: string)
    requires AllDigits(s)
    ensures Value(s) < Pow10(|s|)
    decreases |s|
  {
    if s != [] {
      assert IsDigit(s[|s| - 1]);
      ValueBelow(s[..|s| - 1]);
    }
  }

  lemma {:induction false} ValueAbove(s: string)
    requires AllDigits(s) && s != [] && s[0] != '0'
    ensures Value(s) >= Pow10(|s| - 1)
    decreases |s|
  {
    assert IsDigit(s[|s| - 1]);
    if |s| > 1 {
      ValueAbove(s[..|s| - 1]);
    } else {
      assert s[..0] == [];
    }
  }

  lemma {:induction false} Pow10Grows(m: nat, n: nat)
    requires m <= n
    ensures Pow10(m) <= Pow10(n)
  {
    if m < n { Pow10Grows(m, n - 1); }
  }

  /** Of two digit runs without leading zeros the longer one is the larger number. */
  lemma LongerIsLarger(x: string, y: string)
    requires AllDigits(x) && AllDigits(y) && |x| > |y| && x[0] != '0'
    ensures Value(x) > Value(y)
  {
    ValueAbove(x);
    ValueBelow(y);
    Pow10Grows(|y|, |x| - 1);
  }

  lemma {:induction false} LeadingZero(s: string)
    requires AllDigits(s)
    ensures AllDigits("0" + s) && Value("0" + s) == Value(s)
    decreases |s|
  {
    if s == [] {
      assert ("0" + s)[..0] == [];
    } else {
      LeadingZero(s[..|s| - 1]);
      assert ("0" + s)[..|s|] == "0" + s[..|s| - 1];
    }
  }

  /** The first difference decides between runs of equal length. */
  lemma OneDigitMore(x: string, y: string, c: char, d: char)
    requires AllDigits(x) && AllDigits(y) && IsDigit(c) && IsDigit(d)
    ensures AllDigits(x + [c]) && AllDigits(y + [d])
    ensures CompareInt(Value(x + [c]), Value(y + [d])) ==
            if Value(x) != Value(y) then CompareInt(Value(x), Value(y)) else CompareInt(c as int, d as int)
  {
    assert (x + [c])[..|x|] == x && (y + [d])[..|y|] == y;
  }

  method SkipZeros(s: string, start: nat) returns (i: nat)
    ensures i >= start
    ensures Number(From(s, i)) == Number(From(s, start)) && AfterRun(From(s, i)) == AfterRun(From(s, start))
    ensures DigitRun(From(s, i)) != [] ==> DigitRun(From(s, i))[0] != '0'
  {
    hide DigitRun, Value, Number, AfterRun;
    i := start;
    while i < |s| && s[i] == '0'
      invariant i >= start
      invariant Number(From(s, i)) == Number(From(s, start)) && AfterRun(From(s, i)) == AfterRun(From(s, start))
    {
      ZeroSkipped(From(s, i));
      assert From(s, i)[1..] == From(s, i + 1);
      i := i + 1;
    }
    RunHead(From(s, i));
  }

  lemma ZeroSkipped(rest: string)
    requires rest != [] && rest[0] == '0'
    ensures Number(rest[1..]) == Number(rest) && AfterRun(rest[1..]) == AfterRun(rest)
  {
    hide Value;
    assert DigitRun(rest) == "0" + DigitRun(rest[1..]);
    LeadingZero(DigitRun(rest[1..]));
  }

  lemma RunHead(s: string)
    ensures DigitRun(s) != [] ==> s != [] && DigitRun(s)[0] == s[0]
  {
  }

  /** The state of the lock-step pass: `k` digits of both runs read, their first difference kept. */
  ghost predicate InStep(x: string, y: string, k: nat, firstDiff: int) {
    && k <= |x| && k <= |y| && AllDigits(x[..k]) && AllDigits(y[..k])
    && CompareInt(Value(x[..k]), Value(y[..k])) == CompareInt(firstDiff, 0)
  }

  lemma StepOn(x: string, y: string, k: nat, firstDiff: int)
    requires InStep(x, y, k, firstDiff) && k < |x| && k < |y| && IsDigit(x[k]) && IsDigit(y[k])
    ensures InStep(x, y, k + 1, if firstDiff == 0 then x[k] as int - y[k] as int else firstDiff)
  {
    hide Value;
    assert x[..k + 1] == x[..k] + [x[k]] && y[..k + 1] == y[..k] + [y[k]];
    OneDigitMore(x[..k], y[..k], x[k], y[k]);
  }

  lemma StepEnd(x: string, y: string, k: nat, firstDiff: int)
    requires AllDigits(x) && AllDigits(y) && InStep(x, y, k, firstDiff) && (k == |x| || k == |y|)
    requires (x != [] ==> x[0] != '0') && (y != [] ==> y[0] != '0')
    ensures CompareInt(Value(x), Value(y)) ==
            if k < |x| then Greater else if k < |y| then Less else CompareInt(firstDiff, 0)
  {
    hide Value;
    if k < |x| {
      LongerIsLarger(x, y);
    } else if k < |y| {
      LongerIsLarger(y, x);
    } else {
      assert x[..k] == x && y[..k] == y;
    }
  }

  /** The lock-step pass over two runs without leading zeros. */
  method CompareRuns(a: string, b: string, p: nat, q: nat) returns (r: Ordering, i: nat, j: nat)
    requires DigitRun(From(a, p)) != [] ==> DigitRun(From(a, p))[0] != '0'
    requires DigitRun(From(b, q)) != [] ==> DigitRun(From(b, q))[0] != '0'
    ensures r == CompareInt(Number(From(a, p)), Number(From(b, q)))
    ensures r == Equal ==> From(a, i) == AfterRun(From(a, p)) && From(b, j) == AfterRun(From(b, q))
  {
    hide DigitRun, Value, InStep, From;
    ghost var x, y := DigitRun(From(a, p)), DigitRun(From(b, q));
    i, j := p, q;
    var firstDiff := 0;
    ghost var k := 0;
    NothingRead(x, y);
    InRun(a, p, k);
    InRun(b, q, k);
    while i < |a| && IsDigit(a[i]) && j < |b| && IsDigit(b[j])
      invariant k <= |x| && k <= |y| && i == p + k && j == q + k && InStep(x, y, k, firstDiff)
      decreases |a| - i
    {
      InRun(a, p, k);
      InRun(b, q, k);
      StepOn(x, y, k, firstDiff);
      if firstDiff == 0 {
        firstDiff := a[i] as int - b[j] as int;
      }
      i, j, k := i + 1, j + 1, k + 1;
    }
    InRun(a, p, k);
    InRun(b, q, k);
    StepEnd(x, y, k, firstDiff);
    if i < |a| && IsDigit(a[i]) {
      return Greater, i, j;
    }
    if j < |b| && IsDigit(b[j]) {
      return Less, i, j;
    }
    r := CompareInt(firstDiff, 0);
  }

  lemma NothingRead(x: string, y: string)
    ensures InStep(x, y, 0, 0)
  {
    assert x[..0] == [] && y[..0] == [];
  }

  /** A position inside or right behind a digit run. */
  lemma InRun(s: string, p: nat, k: nat)
    requires k <= |DigitRun(From(s, p))|
    ensures var run := DigitRun(From(s, p));
            && (p + k < |s| && IsDigit(s[p + k]) <==> k < |run|)
            && (k < |run| ==> run[k] == s[p + k])
            && From(s, p + k) == From(s, p)[k..]
  {
    var rest := From(s, p);
    assert k < |rest| ==> rest[k] == s[p + k];
  }

  method SkipSharedText(a: string, b: string, p: nat, q: nat) returns (r: Ordering, i: nat, j: nat)
    ensures r != Equal ==> SkipText(From(a, p), From(b, q)) == Differ(r)
    ensures r == Equal ==> SkipText(From(a, p), From(b, q)) == Same(From(a, i), From(b, j))
  {
    i, j := p, q;
    while OnText(From(a, i)) || OnText(From(b, j))
      invariant SkipText(From(a, i), From(b, j)) == SkipText(From(a, p), From(b, q))
      decreases |From(a, i)| + |From(b, j)|
    {
      var ac, bc := Weight(From(a, i)), Weight(From(b, j));
      if ac != bc {
        return CompareInt(ac, bc), i, j;
      }
      assert From(a, i + 1) == Tail(From(a, i)) && From(b, j + 1) == Tail(From(b, j));
      i, j := i + 1, j + 1;
    }
    r := Equal;
  }

  method VerRevCmp(a: string, b: string) returns (r: Ordering)
    ensures r == FragmentCmp(a, b)
  {
    hide SkipText, DigitRun, Value;
    var i: nat, j: nat := 0, 0;
    while i < |a| || j < |b|
      invariant FragmentCmp(From(a, i), From(b, j)) == FragmentCmp(a, b)
      decreases |From(a, i)| + |From(b, j)|
    {
      var s, t := From(a, i), From(b, j);
      var text, i1, j1 := SkipSharedText(a, b, i, j);
      if text != Equal {
        return text;
      }
      RoundMovesOn(s, t);
      var i2 := SkipZeros(a, i1);
      var j2 := SkipZeros(b, j1);
      var digits, i3, j3 := CompareRuns(a, b, i2, j2);
      if digits != Equal {
        return digits;
      }
      i, j := i3, j3;
    }
    r := Equal;
  }

  // ----- the key of a fragment -----

  function TextWeights(s: string): seq<int> {
    if OnText(s) then [Order(s[0])] + TextWeights(s[1..]) else []
  }

  function AfterText(s: string): (r: string)
    ensures |r| <= |s| && !OnText(r)
  {
    if OnText(s) then AfterText(s[1..]) else s
  }

  /** Text weights, a zero, the number, and so on. */
  function Round(s: string): seq<int>
    decreases |s|, 1
  {
    var rest := AfterText(s);
    TextWeights(s) + [0, Number(rest)] + (if |AfterRun(rest)| < |s| then Key(AfterRun(rest)) else [])
  }

  function Key(s: string): seq<int>
    decreases |s|, 2
  {
    if s == [] then [] else Round(s)
  }

  function Head(x: seq<int>): int { if x == [] then 0 else x[0] }

  function Rest(x: seq<int>): seq<int> { if x == [] then [] else x[1..] }

  /** Lexicographic, with zeros behind the end. */
  function PadCompare(x: seq<int>, y: seq<int>): Ordering
    decreases |x| + |y|
  {
    if x == [] && y == [] then Equal
    else if Head(x) != Head(y) then CompareInt(Head(x), Head(y))
    else PadCompare(Rest(x), Rest(y))
  }

  lemma {:induction false} ZerosDoNotShow(y: seq<int>)
    ensures PadCompare([0, 0], y) == PadCompare([], y) && PadCompare(y, [0, 0]) == PadCompare(y, [])
  {
    assert [0, 0][1..] == [0] && [0][1..] == [];
    assert PadCompare([0], Rest(y)) == PadCompare([], Rest(y));
    assert PadCompare(Rest(y), [0]) == PadCompare(Rest(y), []);
  }

  ghost predicate NulFree(s: string) { forall i :: 0 <= i < |s| ==> s[i] as int != 0 }

  lemma RoundAtDigits(s: string)
    requires !OnText(s)
    ensures Round(s) == [0, Number(s)] + Key(AfterRun(s))
  {
    assert TextWeights(s) == [] && AfterText(s) == s;
    if s == [] {
      assert AfterRun(s) == [] && DigitRun(s) == [];
    }
  }

  lemma RoundAtText(s: string)
    requires OnText(s)
    ensures Round(s) == [Order(s[0])] + Round(s[1..])
  {
    var rest := AfterText(s);
    assert rest == AfterText(s[1..]);
    if !(|AfterRun(rest)| < |s[1..]|) {
      assert |AfterRun(rest)| <= |rest| <= |s[1..]|;
      assert AfterRun(rest) == rest == s[1..];
      assert s[1..] == [];
    }
  }

  /** Skipping shared text is comparing the keys of the two rounds. */
  lemma {:induction false} TextByKey(a: string, b: string)
    requires NulFree(a) && NulFree(b)
    ensures match SkipText(a, b)
            case Differ(o) => PadCompare(Round(a), Round(b)) == o
            case Same(a', b') =>
              && NulFree(a') && NulFree(b')
              && PadCompare(Round(a), Round(b)) == PadCompare(Round(a'), Round(b'))
    decreases |a| + |b|
  {
    hide Round;
    if OnText(a) || OnText(b) {
      HeadIsWeight(a);
      HeadIsWeight(b);
      if Weight(a) == Weight(b) {
        assert OnText(a) && OnText(b) by {
          if OnText(a) { assert Order(a[0]) != 0; }
          if OnText(b) { assert Order(b[0]) != 0; }
        }
        RoundAtText(a);
        RoundAtText(b);
        assert Rest(Round(a)) == Round(a[1..]) && Rest(Round(b)) == Round(b[1..]);
        TextByKey(a[1..], b[1..]);
      }
    }
  }

  lemma HeadIsWeight(s: string)
    ensures Round(s) != [] && Head(Round(s)) == Weight(s)
  {
    if OnText(s) { RoundAtText(s); } else { RoundAtDigits(s); }
  }

  /** One number on each side, then the keys of what follows. */
  lemma NumbersByKey(a: string, b: string)
    requires !OnText(a) && !OnText(b)
    ensures PadCompare(Round(a), Round(b)) ==
            if Number(a) != Number(b) then CompareInt(Number(a), Number(b))
            else PadCompare(Key(AfterRun(a)), Key(AfterRun(b)))
  {
    hide Round, DigitRun, Number, Key;
    RoundAtDigits(a);
    RoundAtDigits(b);
    var m, n, x, y := Number(a), Number(b), Key(AfterRun(a)), Key(AfterRun(b));
    assert Rest([0, m] + x) == [m] + x && Rest([0, n] + y) == [n] + y;
    assert Rest([m] + x) == x && Rest([n] + y) == y;
    assert PadCompare([0, m] + x, [0, n] + y) == PadCompare([m] + x, [n] + y);
  }

  /** Without NUL bytes the walk is the lexicographic order of the keys. */
  lemma {:induction false} WalkIsKeyOrder(a: string, b: string)
    requires NulFree(a) && NulFree(b)
    ensures FragmentCmp(a, b) == PadCompare(Key(a), Key(b))
    decreases |a| + |b|
  {
    hide Round, SkipText, DigitRun, Number, PadCompare, Key;
    if a == [] && b == [] {
      EmptyKeys();
    } else {
      TextByKey(a, b);
      KeyIsRound(a, b);
      match SkipText(a, b)
      case Differ(_) =>
      case Same(a', b') =>
        RoundMovesOn(a, b);
        NumbersByKey(a', b');
        WalkIsKeyOrder(AfterRun(a'), AfterRun(b'));
    }
  }

  lemma EmptyKeys()
    ensures PadCompare(Key([]), Key([])) == Equal
  {
  }

  lemma KeyIsRound(a: string, b: string)
    ensures PadCompare(Round(a), Round(b)) == PadCompare(Key(a), Key(b))
  {
    hide Round;
    RoundAtDigits([]);
    assert Round([]) == [0, 0];
    ZerosDoNotShow(Key(a));
    ZerosDoNotShow(Key(b));
    ZerosDoNotShow([]);
  }

  // ----- a total preorder -----

  function Flip(o: Ordering): Ordering {
    match o case Less => Greater case Greater => Less case Equal => Equal
  }

  lemma {:induction false} PadFlips(x: seq<int>, y: seq<int>)
    ensures PadCompare(y, x) == Flip(PadCompare(x, y))
    decreases |x| + |y|
  {
    if (x != [] || y != []) && Head(x) == Head(y) { PadFlips(Rest(x), Rest(y)); }
  }

  lemma {:induction false} PadTrans(x: seq<int>, y: seq<int>, z: seq<int>)
    requires PadCompare(x, y) != Greater && PadCompare(y, z) != Greater
    ensures PadCompare(x, z) != Greater
    ensures PadCompare(x, z) == Equal ==> PadCompare(x, y) == Equal && PadCompare(y, z) == Equal
    decreases |x| + |y| + |z|
  {
    if x == [] && y == [] && z == [] {
    } else if Head(x) == Head(y) == Head(z) {
      PadSame(x, y);
      PadSame(y, z);
      PadSame(x, z);
      PadTrans(Rest(x), Rest(y), Rest(z));
    }
  }

  lemma PadSame(x: seq<int>, y: seq<int>)
    requires Head(x) == Head(y)
    ensures PadCompare(x, y) == PadCompare(Rest(x), Rest(y))
  {
  }

  // ----- whole versions -----

  /** Position of the first or last `c`. */
  function FirstIndex(s: string, c: char): (r: Option<nat>)
    ensures r.Some? ==> r.value < |s|
  {
    if s == [] then None
    else if s[0] == c then Some(0)
    else match FirstIndex(s[1..], c) case Some(i) => Some(i + 1) case None => None
  }

  function LastIndex(s: string, c: char): (r: Option<nat>)
    ensures r.Some? ==> r.value < |s|
    decreases |s|
  {
    if s == [] then None else if s[|s| - 1] == c then Some(|s| - 1) else LastIndex(s[..|s| - 1], c)
  }

  datatype Parts = Parts(epoch: nat, upstream: string, revision: string)

  /** An epoch beyond 64 bits reads as zero. */
  function Epoch(digits: string): nat
    requires forall c :: c in digits ==> IsDigit(c)
  {
    if Value(digits) < 0x1_0000_0000_0000_0000 then Value(digits) else 0
  }

  /** The epoch and what stands behind it. */
  function SplitEpoch(v: string): (nat, string) {
    var colon := FirstIndex(v, ':');
    if colon.Some? && colon.value > 0 && (forall c :: c in v[..colon.value] ==> IsDigit(c))
    then (Epoch(v[..colon.value]), v[colon.value + 1..])
    else (0, v)
  }

  function Split(v: string): Parts {
    var (epoch, rest) := SplitEpoch(v);
    match LastIndex(rest, '-')
    case Some(i) => Parts(epoch, rest[..i], rest[i + 1..])
    case None => Parts(epoch, rest, "")
  }

  function DpkgCompare(a: string, b: string): Ordering {
    var x, y := Split(a), Split(b);
    if x.epoch != y.epoch then CompareInt(x.epoch, y.epoch)
    else if FragmentCmp(x.upstream, y.upstream) != Equal then FragmentCmp(x.upstream, y.upstream)
    else FragmentCmp(x.revision, y.revision)
  }

  function DpkgComparator(): Comparator { (a, b) => Some(DpkgCompare(a, b)) }

  lemma SplitNulFree(v: string)
    requires NulFree(v)
    ensures NulFree(Split(v).upstream) && NulFree(Split(v).revision)
  {
    hide LastIndex, SplitEpoch;
    EpochNulFree(v);
  }

  lemma EpochNulFree(v: string)
    requires NulFree(v)
    ensures NulFree(SplitEpoch(v).1)
  {
    hide FirstIndex, Value, Epoch;
  }

  /** On versions without NUL bytes. */
  lemma DpkgByKeys(a: string, b: string)
    requires NulFree(a) && NulFree(b)
    ensures var x, y := Split(a), Split(b);
            DpkgCompare(a, b) ==
            if x.epoch != y.epoch then CompareInt(x.epoch, y.epoch)
            else if PadCompare(Key(x.upstream), Key(y.upstream)) != Equal
            then PadCompare(Key(x.upstream), Key(y.upstream))
            else PadCompare(Key(x.revision), Key(y.revision))
  {
    hide Split, FragmentCmp, PadCompare;
    SplitNulFree(a);
    SplitNulFree(b);
    WalkIsKeyOrder(Split(a).upstream, Split(b).upstream);
    WalkIsKeyOrder(Split(a).revision, Split(b).revision);
  }

  lemma DpkgTrans(a: string, b: string, c: string)
    requires NulFree(a) && NulFree(b) && NulFree(c)
    requires DpkgCompare(a, b) != Greater && DpkgCompare(b, c) != Greater
    ensures DpkgCompare(a, c) != Greater
  {
    hide Split, PadCompare, DpkgCompare;
    DpkgByKeys(a, b);
    DpkgByKeys(b, c);
    DpkgByKeys(a, c);
    var x, y, z := Split(a), Split(b), Split(c);
    if x.epoch == y.epoch == z.epoch {
      PadTrans(Key(x.upstream), Key(y.upstream), Key(z.upstream));
      if PadCompare(Key(x.upstream), Key(z.upstream)) == Equal {
        PadTrans(Key(x.revision), Key(y.revision), Key(z.revision));
      }
    }
  }

  ghost const NulFreeVersions: iset<string> := iset v: string | NulFree(v)

  /** The Debian comparison totally preorders the versions without NUL bytes. */
  lemma DpkgIsTotalPreorder()
    ensures TotalPreorder(DpkgComparator(), NulFreeVersions)
  {
    hide DpkgCompare, NulFree;
    forall a, b | NulFree(a) && NulFree(b)
      ensures DpkgCompare(a, b) == Less <==> DpkgCompare(b, a) == Greater
    {
      DpkgFlips(a, b);
    }
    forall a, b, c | NulFree(a) && NulFree(b) && NulFree(c) && DpkgCompare(a, b) != Greater && DpkgCompare(b, c) != Greater
      ensures DpkgCompare(a, c) != Greater
    {
      DpkgTrans(a, b, c);
    }
  }

  lemma DpkgFlips(a: string, b: string)
    requires NulFree(a) && NulFree(b)
    ensures DpkgCompare(b, a) == Flip(DpkgCompare(a, b))
  {
    hide Split, PadCompare, DpkgCompare;
    DpkgByKeys(a, b);
    DpkgByKeys(b, a);
    PadFlips(Key(Split(a).upstream), Key(Split(b).upstream));
    PadFlips(Key(Split(a).revision), Key(Split(b).revision));
  }

  /** Debian ranges: the walk over ascending events is interval membership. */
  lemma DebianRanges(version: string, events: seq<OsvEvent>)
    requires NulFree(version) && Ascending(DpkgComparator(), NulFreeVersions, events)
    ensures Walk(DpkgComparator(), version, events) <==>
            exists i :: InInterval(DpkgComparator(), version, events, i)
  {
    DpkgIsTotalPreorder();
    WalkIsIntervalMembership(DpkgComparator(), NulFreeVersions, version, events);
  }
}
