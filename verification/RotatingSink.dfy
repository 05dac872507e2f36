/**
 The rotating NDJSON sink: an active file and numbered rolls. Number 0 stands for the
 base path, number n for the roll `.n`. A file is the list of its lines; a line of n
 bytes takes n + 1 bytes on disk. All I/O succeeds.
 */
module RotatingSink {
  import opened Basics

  newtype byte = x: int | 0 <= x < 256

  type Line = seq<byte>
  type File = seq<Line>
  type Disk = map<nat, File>

  function Size(f: File): nat {
    if f == [] then 0 else Size(f[..|f| - 1]) + |f[|f| - 1]| + 1
  }

  function At(d: Disk, n: nat): Option<File> {
    if n in d then Some(d[n]) else None
  }

  /** What stands under number `n` after a roll of `d`. */
  function RollAt(d: Disk, maxRolls: nat, n: nat): Option<File> {
    if n == 0 then Some([])
    else if n > maxRolls then At(d, n)
    else if n == 1 then (if 0 in d then At(d, 0) else if maxRolls == 1 then At(d, 1) else None)
    else if n < maxRolls || n - 1 in d then At(d, n - 1)
    else At(d, n)
  }

  function RollDisk(d: Disk, maxRolls: nat): (r: Disk)
    ensures forall n: nat :: At(r, n) == RollAt(d, maxRolls, n)
  {
    var numbers := d.Keys + (set n | n in d.Keys :: n + 1) + {0, 1};
    map n | n in numbers && RollAt(d, maxRolls, n).Some? :: RollAt(d, maxRolls, n).value
  }

  datatype Sink = Sink(disk: Disk, written: nat)

  function WriteTo(s: Sink, line: Line, rotateBytes: nat, maxRolls: nat): Sink {
    var needed := |line| + 1;
    var r := if rotateBytes > 0 && s.written > 0 && s.written + needed > rotateBytes
             then Sink(RollDisk(s.disk, maxRolls), 0) else s;
    var base := if 0 in r.disk then r.disk[0] else [];
    Sink(r.disk[0 := base + [line]], r.written + needed)
  }

  /** Opens the base file for appending and counts what is already in it. */
  function OpenSink(d: Disk): Sink {
    var base := if 0 in d then d[0] else [];
    Sink(d[0 := base], Size(base))
  }

  // ----- the object -----

  class FileSink {
    var disk: Disk
    var written: nat
    const rotateBytes: nat
    const maxRolls: nat

    ghost predicate Valid()
      reads this
    {
      0 in disk
    }

    ghost function View(): Sink
      reads this
    {
      Sink(disk, written)
    }

    constructor (found: Disk, rotateBytes: nat, maxRolls: nat)
      ensures Valid() && View() == OpenSink(found)
      ensures this.rotateBytes == rotateBytes && this.maxRolls == maxRolls
    {
      this.rotateBytes, this.maxRolls := rotateBytes, maxRolls;
      var base := if 0 in found then found[0] else [];
      disk := found[0 := base];
      written := Size(base);
    }

    /** Renames one file over another, if it exists. */
    method Rename(from: nat, to: nat)
      requires from != to
      modifies `disk
      ensures disk == if from in old(disk) then (old(disk) - {from})[to := old(disk)[from]] else old(disk)
    {
      if from in disk {
        disk := (disk - {from})[to := disk[from]];
      }
    }

    /** Shifts every roll up by one, the base into `.1`, and reopens an empty base. */
    method Roll()
      requires Valid()
      modifies this
      ensures Valid() && View() == Sink(RollDisk(old(disk), maxRolls), 0)
    {
      ghost var before := disk;
      if maxRolls > 0 {
        var i := maxRolls - 1;
        while i >= 1
          invariant 0 <= i < maxRolls
          invariant forall n: nat :: At(disk, n) == Cascading(before, maxRolls, i, n)
        {
          ghost var now := disk;
          assert At(now, i) == Cascading(before, maxRolls, i, i);
          Rename(i, i + 1);
          forall n: nat ensures At(disk, n) == Cascading(before, maxRolls, i - 1, n) {
            assert At(now, n) == Cascading(before, maxRolls, i, n);
          }
          i := i - 1;
        }
        ghost var now := disk;
        assert At(now, 0) == Cascading(before, maxRolls, 0, 0);
        Rename(0, 1);
        forall n: nat | n > 0 ensures At(disk, n) == RollAt(before, maxRolls, n) {
          assert At(now, n) == Cascading(before, maxRolls, 0, n);
        }
      }
      disk := disk[0 := []];
      written := 0;
      forall n: nat ensures At(disk, n) == At(RollDisk(before, maxRolls), n) {
        assert At(RollDisk(before, maxRolls), n) == RollAt(before, maxRolls, n);
      }
      SameDisk(disk, RollDisk(before, maxRolls));
    }

    method WriteLine(line: Line)
      requires Valid()
      modifies this
      ensures Valid() && View() == WriteTo(old(View()), line, rotateBytes, maxRolls)
    {
      var needed := |line| + 1;
      if rotateBytes > 0 && written > 0 && written + needed > rotateBytes {
        Roll();
      }
      disk := disk[0 := disk[0] + [line]];
      written := written + needed;
    }
  }

  /** The disk inside the cascade, when rolls above `i` have been moved up already. */
  ghost function Cascading(d: Disk, maxRolls: nat, i: nat, n: nat): Option<File> {
    if n <= i || n > maxRolls then At(d, n)
    else if n == i + 1 && n < maxRolls then None
    else if n == i + 1 then At(d, n)
    else if n < maxRolls || n - 1 in d then At(d, n - 1)
    else At(d, n)
  }

  lemma SameDisk(a: Disk, b: Disk)
    requires forall n: nat :: At(a, n) == At(b, n)
    ensures a == b
  {
    forall n: nat ensures n in a <==> n in b { assert At(a, n) == At(b, n); }
    forall n: nat | n in a ensures a[n] == b[n] { assert At(a, n) == At(b, n); }
  }

  // ----- reading the disk back -----

  ghost function Lines(d: Disk, n: nat): File { if n in d then d[n] else [] }

  /** Highest-numbered roll first, the base file last. */
  ghost function Read(d: Disk, top: nat): File {
    if top == 0 then Lines(d, 0) else Lines(d, top) + Read(d, top - 1)
  }

  ghost predicate NoneBeyond(d: Disk, maxRolls: nat) {
    forall n :: n in d ==> n <= maxRolls
  }

  ghost predicate IsSuffix(a: File, b: File) {
    |a| <= |b| && a == b[|b| - |a|..]
  }

  /** The rolls after a roll, up to a number below the last, are the files before it, one lower. */
  lemma {:induction false} ReadShifted(d: Disk, maxRolls: nat, top: nat)
    requires 0 in d && 0 < top < maxRolls
    ensures Read(RollDisk(d, maxRolls), top) == Read(d, top - 1)
  {
    var r := RollDisk(d, maxRolls);
    assert At(r, top) == RollAt(d, maxRolls, top);
    if top == 1 {
      assert At(r, 0) == RollAt(d, maxRolls, 0);
      assert Read(r, 1) == Lines(r, 1) + Lines(r, 0);
    } else {
      ReadShifted(d, maxRolls, top - 1);
    }
  }

  /** A roll only ever forgets the oldest file. */
  lemma RollReadsSuffix(d: Disk, maxRolls: nat)
    requires 0 in d
    ensures IsSuffix(Read(RollDisk(d, maxRolls), maxRolls), Read(d, maxRolls))
  {
    hide RollDisk, Read;
    var r := RollDisk(d, maxRolls);
    RollEnds(d, maxRolls);
    ReadTop(r, maxRolls);
    ReadTop(d, maxRolls);
    if maxRolls == 1 {
      ReadTop(r, 0);
      ReadTop(d, 0);
    } else if maxRolls > 1 {
      ReadShifted(d, maxRolls, maxRolls - 1);
      ReadTop(d, maxRolls - 1);
      var low, second, oldest := Read(d, maxRolls - 2), Lines(d, maxRolls - 1), Lines(d, maxRolls);
      assert Read(d, maxRolls) == oldest + (second + low);
      assert Read(r, maxRolls) == (if maxRolls - 1 in d then second else oldest) + low;
      assert maxRolls - 1 !in d ==> second + low == low;
    }
  }

  lemma ReadTop(d: Disk, top: nat)
    ensures Read(d, top) == if top == 0 then Lines(d, 0) else Lines(d, top) + Read(d, top - 1)
  {
  }

  /** The base file and the last roll after a roll. */
  lemma RollEnds(d: Disk, maxRolls: nat)
    requires 0 in d
    ensures var r := RollDisk(d, maxRolls);
            && Lines(r, 0) == []
            && (maxRolls > 0 ==> Lines(r, maxRolls) == Lines(d, if maxRolls - 1 in d then maxRolls - 1 else maxRolls))
  {
    hide RollDisk;
    var r := RollDisk(d, maxRolls);
    assert At(r, 0) == RollAt(d, maxRolls, 0);
    assert At(r, maxRolls) == RollAt(d, maxRolls, maxRolls);
  }

  lemma {:induction false} ReadAppended(d: Disk, top: nat, line: Line)
    requires 0 in d
    ensures Read(d[0 := d[0] + [line]], top) == Read(d, top) + [line]
  {
    if top > 0 {
      ReadAppended(d, top - 1, line);
      assert Lines(d[0 := d[0] + [line]], top) == Lines(d, top);
    }
  }

  lemma RollNoneBeyond(d: Disk, maxRolls: nat)
    requires NoneBeyond(d, maxRolls)
    ensures NoneBeyond(RollDisk(d, maxRolls), maxRolls)
  {
    var r := RollDisk(d, maxRolls);
    forall n | n in r ensures n <= maxRolls { assert At(r, n) == RollAt(d, maxRolls, n); }
  }

  lemma WriteReadsSuffix(s: Sink, line: Line, rotateBytes: nat, maxRolls: nat)
    requires 0 in s.disk && NoneBeyond(s.disk, maxRolls)
    ensures var s' := WriteTo(s, line, rotateBytes, maxRolls);
            && 0 in s'.disk && NoneBeyond(s'.disk, maxRolls)
            && IsSuffix(Read(s'.disk, maxRolls), Read(s.disk, maxRolls) + [line])
  {
    hide RollDisk, Read;
    RollNoneBeyond(s.disk, maxRolls);
    WriteKeepsSuffix(s, line, rotateBytes, maxRolls);
  }

  lemma WriteKeepsSuffix(s: Sink, line: Line, rotateBytes: nat, maxRolls: nat)
    requires 0 in s.disk
    ensures var s' := WriteTo(s, line, rotateBytes, maxRolls);
            0 in s'.disk && IsSuffix(Read(s'.disk, maxRolls), Read(s.disk, maxRolls) + [line])
  {
    hide RollDisk, Read;
    RollReadsSuffix(s.disk, maxRolls);
    assert At(RollDisk(s.disk, maxRolls), 0) == RollAt(s.disk, maxRolls, 0);
    ReadAppended(s.disk, maxRolls, line);
    ReadAppended(RollDisk(s.disk, maxRolls), maxRolls, line);
  }

  // ----- runs: any number of writes and restarts -----

  datatype SinkOp = Write(line: Line) | Restart

  function RunSink(found: Disk, ops: seq<SinkOp>, rotateBytes: nat, maxRolls: nat): Sink
    decreases |ops|
  {
    if ops == [] then OpenSink(found)
    else
      var s := RunSink(found, ops[..|ops| - 1], rotateBytes, maxRolls);
      match ops[|ops| - 1]
      case Write(line) => WriteTo(s, line, rotateBytes, maxRolls)
      case Restart => OpenSink(s.disk)
  }

  /** Everything ever written, in order. */
  ghost function Stream(ops: seq<SinkOp>): File
    decreases |ops|
  {
    if ops == [] then []
    else
      Stream(ops[..|ops| - 1]) +
      match ops[|ops| - 1] case Write(line) => [line] case Restart => []
  }

  lemma {:induction false} ReadOpened(d: Disk, top: nat)
    ensures Read(OpenSink(d).disk, top) == Read(d, top)
  {
    if top > 0 { ReadOpened(d, top - 1); }
  }

  lemma SuffixExtends(a: File, b: File, c: File, line: Line)
    requires IsSuffix(a, b) && IsSuffix(c, a + [line])
    ensures IsSuffix(c, b + [line])
  {
    assert (a + [line]) == (b + [line])[|b| - |a|..];
  }

  /**
   From any layout with no roll beyond the limit, gaps included, and after any writes,
   rolls and restarts: no roll beyond the limit exists, and what is on disk, read oldest
   first, is a contiguous suffix of what was found there followed by everything written.
   */
  lemma {:induction false} DiskIsSuffixOfStream(found: Disk, ops: seq<SinkOp>, rotateBytes: nat, maxRolls: nat)
    requires NoneBeyond(found, maxRolls)
    ensures var d := RunSink(found, ops, rotateBytes, maxRolls).disk;
            && 0 in d && NoneBeyond(d, maxRolls)
            && IsSuffix(Read(d, maxRolls), Read(found, maxRolls) + Stream(ops))
    decreases |ops|
  {
    if ops == [] {
      ReadOpened(found, maxRolls);
      assert Read(found, maxRolls) + Stream(ops) == Read(found, maxRolls);
    } else {
      var before := ops[..|ops| - 1];
      var s := RunSink(found, before, rotateBytes, maxRolls);
      DiskIsSuffixOfStream(found, before, rotateBytes, maxRolls);
      match ops[|ops| - 1] {
        case Write(line) =>
          WriteReadsSuffix(s, line, rotateBytes, maxRolls);
          SuffixExtends(Read(s.disk, maxRolls), Read(found, maxRolls) + Stream(before),
                        Read(RunSink(found, ops, rotateBytes, maxRolls).disk, maxRolls), line);
          assert Read(found, maxRolls) + Stream(ops) == Read(found, maxRolls) + Stream(before) + [line];
        case Restart =>
          ReadOpened(s.disk, maxRolls);
          assert Read(found, maxRolls) + Stream(ops) == Read(found, maxRolls) + Stream(before);
      }
    }
  }

  // ----- rolls beyond the limit -----

  /** The rolls above the limit, highest first. */
  ghost function Above(d: Disk, maxRolls: nat, top: nat): File
    requires maxRolls <= top
    decreases top
  {
    if top == maxRolls then [] else Lines(d, top) + Above(d, maxRolls, top - 1)
  }

  lemma {:induction false} ReadSplits(d: Disk, maxRolls: nat, top: nat)
    requires maxRolls <= top
    ensures Read(d, top) == Above(d, maxRolls, top) + Read(d, maxRolls)
    decreases top
  {
    if top > maxRolls { ReadSplits(d, maxRolls, top - 1); }
  }

  ghost predicate SameAbove(a: Disk, b: Disk, maxRolls: nat) {
    forall n: nat :: n > maxRolls ==> Lines(a, n) == Lines(b, n)
  }

  lemma {:induction false} AboveSame(a: Disk, b: Disk, maxRolls: nat, top: nat)
    requires maxRolls <= top && SameAbove(a, b, maxRolls)
    ensures Above(a, maxRolls, top) == Above(b, maxRolls, top)
    decreases top
  {
    if top > maxRolls { AboveSame(a, b, maxRolls, top - 1); }
  }

  lemma WriteLeavesAbove(s: Sink, line: Line, rotateBytes: nat, maxRolls: nat)
    ensures SameAbove(WriteTo(s, line, rotateBytes, maxRolls).disk, s.disk, maxRolls)
  {
    hide RollDisk;
    var r := RollDisk(s.disk, maxRolls);
    forall n: nat | n > maxRolls ensures Lines(r, n) == Lines(s.disk, n) {
      assert At(r, n) == RollAt(s.disk, maxRolls, n);
    }
  }

  /** Whatever is written, rolls beyond the limit stay, and the files up to the limit keep a
      suffix of their own share of the stream. */
  lemma {:induction false} RunLeavesAbove(found: Disk, ops: seq<SinkOp>, rotateBytes: nat, maxRolls: nat)
    ensures var d := RunSink(found, ops, rotateBytes, maxRolls).disk;
            && 0 in d && SameAbove(d, found, maxRolls)
            && IsSuffix(Read(d, maxRolls), Read(found, maxRolls) + Stream(ops))
    decreases |ops|
  {
    hide WriteTo;
    if ops == [] {
      ReadOpened(found, maxRolls);
      assert Read(found, maxRolls) + Stream(ops) == Read(found, maxRolls);
    } else {
      var before := ops[..|ops| - 1];
      var s := RunSink(found, before, rotateBytes, maxRolls);
      RunLeavesAbove(found, before, rotateBytes, maxRolls);
      match ops[|ops| - 1] {
        case Write(line) =>
          WriteLeavesAbove(s, line, rotateBytes, maxRolls);
          WriteKeepsSuffix(s, line, rotateBytes, maxRolls);
          SuffixExtends(Read(s.disk, maxRolls), Read(found, maxRolls) + Stream(before),
                        Read(RunSink(found, ops, rotateBytes, maxRolls).disk, maxRolls), line);
          assert Read(found, maxRolls) + Stream(ops) == Read(found, maxRolls) + Stream(before) + [line];
        case Restart =>
          ReadOpened(s.disk, maxRolls);
          assert Read(found, maxRolls) + Stream(ops) == Read(found, maxRolls) + Stream(before);
      }
    }
  }

  /** The same line over and over. */
  ghost function Times(line: Line, n: nat): File { if n == 0 then [] else Times(line, n - 1) + [line] }

  function Repeat(line: Line, n: nat): seq<SinkOp> {
    if n == 0 then [] else Repeat(line, n - 1) + [Write(line)]
  }

  lemma {:induction false} TimesAt(line: Line, n: nat)
    ensures |Times(line, n)| == n && forall i :: 0 <= i < n ==> Times(line, n)[i] == line
  {
    if n > 0 { TimesAt(line, n - 1); }
  }

  lemma {:induction false} StreamOfRepeat(line: Line, n: nat)
    ensures |Repeat(line, n)| == n && Stream(Repeat(line, n)) == Times(line, n)
  {
    if n > 0 {
      StreamOfRepeat(line, n - 1);
      assert Repeat(line, n)[..n - 1] == Repeat(line, n - 1);
    }
  }

  /** The first `count` files each hold just this line, and the counter knows. */
  ghost predicate Flooded(s: Sink, line: Line, count: nat) {
    && s.written == |line| + 1
    && forall n: nat :: n < count ==> n in s.disk && s.disk[n] == [line]
  }

  /** A line over the threshold always opens a new base file. */
  lemma FloodStep(s: Sink, line: Line, rotateBytes: nat, maxRolls: nat, count: nat)
    requires 0 < rotateBytes <= |line| && Flooded(s, line, count) && 0 < count
    ensures var next := if count <= maxRolls then count + 1 else maxRolls + 1;
            Flooded(WriteTo(s, line, rotateBytes, maxRolls), line, next)
  {
    hide RollDisk;
    var r := RollDisk(s.disk, maxRolls);
    forall n: nat | 0 < n <= count && n <= maxRolls ensures n in r && r[n] == [line] {
      assert At(r, n) == RollAt(s.disk, maxRolls, n);
    }
    assert At(r, 0) == RollAt(s.disk, maxRolls, 0);
  }

  lemma FloodFirst(found: Disk, line: Line, rotateBytes: nat, maxRolls: nat)
    requires 0 < rotateBytes <= |line|
    ensures Flooded(WriteTo(OpenSink(found), line, rotateBytes, maxRolls), line, 1)
  {
    hide RollDisk;
    var s := OpenSink(found);
    SizeZero(s.disk[0]);
    assert At(RollDisk(s.disk, maxRolls), 0) == RollAt(s.disk, maxRolls, 0);
  }

  lemma {:induction false} FloodFills(found: Disk, line: Line, rotateBytes: nat, maxRolls: nat, n: nat)
    requires 0 < rotateBytes <= |line| && 0 < n
    ensures Flooded(RunSink(found, Repeat(line, n), rotateBytes, maxRolls), line,
                    if n <= maxRolls then n else maxRolls + 1)
  {
    hide WriteTo, OpenSink, Flooded;
    StreamOfRepeat(line, n);
    var ops := Repeat(line, n);
    assert ops[..n - 1] == Repeat(line, n - 1) && ops[n - 1] == Write(line);
    if n == 1 {
      assert ops[..0] == [];
      FloodFirst(found, line, rotateBytes, maxRolls);
    } else {
      FloodFills(found, line, rotateBytes, maxRolls, n - 1);
      var s := RunSink(found, Repeat(line, n - 1), rotateBytes, maxRolls);
      FloodStep(s, line, rotateBytes, maxRolls, if n - 1 <= maxRolls then n - 1 else maxRolls + 1);
    }
  }

  lemma {:induction false} ReadFlooded(s: Sink, line: Line, top: nat)
    requires Flooded(s, line, top + 1)
    ensures Read(s.disk, top) == Times(line, top + 1)
  {
    TimesAt(line, top + 1);
    TimesAt(line, top);
    if top > 0 {
      ReadFlooded(s, line, top - 1);
    } else {
      assert Times(line, 1) == Times(line, 0) + [line];
    }
  }

  /** A line longer than the threshold that differs from the given one. */
  function OtherLine(rotateBytes: nat, not: Line): (r: Line)
    ensures r != not && |r| >= rotateBytes
  {
    seq(rotateBytes + |not| + 1, i => 0)
  }

  /**
   Any line left in a roll beyond the limit is enough: `max_rolls + 2` long lines push out
   everything below it, and the disk is no longer a suffix.
   */
  lemma StrayRollBreaksSuffix(found: Disk, rotateBytes: nat, maxRolls: nat, top: nat)
    requires rotateBytes > 0 && maxRolls <= top && Above(found, maxRolls, top) != []
    ensures var above := Above(found, maxRolls, top);
            var ops := Repeat(OtherLine(rotateBytes, above[|above| - 1]), maxRolls + 2);
            !IsSuffix(Read(RunSink(found, ops, rotateBytes, maxRolls).disk, top), Read(found, top) + Stream(ops))
  {
    hide RunSink, OtherLine, Above, Read, Times, Repeat, IsSuffix, Flooded, SameAbove, Stream;
    var above := Above(found, maxRolls, top);
    var line := OtherLine(rotateBytes, above[|above| - 1]);
    var n := maxRolls + 2;
    var ops := Repeat(line, n);
    var s := RunSink(found, ops, rotateBytes, maxRolls);
    FloodFills(found, line, rotateBytes, maxRolls, n);
    ReadFlooded(s, line, maxRolls);
    RunLeavesAbove(found, ops, rotateBytes, maxRolls);
    AboveSame(s.disk, found, maxRolls, top);
    ReadSplits(s.disk, maxRolls, top);
    ReadSplits(found, maxRolls, top);
    StreamOfRepeat(line, n);
    NotASuffix(above, Read(found, maxRolls), line, n);
  }

  lemma NotASuffix(above: File, old_: File, line: Line, n: nat)
    requires above != [] && above[|above| - 1] != line && n > 0
    ensures !IsSuffix(above + Times(line, n - 1), above + old_ + Times(line, n))
  {
    TimesAt(line, n);
    TimesAt(line, n - 1);
    var kept, whole := above + Times(line, n - 1), above + old_ + Times(line, n);
    assert kept[|above| - 1] == above[|above| - 1];
    assert whole[|whole| - n] == line;
    assert |whole| - |kept| + (|above| - 1) == |whole| - n;
  }

  /**
   Exactly: whatever is written and restarted, the whole disk read oldest first is a suffix
   of what was found followed by the stream, if and only if no roll beyond the limit held a
   line at the start.
   */
  lemma SuffixExactly(found: Disk, rotateBytes: nat, maxRolls: nat, top: nat)
    requires rotateBytes > 0 && maxRolls <= top
    ensures (forall ops :: KeepsSuffix(found, ops, rotateBytes, maxRolls, top)) <==> Above(found, maxRolls, top) == []
  {
    hide KeepsSuffix, Above;
    if Above(found, maxRolls, top) == [] {
      forall ops ensures KeepsSuffix(found, ops, rotateBytes, maxRolls, top) {
        CleanKeepsSuffix(found, ops, rotateBytes, maxRolls, top);
      }
    } else {
      StrayBreaks(found, rotateBytes, maxRolls, top);
    }
  }

  /** After these writes and restarts the disk read oldest first is a suffix of all there was. */
  ghost predicate KeepsSuffix(found: Disk, ops: seq<SinkOp>, rotateBytes: nat, maxRolls: nat, top: nat) {
    IsSuffix(Read(RunSink(found, ops, rotateBytes, maxRolls).disk, top), Read(found, top) + Stream(ops))
  }

  lemma CleanKeepsSuffix(found: Disk, ops: seq<SinkOp>, rotateBytes: nat, maxRolls: nat, top: nat)
    requires maxRolls <= top && Above(found, maxRolls, top) == []
    ensures KeepsSuffix(found, ops, rotateBytes, maxRolls, top)
  {
    hide RunSink, IsSuffix, Read, Above, Stream, SameAbove;
    var d := RunSink(found, ops, rotateBytes, maxRolls).disk;
    RunLeavesAbove(found, ops, rotateBytes, maxRolls);
    AboveSame(d, found, maxRolls, top);
    ReadSplits(d, maxRolls, top);
    ReadSplits(found, maxRolls, top);
    assert Read(d, top) == Read(d, maxRolls) && Read(found, top) == Read(found, maxRolls);
  }

  lemma StrayBreaks(found: Disk, rotateBytes: nat, maxRolls: nat, top: nat)
    requires rotateBytes > 0 && maxRolls <= top && Above(found, maxRolls, top) != []
    ensures exists ops :: !KeepsSuffix(found, ops, rotateBytes, maxRolls, top)
  {
    hide RunSink, IsSuffix, Read, Above, Stream, Repeat, OtherLine;
    StrayRollBreaksSuffix(found, rotateBytes, maxRolls, top);
    var above := Above(found, maxRolls, top);
    var ops := Repeat(OtherLine(rotateBytes, above[|above| - 1]), maxRolls + 2);
    assert !KeepsSuffix(found, ops, rotateBytes, maxRolls, top);
  }

  // ----- how much is kept -----

  /** The base and the first `count` rolls exist, nothing else. */
  ghost predicate Contiguous(d: Disk, count: nat) {
    forall n: nat :: n in d <==> n <= count
  }

  ghost predicate FileFits(f: File, rotateBytes: nat) { Size(f) <= rotateBytes || |f| == 1 }

  /**
   A sink that has only ever written under this threshold: the counter is the size of the
   base file, every file fits or is one line, and any two neighbours exceed the threshold.
   */
  ghost predicate Tight(s: Sink, rotateBytes: nat, maxRolls: nat, count: nat) {
    && Contiguous(s.disk, count) && count <= maxRolls
    && s.written == Size(s.disk[0])
    && (forall n: nat :: n <= count ==> FileFits(s.disk[n], rotateBytes))
    && (forall n: nat :: n < count ==> Size(s.disk[n + 1]) + Size(s.disk[n]) > rotateBytes)
  }

  lemma SizeAppend(f: File, line: Line)
    ensures Size(f + [line]) == Size(f) + |line| + 1
  {
    assert (f + [line])[..|f|] == f;
  }

  lemma SizeZero(f: File)
    ensures Size(f) == 0 <==> f == []
  {
  }

  /** After a roll of a contiguous set and a first line, every roll is its predecessor. */
  lemma RolledFiles(d: Disk, line: Line, maxRolls: nat, count: nat)
    requires Contiguous(d, count) && count <= maxRolls
    ensures var kept := if count < maxRolls then count + 1 else count;
            var r := RollDisk(d, maxRolls)[0 := [line]];
            Contiguous(r, kept) && forall n: nat :: 0 < n <= kept ==> r[n] == d[n - 1]
  {
    var kept := if count < maxRolls then count + 1 else count;
    var rolled := RollDisk(d, maxRolls);
    hide RollDisk;
    var r := rolled[0 := [line]];
    forall n: nat ensures n in r <==> n <= kept { assert At(rolled, n) == RollAt(d, maxRolls, n); }
    forall n: nat | 0 < n <= kept ensures r[n] == d[n - 1] { assert At(rolled, n) == RollAt(d, maxRolls, n); }
  }

  lemma RollThenWriteTight(s: Sink, line: Line, rotateBytes: nat, maxRolls: nat, count: nat)
    requires rotateBytes > 0 && Tight(s, rotateBytes, maxRolls, count)
    requires s.written + |line| + 1 > rotateBytes
    ensures var kept := if count < maxRolls then count + 1 else count;
            Tight(Sink(RollDisk(s.disk, maxRolls)[0 := [line]], |line| + 1), rotateBytes, maxRolls, kept)
  {
    SizeAppend([], line);
    assert [] + [line] == [line];
    RolledFiles(s.disk, line, maxRolls, count);
    var kept := if count < maxRolls then count + 1 else count;
    var d := RollDisk(s.disk, maxRolls)[0 := [line]];
    hide Size, RollDisk;
    forall n: nat | n <= kept ensures FileFits(d[n], rotateBytes) {
      if n > 0 { assert FileFits(s.disk[n - 1], rotateBytes); }
    }
    forall n: nat | n < kept ensures Size(d[n + 1]) + Size(d[n]) > rotateBytes {
      if n > 0 { assert Size(s.disk[n - 1 + 1]) + Size(s.disk[n - 1]) > rotateBytes; }
    }
  }

  lemma WriteTight(s: Sink, line: Line, rotateBytes: nat, maxRolls: nat, count: nat) returns (kept: nat)
    requires rotateBytes > 0 && Tight(s, rotateBytes, maxRolls, count)
    ensures Tight(WriteTo(s, line, rotateBytes, maxRolls), rotateBytes, maxRolls, kept)
  {
    var s' := WriteTo(s, line, rotateBytes, maxRolls);
    if s.written > 0 && s.written + |line| + 1 > rotateBytes {
      var r := RollDisk(s.disk, maxRolls);
      assert At(r, 0) == RollAt(s.disk, maxRolls, 0);
      assert [] + [line] == [line];
      RollThenWriteTight(s, line, rotateBytes, maxRolls, count);
      assert s' == Sink(r[0 := [line]], |line| + 1);
      kept := if count < maxRolls then count + 1 else count;
    } else {
      SizeAppend(s.disk[0], line);
      SizeZero(s.disk[0]);
      kept := count;
    }
  }

  /** Started on an empty directory, the sink is tight after every write and restart. */
  lemma {:induction false} AlwaysTight(ops: seq<SinkOp>, rotateBytes: nat, maxRolls: nat) returns (count: nat)
    requires rotateBytes > 0
    ensures Tight(RunSink(map[], ops, rotateBytes, maxRolls), rotateBytes, maxRolls, count)
    decreases |ops|
  {
    if ops == [] {
      count := 0;
    } else {
      var s := RunSink(map[], ops[..|ops| - 1], rotateBytes, maxRolls);
      count := AlwaysTight(ops[..|ops| - 1], rotateBytes, maxRolls);
      match ops[|ops| - 1] {
        case Write(line) => count := WriteTight(s, line, rotateBytes, maxRolls, count);
        case Restart => assert s.disk[0 := s.disk[0]] == s.disk;
      }
    }
  }

  ghost function TotalSize(d: Disk, top: nat): nat {
    Size(Lines(d, top)) + if top == 0 then 0 else TotalSize(d, top - 1)
  }

  /** A full set of rolls keeps more than one threshold for every pair of files. */
  lemma {:induction false} FullSetRetains(s: Sink, rotateBytes: nat, maxRolls: nat, count: nat, top: nat)
    requires Tight(s, rotateBytes, maxRolls, count) && top <= count
    ensures top >= 1 ==> TotalSize(s.disk, top) > (top + 1) / 2 * rotateBytes
  {
    if top >= 1 {
      TopPair(s, rotateBytes, maxRolls, count, top);
      OneMorePair(top, rotateBytes);
      if top >= 3 {
        FullSetRetains(s, rotateBytes, maxRolls, count, top - 2);
        var pairs, fewer := (top + 1) / 2 * rotateBytes, (top - 1) / 2 * rotateBytes;
        var all, below := TotalSize(s.disk, top), TotalSize(s.disk, top - 2);
        assert all > rotateBytes + below && below > fewer && pairs == fewer + rotateBytes;
      }
    }
  }

  /** The two oldest files together exceed the threshold. */
  lemma TopPair(s: Sink, rotateBytes: nat, maxRolls: nat, count: nat, top: nat)
    requires Tight(s, rotateBytes, maxRolls, count) && 1 <= top <= count
    ensures TotalSize(s.disk, top) > rotateBytes + (if top >= 2 then TotalSize(s.disk, top - 2) else 0)
  {
    hide Size;
    assert Size(s.disk[top - 1 + 1]) + Size(s.disk[top - 1]) > rotateBytes;
    assert TotalSize(s.disk, top) == Size(s.disk[top]) + TotalSize(s.disk, top - 1);
    assert TotalSize(s.disk, top - 1) == Size(s.disk[top - 1]) + if top == 1 then 0 else TotalSize(s.disk, top - 2);
  }

  lemma OneMorePair(top: nat, n: nat)
    requires top >= 1
    ensures (top + 1) / 2 * n == (top - 1) / 2 * n + n
    ensures top <= 2 ==> (top + 1) / 2 * n == n
  {
    var k := (top - 1) / 2;
    assert (top + 1) / 2 == k + 1;
    assert (k + 1) * n == k * n + n;
  }

  /** Whatever was written: once every roll is in use, the counter is exact and more than
      floor((maxRolls + 1) / 2) thresholds of the latest data are on disk. */
  lemma RetentionGuarantee(ops: seq<SinkOp>, rotateBytes: nat, maxRolls: nat)
    requires rotateBytes > 0 && maxRolls >= 1
    requires maxRolls in RunSink(map[], ops, rotateBytes, maxRolls).disk
    ensures var s := RunSink(map[], ops, rotateBytes, maxRolls);
            && 0 in s.disk && s.written == Size(s.disk[0])
            && TotalSize(s.disk, maxRolls) > (maxRolls + 1) / 2 * rotateBytes
  {
    var count := AlwaysTight(ops, rotateBytes, maxRolls);
    FullSetRetains(RunSink(map[], ops, rotateBytes, maxRolls), rotateBytes, maxRolls, count, maxRolls);
  }

  // ----- what a roll loses -----

  /** The file a roll pushes out: the last one, if there is one to take its place. */
  ghost function PushedOut(d: Disk, maxRolls: nat): File {
    if maxRolls == 0 then Lines(d, 0) else if maxRolls - 1 in d then Lines(d, maxRolls) else []
  }

  /** A roll loses the file it pushes out and nothing else. */
  lemma RollLosesExactly(d: Disk, maxRolls: nat)
    requires 0 in d
    ensures Read(d, maxRolls) == PushedOut(d, maxRolls) + Read(RollDisk(d, maxRolls), maxRolls)
  {
    hide RollDisk, Read;
    var r := RollDisk(d, maxRolls);
    RollEnds(d, maxRolls);
    ReadTop(r, maxRolls);
    ReadTop(d, maxRolls);
    if maxRolls == 1 {
      ReadTop(r, 0);
      ReadTop(d, 0);
    } else if maxRolls > 1 {
      ReadShifted(d, maxRolls, maxRolls - 1);
      ReadTop(d, maxRolls - 1);
      var low, second, oldest := Read(d, maxRolls - 2), Lines(d, maxRolls - 1), Lines(d, maxRolls);
      assert Read(d, maxRolls) == oldest + (second + low);
      assert maxRolls - 1 !in d ==> second + low == low;
      assert Read(r, maxRolls) == (if maxRolls - 1 in d then second else oldest) + low;
    }
  }

  lemma WriteKeepsAll(s: Sink, line: Line, rotateBytes: nat, maxRolls: nat)
    requires 0 in s.disk && maxRolls !in WriteTo(s, line, rotateBytes, maxRolls).disk
    ensures maxRolls !in s.disk
    ensures Read(WriteTo(s, line, rotateBytes, maxRolls).disk, maxRolls) == Read(s.disk, maxRolls) + [line]
  {
    hide RollDisk, Read;
    var r := RollDisk(s.disk, maxRolls);
    RollLosesExactly(s.disk, maxRolls);
    assert At(r, maxRolls) == RollAt(s.disk, maxRolls, maxRolls);
    assert At(r, 0) == RollAt(s.disk, maxRolls, 0);
    ReadAppended(s.disk, maxRolls, line);
    ReadAppended(r, maxRolls, line);
  }

  /** As long as the last roll is not in use nothing was lost: the disk holds all that was
      found and all that was written, in order. */
  lemma {:induction false} NothingLostUntilFull(found: Disk, ops: seq<SinkOp>, rotateBytes: nat, maxRolls: nat)
    requires maxRolls !in RunSink(found, ops, rotateBytes, maxRolls).disk
    ensures Read(RunSink(found, ops, rotateBytes, maxRolls).disk, maxRolls) == Read(found, maxRolls) + Stream(ops)
    decreases |ops|
  {
    hide WriteTo, Read;
    if ops == [] {
      ReadOpened(found, maxRolls);
      assert Read(found, maxRolls) + Stream(ops) == Read(found, maxRolls);
    } else {
      var before := ops[..|ops| - 1];
      var s := RunSink(found, before, rotateBytes, maxRolls);
      RunLeavesAbove(found, before, rotateBytes, maxRolls);
      match ops[|ops| - 1] {
        case Write(line) => WriteKeepsAll(s, line, rotateBytes, maxRolls);
        case Restart => ReadOpened(s.disk, maxRolls);
      }
      NothingLostUntilFull(found, before, rotateBytes, maxRolls);
      assert Read(found, maxRolls) + Stream(ops) ==
             Read(found, maxRolls) + Stream(before) + match ops[|ops| - 1] case Write(line) => [line] case Restart => [];
    }
  }

  /** With threshold 0 nothing is ever rolled or lost: everything is appended to the base file. */
  lemma {:induction false} NoThresholdNoRoll(found: Disk, ops: seq<SinkOp>, maxRolls: nat)
    ensures RunSink(found, ops, 0, maxRolls).disk == found[0 := Lines(found, 0) + Stream(ops)]
    decreases |ops|
  {
    if ops == [] {
      assert Lines(found, 0) + Stream(ops) == Lines(found, 0);
    } else {
      var before := ops[..|ops| - 1];
      NoThresholdNoRoll(found, before, maxRolls);
      var base := Lines(found, 0);
      match ops[|ops| - 1] {
        case Write(line) => assert base + Stream(ops) == base + Stream(before) + [line];
        case Restart => assert base + Stream(ops) == base + Stream(before);
      }
    }
  }
}
