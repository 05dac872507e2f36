/**
 Installing a feed bundle as a sequence of disk actions, any of which may be the last
 before a crash. The protocol is a step relation on what is on disk; the class performs
 the install and is proved to take only such steps.
 */
module FeedStore {
  import opened Basics
  import opened FeedBundle
  import opened Text

  type Files = map<string, Bytes>

  datatype FeedState = FeedState(version: string, source: string, tier: Tier, createdAt: int, appliedAt: int)

  /** `staging` holds the temporary directories by name, `temps` the temporary state files. */
  datatype Disk = Disk(content: Option<Files>, state: Option<FeedState>, staging: map<string, Files>, temps: set<string>)

  function StateOf(m: Manifest, now: int): FeedState {
    FeedState(m.version, m.source, m.tier, m.createdAt, now)
  }

  function Listing(m: Manifest): seq<string> { EntryNames(m.entries) }

  function EntryNames(entries: seq<FeedEntry>): (r: seq<string>)
    ensures |r| == |entries| && forall i :: 0 <= i < |r| ==> r[i] == entries[i].name
  {
    if entries == [] then [] else [entries[0].name] + EntryNames(entries[1..])
  }

  // ----- the protocol -----

  /** One install under way: the files to install in order, the marker to write at the end,
      the staging directory, and the disk as the install found it. */
  datatype Attempt = Attempt(names: seq<string>, files: Files, marker: FeedState, dir: string, found: Disk)

  ghost predicate WellFormed(a: Attempt) {
    && (forall n :: n in a.names <==> n in a.files)
    && (forall i, j :: 0 <= i < j < |a.names| ==> a.names[i] != a.names[j])
  }

  datatype Phase = Copying(next: nat) | Removing | Removed | Swapped | MarkerReady

  datatype Pc = Idle | Working(a: Attempt, phase: Phase)

  datatype Sys = Sys(disk: Disk, pc: Pc)

  /** A verified bundle gets a fresh staging directory. */
  ghost predicate Begins(s: Sys, s': Sys) {
    && s.pc.Idle? && s'.pc.Working? && s'.pc.phase == Copying(0)
    && WellFormed(s'.pc.a) && s'.pc.a.found == s.disk
    && s'.disk == s.disk.(staging := s.disk.staging[s'.pc.a.dir := map[]])
  }

  /** The next file is written into staging, in part or whole. */
  ghost predicate Copies(s: Sys, s': Sys, part: Bytes) {
    && s.pc.Working? && s.pc.phase.Copying? && s.pc.phase.next < |s.pc.a.names|
    && var a, i := s.pc.a, s.pc.phase.next;
       && a.names[i] in a.files && a.dir in s.disk.staging && part <= a.files[a.names[i]]
       && s'.disk == s.disk.(staging := s.disk.staging[a.dir := s.disk.staging[a.dir][a.names[i] := part]])
       && (s'.pc == s.pc || (s'.pc == Working(a, Copying(i + 1)) && part == a.files[a.names[i]]))
  }

  /** All files staged: the old content directory, if there is one, is to be removed. */
  ghost predicate StagingDone(s: Sys, s': Sys) {
    && s.pc.Working? && s.pc.phase == Copying(|s.pc.a.names|)
    && s'.disk == s.disk
    && s'.pc == Working(s.pc.a, if s.disk.content.Some? then Removing else Removed)
  }

  /** One old file goes, in any order. */
  ghost predicate RemovesFile(s: Sys, s': Sys, name: string) {
    && s.pc.Working? && s.pc.phase.Removing? && s.disk.content.Some? && name in s.disk.content.value
    && s'.disk == s.disk.(content := Some(s.disk.content.value - {name})) && s'.pc == s.pc
  }

  ghost predicate RemovesDir(s: Sys, s': Sys) {
    && s.pc.Working? && s.pc.phase.Removing? && s.disk.content == Some(map[])
    && s'.disk == s.disk.(content := None) && s'.pc == Working(s.pc.a, Removed)
  }

  ghost predicate Swaps(s: Sys, s': Sys) {
    && s.pc.Working? && s.pc.phase.Removed? && s.pc.a.dir in s.disk.staging
    && s'.disk == s.disk.(content := Some(s.disk.staging[s.pc.a.dir]), staging := s.disk.staging - {s.pc.a.dir})
    && s'.pc == Working(s.pc.a, Swapped)
  }

  /** The marker is written to a temporary file, in part or whole. */
  ghost predicate WritesTemp(s: Sys, s': Sys) {
    && s.pc.Working? && s.pc.phase.Swapped?
    && s'.disk == s.disk.(temps := s'.disk.temps)
    && (s'.pc == s.pc || s'.pc == Working(s.pc.a, MarkerReady))
  }

  /** The temporary file is renamed over state.json. */
  ghost predicate Commits(s: Sys, s': Sys) {
    && s.pc.Working? && s.pc.phase.MarkerReady?
    && s'.disk == s.disk.(state := Some(s.pc.a.marker), temps := s'.disk.temps)
    && s'.pc.Idle?
  }

  /** A crash, or an error return that may clean up temporaries. */
  ghost predicate Stops(s: Sys, s': Sys) {
    s'.pc.Idle? && s'.disk.content == s.disk.content && s'.disk.state == s.disk.state
  }

  ghost predicate Next(s: Sys, s': Sys) {
    || Begins(s, s') || (exists part :: Copies(s, s', part)) || StagingDone(s, s')
    || (exists name :: RemovesFile(s, s', name)) || RemovesDir(s, s') || Swaps(s, s')
    || WritesTemp(s, s') || Commits(s, s') || Stops(s, s')
  }

  ghost predicate Path(p: seq<Sys>) {
    && p != [] && p[0].pc.Idle?
    && forall n :: 0 < n < |p| ==> Next(p[n - 1], p[n])
  }

  // ----- the invariant -----

  ghost predicate Part(some: Files, whole: Files) {
    forall n :: n in some ==> n in whole && some[n] == whole[n]
  }

  /** The first `i` files are staged whole; only listed names are in staging at all. */
  ghost predicate Staged(a: Attempt, staged: Files, i: nat) {
    && i <= |a.names|
    && (forall k :: 0 <= k < i ==> a.names[k] in staged && a.names[k] in a.files && staged[a.names[k]] == a.files[a.names[k]])
    && (forall n :: n in staged ==> n in a.names)
  }

  ghost predicate PhaseOk(d: Disk, a: Attempt, phase: Phase) {
    && WellFormed(a)
    && d.state == a.found.state
    && match phase
       case Copying(i) => d.content == a.found.content && a.dir in d.staging && Staged(a, d.staging[a.dir], i)
       case Removing =>
         && a.dir in d.staging && d.staging[a.dir] == a.files
         && d.content.Some? && a.found.content.Some? && Part(d.content.value, a.found.content.value)
       case Removed => a.dir in d.staging && d.staging[a.dir] == a.files && d.content.None?
       case Swapped => d.content == Some(a.files)
       case MarkerReady => d.content == Some(a.files)
  }

  ghost predicate SysOk(s: Sys) {
    s.pc.Working? ==> PhaseOk(s.disk, s.pc.a, s.pc.phase)
  }

  lemma StagedAll(a: Attempt, staged: Files)
    requires WellFormed(a) && Staged(a, staged, |a.names|)
    ensures staged == a.files
  {
    forall n | n in a.files ensures n in staged && staged[n] == a.files[n] {
      assert n in a.names;
      var k :| 0 <= k < |a.names| && a.names[k] == n;
    }
  }

  lemma StagedOneMore(a: Attempt, staged: Files, i: nat, part: Bytes)
    requires WellFormed(a) && Staged(a, staged, i) && i < |a.names|
    ensures Staged(a, staged[a.names[i] := part], i)
    ensures part == a.files[a.names[i]] ==> Staged(a, staged[a.names[i] := part], i + 1)
  {
    assert a.names[i] in a.names;
  }

  lemma NextKeeps(s: Sys, s': Sys)
    requires SysOk(s) && Next(s, s')
    ensures SysOk(s')
  {
    if Begins(s, s') {
    } else if part :| Copies(s, s', part) {
      StagedOneMore(s.pc.a, s.disk.staging[s.pc.a.dir], s.pc.phase.next, part);
    } else if StagingDone(s, s') {
      StagedAll(s.pc.a, s.disk.staging[s.pc.a.dir]);
    } else if name :| RemovesFile(s, s', name) {
    }
  }

  lemma {:induction false} PathKeeps(p: seq<Sys>, n: nat)
    requires Path(p) && n < |p|
    ensures SysOk(p[n])
  {
    if n > 0 {
      PathKeeps(p, n - 1);
      hide SysOk, Next;
      NextKeeps(p[n - 1], p[n]);
    }
  }

  // ----- what a crash can leave behind -----

  /** The content is gone, part of what the install found, or exactly the new bundle; the
      marker is the old one, or the new one over complete new content. */
  ghost predicate CrashSafe(d: Disk, a: Attempt) {
    && (|| d.content.None? || d.content == Some(a.files)
        || (a.found.content.Some? && Part(d.content.value, a.found.content.value)))
    && (d.state == a.found.state || (d.state == Some(a.marker) && d.content == Some(a.files)))
  }

  /** At every moment of every install, in any run with any crashes and errors before it, the
      disk is crash safe, and right after the commit it is the new bundle under its marker. */
  lemma AlwaysCrashSafe(p: seq<Sys>, n: nat)
    requires Path(p) && n < |p| && p[n].pc.Working?
    ensures CrashSafe(p[n].disk, p[n].pc.a)
    ensures n + 1 < |p| && Commits(p[n], p[n + 1]) ==>
              p[n + 1].disk.content == Some(p[n].pc.a.files) && p[n + 1].disk.state == Some(p[n].pc.a.marker)
  {
    PathKeeps(p, n);
  }

  /** `some` is part of the files of one source: what was there at the start of the run, or
      one bundle whose install began in it. */
  ghost predicate FromOne(p: seq<Sys>, some: Files)
    requires p != []
  {
    || (p[0].disk.content.Some? && Part(some, p[0].disk.content.value))
    || exists n :: 0 <= n < |p| && p[n].pc.Working? && Part(some, p[n].pc.a.files)
  }

  /** Across any number of installs, crashes and retries, content never mixes two bundles. */
  lemma {:induction false} NeverMixed(p: seq<Sys>)
    requires Path(p)
    ensures p[|p| - 1].disk.content.Some? ==> FromOne(p, p[|p| - 1].disk.content.value)
    decreases |p|
  {
    var last := |p| - 1;
    if last > 0 {
      var q := p[..last];
      PathPrefix(p);
      NeverMixed(q);
      PathKeeps(p, last - 1);
      var s, s' := p[last - 1], p[last];
      hide Next, SysOk, Part, FromOne, Path;
      if s'.disk.content.Some? && s'.disk.content != s.disk.content {
        ContentChange(s, s');
        if s'.disk.content == Some(s.pc.a.files) {
          FromWorking(p, last - 1);
        } else {
          FromOneShrinks(q, s.disk.content.value, s'.disk.content.value);
          FromOneGrows(q, p, s'.disk.content.value);
        }
      } else if s'.disk.content.Some? {
        FromOneGrows(q, p, s'.disk.content.value);
      }
    }
  }

  lemma PathPrefix(p: seq<Sys>)
    requires Path(p) && |p| > 1
    ensures Path(p[..|p| - 1]) && Next(p[|p| - 2], p[|p| - 1])
  {
    hide Next;
    var q := p[..|p| - 1];
    forall n | 0 < n < |q| ensures Next(q[n - 1], q[n]) { assert Next(p[n - 1], p[n]); }
  }

  lemma FromWorking(p: seq<Sys>, n: nat)
    requires n < |p| && p[n].pc.Working?
    ensures FromOne(p, p[n].pc.a.files)
  {
    assert Part(p[n].pc.a.files, p[n].pc.a.files);
  }

  lemma ContentChange(s: Sys, s': Sys)
    requires SysOk(s) && Next(s, s') && s'.disk.content.Some? && s'.disk.content != s.disk.content
    ensures s.pc.Working?
    ensures s'.disk.content == Some(s.pc.a.files) || (s.disk.content.Some? && Part(s'.disk.content.value, s.disk.content.value))
  {
    if part :| Copies(s, s', part) {
    } else if name :| RemovesFile(s, s', name) {
    }
  }

  lemma FromOneShrinks(p: seq<Sys>, some: Files, fewer: Files)
    requires p != [] && FromOne(p, some) && Part(fewer, some)
    ensures FromOne(p, fewer)
  {
    if !(p[0].disk.content.Some? && Part(some, p[0].disk.content.value)) {
      var n :| 0 <= n < |p| && p[n].pc.Working? && Part(some, p[n].pc.a.files);
      assert Part(fewer, p[n].pc.a.files);
    }
  }

  lemma FromOneGrows(q: seq<Sys>, p: seq<Sys>, some: Files)
    requires q != [] && q <= p && FromOne(q, some)
    ensures FromOne(p, some)
  {
    if !(q[0].disk.content.Some? && Part(some, q[0].disk.content.value)) {
      var n :| 0 <= n < |q| && q[n].pc.Working? && Part(some, q[n].pc.a.files);
      assert p[n] == q[n];
    }
  }

  /** Within one install: while the marker it found stands over anything but the content it
      found, it has passed its staging. */
  lemma StaleMarkerWindow(p: seq<Sys>, n: nat)
    requires Path(p) && n < |p| && p[n].pc.Working?
    requires p[n].disk.content != p[n].pc.a.found.content
    ensures !p[n].pc.phase.Copying?
    ensures p[n].disk.state == p[n].pc.a.found.state
  {
    PathKeeps(p, n);
  }

  /** No install is past its staging. */
  ghost predicate Resting(s: Sys) { s.pc.Idle? || s.pc.phase.Copying? }

  /**
   The marker tells the truth as long as no install has passed its staging since it was
   committed, through any crashes, errors and half-staged installs in between.
   */
  lemma {:induction false} MarkerTruthful(p: seq<Sys>, m: nat, n: nat)
    requires Path(p) && m < n < |p| && Commits(p[m], p[m + 1])
    requires forall k :: m < k <= n ==> Resting(p[k])
    ensures p[n].disk.content == Some(p[m].pc.a.files) && p[n].disk.state == Some(p[m].pc.a.marker)
    decreases n
  {
    if n == m + 1 {
      AlwaysCrashSafe(p, m);
    } else {
      MarkerTruthful(p, m, n - 1);
      PathKeeps(p, n - 1);
      RestingStep(p[n - 1], p[n]);
    }
  }

  lemma RestingStep(s: Sys, s': Sys)
    requires SysOk(s) && Next(s, s') && Resting(s) && Resting(s')
    ensures s'.disk.content == s.disk.content && s'.disk.state == s.disk.state
  {
  }

  lemma PathSnoc(p: seq<Sys>, s: Sys)
    requires Path(p) && Next(p[|p| - 1], s)
    ensures Path(p + [s])
  {
    hide Next;
    var q := p + [s];
    forall n | 0 < n < |q| ensures Next(q[n - 1], q[n]) {
      if n < |p| { assert q[n - 1] == p[n - 1] && q[n] == p[n]; }
    }
  }

  /** An install under way can copy all the files it has left. */
  lemma {:induction false} CopiesThrough(p: seq<Sys>, a: Attempt, i: nat) returns (q: seq<Sys>)
    requires Path(p) && i <= |a.names| && p[|p| - 1].pc == Working(a, Copying(i))
    ensures Path(q) && p <= q && q[|q| - 1].pc == Working(a, Copying(|a.names|))
    ensures q[|q| - 1].disk.content == p[|p| - 1].disk.content && q[|q| - 1].disk.state == p[|p| - 1].disk.state
    decreases |a.names| - i
  {
    if i == |a.names| {
      q := p;
    } else {
      var s := p[|p| - 1];
      PathKeeps(p, |p| - 1);
      assert a.names[i] in a.names;
      var part := a.files[a.names[i]];
      var s' := Sys(s.disk.(staging := s.disk.staging[a.dir := s.disk.staging[a.dir][a.names[i] := part]]),
                    Working(a, Copying(i + 1)));
      assert Copies(s, s', part);
      PathSnoc(p, s');
      q := CopiesThrough(p + [s'], a, i + 1);
    }
  }

  /** Past staging it need not: from any idle disk with a file in its content, the install of
      any bundle that stops after one removal leaves the old marker over less, with nothing running. */
  lemma StaleMarkerStays(p: seq<Sys>, name: string, a: Attempt) returns (q: seq<Sys>)
    requires Path(p) && p[|p| - 1].pc.Idle? && p[|p| - 1].disk.content.Some?
    requires name in p[|p| - 1].disk.content.value
    requires WellFormed(a) && a.found == p[|p| - 1].disk
    ensures Path(q) && p <= q && q[|q| - 1].pc.Idle?
    ensures var before, after := p[|p| - 1].disk, q[|q| - 1].disk;
            after.state == before.state && after.content == Some(before.content.value - {name})
  {
    var d := p[|p| - 1].disk;
    var s0 := Sys(d.(staging := d.staging[a.dir := map[]]), Working(a, Copying(0)));
    assert Begins(p[|p| - 1], s0);
    PathSnoc(p, s0);
    var staged := CopiesThrough(p + [s0], a, 0);
    q := RemovesOneAndStops(staged, name);
  }

  lemma RemovesOneAndStops(p: seq<Sys>, name: string) returns (q: seq<Sys>)
    requires Path(p) && p[|p| - 1].pc.Working? && p[|p| - 1].pc.phase == Copying(|p[|p| - 1].pc.a.names|)
    requires p[|p| - 1].disk.content.Some? && name in p[|p| - 1].disk.content.value
    ensures Path(q) && p <= q && q[|q| - 1].pc.Idle?
    ensures var before, after := p[|p| - 1].disk, q[|q| - 1].disk;
            after.state == before.state && after.content == Some(before.content.value - {name})
  {
    var d, a := p[|p| - 1].disk, p[|p| - 1].pc.a;
    var less := d.(content := Some(d.content.value - {name}));
    var s1, s2, s3 := Sys(d, Working(a, Removing)), Sys(less, Working(a, Removing)), Sys(less, Idle);
    assert StagingDone(p[|p| - 1], s1) && RemovesFile(s1, s2, name) && Stops(s2, s3);
    PathSnoc(p, s1);
    PathSnoc(p + [s1], s2);
    PathSnoc(p + [s1] + [s2], s3);
    q := p + [s1] + [s2] + [s3];
  }

  // ----- the object -----

  datatype InstallError = NotVerified(why: BundleError) | IoError

  function FilesOf(dir: BundleDir, m: Manifest): Files {
    map n | n in dir.files && n in Listing(m) :: dir.files[n]
  }

  class Store {
    var disk: Disk
    var counter: nat
    /** Which of the coming I/O calls fail. */
    const faulty: nat -> bool
    var calls: nat
    /** Every disk state so far, with the step that was under way. */
    ghost var path: seq<Sys>

    ghost predicate Valid()
      reads this
    {
      path != [] && Path(path) && path[|path| - 1].disk == disk
    }

    ghost function At(): Pc
      requires path != []
      reads this
    {
      path[|path| - 1].pc
    }

    constructor (found: Disk, faulty: nat -> bool)
      ensures Valid() && At() == Idle && disk == found && path == [Sys(found, Idle)] && this.faulty == faulty
    {
      disk, counter, calls, path := found, 0, 0, [Sys(found, Idle)];
      this.faulty := faulty;
    }

    method Io() returns (ok: bool)
      modifies `calls
      ensures calls == old(calls) + 1 && ok == !faulty(old(calls))
    {
      ok := !faulty(calls);
      calls := calls + 1;
    }

    /** One disk action of the protocol. */
    method Act(d: Disk, ghost pc: Pc)
      requires Valid() && Next(path[|path| - 1], Sys(d, pc))
      modifies `disk, `path
      ensures Valid() && disk == d && At() == pc && path == old(path) + [Sys(d, pc)]
    {
      disk := d;
      path := path + [Sys(d, pc)];
    }

    /** Gives up: temporaries are cleaned away as far as possible. */
    method Abandon(dir: string)
      requires Valid()
      modifies `disk, `path
      ensures Valid() && At() == Idle && old(path) <= path
      ensures disk == old(disk).(staging := old(disk).staging - {dir})
    {
      StopStep(path[|path| - 1], disk.(staging := disk.staging - {dir}));
      Act(disk.(staging := disk.staging - {dir}), Idle);
    }

    /** Writes the next file into staging, in part or whole. */
    method WriteStaged(ghost a: Attempt, i: nat, dir: string, name: string, part: Bytes, whole: bool)
      requires Valid() && At() == Working(a, Copying(i)) && SysOk(path[|path| - 1])
      requires i < |a.names| && name == a.names[i] && name in a.files && dir == a.dir
      requires part <= a.files[name] && (whole ==> part == a.files[name])
      modifies `disk, `path
      ensures Valid() && SysOk(path[|path| - 1]) && old(path) <= path
      ensures At() == Working(a, Copying(if whole then i + 1 else i))
    {
      ghost var pc := Working(a, Copying(if whole then i + 1 else i));
      CopyStep(path[|path| - 1], part, pc);
      hide Next, Path, SysOk;
      Act(disk.(staging := disk.staging[dir := disk.staging[dir][name := part]]), pc);
    }

    /** Copies the listed files into staging, one after the other. */
    method StageFiles(ghost a: Attempt, names: seq<string>, files: Files, dir: string) returns (ok: bool)
      requires Valid() && WellFormed(a) && names == a.names && files == a.files && dir == a.dir
      requires At() == Working(a, Copying(0)) && SysOk(path[|path| - 1])
      modifies `disk, `path, `calls
      ensures Valid() && old(path) <= path && SysOk(path[|path| - 1])
      ensures ok ==> At() == Working(a, Copying(|a.names|))
      ensures !ok ==> exists c :: faulty(c)
    {
      hide Next, Path, SysOk;
      for i := 0 to |names|
        invariant Valid() && At() == Working(a, Copying(i)) && old(path) <= path
        invariant SysOk(path[|path| - 1])
      {
        var name := names[i];
        assert name in a.names;
        var data := files[name];
        var cut :| 0 <= cut <= |data|;
        WriteStaged(a, i, dir, name, data[..cut], false);
        ok := Io();
        if !ok {
          return;
        }
        WriteStaged(a, i, dir, name, data, true);
      }
      ok := true;
    }

    method RemoveOne(ghost a: Attempt)
      requires Valid() && At() == Working(a, Removing) && SysOk(path[|path| - 1])
      requires disk.content.Some? && disk.content.value != map[]
      modifies `disk, `path
      ensures Valid() && At() == Working(a, Removing) && SysOk(path[|path| - 1]) && old(path) <= path
      ensures disk.content.Some? && |disk.content.value| < |old(disk).content.value|
    {
      var name :| name in disk.content.value;
      RemoveStep(path[|path| - 1], name);
      FewerFiles(disk.content.value, name);
      hide Next, Path, SysOk;
      Act(disk.(content := Some(disk.content.value - {name})), Working(a, Removing));
    }

    /** Removes the old content directory file by file. */
    method RemoveContent(ghost a: Attempt) returns (ok: bool)
      requires Valid() && At() == Working(a, Removing) && SysOk(path[|path| - 1]) && disk.content.Some?
      modifies `disk, `path, `calls
      ensures Valid() && old(path) <= path && SysOk(path[|path| - 1])
      ensures ok ==> At() == Working(a, Removed)
      ensures !ok ==> At() == Working(a, Removing) && exists c :: faulty(c)
    {
      hide Next, Path, SysOk;
      while disk.content.value != map[]
        invariant Valid() && At() == Working(a, Removing) && old(path) <= path
        invariant disk.content.Some? && SysOk(path[|path| - 1])
        decreases |disk.content.value|
      {
        ok := Io();
        if !ok {
          return;
        }
        RemoveOne(a);
      }
      ok := Io();
      if !ok {
        return;
      }
      EmptiedStep(path[|path| - 1]);
      Act(disk.(content := None), Working(a, Removed));
    }

    /** Creates the staging directory and fills it. */
    method Stage(ghost a: Attempt, names: seq<string>, files: Files, staging: string) returns (ok: bool)
      requires Valid() && At() == Idle && WellFormed(a) && a.found == disk
      requires names == a.names && files == a.files && staging == a.dir
      modifies `disk, `path, `calls
      ensures Valid() && old(path) <= path && SysOk(path[|path| - 1])
      ensures ok ==> At() == Working(a, Copying(|a.names|))
      ensures !ok ==> exists c :: faulty(c)
    {
      hide Next, Path, SysOk, WellFormed;
      IdleOk(path[|path| - 1]);
      ok := Io();
      if !ok {
        return;
      }
      BeginStep(path[|path| - 1], a);
      Act(disk.(staging := disk.staging[staging := map[]]), Working(a, Copying(0)));
      ok := StageFiles(a, names, files, staging);
    }

    /** Removes the old content, if any, and moves staging into its place. A failed removal
        returns as it is; only a failed move cleans staging away. */
    method SwapIn(ghost a: Attempt, staging: string) returns (ok: bool)
      requires Valid() && At() == Working(a, Copying(|a.names|)) && SysOk(path[|path| - 1]) && staging == a.dir
      modifies `disk, `path, `calls
      ensures Valid() && old(path) <= path
      ensures ok ==> At() == Working(a, Swapped) && SysOk(path[|path| - 1])
      ensures !ok ==> At() == Idle && exists c :: faulty(c)
      ensures !ok ==> (staging in disk.staging <==> disk.content.Some?)
    {
      hide Next, Path, SysOk;
      StagedStep(path[|path| - 1]);
      var hadContent := disk.content.Some?;
      Act(disk, Working(a, if hadContent then Removing else Removed));
      if hadContent {
        ok := RemoveContent(a);
        if !ok {
          StillStaged(path[|path| - 1]);
          StopStep(path[|path| - 1], disk);
          Act(disk, Idle);
          return;
        }
      }
      StillStaged(path[|path| - 1]);
      ok := Io();
      if !ok {
        Abandon(staging);
        return;
      }
      SwapStep(path[|path| - 1]);
      Act(disk.(content := Some(disk.staging[staging]), staging := disk.staging - {staging}), Working(a, Swapped));
    }

    /**
     Verifies the bundle and installs it. A bundle that fails verification changes
     nothing. Success leaves exactly the bundle's files under its own marker, from
     whatever the disk was; without I/O faults a verified bundle always succeeds.
     */
    method Install(dir: BundleDir, trusted: set<Key>, digest: Bytes -> string, now: int)
      returns (r: Reply<Manifest, InstallError>)
      requires Valid() && At() == Idle
      modifies this
      ensures Valid() && At() == Idle && old(path) <= path
      ensures Verdict(dir, trusted, digest).Refuse? ==>
                r == Refuse(NotVerified(Verdict(dir, trusted, digest).why)) && disk == old(disk) && path == old(path)
      ensures r.Done? ==>
                && Verdict(dir, trusted, digest) == Done(r.value)
                && disk.content == Some(FilesOf(dir, r.value))
                && disk.state == Some(FeedState(r.value.version, r.value.source, r.value.tier, r.value.createdAt, now))
      ensures Verdict(dir, trusted, digest).Done? && (forall c :: !faulty(c)) ==> r.Done?
    {
      hide Next, Path, SysOk, WellFormed, Verdict, FilesOf, Listing;
      var verified := VerifyBundle(dir, trusted, digest);
      if verified.Refuse? {
        return Refuse(NotVerified(verified.why));
      }
      var m := verified.value;
      var staging := StagingName(counter);
      counter := counter + 1;
      var names, files := Listing(m), FilesOf(dir, m);
      ghost var a := Attempt(names, files, StateOf(m, now), staging, disk);
      VerifiedAttempt(dir, trusted, digest, a);
      var ok := Stage(a, names, files, staging);
      if !ok {
        Abandon(staging);
        return Refuse(IoError);
      }
      ok := SwapIn(a, staging);
      if !ok {
        return Refuse(IoError);
      }
      ok := CommitMarker(a, StateOf(m, now));
      r := if ok then Done(m) else Refuse(IoError);
    }

    /** write_atomic on state.json: a synced temporary file, renamed over the target. */
    method CommitMarker(ghost a: Attempt, marker: FeedState) returns (ok: bool)
      requires Valid() && At() == Working(a, Swapped) && marker == a.marker && SysOk(path[|path| - 1])
      modifies this
      ensures Valid() && At() == Idle && old(path) <= path
      ensures ok ==> disk.content == Some(a.files) && disk.state == Some(a.marker)
      ensures !ok ==> exists c :: faulty(c)
    {
      var temp := TempName(counter);
      counter := counter + 1;
      Act(disk.(temps := disk.temps + {temp}), Working(a, Swapped));
      ok := Io();
      if !ok {
        Act(disk.(temps := disk.temps - {temp}), Idle);
        return;
      }
      Act(disk, Working(a, MarkerReady));
      ok := Io();
      if !ok {
        Act(disk.(temps := disk.temps - {temp}), Idle);
        return;
      }
      Act(disk.(state := Some(marker), temps := disk.temps - {temp}), Idle);
    }
  }

  function StagingName(counter: nat): string { ".content-new-" + Tally(counter) }

  function TempName(counter: nat): string { "state.json." + Tally(counter) + ".tmp" }

  function Tally(n: nat): string { if n == 0 then "" else "i" + Tally(n - 1) }

  lemma VerifiedAttempt(dir: BundleDir, trusted: set<Key>, digest: Bytes -> string, a: Attempt)
    requires Verdict(dir, trusted, digest).Done?
    requires var m := Verdict(dir, trusted, digest).value; a.names == Listing(m) && a.files == FilesOf(dir, m)
    ensures WellFormed(a)
  {
    VerifiedExactly(dir, trusted, digest);
    var entries := dir.manifest.value.entries;
    forall n | n in a.names ensures n in a.files {
      var i :| 0 <= i < |a.names| && a.names[i] == n;
      assert EntryGood(dir.files, digest, entries[i]);
    }
    forall i, j | 0 <= i < j < |a.names| ensures a.names[i] != a.names[j] {
      assert entries[i].name != entries[j].name;
    }
  }

  lemma BeginStep(s: Sys, a: Attempt)
    requires SysOk(s) && s.pc.Idle? && WellFormed(a) && a.found == s.disk
    ensures var s' := Sys(s.disk.(staging := s.disk.staging[a.dir := map[]]), Working(a, Copying(0)));
            Next(s, s') && SysOk(s')
  {
    var s' := Sys(s.disk.(staging := s.disk.staging[a.dir := map[]]), Working(a, Copying(0)));
    assert Begins(s, s');
  }

  lemma CopyStep(s: Sys, part: Bytes, pc: Pc)
    requires SysOk(s) && s.pc.Working? && s.pc.phase.Copying? && s.pc.phase.next < |s.pc.a.names|
    requires var a, i := s.pc.a, s.pc.phase.next;
             && a.names[i] in a.files && part <= a.files[a.names[i]]
             && (pc == s.pc || (pc == Working(a, Copying(i + 1)) && part == a.files[a.names[i]]))
    ensures var a, i := s.pc.a, s.pc.phase.next;
            && a.dir in s.disk.staging
            && var s' := Sys(s.disk.(staging := s.disk.staging[a.dir := s.disk.staging[a.dir][a.names[i] := part]]), pc);
               Next(s, s') && SysOk(s')
  {
    var a, i := s.pc.a, s.pc.phase.next;
    var s' := Sys(s.disk.(staging := s.disk.staging[a.dir := s.disk.staging[a.dir][a.names[i] := part]]), pc);
    assert Copies(s, s', part);
    NextKeeps(s, s');
  }

  lemma StagedStep(s: Sys)
    requires SysOk(s) && s.pc.Working? && s.pc.phase == Copying(|s.pc.a.names|)
    ensures var s' := Sys(s.disk, Working(s.pc.a, if s.disk.content.Some? then Removing else Removed));
            Next(s, s') && SysOk(s')
  {
    var s' := Sys(s.disk, Working(s.pc.a, if s.disk.content.Some? then Removing else Removed));
    assert StagingDone(s, s');
    NextKeeps(s, s');
  }

  lemma RemoveStep(s: Sys, name: string)
    requires SysOk(s) && s.pc.Working? && s.pc.phase.Removing? && s.disk.content.Some? && name in s.disk.content.value
    ensures var s' := Sys(s.disk.(content := Some(s.disk.content.value - {name})), s.pc); Next(s, s') && SysOk(s')
  {
    var s' := Sys(s.disk.(content := Some(s.disk.content.value - {name})), s.pc);
    assert RemovesFile(s, s', name);
    NextKeeps(s, s');
  }

  lemma FewerFiles(files: Files, name: string)
    requires name in files
    ensures |files - {name}| < |files|
  {
    assert (files - {name}).Keys == files.Keys - {name};
    assert |files - {name}| == |(files - {name}).Keys| && |files| == |files.Keys|;
  }

  lemma IdleOk(s: Sys)
    requires s.pc.Idle?
    ensures SysOk(s)
  {
  }

  lemma StillStaged(s: Sys)
    requires SysOk(s) && s.pc.Working? && (s.pc.phase.Removing? || s.pc.phase.Removed?)
    ensures s.pc.a.dir in s.disk.staging && (s.disk.content.Some? <==> s.pc.phase.Removing?)
  {
  }

  lemma StopStep(s: Sys, d: Disk)
    requires d.content == s.disk.content && d.state == s.disk.state
    ensures Next(s, Sys(d, Idle))
  {
    assert Stops(s, Sys(d, Idle));
  }

  lemma EmptiedStep(s: Sys)
    requires SysOk(s) && s.pc.Working? && s.pc.phase.Removing? && s.disk.content == Some(map[])
    ensures var s' := Sys(s.disk.(content := None), Working(s.pc.a, Removed)); Next(s, s') && SysOk(s')
  {
    var s' := Sys(s.disk.(content := None), Working(s.pc.a, Removed));
    assert RemovesDir(s, s');
    NextKeeps(s, s');
  }

  lemma SwapStep(s: Sys)
    requires SysOk(s) && s.pc.Working? && s.pc.phase.Removed?
    ensures var a := s.pc.a;
            && a.dir in s.disk.staging
            && var s' := Sys(s.disk.(content := Some(s.disk.staging[a.dir]), staging := s.disk.staging - {a.dir}),
                             Working(a, Swapped));
               Next(s, s') && SysOk(s')
  {
    var s' := Sys(s.disk.(content := Some(s.disk.staging[s.pc.a.dir]), staging := s.disk.staging - {s.pc.a.dir}),
                  Working(s.pc.a, Swapped));
    assert Swaps(s, s');
    NextKeeps(s, s');
  }

  /** What an installed bundle consists of: exactly the files its manifest lists, each with the
      bytes the bundle had and the digest the manifest states. */
  lemma InstalledIsListed(dir: BundleDir, trusted: set<Key>, digest: Bytes -> string)
    requires Verdict(dir, trusted, digest).Done?
    ensures var m := Verdict(dir, trusted, digest).value;
            && (forall n :: n in FilesOf(dir, m) <==> exists e :: e in m.entries && e.name == n)
            && (forall e :: e in m.entries ==>
                  && e.name in FilesOf(dir, m) && e.name in dir.files && FilesOf(dir, m)[e.name] == dir.files[e.name]
                  && SameHex(digest(FilesOf(dir, m)[e.name]), Trim(e.sha256)))
  {
    VerifiedExactly(dir, trusted, digest);
    var m := dir.manifest.value;
    forall e | e in m.entries ensures EntryGood(dir.files, digest, e) && e.name in Listing(m) {
      var i :| 0 <= i < |m.entries| && m.entries[i] == e;
      assert Listing(m)[i] == e.name;
    }
    forall n | n in FilesOf(dir, m) ensures exists e :: e in m.entries && e.name == n {
      var i :| 0 <= i < |m.entries| && m.entries[i].name == n;
      assert m.entries[i] in m.entries;
    }
  }
}
