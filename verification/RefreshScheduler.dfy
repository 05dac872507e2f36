/**
 The periodic refresh loop: always the soonest-due module next, rescheduled from the
 moment its refresh completed. Instants are integer ticks; the clock readings are
 parameters.
 */
module RefreshScheduler {
  import opened Basics

  datatype Entry = Entry(mod: nat, interval: nat, due: nat)

  /** The first entry with the smallest due time. */
  function Soonest(s: seq<Entry>): (i: nat)
    requires s != []
    ensures i < |s|
    ensures forall j :: 0 <= j < |s| ==> s[i].due <= s[j].due
    ensures forall j :: 0 <= j < i ==> s[i].due < s[j].due
  {
    if |s| == 1 then 0
    else
      var i := Soonest(s[..|s| - 1]);
      if s[|s| - 1].due < s[i].due then |s| - 1 else i
  }

  /** One turn of the loop, its refresh completing at `finished`. */
  function Turn(s: seq<Entry>, finished: nat): (r: seq<Entry>)
    requires s != []
    ensures |r| == |s|
  {
    var i := Soonest(s);
    s[i := s[i].(due := finished + s[i].interval)]
  }

  class PeriodicRunner {
    var schedule: seq<Entry>

    /** Schedules every module that declares an interval, each from its own reading of the clock. */
    constructor (intervals: seq<Option<nat>>, clock: seq<nat>)
      requires |clock| == |intervals|
      ensures forall e :: e in schedule <==>
                exists i :: 0 <= i < |intervals| && intervals[i].Some?
                            && e == Entry(i, intervals[i].value, clock[i] + intervals[i].value)
      ensures forall a, b :: 0 <= a < b < |schedule| ==> schedule[a].mod < schedule[b].mod
    {
      var built: seq<Entry> := [];
      for i := 0 to |intervals|
        invariant forall e :: e in built <==>
                    exists k :: 0 <= k < i && intervals[k].Some?
                                && e == Entry(k, intervals[k].value, clock[k] + intervals[k].value)
        invariant forall a :: 0 <= a < |built| ==> built[a].mod < i
        invariant forall a, b :: 0 <= a < b < |built| ==> built[a].mod < built[b].mod
      {
        if intervals[i].Some? {
          built := built + [Entry(i, intervals[i].value, clock[i] + intervals[i].value)];
        }
      }
      schedule := built;
    }

    method PickSoonest() returns (i: nat)
      requires schedule != []
      ensures i == Soonest(schedule)
    {
      i := 0;
      for k := 1 to |schedule|
        invariant i < k
        invariant forall j :: 0 <= j < k ==> schedule[i].due <= schedule[j].due
        invariant forall j :: 0 <= j < i ==> schedule[i].due < schedule[j].due
      {
        if schedule[k].due < schedule[i].due {
          i := k;
        }
      }
    }

    /** Refreshes the soonest module; the refresh completes no earlier than it was due. */
    method RunOnce(finished: nat) returns (refreshed: nat)
      requires schedule != [] && schedule[Soonest(schedule)].due <= finished
      modifies this
      ensures schedule == Turn(old(schedule), finished)
      ensures refreshed == old(schedule)[Soonest(old(schedule))].mod
    {
      var i := PickSoonest();
      refreshed := schedule[i].mod;
      schedule := schedule[i := schedule[i].(due := finished + schedule[i].interval)];
    }
  }

  /** Overrides from config: 0 switches a module off, an absent id keeps its interval. A module
      that is not `periodic` (an event module) has a setter that does nothing. */
  method ApplyOverrides(ids: seq<string>, periodic: seq<bool>, intervals: seq<Option<nat>>, overrides: map<string, nat>)
    returns (r: seq<Option<nat>>)
    requires |ids| == |periodic| == |intervals|
    ensures |r| == |intervals|
    ensures forall i :: 0 <= i < |r| ==>
              && (ids[i] !in overrides || !periodic[i] ==> r[i] == intervals[i])
              && (ids[i] in overrides && periodic[i] ==> (r[i].Some? <==> overrides[ids[i]] > 0))
              && (ids[i] in overrides && periodic[i] && r[i].Some? ==> r[i].value == overrides[ids[i]])
  {
    r := intervals;
    for i := 0 to |ids|
      invariant |r| == |intervals|
      invariant forall k :: i <= k < |r| ==> r[k] == intervals[k]
      invariant forall k :: 0 <= k < i ==>
                  && (ids[k] !in overrides || !periodic[k] ==> r[k] == intervals[k])
                  && (ids[k] in overrides && periodic[k] ==> (r[k].Some? <==> overrides[ids[k]] > 0))
                  && (ids[k] in overrides && periodic[k] && r[k].Some? ==> r[k].value == overrides[ids[k]])
    {
      if ids[i] in overrides {
        var secs := overrides[ids[i]];
        if periodic[i] {
          r := r[i := if secs > 0 then Some(secs) else None];
        }
      }
    }
  }

  // ----- runs -----

  function After(s: seq<Entry>, times: seq<nat>): (r: seq<Entry>)
    requires s != []
    ensures |r| == |s|
    decreases |times|
  {
    if times == [] then s else Turn(After(s, times[..|times| - 1]), times[|times| - 1])
  }

  /** The entry refreshed in turn `n`. */
  function Picked(s: seq<Entry>, times: seq<nat>, n: nat): nat
    requires s != [] && n < |times|
  {
    Soonest(After(s, times[..n]))
  }

  /** No refresh completes before it is due. */
  ghost predicate Legal(s: seq<Entry>, times: seq<nat>)
    requires s != []
  {
    forall n :: 0 <= n < |times| ==>
      var now := After(s, times[..n]); now[Soonest(now)].due <= times[n]
  }

  ghost predicate Positive(s: seq<Entry>) {
    forall j :: 0 <= j < |s| ==> s[j].interval > 0
  }

  // ----- no module starves -----

  /** How far the entries listed still are from overtaking an entry due at `due`. */
  ghost function Lag(s: seq<Entry>, due: nat): nat {
    if s == [] then 0
    else (if s[0].due <= due then due + 1 - s[0].due else 0) + Lag(s[1..], due)
  }

  lemma {:induction false} LagUpdate(s: seq<Entry>, i: nat, later: Entry, due: nat)
    requires i < |s| && s[i].due <= due && later.due > s[i].due
    ensures Lag(s[i := later], due) < Lag(s, due)
  {
    if i > 0 {
      assert s[i := later][1..] == s[1..][i - 1 := later];
      LagUpdate(s[1..], i - 1, later, due);
    } else {
      assert s[0 := later][1..] == s[1..];
    }
  }

  /** Every turn that does not pick `k` brings `k` strictly closer. */
  lemma LagDecreases(s: seq<Entry>, finished: nat, k: nat)
    requires s != [] && Positive(s) && k < |s| && k != Soonest(s) && s[Soonest(s)].due <= finished
    ensures Turn(s, finished)[k] == s[k]
    ensures Lag(Turn(s, finished), s[k].due) < Lag(s, s[k].due)
  {
    hide Soonest, Lag;
    var i := Soonest(s);
    LagUpdate(s, i, s[i].(due := finished + s[i].interval), s[k].due);
  }

  lemma {:induction false} AfterKeepsIntervals(s: seq<Entry>, times: seq<nat>)
    requires s != []
    ensures forall j :: 0 <= j < |s| ==> After(s, times)[j].interval == s[j].interval && After(s, times)[j].mod == s[j].mod
    decreases |times|
  {
    if times != [] { AfterKeepsIntervals(s, times[..|times| - 1]); }
  }

  ghost predicate NotPicked(s: seq<Entry>, times: seq<nat>, k: nat)
    requires s != []
  {
    forall n :: 0 <= n < |times| ==> Picked(s, times, n) != k
  }

  lemma {:induction false} WaitingLag(s: seq<Entry>, times: seq<nat>, k: nat)
    requires s != [] && Positive(s) && k < |s| && Legal(s, times) && NotPicked(s, times, k)
    ensures After(s, times)[k] == s[k]
    ensures Lag(After(s, times), s[k].due) + |times| <= Lag(s, s[k].due)
    decreases |times|
  {
    hide Soonest, Lag, Turn;
    if times != [] {
      var before := times[..|times| - 1];
      var last := |times| - 1;
      PrefixLegal(s, times, k);
      WaitingLag(s, before, k);
      AfterKeepsIntervals(s, before);
      assert Picked(s, times, last) != k;
      var now := After(s, times[..last]);
      assert now[Soonest(now)].due <= times[last];
      LagDecreases(After(s, before), times[last], k);
    }
  }

  lemma PrefixLegal(s: seq<Entry>, times: seq<nat>, k: nat)
    requires s != [] && times != [] && Legal(s, times) && NotPicked(s, times, k)
    ensures Legal(s, times[..|times| - 1]) && NotPicked(s, times[..|times| - 1], k)
  {
    var before := times[..|times| - 1];
    forall n | 0 <= n < |before|
      ensures Picked(s, before, n) != k
      ensures var now := After(s, before[..n]); now[Soonest(now)].due <= before[n]
    {
      assert before[..n] == times[..n];
      assert Picked(s, times, n) != k;
    }
  }

  /** With positive intervals every module is refreshed within its lag, whatever the others do. */
  lemma NoStarvation(s: seq<Entry>, times: seq<nat>, k: nat)
    requires s != [] && Positive(s) && k < |s| && Legal(s, times) && |times| > Lag(s, s[k].due)
    ensures exists n :: 0 <= n < |times| && Picked(s, times, n) == k
  {
    if NotPicked(s, times, k) { WaitingLag(s, times, k); }
  }

  // ----- an overdue module waits for one round at most -----

  /** How many entries are due by `now`. */
  ghost function DueBy(s: seq<Entry>, now: nat): nat {
    if s == [] then 0 else (if s[0].due <= now then 1 else 0) + DueBy(s[1..], now)
  }

  lemma {:induction false} DueByUpdate(s: seq<Entry>, i: nat, later: Entry, now: nat)
    requires i < |s| && s[i].due <= now < later.due
    ensures DueBy(s[i := later], now) == DueBy(s, now) - 1
  {
    if i > 0 {
      assert s[i := later][1..] == s[1..][i - 1 := later];
      DueByUpdate(s[1..], i - 1, later, now);
    } else {
      assert s[0 := later][1..] == s[1..];
    }
  }

  lemma {:induction false} DueByBounds(s: seq<Entry>, now: nat)
    ensures DueBy(s, now) <= |s|
    ensures (exists j :: 0 <= j < |s| && s[j].due <= now) ==> DueBy(s, now) >= 1
  {
    if s != [] {
      DueByBounds(s[1..], now);
      if exists j :: 0 <= j < |s| && s[j].due <= now {
        var j :| 0 <= j < |s| && s[j].due <= now;
        if j > 0 { assert s[1..][j - 1].due <= now; }
      }
    }
  }

  ghost predicate From(times: seq<nat>, now: nat) { forall n :: 0 <= n < |times| ==> times[n] >= now }

  lemma {:induction false} OverdueRound(s: seq<Entry>, times: seq<nat>, k: nat, now: nat)
    requires s != [] && Positive(s) && k < |s| && Legal(s, times) && NotPicked(s, times, k)
    requires s[k].due <= now && From(times, now)
    ensures After(s, times)[k] == s[k]
    ensures DueBy(After(s, times), now) + |times| == DueBy(s, now)
    decreases |times|
  {
    hide Soonest, DueBy;
    if times != [] {
      var before := times[..|times| - 1];
      var last := |times| - 1;
      PrefixLegal(s, times, k);
      OverdueRound(s, before, k, now);
      AfterKeepsIntervals(s, before);
      var a := After(s, before);
      assert Soonest(a) == Picked(s, times, last) != k;
      assert a[Soonest(a)].interval == s[Soonest(a)].interval > 0;
      OverdueTurn(a, times[last], k, now);
    }
  }

  /** A turn that does not pick an overdue module takes one overdue entry off. */
  lemma OverdueTurn(a: seq<Entry>, finished: nat, k: nat, now: nat)
    requires a != [] && k < |a| && Soonest(a) != k && a[Soonest(a)].interval > 0
    requires a[k].due <= now <= finished
    ensures Turn(a, finished)[k] == a[k] && DueBy(Turn(a, finished), now) + 1 == DueBy(a, now)
  {
    hide Soonest, DueBy;
    var i := Soonest(a);
    var later := a[i].(due := finished + a[i].interval);
    assert a[i].due <= a[k].due;
    DueByUpdate(a, i, later, now);
  }

  /** Once a module is overdue and the clock does not run back, every other module is
      refreshed at most once before it. */
  lemma {:induction false} OthersAtMostOnce(s: seq<Entry>, times: seq<nat>, k: nat, now: nat, a: nat, b: nat)
    requires s != [] && Positive(s) && k < |s| && Legal(s, times) && NotPicked(s, times, k)
    requires s[k].due <= now && From(times, now)
    requires a < b < |times|
    ensures Picked(s, times, a) != Picked(s, times, b)
  {
    var j := Picked(s, times, a);
    LaterThanNow(s, times, k, now, a, b);
    WaitingPrefix(s, times, k, b);
    WaitingLag(s, times[..b], k);
  }

  lemma {:induction false} WaitingPrefix(s: seq<Entry>, times: seq<nat>, k: nat, n: nat)
    requires s != [] && n <= |times| && Legal(s, times) && NotPicked(s, times, k)
    ensures Legal(s, times[..n]) && NotPicked(s, times[..n], k)
    decreases |times|
  {
    if n < |times| {
      PrefixLegal(s, times, k);
      WaitingPrefix(s, times[..|times| - 1], k, n);
      assert times[..|times| - 1][..n] == times[..n];
    } else {
      assert times[..n] == times;
    }
  }

  /** An entry refreshed in turn `a` is due after `now` from then on. */
  lemma {:induction false} LaterThanNow(s: seq<Entry>, times: seq<nat>, k: nat, now: nat, a: nat, b: nat)
    requires s != [] && Positive(s) && k < |s| && Legal(s, times)
    requires From(times, now) && a < b <= |times|
    ensures After(s, times[..b])[Picked(s, times, a)].due > now
    decreases b
  {
    hide Soonest, After, Legal;
    var prev := times[..b - 1];
    AfterOneMore(s, times, b);
    AfterKeepsIntervals(s, prev);
    var before, i := After(s, prev), Picked(s, times, a);
    assert before[Soonest(before)].interval == s[Soonest(before)].interval > 0;
    if b - 1 > a { LaterThanNow(s, times, k, now, a, b - 1); }
    TurnLater(before, times[b - 1], i, now);
  }

  lemma AfterOneMore(s: seq<Entry>, times: seq<nat>, b: nat)
    requires s != [] && 0 < b <= |times|
    ensures After(s, times[..b]) == Turn(After(s, times[..b - 1]), times[b - 1])
  {
    hide Soonest, Turn;
    assert times[..b][..b - 1] == times[..b - 1] && times[..b][b - 1] == times[b - 1];
  }

  /** A turn at or after `now` leaves an entry due later if it picks it or it was so before. */
  lemma TurnLater(s: seq<Entry>, finished: nat, i: nat, now: nat)
    requires s != [] && i < |s| && finished >= now && s[Soonest(s)].interval > 0
    requires i == Soonest(s) || s[i].due > now
    ensures Turn(s, finished)[i].due > now
  {
    hide Soonest;
  }

  /** So an overdue module is refreshed within as many turns as there are modules. */
  lemma OverdueWithinOneRound(s: seq<Entry>, times: seq<nat>, k: nat, now: nat)
    requires s != [] && Positive(s) && k < |s| && Legal(s, times) && |times| >= |s|
    requires s[k].due <= now && From(times, now)
    ensures exists n :: 0 <= n < |times| && Picked(s, times, n) == k
  {
    if NotPicked(s, times, k) {
      OverdueRound(s, times, k, now);
      DueByBounds(s, now);
      DueByBounds(After(s, times), now);
    }
  }

  /** The same completion time `n` times over. */
  function Repeat(t: nat, n: nat): (r: seq<nat>)
    ensures |r| == n && forall i :: 0 <= i < n ==> r[i] == t
  {
    if n == 0 then [] else Repeat(t, n - 1) + [t]
  }

  lemma {:induction false} RepeatPrefix(t: nat, n: nat, m: nat)
    requires m <= n
    ensures Repeat(t, n)[..m] == Repeat(t, m)
  {
  }

  lemma {:induction false} StuckAfter(s: seq<Entry>, n: nat)
    requires s != [] && s[Soonest(s)].interval == 0
    ensures After(s, Repeat(s[Soonest(s)].due, n)) == s
  {
    hide Soonest;
    var t := s[Soonest(s)].due;
    if n > 0 {
      RepeatPrefix(t, n, n - 1);
      StuckAfter(s, n - 1);
      assert Turn(s, t) == s;
    }
  }

  /** The positive interval is needed: a zero interval on the soonest entry lets it be refreshed
      any number of times in a row at one instant while all others wait. */
  lemma ZeroIntervalStarves(s: seq<Entry>, n: nat)
    requires s != [] && s[Soonest(s)].interval == 0
    ensures var times := Repeat(s[Soonest(s)].due, n);
            Legal(s, times) && forall m :: 0 <= m < n ==> Picked(s, times, m) == Soonest(s)
  {
    hide Soonest, After, Turn;
    var t := s[Soonest(s)].due;
    var times := Repeat(t, n);
    forall m | 0 <= m < n
      ensures Picked(s, times, m) == Soonest(s)
      ensures var now := After(s, times[..m]); now[Soonest(now)].due <= times[m]
    {
      RepeatPrefix(t, n, m);
      StuckAfter(s, m);
    }
  }

  // ----- when a module is due -----

  /** `n` is the last turn that picked `k`. */
  ghost predicate LastPick(s: seq<Entry>, times: seq<nat>, k: nat, n: nat)
    requires s != []
  {
    n < |times| && Picked(s, times, n) == k && forall m :: n < m < |times| ==> Picked(s, times, m) != k
  }

  lemma PickedPrefix(s: seq<Entry>, times: seq<nat>, m: nat)
    requires s != [] && m + 1 < |times|
    ensures Picked(s, times[..|times| - 1], m) == Picked(s, times, m)
  {
    assert times[..|times| - 1][..m] == times[..m];
  }

  /** Over any run a module is due exactly one interval after its last refresh completed, or
      when it first was if it never was refreshed. */
  lemma {:induction false} DueExactly(s: seq<Entry>, times: seq<nat>, k: nat)
    requires s != [] && k < |s|
    ensures forall n: nat :: LastPick(s, times, k, n) ==> After(s, times)[k].due == times[n] + s[k].interval
    ensures NotPicked(s, times, k) ==> After(s, times)[k].due == s[k].due
    decreases |times|
  {
    hide Soonest;
    if times != [] {
      var before, last := times[..|times| - 1], |times| - 1;
      DueExactly(s, before, k);
      AfterKeepsIntervals(s, before);
      assert Picked(s, times, last) == Soonest(After(s, before));
      forall m: nat | m < last ensures Picked(s, before, m) == Picked(s, times, m) { PickedPrefix(s, times, m); }
      forall n: nat | LastPick(s, times, k, n) ensures After(s, times)[k].due == times[n] + s[k].interval {
        if n < last {
          assert before[n] == times[n];
          assert LastPick(s, before, k, n);
        }
      }
    }
  }
}
