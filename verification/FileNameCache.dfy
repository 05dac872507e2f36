/**
 The bounded FileObject-to-path cache: a map of live entries and a deque of insertion
 tokens that may be stale or repeated. Eviction pops tokens until it hits a live key;
 compaction keeps, for each live key, its last token.
 */
module FileNameCache {
  import opened Basics

  const FileCacheCap: nat := 8192

  type FileObject = nat

  datatype Cache = Cache(live: map<FileObject, string>, order: seq<FileObject>)

  const EmptyCache := Cache(map[], [])

  // ----- what each operation does -----

  /** Pops tokens up to and including the first live one, whose entry is dropped. */
  function Evict(c: Cache): Cache
    decreases |c.order|
  {
    if c.order == [] then c
    else if c.order[0] in c.live then Cache(c.live - {c.order[0]}, c.order[1..])
    else Evict(Cache(c.live, c.order[1..]))
  }

  /** The live tokens that do not occur again later. */
  function KeepLast(order: seq<FileObject>, live: map<FileObject, string>): seq<FileObject> {
    if order == [] then []
    else if order[0] in live && order[0] !in order[1..] then [order[0]] + KeepLast(order[1..], live)
    else KeepLast(order[1..], live)
  }

  function Insert(cap: nat, c: Cache, fo: FileObject, path: string): Cache {
    var room := if fo !in c.live && |c.live| >= cap then Evict(c) else c;
    var live := room.live[fo := path];
    var order := room.order + [fo];
    Cache(live, if |order| > 2 * cap then KeepLast(order, live) else order)
  }

  function Remove(c: Cache, fo: FileObject): Cache {
    Cache(c.live - {fo}, c.order)
  }

  function Get(c: Cache, fo: FileObject): Option<string> {
    if fo in c.live then Some(c.live[fo]) else None
  }

  // ----- the object -----

  function Reverse(s: seq<FileObject>): (r: seq<FileObject>)
    ensures |r| == |s|
  {
    if s == [] then [] else Reverse(s[1..]) + [s[0]]
  }

  lemma {:induction false} ReverseAppend(s: seq<FileObject>, x: FileObject)
    ensures Reverse(s + [x]) == [x] + Reverse(s)
  {
    if s == [] {
      assert s + [x] == [x];
    } else {
      assert (s + [x])[1..] == s[1..] + [x];
      ReverseAppend(s[1..], x);
    }
  }

  class NameCache {
    var live: map<FileObject, string>
    var order: seq<FileObject>

    ghost function View(): Cache
      reads this
    {
      Cache(live, order)
    }

    constructor ()
      ensures View() == EmptyCache
    {
      live, order := map[], [];
    }

    /** Pops from the front until a live key is evicted. */
    method EvictOldest()
      modifies this
      ensures View() == Evict(old(View()))
    {
      while order != []
        invariant Evict(View()) == Evict(old(View()))
        decreases |order|
      {
        var oldest := order[0];
        order := order[1..];
        if oldest in live {
          live := live - {oldest};
          return;
        }
      }
    }

    /** Walks the tokens back to front, keeping each live key the first time it is seen. */
    method Compact()
      modifies `order
      ensures order == KeepLast(old(order), live)
    {
      var seen: set<FileObject> := {};
      var kept: seq<FileObject> := [];
      var i := |order|;
      while i > 0
        invariant 0 <= i <= |order| && order == old(order)
        invariant forall x :: x in seen <==> x in live && x in order[i..]
        invariant Reverse(kept) == KeepLast(order[i..], live)
      {
        i := i - 1;
        ghost var rest := order[i..];
        assert rest[0] == order[i] && rest[1..] == order[i + 1..];
        assert forall x :: x in rest <==> x == order[i] || x in rest[1..];
        if order[i] in live && order[i] !in seen {
          ReverseAppend(kept, order[i]);
          seen := seen + {order[i]};
          kept := kept + [order[i]];
        }
      }
      assert order[0..] == order;
      order := Reverse(kept);
    }

    method Put(fo: FileObject, path: string)
      modifies this
      ensures View() == Insert(8192, old(View()), fo, path)
    {
      if fo !in live && |live| >= FileCacheCap {
        EvictOldest();
      }
      live := live[fo := path];
      order := order + [fo];
      if |order| > 2 * FileCacheCap {
        Compact();
      }
    }

    method Lookup(fo: FileObject) returns (path: Option<string>)
      ensures path == Get(View(), fo)
    {
      path := if fo in live then Some(live[fo]) else None;
    }

    method Drop(fo: FileObject)
      modifies this
      ensures View() == Remove(old(View()), fo)
    {
      live := live - {fo};
    }
  }

  // ----- the invariant behind the two caps -----

  /** Every live key still has a token, so eviction always finds a victim. */
  ghost predicate Tokened(c: Cache) {
    forall k :: k in c.live ==> k in c.order
  }

  ghost predicate Bounded(cap: nat, c: Cache) {
    |c.live| <= cap && |c.order| <= 2 * cap && Tokened(c)
  }

  /** `n` is the position of the first live token. */
  ghost predicate FirstLive(c: Cache, n: nat) {
    n < |c.order| && c.order[n] in c.live && forall i :: 0 <= i < n ==> c.order[i] !in c.live
  }

  /** Eviction removes the live key whose earliest remaining token is foremost. */
  lemma {:induction false} EvictTakesFirstLive(c: Cache, n: nat)
    requires FirstLive(c, n)
    ensures Evict(c) == Cache(c.live - {c.order[n]}, c.order[n + 1..])
    decreases |c.order|
  {
    if n > 0 {
      assert FirstLive(Cache(c.live, c.order[1..]), n - 1);
      EvictTakesFirstLive(Cache(c.live, c.order[1..]), n - 1);
      assert c.order[1..][n..] == c.order[n + 1..];
    }
  }

  lemma {:induction false} VictimExists(c: Cache) returns (n: nat)
    requires Tokened(c) && |c.live| > 0
    ensures FirstLive(c, n)
  {
    var k :| k in c.live;
    n := 0;
    while c.order[n] !in c.live
      invariant n < |c.order| && forall i :: 0 <= i < n ==> c.order[i] !in c.live
      invariant exists i :: n <= i < |c.order| && c.order[i] == k
      decreases |c.order| - n
    {
      n := n + 1;
    }
  }

  lemma EvictKeeps(cap: nat, c: Cache)
    requires Bounded(cap, c) && |c.live| > 0
    ensures var c' := Evict(c); Bounded(cap, c') && |c'.live| == |c.live| - 1 && |c'.order| < |c.order|
  {
    hide Evict;
    var n := VictimExists(c);
    EvictTakesFirstLive(c, n);
    OneFewer(c.live, c.order[n]);
    forall k | k in c.live && k != c.order[n] ensures k in c.order[n + 1..] { TokenBehind(c, n, k); }
  }

  lemma OneFewer(live: map<FileObject, string>, k: FileObject)
    requires k in live
    ensures |live - {k}| == |live| - 1
  {
    assert (live - {k}).Keys == live.Keys - {k};
    assert |live - {k}| == |(live - {k}).Keys| && |live| == |live.Keys|;
  }

  /** Every other live key has its token behind the first live one. */
  lemma TokenBehind(c: Cache, n: nat, k: FileObject)
    requires Tokened(c) && FirstLive(c, n) && k in c.live && k != c.order[n]
    ensures k in c.order[n + 1..]
  {
    assert k in c.order;
    var i :| 0 <= i < |c.order| && c.order[i] == k;
    assert i > n;
    assert c.order[n + 1..][i - n - 1] == k;
  }

  // ----- compaction -----

  ghost predicate NoRepeats(s: seq<FileObject>) {
    forall i, j :: 0 <= i < j < |s| ==> s[i] != s[j]
  }

  ghost function LastIndex(order: seq<FileObject>, k: FileObject): nat
    requires k in order
    ensures LastIndex(order, k) < |order| && order[LastIndex(order, k)] == k
    ensures forall i :: LastIndex(order, k) < i < |order| ==> order[i] != k
    decreases |order|
  {
    if order[|order| - 1] == k then |order| - 1 else LastIndex(order[..|order| - 1], k)
  }

  lemma LastIndexTail(order: seq<FileObject>, k: FileObject)
    requires order != [] && k in order[1..]
    ensures LastIndex(order, k) == LastIndex(order[1..], k) + 1
  {
    assert order[1..][LastIndex(order[1..], k)] == order[LastIndex(order[1..], k) + 1];
    assert forall i :: 0 < i < |order| ==> order[i] == order[1..][i - 1];
  }

  lemma {:induction false} KeepLastMembers(order: seq<FileObject>, live: map<FileObject, string>)
    ensures forall k :: k in KeepLast(order, live) <==> k in order && k in live
    ensures NoRepeats(KeepLast(order, live))
  {
    if order != [] {
      KeepLastMembers(order[1..], live);
    }
  }

  /** Compaction lists each live key exactly once, in the order of their last tokens. */
  lemma {:induction false} KeepLastOrdered(order: seq<FileObject>, live: map<FileObject, string>)
    ensures var kept := KeepLast(order, live);
            && NoRepeats(kept) && (forall k :: k in kept <==> k in order && k in live)
            && forall i, j :: 0 <= i < j < |kept| ==> LastIndex(order, kept[i]) < LastIndex(order, kept[j])
  {
    hide LastIndex;
    KeepLastMembers(order, live);
    if order != [] {
      var kept, rest := KeepLast(order, live), KeepLast(order[1..], live);
      KeepLastOrdered(order[1..], live);
      KeepLastMembers(order[1..], live);
      if order[0] in live && order[0] !in order[1..] {
        assert kept == [order[0]] + rest;
        OrderedCons(order, rest);
      } else {
        OrderedTail(order, rest);
      }
    }
  }

  ghost predicate ByLastToken(order: seq<FileObject>, kept: seq<FileObject>) {
    && (forall i :: 0 <= i < |kept| ==> kept[i] in order)
    && forall i, j :: 0 <= i < j < |kept| ==> LastIndex(order, kept[i]) < LastIndex(order, kept[j])
  }

  lemma OrderedTail(order: seq<FileObject>, rest: seq<FileObject>)
    requires order != [] && ByLastToken(order[1..], rest)
    ensures ByLastToken(order, rest)
  {
    hide LastIndex;
    forall i | 0 <= i < |rest| ensures rest[i] in order && LastIndex(order, rest[i]) == LastIndex(order[1..], rest[i]) + 1 {
      LastIndexTail(order, rest[i]);
    }
  }

  lemma OrderedCons(order: seq<FileObject>, rest: seq<FileObject>)
    requires order != [] && order[0] !in order[1..] && ByLastToken(order[1..], rest)
    ensures ByLastToken(order, [order[0]] + rest)
  {
    hide LastIndex;
    OrderedTail(order, rest);
    LastIndexHead(order);
    var kept := [order[0]] + rest;
    forall i, j | 0 <= i < j < |kept| ensures LastIndex(order, kept[i]) < LastIndex(order, kept[j]) {
      assert kept[j] == rest[j - 1];
      if i > 0 { assert kept[i] == rest[i - 1]; } else { LastIndexTail(order, kept[j]); }
    }
  }

  lemma LastIndexHead(order: seq<FileObject>)
    requires order != [] && order[0] !in order[1..]
    ensures LastIndex(order, order[0]) == 0
  {
    assert forall m :: 0 < m < |order| ==> order[m] == order[1..][m - 1];
  }

  lemma {:induction false} DistinctSize(s: seq<FileObject>, keys: set<FileObject>)
    requires NoRepeats(s) && forall k :: k in s <==> k in keys
    ensures |s| == |keys|
    decreases |s|
  {
    if s == [] {
      assert keys == {};
    } else {
      forall k ensures k in s[1..] <==> k in keys - {s[0]} {
        if k in keys && k != s[0] {
          var i :| 0 <= i < |s| && s[i] == k;
          assert s[1..][i - 1] == k;
        }
      }
      DistinctSize(s[1..], keys - {s[0]});
    }
  }

  /** After compaction there are as many tokens as live keys. */
  lemma CompactedSize(order: seq<FileObject>, live: map<FileObject, string>)
    requires forall k :: k in live ==> k in order
    ensures |KeepLast(order, live)| == |live|
  {
    KeepLastMembers(order, live);
    DistinctSize(KeepLast(order, live), live.Keys);
    assert |live| == |live.Keys|;
  }

  lemma InsertKeeps(cap: nat, c: Cache, fo: FileObject, path: string)
    requires cap > 0 && Bounded(cap, c)
    ensures Bounded(cap, Insert(cap, c, fo, path))
  {
    var room := if fo !in c.live && |c.live| >= cap then Evict(c) else c;
    if fo !in c.live && |c.live| >= cap { EvictKeeps(cap, c); }
    var live := room.live[fo := path];
    var order := room.order + [fo];
    assert live.Keys == room.live.Keys + {fo} && |live| == |live.Keys| && |room.live| == |room.live.Keys|;
    if fo in room.live { assert live.Keys == room.live.Keys; }
    forall k | k in live ensures k in order { }
    CompactedSize(order, live);
    KeepLastMembers(order, live);
  }

  lemma RemoveKeeps(cap: nat, c: Cache, fo: FileObject)
    requires Bounded(cap, c)
    ensures Bounded(cap, Remove(c, fo))
  {
    assert (c.live - {fo}).Keys == c.live.Keys - {fo};
    assert |c.live - {fo}| == |(c.live - {fo}).Keys| && |c.live| == |c.live.Keys|;
  }

  // ----- histories -----

  datatype Op = Create(fo: FileObject, path: string) | Close(fo: FileObject)

  function Apply(cap: nat, c: Cache, op: Op): Cache {
    match op
    case Create(fo, path) => Insert(cap, c, fo, path)
    case Close(fo) => Remove(c, fo)
  }

  function After(cap: nat, ops: seq<Op>): Cache
    decreases |ops|
  {
    if ops == [] then EmptyCache else Apply(cap, After(cap, ops[..|ops| - 1]), ops[|ops| - 1])
  }

  /** Over any history the map stays within its cap, the deque within twice that cap, and
      every live key keeps a token. */
  lemma {:induction false} AlwaysBounded(cap: nat, ops: seq<Op>)
    requires cap > 0
    ensures Bounded(cap, After(cap, ops))
    decreases |ops|
  {
    if ops != [] {
      var c := After(cap, ops[..|ops| - 1]);
      AlwaysBounded(cap, ops[..|ops| - 1]);
      match ops[|ops| - 1] {
        case Create(fo, path) => InsertKeeps(cap, c, fo, path);
        case Close(fo) => RemoveKeeps(cap, c, fo);
      }
    }
  }

  /** The path of the latest Create of `fo` with no Close after it. */
  ghost function Latest(ops: seq<Op>, fo: FileObject): Option<string>
    decreases |ops|
  {
    if ops == [] then None
    else
      var op := ops[|ops| - 1];
      if op.fo != fo then Latest(ops[..|ops| - 1], fo)
      else if op.Create? then Some(op.path) else None
  }

  lemma {:induction false} EvictOnlyDrops(c: Cache, k: FileObject)
    requires k in Evict(c).live
    ensures k in c.live && Evict(c).live[k] == c.live[k]
    decreases |c.order|
  {
    if c.order != [] && c.order[0] !in c.live { EvictOnlyDrops(Cache(c.live, c.order[1..]), k); }
  }

  /** A hit is never stale: it returns the path of the key's latest Create, not closed since. */
  lemma {:induction false} HitIsLatest(cap: nat, ops: seq<Op>, fo: FileObject)
    requires Get(After(cap, ops), fo).Some?
    ensures Get(After(cap, ops), fo) == Latest(ops, fo)
    decreases |ops|
  {
    if ops != [] {
      var c := After(cap, ops[..|ops| - 1]);
      var op := ops[|ops| - 1];
      if op.fo != fo {
        if op.Create? && op.fo !in c.live && |c.live| >= cap { EvictOnlyDrops(c, fo); }
        HitIsLatest(cap, ops[..|ops| - 1], fo);
      }
    }
  }

  // ----- first in, first out, when no key is inserted twice -----

  ghost function Created(ops: seq<Op>): seq<FileObject>
    decreases |ops|
  {
    if ops == [] then []
    else
      var op := ops[|ops| - 1];
      Created(ops[..|ops| - 1]) + if op.Create? then [op.fo] else []
  }

  ghost function OnlyLive(s: seq<FileObject>, live: map<FileObject, string>): seq<FileObject> {
    if s == [] then []
    else (if s[0] in live then [s[0]] else []) + OnlyLive(s[1..], live)
  }

  lemma {:induction false} OnlyLiveConcat(a: seq<FileObject>, b: seq<FileObject>, live: map<FileObject, string>)
    ensures OnlyLive(a + b, live) == OnlyLive(a, live) + OnlyLive(b, live)
  {
    if a == [] {
      assert a + b == b;
    } else {
      assert (a + b)[1..] == a[1..] + b;
      OnlyLiveConcat(a[1..], b, live);
    }
  }

  lemma {:induction false} OnlyLiveShrinks(a: seq<FileObject>, b: seq<FileObject>, live: map<FileObject, string>, fewer: map<FileObject, string>)
    requires fewer.Keys <= live.Keys && OnlyLive(a, live) == OnlyLive(b, live)
    ensures OnlyLive(a, fewer) == OnlyLive(b, fewer)
  {
    OnlyLiveTwice(a, live, fewer);
    OnlyLiveTwice(b, live, fewer);
  }

  lemma {:induction false} OnlyLiveTwice(a: seq<FileObject>, live: map<FileObject, string>, fewer: map<FileObject, string>)
    requires fewer.Keys <= live.Keys
    ensures OnlyLive(OnlyLive(a, live), fewer) == OnlyLive(a, fewer)
  {
    if a != [] {
      OnlyLiveTwice(a[1..], live, fewer);
      OnlyLiveConcat(if a[0] in live then [a[0]] else [], OnlyLive(a[1..], live), fewer);
    }
  }

  lemma {:induction false} OnlyLiveSameKeys(s: seq<FileObject>, a: map<FileObject, string>, b: map<FileObject, string>)
    requires forall k :: k in s ==> (k in a <==> k in b)
    ensures OnlyLive(s, a) == OnlyLive(s, b)
  {
    if s != [] { OnlyLiveSameKeys(s[1..], a, b); }
  }

  lemma {:induction false} OnlyLiveEvict(c: Cache)
    ensures OnlyLive(Evict(c).order, Evict(c).live) == OnlyLive(c.order, Evict(c).live)
    ensures Evict(c).live.Keys <= c.live.Keys
    ensures forall k :: k in Evict(c).order ==> k in c.order
    ensures NoRepeats(c.order) ==> NoRepeats(Evict(c).order)
    decreases |c.order|
  {
    if c.order != [] && c.order[0] !in c.live { OnlyLiveEvict(Cache(c.live, c.order[1..])); }
  }

  lemma {:induction false} OnlyLiveCompact(order: seq<FileObject>, live: map<FileObject, string>)
    requires NoRepeats(order)
    ensures KeepLast(order, live) == OnlyLive(order, live)
  {
    if order != [] { OnlyLiveCompact(order[1..], live); }
  }

  lemma {:induction false} OnlyLiveStable(s: seq<FileObject>, live: map<FileObject, string>)
    ensures OnlyLive(OnlyLive(s, live), live) == OnlyLive(s, live)
  {
    OnlyLiveTwice(s, live, live);
  }

  lemma {:induction false} CreatedMembers(ops: seq<Op>, cap: nat)
    ensures forall k :: k in After(cap, ops).order ==> k in Created(ops)
    ensures forall k :: k in After(cap, ops).live ==> k in Created(ops)
    decreases |ops|
  {
    if ops != [] {
      var c := After(cap, ops[..|ops| - 1]);
      CreatedMembers(ops[..|ops| - 1], cap);
      var op := ops[|ops| - 1];
      if op.Create? {
        var room := if op.fo !in c.live && |c.live| >= cap then Evict(c) else c;
        OnlyLiveEvict(c);
        KeepLastMembers(room.order + [op.fo], room.live[op.fo := op.path]);
      }
    }
  }

  /** In a history that never creates a key twice, the live tokens stand in creation order. */
  lemma {:induction false} TokensInCreationOrder(cap: nat, ops: seq<Op>)
    requires NoRepeats(Created(ops))
    ensures var c := After(cap, ops);
            NoRepeats(c.order) && OnlyLive(c.order, c.live) == OnlyLive(Created(ops), c.live)
    decreases |ops|
  {
    if ops != [] {
      var before := ops[..|ops| - 1];
      var c, op := After(cap, before), ops[|ops| - 1];
      assert Created(before) == Created(ops)[..|Created(before)|];
      TokensInCreationOrder(cap, before);
      CreatedMembers(before, cap);
      if op.Create? {
        InsertInOrder(cap, c, op.fo, op.path, Created(before));
      } else {
        assert Created(ops) == Created(before);
        OnlyLiveShrinks(c.order, Created(before), c.live, c.live - {op.fo});
      }
    }
  }

  lemma InsertInOrder(cap: nat, c: Cache, fo: FileObject, path: string, created: seq<FileObject>)
    requires NoRepeats(c.order) && OnlyLive(c.order, c.live) == OnlyLive(created, c.live)
    requires (forall k :: k in c.order ==> k in created) && (forall k :: k in c.live ==> k in created)
    requires NoRepeats(created + [fo])
    ensures var c' := Insert(cap, c, fo, path);
            NoRepeats(c'.order) && OnlyLive(c'.order, c'.live) == OnlyLive(created + [fo], c'.live)
  {
    var room := if fo !in c.live && |c.live| >= cap then Evict(c) else c;
    OnlyLiveEvict(c);
    OnlyLiveShrinks(c.order, created, c.live, room.live);
    NewKey(created, fo);
    PushInOrder(room, fo, path, created);
    var live := room.live[fo := path];
    OnlyLiveCompact(room.order + [fo], live);
    OnlyLiveStable(room.order + [fo], live);
    KeepLastMembers(room.order + [fo], live);
  }

  lemma NewKey(created: seq<FileObject>, fo: FileObject)
    requires NoRepeats(created + [fo])
    ensures fo !in created
  {
    var grown := created + [fo];
    assert grown[|created|] == fo && forall i :: 0 <= i < |created| ==> grown[i] == created[i];
  }

  lemma PushInOrder(c: Cache, fo: FileObject, path: string, created: seq<FileObject>)
    requires NoRepeats(c.order) && OnlyLive(c.order, c.live) == OnlyLive(created, c.live)
    requires (forall k :: k in c.order ==> k in created) && fo !in created
    ensures var live := c.live[fo := path];
            NoRepeats(c.order + [fo]) && OnlyLive(c.order + [fo], live) == OnlyLive(created + [fo], live)
  {
    var live := c.live[fo := path];
    OnlyLiveSameKeys(c.order, c.live, live);
    OnlyLiveSameKeys(created, c.live, live);
    OnlyLiveConcat(c.order, [fo], live);
    OnlyLiveConcat(created, [fo], live);
  }

  lemma {:induction false} OnlyLiveHead(s: seq<FileObject>, live: map<FileObject, string>, n: nat)
    requires n < |s| && s[n] in live && forall i :: 0 <= i < n ==> s[i] !in live
    ensures OnlyLive(s, live) != [] && OnlyLive(s, live)[0] == s[n]
  {
    if n > 0 { OnlyLiveHead(s[1..], live, n - 1); }
  }

  /** So when no key is created twice, the victim is the live key created longest ago,
      however many compactions happened in between. */
  lemma VictimIsOldest(cap: nat, ops: seq<Op>, n: nat, oldest: nat)
    requires NoRepeats(Created(ops)) && FirstLive(After(cap, ops), n)
    requires var created := Created(ops);
             oldest < |created| && created[oldest] in After(cap, ops).live
             && forall i :: 0 <= i < oldest ==> created[i] !in After(cap, ops).live
    ensures Evict(After(cap, ops)).live == After(cap, ops).live - {Created(ops)[oldest]}
  {
    var c := After(cap, ops);
    TokensInCreationOrder(cap, ops);
    OnlyLiveHead(c.order, c.live, n);
    OnlyLiveHead(Created(ops), c.live, oldest);
    EvictTakesFirstLive(c, n);
  }

  // ----- what a lookup finds -----

  /** `k` is the live key at the first live token. */
  ghost predicate NextVictim(c: Cache, k: FileObject) {
    exists n: nat :: FirstLive(c, n) && c.order[n] == k
  }

  /** A key just inserted is found, live before or not. */
  lemma InsertFound(cap: nat, c: Cache, fo: FileObject, path: string)
    ensures Get(Insert(cap, c, fo, path), fo) == Some(path)
  {
  }

  lemma {:induction false} EvictLookup(c: Cache, k: FileObject)
    ensures Get(Evict(c), k) == if NextVictim(c, k) then None else Get(c, k)
    decreases |c.order|
  {
    if n: nat :| FirstLive(c, n) {
      EvictTakesFirstLive(c, n);
      if m: nat :| FirstLive(c, m) && c.order[m] == k { assert m == n; }
    } else {
      NothingToEvict(c);
    }
  }

  lemma {:induction false} NothingToEvict(c: Cache)
    requires forall n: nat :: !FirstLive(c, n)
    ensures Evict(c).live == c.live
    decreases |c.order|
  {
    if c.order != [] {
      var rest := Cache(c.live, c.order[1..]);
      if c.order[0] in c.live { assert FirstLive(c, 0); }
      forall n: nat ensures !FirstLive(rest, n) {
        if FirstLive(rest, n) {
          assert rest.order[n] == c.order[n + 1];
          assert forall i :: 0 < i <= n ==> c.order[i] == rest.order[i - 1];
          assert FirstLive(c, n + 1);
        }
      }
      NothingToEvict(rest);
    }
  }

  /** Any other key is found as before, unless a new key came to a full map and this one was next. */
  lemma InsertOthers(cap: nat, c: Cache, fo: FileObject, path: string, k: FileObject)
    requires k != fo
    ensures Get(Insert(cap, c, fo, path), k) ==
            if fo !in c.live && |c.live| >= cap && NextVictim(c, k) then None else Get(c, k)
  {
    hide Evict, NextVictim;
    EvictLookup(c, k);
  }

  /** The `i`-th operation brought a new key into a full map when `fo` was next to go. */
  ghost predicate EvictedAt(cap: nat, ops: seq<Op>, i: nat, fo: FileObject) {
    && i < |ops| && ops[i].Create? && ops[i].fo != fo
    && var c := After(cap, ops[..i]);
       ops[i].fo !in c.live && |c.live| >= cap && NextVictim(c, fo)
  }

  /** It was evicted and not created again since. */
  ghost predicate Lost(cap: nat, ops: seq<Op>, fo: FileObject) {
    exists i: nat :: EvictedAt(cap, ops, i, fo) && forall j :: i < j < |ops| ==> !(ops[j].Create? && ops[j].fo == fo)
  }

  lemma LostStep(cap: nat, ops: seq<Op>, fo: FileObject)
    requires ops != []
    ensures var before, op := ops[..|ops| - 1], ops[|ops| - 1];
            Lost(cap, ops, fo) <==> !(op.Create? && op.fo == fo)
                                    && (Lost(cap, before, fo) || EvictedAt(cap, ops, |ops| - 1, fo))
  {
    hide After, NextVictim;
    var before, last := ops[..|ops| - 1], |ops| - 1;
    if i: nat :| EvictedAt(cap, ops, i, fo) && forall j :: i < j < |ops| ==> !(ops[j].Create? && ops[j].fo == fo) {
      if i < last {
        assert before[..i] == ops[..i] && before[i] == ops[i];
        assert EvictedAt(cap, before, i, fo);
      }
    }
    if i: nat :| EvictedAt(cap, before, i, fo) && forall j :: i < j < |before| ==> !(before[j].Create? && before[j].fo == fo) {
      assert before[..i] == ops[..i] && before[i] == ops[i];
      assert EvictedAt(cap, ops, i, fo);
      assert forall j :: i < j < |before| ==> ops[j] == before[j];
    }
  }

  /**
   Over any history a lookup answers the path of the key's latest Create with no Close after
   it, exactly unless the key was evicted and not created again since.
   */
  lemma {:induction false} LookupExactly(cap: nat, ops: seq<Op>, fo: FileObject)
    ensures Get(After(cap, ops), fo) == if Lost(cap, ops, fo) then None else Latest(ops, fo)
    decreases |ops|
  {
    hide Insert, NextVictim, Lost;
    if ops == [] {
      NothingLost(cap, fo);
    } else {
      var before, op := ops[..|ops| - 1], ops[|ops| - 1];
      var c := After(cap, before);
      LookupExactly(cap, before, fo);
      LostStep(cap, ops, fo);
      if op.Create? {
        if op.fo == fo { InsertFound(cap, c, fo, op.path); } else { InsertOthers(cap, c, op.fo, op.path, fo); }
      }
    }
  }

  lemma NothingLost(cap: nat, fo: FileObject)
    ensures !Lost(cap, [], fo)
  {
  }

  // ----- an older token of a live key is not skipped -----

  /**
   Skipping every token but a key's last would evict the live key whose last token is
   foremost. The loop does that exactly when the key at the first live token has no later
   token behind the last token of another live key.
   */
  lemma EvictsByLastTokenExactly(c: Cache, n: nat)
    requires Tokened(c) && FirstLive(c, n)
    ensures KeepLast(c.order, c.live) != []
    ensures Evict(c).live == c.live - {KeepLast(c.order, c.live)[0]} <==>
            forall k :: k in c.live && k != c.order[n] ==> LastIndex(c.order, c.order[n]) < LastIndex(c.order, k)
  {
    var kept, victim := KeepLast(c.order, c.live), c.order[n];
    KeepLastOrdered(c.order, c.live);
    EvictTakesFirstLive(c, n);
    assert victim in kept;
    var v :| 0 <= v < |kept| && kept[v] == victim;
    assert kept[0] in kept;
    if v == 0 {
      forall k | k in c.live && k != victim ensures LastIndex(c.order, victim) < LastIndex(c.order, k) {
        assert k in c.order;
        assert k in kept;
        var i :| 0 <= i < |kept| && kept[i] == k;
        assert LastIndex(c.order, kept[0]) < LastIndex(c.order, kept[i]);
      }
    } else {
      assert LastIndex(c.order, kept[0]) < LastIndex(c.order, kept[v]);
      assert kept[0] in c.live && kept[0] != victim;
      assert victim in c.live - {kept[0]} && victim !in Evict(c).live;
    }
  }

  /** The same over whole histories, where every live key has a token. */
  lemma HistoryEvictsByLastToken(cap: nat, ops: seq<Op>, n: nat)
    requires cap > 0 && FirstLive(After(cap, ops), n)
    ensures var c := After(cap, ops);
            && Tokened(c) && KeepLast(c.order, c.live) != []
            && (Evict(c).live == c.live - {KeepLast(c.order, c.live)[0]} <==>
                forall k :: k in c.live && k != c.order[n] ==> LastIndex(c.order, c.order[n]) < LastIndex(c.order, k))
  {
    AlwaysBounded(cap, ops);
    EvictsByLastTokenExactly(After(cap, ops), n);
  }

  function Fill(n: nat, path: string): seq<Op> {
    if n == 0 then [] else Fill(n - 1, path) + [Create(n - 1, path)]
  }

  /** `cap` files are created, the first one is created again, then one more file. */
  function RefreshHistory(cap: nat, path: string): seq<Op> {
    Fill(cap, path) + [Create(0, path)] + [Create(cap, path)]
  }

  /** Exactly the keys below `n` are live, with one token each, in order. */
  ghost predicate Filled(c: Cache, n: nat) {
    && (forall k: nat :: k in c.live <==> k < n) && |c.live| == n
    && |c.order| == n && (forall i :: 0 <= i < n ==> c.order[i] == i)
  }

  lemma FilledGrows(c: Cache, n: nat, path: string)
    requires Filled(c, n)
    ensures Filled(Cache(c.live[n := path], c.order + [n]), n + 1)
  {
    var live := c.live[n := path];
    assert live.Keys == c.live.Keys + {n};
    assert |live| == |live.Keys| && |c.live| == |c.live.Keys|;
  }

  lemma EmptyFilled(cap: nat, path: string)
    ensures Filled(After(cap, Fill(0, path)), 0)
  {
  }

  lemma FillStep(cap: nat, c: Cache, n: nat, path: string)
    requires Filled(c, n) && n < cap
    ensures Filled(Insert(cap, c, n, path), n + 1)
  {
    FilledGrows(c, n, path);
  }

  lemma {:induction false} AfterFill(cap: nat, path: string, n: nat)
    requires n <= cap
    ensures Filled(After(cap, Fill(n, path)), n)
  {
    hide Filled, Insert;
    if n == 0 {
      EmptyFilled(cap, path);
    } else {
      AfterFill(cap, path, n - 1);
      var before := Fill(n - 1, path);
      assert Fill(n, path)[..|before|] == before;
      FillStep(cap, After(cap, before), n - 1, path);
    }
  }

  /** Creating a key again does not make its older token stale: for every cap of at least
      two, the key refreshed last is the next victim while a key never refreshed stays. */
  lemma RefreshDoesNotProtect(cap: nat, path: string)
    requires cap >= 2
    ensures var c := After(cap, RefreshHistory(cap, path)); 0 !in c.live && 1 in c.live
    ensures Latest(RefreshHistory(cap, path), 0) == Some(path)
  {
    var fill := Fill(cap, path);
    var refreshed := fill + [Create(0, path)];
    var ops := refreshed + [Create(cap, path)];
    AfterFill(cap, path, cap);
    assert refreshed[..|fill|] == fill && ops[..|refreshed|] == refreshed;
    var full, c := After(cap, fill), After(cap, refreshed);
    assert c.live.Keys == full.live.Keys && |c.live| == |c.live.Keys| && |full.live| == |full.live.Keys|;
    assert c.order == full.order + [0];
    assert FirstLive(c, 0);
    EvictTakesFirstLive(c, 0);
    assert |c.order[1..] + [cap]| <= 2 * cap;
    assert Latest(ops, 0) == Latest(refreshed, 0);
  }

  /** `cap` files are created, the first one is closed and created again, then one more file. */
  function ReopenHistory(cap: nat, path: string): seq<Op> {
    Fill(cap, path) + [Close(0)] + [Create(0, path)] + [Create(cap, path)]
  }

  lemma AfterReopen(cap: nat, path: string)
    requires cap >= 2
    ensures var c := After(cap, Fill(cap, path) + [Close(0)] + [Create(0, path)]);
            && (forall k: nat :: k in c.live <==> k < cap) && |c.live| == cap
            && |c.order| == cap + 1 && c.order[0] == 0 && 0 in c.live
  {
    var fill := Fill(cap, path);
    var closed := fill + [Close(0)];
    var again := closed + [Create(0, path)];
    AfterFill(cap, path, cap);
    assert closed[..|fill|] == fill && again[..|closed|] == closed;
    var full, gone := After(cap, fill), After(cap, closed);
    assert gone.live.Keys == full.live.Keys - {0} && gone.order == full.order;
    assert |full.live| == |full.live.Keys| && |gone.live| == |gone.live.Keys|;
    var c := After(cap, again);
    assert c == Cache(gone.live[0 := path], gone.order + [0]);
    assert c.live.Keys == full.live.Keys && |c.live| == |c.live.Keys|;
  }

  /** Nor does a closed key's old token stay stale once the key is created again: for every
      cap of at least two, the key just reopened is the next victim, and an older key stays. */
  lemma ReopenDoesNotProtect(cap: nat, path: string)
    requires cap >= 2
    ensures var c := After(cap, ReopenHistory(cap, path)); 0 !in c.live && 1 in c.live
    ensures Latest(ReopenHistory(cap, path), 0) == Some(path)
  {
    var again := Fill(cap, path) + [Close(0)] + [Create(0, path)];
    var ops := again + [Create(cap, path)];
    assert ops[..|again|] == again;
    AfterReopen(cap, path);
    var c := After(cap, again);
    assert FirstLive(c, 0);
    EvictTakesFirstLive(c, 0);
    assert |c.order[1..] + [cap]| <= 2 * cap;
    assert Latest(ops, 0) == Latest(again, 0);
  }
}
