/** The depth- and count-bounded walk for model files, over a finite directory tree. */
module ModelWalk {
  import opened Basics
  import opened Sorting

  const MaxDepth: nat := 6
  const MaxFiles: nat := 512

  datatype AiModel = AiModel(path: string, format: string, risky: bool, size: nat, mtime: nat, fingerprint: string)

  /** An entry as the directory lists it. `Sealed` is a directory that cannot be listed; a
      file that is not a recognized, readable model carries no model; `Skipped` is a
      symbolic link or an entry whose type cannot be read. */
  datatype Node = Dir(entries: seq<Node>) | Sealed | File(model: Option<AiModel>) | Skipped

  // ----- the unbounded listing -----

  /** All model files under a directory, in listing order, down to the depth limit. */
  function AllUnder(n: Node, depth: nat): seq<AiModel>
    decreases n, 1
  {
    match n
    case Dir(entries) => if depth > MaxDepth then [] else AllIn(entries, depth)
    case _ => []
  }

  function AllIn(entries: seq<Node>, depth: nat): seq<AiModel>
    decreases entries, 0
  {
    if entries == [] then [] else AllOf(entries[0], depth) + AllIn(entries[1..], depth)
  }

  function AllOf(n: Node, depth: nat): seq<AiModel>
    decreases n, 2
  {
    match n
    case Dir(_) => AllUnder(n, depth + 1)
    case Sealed => AllUnder(n, depth + 1)
    case File(Some(m)) => [m]
    case _ => []
  }

  function Take(s: seq<AiModel>, n: nat): seq<AiModel> { if n < |s| then s[..n] else s }

  lemma TakeConcat(a: seq<AiModel>, b: seq<AiModel>, n: nat)
    ensures Take(a + b, n) == Take(a, n) + Take(b, n - |Take(a, n)|)
    ensures |Take(a, n)| <= n
  {
  }

  // ----- the walk -----

  /** Collects under `dir`, never more than `remaining` files. */
  method Walk(dir: Node, depth: nat, remaining: nat, out: seq<AiModel>) returns (left: nat, found: seq<AiModel>)
    ensures found == out + Take(AllUnder(dir, depth), remaining)
    ensures left + |found| == remaining + |out|
    decreases dir, 0
  {
    left, found := remaining, out;
    if depth > MaxDepth || remaining == 0 || !dir.Dir? {
      assert Take(AllUnder(dir, depth), remaining) == [];
      return;
    }
    var entries := dir.entries;
    ghost var result := out + Take(AllIn(entries, depth), remaining);
    assert entries[0..] == entries;
    for i := 0 to |entries|
      invariant result == found + Take(AllIn(entries[i..], depth), left)
      invariant left + |found| == remaining + |out|
    {
      if left == 0 {
        return;
      }
      ghost var here, rest := AllOf(entries[i], depth), AllIn(entries[i + 1..], depth);
      assert entries[i..][0] == entries[i] && entries[i..][1..] == entries[i + 1..];
      TakeConcat(here, rest, left);
      hide AllOf, AllIn, Take;
      assert found + (Take(here, left) + Take(rest, left - |Take(here, left)|)) ==
             (found + Take(here, left)) + Take(rest, left - |Take(here, left)|);
      left, found := WalkEntry(entries[i], depth, left, found);
    }
  }

  method WalkEntry(n: Node, depth: nat, remaining: nat, out: seq<AiModel>) returns (left: nat, found: seq<AiModel>)
    requires remaining > 0
    ensures found == out + Take(AllOf(n, depth), remaining)
    ensures left + |found| == remaining + |out|
    decreases n, 1
  {
    left, found := remaining, out;
    match n {
      case Dir(_) => left, found := Walk(n, depth + 1, remaining, out);
      case Sealed => left, found := Walk(n, depth + 1, remaining, out);
      case File(Some(m)) => left, found := remaining - 1, out + [m];
      case _ =>
    }
  }

  predicate ByPath(a: AiModel, b: AiModel) { StrLe(a.path, b.path) }

  /** All model files of all directories, one directory after the other. */
  function AllDirs(dirs: seq<Node>): seq<AiModel> {
    if dirs == [] then [] else AllUnder(dirs[0], 0) + AllDirs(dirs[1..])
  }

  /**
   The inventory is the first 512 model files of the full traversal of all directories in
   turn, sorted by path.
   */
  method Models(dirs: seq<Node>) returns (out: seq<AiModel>)
    ensures out == SortBy(ByPath, Take(AllDirs(dirs), 512))
  {
    out := [];
    var remaining: nat := MaxFiles;
    ghost var result := Take(AllDirs(dirs), MaxFiles);
    assert dirs[0..] == dirs && [] + result == result;
    for i := 0 to |dirs|
      invariant result == out + Take(AllDirs(dirs[i..]), remaining)
      invariant remaining + |out| == MaxFiles
    {
      if remaining == 0 {
        break;
      }
      ghost var here, rest := AllUnder(dirs[i], 0), AllDirs(dirs[i + 1..]);
      assert dirs[i..][1..] == dirs[i + 1..];
      TakeConcat(here, rest, remaining);
      hide AllUnder, AllDirs, Take;
      assert out + (Take(here, remaining) + Take(rest, remaining - |Take(here, remaining)|)) ==
             (out + Take(here, remaining)) + Take(rest, remaining - |Take(here, remaining)|);
      remaining, out := Walk(dirs[i], 0, remaining, out);
    }
    assert out == result;
    out := SortBy(ByPath, out);
  }

  lemma ByPathOrder()
    ensures TotalOrder(ByPath)
  {
    StrOrder();
    forall a, b ensures ByPath(a, b) || ByPath(b, a) { StrLeTotal(a.path, b.path); }
    forall a, b, c | ByPath(a, b) && ByPath(b, c) ensures ByPath(a, c) { StrLeTrans(a.path, b.path, c.path); }
  }

  /** What the inventory is: at most 512 files, in path order, exactly those a full listing starts with. */
  lemma InventoryIsSortedPrefix(dirs: seq<Node>)
    ensures var r := SortBy(ByPath, Take(AllDirs(dirs), 512));
            && SortedBy(ByPath, r) && |r| <= 512
            && multiset(r) == multiset(Take(AllDirs(dirs), 512))
            && (|AllDirs(dirs)| <= 512 ==> multiset(r) == multiset(AllDirs(dirs)))
  {
    ByPathOrder();
    SortSorts(ByPath, Take(AllDirs(dirs), 512));
    SortPermutes(ByPath, Take(AllDirs(dirs), 512));
  }

  // ----- what the full traversal contains -----

  /** Following the listing positions `path` through directories one ends at `m`. */
  ghost predicate At(n: Node, path: seq<nat>, m: AiModel)
    decreases |path|
  {
    if path == [] then n == File(Some(m))
    else n.Dir? && path[0] < |n.entries| && At(n.entries[path[0]], path[1..], m)
  }

  /** A model lies under a directory within the depth limit: through no more than the
      directories numbered from `depth` to 6. */
  ghost predicate Within(n: Node, depth: nat, m: AiModel) {
    exists path :: path != [] && |path| + depth <= 7 && At(n, path, m)
  }

  lemma {:induction false} AllInMembers(entries: seq<Node>, depth: nat, m: AiModel)
    ensures m in AllIn(entries, depth) <==> exists i :: 0 <= i < |entries| && m in AllOf(entries[i], depth)
    decreases |entries|
  {
    if entries != [] {
      AllInMembers(entries[1..], depth, m);
      if i :| 0 <= i < |entries| && m in AllOf(entries[i], depth) {
        if i > 0 { assert entries[1..][i - 1] == entries[i]; }
      }
      if i :| 0 <= i < |entries[1..]| && m in AllOf(entries[1..][i], depth) { assert m in AllOf(entries[i + 1], depth); }
    }
  }

  /** The traversal finds exactly the model files within the depth limit, through directories
      alone: nothing behind a link, a sealed directory or a seventh level. */
  lemma {:induction false} TraversalExactly(n: Node, depth: nat, m: AiModel)
    ensures m in AllUnder(n, depth) <==> Within(n, depth, m)
    decreases n, 0
  {
    if n.Dir? {
      AllInMembers(n.entries, depth, m);
      if m in AllUnder(n, depth) {
        var i :| 0 <= i < |n.entries| && m in AllOf(n.entries[i], depth);
        EntryExactly(n.entries[i], depth, m);
        var path :| |path| + depth <= 6 && At(n.entries[i], path, m);
        assert ([i as nat] + path)[1..] == path;
        assert At(n, [i as nat] + path, m);
      }
      if path :| path != [] && |path| + depth <= 7 && At(n, path, m) {
        var i := path[0];
        assert At(n.entries[i], path[1..], m);
        EntryExactly(n.entries[i], depth, m);
      }
    }
  }

  lemma {:induction false} EntryExactly(n: Node, depth: nat, m: AiModel)
    requires depth <= MaxDepth
    ensures m in AllOf(n, depth) <==> exists path :: |path| + depth <= 6 && At(n, path, m)
    decreases n, 1
  {
    var none: seq<nat> := [];
    if n.Dir? {
      TraversalExactly(n, depth + 1, m);
      if m in AllOf(n, depth) {
        var path :| path != [] && |path| + (depth + 1) <= 7 && At(n, path, m);
      }
      if path :| |path| + depth <= 6 && At(n, path, m) {
        assert path != [];
        assert Within(n, depth + 1, m);
      }
    } else {
      if path :| |path| + depth <= 6 && At(n, path, m) { assert path == none; }
      if m in AllOf(n, depth) { assert At(n, none, m); }
    }
  }

  /** Listing all directories, each from depth 0, finds what lies within the limit of one of them. */
  lemma {:induction false} ListingExactly(dirs: seq<Node>, m: AiModel)
    ensures m in AllDirs(dirs) <==> exists i :: 0 <= i < |dirs| && Within(dirs[i], 0, m)
  {
    if dirs != [] {
      TraversalExactly(dirs[0], 0, m);
      ListingExactly(dirs[1..], m);
      hide AllUnder, Within;
      if i :| 0 < i < |dirs| && Within(dirs[i], 0, m) { assert dirs[1..][i - 1] == dirs[i]; }
      if i :| 0 <= i < |dirs[1..]| && Within(dirs[1..][i], 0, m) { assert dirs[1..][i] == dirs[i + 1]; }
    }
  }
}
