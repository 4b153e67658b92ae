/**
 * The category helpers of the API client:
 * - building a tree out of a flat list in which each category names its parent by code;
 * - writing each category's breadcrumb path;
 * - filing every category of a tree under its code.
 */
module Categories {
  import opened Wrappers
  import opened Text
  import opened ApiModels

  // ---------------------------------------------------------------------------
  // Building a tree from a flat list
  //
  // A category of the flat list is an object: the loop resets and appends to the
  // `Children` lists of those objects. Each object is stood for by its position in the
  // list, and each `Children` list by a sequence of positions.

  /** The key `ToDictionary` files a category under: its code, or "" for a null code. */
  function Key(c: Category): string {
    c.code.GetOr("")
  }

  predicate DistinctKeys(flat: seq<Category>) {
    forall i, j | 0 <= i < j < |flat| :: Key(flat[i]) != Key(flat[j])
  }

  /**
   * `flatList.ToDictionary(c => c.CategoryCode ?? "")`, mapping each key to the position
   * of its category. None where a repeated key makes it throw.
   */
  function CodeIndex(flat: seq<Category>): (r: Option<map<string, nat>>)
    ensures r.Some? ==> forall k | k in r.value :: r.value[k] < |flat| && Key(flat[r.value[k]]) == k
    ensures r.Some? ==> forall i | 0 <= i < |flat| :: Key(flat[i]) in r.value
    ensures r.Some? <==> DistinctKeys(flat)
    decreases |flat|
  {
    if flat == [] then Some(map[])
    else
      var last := |flat| - 1;
      match CodeIndex(flat[..last])
      case None =>
        DistinctFront(flat);
        None
      case Some(m) =>
        IndexStep(flat, m);
        if Key(flat[last]) in m then None else Some(m[Key(flat[last]) := last])
  }

  /** A repeated key in a prefix is a repeated key of the list. */
  lemma DistinctFront(flat: seq<Category>)
    requires flat != []
    ensures DistinctKeys(flat) ==> DistinctKeys(flat[..|flat| - 1])
  {
    var front := flat[..|flat| - 1];
    assert forall i | 0 <= i < |front| :: front[i] == flat[i];
  }

  /** Filing the last category into the index of the others, or finding its key taken. */
  lemma IndexStep(flat: seq<Category>, m: map<string, nat>)
    requires flat != [] && DistinctKeys(flat[..|flat| - 1])
    requires forall k | k in m :: m[k] < |flat| - 1 && Key(flat[m[k]]) == k
    requires forall i | 0 <= i < |flat| - 1 :: Key(flat[i]) in m
    ensures Key(flat[|flat| - 1]) in m <==> !DistinctKeys(flat)
    ensures var next := m[Key(flat[|flat| - 1]) := |flat| - 1];
      (forall k | k in next :: next[k] < |flat| && Key(flat[next[k]]) == k)
      && forall i | 0 <= i < |flat| :: Key(flat[i]) in next
  {
    var last := |flat| - 1;
    var front := flat[..last];
    if Key(flat[last]) in m {
      assert Key(flat[m[Key(flat[last])]]) == Key(flat[last]);
    } else {
      forall i, j | 0 <= i < j < |flat| ensures Key(flat[i]) != Key(flat[j]) {
        if j == last {
          assert Key(flat[i]) in m;
        } else {
          assert front[i] == flat[i] && front[j] == flat[j];
        }
      }
    }
  }

  /**
   * Where the loop attaches the category at position k: the position of the category
   * its parent code names, or None when it becomes a root.
   */
  function ParentOf(flat: seq<Category>, k: nat): (r: Option<nat>)
    requires DistinctKeys(flat) && k < |flat|
    ensures r.Some? ==> r.value < |flat| && flat[k].parentCode.Some? && Key(flat[r.value]) == flat[k].parentCode.value
    ensures r.None? <==>
      IsNullOrEmpty(flat[k].parentCode) || forall p | 0 <= p < |flat| :: Key(flat[p]) != flat[k].parentCode.value
  {
    var index := CodeIndex(flat).value;
    var pc := flat[k].parentCode;
    if IsNullOrEmpty(pc) then None
    else if pc.value in index then Some(index[pc.value])
    else None
  }

  /** Where the loop attaches each category, position by position. */
  function Parents(flat: seq<Category>): (r: seq<Option<nat>>)
    requires DistinctKeys(flat)
    ensures |r| == |flat| && forall k | 0 <= k < |flat| :: r[k] == ParentOf(flat, k)
  {
    seq(|flat|, k requires 0 <= k < |flat| => ParentOf(flat, k))
  }

  /** The positions in [lo, hi) whose entry of ps is x, in order. */
  function Matching(ps: seq<Option<nat>>, x: Option<nat>, lo: nat, hi: nat): (r: seq<nat>)
    requires lo <= hi <= |ps|
    ensures forall j | 0 <= j < |r| :: lo <= r[j] < hi && ps[r[j]] == x
    ensures forall k {:trigger k in r} | lo <= k < hi && ps[k] == x :: k in r
    decreases hi - lo
  {
    if lo == hi then []
    else Matching(ps, x, lo, hi - 1) + (if ps[hi - 1] == x then [hi - 1] else [])
  }

  /** The positions in [lo, hi) attached to the category at p, in list order. */
  function AttachedIn(flat: seq<Category>, p: nat, lo: nat, hi: nat): (r: seq<nat>)
    requires DistinctKeys(flat) && lo <= hi <= |flat|
    ensures forall j | 0 <= j < |r| :: lo <= r[j] < hi && ParentOf(flat, r[j]) == Some(p)
    ensures forall k {:trigger k in r} | lo <= k < hi && ParentOf(flat, k) == Some(p) :: k in r
  {
    Matching(Parents(flat), Some(p), lo, hi)
  }

  /** The positions below hi that become roots, in list order. */
  function RootsIn(flat: seq<Category>, hi: nat): (r: seq<nat>)
    requires DistinctKeys(flat) && hi <= |flat|
    ensures forall j | 0 <= j < |r| :: r[j] < hi && ParentOf(flat, r[j]).None?
    ensures forall k {:trigger k in r} | 0 <= k < hi && ParentOf(flat, k).None? :: k in r
  {
    Matching(Parents(flat), None, 0, hi)
  }

  /** The list of roots and, per position, that category's final `Children` list. */
  datatype Forest = Forest(roots: seq<nat>, children: seq<seq<nat>>)

  /**
   * `BuildTreeFromFlatList`. It throws on a repeated key. Otherwise a category's
   * `Children` list is reset when the loop reaches it, so the list ends up holding
   * exactly the categories attached to it from its own position onwards. The lists
   * the deserializer filled in are cleared by that reset before anything reads them,
   * so every list starts empty here.
   */
  method BuildTreeFromFlatList(flat: seq<Category>) returns (r: Outcome<Forest>)
    ensures r.Throws? <==> !DistinctKeys(flat)
    ensures r.Produced? ==> r.value.roots == RootsIn(flat, |flat|)
    ensures r.Produced? ==> |r.value.children| == |flat|
    ensures r.Produced? ==>
      forall p | 0 <= p < |flat| :: r.value.children[p] == AttachedIn(flat, p, p, |flat|)
  {
    var index := CodeIndex(flat);
    if index.None? {
      return Throws;
    }
    ghost var ps := Parents(flat);
    var roots: seq<nat> := [];
    var children: seq<seq<nat>> := seq(|flat|, _ => []);
    for i := 0 to |flat|
      invariant BuiltUpTo(ps, i, roots, children)
    {
      BuiltStep(ps, i, roots, children);
      assert ps[i] == ParentOf(flat, i);
      children := children[i := []];
      var pc := flat[i].parentCode;
      if IsNullOrEmpty(pc) {
        roots := roots + [i];
      } else if pc.value in index.value {
        var p := index.value[pc.value];
        children := children[p := children[p] + [i]];
      } else {
        roots := roots + [i];
      }
    }
    return Produced(Forest(roots, children));
  }

  /**
   * The roots and lists once the loop has handled the positions before i: a list not yet
   * reset holds every position attached to it so far, a reset one those from its own.
   */
  predicate BuiltUpTo(ps: seq<Option<nat>>, i: nat, roots: seq<nat>, children: seq<seq<nat>>)
    requires i <= |ps|
  {
    |children| == |ps| && roots == Matching(ps, None, 0, i)
    && (forall p | 0 <= p < i :: children[p] == Matching(ps, Some(p), p, i))
    && (forall p | i <= p < |ps| :: children[p] == Matching(ps, Some(p), 0, i))
  }

  /** One turn of the loop: reset the list of i, then attach i to its parent or make it a root. */
  lemma BuiltStep(ps: seq<Option<nat>>, i: nat, roots: seq<nat>, children: seq<seq<nat>>)
    requires i < |ps| && BuiltUpTo(ps, i, roots, children)
    requires ps[i].Some? ==> ps[i].value < |ps|
    ensures var cleared := children[i := []];
      BuiltUpTo(ps, i + 1, if ps[i].None? then roots + [i] else roots,
                if ps[i].None? then cleared else cleared[ps[i].value := cleared[ps[i].value] + [i]])
  {
    var cleared := children[i := []];
    var next := if ps[i].None? then cleared else cleared[ps[i].value := cleared[ps[i].value] + [i]];
    assert Matching(ps, None, 0, i + 1) == Matching(ps, None, 0, i) + (if ps[i] == None then [i] else []);
    forall p | 0 <= p <= i ensures next[p] == Matching(ps, Some(p), p, i + 1) {
      assert Matching(ps, Some(p), p, i + 1) == Matching(ps, Some(p), p, i) + (if ps[i] == Some(p) then [i] else []);
    }
    forall p | i < p < |ps| ensures next[p] == Matching(ps, Some(p), 0, i + 1) {
      assert Matching(ps, Some(p), 0, i + 1) == Matching(ps, Some(p), 0, i) + (if ps[i] == Some(p) then [i] else []);
    }
  }

  /** Roots come out in list order, and so does every `Children` list. */
  predicate Increasing(s: seq<nat>) {
    forall i, j | 0 <= i < j < |s| :: s[i] < s[j]
  }

  lemma IncreasingSnoc(s: seq<nat>, x: nat)
    requires Increasing(s) && forall j | 0 <= j < |s| :: s[j] < x
    ensures Increasing(s + [x])
  {
    var t := s + [x];
    forall i, j | 0 <= i < j < |t| ensures t[i] < t[j] {
      if j < |s| {
        assert t[i] == s[i] && t[j] == s[j];
      } else {
        assert t[i] == s[i];
      }
    }
  }

  lemma {:induction false} MatchingIncreasing(ps: seq<Option<nat>>, x: Option<nat>, lo: nat, hi: nat)
    requires lo <= hi <= |ps|
    ensures Increasing(Matching(ps, x, lo, hi))
    decreases hi - lo
  {
    if lo < hi {
      var front := Matching(ps, x, lo, hi - 1);
      MatchingIncreasing(ps, x, lo, hi - 1);
      if ps[hi - 1] == x {
        IncreasingSnoc(front, hi - 1);
      } else {
        AppendEmpty(front);
      }
    }
  }

  lemma AttachedInIncreasing(flat: seq<Category>, p: nat, lo: nat, hi: nat)
    requires DistinctKeys(flat) && lo <= hi <= |flat|
    ensures Increasing(AttachedIn(flat, p, lo, hi))
  {
    MatchingIncreasing(Parents(flat), Some(p), lo, hi);
  }

  lemma RootsInIncreasing(flat: seq<Category>, hi: nat)
    requires DistinctKeys(flat) && hi <= |flat|
    ensures Increasing(RootsIn(flat, hi))
  {
    MatchingIncreasing(Parents(flat), None, 0, hi);
  }

  /** A category with no parent code, or one naming no category of the list, is a root. */
  lemma OrphanIsRoot(flat: seq<Category>, k: nat)
    requires DistinctKeys(flat) && k < |flat|
    requires forall p | 0 <= p < |flat| :: Key(flat[p]) != flat[k].parentCode.GetOr("")
    ensures k in RootsIn(flat, |flat|)
  {
  }

  /**
   * A category listed before its parent is attached, then cleared away when the loop
   * reaches the parent: it ends up in no list at all.
   */
  lemma ChildBeforeParentIsDropped(flat: seq<Category>, k: nat, p: nat)
    requires DistinctKeys(flat) && k < p < |flat|
    requires ParentOf(flat, k) == Some(p)
    ensures k !in RootsIn(flat, |flat|)
    ensures forall q | 0 <= q < |flat| :: k !in AttachedIn(flat, q, q, |flat|)
  {
    forall q | 0 <= q < |flat| ensures k !in AttachedIn(flat, q, q, |flat|) {
      var l := AttachedIn(flat, q, q, |flat|);
      forall j | 0 <= j < |l| ensures l[j] != k {
        if q != p {
          assert ParentOf(flat, l[j]) == Some(q);
        }
      }
    }
  }

  /** A category listed after its parent is in that parent's list and in no other. */
  lemma ChildAfterParentIsKept(flat: seq<Category>, k: nat, p: nat)
    requires DistinctKeys(flat) && p <= k < |flat|
    requires ParentOf(flat, k) == Some(p)
    ensures k in AttachedIn(flat, p, p, |flat|)
    ensures k !in RootsIn(flat, |flat|)
    ensures forall q | 0 <= q < |flat| && q != p :: k !in AttachedIn(flat, q, q, |flat|)
  {
    forall q | 0 <= q < |flat| && q != p ensures k !in AttachedIn(flat, q, q, |flat|) {
      var l := AttachedIn(flat, q, q, |flat|);
      forall j | 0 <= j < |l| ensures l[j] != k {
        assert ParentOf(flat, l[j]) == Some(q);
      }
    }
  }

  /** Splitting off the first position of [lo, hi). */
  lemma {:induction false} MatchingFront(ps: seq<Option<nat>>, x: Option<nat>, lo: nat, hi: nat)
    requires lo < hi <= |ps|
    ensures Matching(ps, x, lo, hi) == (if ps[lo] == x then [lo] else []) + Matching(ps, x, lo + 1, hi)
    decreases hi - lo
  {
    var head: seq<nat> := if ps[lo] == x then [lo] else [];
    if lo + 1 < hi {
      var tail: seq<nat> := if ps[hi - 1] == x then [hi - 1] else [];
      var mid := Matching(ps, x, lo + 1, hi - 1);
      calc {
        Matching(ps, x, lo, hi);
        Matching(ps, x, lo, hi - 1) + tail;
        { MatchingFront(ps, x, lo, hi - 1); }
        (head + mid) + tail;
        { AppendAssoc(head, mid, tail); }
        head + (mid + tail);
        head + Matching(ps, x, lo + 1, hi);
      }
    } else {
      assert Matching(ps, x, lo + 1, hi) == [];
      AppendEmpty(head);
    }
  }

  lemma AttachedInFront(flat: seq<Category>, p: nat, lo: nat, hi: nat)
    requires DistinctKeys(flat) && lo < hi <= |flat|
    ensures AttachedIn(flat, p, lo, hi) ==
      (if ParentOf(flat, lo) == Some(p) then [lo] else []) + AttachedIn(flat, p, lo + 1, hi)
  {
    MatchingFront(Parents(flat), Some(p), lo, hi);
  }

  /**
   * Only a category whose parent code is its own code is attached to itself; such a
   * category is neither a root nor anyone else's child. Every other list skips its owner.
   */
  lemma SelfAttachedOnlyWhenOwnParent(flat: seq<Category>, p: nat)
    requires DistinctKeys(flat) && p < |flat|
    ensures ParentOf(flat, p) != Some(p) ==> AttachedIn(flat, p, p, |flat|) == AttachedIn(flat, p, p + 1, |flat|)
    ensures ParentOf(flat, p) == Some(p) ==>
      p !in RootsIn(flat, |flat|) && forall q | 0 <= q < |flat| && q != p :: p !in AttachedIn(flat, q, q, |flat|)
  {
    AttachedInFront(flat, p, p, |flat|);
    if ParentOf(flat, p) == Some(p) {
      ChildAfterParentIsKept(flat, p, p);
    }
  }

  /**
   * The subtree the category at p heads once the lists are built, as a value. It follows
   * the attached categories after p, which by `SelfAttachedOnlyWhenOwnParent` is the
   * built list of every category reachable from a root.
   */
  function Subtree(flat: seq<Category>, p: nat): (r: Category)
    requires DistinctKeys(flat) && p < |flat|
    ensures r.code == flat[p].code && r.name == flat[p].name && r.parentCode == flat[p].parentCode
    decreases |flat| - p
  {
    var ks := AttachedIn(flat, p, p + 1, |flat|);
    flat[p].(children := ListOf(seq(|ks|, j requires 0 <= j < |ks| => Subtree(flat, ks[j]))))
  }

  /** The subtrees headed by the given positions. */
  function Subtrees(flat: seq<Category>, ks: seq<nat>): (r: seq<Category>)
    requires DistinctKeys(flat) && forall j | 0 <= j < |ks| :: ks[j] < |flat|
    ensures |r| == |ks| && forall j | 0 <= j < |ks| :: r[j] == Subtree(flat, ks[j])
  {
    seq(|ks|, j requires 0 <= j < |ks| => Subtree(flat, ks[j]))
  }

  // ---------------------------------------------------------------------------
  // Walking a nested tree
  //
  // The functions below recurse into `Children` lists. Each one carries a ghost `bound`:
  // a category that every category of the list it is given sits inside. Entering a
  // category's children makes that category the new bound.

  ghost predicate Below(cats: seq<Category>, bound: Category) {
    forall i | 0 <= i < |cats| :: cats[i] < bound
  }

  /** The categories of a `Children` list, none for a null list. */
  function Kids(c: Category): (r: seq<Category>)
    ensures Below(r, c)
    ensures c.children.ListOf? ==> r == c.children.items
    ensures c.children.NullList? ==> r == []
  {
    if c.children.NullList? then []
    else
      assert forall i | 0 <= i < |c.children.items| :: c.children.items[i] in c.children.items;
      c.children.items
  }

  /** A category holding the given list; it serves as the bound of a top-level list. */
  function Holder(cats: seq<Category>): (h: Category)
    ensures Below(cats, h) && Kids(h) == cats
  {
    Category(None, None, None, ListOf(cats), None)
  }

  // ---------------------------------------------------------------------------
  // Paths

  /** The path `BuildCategoryPaths` writes: a top-level name, or the parent's path, " > " and the name. */
  function PathOf(c: Category, parentPath: string): string {
    if parentPath == "" then c.name.GetOr(c.code.GetOr("Unknown"))
    else parentPath + " > " + c.name.GetOr(c.code.GetOr(""))
  }

  /**
   * `BuildCategoryPaths`: writes `Path` on every category of the list, descending into
   * non-empty `Children` lists with the category's own path as the parent path.
   * Nothing but the paths changes.
   */
  function PathsUnder(ghost bound: Category, cats: seq<Category>, parentPath: string): (r: seq<Category>)
    requires Below(cats, bound)
    ensures |r| == |cats|
    ensures forall i | 0 <= i < |cats| ::
      r[i].code == cats[i].code && r[i].name == cats[i].name && r[i].parentCode == cats[i].parentCode
      && r[i].children.ListOf? == cats[i].children.ListOf? && |Kids(r[i])| == |Kids(cats[i])|
    decreases bound, |cats|
  {
    if cats == [] then []
    else
      var c := cats[0];
      var path := PathOf(c, parentPath);
      var children := if |Kids(c)| > 0 then ListOf(PathsUnder(c, Kids(c), path)) else c.children;
      [c.(path := Some(path), children := children)] + PathsUnder(bound, cats[1..], parentPath)
  }

  /** The category at `i` carries its own path, and its children are written below that path. */
  lemma {:induction false} PathsUnderAt(bound: Category, cats: seq<Category>, parentPath: string, i: nat)
    requires Below(cats, bound) && i < |cats|
    ensures var r := PathsUnder(bound, cats, parentPath);
      r[i].path == Some(PathOf(cats[i], parentPath))
      && (|Kids(cats[i])| == 0 ==> r[i].children == cats[i].children)
      && (|Kids(cats[i])| > 0 ==> Kids(r[i]) == PathsUnder(cats[i], Kids(cats[i]), PathOf(cats[i], parentPath)))
    decreases |cats|
  {
    if i > 0 {
      assert cats[i] == cats[1..][i - 1];
      PathsUnderAt(bound, cats[1..], parentPath, i - 1);
    }
  }

  function BuildCategoryPaths(cats: seq<Category>, parentPath: string): (r: seq<Category>)
    ensures |r| == |cats|
    ensures forall i | 0 <= i < |cats| ::
      r[i].code == cats[i].code && r[i].name == cats[i].name && r[i].parentCode == cats[i].parentCode
    ensures forall i | 0 <= i < |cats| :: r[i].path == Some(
      if parentPath == "" then cats[i].name.GetOr(cats[i].code.GetOr("Unknown"))
      else parentPath + " > " + cats[i].name.GetOr(cats[i].code.GetOr("")))
    ensures forall i | 0 <= i < |cats| :: |Kids(cats[i])| == 0 ==> r[i].children == cats[i].children
    ensures forall i | 0 <= i < |cats| :: |Kids(cats[i])| > 0 ==>
      Kids(r[i]) == PathsUnder(cats[i], Kids(cats[i]), r[i].path.value)
  {
    var r := PathsUnder(Holder(cats), cats, parentPath);
    assert forall i | 0 <= i < |cats| ::
      r[i].path == Some(PathOf(cats[i], parentPath))
      && (|Kids(cats[i])| == 0 ==> r[i].children == cats[i].children)
      && (|Kids(cats[i])| > 0 ==> Kids(r[i]) == PathsUnder(cats[i], Kids(cats[i]), PathOf(cats[i], parentPath)))
    by {
      forall i | 0 <= i < |cats|
        ensures r[i].path == Some(PathOf(cats[i], parentPath))
          && (|Kids(cats[i])| == 0 ==> r[i].children == cats[i].children)
          && (|Kids(cats[i])| > 0 ==> Kids(r[i]) == PathsUnder(cats[i], Kids(cats[i]), PathOf(cats[i], parentPath)))
      {
        PathsUnderAt(Holder(cats), cats, parentPath, i);
      }
    }
    r
  }

  /** Every category of the list, and of the lists below it, carries a non-empty name. */
  predicate AllNamed(ghost bound: Category, cats: seq<Category>)
    requires Below(cats, bound)
    decreases bound, |cats|
  {
    forall i | 0 <= i < |cats| ::
      cats[i].name.Some? && cats[i].name.value != "" && AllNamed(cats[i], Kids(cats[i]))
  }

  /** Every category's path is the names from its top-level ancestor down to it, joined by " > ". */
  predicate PathsFollow(ghost bound: Category, cats: seq<Category>, ancestors: seq<string>)
    requires Below(cats, bound)
    decreases bound, |cats|
  {
    forall i | 0 <= i < |cats| ::
      cats[i].name.Some?
      && cats[i].path == Some(Join(ancestors + [cats[i].name.value], " > "))
      && PathsFollow(cats[i], Kids(cats[i]), ancestors + [cats[i].name.value])
  }

  lemma {:induction false} JoinSnoc(parts: seq<string>, last: string, sep: string)
    requires |parts| >= 1
    ensures Join(parts + [last], sep) == Join(parts, sep) + sep + last
  {
    if |parts| > 1 {
      assert (parts + [last])[1..] == parts[1..] + [last];
      JoinSnoc(parts[1..], last, sep);
    } else {
      assert (parts + [last])[1..] == [last];
    }
  }

  lemma JoinOfNonEmpty(parts: seq<string>, sep: string)
    requires |parts| >= 1 && parts[0] != ""
    ensures Join(parts, sep) != ""
  {
    if |parts| > 1 {
      assert Join(parts, sep) == parts[0] + sep + Join(parts[1..], sep);
      assert |Join(parts, sep)| >= |parts[0]|;
    }
  }

  /** The path written for one category whose name is present and non-empty. */
  lemma PathOfNamed(c: Category, ancestors: seq<string>)
    requires c.name.Some? && c.name.value != ""
    requires forall j | 0 <= j < |ancestors| :: ancestors[j] != ""
    ensures PathOf(c, Join(ancestors, " > ")) == Join(ancestors + [c.name.value], " > ")
  {
    if |ancestors| == 0 {
      assert ancestors + [c.name.value] == [c.name.value];
    } else {
      JoinOfNonEmpty(ancestors, " > ");
      JoinSnoc(ancestors, c.name.value, " > ");
    }
  }

  /**
   * When every category is named, the paths written below a list of ancestors are those
   * ancestors' names and the category's own, and so on down the tree.
   */
  lemma {:induction false} PathsUnderFollow(bound: Category, cats: seq<Category>, ancestors: seq<string>)
    requires Below(cats, bound) && AllNamed(bound, cats)
    requires forall j | 0 <= j < |ancestors| :: ancestors[j] != ""
    ensures PathsFollow(Holder(PathsUnder(bound, cats, Join(ancestors, " > "))),
                        PathsUnder(bound, cats, Join(ancestors, " > ")), ancestors)
    decreases bound, |cats|
  {
    if cats != [] {
      var r := PathsUnder(bound, cats, Join(ancestors, " > "));
      var c := cats[0];
      var below := ancestors + [c.name.value];
      PathOfNamed(c, ancestors);
      assert forall j | 0 <= j < |below| :: below[j] != "";
      if |Kids(c)| > 0 {
        PathsUnderFollow(c, Kids(c), below);
      }
      var tail := cats[1..];
      assert forall i | 0 <= i < |tail| :: tail[i] == cats[i + 1];
      PathsUnderFollow(bound, tail, ancestors);
      var rest := PathsUnder(bound, tail, Join(ancestors, " > "));
      assert r == [r[0]] + rest;
      forall i | 0 <= i < |r|
        ensures r[i].name.Some?
        ensures r[i].path == Some(Join(ancestors + [r[i].name.value], " > "))
        ensures PathsFollow(r[i], Kids(r[i]), ancestors + [r[i].name.value])
      {
        if i > 0 {
          assert r[i] == rest[i - 1];
        }
      }
    }
  }

  /**
   * When every category is named, `BuildCategoryPaths` started at the top level gives each
   * category the names of its ancestors and its own, joined by " > ".
   */
  lemma PathsJoinAncestorNames(cats: seq<Category>)
    requires AllNamed(Holder(cats), cats)
    ensures PathsFollow(Holder(BuildCategoryPaths(cats, "")), BuildCategoryPaths(cats, ""), [])
  {
    PathsUnderFollow(Holder(cats), cats, []);
  }

  /** A category whose name is "" gets the path "", so the categories under it are written as top-level ones. */
  lemma EmptyNameRestartsPaths(c: Category, child: Category)
    requires c.name == Some("") && c.children == ListOf([child]) && child.name == Some("shoes")
    ensures BuildCategoryPaths([c], "")[0].path == Some("")
    ensures Kids(BuildCategoryPaths([c], "")[0])[0].path == Some("shoes")
  {
    assert Kids(c) == [child];
    var top := PathsUnder(Holder([c]), [c], "");
    assert top[0].children == ListOf(PathsUnder(c, [child], ""));
  }

  // ---------------------------------------------------------------------------
  // Filing a tree under its codes

  /** Every category of the list, each before its children and its children before its next sibling. */
  function Preorder(ghost bound: Category, cats: seq<Category>): seq<Category>
    requires Below(cats, bound)
    decreases bound, |cats|
  {
    if cats == [] then []
    else [cats[0]] + Preorder(cats[0], Kids(cats[0])) + Preorder(bound, cats[1..])
  }

  lemma {:induction false} PreorderAppend(bound: Category, a: seq<Category>, b: seq<Category>)
    requires Below(a + b, bound)
    ensures Below(a, bound) && Below(b, bound)
    ensures Preorder(bound, a + b) == Preorder(bound, a) + Preorder(bound, b)
    decreases |a|
  {
    BelowParts(bound, a, b);
    if a != [] {
      ConsAppend(a, b);
      PreorderAppend(bound, a[1..], b);
      AppendAssoc([a[0]] + Preorder(a[0], Kids(a[0])), Preorder(bound, a[1..]), Preorder(bound, b));
    } else {
      assert a + b == b;
    }
  }

  lemma BelowParts(bound: Category, a: seq<Category>, b: seq<Category>)
    requires Below(a + b, bound)
    ensures Below(a, bound) && Below(b, bound)
  {
    assert forall i | 0 <= i < |a| :: a[i] == (a + b)[i];
    assert forall i | 0 <= i < |b| :: b[i] == (a + b)[|a| + i];
  }

  /**
   * Filing categories one after another: a category whose code is null or empty is
   * skipped, and a later category replaces an earlier one with the same code.
   */
  function FileAll(dict: map<string, Category>, nodes: seq<Category>): map<string, Category>
    decreases |nodes|
  {
    if nodes == [] then dict
    else
      var d := FileAll(dict, nodes[..|nodes| - 1]);
      var c := nodes[|nodes| - 1];
      if IsNullOrEmpty(c.code) then d else d[c.code.value := c]
  }

  lemma {:induction false} FileAllAppend(dict: map<string, Category>, a: seq<Category>, b: seq<Category>)
    ensures FileAll(FileAll(dict, a), b) == FileAll(dict, a + b)
    decreases |b|
  {
    if b == [] {
      assert a + b == a;
    } else {
      assert (a + b)[..|a + b| - 1] == a + b[..|b| - 1];
      assert (a + b)[|a + b| - 1] == b[|b| - 1];
      FileAllAppend(dict, a, b[..|b| - 1]);
    }
  }

  /**
   * After filing, a key is present exactly when it was already there or some category
   * carries it as a non-empty code; it then names the last such category, and a key
   * no category carries keeps its old entry.
   */
  lemma {:induction false} FiledIsLast(dict: map<string, Category>, nodes: seq<Category>, key: string)
    ensures key in FileAll(dict, nodes) <==>
      key in dict || exists i | 0 <= i < |nodes| :: key != "" && nodes[i].code == Some(key)
    ensures forall i | 0 <= i < |nodes| && key != "" && nodes[i].code == Some(key)
                      && (forall j | i < j < |nodes| :: nodes[j].code != Some(key)) ::
      FileAll(dict, nodes)[key] == nodes[i]
    ensures key in dict && (forall i | 0 <= i < |nodes| :: nodes[i].code != Some(key) || key == "") ==>
      FileAll(dict, nodes)[key] == dict[key]
    decreases |nodes|
  {
    if nodes != [] {
      var front := nodes[..|nodes| - 1];
      FiledIsLast(dict, front, key);
      assert forall i | 0 <= i < |front| :: front[i] == nodes[i];
    }
  }

  /** The preorder of a prefix grows by the next category and everything below it. */
  lemma PreorderStep(bound: Category, cats: seq<Category>, i: nat)
    requires Below(cats, bound) && i < |cats|
    ensures Below(cats[..i], bound) && Below(cats[..i + 1], bound)
    ensures Preorder(bound, cats[..i + 1]) ==
      Preorder(bound, cats[..i]) + [cats[i]] + Preorder(cats[i], Kids(cats[i]))
  {
    assert cats[..i + 1] == cats[..i] + [cats[i]];
    PreorderAppend(bound, cats[..i], [cats[i]]);
    assert [cats[i]][1..] == [];
  }

  /** Filing one more category. */
  lemma FileAllSnoc(dict: map<string, Category>, nodes: seq<Category>, c: Category)
    ensures FileAll(dict, nodes + [c]) ==
      if IsNullOrEmpty(c.code) then FileAll(dict, nodes) else FileAll(dict, nodes)[c.code.value := c]
  {
    assert (nodes + [c])[..|nodes + [c]| - 1] == nodes;
  }

  /**
   * One turn of the flattening loop: filing the next category and then everything below it
   * extends the filing of the prefix by one category.
   */
  lemma FlattenStep(dict: map<string, Category>, bound: Category, cats: seq<Category>, i: nat,
                    before: map<string, Category>, after: map<string, Category>)
    requires Below(cats, bound) && i < |cats|
    requires Below(cats[..i], bound) && before == FileAll(dict, Preorder(bound, cats[..i]))
    requires after == FileAll(if IsNullOrEmpty(cats[i].code) then before else before[cats[i].code.value := cats[i]],
                              Preorder(cats[i], Kids(cats[i])))
    ensures Below(cats[..i + 1], bound) && after == FileAll(dict, Preorder(bound, cats[..i + 1]))
  {
    var c := cats[i];
    PreorderStep(bound, cats, i);
    var visited := Preorder(bound, cats[..i]);
    FileAllSnoc(dict, visited, c);
    FileAllAppend(dict, visited + [c], Preorder(c, Kids(c)));
  }

  /** `FlattenCategoryTree`: files every category of the list and of the lists below it, in preorder. */
  method FlattenCategoryTree(ghost bound: Category, cats: seq<Category>, dict: map<string, Category>)
    returns (r: map<string, Category>)
    requires Below(cats, bound)
    ensures r == FileAll(dict, Preorder(bound, cats))
    decreases bound, |cats|
  {
    r := dict;
    var i := 0;
    while i < |cats|
      invariant 0 <= i <= |cats|
      invariant Below(cats[..i], bound)
      invariant r == FileAll(dict, Preorder(bound, cats[..i]))
    {
      var c := cats[i];
      ghost var before := r;
      if !IsNullOrEmpty(c.code) {
        r := r[c.code.value := c];
      }
      if c.children.ListOf? && |c.children.items| > 0 {
        r := FlattenCategoryTree(c, c.children.items, r);
      } else {
        assert Preorder(c, Kids(c)) == [];
      }
      FlattenStep(dict, bound, cats, i, before, r);
      i := i + 1;
    }
    assert cats[..i] == cats;
  }
}
