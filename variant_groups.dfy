/**
 * `GetVariantsByColor` and `GetVariantsBySize`: a product's variants grouped under their
 * colour or size. The dictionary keeps its keys in the order they were first added, so it
 * is a sequence of (key, variants) pairs here.
 */
module VariantGroups {
  import opened Wrappers
  import opened ApiModels

  type Groups = seq<(string, seq<ProductVariant>)>

  /** The colour key: `GetColor()`, or "Varsayılan" when it is empty. */
  function ColorKey(v: ProductVariant): (r: string)
    ensures r != ""
    ensures GetColor(v) != "" ==> r == GetColor(v)
  {
    var color := GetColor(v);
    if color == "" then "Varsayılan" else color
  }

  /** The size key: `GetSize()`, or "Tek Beden" when it is empty. */
  function SizeKey(v: ProductVariant): (r: string)
    ensures r != ""
    ensures GetSize(v) != "" ==> r == GetSize(v)
  {
    var size := GetSize(v);
    if size == "" then "Tek Beden" else size
  }

  predicate DistinctGroupKeys(g: Groups) {
    forall i, j | 0 <= i < j < |g| :: g[i].0 != g[j].0
  }

  /** The position of a key's group, if it has one. */
  function IndexOf(g: Groups, key: string): (r: Option<nat>)
    ensures r.Some? ==> r.value < |g| && g[r.value].0 == key
    ensures r.None? ==> forall i | 0 <= i < |g| :: g[i].0 != key
  {
    if g == [] then None
    else if g[|g| - 1].0 == key then Some(|g| - 1)
    else IndexOf(g[..|g| - 1], key)
  }

  /** Appends a variant to its key's group, opening the group at the end when the key is new. */
  function AddTo(g: Groups, key: string, v: ProductVariant): Groups {
    match IndexOf(g, key)
    case Some(i) => g[i := (key, g[i].1 + [v])]
    case None => g + [(key, [v])]
  }

  /** The groups after adding the variants one by one. */
  function Grouped(vs: seq<ProductVariant>, keyOf: ProductVariant -> string): Groups {
    if vs == [] then []
    else AddTo(Grouped(vs[..|vs| - 1], keyOf), keyOf(vs[|vs| - 1]), vs[|vs| - 1])
  }

  /** The reference: the variants with a given key, in their original order. */
  function WithKey(vs: seq<ProductVariant>, keyOf: ProductVariant -> string, key: string): seq<ProductVariant> {
    if vs == [] then []
    else WithKey(vs[..|vs| - 1], keyOf, key) + (if keyOf(vs[|vs| - 1]) == key then [vs[|vs| - 1]] else [])
  }

  /**
   * `g` groups `vs` by key: the keys are distinct, each group holds exactly the variants with
   * its key, in their order, and every key some variant has owns a group.
   */
  predicate GroupsByKey(g: Groups, vs: seq<ProductVariant>, keyOf: ProductVariant -> string) {
    DistinctGroupKeys(g)
    && (forall i | 0 <= i < |g| :: g[i].1 == WithKey(vs, keyOf, g[i].0) && g[i].1 != [])
    && (forall j | 0 <= j < |vs| :: IndexOf(g, keyOf(vs[j])).Some?)
  }

  /**
   * The grouping is the partition by key: the keys are distinct, every key that some variant
   * has owns a group, and each group holds exactly the variants with its key, in their order.
   */
  lemma {:induction false} GroupedIsPartition(vs: seq<ProductVariant>, keyOf: ProductVariant -> string)
    ensures var g := Grouped(vs, keyOf);
      DistinctGroupKeys(g)
      && (forall i | 0 <= i < |g| :: g[i].1 == WithKey(vs, keyOf, g[i].0) && g[i].1 != [])
      && (forall j | 0 <= j < |vs| :: IndexOf(g, keyOf(vs[j])).Some?)
  {
    if vs != [] {
      var n := |vs| - 1;
      GroupedIsPartition(vs[..n], keyOf);
      var g0 := Grouped(vs[..n], keyOf);
      if IndexOf(g0, keyOf(vs[n])).Some? {
        JoinGroupKeeps(g0, vs, keyOf);
      } else {
        OpenGroupKeeps(g0, vs, keyOf);
      }
    }
  }

  /** Adding the last variant to the existing group of its key keeps the partition. */
  lemma JoinGroupKeeps(g0: Groups, vs: seq<ProductVariant>, keyOf: ProductVariant -> string)
    requires vs != [] && GroupsByKey(g0, vs[..|vs| - 1], keyOf)
    requires IndexOf(g0, keyOf(vs[|vs| - 1])).Some?
    ensures GroupsByKey(AddTo(g0, keyOf(vs[|vs| - 1]), vs[|vs| - 1]), vs, keyOf)
  {
    var n := |vs| - 1;
    var front := vs[..n];
    var v := vs[n];
    var k := keyOf(v);
    var p := IndexOf(g0, k).value;
    var g := g0[p := (k, g0[p].1 + [v])];
    assert AddTo(g0, k, v) == g;
    forall i | 0 <= i < |g| ensures g[i].1 == WithKey(vs, keyOf, g[i].0) && g[i].1 != [] {
      if i != p {
        assert g[i] == g0[i];
      }
    }
    forall j | 0 <= j < |vs| ensures IndexOf(g, keyOf(vs[j])).Some? {
      if j < n {
        assert vs[j] == front[j];
        var q := IndexOf(g0, keyOf(vs[j])).value;
        assert g[q].0 == keyOf(vs[j]);
      } else {
        assert g[p].0 == k;
      }
    }
  }

  /** Opening a new group at the end for the last variant's new key keeps the partition. */
  lemma OpenGroupKeeps(g0: Groups, vs: seq<ProductVariant>, keyOf: ProductVariant -> string)
    requires vs != [] && GroupsByKey(g0, vs[..|vs| - 1], keyOf)
    requires IndexOf(g0, keyOf(vs[|vs| - 1])).None?
    ensures GroupsByKey(AddTo(g0, keyOf(vs[|vs| - 1]), vs[|vs| - 1]), vs, keyOf)
  {
    var n := |vs| - 1;
    var front := vs[..n];
    var v := vs[n];
    var k := keyOf(v);
    var g := g0 + [(k, [v])];
    assert AddTo(g0, k, v) == g;
    forall i | 0 <= i < |g| ensures g[i].1 == WithKey(vs, keyOf, g[i].0) && g[i].1 != [] {
      if i < |g0| {
        assert g[i] == g0[i];
      } else {
        NoneWithKey(front, keyOf, k);
      }
    }
    forall j | 0 <= j < |vs| ensures IndexOf(g, keyOf(vs[j])).Some? {
      if j < n {
        assert vs[j] == front[j];
        var q := IndexOf(g0, keyOf(vs[j])).value;
        assert g[q].0 == keyOf(vs[j]);
      } else {
        assert g[|g0|].0 == k;
      }
    }
  }

  /** A key no variant has selects none of them. */
  lemma {:induction false} NoneWithKey(vs: seq<ProductVariant>, keyOf: ProductVariant -> string, key: string)
    requires forall j | 0 <= j < |vs| :: keyOf(vs[j]) != key
    ensures WithKey(vs, keyOf, key) == []
  {
    if vs != [] {
      NoneWithKey(vs[..|vs| - 1], keyOf, key);
    }
  }

  /** The total size of the groups. */
  function Total(g: Groups): nat {
    if g == [] then 0 else Total(g[..|g| - 1]) + |g[|g| - 1].1|
  }

  lemma {:induction false} TotalAfterUpdate(g: Groups, i: nat, e: (string, seq<ProductVariant>))
    requires i < |g|
    ensures Total(g[i := e]) == Total(g) - |g[i].1| + |e.1|
  {
    var n := |g| - 1;
    if i < n {
      assert g[i := e][..n] == g[..n][i := e];
      TotalAfterUpdate(g[..n], i, e);
    } else {
      assert g[i := e][..n] == g[..n];
    }
  }

  /** No variant is lost or counted twice: the group sizes add up to the number of variants. */
  lemma {:induction false} GroupedKeepsCount(vs: seq<ProductVariant>, keyOf: ProductVariant -> string)
    ensures Total(Grouped(vs, keyOf)) == |vs|
  {
    if vs != [] {
      var n := |vs| - 1;
      var g0 := Grouped(vs[..n], keyOf);
      GroupedKeepsCount(vs[..n], keyOf);
      match IndexOf(g0, keyOf(vs[n]))
      case Some(p) => {
        TotalAfterUpdate(g0, p, (keyOf(vs[n]), g0[p].1 + [vs[n]]));
      }
      case None => {
        assert (g0 + [(keyOf(vs[n]), [vs[n]])])[..|g0|] == g0;
      }
    }
  }

  /** The loop of both groupings, over `product.Variants`. */
  method GroupVariants(vs: seq<ProductVariant>, keyOf: ProductVariant -> string) returns (grouped: Groups)
    ensures grouped == Grouped(vs, keyOf)
  {
    grouped := [];
    for i := 0 to |vs|
      invariant grouped == Grouped(vs[..i], keyOf)
    {
      var v := vs[i];
      var key := keyOf(v);
      var at := IndexOf(grouped, key);
      if at.None? {
        grouped := grouped + [(key, [v])];
      } else {
        grouped := grouped[at.value := (key, grouped[at.value].1 + [v])];
      }
      assert vs[..i + 1][..i] == vs[..i];
    }
    assert vs[..|vs|] == vs;
  }

  /** `GetVariantsByColor`. */
  method GetVariantsByColor(p: Product) returns (grouped: Groups)
    ensures grouped == Grouped(Variants(p), ColorKey)
  {
    grouped := GroupVariants(Variants(p), ColorKey);
  }

  /** `GetVariantsBySize`. */
  method GetVariantsBySize(p: Product) returns (grouped: Groups)
    ensures grouped == Grouped(Variants(p), SizeKey)
  {
    grouped := GroupVariants(Variants(p), SizeKey);
  }
}
