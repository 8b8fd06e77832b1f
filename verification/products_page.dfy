/**
  The product catalogue page (`app/products/page.tsx`): the loaded list, the
  selected tab, the list shown for it, and the tab labels.
 */
module ProductsPage {
  import opened Types
  import opened Lists

  /** The label of the tab that shows everything. */
  const AllTab := "All"

  /** No category is called "All", so the catch-all tab never hides one. */
  lemma AllIsNoCategoryName(c: Category)
    ensures c.Name() != AllTab
  {
  }

  function InCategory(selected: string): Product -> bool {
    (p: Product) => p.category.Name() == selected
  }

  /** The list shown for a tab: everything for "All", otherwise the products
      of that category in stored order. */
  function ShownFor(products: seq<Product>, selected: string): (r: seq<Product>)
    ensures selected == AllTab ==> r == products
    ensures selected != AllTab ==> IsSelection(r, products, InCategory(selected))
    ensures forall i :: 0 <= i < |r| ==> r[i] in products
  {
    if selected == AllTab then products
    else
      FilterIsSelection(products, InCategory(selected));
      FilterCounts(products, InCategory(selected));
      Filter(products, InCategory(selected))
  }

  /** The state the page keeps: the loaded list, the tab and what is shown. */
  datatype Page = Page(products: seq<Product>, selected: string, shown: seq<Product>)

  /** The shown list always follows the loaded list and the tab. */
  predicate Consistent(pg: Page) {
    pg.shown == ShownFor(pg.products, pg.selected)
  }

  /** Before loading: nothing, on the "All" tab. */
  function Start(): (pg: Page)
    ensures pg.products == [] && pg.selected == AllTab && pg.shown == []
    ensures Consistent(pg)
  {
    Page([], AllTab, [])
  }

  /** The load callback stores the list and shows all of it; storing the
      list re-runs the filter effect for the selected tab. */
  function Loaded(pg: Page, data: seq<Product>): (r: Page)
    ensures Consistent(r) && r.products == data && r.selected == pg.selected
    ensures pg.selected == AllTab ==> r.shown == data
  {
    Select(pg.(products := data), pg.selected)
  }

  /** Choosing a tab re-runs the filter effect. */
  function Select(pg: Page, selected: string): (r: Page)
    ensures Consistent(r) && r.selected == selected && r.products == pg.products
  {
    Page(pg.products, selected, ShownFor(pg.products, selected))
  }

  /** The distinct category names in order of first appearance. */
  ghost predicate DistinctInOrder(names: seq<string>, source: seq<string>) {
    && (forall i, j :: 0 <= i < j < |names| ==> names[i] != names[j])
    && (forall x :: x in names <==> x in source)
    && (forall i, j :: 0 <= i < j < |names| ==> IndexOf(source, names[i]) < IndexOf(source, names[j]))
  }

  function CategoryNames(products: seq<Product>): (r: seq<string>)
    ensures |r| == |products|
    ensures forall i :: 0 <= i < |r| ==> r[i] == products[i].category.Name()
  {
    if |products| == 0 then [] else [products[0].category.Name()] + CategoryNames(products[1..])
  }

  /**
    `['All', ...new Set(products.map(p => p.category))]`: the catch-all tab,
    then each category that occurs, once, in order of first occurrence.
   */
  method Tabs(products: seq<Product>) returns (tabs: seq<string>)
    ensures |tabs| >= 1 && tabs[0] == AllTab
    ensures DistinctInOrder(tabs[1..], CategoryNames(products))
  {
    var names := CategoryNames(products);
    var seen: seq<string> := [];
    for i := 0 to |names|
      invariant SeenPrefix(seen, names, i)
    {
      SeenStep(seen, names, i);
      if names[i] !in seen {
        seen := seen + [names[i]];
      }
    }
    assert names[..|names|] == names;
    tabs := [AllTab] + seen;
    assert tabs[1..] == seen;
  }

  /** What the `Set` has collected after the first `i` names: each of them
      once, in order of first occurrence. */
  ghost predicate SeenPrefix(seen: seq<string>, names: seq<string>, i: int)
    requires 0 <= i <= |names|
  {
    && (forall a, b :: 0 <= a < b < |seen| ==> seen[a] != seen[b])
    && (forall x :: x in seen <==> x in names[..i])
    && (forall a, b :: 0 <= a < b < |seen| ==> IndexOf(names, seen[a]) < IndexOf(names, seen[b]))
    && (forall a :: 0 <= a < |seen| ==> IndexOf(names, seen[a]) < i)
  }

  /** Adding the next name to the `Set` keeps it in order of first occurrence. */
  lemma {:induction false} SeenStep(seen: seq<string>, names: seq<string>, i: int)
    requires 0 <= i < |names| && SeenPrefix(seen, names, i)
    ensures SeenPrefix(if names[i] in seen then seen else seen + [names[i]], names, i + 1)
  {
    assert names[..i + 1] == names[..i] + [names[i]];
    if names[i] !in seen {
      assert names[i] !in names[..i];
      IndexOfFirst(names, i);
      var seen' := seen + [names[i]];
      forall a | 0 <= a < |seen'| ensures IndexOf(names, seen'[a]) < i + 1 {
        if a < |seen| { assert seen'[a] == seen[a]; }
      }
      forall a, b | 0 <= a < b < |seen'| ensures IndexOf(names, seen'[a]) < IndexOf(names, seen'[b]) {
        assert seen'[a] == seen[a];
        if b < |seen| { assert seen'[b] == seen[b]; }
      }
      forall a, b | 0 <= a < b < |seen'| ensures seen'[a] != seen'[b] {
        assert seen'[a] == seen[a];
        if b < |seen| { assert seen'[b] == seen[b]; }
      }
    }
  }

  /** A value not among the first `i` entries but at position `i` is first found there. */
  lemma IndexOfFirst(s: seq<string>, i: int)
    requires 0 <= i < |s| && s[i] !in s[..i]
    ensures IndexOf(s, s[i]) == i
  {
  }

  /** Every tab except "All" names a category that occurs, so it shows something. */
  lemma TabsShowSomething(products: seq<Product>, tab: string)
    requires tab in CategoryNames(products)
    ensures |ShownFor(products, tab)| > 0
  {
    var names := CategoryNames(products);
    var k :| 0 <= k < |names| && names[k] == tab;
    AllIsNoCategoryName(products[k].category);
    assert products[k] in products;
    FilterCounts(products, InCategory(tab));
    assert products[k] in Filter(products, InCategory(tab));
  }

  /** Every product has a tab, its category's, under which it is shown. */
  lemma ShownUnderOwnTab(products: seq<Product>, p: Product)
    requires p in products
    ensures p.category.Name() in CategoryNames(products)
    ensures p in ShownFor(products, p.category.Name())
  {
    var k :| 0 <= k < |products| && products[k] == p;
    assert CategoryNames(products)[k] == p.category.Name();
    AllIsNoCategoryName(p.category);
    FilterCounts(products, InCategory(p.category.Name()));
  }
}
