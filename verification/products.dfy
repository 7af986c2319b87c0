/** The product catalogue page groups the products by category
    (app/produtos/components/ProductList.js): one group per category, in the
    order the categories first appear, each holding its products in list
    order; a product without a category goes to "Sem Categoria". */
module Products {
  import opened Wrappers
  import Seqs

  datatype Product = Product(id: string, nome: string, categoria: Option<string>)

  const NoCategory: string := "Sem Categoria"

  /** `p.categoria || 'Sem Categoria'`: a missing or empty category falls back. */
  function CategoryOf(p: Product): (c: string)
    ensures c != ""
    ensures p.categoria.Some? && p.categoria.value != "" ==> c == p.categoria.value
    ensures p.categoria.None? || p.categoria.value == "" ==> c == NoCategory
  {
    if p.categoria.Some? && p.categoria.value != "" then p.categoria.value else NoCategory
  }

  function InCategory(cat: string): Product -> bool {
    (p: Product) => CategoryOf(p) == cat
  }

  datatype Group = Group(categoria: string, items: seq<Product>)

  function Categories(groups: seq<Group>): (r: seq<string>)
    ensures |r| == |groups|
    ensures forall j :: 0 <= j < |groups| ==> r[j] == groups[j].categoria
  {
    if |groups| == 0 then [] else [groups[0].categoria] + Categories(groups[1..])
  }

  function CategoriesOf(ps: seq<Product>): (r: seq<string>)
    ensures |r| == |ps|
    ensures forall k :: 0 <= k < |ps| ==> r[k] == CategoryOf(ps[k])
  {
    if |ps| == 0 then [] else [CategoryOf(ps[0])] + CategoriesOf(ps[1..])
  }

  predicate Distinct(s: seq<string>) {
    forall i, j :: 0 <= i < j < |s| ==> s[i] != s[j]
  }

  /** The reference order: each name once, where it first occurs. */
  function FirstAppearances(s: seq<string>): (r: seq<string>)
    ensures forall x :: x in r <==> x in s
    ensures Distinct(r)
  {
    if |s| == 0 then []
    else
      var d := FirstAppearances(s[..|s| - 1]);
      assert s == s[..|s| - 1] + [s[|s| - 1]];
      if s[|s| - 1] in d then d else d + [s[|s| - 1]]
  }

  /** `grouped[cat]`: the position of the group already holding `cat`. */
  function GroupIndex(groups: seq<Group>, cat: string): (r: Option<nat>)
    ensures r.Some? ==> r.value < |groups| && groups[r.value].categoria == cat
    ensures r.None? <==> cat !in Categories(groups)
  {
    if |groups| == 0 then None
    else if groups[0].categoria == cat then Some(0)
    else match GroupIndex(groups[1..], cat)
      case None => None
      case Some(j) => Some(j + 1)
  }

  /** One `forEach` step: `if (!grouped[cat]) grouped[cat] = []; grouped[cat].push(p)`. */
  function Place(groups: seq<Group>, p: Product): seq<Group> {
    var cat := CategoryOf(p);
    match GroupIndex(groups, cat)
    case Some(j) => groups[j := Group(cat, groups[j].items + [p])]
    case None => groups + [Group(cat, [p])]
  }

  /** The grouping invariant: the categories of `ps` in first-appearance
      order, each group holding exactly that category's products. */
  predicate Grouped(ps: seq<Product>, groups: seq<Group>) {
    && Categories(groups) == FirstAppearances(CategoriesOf(ps))
    && forall j :: 0 <= j < |groups| ==>
         groups[j].items == Seqs.Filter(ps, InCategory(groups[j].categoria)) && groups[j].items != []
  }

  /** `groupByCategoria()`, read as `Object.entries(grouped)`: the groups are
      the categories in order of first appearance, each holding exactly the
      products of that category, in list order. */
  function GroupByCategoria(ps: seq<Product>): (groups: seq<Group>)
    ensures Categories(groups) == FirstAppearances(CategoriesOf(ps))
    ensures forall j :: 0 <= j < |groups| ==>
      groups[j].items == Seqs.Filter(ps, InCategory(groups[j].categoria)) && groups[j].items != []
    decreases |ps|
  {
    if |ps| == 0 then []
    else
      var init := ps[..|ps| - 1];
      var groups := GroupByCategoria(init);
      PlaceStep(init, groups, ps[|ps| - 1]);
      Snoc(ps);
      Place(groups, ps[|ps| - 1])
  }

  lemma Snoc<T>(s: seq<T>)
    requires |s| > 0
    ensures s[..|s| - 1] + [s[|s| - 1]] == s
  {
  }

  /** Placing one more product keeps the grouping invariant. */
  lemma PlaceStep(init: seq<Product>, groups: seq<Group>, p: Product)
    requires Grouped(init, groups)
    ensures Grouped(init + [p], Place(groups, p))
  {
    PlaceCategories(init, groups, p);
    var next := Place(groups, p);
    forall j | 0 <= j < |next|
      ensures next[j].items == Seqs.Filter(init + [p], InCategory(next[j].categoria)) && next[j].items != []
    {
      PlaceItems(init, groups, p, j);
    }
  }

  lemma PlaceCategories(init: seq<Product>, groups: seq<Group>, p: Product)
    requires Categories(groups) == FirstAppearances(CategoriesOf(init))
    ensures Categories(Place(groups, p)) == FirstAppearances(CategoriesOf(init + [p]))
  {
    var cat := CategoryOf(p);
    var cs := CategoriesOf(init + [p]);
    CategoriesOfSnoc(init, p);
    assert cs[..|cs| - 1] == CategoriesOf(init);
    match GroupIndex(groups, cat)
    case Some(i) =>
      assert Categories(Place(groups, p)) == Categories(groups);
    case None =>
      CategoriesSnoc(groups, Group(cat, [p]));
  }

  lemma PlaceItems(init: seq<Product>, groups: seq<Group>, p: Product, j: nat)
    requires Grouped(init, groups)
    requires j < |Place(groups, p)|
    ensures var g := Place(groups, p)[j];
      g.items == Seqs.Filter(init + [p], InCategory(g.categoria)) && g.items != []
  {
    var cat := CategoryOf(p);
    var g := Place(groups, p)[j];
    var q := InCategory(g.categoria);
    Seqs.FilterConcat(init, [p], q);
    FilterOne(p, q);
    assert Distinct(Categories(groups));
    match GroupIndex(groups, cat)
    case Some(i) =>
      if j != i {
        assert Categories(groups)[j] != Categories(groups)[i];
      }
    case None =>
      if j == |groups| {
        NoneInCategory(init, cat);
      } else {
        assert Categories(groups)[j] != cat;
      }
  }

  lemma FilterOne(x: Product, q: Product -> bool)
    ensures Seqs.Filter([x], q) == if q(x) then [x] else []
  {
    Seqs.FilterCons(x, [], q);
    assert [x] + [] == [x];
  }

  /** A category nobody has keeps nothing. */
  lemma NoneInCategory(ps: seq<Product>, cat: string)
    requires cat !in CategoriesOf(ps)
    ensures Seqs.Filter(ps, InCategory(cat)) == []
  {
  }

  lemma CategoriesOfSnoc(init: seq<Product>, p: Product)
    ensures CategoriesOf(init + [p]) == CategoriesOf(init) + [CategoryOf(p)]
  {
  }

  lemma CategoriesSnoc(groups: seq<Group>, g: Group)
    ensures Categories(groups + [g]) == Categories(groups) + [g.categoria]
  {
  }

  /** A group holds a product of the list exactly when the product has the group's category. */
  lemma InGroupIff(ps: seq<Product>, j: nat, x: Product)
    requires j < |GroupByCategoria(ps)|
    requires x in ps
    ensures x in GroupByCategoria(ps)[j].items <==> CategoryOf(x) == GroupByCategoria(ps)[j].categoria
  {
    var g := GroupByCategoria(ps)[j];
    var q := InCategory(g.categoria);
    assert multiset(Seqs.Filter(ps, q))[x] == if q(x) then multiset(ps)[x] else 0;
  }

  /** Each product's category names a group. */
  lemma CategoryHasGroup(ps: seq<Product>, k: nat) returns (j: nat)
    requires k < |ps|
    ensures j < |GroupByCategoria(ps)| && GroupByCategoria(ps)[j].categoria == CategoryOf(ps[k])
  {
    var cs := Categories(GroupByCategoria(ps));
    assert CategoriesOf(ps)[k] == CategoryOf(ps[k]);
    assert CategoryOf(ps[k]) in cs;
    j :| 0 <= j < |cs| && cs[j] == CategoryOf(ps[k]);
  }

  /** Every product sits in exactly one group, the one named by its own category. */
  lemma EveryProductInOneGroup(ps: seq<Product>, k: nat)
    requires k < |ps|
    ensures var groups := GroupByCategoria(ps);
      && (exists j :: 0 <= j < |groups| && groups[j].categoria == CategoryOf(ps[k]) && ps[k] in groups[j].items)
      && (forall j :: 0 <= j < |groups| && ps[k] in groups[j].items ==> groups[j].categoria == CategoryOf(ps[k]))
      && (forall i, j :: 0 <= i < j < |groups| ==> groups[i].categoria != groups[j].categoria)
  {
    var groups := GroupByCategoria(ps);
    var j := CategoryHasGroup(ps, k);
    InGroupIff(ps, j, ps[k]);
    forall j' | 0 <= j' < |groups| && ps[k] in groups[j'].items
      ensures groups[j'].categoria == CategoryOf(ps[k])
    {
      InGroupIff(ps, j', ps[k]);
    }
    assert Distinct(Categories(groups));
  }

  /** Within a group the products keep their relative list order. */
  lemma GroupsKeepListOrder(ps: seq<Product>, j: nat)
    requires j < |GroupByCategoria(ps)|
    ensures Seqs.Subsequence(GroupByCategoria(ps)[j].items, ps)
  {
  }

  // ---------------------------------------------------------------- what the page shows

  datatype View = Loading | Empty | Listing(groups: seq<Group>)

  /** The page: the loading note, the empty state, or one section per group. */
  function Render(ps: seq<Product>, loading: bool): (v: View)
    ensures loading <==> v.Loading?
    ensures v.Empty? <==> !loading && ps == []
    ensures v.Listing? ==> v.groups == GroupByCategoria(ps)
  {
    if loading then Loading
    else if |ps| == 0 then Empty
    else Listing(GroupByCategoria(ps))
  }

  /** A listing never shows an empty section and never shows no section. */
  lemma ListingHasGroups(ps: seq<Product>)
    requires Render(ps, false).Listing?
    ensures var gs := Render(ps, false).groups;
      |gs| >= 1 && forall j :: 0 <= j < |gs| ==> |gs[j].items| >= 1
  {
    var gs := GroupByCategoria(ps);
    assert CategoriesOf(ps)[0] in FirstAppearances(CategoriesOf(ps));
  }

  // ---------------------------------------------------------------- the grouping as written

  /** The names every plain object inherits from `Object.prototype`: for these
      `grouped[cat]` is an inherited member, not `undefined`. */
  const Inherited: set<string> := {
    "constructor", "hasOwnProperty", "isPrototypeOf", "propertyIsEnumerable",
    "toLocaleString", "toString", "valueOf", "__proto__",
    "__defineGetter__", "__defineSetter__", "__lookupGetter__", "__lookupSetter__"
  }

  /** `groupByCategoria()` as written, on a plain `{}`: a category named like an
      inherited member finds that member, skips creating the array, and the
      `push` on it throws (None). */
  function GroupAsWritten(ps: seq<Product>): (r: Option<seq<Group>>)
    decreases |ps|
  {
    if |ps| == 0 then Some([])
    else match GroupAsWritten(ps[..|ps| - 1])
      case None => None
      case Some(groups) =>
        var cat := CategoryOf(ps[|ps| - 1]);
        if GroupIndex(groups, cat).None? && cat in Inherited then None
        else Some(Place(groups, ps[|ps| - 1]))
  }

  /** A product in category "constructor" makes the page throw. */
  lemma ConstructorCategoryThrows()
    ensures GroupAsWritten([Product("1", "Suco", Some("constructor"))]) == None
  {
    var ps := [Product("1", "Suco", Some("constructor"))];
    assert ps[..0] == [];
  }

  predicate AnyInherited(ps: seq<Product>) {
    exists k :: 0 <= k < |ps| && CategoryOf(ps[k]) in Inherited
  }

  lemma AnyInheritedSnoc(ps: seq<Product>)
    requires |ps| > 0
    ensures AnyInherited(ps) <==> AnyInherited(ps[..|ps| - 1]) || CategoryOf(ps[|ps| - 1]) in Inherited
  {
    var init := ps[..|ps| - 1];
    if AnyInherited(ps) && CategoryOf(ps[|ps| - 1]) !in Inherited {
      var k :| 0 <= k < |ps| && CategoryOf(ps[k]) in Inherited;
      assert init[k] == ps[k];
    }
    if AnyInherited(init) {
      var k :| 0 <= k < |init| && CategoryOf(init[k]) in Inherited;
      assert ps[k] == init[k];
    }
  }

  /** Without an inherited name among the products, no group is named like one. */
  lemma NoGroupNamedInherited(ps: seq<Product>, cat: string)
    requires !AnyInherited(ps) && cat in Inherited
    ensures GroupIndex(GroupByCategoria(ps), cat).None?
  {
  }

  /** The grouping as written throws exactly when some product's category is an
      inherited name, and otherwise agrees with `GroupByCategoria`. */
  lemma {:induction false} AsWrittenThrowsIff(ps: seq<Product>)
    ensures GroupAsWritten(ps).None? <==> AnyInherited(ps)
    ensures GroupAsWritten(ps).Some? ==> GroupAsWritten(ps).value == GroupByCategoria(ps)
    decreases |ps|
  {
    if |ps| > 0 {
      var init := ps[..|ps| - 1];
      var cat := CategoryOf(ps[|ps| - 1]);
      AsWrittenThrowsIff(init);
      AnyInheritedSnoc(ps);
      if !AnyInherited(init) && cat in Inherited {
        NoGroupNamedInherited(init, cat);
      }
    }
  }
}
