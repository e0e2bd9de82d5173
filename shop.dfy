/**
  The role shop catalogue of src/config/shop.js and its two lookups.
*/
module Shop {
  import opened Wrappers

  datatype ShopItem = ShopItem(id: string, name: string, cost: int, description: string, category: string, roleId: string)

  const ShopItems: seq<ShopItem> := [
    ShopItem("red_name", "❤️ Red Name", 10000, "Gives you a red-colored name role.", "color", "1446302701087359148"),
    ShopItem("green_name", "\U{1F49A} Green Name", 10000, "Gives you a green-colored name role.", "color", "1447824845277630494"),
    ShopItem("blue_name", "\U{1F499} Blue Name", 10000, "Gives you a blue-colored name role.", "color", "1447824814864597004"),
    ShopItem("gold_name", "⭐ Gold", 50000, "Gives you a gold-colored name role.", "color", "1447825066598338601"),
    ShopItem("high_roller", "⭐ High Roller", 50000, "Gives you access to the high rollers channel.", "hr", "1447825528190009364")
  ]

  /** `items.find(i => i.id === id)`: the first item with that id. */
  function FindById(items: seq<ShopItem>, id: string): (r: Option<ShopItem>)
    ensures r.Some? <==> exists i :: 0 <= i < |items| && items[i].id == id
    ensures r.Some? ==> r.value.id == id && r.value in items
  {
    if items == [] then None
    else if items[0].id == id then Some(items[0])
    else
      var r := FindById(items[1..], id);
      assert forall i :: 1 <= i < |items| ==> items[i] == items[1..][i - 1];
      assert r.Some? ==> r.value in items by {
        if r.Some? { assert r.value in items[1..]; }
      }
      r
  }

  /** `items.filter(i => i.category === category)`. */
  function FilterByCategory(items: seq<ShopItem>, category: string): (r: seq<ShopItem>)
    ensures forall x :: x in r <==> x in items && x.category == category
    ensures |r| <= |items|
  {
    if items == [] then []
    else
      var rest := FilterByCategory(items[1..], category);
      assert forall x :: x in items <==> x == items[0] || x in items[1..];
      if items[0].category == category then [items[0]] + rest else rest
  }

  /** Filtering keeps catalogue order: the filter of a concatenation is the concatenation of the filters. */
  lemma {:induction false} FilterAppend(xs: seq<ShopItem>, ys: seq<ShopItem>, category: string)
    ensures FilterByCategory(xs + ys, category) == FilterByCategory(xs, category) + FilterByCategory(ys, category)
  {
    if xs == [] {
      assert xs + ys == ys;
    } else {
      assert (xs + ys)[0] == xs[0] && (xs + ys)[1..] == xs[1..] + ys;
      FilterAppend(xs[1..], ys, category);
    }
  }

  /** A list whose items all have the category filters to itself, and one with none of them to nothing. */
  lemma {:induction false} FilterUniform(xs: seq<ShopItem>, category: string)
    ensures (forall i :: 0 <= i < |xs| ==> xs[i].category == category) ==> FilterByCategory(xs, category) == xs
    ensures (forall i :: 0 <= i < |xs| ==> xs[i].category != category) ==> FilterByCategory(xs, category) == []
  {
    if xs != [] {
      FilterUniform(xs[1..], category);
      assert forall i :: 1 <= i < |xs| ==> xs[1..][i - 1] == xs[i];
      assert [xs[0]] + xs[1..] == xs;
    }
  }

  /** `getItemById`. */
  function ItemById(id: string): Option<ShopItem> { FindById(ShopItems, id) }

  /** `getItemsByCategory`. */
  function ItemsByCategory(category: string): seq<ShopItem> { FilterByCategory(ShopItems, category) }

  /** The ids are pairwise distinct; every item costs something and grants a role. */
  lemma CatalogueWellFormed()
    ensures forall j, k :: 0 <= j < k < |ShopItems| ==> ShopItems[j].id != ShopItems[k].id
    ensures forall i :: 0 <= i < |ShopItems| ==> ShopItems[i].cost > 0 && ShopItems[i].roleId != ""
  {
    assert ShopItems[0].id[0] == 'r' && ShopItems[1].id[0] == 'g' && ShopItems[2].id[0] == 'b';
    assert ShopItems[3].id[0] == 'g' && ShopItems[4].id[0] == 'h';
    assert ShopItems[1].id[1] != ShopItems[3].id[1];
  }

  /** `getItemById` finds the one catalogue entry with that id, and nothing for any other id. */
  lemma ItemByIdIsUnique(id: string, i: nat)
    requires i < |ShopItems|
    ensures ItemById(id) == Some(ShopItems[i]) <==> ShopItems[i].id == id
  {
    CatalogueWellFormed();
    if ItemById(id).Some? {
      var x := ItemById(id).value;
      var k :| 0 <= k < |ShopItems| && ShopItems[k] == x;
    }
  }

  /** The categories of the five items, in catalogue order. */
  lemma Categories(items: seq<ShopItem>)
    requires items == ShopItems
    ensures |items| == 5 && items[4].category == "hr" && items[4].category != "color"
    ensures forall i :: 0 <= i < 4 ==> items[i].category == "color" && items[i].category != "hr"
  {
  }

  /** The "color" category is the first four items in order; "hr" is the high-roller pass. */
  lemma CategoriesAsListed(items: seq<ShopItem>)
    requires items == ShopItems
    ensures FilterByCategory(items, "color") == items[..4]
    ensures FilterByCategory(items, "hr") == [items[4]]
  {
    Categories(items);
    var front, back := items[..4], items[4..];
    assert items == front + back && back == [items[4]];
    assert forall i :: 0 <= i < |front| ==> front[i] == items[i];
    FilterAppend(front, back, "color");
    FilterAppend(front, back, "hr");
    FilterUniform(front, "color");
    FilterUniform(front, "hr");
    FilterUniform(back, "color");
    FilterUniform(back, "hr");
  }
}
