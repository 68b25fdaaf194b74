/**
 * The food picker (`src/components/booking/FoodSelector.jsx`): the menu grouped by category in
 * one pass, nothing at all for an empty menu, and the quantity and button states of each item.
 * The chosen quantities are a dictionary keyed by `String(food.id)`.
 */
module FoodSelector {
  import opened JsLib
  import opened Schema
  import opened Grouping

  function CategoryOf(f: FoodItem): string { f.category }

  /** The menu as shown: the categories in order of first appearance, and each category's items. */
  datatype Menu = Menu(categories: seq<string>, groups: map<string, seq<FoodItem>>)

  /**
   * `groupedFood`, and the early `return null` for an empty menu (the grouping runs first but
   * shows nothing then).
   */
  method Render(foodItems: seq<FoodItem>) returns (menu: Option<Menu>)
    ensures menu.None? <==> |foodItems| == 0
    ensures menu.Some? ==> menu.value.categories == DistinctKeys(foodItems, CategoryOf)
    ensures menu.Some? ==> forall c :: c in menu.value.groups <==> c in menu.value.categories
    ensures menu.Some? ==> forall c :: c in menu.value.groups ==> menu.value.groups[c] == Keyed(foodItems, CategoryOf, c)
  {
    var groups, categories := GroupBy(foodItems, CategoryOf);
    if |foodItems| == 0 {
      return None;
    }
    menu := Some(Menu(categories, groups));
  }

  /**
   * A category's group is the menu filtered by that category, so it keeps the menu's order;
   * every item is in the group of its category and in no other; the groups together hold every
   * item once.
   */
  lemma MenuGroupsSpec(foodItems: seq<FoodItem>, item: FoodItem, c: string)
    ensures Keyed(foodItems, CategoryOf, c) == Filter(foodItems, (x: FoodItem) => CategoryOf(x) == c)
    ensures item in Keyed(foodItems, CategoryOf, c) <==> item in foodItems && item.category == c
    ensures SumOf(DistinctKeys(foodItems, CategoryOf), k => |Keyed(foodItems, CategoryOf, k)|) == |foodItems|
  {
    KeyedIsFilter(foodItems, CategoryOf, c);
    KeyedMember(foodItems, CategoryOf, c, item);
    GroupSizesSum(foodItems, CategoryOf);
  }

  function Key(food: FoodItem): string { IntToString(food.id) }

  /** `selectedFood[food.id] || 0`. */
  function DisplayedQuantity(selected: map<string, int>, food: FoodItem): int {
    if Key(food) in selected && selected[Key(food)] != 0 then selected[Key(food)] else 0
  }

  /** The minus button: `!selectedFood[food.id] || !food.available`. */
  predicate DecrementDisabled(selected: map<string, int>, food: FoodItem) {
    !(Key(food) in selected && Truthy(Num(selected[Key(food)]))) || !food.available
  }

  /** The plus button: `!food.available`. */
  predicate IncrementDisabled(food: FoodItem) {
    !food.available
  }

  /**
   * An item not chosen shows 0; the minus button is disabled exactly when the shown quantity is
   * 0 or the item is unavailable; the plus button only when it is unavailable.
   */
  lemma ButtonsSpec(selected: map<string, int>, food: FoodItem)
    ensures Key(food) !in selected ==> DisplayedQuantity(selected, food) == 0
    ensures DecrementDisabled(selected, food) <==> DisplayedQuantity(selected, food) == 0 || !food.available
    ensures IncrementDisabled(food) <==> !food.available
    ensures food.available && DisplayedQuantity(selected, food) != 0 ==> !DecrementDisabled(selected, food) && !IncrementDisabled(food)
  {
  }
}
