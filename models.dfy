/** The order records of the order form: catalogue items, customers and an
    order with its item summary, its printable item list and its total. */
module Models {
  import opened Results
  import opened Tables
  import opened Text

  /** A catalogue item. Costs are whole centavos. */
  datatype Item = Item(name: string, category: Option<string>, cost: int)

  /** A customer of the shop, known by an identifier and a name. */
  datatype Customer = Customer(
    id: string,
    name: string,
    email: Option<string>,
    phone: Option<string>,
    address: Option<string>)

  /** An order: a customer and the items bought, one entry per unit. */
  datatype Order = Order(customer: Customer, items: seq<Item>)

  /** The record an order is written as. */
  datatype OrderRecord = OrderRecord(customer: string, items: seq<string>, total: int)

  function ItemName(i: Item): string {
    i.name
  }

  function ItemCost(i: Item): int {
    i.cost
  }

  function ItemNames(items: seq<Item>): seq<string> {
    Column(items, ItemName)
  }

  /** Each key of `quantity` maps to its multiplicity in `xs`, at least 1. */
  ghost predicate CountsOf(quantity: map<string, nat>, xs: seq<string>) {
    forall n :: n in quantity ==> quantity[n] == multiset(xs)[n] && quantity[n] >= 1
  }

  /** Counting one more name keeps the counts in step: a known name is
      raised by one, a new name enters with one. */
  lemma CountsStep(quantity: map<string, nat>, xs: seq<string>, name: string)
    requires CountsOf(quantity, xs)
    requires name !in quantity ==> name !in xs
    ensures name in quantity ==> CountsOf(quantity[name := quantity[name] + 1], xs + [name])
    ensures name !in quantity ==> CountsOf(quantity[name := 1], xs + [name])
  {
    var m := multiset(xs + [name]);
    assert m == multiset(xs) + multiset{name};
    var q := if name in quantity then quantity[name := quantity[name] + 1] else quantity[name := 1];
    forall n | n in q ensures q[n] == m[n] && q[n] >= 1 {
      if n != name {
        assert q[n] == quantity[n];
      }
    }
  }

  /** The item quantities of an order, as a dict keyed by item name: the
      names in the order in which they first occur, and for each the number
      of units of that name. */
  method Quantities(order: Order) returns (names: seq<string>, quantity: map<string, nat>)
    ensures names == Distinct(ItemNames(order.items))
    ensures forall n :: n in quantity <==> n in names
    ensures forall n :: n in quantity ==> quantity[n] == multiset(ItemNames(order.items))[n]
    ensures forall n :: n in quantity ==> quantity[n] >= 1
  {
    var all := ItemNames(order.items);
    names, quantity := [], map[];
    for i := 0 to |order.items|
      invariant names == Distinct(all[..i])
      invariant forall n :: n in quantity <==> n in names
      invariant CountsOf(quantity, all[..i])
    {
      var name := all[i];
      TakeSnoc(all, i);
      DistinctSnoc(all[..i], name);
      CountsStep(quantity, all[..i], name);
      if name in quantity {
        quantity := quantity[name := quantity[name] + 1];
      } else {
        quantity := quantity[name := 1];
        names := names + [name];
      }
    }
    assert all[..|order.items|] == all;
  }

  /** The quantities of an order add up to its number of items. */
  lemma QuantitiesAddUp(items: seq<Item>)
    ensures MultiplicitySum(Distinct(ItemNames(items)), multiset(ItemNames(items))) == |items|
  {
    DistinctMultiplicities(ItemNames(items));
  }

  /** Adding one unit of an item raises that item's quantity by one, leaves
      every other quantity alone, and adds its name at the end when it is
      new. */
  lemma AddItemQuantities(items: seq<Item>, item: Item)
    ensures Distinct(ItemNames(items + [item])) ==
      if item.name in ItemNames(items) then Distinct(ItemNames(items))
      else Distinct(ItemNames(items)) + [item.name]
    ensures multiset(ItemNames(items + [item]))[item.name] == multiset(ItemNames(items))[item.name] + 1
    ensures forall n :: n != item.name ==>
      multiset(ItemNames(items + [item]))[n] == multiset(ItemNames(items))[n]
  {
    assert ItemNames(items + [item]) == ItemNames(items) + [item.name];
    DistinctSnoc(ItemNames(items), item.name);
  }

  /** The total cost of an order: the sum of its items' costs. */
  method Total(order: Order) returns (total: int)
    ensures total == Sum(order.items, ItemCost)
  {
    total := 0;
    for i := 0 to |order.items|
      invariant total == Sum(order.items[..i], ItemCost)
    {
      assert order.items[..i + 1] == order.items[..i] + [order.items[i]];
      SumAppend(order.items[..i], [order.items[i]], ItemCost);
      total := total + order.items[i].cost;
    }
    assert order.items[..|order.items|] == order.items;
  }

  /** The total of two orders' items together is the sum of their totals. */
  lemma TotalOfUnion(a: seq<Item>, b: seq<Item>)
    ensures Sum(a + b, ItemCost) == Sum(a, ItemCost) + Sum(b, ItemCost)
  {
    SumAppend(a, b, ItemCost);
  }

  /** One line of an order's item list: quantity, ` x `, item name. */
  function QuantityLine(quantity: nat, name: string): string {
    NatToString(quantity) + " x " + name
  }

  /** Reads a quantity line back into its quantity and item name. */
  function ParseQuantityLine(line: string): Option<(nat, string)> {
    var n := LeadingDigits(line);
    if n >= 1 && " x " <= line[n..] then Some((DecimalValue(line[..n]), line[n + 3..]))
    else None
  }

  /** A quantity line names its quantity and its item unambiguously,
      whatever the item name. */
  lemma QuantityLineRoundTrip(quantity: nat, name: string)
    ensures ParseQuantityLine(QuantityLine(quantity, name)) == Some((quantity, name))
  {
    var d := NatToString(quantity);
    var line := QuantityLine(quantity, name);
    assert line == d + (" x " + name);
    LeadingDigitsOf(d, " x " + name);
    assert line[..|d|] == d;
    assert line[|d|..] == " x " + name;
    DecimalRoundTrip(quantity);
  }

  /** `lines` lists, for each distinct item name in order of first
      occurrence, the line with its quantity. */
  predicate ListsQuantities(lines: seq<string>, items: seq<Item>) {
    var names := Distinct(ItemNames(items));
    |lines| == |names|
    && forall k :: 0 <= k < |lines| ==>
      lines[k] == QuantityLine(multiset(ItemNames(items))[names[k]], names[k])
  }

  /** The order's items as `quantity x name` lines. */
  method ToList(order: Order) returns (lines: seq<string>)
    ensures ListsQuantities(lines, order.items)
  {
    var names, quantity := Quantities(order);
    lines := seq(|names|, k requires 0 <= k < |names| => QuantityLine(quantity[names[k]], names[k]));
  }

  /** The order as a record: the customer's name, the item list and the
      total. */
  method ToDict(order: Order) returns (r: OrderRecord)
    ensures r.customer == order.customer.name
    ensures ListsQuantities(r.items, order.items)
    ensures r.total == Sum(order.items, ItemCost)
  {
    var lines := ToList(order);
    var total := Total(order);
    r := OrderRecord(order.customer.name, lines, total);
  }
}
