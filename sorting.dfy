/** Spring Data's Sort as the pagination code uses it: a sequence of orders,
    each a direction and a property name. Only the behaviour the pagination
    code relies on is modelled: the text check of the Order constructor and
    the toString format. */
module Sorting {
  import opened Results
  import opened Text

  datatype Direction = ASC | DESC

  datatype Order = Order(direction: Direction, property: string)

  /** A Sort is its orders in sequence; Sort.unsorted() is the empty one, and
      Sort.by(orders) is the orders themselves. */
  type Sort = seq<Order>

  /** Spring's StringUtils.hasText: some character is not whitespace. */
  predicate HasText(s: string) {
    exists i :: 0 <= i < |s| && !IsWhitespace(s[i])
  }

  const PROPERTY_MESSAGE: string := "Property must not be null or empty"

  /** new Sort.Order(direction, property): rejects a property without text. */
  function NewOrder(direction: Direction, property: string): (r: Result<Order>)
    ensures r.Ok? <==> HasText(property)
    ensures r.Ok? ==> r.value.direction == direction && r.value.property == property
    ensures r.Err? ==> r.error == IllegalArgument(PROPERTY_MESSAGE)
  {
    if HasText(property) then Ok(Order(direction, property)) else Err(IllegalArgument(PROPERTY_MESSAGE))
  }

  function DirectionName(d: Direction): string {
    match d
    case ASC => "ASC"
    case DESC => "DESC"
  }

  /** Order.toString: "property: DIRECTION". */
  function OrderString(o: Order): string {
    o.property + ": " + DirectionName(o.direction)
  }

  /** Sort.toString: "UNSORTED", or the orders separated by commas. */
  function SortString(s: Sort): string {
    if s == [] then "UNSORTED"
    else Join(seq(|s|, i requires 0 <= i < |s| => OrderString(s[i])), ",")
  }

  /** One order prints as its own string. */
  lemma SortStringOne(o: Order)
    ensures SortString([o]) == OrderString(o)
  {
    var ss := seq(1, i requires 0 <= i < 1 => OrderString([o][i]));
    assert ss == [OrderString(o)];
  }

  /** Two orders print as their two strings joined by a comma. */
  lemma SortStringTwo(o1: Order, o2: Order)
    ensures SortString([o1, o2]) == OrderString(o1) + "," + OrderString(o2)
  {
    var os := [o1, o2];
    var ss := seq(|os|, i requires 0 <= i < |os| => OrderString(os[i]));
    assert ss == [OrderString(o1), OrderString(o2)];
    assert ss[1..] == [OrderString(o2)];
    assert Join(ss, ",") == ss[0] + "," + Join(ss[1..], ",");
  }
}
