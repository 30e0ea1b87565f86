/**
 * The in-memory REST routes for orders, products and categories. Each route
 * keeps a module-level array; GET returns it and POST appends
 * `{ id: String(length + 1), ...body }`, so a body's own `id` wins.
 */
module ApiRoutes {
  import opened Wrappers
  import opened Store

  /** The decimal digit `d`. */
  function DigitChar(d: nat): (c: char)
    requires d < 10
    ensures '0' <= c <= '9'
  {
    (('0' as int) + d) as char
  }

  /** The value of a decimal digit character. */
  function DigitValue(c: char): nat {
    if '0' <= c <= '9' then c as int - '0' as int else 0
  }

  /** `String(n)` for a natural number: its decimal digits, without leading zeros. */
  function DecimalString(n: nat): (r: string)
    ensures |r| >= 1
    ensures forall i :: 0 <= i < |r| ==> '0' <= r[i] <= '9'
    ensures r[0] == '0' ==> n == 0
  {
    if n < 10 then [DigitChar(n)] else DecimalString(n / 10) + [DigitChar(n % 10)]
  }

  /** The number a string of decimal digits denotes. */
  function DecimalValue(s: string): nat {
    if s == [] then 0 else DecimalValue(s[..|s| - 1]) * 10 + DigitValue(s[|s| - 1])
  }

  /** Reading back the decimal string of `n` gives `n`. */
  lemma {:induction false} DecimalRoundTrip(n: nat)
    ensures DecimalValue(DecimalString(n)) == n
  {
    if n >= 10 {
      DecimalRoundTrip(n / 10);
      var s := DecimalString(n);
      assert s[..|s| - 1] == DecimalString(n / 10);
    }
  }

  /** Different numbers have different decimal strings. */
  lemma DecimalInjective(a: nat, b: nat)
    requires DecimalString(a) == DecimalString(b)
    ensures a == b
  {
    DecimalRoundTrip(a);
    DecimalRoundTrip(b);
  }

  /** The element POST appends to an array of `length` elements. */
  function Entry(length: nat, body: Fields): (r: Fields)
    ensures r.Keys == body.Keys + {"id"}
    ensures forall f :: f in body ==> r[f] == body[f]
    ensures "id" !in body ==> r["id"] == Str(DecimalString(length + 1))
  {
    WithIdDefault(DecimalString(length + 1), body)
  }

  /** Element `i` carries the id `String(i + 1)`. */
  predicate CanonicalIds(items: seq<Fields>) {
    forall i :: 0 <= i < |items| ==> Field(items[i], "id") == Some(Str(DecimalString(i + 1)))
  }

  /** A POST whose body has no `id` keeps the ids canonical. */
  lemma PostKeepsCanonical(items: seq<Fields>, body: Fields)
    requires CanonicalIds(items) && "id" !in body
    ensures CanonicalIds(items + [Entry(|items|, body)])
  {
  }

  /** Canonical ids are pairwise distinct. */
  lemma CanonicalIdsUnique(items: seq<Fields>)
    requires CanonicalIds(items)
    ensures forall i, j :: 0 <= i < j < |items| ==> items[i]["id"] != items[j]["id"]
  {
    forall i, j | 0 <= i < j < |items| ensures items[i]["id"] != items[j]["id"] {
      if items[i]["id"] == items[j]["id"] {
        DecimalInjective(i + 1, j + 1);
      }
    }
  }

  /** The initial orders. */
  function InitialOrders(): seq<Fields> {
    [map["id" := Str("1"), "customer" := Str("عميل 1"), "total" := Num(100)],
     map["id" := Str("2"), "customer" := Str("عميل 2"), "total" := Num(200)]]
  }

  /** The initial products. */
  function InitialProducts(): seq<Fields> {
    [map["id" := Str("1"), "name" := Str("منتج 1"), "price" := Num(50)],
     map["id" := Str("2"), "name" := Str("منتج 2"), "price" := Num(150)]]
  }

  /** The initial categories. */
  function InitialCategories(): seq<Fields> {
    [map["id" := Str("1"), "name" := Str("صنف 1")],
     map["id" := Str("2"), "name" := Str("صنف 2")]]
  }

  /** Every route starts with two elements whose ids are '1' and '2'. */
  lemma InitialIdsCanonical()
    ensures |InitialOrders()| == 2 && CanonicalIds(InitialOrders())
    ensures |InitialProducts()| == 2 && CanonicalIds(InitialProducts())
    ensures |InitialCategories()| == 2 && CanonicalIds(InitialCategories())
  {
    assert DecimalString(1) == "1" && DecimalString(2) == "2";
  }

  /** A body that supplies an id the route will generate later yields two elements with one id:
      POST `{ id: '4' }` and then POST `{}` on the initial orders. */
  lemma ClientIdCanCollide()
    ensures var s1 := InitialOrders() + [Entry(2, map["id" := Str("4")])];
      var s2 := s1 + [Entry(3, map[])];
      s2[2]["id"] == s2[3]["id"] == Str("4")
  {
    assert DecimalString(4) == "4";
  }

  /** A route's module-level array, and the response POST sends. */
  class MemoryRoute {
    var items: seq<Fields>
    const postMessage: string

    /** `app/api/orders/route.ts` */
    constructor Orders()
      ensures items == InitialOrders() && postMessage == "تم إضافة الطلب بنجاح"
    {
      items := InitialOrders();
      postMessage := "تم إضافة الطلب بنجاح";
    }

    /** `app/api/products/route.ts` */
    constructor Products()
      ensures items == InitialProducts() && postMessage == "تم إضافة المنتج بنجاح"
    {
      items := InitialProducts();
      postMessage := "تم إضافة المنتج بنجاح";
    }

    /** `app/api/categories/route.ts` */
    constructor Categories()
      ensures items == InitialCategories() && postMessage == "تم إضافة الصنف بنجاح"
    {
      items := InitialCategories();
      postMessage := "تم إضافة الصنف بنجاح";
    }

    /** `GET`: the current array, unchanged. */
    method Get() returns (r: seq<Fields>)
      ensures r == items
    {
      r := items;
    }

    /** `POST`: appends one element and answers 201 with the route's message. */
    method Post(body: Fields) returns (status: int, message: string)
      modifies this`items
      ensures items == old(items) + [Entry(|old(items)|, body)]
      ensures status == 201 && message == postMessage
      ensures CanonicalIds(old(items)) && "id" !in body ==> CanonicalIds(items)
    {
      items := items + [Entry(|items|, body)];
      status, message := 201, postMessage;
    }
  }
}
