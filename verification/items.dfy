/**
 The cart's line items (the `Product` record of src/hooks/cart.tsx) and the
 predicates that the list operations are specified with.

 `title`, `imageUrl` and `price` are payload: nothing in the cart computes on
 them, so `price` is an unbounded `real` rather than a JavaScript double.
 */
module Items {

  /** One cart line: a product together with how many of it are in the cart. */
  datatype Product = Product(id: string, title: string, imageUrl: string, price: real, quantity: int)

  /** What `addToCart` receives: a product without a quantity. */
  datatype Candidate = Candidate(id: string, title: string, imageUrl: string, price: real)

  /** Some line of `ps` carries `id`. */
  predicate HasId(ps: seq<Product>, id: string) {
    exists i :: 0 <= i < |ps| && ps[i].id == id
  }

  /** No two lines share an id. */
  predicate UniqueIds(ps: seq<Product>) {
    forall i, j :: 0 <= i < j < |ps| ==> ps[i].id != ps[j].id
  }

  /** Every line has quantity at least 1. */
  predicate AllPositive(ps: seq<Product>) {
    forall i :: 0 <= i < |ps| ==> ps[i].quantity >= 1
  }

  /** The cart invariant: ids are unique and no line has dropped to zero. */
  predicate Valid(ps: seq<Product>) {
    UniqueIds(ps) && AllPositive(ps)
  }

  /** `p` and `q` are the same product, whatever their quantities. */
  predicate SamePayload(p: Product, q: Product) {
    p.id == q.id && p.title == q.title && p.imageUrl == q.imageUrl && p.price == q.price
  }

  /** `a` can be obtained from `b` by deleting elements, keeping the rest in order. */
  predicate IsSubsequence(a: seq<Product>, b: seq<Product>)
    decreases |b|
  {
    if |a| == 0 then true
    else if |b| == 0 then false
    else (a[0] == b[0] && IsSubsequence(a[1..], b[1..])) || IsSubsequence(a, b[1..])
  }

  /** Sum of the quantities of all lines. */
  function TotalQuantity(ps: seq<Product>): int {
    if |ps| == 0 then 0 else ps[0].quantity + TotalQuantity(ps[1..])
  }

  /** Number of lines carrying `id`. */
  function CountId(ps: seq<Product>, id: string): nat {
    if |ps| == 0 then 0 else (if ps[0].id == id then 1 else 0) + CountId(ps[1..], id)
  }

  /**
   `Array.prototype.findIndex` with the predicate "same id": the index of the
   first line carrying `id`, or -1 when there is none.
   */
  function FindIndex(ps: seq<Product>, id: string): (r: int)
    ensures -1 <= r < |ps|
    ensures r == -1 <==> !HasId(ps, id)
    ensures r >= 0 ==> ps[r].id == id && forall i :: 0 <= i < r ==> ps[i].id != id
  {
    if |ps| == 0 then -1
    else if ps[0].id == id then 0
    else
      var k := FindIndex(ps[1..], id);
      assert forall i :: 0 < i < |ps| ==> ps[i] == ps[1..][i - 1];
      if k == -1 then -1 else k + 1
  }
}
