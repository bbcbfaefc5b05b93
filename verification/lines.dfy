/**
 The three list transformations of `CartProvider` (src/hooks/cart.tsx), with
 React state and AsyncStorage stripped away: each takes the current list of
 cart lines and returns the list that `setProducts` is given.
 */
module Lines {
  import opened Items

  /**
   `addToCart`: append the candidate with quantity 1 when no line carries its
   id; otherwise the list is returned as it was.
   */
  function AddToCart(ps: seq<Product>, item: Candidate): (r: seq<Product>)
    ensures HasId(ps, item.id) ==> r == ps
    ensures !HasId(ps, item.id) ==>
              && |r| == |ps| + 1
              && r[..|ps|] == ps
              && r[|ps|].id == item.id
              && r[|ps|].title == item.title
              && r[|ps|].imageUrl == item.imageUrl
              && r[|ps|].price == item.price
              && r[|ps|].quantity == 1
  {
    if FindIndex(ps, item.id) == -1 then
      ps + [Product(item.id, item.title, item.imageUrl, item.price, 1)]
    else
      ps
  }

  /** The callback both `map` calls apply: shift the quantity of a matching line. */
  function Adjust(p: Product, id: string, delta: int): Product {
    if p.id == id then p.(quantity := p.quantity + delta) else p
  }

  /** `products.map(...)` with `Adjust` as the callback. */
  function MapAdjust(ps: seq<Product>, id: string, delta: int): seq<Product> {
    seq(|ps|, i requires 0 <= i < |ps| => Adjust(ps[i], id, delta))
  }

  /**
   `increment`: every line carrying `id` gains one unit, every other line is
   left as it was, and the length and order of the list are kept.
   */
  function Increment(ps: seq<Product>, id: string): (r: seq<Product>)
    ensures |r| == |ps|
    ensures forall i :: 0 <= i < |ps| ==> SamePayload(r[i], ps[i])
    ensures forall i :: 0 <= i < |ps| && ps[i].id == id ==> r[i].quantity == ps[i].quantity + 1
    ensures forall i :: 0 <= i < |ps| && ps[i].id != id ==> r[i] == ps[i]
    ensures !HasId(ps, id) ==> r == ps
  {
    MapAdjust(ps, id, 1)
  }

  /** `.filter(product => product.quantity > 0)`. */
  function KeepPositive(ps: seq<Product>): (r: seq<Product>)
    ensures forall i :: 0 <= i < |r| ==> r[i].quantity > 0
    ensures forall i :: 0 <= i < |ps| && ps[i].quantity > 0 ==> ps[i] in r
    ensures forall i :: 0 <= i < |r| ==> r[i] in ps
  {
    if |ps| == 0 then []
    else
      var rest := KeepPositive(ps[1..]);
      assert forall i :: 0 < i < |ps| ==> ps[i] == ps[1..][i - 1];
      if ps[0].quantity > 0 then [ps[0]] + rest else rest
  }

  /** The filter keeps the surviving lines in their original order. */
  lemma {:induction false} KeepPositiveKeepsOrder(ps: seq<Product>)
    ensures IsSubsequence(KeepPositive(ps), ps)
  {
    if |ps| > 0 {
      var rest := KeepPositive(ps[1..]);
      KeepPositiveKeepsOrder(ps[1..]);
      if ps[0].quantity > 0 {
        assert ([ps[0]] + rest)[1..] == rest;
      }
    }
  }

  /**
   `decrement`: every line carrying `id` loses one unit, then every line whose
   quantity is not positive is dropped. Lines that survive keep their order;
   a surviving line is either an untouched line of the input or a matching
   line one unit lower.
   */
  function Decrement(ps: seq<Product>, id: string): (r: seq<Product>)
    ensures forall j :: 0 <= j < |r| ==> r[j].quantity > 0
    ensures forall i :: 0 <= i < |ps| && ps[i].id != id && ps[i].quantity > 0 ==> ps[i] in r
    ensures forall i :: 0 <= i < |ps| && ps[i].id == id && ps[i].quantity > 1 ==>
              ps[i].(quantity := ps[i].quantity - 1) in r
    ensures forall j :: 0 <= j < |r| && r[j].id != id ==> r[j] in ps
    ensures forall j :: 0 <= j < |r| && r[j].id == id ==> r[j].(quantity := r[j].quantity + 1) in ps
  {
    var r := KeepPositive(MapAdjust(ps, id, -1));
    TraceThroughFilter(ps, id, r);
    r
  }

  /** The lines `decrement` keeps appear in the same order as in the input. */
  lemma DecrementKeepsOrder(ps: seq<Product>, id: string)
    ensures IsSubsequence(Decrement(ps, id), MapAdjust(ps, id, -1))
  {
    KeepPositiveKeepsOrder(MapAdjust(ps, id, -1));
  }

  /**
   Relates the lines kept by the filter after `map` to the lines of the input:
   what the filter keeps and drops, stated in terms of `ps` itself.
   */
  lemma TraceThroughFilter(ps: seq<Product>, id: string, r: seq<Product>)
    requires forall i :: 0 <= i < |ps| && MapAdjust(ps, id, -1)[i].quantity > 0 ==> MapAdjust(ps, id, -1)[i] in r
    requires forall j :: 0 <= j < |r| ==> r[j] in MapAdjust(ps, id, -1)
    ensures forall i :: 0 <= i < |ps| && ps[i].id != id && ps[i].quantity > 0 ==> ps[i] in r
    ensures forall i :: 0 <= i < |ps| && ps[i].id == id && ps[i].quantity > 1 ==>
              ps[i].(quantity := ps[i].quantity - 1) in r
    ensures forall j :: 0 <= j < |r| && r[j].id != id ==> r[j] in ps
    ensures forall j :: 0 <= j < |r| && r[j].id == id ==> r[j].(quantity := r[j].quantity + 1) in ps
  {
    var m := MapAdjust(ps, id, -1);
    forall i | 0 <= i < |ps|
      ensures ps[i].id != id && ps[i].quantity > 0 ==> ps[i] in r
      ensures ps[i].id == id && ps[i].quantity > 1 ==> ps[i].(quantity := ps[i].quantity - 1) in r
    {
      assert m[i] == Adjust(ps[i], id, -1);
    }
    forall j | 0 <= j < |r|
      ensures r[j].id != id ==> r[j] in ps
      ensures r[j].id == id ==> r[j].(quantity := r[j].quantity + 1) in ps
    {
      var i :| 0 <= i < |m| && m[i] == r[j];
      if ps[i].id == id {
        assert ps[i] == r[j].(quantity := r[j].quantity + 1);
      } else {
        assert ps[i] == r[j];
      }
    }
  }
}
