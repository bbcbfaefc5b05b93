/**
 Properties of the cart list operations: the cart invariant is preserved,
 `decrement` is characterised exactly on a valid cart, `decrement` undoes
 `increment`, and the total quantity moves by one unit per matching line.
 */
module LinesProps {
  import opened Items
  import opened Lines

  // ---------------------------------------------------------------------------
  // Sequence facts about the filter and the map
  // ---------------------------------------------------------------------------

  /** The filter keeps a list whose quantities are all positive as it is. */
  lemma {:induction false} KeepPositiveIdentity(ps: seq<Product>)
    requires AllPositive(ps)
    ensures KeepPositive(ps) == ps
  {
    if |ps| > 0 {
      KeepPositiveIdentity(ps[1..]);
      assert [ps[0]] + ps[1..] == ps;
    }
  }

  /** The filter distributes over concatenation. */
  lemma {:induction false} KeepPositiveAppend(a: seq<Product>, b: seq<Product>)
    ensures KeepPositive(a + b) == KeepPositive(a) + KeepPositive(b)
  {
    if |a| == 0 {
      assert a + b == b;
    } else {
      assert (a + b)[0] == a[0];
      assert (a + b)[1..] == a[1..] + b;
      KeepPositiveAppend(a[1..], b);
    }
  }

  /** The filter only drops zero lines from a list without negative quantities. */
  lemma {:induction false} KeepPositiveTotal(ps: seq<Product>)
    requires forall i :: 0 <= i < |ps| ==> ps[i].quantity >= 0
    ensures TotalQuantity(KeepPositive(ps)) == TotalQuantity(ps)
  {
    if |ps| > 0 {
      KeepPositiveTotal(ps[1..]);
      if ps[0].quantity > 0 {
        assert ([ps[0]] + KeepPositive(ps[1..]))[1..] == KeepPositive(ps[1..]);
      }
    }
  }

  /** Dropping the first line of the mapped list is mapping the rest. */
  lemma MapAdjustTail(ps: seq<Product>, id: string, delta: int)
    requires |ps| > 0
    ensures MapAdjust(ps, id, delta)[1..] == MapAdjust(ps[1..], id, delta)
  {
  }

  /** Mapping shifts the total by `delta` for every matching line. */
  lemma {:induction false} MapAdjustTotal(ps: seq<Product>, id: string, delta: int)
    ensures TotalQuantity(MapAdjust(ps, id, delta)) == TotalQuantity(ps) + delta * CountId(ps, id)
  {
    if |ps| > 0 {
      MapAdjustTail(ps, id, delta);
      MapAdjustTotal(ps[1..], id, delta);
      var c := CountId(ps[1..], id);
      if ps[0].id == id {
        assert delta * (1 + c) == delta + delta * c;
      }
    }
  }

  /** Filtering a single line keeps it exactly when it is positive. */
  lemma KeepPositiveSingle(x: Product)
    ensures KeepPositive([x]) == if x.quantity > 0 then [x] else []
  {
  }

  /** Around one line, the filter keeps positive neighbours as they are. */
  lemma KeepPositiveAround(before: seq<Product>, x: Product, after: seq<Product>)
    requires AllPositive(before) && AllPositive(after)
    ensures KeepPositive(before + [x] + after) == before + KeepPositive([x]) + after
  {
    KeepPositiveAppend(before + [x], after);
    KeepPositiveAppend(before, [x]);
    KeepPositiveIdentity(before);
    KeepPositiveIdentity(after);
  }

  /**
   Filtering a positive list in which one line was replaced keeps the new line
   in place when it is positive and drops it otherwise.
   */
  lemma KeepPositiveReplace(ps: seq<Product>, k: int, x: Product)
    requires AllPositive(ps)
    requires 0 <= k < |ps|
    ensures KeepPositive(ps[k := x]) == if x.quantity > 0 then ps[k := x] else ps[..k] + ps[k + 1..]
  {
    var before, after := ps[..k], ps[k + 1..];
    assert AllPositive(before) by {
      assert forall i :: 0 <= i < k ==> before[i] == ps[i];
    }
    assert AllPositive(after) by {
      assert forall i :: 0 <= i < |after| ==> after[i] == ps[k + 1 + i];
    }
    assert ps[k := x] == before + [x] + after;
    KeepPositiveAround(before, x, after);
    KeepPositiveSingle(x);
  }

  /** On a list with unique ids, the map changes at most the one line found by `FindIndex`. */
  lemma MapAdjustAt(ps: seq<Product>, id: string, delta: int)
    requires UniqueIds(ps)
    ensures FindIndex(ps, id) == -1 ==> MapAdjust(ps, id, delta) == ps
    ensures FindIndex(ps, id) >= 0 ==>
              var k := FindIndex(ps, id);
              MapAdjust(ps, id, delta) == ps[k := ps[k].(quantity := ps[k].quantity + delta)]
  {
  }

  // ---------------------------------------------------------------------------
  // Subsequences
  // ---------------------------------------------------------------------------

  /** Every element of a subsequence is an element of the whole. */
  lemma {:induction false} SubsequenceMembers(a: seq<Product>, b: seq<Product>)
    requires IsSubsequence(a, b)
    ensures forall i :: 0 <= i < |a| ==> a[i] in b
    decreases |b|
  {
    if |a| > 0 {
      if a[0] == b[0] && IsSubsequence(a[1..], b[1..]) {
        SubsequenceMembers(a[1..], b[1..]);
        assert forall i :: 0 < i < |a| ==> a[i] == a[1..][i - 1];
      } else {
        SubsequenceMembers(a, b[1..]);
      }
    }
  }

  /** A subsequence of a list with unique ids has unique ids. */
  lemma {:induction false} SubsequenceUniqueIds(a: seq<Product>, b: seq<Product>)
    requires IsSubsequence(a, b)
    requires UniqueIds(b)
    ensures UniqueIds(a)
    decreases |b|
  {
    if |a| > 0 {
      assert UniqueIds(b[1..]);
      if a[0] == b[0] && IsSubsequence(a[1..], b[1..]) {
        SubsequenceUniqueIds(a[1..], b[1..]);
        SubsequenceMembers(a[1..], b[1..]);
        forall i, j | 0 <= i < j < |a| ensures a[i].id != a[j].id {
          assert a[j] == a[1..][j - 1];
          var m :| 0 <= m < |b[1..]| && b[1..][m] == a[j];
          if i == 0 {
            assert b[0].id != b[m + 1].id;
          } else {
            assert a[i] == a[1..][i - 1];
          }
        }
      } else {
        SubsequenceUniqueIds(a, b[1..]);
      }
    }
  }

  // ---------------------------------------------------------------------------
  // The cart invariant
  // ---------------------------------------------------------------------------

  /** `addToCart` keeps ids unique and quantities positive. */
  lemma AddToCartKeepsValid(ps: seq<Product>, item: Candidate)
    requires Valid(ps)
    ensures Valid(AddToCart(ps, item))
  {
  }

  /** `increment` keeps ids unique and quantities positive. */
  lemma IncrementKeepsValid(ps: seq<Product>, id: string)
    requires Valid(ps)
    ensures Valid(Increment(ps, id))
  {
  }

  /** `decrement` keeps ids unique, whatever the quantities were. */
  lemma DecrementKeepsUniqueIds(ps: seq<Product>, id: string)
    requires UniqueIds(ps)
    ensures UniqueIds(Decrement(ps, id))
  {
    var m := MapAdjust(ps, id, -1);
    assert forall i :: 0 <= i < |m| ==> m[i].id == ps[i].id;
    DecrementKeepsOrder(ps, id);
    SubsequenceUniqueIds(Decrement(ps, id), m);
  }

  /** `decrement` keeps ids unique and quantities positive. */
  lemma DecrementKeepsValid(ps: seq<Product>, id: string)
    requires Valid(ps)
    ensures Valid(Decrement(ps, id))
  {
    DecrementKeepsUniqueIds(ps, id);
  }

  /** On a cart with unique ids, a given id occurs on at most one line. */
  lemma {:induction false} UniqueIdsCount(ps: seq<Product>, id: string)
    requires UniqueIds(ps)
    ensures CountId(ps, id) == if HasId(ps, id) then 1 else 0
  {
    if |ps| > 0 {
      assert UniqueIds(ps[1..]);
      UniqueIdsCount(ps[1..], id);
      if ps[0].id == id {
        assert !HasId(ps[1..], id);
      } else {
        assert HasId(ps, id) <==> HasId(ps[1..], id) by {
          if HasId(ps, id) {
            var i :| 0 <= i < |ps| && ps[i].id == id;
            assert ps[1..][i - 1] == ps[i];
          }
        }
      }
    }
  }

  /** A present id is counted at least once. */
  lemma {:induction false} HasIdCount(ps: seq<Product>, id: string)
    requires HasId(ps, id)
    ensures CountId(ps, id) >= 1
  {
    if ps[0].id != id {
      var i :| 0 <= i < |ps| && ps[i].id == id;
      assert ps[1..][i - 1] == ps[i];
      HasIdCount(ps[1..], id);
    }
  }

  // ---------------------------------------------------------------------------
  // Exact behaviour on a valid cart
  // ---------------------------------------------------------------------------

  /**
   On a cart with unique ids, `increment` raises the one matching line by one
   in place, or returns the cart unchanged when no line matches.
   */
  lemma IncrementAt(ps: seq<Product>, id: string)
    requires UniqueIds(ps)
    ensures var k := FindIndex(ps, id);
            Increment(ps, id) == if k == -1 then ps else ps[k := ps[k].(quantity := ps[k].quantity + 1)]
  {
  }

  /**
   On a valid cart, `decrement` returns the cart unchanged when no line
   matches, removes the matching line when its quantity is 1, and otherwise
   lowers it by one in place.
   */
  lemma DecrementCases(ps: seq<Product>, id: string)
    requires Valid(ps)
    ensures var k := FindIndex(ps, id);
            Decrement(ps, id) ==
              if k == -1 then ps
              else if ps[k].quantity == 1 then ps[..k] + ps[k + 1..]
              else ps[k := ps[k].(quantity := ps[k].quantity - 1)]
  {
    var k := FindIndex(ps, id);
    MapAdjustAt(ps, id, -1);
    if k == -1 {
      KeepPositiveIdentity(ps);
    } else {
      KeepPositiveReplace(ps, k, ps[k].(quantity := ps[k].quantity - 1));
    }
  }

  /** On a cart with positive quantities, `decrement` undoes `increment`. */
  lemma DecrementUndoesIncrement(ps: seq<Product>, id: string)
    requires AllPositive(ps)
    ensures Decrement(Increment(ps, id), id) == ps
  {
    MapAdjustInverse(ps, id);
    KeepPositiveIdentity(ps);
  }

  /** Mapping -1 over the lines `increment` raised restores them. */
  lemma MapAdjustInverse(ps: seq<Product>, id: string)
    ensures MapAdjust(MapAdjust(ps, id, 1), id, -1) == ps
  {
  }

  /** `increment` adds one unit to the total for every matching line. */
  lemma IncrementTotal(ps: seq<Product>, id: string)
    ensures TotalQuantity(Increment(ps, id)) == TotalQuantity(ps) + CountId(ps, id)
  {
    MapAdjustTotal(ps, id, 1);
  }

  /**
   On a cart with positive quantities, `decrement` removes one unit from the
   total for every matching line: the lines it drops had reached zero.
   */
  lemma DecrementTotal(ps: seq<Product>, id: string)
    requires AllPositive(ps)
    ensures TotalQuantity(Decrement(ps, id)) == TotalQuantity(ps) - CountId(ps, id)
  {
    var m := MapAdjust(ps, id, -1);
    MapAdjustTotal(ps, id, -1);
    assert forall i :: 0 <= i < |m| ==> m[i].quantity >= 0;
    KeepPositiveTotal(m);
  }

  /** `increment` changes the list exactly when some line carries the id. */
  lemma IncrementChangesIff(ps: seq<Product>, id: string)
    ensures HasId(ps, id) <==> Increment(ps, id) != ps
  {
  }

  /**
   On a cart with positive quantities, `decrement` changes the list exactly
   when some line carries the id.
   */
  lemma DecrementChangesIff(ps: seq<Product>, id: string)
    ensures AllPositive(ps) ==> (HasId(ps, id) <==> Decrement(ps, id) != ps)
  {
    if AllPositive(ps) {
      if HasId(ps, id) {
        DecrementTotal(ps, id);
        HasIdCount(ps, id);
      } else {
        assert MapAdjust(ps, id, -1) == ps;
        KeepPositiveIdentity(ps);
      }
    }
  }

  /** On a one-line cart, `increment` and `decrement` of that line move its quantity by one. */
  lemma SingleLine(p: Product)
    ensures Increment([p], p.id) == [p.(quantity := p.quantity + 1)]
    ensures p.quantity > 1 ==> Decrement([p], p.id) == [p.(quantity := p.quantity - 1)]
    ensures p.quantity == 1 ==> Decrement([p], p.id) == []
  {
    var m := MapAdjust([p], p.id, -1);
    assert m == [p.(quantity := p.quantity - 1)];
    assert m[1..] == [];
    assert KeepPositive(m[1..]) == [];
    assert Decrement([p], p.id) == KeepPositive(m);
  }

  /**
   On a valid cart the total quantity moves by exactly one unit when the id is
   present, and not at all when it is absent.
   */
  lemma TotalStepOnValidCart(ps: seq<Product>, id: string)
    requires Valid(ps)
    ensures TotalQuantity(Increment(ps, id)) == TotalQuantity(ps) + (if HasId(ps, id) then 1 else 0)
    ensures TotalQuantity(Decrement(ps, id)) == TotalQuantity(ps) - (if HasId(ps, id) then 1 else 0)
  {
    UniqueIdsCount(ps, id);
    IncrementTotal(ps, id);
    DecrementTotal(ps, id);
  }

  /** `addToCart` only adds the first time: a second call with the same item changes nothing. */
  lemma AddToCartIdempotent(ps: seq<Product>, item: Candidate)
    ensures AddToCart(AddToCart(ps, item), item) == AddToCart(ps, item)
  {
  }

  /**
   Adding a new item, incrementing it and decrementing it twice brings a valid
   cart back to where it started: the item goes 1, 2, 1 and is then removed.
   */
  lemma AddIncrementDecrementTwice(ps: seq<Product>, item: Candidate)
    requires Valid(ps)
    requires !HasId(ps, item.id)
    ensures var a := AddToCart(ps, item);
            var b := Increment(a, item.id);
            var c := Decrement(b, item.id);
            && b[|ps|].quantity == 2
            && c == a
            && c[|ps|].quantity == 1
            && Decrement(c, item.id) == ps
  {
    var a := AddToCart(ps, item);
    assert Increment(a, item.id)[|ps|].quantity == 2;
    DecrementUndoesIncrement(a, item.id);
    DecrementAfterAdd(ps, item);
  }

  /** Decrementing a line just added removes it again. */
  lemma DecrementAfterAdd(ps: seq<Product>, item: Candidate)
    requires Valid(ps)
    requires !HasId(ps, item.id)
    ensures Decrement(AddToCart(ps, item), item.id) == ps
  {
    var a := AddToCart(ps, item);
    var n := |ps|;
    AddToCartKeepsValid(ps, item);
    assert FindIndex(a, item.id) == n by {
      assert a[n].id == item.id;
    }
    DecrementCases(a, item.id);
    assert a[..n] + a[n + 1..] == ps;
  }
}
