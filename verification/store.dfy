/**
 `CartProvider` (src/hooks/cart.tsx) as a state machine over two fields: the
 in-memory list of lines and the value of the single storage slot
 `productsInCart`. Every operation that writes stores the list as it was
 BEFORE the update, because the write reads the `products` captured by the
 callback rather than the list just handed to `setProducts`.
 */
module Store {
  import opened Items
  import Lines
  import LinesProps

  /**
   What the storage slot holds: nothing (or an empty string), text that does
   not parse, or a serialised list of lines.
   */
  datatype Slot = Absent | Unreadable | Saved(items: seq<Product>)

  /** The provider's state: the current list and the value last written to storage. */
  datatype State = State(products: seq<Product>, persisted: Slot)

  /** The list a slot hydrates to. */
  function Hydrated(slot: Slot): seq<Product> {
    if slot.Saved? then slot.items else []
  }

  /**
   Startup: the list starts empty and is replaced by the stored list. A missing
   slot reads as `'[]'`; unparsable text makes the load fail, so the list stays
   at its empty initial value. The slot itself is not touched, and the list in
   memory agrees with it exactly when the slot held a list.
   */
  function Load(slot: Slot): (s: State)
    ensures s.persisted == slot
    ensures slot.Saved? <==> s.persisted == Saved(s.products)
    ensures !slot.Saved? ==> s.products == []
  {
    State(Hydrated(slot), slot)
  }

  /**
   Saving and loading round-trip: a state whose slot holds its own list is
   exactly what loading that slot produces, and loading is idempotent.
   */
  lemma LoadRoundTrip(t: State, slot: Slot)
    ensures t.persisted == Saved(t.products) ==> Load(t.persisted) == t
    ensures Load(Load(slot).persisted) == Load(slot)
  {
  }

  /**
   `addToCart`: a new id is appended and the OLD list is written; an id
   already present changes neither the list nor the slot.
   */
  function AddToCart(s: State, item: Candidate): (r: State)
    ensures HasId(s.products, item.id) ==> r == s
    ensures !HasId(s.products, item.id) ==>
              && r.products == Lines.AddToCart(s.products, item)
              && r.persisted == Saved(s.products)
              && r.persisted != Saved(r.products)
  {
    if FindIndex(s.products, item.id) == -1 then
      State(Lines.AddToCart(s.products, item), Saved(s.products))
    else
      s
  }

  /**
   `increment`: the slot always receives the OLD list, so it lags behind the
   new list exactly when some line matched.
   */
  function Increment(s: State, id: string): (r: State)
    ensures r.products == Lines.Increment(s.products, id)
    ensures r.persisted == Saved(s.products)
    ensures HasId(s.products, id) <==> r.persisted != Saved(r.products)
  {
    LinesProps.IncrementChangesIff(s.products, id);
    State(Lines.Increment(s.products, id), Saved(s.products))
  }

  /**
   `decrement`: the slot always receives the OLD list; on a cart whose
   quantities are positive it lags behind the new list exactly when some line
   matched.
   */
  function Decrement(s: State, id: string): (r: State)
    ensures r.products == Lines.Decrement(s.products, id)
    ensures r.persisted == Saved(s.products)
    ensures AllPositive(s.products) ==> (HasId(s.products, id) <==> r.persisted != Saved(r.products))
  {
    LinesProps.DecrementChangesIff(s.products, id);
    State(Lines.Decrement(s.products, id), Saved(s.products))
  }

  /** A call a UI component can make through the cart context. */
  datatype Op = AddOp(item: Candidate) | IncrementOp(id: string) | DecrementOp(id: string)

  function Apply(s: State, op: Op): State {
    match op
    case AddOp(item) => AddToCart(s, item)
    case IncrementOp(id) => Increment(s, id)
    case DecrementOp(id) => Decrement(s, id)
  }

  /** The state after the calls `ops`, made one after another from `s`. */
  function Run(s: State, ops: seq<Op>): State
    decreases |ops|
  {
    if |ops| == 0 then s else Apply(Run(s, ops[..|ops| - 1]), ops[|ops| - 1])
  }

  /** Both the list and the stored list satisfy the cart invariant. */
  predicate ValidState(s: State) {
    Valid(s.products) && (s.persisted.Saved? ==> Valid(s.persisted.items))
  }

  /** Loading a slot that holds a valid list, or none, gives a valid state. */
  lemma LoadValid(slot: Slot)
    requires slot.Saved? ==> Valid(slot.items)
    ensures ValidState(Load(slot))
  {
  }

  /** Every call keeps the list and the stored list valid. */
  lemma ApplyKeepsValid(s: State, op: Op)
    requires ValidState(s)
    ensures ValidState(Apply(s, op))
  {
    match op
    case AddOp(item) => LinesProps.AddToCartKeepsValid(s.products, item);
    case IncrementOp(id) => LinesProps.IncrementKeepsValid(s.products, id);
    case DecrementOp(id) => LinesProps.DecrementKeepsValid(s.products, id);
  }

  /** Any sequence of calls keeps the list and the stored list valid. */
  lemma {:induction false} RunKeepsValid(s: State, ops: seq<Op>)
    requires ValidState(s)
    ensures ValidState(Run(s, ops))
    decreases |ops|
  {
    if |ops| > 0 {
      RunKeepsValid(s, ops[..|ops| - 1]);
      ApplyKeepsValid(Run(s, ops[..|ops| - 1]), ops[|ops| - 1]);
    }
  }

  /** Whether a call writes to storage: all do, except adding an id already present. */
  predicate Writes(s: State, op: Op) {
    !(op.AddOp? && HasId(s.products, op.item.id))
  }

  /**
   The stale write: after a call that writes, restarting from storage gives
   back the list from before that call, so its effect is lost.
   */
  lemma RestartLosesLastWrite(s: State, op: Op)
    requires Writes(s, op)
    ensures Apply(s, op).persisted == Saved(s.products)
    ensures Load(Apply(s, op).persisted).products == s.products
  {
  }

  /** Whether the call `ops[m]` writes, made after the calls before it. */
  predicate WritesAt(s: State, ops: seq<Op>, m: int)
    requires 0 <= m < |ops|
  {
    Writes(Run(s, ops[..m]), ops[m])
  }

  /** Dropping later calls does not change whether an earlier call writes. */
  lemma WritesAtPrefix(s: State, ops: seq<Op>, n: int, m: int)
    requires 0 <= m < n <= |ops|
    ensures WritesAt(s, ops[..n], m) == WritesAt(s, ops, m)
  {
    assert ops[..n][..m] == ops[..m];
  }

  /** For each call of `ops`, whether it writes to storage. */
  function WriteFlags(s: State, ops: seq<Op>): (w: seq<bool>)
    ensures |w| == |ops|
    decreases |ops|
  {
    if |ops| == 0 then []
    else
      var n := |ops| - 1;
      WriteFlags(s, ops[..n]) + [WritesAt(s, ops, n)]
  }

  /** The flag of call `m` is whether that call writes. */
  lemma {:induction false} WriteFlagAt(s: State, ops: seq<Op>, m: int)
    requires 0 <= m < |ops|
    ensures WriteFlags(s, ops)[m] == WritesAt(s, ops, m)
    decreases |ops|
  {
    var n := |ops| - 1;
    if m < n {
      WriteFlagAt(s, ops[..n], m);
      WritesAtPrefix(s, ops, n, m);
    }
  }

  /** The index of the last true flag, or -1 when there is none. */
  function LastTrue(w: seq<bool>): (k: int)
    ensures -1 <= k < |w|
    ensures k >= 0 ==> w[k]
    ensures forall m :: k < m < |w| ==> !w[m]
  {
    if |w| == 0 then -1
    else if w[|w| - 1] then |w| - 1
    else LastTrue(w[..|w| - 1])
  }

  /**
   The index of the last call in `ops` that wrote to storage, or -1 when
   none of them did.
   */
  function LastWrite(s: State, ops: seq<Op>): (k: int)
    ensures -1 <= k < |ops|
    ensures k >= 0 ==> WritesAt(s, ops, k)
    ensures forall m :: k < m < |ops| ==> !WriteFlags(s, ops)[m]
  {
    var k := LastTrue(WriteFlags(s, ops));
    if k >= 0 then WriteFlagAt(s, ops, k); k else k
  }

  /**
   After any run, the slot holds what it held at the start when no call wrote,
   and otherwise the list from just before the LAST call that wrote; never the
   list that call produced.
   */
  lemma {:induction false} PersistedIsLastWrite(s: State, ops: seq<Op>)
    ensures LastWrite(s, ops) == -1 ==> Run(s, ops).persisted == s.persisted
    ensures LastWrite(s, ops) >= 0 ==>
              Run(s, ops).persisted == Saved(Run(s, ops[..LastWrite(s, ops)]).products)
    decreases |ops|
  {
    if |ops| > 0 {
      var n := |ops| - 1;
      var prev := ops[..n];
      var flags := WriteFlags(s, prev);
      assert WriteFlags(s, ops) == flags + [WritesAt(s, ops, n)];
      if !WritesAt(s, ops, n) {
        assert (flags + [false])[..n] == flags;
        PersistedIsLastWrite(s, prev);
        var k := LastWrite(s, prev);
        if k >= 0 {
          assert prev[..k] == ops[..k];
        }
      }
    }
  }

  /** No call after the last write writes to storage. */
  lemma NoWriteAfterLastWrite(s: State, ops: seq<Op>)
    ensures forall m :: LastWrite(s, ops) < m < |ops| ==> !WritesAt(s, ops, m)
  {
    forall m | LastWrite(s, ops) < m < |ops|
      ensures !WritesAt(s, ops, m)
    {
      WriteFlagAt(s, ops, m);
    }
  }

  /**
   The walk-through of a single item from an empty store: add, increment
   twice, decrement three times. The list ends empty while the slot still
   holds the one-line list from before the last decrement.
   */
  lemma ShirtScenario()
    ensures var shirt := Candidate("p1", "Shirt", "u", 10.0);
            var s0 := Load(Absent);
            var s1 := AddToCart(s0, shirt);
            var s2 := Increment(s1, "p1");
            var s3 := Increment(s2, "p1");
            var s4 := Decrement(s3, "p1");
            var s5 := Decrement(s4, "p1");
            var s6 := Decrement(s5, "p1");
            && s1.products == [Product("p1", "Shirt", "u", 10.0, 1)]
            && s3.products == [Product("p1", "Shirt", "u", 10.0, 3)]
            && s5.products == [Product("p1", "Shirt", "u", 10.0, 1)]
            && s6.products == []
            && s6.persisted == Saved([Product("p1", "Shirt", "u", 10.0, 1)])
  {
  }
}
