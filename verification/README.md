# Shopping-cart line items, modelled in Dafny

This project models the cart logic of `CartProvider` in `src/hooks/cart.tsx`.
The store keeps an ordered list of cart lines (`Product`: id, title, image URL,
price, quantity). It mirrors that list into one storage slot, `productsInCart`,
and offers three operations:

- `addToCart` appends a new product with quantity 1, but only when its id is absent.
- `increment` adds one unit to the lines with the given id.
- `decrement` removes one unit from the lines with the given id. It then drops every line whose quantity is not positive.

Without React and AsyncStorage, these are pure functions on a sequence of lines
(module `Lines`). The store itself is a two-field state `(products, persisted)`
(module `Store`).

The model keeps the stale write exactly as the code has it. Each operation that
writes stores the list from *before* the update, because the callback writes the
`products` it captured rather than the list it has just given to `setProducts`.
After such a call, a restart therefore loses the call's effect
(`Store.RestartLosesLastWrite`).

Modules:

- `Items` (`items.dfy`): the `Product` and `Candidate` records, `FindIndex`, and the predicates the contracts use. The predicates are unique ids, all quantities positive, "is a subsequence of", total quantity and count of an id.
- `Lines` (`lines.dfy`): `AddToCart`, `Increment`, `Decrement`, and the `map` and `filter` steps they are built from.
- `LinesProps` (`lines_props.dfy`): these lemmas state:
  - the invariant is preserved;
  - on a valid cart, `Increment` and `Decrement` behave exactly as characterised;
  - `Decrement` undoes `Increment`;
  - totals move by one unit per matching line;
  - `AddToCart` is idempotent.
- `Store` (`store.dfy`): the `(products, persisted)` state machine, hydration from the slot, runs of calls, and the stale-write properties.

Three points about the code that the model follows exactly:

- Each call that writes stores the list it captured before the update, not the list it passes to `setProducts`. The model does the same.
- The filter in `decrement` runs over the whole list. It therefore also drops a *non-matching* line whose quantity is not positive. Such a line can only come from a stored list that was loaded without validation. `Lines.Decrement` guarantees only that non-matching lines with a positive quantity survive.
- An unparsable stored value makes `JSON.parse` throw inside the asynchronous load. The list then stays at its initial `[]`, which gives the same result as an absent slot.

## Model

| member | source | states |
|---|---|---|
| Items.FindIndex | src/hooks/cart.tsx:42 | `findIndex` by id returns -1 exactly when no line carries the id; otherwise it returns the first line that does |
| Lines.AddToCart | src/hooks/cart.tsx:42-43 | when the id is absent, the result is the old list with exactly one line appended at the end; that line carries the candidate's fields and quantity 1. When the id is present, the list is returned unchanged |
| Lines.Increment | src/hooks/cart.tsx:53-59 | keeps the length and the payload of every line; every matching line gains exactly one unit; every other line is identical; with no match, the list is identical |
| Lines.KeepPositive | src/hooks/cart.tsx:77 | the filter leaves no line with quantity <= 0, keeps every positive line, and adds nothing |
| Lines.KeepPositiveKeepsOrder | src/hooks/cart.tsx:77 | the filter's result is a subsequence of its input, so survivors keep their relative order |
| Lines.Decrement | src/hooks/cart.tsx:69-77 | no resulting line has quantity <= 0. Non-matching lines with positive quantity survive unchanged. A matching line above 1 survives one unit lower. Every surviving line is an input line, or a matching input line one unit lower |
| Lines.DecrementKeepsOrder | src/hooks/cart.tsx:69-77 | the lines `decrement` keeps appear in their original relative order |
| Lines.TraceThroughFilter | src/hooks/cart.tsx:69-77 | after `map`, the filter keeps or drops each line according to the line's quantity in the input |
| LinesProps.KeepPositiveIdentity | src/hooks/cart.tsx:77 | on a list whose quantities are all positive, the filter changes nothing |
| LinesProps.KeepPositiveAppend | src/hooks/cart.tsx:77 | filtering a concatenation gives the concatenation of the filtered parts |
| LinesProps.KeepPositiveSingle | src/hooks/cart.tsx:77 | the filter keeps a single line exactly when its quantity is positive |
| LinesProps.KeepPositiveAround | src/hooks/cart.tsx:77 | around one line, the filter keeps neighbours with positive quantities as they are |
| LinesProps.KeepPositiveReplace | src/hooks/cart.tsx:77 | in a positive list with one line replaced, the filter keeps the new line in place if it is positive and removes it otherwise |
| LinesProps.KeepPositiveTotal | src/hooks/cart.tsx:77 | with no negative quantities, the filter keeps the total quantity |
| LinesProps.MapAdjustTotal | src/hooks/cart.tsx:53-59 | the `map` step moves the total by delta for each matching line |
| LinesProps.MapAdjustAt | src/hooks/cart.tsx:53-59 | with unique ids, the `map` step changes at most the one line found by `findIndex` |
| LinesProps.SubsequenceMembers | src/hooks/cart.tsx:77 | every line of a subsequence is a line of the whole |
| LinesProps.SubsequenceUniqueIds | src/hooks/cart.tsx:77 | a subsequence of a list with unique ids has unique ids |
| LinesProps.AddToCartKeepsValid | src/hooks/cart.tsx:42-43 | `addToCart` preserves both unique ids and quantities >= 1 |
| LinesProps.IncrementKeepsValid | src/hooks/cart.tsx:53-59 | `increment` preserves both unique ids and quantities >= 1 |
| LinesProps.DecrementKeepsUniqueIds | src/hooks/cart.tsx:69-77 | `decrement` preserves unique ids, whatever the quantities |
| LinesProps.DecrementKeepsValid | src/hooks/cart.tsx:69-77 | `decrement` preserves both unique ids and quantities >= 1 |
| LinesProps.UniqueIdsCount | src/hooks/cart.tsx:42-43 | with unique ids, an id occurs on one line if present and on none otherwise |
| LinesProps.HasIdCount | src/hooks/cart.tsx:42 | a present id is counted at least once |
| LinesProps.IncrementAt | src/hooks/cart.tsx:53-59 | with unique ids, `increment` raises the line found by `findIndex` by one in place; with no match, the cart is identical |
| LinesProps.DecrementCases | src/hooks/cart.tsx:69-77 | on a valid cart: an absent id leaves the list identical; a line with quantity 1 is removed and the others keep their order; a line with quantity k > 1 becomes k-1 in place |
| LinesProps.DecrementUndoesIncrement | src/hooks/cart.tsx:53-77 | on a cart with positive quantities, `decrement` after `increment` of the same id gives back the original list |
| LinesProps.MapAdjustInverse | src/hooks/cart.tsx:53-76 | mapping -1 over the lines that the +1 `map` raised restores the original list |
| LinesProps.IncrementTotal | src/hooks/cart.tsx:53-59 | `increment` adds one unit to the total for each matching line |
| LinesProps.DecrementTotal | src/hooks/cart.tsx:69-77 | on a cart with positive quantities, `decrement` removes one unit from the total for each matching line |
| LinesProps.TotalStepOnValidCart | src/hooks/cart.tsx:53-77 | on a valid cart, `increment` raises the total by exactly 1 and `decrement` lowers it by exactly 1 when the id is present; both leave it unchanged when the id is absent |
| LinesProps.IncrementChangesIff | src/hooks/cart.tsx:53-59 | `increment` changes the list if and only if some line carries the id |
| LinesProps.DecrementChangesIff | src/hooks/cart.tsx:69-77 | on a cart with positive quantities, `decrement` changes the list if and only if some line carries the id |
| LinesProps.SingleLine | src/hooks/cart.tsx:53-77 | on a one-line cart, `increment` and `decrement` move that line's quantity by one, and `decrement` removes it at quantity 1 |
| LinesProps.AddToCartIdempotent | src/hooks/cart.tsx:42-45 | adding the same item twice gives the same list as adding it once |
| LinesProps.AddIncrementDecrementTwice | src/hooks/cart.tsx:40-82 | a new item goes to quantity 1, then 2, then 1, and is then removed, bringing a valid cart back to where it started |
| LinesProps.DecrementAfterAdd | src/hooks/cart.tsx:40-82 | on a valid cart, decrementing a line just added removes it and gives back the original cart |
| Store.Load | src/hooks/cart.tsx:29-38 | loading never writes the slot; the list in memory agrees with the slot exactly when the slot held a list; an absent or unreadable slot gives the empty list |
| Store.LoadRoundTrip | src/hooks/cart.tsx:33-34 | a state whose slot holds its own list is exactly what loading that slot gives back, and loading twice is the same as loading once |
| Store.AddToCart | src/hooks/cart.tsx:40-48 | an id already present changes neither the list nor the slot; a new id updates the list and writes the OLD list, which then differs from the new one |
| Store.Increment | src/hooks/cart.tsx:50-64 | the slot receives the OLD list; it differs from the new list if and only if some line matched |
| Store.Decrement | src/hooks/cart.tsx:66-82 | the slot receives the OLD list; on a cart with positive quantities, it differs from the new list if and only if some line matched |
| Store.LoadValid | src/hooks/cart.tsx:33-34 | loading a valid stored list, or none, gives a state satisfying the cart invariant |
| Store.ApplyKeepsValid | src/hooks/cart.tsx:40-82 | each of the three calls keeps both the list and the stored list valid |
| Store.RunKeepsValid | src/hooks/cart.tsx:40-82 | any sequence of calls keeps both the list and the stored list valid |
| Store.RestartLosesLastWrite | src/hooks/cart.tsx:40-82 | after a call that writes, the slot holds the pre-call list, so a restart brings back the list from before that call |
| Store.WriteFlagAt | src/hooks/cart.tsx:42-45 | the per-call write flag is true exactly for the calls that write: all of them except an `addToCart` of an id already present |
| Store.LastWrite | src/hooks/cart.tsx:40-82 | picks the last call of a run that wrote, or -1; the call it picks does write |
| Store.NoWriteAfterLastWrite | src/hooks/cart.tsx:42-45 | no call after the one `LastWrite` picks writes to storage |
| Store.PersistedIsLastWrite | src/hooks/cart.tsx:40-82 | after any run, the slot holds its starting value if no call wrote; otherwise it holds the list from just before the last call that wrote, not the list that call produced (cart.tsx lines 44, 61 and 79) |
| Store.ShirtScenario | src/hooks/cart.tsx:40-82 | from an empty store, add "p1", increment twice, then decrement three times: the quantity goes 1, 3, 1 and the list ends empty, while the slot still holds the one-line list |

## Left out

- AsyncStorage and its timing. The model omits the asynchronous `getItem`/`setItem` calls, the order in which writes complete, and the possibility that the initial load resolves after a mutation and overwrites it. The slot is a plain state field that each write sets at once.
- JSON encoding. The model omits `JSON.parse` and `JSON.stringify`. `Store.Slot` records only the outcome of a read: nothing (a missing key or an empty string, both read as `'[]'`), unparsable text, or a list of lines. The loaded list is not validated, so the invariant holds after a load only when the stored list satisfies it (`Store.LoadValid`).
- React plumbing. The model omits `createContext`, `useState`, `useEffect`, `useCallback`, `useMemo`, the provider element and re-rendering. In the model, each call works on the list produced by the previous call. In the code, two calls made before React re-renders both read the same captured `products`. The second `setProducts` then overwrites the first, and the first update is lost. `Store.Run` cannot show this lost update.
- `useCart` throwing outside a provider. This is a scope check on the React context, not cart logic.
- `price` as a JavaScript double. Nothing computes on it, so it is an unbounded `real` and is only copied.
- Quantity as a JavaScript number. Quantities are unbounded integers, so the loss of precision above 2^53 is not modelled.
- Object spread. `{ ...item, quantity: 1 }` would also copy any extra fields of the caller's object. `Candidate` has exactly the four declared fields.
- Store.Decrement: states "the slot differs from the new list if and only if some line matched" only for carts whose quantities are all positive. From an unvalidated stored list, a decrement of an absent id can still drop a non-positive line.
