# Catalog store

This project is a Dafny model of the product-catalog component in `src/App.jsx`, with the React and MUI rendering removed. What is left is a small state machine, and the model keeps all of its state:

- `products`, the working snapshot;
- `editPrice`, the draft overlay, a map from item id to price;
- `categories`, a plain object from category name to an "expanded" flag, whose keys keep their insertion order;
- `sortOrder`, the direction of the next sort;
- `originalProducts.current`, the origin snapshot;
- the two session-storage slots, `"originalProducts"` and `"currentProducts"`.

The model is organised in layers:

- `Items`, `Drafts`, `Categories`, `Sorting` and `Rows` define the data and the pure derivations. These are the overlay folds, the category index, the price comparator with an insertion sort, and the visible-rows projection of the render.
- `Session` gives every handler as a pure transition on a `State` value. This is the specification. The lemmas about runs of actions are proved here.
- `Store.CatalogStore` is the component as an object. Its fields are updated in place by one method per handler. Each method's result is proved equal to the `Session` transition applied to the old state. The `forEach` loops that build the overlay and the category index, and the in-place sort of the copied array, are loops with invariants.

A plain JavaScript object is modelled as a list of distinct keys, for the category index, or as a `map`, for the overlay. A key the object does not hold reads as `undefined`, which is falsy; names the object inherits from `Object.prototype` are the exception (see "## Left out").

## Model

| member | source | states |
|---|---|---|
| Session.Mounted | src/App.jsx:32-37 | the state on mount: empty snapshots, an empty overlay and index, ascending order, and storage as the session left it |
| Session.LoadOutcome | src/App.jsx:39-89 | the load restores from storage exactly when both slots are present: the working snapshot comes from the current slot, the origin from the original slot, and storage is untouched; otherwise a fetched list becomes both snapshots and is written to both slots; a failed fetch changes nothing; after a successful load, the overlay keys are the product ids, each id maps to its product's price when ids are distinct, and the category keys are the distinct categories in first-seen order, all collapsed |
| Session.Load | src/App.jsx:39-89 | the mount effect keeps every product id in the overlay and the category keys distinct; after a restore or a successful fetch the overlay keys are exactly the product ids and the category keys are the distinct categories in first-seen order, all collapsed |
| Store.CatalogStore.constructor | src/App.jsx:32-37 | the new object holds the mounted state |
| Store.CatalogStore.Load | src/App.jsx:39-89 | the mount effect, with the request's outcome as a parameter, leaves the fields equal to `Session.Load` of the old state and keeps the invariant |
| Drafts.BuildEditPrice | src/App.jsx:49-53 | the unguarded `forEach` builds exactly `PriceIndex` of the list, where a later id overwrites an earlier one |
| Drafts.BuildEditPriceGuarded | src/App.jsx:70-76 | the guarded `forEach`, which assigns only when the key is missing or holds 0, builds exactly `GuardedPriceIndex` of the list |
| Drafts.PriceIndexKeys | src/App.jsx:49-53 | the unguarded overlay's keys are exactly the ids of the list |
| Drafts.GuardedPriceIndexKeys | src/App.jsx:70-76 | the guarded overlay's keys are exactly the ids of the list |
| Drafts.PriceIndexMirrors | src/App.jsx:49-53 | with distinct ids, the overlay maps every id to its item's price |
| Drafts.GuardedAgrees | src/App.jsx:70-76 | with distinct ids the guard never skips an item, so both load branches build the same overlay |
| Categories.CategoryIndexOfFacts | src/App.jsx:54-60 | the index built on load has one key per distinct category, in first-seen order, with distinct keys and every flag false |
| Categories.BuildCategories | src/App.jsx:78-84 | the `forEach` that assigns `false` when the key is falsy builds exactly `CategoryIndexOf` of the list |
| Categories.FirstSeenFacts | src/App.jsx:54-60 | the first-seen list has exactly the input's names, each once, in order of first occurrence |
| Categories.Assign | src/App.jsx:93-96 | assigning a key keeps an existing key in place and appends a new one; that key reads the new value and every other key reads as before |
| Categories.AssignKeepsDistinct | src/App.jsx:93-96 | assigning keeps the keys of the object distinct |
| Categories.Toggle | src/App.jsx:91-97 | the named flag is negated, and an absent key comes in at the end as `true`; every other flag and the key order are unchanged; keys stay distinct |
| Session.Expand | src/App.jsx:91-97 | `handleExpand` negates one category flag and changes nothing else |
| Store.CatalogStore.HandleExpand | src/App.jsx:91-97 | the fields become `Session.Expand` of the old state and the invariant is kept |
| Session.Change | src/App.jsx:99-105 | `handleChange(id, v)` sets the draft for `id` to `v`, adding the key if it is new; every other draft and all other state are unchanged |
| Store.CatalogStore.HandleChange | src/App.jsx:99-105 | the fields become `Session.Change` of the old state and the invariant is kept |
| Drafts.ApplyDrafts | src/App.jsx:109-114 | committing the overlay keeps the length, the order and every field except the price; each price becomes the overlay's value for the item's id; the id set is kept and the overlay then mirrors the list |
| Drafts.ApplyDraftsIdempotent | src/App.jsx:109-114 | committing twice with the same overlay equals committing once |
| Session.Save | src/App.jsx:107-125 | `handleSave` commits the overlay to the working snapshot and writes that same list to the current slot; the overlay, index, order, origin and the original slot are unchanged |
| Session.ChangeThenSave | src/App.jsx:99-125 | a save right after editing one draft gives the products with that id the new price and every other product its existing draft |
| Store.CatalogStore.HandleSave | src/App.jsx:107-125 | the fields become `Session.Save` of the old state and the invariant is kept |
| Session.Reset | src/App.jsx:127-136 | `handleReset` makes the origin the working snapshot and writes it to the current slot; the overlay is rebuilt with exactly the origin's ids, mapping each to its price when ids are distinct; index, order and origin are unchanged |
| Store.CatalogStore.HandleReset | src/App.jsx:127-136 | the fields become `Session.Reset` of the old state and the invariant is kept |
| Session.ResetAfterFetchedLoad | src/App.jsx:61-136 | after a load that fetched a list with distinct ids, any sequence of actions followed by a reset gives back the products, the overlay and the storage the load left behind |
| Session.ResetAfterRestoredLoad | src/App.jsx:41-60 | after a load restored from storage, any later reset goes to the original slot's list |
| Sorting.Flip | src/App.jsx:141-147 | the direction always changes |
| Sorting.InsertPermutes | src/App.jsx:142 | inserting one item adds exactly one occurrence of it |
| Sorting.InsertSorted | src/App.jsx:142 | inserting into a list sorted for the comparator keeps it sorted |
| Sorting.InsertionSortCorrect | src/App.jsx:140-146 | the sort gives a permutation of its input, sorted for the comparator of the current direction |
| Sorting.InsertAt | src/App.jsx:142 | inserting after the last element that compares at most equal places the item at that position, and leaves the rest in order |
| Sorting.InsertInPlace | src/App.jsx:142 | one pass of the in-place sort shifts the greater elements of the sorted prefix up by one and drops the new element into the gap |
| Sorting.SortedCopy | src/App.jsx:140-146 | sorting a copy of the list in place gives exactly `InsertionSort` of the list |
| Session.Sort | src/App.jsx:138-149 | `handleSort` gives a permutation of the products, non-decreasing by price when ascending and non-increasing when descending, then flips the direction; nothing else changes, storage included |
| Session.SortTwice | src/App.jsx:138-149 | two sorts restore the direction and leave the products ordered for the other direction |
| Store.CatalogStore.HandleSort | src/App.jsx:138-149 | the fields become `Session.Sort` of the old state and the invariant is kept |
| Session.Step | src/App.jsx:91-149 | every handler keeps the overlay covering the products and the category keys distinct |
| Session.RunKeepsOrigin | src/App.jsx:91-149 | no handler changes the origin snapshot or any storage slot except the current one |
| Session.RunKeepsCategoryKeys | src/App.jsx:91-149 | the category keys stay as they were loaded unless a category that is not yet a key is expanded |
| Rows.InCategory | src/App.jsx:185-186 | the filter keeps exactly the products of the category, each as often as it occurs in the list |
| Rows.InCategoryOne | src/App.jsx:185-186 | a one-item list keeps its item exactly when the item is of the category |
| Rows.InCategoryAppend | src/App.jsx:185-186 | filtering a concatenation is the concatenation of the filtered parts, so the filter keeps list order |
| Rows.VisibleRows | src/App.jsx:168-206 | the rendered body has at least one row per category key, and every product row shows a listed product under an expanded entry of its category |
| Rows.VisibleRowsAppend | src/App.jsx:168 | the rows of the keys are rendered key after key, in key order |
| Rows.VisibleRowsOne | src/App.jsx:169-206 | one key renders its header, then, only when its flag is set, one row per product of that category in the order of `products` |
| Rows.HeadersInKeyOrder | src/App.jsx:168-182 | the rendered rows have one header per category key, in key order, with the key's flag |
| Rows.ShownIffExpanded | src/App.jsx:184-206 | a product row is shown exactly when the product is in the list and its category's flag is set |
| Session.WorkedExample | src/App.jsx:39-149 | a concrete sequence of steps: load two items, draft a new price, save, sort ascending, reset |
| Session.MountedAsWritten | src/App.jsx:37 | on mount the origin reference holds a plain object, and the rest of the state is the mounted state |
| Session.LoadAsWritten | src/App.jsx:39-89 | a restore or a successful fetch puts the loaded origin list in the reference; a failed fetch leaves the reference as it was; the state part is `Session.Load` |
| Session.ResetAsWritten | src/App.jsx:127-136 | the reset as written throws a TypeError exactly when the reference holds a plain object; by then `setProducts({})` is queued and the current slot holds `"{}"`, with the other slots kept; on a list that agrees with the origin it completes as `Session.Reset` |
| Session.ResetBeforeLoadThrows | src/App.jsx:37 | a reset pressed before the mount effect has stored a list throws |
| Session.ResetAfterFailedFetchThrows | src/App.jsx:37 | after a failed fetch with nothing restorable, the reference is still the plain object, and a reset writes `"{}"` to the current slot and throws |
| Session.ResetAfterLoadCompletes | src/App.jsx:41-89 | after a restore or a successful fetch, the reset as written completes and agrees with `Session.Reset` |
| Session.ResetAfterFailedFetch | src/App.jsx:127-136 | with the origin starting as the empty list, a reset after a failed fetch leaves the store empty and writes the empty list to the current slot |

## Left out

- The HTTP request made by `axios` and the `console.error` in its failure handler are not modelled. The request's outcome is a parameter of `Load` (`Fetched(list)` or `FetchFailed`).
- JSON serialisation in session storage is treated as an identity round trip. A slot holds the list itself.
- Every `sessionStorage.setItem` is assumed to succeed. A write can throw, for example when storage is full. At lines 68-69 the `.catch` at lines 86-88 would then swallow the error after `products` and the origin reference are set, leaving the overlay and the category index empty. At line 130 the error would escape `handleReset` after `setProducts` is queued. Neither case is modelled.
- Categories.CategoryIndexOf: treats every category name that is not yet a key as absent, so its guard reads false. In JavaScript, a name inherited from `Object.prototype`, such as `"constructor"`, `"toString"`, `"valueOf"`, `"hasOwnProperty"` or `"__proto__"`, reads the inherited member, which is truthy. So the guard at lines 56 and 80 never assigns such a category, `Object.keys` at line 168 leaves it out, and neither its header nor its products are rendered. The model keys such a category and renders it like any other. `Categories.Lookup` and `Categories.Toggle` share this simplification: for such a name, `!prev[c]` at line 95 is `false`, so the source stores `false` where the model stores `true`.
- Session.Mounted: starts the origin as the empty list, not the plain object that `useRef({})` at line 37 creates. So `Store.CatalogStore.HandleReset` on a store whose load failed, or has not run yet, performs the corrected reset: it writes `[]` where the source throws a TypeError. The source's behaviour is modelled separately, by `Session.MountedAsWritten`, `Session.LoadAsWritten` and `Session.ResetAsWritten` (see "## Findings").
- React mechanics are not modelled: `useState` batching, re-rendering and the effect scheduler. Each handler is one synchronous state update. `handleSave` reads `products` from its closure for the storage write and `prev` for the state update; run one at a time, the two are the same list, and the model uses that one list.
- JSX, MUI components, icons and `styles` are presentation. Only the projection of categories and products to rows is modelled.
- Prices and drafts are integers. Draft values in the browser arrive as strings from the text field, and the comparator subtracts JavaScript numbers (floats). Neither string drafts nor number coercion is modelled.
- The order of integer-like keys in a JavaScript object is not modelled. Such keys are listed numerically, before the other keys. The model keeps every category key in first-assignment order.
- The engine's own sort algorithm is replaced by an insertion sort under the same comparator, which puts each element behind the earlier ones that do not compare greater. `Sorting.InsertionSortCorrect` proves permutation and sortedness, but not stability: the model does not state that equal-priced items keep their relative order.
- Drafts.PriceIndexMirrors: the overlay is proved to map every id to its product's price only when ids are distinct. With duplicate ids, the restore branch keeps the last price and the fetch branch keeps the first non-zero one. The model defines both exactly, but proves no statement for that case beyond the key sets.
- Session.Save and Drafts.ApplyDrafts require every product id to be an overlay key. This holds in every reachable state (`Session.Step` keeps it). The case where a draft is missing, which in JavaScript would set the price to `undefined`, is not modelled.
- Reset does not always return the store to its post-load state. It does so after a load that fetched (`Session.ResetAfterFetchedLoad`). After a load that restored from storage, the working snapshot came from the current slot, while a reset goes to the original slot (`Session.ResetAfterRestoredLoad`). The model follows the code.

## Findings

| source | as written | input that shows it | evidently intended | confidence | as-written member | corrected member |
|---|---|---|---|---|---|---|
| src/App.jsx:37 | `originalProducts` starts as `useRef({})`, a plain object; `handleReset` calls `originalProducts.current.forEach` | storage holds neither slot and the product request fails, or reset is pressed before the response arrives; the reset then queues `setProducts({})`, writes `"{}"` to the current slot, and throws a TypeError when it calls `forEach` on `{}` | the origin starts as an empty list, so the reset empties the store and writes `[]` to the current slot | not executed | Session.ResetAfterFailedFetchThrows | Session.ResetAfterFailedFetch |
