# Store inventory client: a verified model of its state logic

The client keeps one store, `{products, inventory}`, that changes only through a
closed set of named transitions applied by a reducer. Four handlers sit around
the reducer. Three of them (`addProduct`, `addInventory`, `resetInventory`) make an
HTTP write and check the reply's `ok` flag, then either reject with a fixed
message or dispatch exactly one transition. The fourth, `deleteItem`, makes no
request and only dispatches DELETE_ITEM. Two pages hold local form state over
this store:

- the inventory page has a product selector and a quantity field, a submit guard,
  a lookup of the product by name, and an effect that auto-selects the first product;
- the product creation page has a name field and an error line.

This project models those three parts in Dafny and proves what they do.

- `types.dfy`, module `Types`: products, inventory records, HTTP replies (`Reply`:
  the `ok` flag and the decoded body), thrown values (an `Error` with its message,
  or any other value), and how an awaited callback settled (`Outcome`).
- `app.dfy`, module `App`:
  - the `Action` variants and the reducer `Reduce`;
  - `DropIndex`, the filter-by-position that DELETE_ITEM uses;
  - `Run`, which dispatches a sequence of actions in order;
  - the `Store` class and its handlers;
  - `OpenInventoryPage`, which mounts the inventory page (initial form state, then
    the products effect);
  - `SubmitInventory` and `SubmitProduct`, which wire the pages' submits to the
    handlers the way the route table does.
- `inventory_page.dfy`, module `InventoryPage`: the submit guard `CanSubmit`, the
  `Disabled` attribute, the `Find` lookup, the `Request` a submit makes, and the
  `Form` class with its effect and handlers.
- `create_product.dfy`, module `CreateProduct`: the `Form` class with its name
  handler, its submit handler and its `Disabled` predicate.

HTTP replies, and the way each awaited callback settles, are parameters. Nothing
performs I/O. A form's `Submit` takes the settled outcome of its callback as an
input and returns what it handed to that callback.

Deleting an inventory record only changes local state; no request is sent. The
model keeps this as the code has it: `App.Store.DeleteItem` makes no remote call.

Two details of the code that the model keeps:
- The creation page falls back to "An error occurred" only when the thrown value is
  not an `Error`. An `Error` whose message is `""` sets `error` to `""`.
- The reset handler empties the inventory with SET_INVENTORY `[]`, not with
  RESET_INVENTORY. `App.ResetInventoryAgrees` shows that the two give the same state.

## Model

| member | source | states |
|---|---|---|
| `App.Reduce` | src/App.tsx:20-42 | Each action changes at most one of the two slices. SET_PRODUCTS replaces products. ADD_PRODUCT makes products one longer, keeps the old list as a prefix and puts the payload last. SET_INVENTORY and ADD_INVENTORY set inventory to exactly the payload, with no append. RESET_INVENTORY empties the inventory. UPDATE_INVENTORY (the default case) returns the state unchanged. The untouched slice stays the same in every case |
| `App.DropIndex` | src/App.tsx:33-35 | Filtering by position never lengthens the list and never introduces an element |
| `App.DropIndexIsSlice` | src/App.tsx:33-35 | For an index inside the list, `filter((_, i) => i !== k)` equals `s[..k] + s[k+1..]`. For any other index it returns the list unchanged |
| `App.DeleteItemEffect` | src/App.tsx:30-36 | DELETE_ITEM k removes the k-th record and keeps the others in their relative order. An out-of-range k is a no-op on the whole state. Products are never touched |
| `App.DeleteItemLength` | src/App.tsx:30-36 | DELETE_ITEM shortens the inventory by one exactly when the index names a record, and otherwise keeps its length |
| `App.ResetInventoryAgrees` | src/App.tsx:26-38 | SET_INVENTORY `[]` (what the reset handler dispatches at line 112) and RESET_INVENTORY give the same state: an empty inventory with products unchanged. Resetting twice is the same as resetting once |
| `App.Run` | src/App.tsx:45 | Dispatching the actions one at a time, in call order. No actions leave the state as it is, and a single dispatch is exactly one reducer step |
| `App.RunStep` | src/App.tsx:45 | Dispatching `[a] + rest` reduces `a` first and then dispatches `rest` |
| `App.RunConcat` | src/App.tsx:45 | Transitions apply strictly in call order: dispatching one batch and then another is the same as dispatching the two batches joined |
| `App.ProductsOnlyGrow` | src/App.tsx:22-25 | Over any sequence of actions without SET_PRODUCTS, the old products stay a prefix of the new products |
| `App.InventoryActionsKeepProducts` | src/App.tsx:26-40 | Any sequence of inventory actions (set, add, delete, reset, update) leaves products unchanged |
| `App.ProductActionsKeepInventory` | src/App.tsx:22-25 | Any sequence of SET_PRODUCTS and ADD_PRODUCT actions leaves the inventory unchanged |
| `App.Store.constructor` | src/App.tsx:45-48 | The store starts with no products and no inventory |
| `App.Store.Dispatch` | src/App.tsx:45 | The new state is the reducer's result for the old state and the action |
| `App.Store.AddProduct` | src/App.tsx:60-77 | The PUT body is the product given. If the reply is not ok, the handler rejects with the Error "Failed to add product" and the state is unchanged. If it is ok, the handler dispatches ADD_PRODUCT with the server's returned product: that product is appended and the inventory is unchanged |
| `App.Store.AddInventory` | src/App.tsx:79-96 | The request body is the current inventory with the new item appended. If the reply is not ok, the handler rejects with the Error "Failed to add inventory item" and the state is unchanged. If it is ok, the inventory becomes exactly the server's list and products are unchanged |
| `App.Store.DeleteItem` | src/App.tsx:98-101 | Makes no remote call and only dispatches DELETE_ITEM. The record at an in-range index is removed with the rest kept in order. An out-of-range index changes nothing. Products are unchanged |
| `App.Store.ResetInventory` | src/App.tsx:103-115 | If the reply is not ok, the handler rejects with the Error "Failed to reset inventory" and the state is unchanged. If it is ok, the handler dispatches SET_INVENTORY `[]`: the inventory is empty whatever it held before, and products are unchanged |
| `App.OpenInventoryPage` | src/components/InventoryPage/index.tsx:22-30 | When the inventory page mounts, the selection is the first product's name if there are products, and null otherwise. The quantity is 0 and there is no error |
| `App.SubmitInventory` | src/App.tsx:126-136 | A request is sent exactly when the page's `Request` makes the add callback fire: the guard passes and some product has the selected name. The request body is then the old inventory plus `{selected name, quantity}`; otherwise nothing is sent. (1) A submit that fails the guard leaves the store, the selection and the quantity unchanged and shows "Quantity must be 1 or more". (2) If the guard passes but no product has the name, nothing changes, in the store or the form. (3) A rejected reply leaves the store, the selection and the quantity unchanged and shows "Failed to add inventory item". (4) An ok reply replaces the inventory by the server's list and resets the form to the first product, a null quantity and no error |
| `App.SubmitProduct` | src/App.tsx:122-125 | The store's handler is sent `{name}` with the form's current name. A rejected reply leaves the store and the name unchanged and shows "Failed to add product". An ok reply appends the returned product, leaves the inventory unchanged and clears the name and the error |
| `InventoryPage.CanSubmit` | src/components/InventoryPage/index.tsx:34 | The guard passes only with a non-empty selection and a quantity of at least 1. No selection, the placeholder `""`, a null quantity and the initial quantity 0 each make it fail |
| `InventoryPage.Disabled` | src/components/InventoryPage/index.tsx:107 | The Save button is disabled exactly when the submit guard of line 34 fails. The placeholder value `""` always disables it |
| `InventoryPage.Find` | src/components/InventoryPage/index.tsx:35 | The lookup finds a product exactly when some product has the selected name. The product found carries that name, and no earlier product does |
| `InventoryPage.Request` | src/components/InventoryPage/index.tsx:34-41 | The add callback is invoked exactly when the guard passes and some product has the selected name. It then receives `{name: selectedProduct, quantity}`, and the product list is non-empty |
| `InventoryPage.Form.constructor` | src/components/InventoryPage/index.tsx:22-24 | The initial state is no selection, quantity 0 and no error, and Save starts disabled |
| `InventoryPage.Form.OnProductsChange` | src/components/InventoryPage/index.tsx:26-30 | For a non-empty product list the selection becomes the first product's name, overriding any earlier choice. An empty list leaves the selection as it was. The quantity and the error are untouched |
| `InventoryPage.Form.OnSelect` | src/components/InventoryPage/index.tsx:68-80 | Choosing an option sets the selection to its value; the placeholder gives `""`. Nothing else changes |
| `InventoryPage.Form.OnQuantityChange` | src/components/InventoryPage/index.tsx:94 | Typing a quantity sets it to that number. Nothing else changes |
| `InventoryPage.Form.Submit` | src/components/InventoryPage/index.tsx:32-52 | (1) If the guard fails, the error becomes "Quantity must be 1 or more", the callback is not invoked and the fields are kept. (2) If the guard passes but no product has the name, nothing changes. (3) If the callback resolves, the selection is `products[0].name`, which is defined because the lookup succeeded, the quantity is null and the error is cleared. (4) If it rejects, the error is "Failed to add inventory item" whatever the reason, and the fields are kept |
| `CreateProduct.ErrorText` | src/components/CreateProduct/index.tsx:27-31 | A rejection with an Error shows that Error's message. Any other thrown value shows "An error occurred" |
| `CreateProduct.Form.constructor` | src/components/CreateProduct/index.tsx:11-12 | The form starts with an empty name and no error, so Save (`disabled={!name}`, line 58) starts disabled |
| `CreateProduct.Form.Disabled` | src/components/CreateProduct/index.tsx:58 | Save is disabled exactly when the name is the empty string |
| `CreateProduct.Form.OnNameChange` | src/components/CreateProduct/index.tsx:14-17 | Editing sets the name to the new value and clears the error. Save is then disabled exactly when the new name is empty |
| `CreateProduct.Form.Submit` | src/components/CreateProduct/index.tsx:19-33 | The callback receives `{name}` with the current name. On success the name becomes `""` and the error is cleared. On failure the name is kept and the error is the failure's text |

## Left out

- Fetching, JSON encoding and decoding, HTTP headers and the API base URL: each write's reply is a parameter holding the `ok` flag and the decoded body.
- A `fetch` that rejects outright (a network error) or a body that fails to parse: the handlers are modelled only for replies that arrive. The creation page still handles any thrown value through `Thrown`.
- The mount effect that loads products and inventory (src/App.tsx:50-58): it is plain I/O with no error handling. It only dispatches SET_PRODUCTS and SET_INVENTORY, which `App.Reduce` covers.
- Success toasts, JSX, styling and routing links: presentation only.
- React scheduling, re-render timing and races between overlapping submits are not modelled. Each submit is one atomic step whose callback outcome is given.
- The closure semantics of `handleSubmit` (it sees the values of the render that created it) are not modelled. `Submit` takes the product list of that render as a parameter.
- `InventoryPage.Form.OnQuantityChange`: the page parses `Number(e.target.value)` with JavaScript number semantics, and this is not modelled: NaN, fractional values such as 1.5 passing `>= 1`, and the empty string parsing to 0. The quantity is an optional integer.
- `InventoryPage.Disabled`: in the code the guard and `disabled` disagree on NaN. With `type="text"` input, typing `abc` gives a quantity of NaN. The guard `NaN >= 1` is false, so a submit shows "Quantity must be 1 or more". But `NaN < 1` is false too, so the button stays enabled. The model has no NaN, so it proves that `disabled` is the exact negation of the guard.
- `App.Store.DeleteItem`: a non-integer JavaScript index is not modelled. It matches no position, so the delete would be a no-op.
- A rejection from the reset handler is not handled by the inventory page: it wires the handler straight to `onClick` with no catch (src/components/InventoryPage/index.tsx:126). So no displayed error is modelled for it.
- The item and error-message components (src/components/InventoryItem/index.tsx, src/components/ErrorMessage/index.tsx): they are stateless rendering with no logic.
