/**
 * The application state container: the `{products, inventory}` store, the reducer
 * that applies each named transition, the write handlers around it, and the way
 * the two pages are wired to those handlers.
 */
module App {
  import opened Types
  import InventoryPage
  import CreateProduct

  const AddProductFailed := "Failed to add product"
  const AddInventoryFailed := "Failed to add inventory item"
  const ResetInventoryFailed := "Failed to reset inventory"

  datatype AppState = AppState(products: seq<Product>, inventory: seq<InventoryItem>)

  /** The closed set of transitions the store accepts. */
  datatype Action =
    | SetProducts(products: seq<Product>)
    | AddProduct(product: Product)
    | SetInventory(items: seq<InventoryItem>)
    | AddInventory(items: seq<InventoryItem>)
    | DeleteItem(index: int)
    | ResetInventory
    | UpdateInventory(items: seq<InventoryItem>)

  /** `s.filter((_, i) => i !== k)`: every element except the one at position `k`. */
  function DropIndex<T>(s: seq<T>, k: int): (r: seq<T>)
    ensures |r| <= |s|
    ensures forall x :: x in r ==> x in s
  {
    if s == [] then []
    else DropIndex(s[..|s| - 1], k) + (if |s| - 1 != k then [s[|s| - 1]] else [])
  }

  /** Filtering out position `k` removes exactly that element when it exists, and nothing otherwise. */
  lemma {:induction false} DropIndexIsSlice<T>(s: seq<T>, k: int)
    ensures 0 <= k < |s| ==> DropIndex(s, k) == s[..k] + s[k + 1..]
    ensures !(0 <= k < |s|) ==> DropIndex(s, k) == s
  {
    if s != [] {
      var n := |s|;
      var t := s[..n - 1];
      DropIndexIsSlice(t, k);
      if k == n - 1 {
        assert s[k + 1..] == [];
        assert s[..k] == t;
      } else if 0 <= k < n - 1 {
        assert t[..k] == s[..k];
        assert t[k + 1..] + [s[n - 1]] == s[k + 1..];
      } else {
        assert t + [s[n - 1]] == s;
      }
    }
  }

  /** The reducer: the new state for one dispatched action. */
  function Reduce(s: AppState, a: Action): (r: AppState)
    ensures r.products == s.products || r.inventory == s.inventory
    ensures a.SetProducts? ==> r.products == a.products && r.inventory == s.inventory
    ensures a.AddProduct? ==>
              |r.products| == |s.products| + 1 && r.products[..|s.products|] == s.products &&
              r.products[|s.products|] == a.product && r.inventory == s.inventory
    ensures (a.SetInventory? || a.AddInventory?) ==>
              r.inventory == a.items && r.products == s.products
    ensures a.ResetInventory? ==> r.inventory == [] && r.products == s.products
    ensures a.UpdateInventory? ==> r == s
  {
    match a
    case SetProducts(ps) => s.(products := ps)
    case AddProduct(p) => s.(products := s.products + [p])
    case SetInventory(items) => s.(inventory := items)
    case AddInventory(items) => s.(inventory := items)
    case DeleteItem(k) => s.(inventory := DropIndex(s.inventory, k))
    case ResetInventory => s.(inventory := [])
    case _ => s
  }

  /** DELETE_ITEM removes the record at an existing position, keeps the others in order, and never touches products. */
  lemma DeleteItemEffect(s: AppState, k: int)
    ensures Reduce(s, DeleteItem(k)).products == s.products
    ensures 0 <= k < |s.inventory| ==>
              Reduce(s, DeleteItem(k)).inventory == s.inventory[..k] + s.inventory[k + 1..]
    ensures !(0 <= k < |s.inventory|) ==> Reduce(s, DeleteItem(k)) == s
  {
    DropIndexIsSlice(s.inventory, k);
  }

  /** Deleting shortens the inventory by one exactly when the index names a record. */
  lemma DeleteItemLength(s: AppState, k: int)
    ensures |Reduce(s, DeleteItem(k)).inventory| ==
            if 0 <= k < |s.inventory| then |s.inventory| - 1 else |s.inventory|
  {
    DropIndexIsSlice(s.inventory, k);
  }

  /** The reset handler's SET_INVENTORY [] and RESET_INVENTORY lead to the same state. */
  lemma ResetInventoryAgrees(s: AppState)
    ensures Reduce(s, SetInventory([])) == Reduce(s, ResetInventory)
    ensures Reduce(Reduce(s, ResetInventory), ResetInventory) == Reduce(s, ResetInventory)
  {
  }

  /** The state after dispatching `actions` in order. */
  function Run(s: AppState, actions: seq<Action>): (r: AppState)
    ensures actions == [] ==> r == s
    ensures |actions| == 1 ==> r == Reduce(s, actions[0])
    decreases |actions|
  {
    if actions == [] then s else Run(Reduce(s, actions[0]), actions[1..])
  }

  /** One step of dispatching: the first action is reduced, then the rest follow. */
  lemma RunStep(s: AppState, a: Action, rest: seq<Action>)
    ensures Run(s, [a] + rest) == Run(Reduce(s, a), rest)
  {
    assert ([a] + rest)[0] == a;
    assert ([a] + rest)[1..] == rest;
  }

  /** Dispatching `first` and then `rest` is dispatching `first + rest`: actions apply strictly in order. */
  lemma {:induction false} RunConcat(s: AppState, first: seq<Action>, rest: seq<Action>)
    ensures Run(s, first + rest) == Run(Run(s, first), rest)
    decreases |first|
  {
    if first == [] {
      assert first + rest == rest;
    } else {
      assert (first + rest)[0] == first[0];
      assert (first + rest)[1..] == first[1..] + rest;
      RunConcat(Reduce(s, first[0]), first[1..], rest);
    }
  }

  /** An action that only concerns the inventory slice. */
  predicate IsInventoryAction(a: Action)
  {
    a.SetInventory? || a.AddInventory? || a.DeleteItem? || a.ResetInventory? || a.UpdateInventory?
  }

  /** Without SET_PRODUCTS, products only grow: the old list stays a prefix. */
  lemma {:induction false} ProductsOnlyGrow(s: AppState, actions: seq<Action>)
    requires forall i :: 0 <= i < |actions| ==> !actions[i].SetProducts?
    ensures s.products <= Run(s, actions).products
    decreases |actions|
  {
    if actions != [] {
      var s' := Reduce(s, actions[0]);
      assert s.products <= s'.products;
      ProductsOnlyGrow(s', actions[1..]);
    }
  }

  /** Inventory transitions, in any number and order, leave products as they were. */
  lemma {:induction false} InventoryActionsKeepProducts(s: AppState, actions: seq<Action>)
    requires forall i :: 0 <= i < |actions| ==> IsInventoryAction(actions[i])
    ensures Run(s, actions).products == s.products
    decreases |actions|
  {
    if actions != [] {
      InventoryActionsKeepProducts(Reduce(s, actions[0]), actions[1..]);
    }
  }

  /** Product transitions, in any number and order, leave the inventory as it was. */
  lemma {:induction false} ProductActionsKeepInventory(s: AppState, actions: seq<Action>)
    requires forall i :: 0 <= i < |actions| ==> actions[i].SetProducts? || actions[i].AddProduct?
    ensures Run(s, actions).inventory == s.inventory
    decreases |actions|
  {
    if actions != [] {
      ProductActionsKeepInventory(Reduce(s, actions[0]), actions[1..]);
    }
  }

  /** The store that `useReducer` keeps, with the write handlers around it. */
  class Store {
    var products: seq<Product>
    var inventory: seq<InventoryItem>

    /** The store starts with no products and no inventory. */
    constructor ()
      ensures products == [] && inventory == []
    {
      products := [];
      inventory := [];
    }

    function State(): (r: AppState)
      reads this
      ensures r.products == products && r.inventory == inventory
    {
      AppState(products, inventory)
    }

    /** Replace the state by the reducer's result for `a`. */
    method Dispatch(a: Action)
      modifies this
      ensures State() == Reduce(old(State()), a)
    {
      var r := Reduce(State(), a);
      products, inventory := r.products, r.inventory;
    }

    /** Create a product remotely; on success append the product the server returned. */
    method AddProduct(item: Product, reply: Reply<Product>) returns (request: Product, outcome: Outcome)
      modifies this
      ensures request == item
      ensures !reply.ok ==> outcome == Rejected(ErrorObject(AddProductFailed)) && State() == old(State())
      ensures reply.ok ==> outcome == Resolved && State() == Reduce(old(State()), Action.AddProduct(reply.data))
      ensures reply.ok ==> products == old(products) + [reply.data] && inventory == old(inventory)
    {
      request := item;
      if !reply.ok {
        return request, Rejected(ErrorObject(AddProductFailed));
      }
      Dispatch(Action.AddProduct(reply.data));
      outcome := Resolved;
    }

    /**
     * Add an inventory record remotely. The request carries the whole current
     * inventory with the new item appended; on success the inventory becomes
     * exactly the list the server returned.
     */
    method AddInventory(item: InventoryItem, reply: Reply<seq<InventoryItem>>)
      returns (request: seq<InventoryItem>, outcome: Outcome)
      modifies this
      ensures request == old(inventory) + [item]
      ensures !reply.ok ==> outcome == Rejected(ErrorObject(AddInventoryFailed)) && State() == old(State())
      ensures reply.ok ==> outcome == Resolved && State() == Reduce(old(State()), Action.AddInventory(reply.data))
      ensures reply.ok ==> inventory == reply.data && products == old(products)
    {
      request := inventory + [item];
      if !reply.ok {
        return request, Rejected(ErrorObject(AddInventoryFailed));
      }
      Dispatch(Action.AddInventory(reply.data));
      outcome := Resolved;
    }

    /** Delete a record by position; this makes no remote call. */
    method DeleteItem(index: int)
      modifies this
      ensures State() == Reduce(old(State()), Action.DeleteItem(index))
      ensures products == old(products)
      ensures 0 <= index < |old(inventory)| ==> inventory == old(inventory)[..index] + old(inventory)[index + 1..]
      ensures !(0 <= index < |old(inventory)|) ==> inventory == old(inventory)
    {
      DeleteItemEffect(State(), index);
      Dispatch(Action.DeleteItem(index));
    }

    /** Reset the inventory remotely; on success empty it locally with SET_INVENTORY []. */
    method ResetInventory(reply: Reply<()>) returns (outcome: Outcome)
      modifies this
      ensures !reply.ok ==> outcome == Rejected(ErrorObject(ResetInventoryFailed)) && State() == old(State())
      ensures reply.ok ==> outcome == Resolved && State() == Reduce(old(State()), SetInventory([]))
      ensures reply.ok ==> inventory == [] && products == old(products)
    {
      if !reply.ok {
        return Rejected(ErrorObject(ResetInventoryFailed));
      }
      Dispatch(SetInventory([]));
      outcome := Resolved;
    }
  }

  /** Mounting the inventory page: fresh form state, then the products effect runs once. */
  method OpenInventoryPage(store: Store) returns (form: InventoryPage.Form)
    ensures fresh(form)
    ensures form.selectedProduct == if |store.products| > 0 then Some(store.products[0].name) else None
    ensures form.quantity == Some(0) && form.error == None
  {
    form := new InventoryPage.Form();
    form.OnProductsChange(store.products);
  }

  /**
   * A Save on the inventory page with its `addInventory` prop bound to the store's
   * handler. Returns the request body sent, or None when no request is made.
   */
  method SubmitInventory(store: Store, form: InventoryPage.Form, reply: Reply<seq<InventoryItem>>)
    returns (request: Option<seq<InventoryItem>>)
    modifies store, form
    ensures request == (var call := InventoryPage.Request(old(store.products), old(form.selectedProduct), old(form.quantity));
                        if call.Some? then Some(old(store.inventory) + [call.value]) else None)
    ensures !InventoryPage.CanSubmit(old(form.selectedProduct), old(form.quantity)) ==>
              request == None && store.State() == old(store.State()) &&
              form.error == Some(InventoryPage.QuantityError) &&
              form.selectedProduct == old(form.selectedProduct) && form.quantity == old(form.quantity)
    ensures InventoryPage.CanSubmit(old(form.selectedProduct), old(form.quantity)) && request.None? ==>
              form.error == old(form.error) &&
              form.selectedProduct == old(form.selectedProduct) && form.quantity == old(form.quantity)
    ensures request.Some? ==>
              request.value == old(store.inventory) + [InventoryItem(old(form.selectedProduct).value, old(form.quantity).value)]
    ensures request.Some? && !reply.ok ==>
              store.State() == old(store.State()) && form.error == Some(InventoryPage.AddFailedError) &&
              form.selectedProduct == old(form.selectedProduct) && form.quantity == old(form.quantity)
    ensures request.Some? && reply.ok ==>
              store.inventory == reply.data && store.products == old(store.products) &&
              |old(store.products)| > 0 && form.selectedProduct == Some(old(store.products)[0].name) &&
              form.quantity == None && form.error == None
    ensures request.None? ==> store.State() == old(store.State())
  {
    var products := store.products;
    var item := InventoryPage.Request(products, form.selectedProduct, form.quantity);
    var outcome := Resolved;
    if item.Some? {
      var body;
      body, outcome := store.AddInventory(item.value, reply);
      request := Some(body);
    } else {
      request := None;
    }
    var _ := form.Submit(products, outcome);
  }

  /** A Save on the product creation page with its `add` prop bound to the store's handler. */
  method SubmitProduct(store: Store, form: CreateProduct.Form, reply: Reply<Product>)
    returns (request: Product)
    modifies store, form
    ensures request == Product(old(form.name))
    ensures !reply.ok ==>
              store.State() == old(store.State()) &&
              form.name == old(form.name) && form.error == Some(AddProductFailed)
    ensures reply.ok ==>
              store.products == old(store.products) + [reply.data] && store.inventory == old(store.inventory) &&
              form.name == "" && form.error == None
  {
    var outcome;
    request, outcome := store.AddProduct(Product(form.name), reply);
    var _ := form.Submit(outcome);
  }
}
