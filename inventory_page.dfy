/** The inventory list page: a product selector, a quantity field and their validation. */
module InventoryPage {
  import opened Types

  const QuantityError := "Quantity must be 1 or more"
  const AddFailedError := "Failed to add inventory item"

  /** The submit guard: a product is selected and the quantity is at least one. */
  predicate CanSubmit(selected: Option<string>, quantity: Option<int>): (ok: bool)
    ensures ok ==> selected.Some? && |selected.value| > 0 && quantity.Some? && quantity.value >= 1
    ensures selected == None || selected == Some("") || quantity == None ==> !ok
    ensures quantity == Some(0) ==> !ok
  {
    Truthy(selected) && quantity.Some? && quantity.value >= 1
  }

  /** The Save button's `disabled` attribute, written as the page writes it. */
  function Disabled(selected: Option<string>, quantity: Option<int>): (d: bool)
    ensures d <==> !CanSubmit(selected, quantity)
    ensures selected == Some("") ==> d
  {
    !Truthy(selected) || quantity.None? || quantity.value < 1
  }

  /** `products.find(p => p.name === name)`: the first product carrying that name. */
  function Find(products: seq<Product>, name: string): (r: Option<Product>)
    ensures r.Some? <==> exists i :: 0 <= i < |products| && products[i].name == name
    ensures r.Some? ==> exists i :: 0 <= i < |products| && products[i] == r.value &&
                                    r.value.name == name &&
                                    forall j :: 0 <= j < i ==> products[j].name != name
  {
    if products == [] then None
    else if products[0].name == name then Some(products[0])
    else
      var r := Find(products[1..], name);
      assert forall i :: 0 <= i < |products| - 1 ==> products[1..][i] == products[i + 1];
      r
  }

  /** The item a submit hands to the add callback, or None when the callback is not invoked. */
  function Request(products: seq<Product>, selected: Option<string>, quantity: Option<int>)
    : (call: Option<InventoryItem>)
    ensures call.Some? <==> CanSubmit(selected, quantity) &&
                            exists i :: 0 <= i < |products| && products[i].name == selected.value
    ensures call.Some? ==> call.value == InventoryItem(selected.value, quantity.value) && |products| > 0
  {
    if CanSubmit(selected, quantity) then
      match Find(products, selected.value)
      case Some(p) => Some(InventoryItem(p.name, quantity.value))
      case None => None
    else None
  }

  /** The page's local form state. */
  class Form {
    var selectedProduct: Option<string>
    var quantity: Option<int>
    var error: Option<string>

    /** Initial state: nothing selected, quantity 0, no error; Save starts disabled. */
    constructor ()
      ensures selectedProduct == None && quantity == Some(0) && error == None
      ensures Disabled(selectedProduct, quantity)
    {
      selectedProduct := None;
      quantity := Some(0);
      error := None;
    }

    /** The effect that runs whenever the products list changes: select the first product. */
    method OnProductsChange(products: seq<Product>)
      modifies this
      ensures |products| > 0 ==> selectedProduct == Some(products[0].name)
      ensures |products| == 0 ==> selectedProduct == old(selectedProduct)
      ensures quantity == old(quantity) && error == old(error)
    {
      if |products| > 0 {
        selectedProduct := Some(products[0].name);
      }
    }

    /** The selector's change handler; the placeholder option has the value "". */
    method OnSelect(value: string)
      modifies this
      ensures selectedProduct == Some(value)
      ensures quantity == old(quantity) && error == old(error)
    {
      selectedProduct := Some(value);
    }

    /** The quantity field's change handler, on the already parsed number. */
    method OnQuantityChange(value: int)
      modifies this
      ensures quantity == Some(value)
      ensures selectedProduct == old(selectedProduct) && error == old(error)
    {
      quantity := Some(value);
    }

    /**
     * The submit handler. `products` is the list the page was rendered with and
     * `outcome` is how the add callback settled (ignored when it is not invoked).
     * Returns the item handed to the callback, if any.
     */
    method Submit(products: seq<Product>, outcome: Outcome) returns (call: Option<InventoryItem>)
      modifies this
      ensures call == Request(products, old(selectedProduct), old(quantity))
      ensures !CanSubmit(old(selectedProduct), old(quantity)) ==>
                error == Some(QuantityError) &&
                selectedProduct == old(selectedProduct) && quantity == old(quantity)
      ensures CanSubmit(old(selectedProduct), old(quantity)) && call.None? ==>
                error == old(error) &&
                selectedProduct == old(selectedProduct) && quantity == old(quantity)
      ensures call.Some? && outcome.Resolved? ==>
                |products| > 0 &&
                selectedProduct == Some(products[0].name) && quantity == None && error == None
      ensures call.Some? && outcome.Rejected? ==>
                error == Some(AddFailedError) &&
                selectedProduct == old(selectedProduct) && quantity == old(quantity)
    {
      if CanSubmit(selectedProduct, quantity) {
        var product := Find(products, selectedProduct.value);
        if product.Some? {
          call := Some(InventoryItem(product.value.name, quantity.value));
          if outcome.Resolved? {
            selectedProduct := Some(products[0].name);
            quantity := None;
            error := None;
          } else {
            error := Some(AddFailedError);
          }
        } else {
          call := None;
        }
      } else {
        call := None;
        error := Some(QuantityError);
      }
    }
  }
}
