/**
 * The `POSApp` component as an object: one field per `useState` slot, one
 * method per event handler, doing the handler's setter calls in the handler's
 * order. Each method is proved to end in the state the matching transition
 * of PosSession gives, and to keep the cart invariant.
 */
module PosComponent {
  import opened JsRuntime
  import opened PosSession
  import PosProperties

  class PosApp {
    var barcode: string
    var product: Product
    var errorMessage: string
    var cart: seq<Product>
    var showEmptyCartMessage: bool

    /** The component's state as a record. */
    function State(): Session
      reads this
    {
      Session(barcode, product, errorMessage, cart, showEmptyCartMessage)
    }

    ghost predicate Valid()
      reads this
    {
      CartNamed(cart)
    }

    constructor ()
      ensures State() == Initial && Valid()
    {
      barcode := "";
      product := Sentinel;
      errorMessage := "";
      cart := [];
      showEmptyCartMessage := false;
    }

    method FetchProduct(backend: LookupBackend)
      requires Valid()
      modifies this
      ensures Valid()
      ensures State() == PosSession.FetchProduct(old(State()), backend)
    {
      if IsBlank(barcode) {
        errorMessage := MsgEnterCode;
        return;
      }
      ghost var before := State();
      errorMessage := "";
      var response := backend(barcode);
      ApplyLookupReply(response);
      assert State() == PosSession.ApplyLookupReply(before, response);
    }

    /** The part of `fetchProduct` after the request: the reply decides the product and the error. */
    method ApplyLookupReply(response: LookupReply)
      requires Valid()
      modifies this
      ensures Valid()
      ensures State() == PosSession.ApplyLookupReply(old(State()), response)
    {
      match response {
        case NotFound =>
          errorMessage := MsgNotRegistered;
          product := Sentinel;
        case Rejected(detail) =>
          errorMessage := OrElse(detail, MsgGenericError);
          product := Sentinel;
        case Thrown =>
          errorMessage := MsgServerError;
          product := Sentinel;
        case Found(data) =>
          product := Product(data.prdId, data.name, data.code, data.price);
          errorMessage := "";
      }
    }

    method HandleAdd()
      requires Valid()
      modifies this
      ensures Valid()
      ensures State() == PosSession.HandleAdd(old(State()))
    {
      PosProperties.StepPreservesCartNamed(State(), Add);
      if product.name != "" {
        var newItem := Product(product.prdId, product.name, product.code, product.price);
        cart := cart + [newItem];
        product := Sentinel;
        barcode := "";
      }
    }

    method RemoveFromCart(index: int)
      requires Valid()
      modifies this
      ensures Valid()
      ensures State() == PosSession.RemoveFromCart(old(State()), index)
    {
      PosProperties.StepPreservesCartNamed(State(), Remove(index));
      cart := WithoutIndex(cart, index);
    }

    method HandlePurchase(backend: PurchaseBackend)
      requires Valid()
      modifies this
      ensures Valid()
      ensures State() == PosSession.HandlePurchase(old(State()), backend)
    {
      if |cart| == 0 {
        showEmptyCartMessage := true;
        return;
      }
      var formattedItems := CheckoutItems(cart);
      var empCd := "";
      var response := backend(Transaction(empCd, formattedItems));
      match response {
        case PurchaseOk(_) =>
          cart := [];
          showEmptyCartMessage := false;
        case PurchaseFailed =>
          errorMessage := MsgPurchaseFailed;
        case PurchaseThrown(message) =>
          errorMessage := message;
      }
    }

    method EditBarcode(text: string)
      requires Valid()
      modifies this
      ensures Valid()
      ensures State() == PosSession.EditBarcode(old(State()), text)
    {
      barcode := text;
    }
  }
}
