/**
 * The state of the `POSApp` component (src/app/page.jsx) as one record, and
 * each of its event handlers as a transition on that record. Every handler is
 * atomic here: the awaited backend call becomes a function parameter that
 * answers the request the handler sends.
 */
module PosSession {
  import opened Wrappers
  import opened JsRuntime

  /** A product as the backend returns it; JSON keys PRD_ID, NAME, CODE, PRICE. */
  datatype Product = Product(prdId: int, name: string, code: string, price: int)

  /** The empty product `{PRD_ID: 0, NAME: "", CODE: "", PRICE: 0}`: nothing staged. */
  const Sentinel: Product := Product(0, "", "", 0)

  /**
   * The five `useState` slots: the code being typed, the staged product, the
   * error shown in the lookup panel, the cart, and the empty-cart warning flag.
   */
  datatype Session = Session(
    barcode: string,
    product: Product,
    errorMessage: string,
    cart: seq<Product>,
    showEmptyCartMessage: bool)

  /** The initial values of the `useState` calls. */
  const Initial: Session := Session("", Sentinel, "", [], false)

  /** What `GET /products/{code}` comes back with. */
  datatype LookupReply =
    | Found(data: Product)               // an ok (2xx) status with a product body
    | NotFound                           // status 404
    | Rejected(detail: Option<string>)   // any other non-ok status, with the body's `detail` if any
    | Thrown                             // the request, the decoding of its body, or reading a field of a null body threw

  /** One entry of the checkout payload; JSON keys PRD_ID, CODE, NAME, PRICE in that order. */
  datatype TxItem = TxItem(prdId: int, code: string, name: string, price: int)

  /** The body of `POST /transactions`: `{emp_cd, items}`. */
  datatype Transaction = Transaction(empCd: string, items: seq<TxItem>)

  /** What `POST /transactions` comes back with. */
  datatype PurchaseReply =
    | PurchaseOk(totalAmt: int)          // an ok status with TOTAL_AMT in the body
    | PurchaseFailed                     // a non-ok status
    | PurchaseThrown(message: string)    // the request, the decoding of its body, or reading a field of a null body threw; the error's message

  const MsgEnterCode := "商品コードを入力してください"
  const MsgNotRegistered := "商品がマスタ未登録です"
  const MsgGenericError := "エラーが発生しました"
  const MsgServerError := "サーバーエラーが発生しました。"
  const MsgPurchaseFailed := "取引の登録に失敗しました"

  /** The backend's answer to a product lookup, keyed by the code in the URL. */
  type LookupBackend = string -> LookupReply

  /** The backend's answer to a checkout, keyed by the posted body. */
  type PurchaseBackend = Transaction -> PurchaseReply

  /** Invariant: no cart item has an empty name, so the sentinel is never in the cart. */
  ghost predicate CartNamed(cart: seq<Product>) {
    forall i :: 0 <= i < |cart| ==> cart[i].name != ""
  }

  /** The effect of a lookup reply once the request has been sent. */
  function ApplyLookupReply(s: Session, reply: LookupReply): Session {
    match reply
    case Found(data) =>
      s.(product := Product(data.prdId, data.name, data.code, data.price), errorMessage := "")
    case NotFound =>
      s.(errorMessage := MsgNotRegistered, product := Sentinel)
    case Rejected(detail) =>
      s.(errorMessage := OrElse(detail, MsgGenericError), product := Sentinel)
    case Thrown =>
      s.(errorMessage := MsgServerError, product := Sentinel)
  }

  /**
   * `fetchProduct`: a blank code only sets the prompt; otherwise the typed
   * code, untrimmed, is looked up and the reply applied.
   */
  function FetchProduct(s: Session, backend: LookupBackend): Session {
    if IsBlank(s.barcode) then s.(errorMessage := MsgEnterCode)
    else ApplyLookupReply(s, backend(s.barcode))
  }

  /** `handleAdd`: a staged product with a name is appended and the lookup panel cleared. */
  function HandleAdd(s: Session): Session {
    if s.product.name != "" then
      var newItem := Product(s.product.prdId, s.product.name, s.product.code, s.product.price);
      s.(cart := s.cart + [newItem], product := Sentinel, barcode := "")
    else s
  }

  /** The remove button of the row at `index`. */
  function RemoveFromCart(s: Session, index: int): Session {
    s.(cart := WithoutIndex(s.cart, index))
  }

  /** `cart.map(...)` of `handlePurchase`: each item as its four payload fields, in cart order. */
  function CheckoutItems(cart: seq<Product>): (items: seq<TxItem>)
    ensures |items| == |cart|
    ensures forall i :: 0 <= i < |cart| ==>
      items[i].prdId == cart[i].prdId && items[i].code == cart[i].code &&
      items[i].name == cart[i].name && items[i].price == cart[i].price
  {
    if cart == [] then []
    else [TxItem(cart[0].prdId, cart[0].code, cart[0].name, cart[0].price)] + CheckoutItems(cart[1..])
  }

  /** The checkout body: an empty operator code, so that the server applies its default. */
  function CheckoutPayload(cart: seq<Product>): (t: Transaction)
    ensures t.empCd == "" && |t.items| == |cart|
  {
    Transaction("", CheckoutItems(cart))
  }

  /** `handlePurchase`: an empty cart only raises the warning; otherwise the cart is posted. */
  function HandlePurchase(s: Session, backend: PurchaseBackend): Session {
    if |s.cart| == 0 then s.(showEmptyCartMessage := true)
    else
      match backend(CheckoutPayload(s.cart))
      case PurchaseOk(_) => s.(cart := [], showEmptyCartMessage := false)
      case PurchaseFailed => s.(errorMessage := MsgPurchaseFailed)
      case PurchaseThrown(message) => s.(errorMessage := message)
  }

  /** The `onChange` of the code field. */
  function EditBarcode(s: Session, text: string): Session {
    s.(barcode := text)
  }

  /** A user action together with the backend's behaviour for the request it may send. */
  datatype Event =
    | Lookup(lookup: LookupBackend)
    | Add
    | Remove(index: int)
    | Purchase(post: PurchaseBackend)
    | Edit(text: string)

  function Step(s: Session, e: Event): Session {
    match e
    case Lookup(lookup) => FetchProduct(s, lookup)
    case Add => HandleAdd(s)
    case Remove(index) => RemoveFromCart(s, index)
    case Purchase(post) => HandlePurchase(s, post)
    case Edit(text) => EditBarcode(s, text)
  }

  /** The session after the events, in order. */
  function Run(s: Session, events: seq<Event>): Session
    decreases |events|
  {
    if events == [] then s else Run(Step(s, events[0]), events[1..])
  }
}
