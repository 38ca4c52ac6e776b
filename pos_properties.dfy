/** What the handlers of `POSApp` guarantee, stated over the transitions of PosSession. */
module PosProperties {
  import opened Wrappers
  import opened JsRuntime
  import opened PosSession

  // ---------------------------------------------------------------- lookup

  /** A blank code shows the prompt, sends nothing and leaves everything else as it was. */
  lemma BlankLookupSendsNothing(s: Session, b1: LookupBackend, b2: LookupBackend)
    requires IsBlank(s.barcode)
    ensures FetchProduct(s, b1) == FetchProduct(s, b2)
    ensures FetchProduct(s, b1) == s.(errorMessage := MsgEnterCode)
  {
  }

  /** Whitespace-only input, ideographic spaces included, counts as blank. */
  lemma WhitespaceOnlyLookupSendsNothing(s: Session, b: LookupBackend)
    requires forall i :: 0 <= i < |s.barcode| ==> IsTrimmable(s.barcode[i])
    ensures FetchProduct(s, b) == s.(errorMessage := MsgEnterCode)
  {
    BlankIffAllTrimmable(s.barcode);
  }

  /** A code with a visible character is looked up as typed, untrimmed. */
  lemma LookupAsksForTypedCode(s: Session, b1: LookupBackend, b2: LookupBackend)
    requires exists i :: 0 <= i < |s.barcode| && !IsTrimmable(s.barcode[i])
    requires b1(s.barcode) == b2(s.barcode)
    ensures FetchProduct(s, b1) == FetchProduct(s, b2)
    ensures FetchProduct(s, b1) == ApplyLookupReply(s, b1(s.barcode))
  {
    BlankIffAllTrimmable(s.barcode);
  }

  /** A found product is staged field for field and any earlier error cleared. */
  lemma LookupFoundStagesProduct(s: Session, b: LookupBackend, p: Product)
    requires !IsBlank(s.barcode) && b(s.barcode) == Found(p)
    ensures FetchProduct(s, b) == s.(product := p, errorMessage := "")
  {
  }

  /** The effect of a failed reply, before the backend is taken into account. */
  lemma FailedReplyResetsProduct(s: Session, reply: LookupReply)
    requires !reply.Found?
    ensures var r := ApplyLookupReply(s, reply);
      && r.product == Sentinel && r.errorMessage != ""
      && r == s.(product := Sentinel, errorMessage := r.errorMessage)
      && (reply.NotFound? ==> r.errorMessage == MsgNotRegistered)
      && (reply.Thrown? ==> r.errorMessage == MsgServerError)
      && ((reply == Rejected(None) || reply == Rejected(Some(""))) ==> r.errorMessage == MsgGenericError)
      && (forall d :: reply == Rejected(Some(d)) && d != "" ==> r.errorMessage == d)
  {
    match reply
    case NotFound =>
      assert MsgNotRegistered[0] == '商';
    case Thrown =>
      assert MsgServerError[0] == 'サ';
    case Rejected(detail) =>
      assert MsgGenericError[0] == 'エ';
  }

  /**
   * Every failed lookup stages the sentinel, shows a non-empty error chosen by
   * the kind of failure, and leaves code, cart and warning flag alone.
   */
  lemma LookupFailureResetsProduct(s: Session, b: LookupBackend)
    requires !IsBlank(s.barcode) && !b(s.barcode).Found?
    ensures var r := FetchProduct(s, b);
      && r.product == Sentinel && r.errorMessage != ""
      && r.barcode == s.barcode && r.cart == s.cart
      && r.showEmptyCartMessage == s.showEmptyCartMessage
      && (b(s.barcode).NotFound? ==> r.errorMessage == MsgNotRegistered)
      && (b(s.barcode).Thrown? ==> r.errorMessage == MsgServerError)
      && ((b(s.barcode) == Rejected(None) || b(s.barcode) == Rejected(Some(""))) ==>
            r.errorMessage == MsgGenericError)
      && (forall d :: b(s.barcode) == Rejected(Some(d)) && d != "" ==> r.errorMessage == d)
  {
    assert FetchProduct(s, b) == ApplyLookupReply(s, b(s.barcode));
    FailedReplyResetsProduct(s, b(s.barcode));
  }

  /** The lookup panel shows no error after a lookup exactly when the lookup found a product. */
  lemma LookupErrorClearedIffFound(s: Session, b: LookupBackend)
    ensures FetchProduct(s, b).errorMessage == "" <==> !IsBlank(s.barcode) && b(s.barcode).Found?
  {
    if IsBlank(s.barcode) {
      assert FetchProduct(s, b).errorMessage == MsgEnterCode;
      assert MsgEnterCode[0] == '商';
    } else {
      assert FetchProduct(s, b) == ApplyLookupReply(s, b(s.barcode));
      if !b(s.barcode).Found? {
        FailedReplyResetsProduct(s, b(s.barcode));
      }
    }
  }

  /** A lookup leaves the cart, the code and the warning flag as they were. */
  lemma LookupKeepsCart(s: Session, b: LookupBackend)
    ensures var r := FetchProduct(s, b);
      r.cart == s.cart && r.barcode == s.barcode && r.showEmptyCartMessage == s.showEmptyCartMessage
  {
    if IsBlank(s.barcode) {
      assert FetchProduct(s, b) == s.(errorMessage := MsgEnterCode);
    } else {
      assert FetchProduct(s, b) == ApplyLookupReply(s, b(s.barcode));
      if !b(s.barcode).Found? {
        FailedReplyResetsProduct(s, b(s.barcode));
      }
    }
  }

  // ---------------------------------------------------------------- add

  /**
   * Adding a named product appends exactly that product at the end, keeps the
   * earlier items, clears the staged product and the code, and keeps the
   * error text and the empty-cart warning.
   */
  lemma AddAppendsStagedProduct(s: Session)
    requires s.product.name != ""
    ensures var r := HandleAdd(s);
      && |r.cart| == |s.cart| + 1
      && r.cart[..|s.cart|] == s.cart
      && r.cart[|s.cart|] == s.product
      && r.product == Sentinel && r.barcode == ""
      && r.errorMessage == s.errorMessage
      && r.showEmptyCartMessage == s.showEmptyCartMessage
  {
    var r := HandleAdd(s);
    assert r.cart == s.cart + [s.product];
  }

  /** Without a staged name the add button does nothing. */
  lemma AddWithoutNameIsNoOp(s: Session)
    requires s.product.name == ""
    ensures HandleAdd(s) == s
  {
  }

  // ---------------------------------------------------------------- remove

  /**
   * Removing row `i` deletes exactly that item: the items before it stay,
   * the items after it move down by one, nothing else changes.
   */
  lemma RemoveDeletesOneItem(s: Session, i: int)
    requires 0 <= i < |s.cart|
    ensures var r := RemoveFromCart(s, i);
      && |r.cart| == |s.cart| - 1
      && (forall j :: 0 <= j < i ==> r.cart[j] == s.cart[j])
      && (forall j :: i <= j < |r.cart| ==> r.cart[j] == s.cart[j + 1])
      && multiset(r.cart) + multiset{s.cart[i]} == multiset(s.cart)
      && r == s.(cart := r.cart)
  {
    var r := RemoveFromCart(s, i);
    assert r.cart == s.cart[..i] + s.cart[i + 1..];
    assert s.cart == s.cart[..i] + [s.cart[i]] + s.cart[i + 1..];
  }

  /** An index outside the cart removes nothing. */
  lemma RemoveOutOfRangeIsNoOp(s: Session, i: int)
    requires i < 0 || i >= |s.cart|
    ensures RemoveFromCart(s, i) == s
  {
  }

  // ---------------------------------------------------------------- purchase

  /** Purchasing an empty cart raises the warning, sends nothing and changes nothing else. */
  lemma EmptyPurchaseSendsNothing(s: Session, p1: PurchaseBackend, p2: PurchaseBackend)
    requires s.cart == []
    ensures HandlePurchase(s, p1) == HandlePurchase(s, p2)
    ensures HandlePurchase(s, p1) == s.(showEmptyCartMessage := true)
  {
  }

  /**
   * A non-empty cart is posted as the payload of its items in cart
   * order: the outcome depends only on the backend's answer to that payload.
   */
  lemma PurchasePostsCart(s: Session, p1: PurchaseBackend, p2: PurchaseBackend)
    requires s.cart != []
    requires p1(CheckoutPayload(s.cart)) == p2(CheckoutPayload(s.cart))
    ensures HandlePurchase(s, p1) == HandlePurchase(s, p2)
  {
  }

  /** The items posted are the cart's, in the same order and with nothing lost. */
  lemma {:induction false} PayloadRoundTrip(cart: seq<Product>)
    ensures CartOfItems(CheckoutPayload(cart).items) == cart
  {
    if cart != [] {
      PayloadRoundTrip(cart[1..]);
      assert CheckoutItems(cart)[1..] == CheckoutItems(cart[1..]);
    }
  }

  /** The products a checkout payload lists, as the server reads them back. */
  function CartOfItems(items: seq<TxItem>): (cart: seq<Product>)
    ensures |cart| == |items|
  {
    if items == [] then []
    else [Product(items[0].prdId, items[0].name, items[0].code, items[0].price)] + CartOfItems(items[1..])
  }

  /**
   * A successful purchase empties the cart and clears the warning; it leaves
   * the error text, the staged product and the code as they were.
   */
  lemma PurchaseSuccessClearsCart(s: Session, p: PurchaseBackend)
    requires s.cart != [] && p(CheckoutPayload(s.cart)).PurchaseOk?
    ensures HandlePurchase(s, p) == s.(cart := [], showEmptyCartMessage := false)
  {
  }

  /**
   * A failed purchase keeps the cart for a retry and shows the failure:
   * the fixed text for a rejected post, the raised error's message otherwise.
   */
  lemma PurchaseFailureKeepsCart(s: Session, p: PurchaseBackend)
    requires s.cart != [] && !p(CheckoutPayload(s.cart)).PurchaseOk?
    ensures var r := HandlePurchase(s, p);
      && r.cart == s.cart && r.product == s.product && r.barcode == s.barcode
      && r.showEmptyCartMessage == s.showEmptyCartMessage
      && (p(CheckoutPayload(s.cart)).PurchaseFailed? ==> r.errorMessage == MsgPurchaseFailed)
      && (forall m :: p(CheckoutPayload(s.cart)) == PurchaseThrown(m) ==> r.errorMessage == m)
  {
  }

  /**
   * After a purchase the cart is either emptied or untouched, the staged
   * product and the typed code are kept, and the error text changes only
   * when a non-empty cart was posted and the post did not succeed.
   */
  lemma PurchaseEmptiesOrKeeps(s: Session, p: PurchaseBackend)
    ensures var r := HandlePurchase(s, p);
      && (r.cart == [] || r.cart == s.cart)
      && r.product == s.product && r.barcode == s.barcode
      && (r.cart != s.cart <==> s.cart != [] && p(CheckoutPayload(s.cart)).PurchaseOk?)
      && (r.errorMessage != s.errorMessage ==> s.cart != [] && !p(CheckoutPayload(s.cart)).PurchaseOk?)
  {
  }

  // ---------------------------------------------------------------- editing

  /** Typing replaces the code and nothing else; the last text typed wins. */
  lemma EditReplacesCode(s: Session, a: string, b: string)
    ensures EditBarcode(s, a) == s.(barcode := a)
    ensures EditBarcode(EditBarcode(s, a), b) == EditBarcode(s, b)
  {
  }

  // ---------------------------------------------------------------- invariant

  lemma InitialCartNamed()
    ensures CartNamed(Initial.cart) && Initial.cart == []
  {
  }

  /** Every handler keeps every cart item named. */
  lemma StepPreservesCartNamed(s: Session, e: Event)
    requires CartNamed(s.cart)
    ensures CartNamed(Step(s, e).cart)
  {
    match e
    case Add =>
      if s.product.name != "" {
        var r := HandleAdd(s);
        assert r.cart == s.cart + [s.product];
        forall i | 0 <= i < |r.cart| ensures r.cart[i].name != "" {
          if i < |s.cart| { assert r.cart[i] == s.cart[i]; }
        }
      }
    case Remove(index) =>
      if 0 <= index < |s.cart| {
        RemoveDeletesOneItem(s, index);
        var r := RemoveFromCart(s, index);
        forall j | 0 <= j < |r.cart| ensures r.cart[j].name != "" {
          if j < index { assert r.cart[j] == s.cart[j]; } else { assert r.cart[j] == s.cart[j + 1]; }
        }
      }
    case Lookup(lookup) =>
      LookupKeepsCart(s, lookup);
    case Purchase(post) =>
      PurchaseEmptiesOrKeeps(s, post);
    case Edit(_) =>
  }

  /** The invariant survives any sequence of user actions and backend replies. */
  lemma {:induction false} RunPreservesCartNamed(s: Session, events: seq<Event>)
    requires CartNamed(s.cart)
    ensures CartNamed(Run(s, events).cart)
    decreases |events|
  {
    if events != [] {
      StepPreservesCartNamed(s, events[0]);
      RunPreservesCartNamed(Step(s, events[0]), events[1..]);
    }
  }

  /** In every reachable session the sentinel product is not in the cart. */
  lemma ReachableCartHasNoSentinel(events: seq<Event>)
    ensures Sentinel !in Run(Initial, events).cart
    ensures forall i :: 0 <= i < |Run(Initial, events).cart| ==> Run(Initial, events).cart[i].name != ""
  {
    RunPreservesCartNamed(Initial, events);
  }

  // ---------------------------------------------------------------- scenarios

  const Tea := Product(1, "Tea", "4901234567894", 150)

  function TeaShop(code: string): LookupReply {
    if code == "4901234567894" then Found(Tea) else NotFound
  }

  function Till(t: Transaction): PurchaseReply {
    PurchaseOk(150)
  }

  /**
   * Type a known code, look it up, add it, type an unknown code, look it up,
   * purchase: the 404 leaves the cart alone and the purchase empties it, while
   * the 404's error stays on screen, as no handler but a lookup clears it.
   */
  lemma TeaScenario()
    ensures var s1 := FetchProduct(EditBarcode(Initial, "4901234567894"), TeaShop);
      s1.product == Tea && s1.errorMessage == ""
    ensures var s2 := HandleAdd(FetchProduct(EditBarcode(Initial, "4901234567894"), TeaShop));
      s2.cart == [Tea] && s2.product == Sentinel && s2.barcode == ""
    ensures var s3 := FetchProduct(EditBarcode(HandleAdd(FetchProduct(EditBarcode(Initial, "4901234567894"), TeaShop)), "0000000000000"), TeaShop);
      s3.cart == [Tea] && s3.errorMessage == MsgNotRegistered && s3.product == Sentinel
    ensures var s4 := HandlePurchase(FetchProduct(EditBarcode(HandleAdd(FetchProduct(EditBarcode(Initial, "4901234567894"), TeaShop)), "0000000000000"), TeaShop), Till);
      s4.cart == [] && s4.errorMessage == MsgNotRegistered
  {
    var s0 := EditBarcode(Initial, "4901234567894");
    assert s0.barcode[0] == '4';
    BlankIffAllTrimmable(s0.barcode);
    var s2 := HandleAdd(FetchProduct(s0, TeaShop));
    var s2e := EditBarcode(s2, "0000000000000");
    assert s2e.barcode[0] == '0';
    BlankIffAllTrimmable(s2e.barcode);
  }

  /**
   * The empty-cart warning outlives an add: purchase an empty cart, then look
   * up and add a product, and the warning is still raised beside a non-empty cart.
   */
  lemma WarningSurvivesAdd()
    ensures var s := HandleAdd(FetchProduct(EditBarcode(HandlePurchase(Initial, Till), "4901234567894"), TeaShop));
      s.showEmptyCartMessage && s.cart == [Tea]
  {
    var s0 := EditBarcode(HandlePurchase(Initial, Till), "4901234567894");
    assert s0.barcode[0] == '4';
    BlankIffAllTrimmable(s0.barcode);
  }
}
