/** The top-level component: the chat log, the in-flight flag and the cart,
    with the handlers that change them. */
module App {
  import opened Types
  import opened JsString

  const WelcomeText: string :=
    "Welcome to Denkuan Shop! Paste any product link, and I'll fetch the details for you."

  const ApologyText: string :=
    "I'm sorry, I couldn't get the details from that link. Please try another one."

  /** How `await extractProductDetails(url)` settles: with a value (a product
      or `null`), or by rejecting. */
  datatype Settlement = Fulfilled(details: Option<ProductDetails>) | Rejected

  function WelcomeMessage(now: int): ChatMessage {
    ChatMessage(now, Ai, TextMessage, TextContent(WelcomeText))
  }

  function UserMessage(url: string, now: int): ChatMessage {
    ChatMessage(now, User, TextMessage, TextContent(url))
  }

  /** The AI entry that ends a request: a product entry carrying the pasted
      url when a product came back, the apology text otherwise (a `null`
      result and a rejection alike). Its id is the clock reading plus one. */
  function AiReply(url: string, s: Settlement, now: int): (m: ChatMessage)
    ensures m.sender == Ai && m.id == now + 1
    ensures m.kind == ProductMessage <==> m.content.ProductContent?
    ensures m.content.ProductContent? <==> s.Fulfilled? && s.details.Some?
    ensures m.content.ProductContent? ==>
      m.content.product.originalUrl == url &&
      m.content.product == WithOriginalUrl(s.details.value, url)
    ensures m.content.TextContent? ==> m.content.text == ApologyText
  {
    match s
    case Fulfilled(Some(details)) =>
      ChatMessage(now + 1, Ai, ProductMessage, ProductContent(WithOriginalUrl(details, url)))
    case _ =>
      ChatMessage(now + 1, Ai, TextMessage, TextContent(ApologyText))
  }

  /** Some item of the cart has key `key`. */
  predicate HasKey(items: seq<Product>, key: string) {
    exists i :: 0 <= i < |items| && items[i].originalUrl == key
  }

  /** No two items of the cart share a key. */
  predicate UniqueKeys(items: seq<Product>) {
    forall i, j :: 0 <= i < j < |items| ==> items[i].originalUrl != items[j].originalUrl
  }

  /** `items.find(item => item.originalUrl === key)`: the first item with
      that key, if any. */
  function Find(items: seq<Product>, key: string): (r: Option<Product>)
    ensures r.Some? <==> HasKey(items, key)
    ensures r.Some? ==> r.value.originalUrl == key && r.value in items
    ensures r.Some? ==> (exists i :: 0 <= i < |items| && items[i] == r.value &&
                                     forall j :: 0 <= j < i ==> items[j].originalUrl != key)
    decreases |items|
  {
    if items == [] then None
    else if items[0].originalUrl == key then Some(items[0])
    else
      var r := Find(items[1..], key);
      assert HasKey(items, key) ==> HasKey(items[1..], key) by {
        if HasKey(items, key) {
          var i :| 0 <= i < |items| && items[i].originalUrl == key;
          assert items[1..][i - 1] == items[i];
        }
      }
      if r.Some? then
        var i :| 0 <= i < |items[1..]| && items[1..][i] == r.value &&
                 forall j :: 0 <= j < i ==> items[1..][j].originalUrl != key;
        assert items[i + 1] == r.value;
        assert forall j :: 0 <= j < i + 1 ==> items[j].originalUrl != key by {
          forall j | 0 <= j < i + 1 ensures items[j].originalUrl != key {
            if j > 0 { assert items[j] == items[1..][j - 1]; }
          }
        }
        r
      else r
  }

  /** The `setCartItems` updater of `handleAddToCart`: an item whose key is
      already present leaves the cart as it is, any other is appended. */
  function AddItem(items: seq<Product>, p: Product): (r: seq<Product>)
    ensures HasKey(items, p.originalUrl) ==> r == items
    ensures !HasKey(items, p.originalUrl) ==> r == items + [p]
    ensures HasKey(r, p.originalUrl)
    ensures UniqueKeys(items) ==> UniqueKeys(r)
  {
    if Find(items, p.originalUrl).Some? then items
    else
      assert (items + [p])[|items|] == p;
      items + [p]
  }

  /** `r` keeps some of the elements of `s`, in their order. */
  predicate IsSubsequence(r: seq<Product>, s: seq<Product>)
    decreases |s|
  {
    if s == [] then r == []
    else (r != [] && r[0] == s[0] && IsSubsequence(r[1..], s[1..])) || IsSubsequence(r, s[1..])
  }

  /** The `setCartItems` updater of `handleRemoveFromCart`:
      `items.filter(item => item.originalUrl !== key)`. */
  function RemoveItem(items: seq<Product>, key: string): (r: seq<Product>)
    ensures |r| <= |items|
    decreases |items|
  {
    if items == [] then []
    else if items[0].originalUrl != key then [items[0]] + RemoveItem(items[1..], key)
    else RemoveItem(items[1..], key)
  }

  /** After removing a key no item has it. */
  lemma {:induction false} RemoveItemDropsKey(items: seq<Product>, key: string)
    ensures !HasKey(RemoveItem(items, key), key)
    decreases |items|
  {
    if items != [] {
      var rest := RemoveItem(items[1..], key);
      RemoveItemDropsKey(items[1..], key);
      if items[0].originalUrl != key {
        var r := [items[0]] + rest;
        assert RemoveItem(items, key) == r;
        forall i | 0 <= i < |r| ensures r[i].originalUrl != key {
          if i > 0 { assert r[i] == rest[i - 1]; }
        }
      }
    }
  }

  /** Removing a key keeps every other item as often as it was there. */
  lemma {:induction false} RemoveItemCounts(items: seq<Product>, key: string)
    ensures forall x :: multiset(RemoveItem(items, key))[x] == (if x.originalUrl == key then 0 else multiset(items)[x])
    decreases |items|
  {
    if items != [] {
      var rest := RemoveItem(items[1..], key);
      RemoveItemCounts(items[1..], key);
      assert items == [items[0]] + items[1..];
      assert multiset(items) == multiset([items[0]]) + multiset(items[1..]);
      if items[0].originalUrl != key {
        assert RemoveItem(items, key) == [items[0]] + rest;
        assert multiset([items[0]] + rest) == multiset([items[0]]) + multiset(rest);
      } else {
        assert RemoveItem(items, key) == rest;
      }
    }
  }

  /** Removing a key no item has changes nothing. */
  lemma {:induction false} RemoveAbsentKey(items: seq<Product>, key: string)
    requires !HasKey(items, key)
    ensures RemoveItem(items, key) == items
    decreases |items|
  {
    if items != [] {
      forall i | 0 <= i < |items[1..]| ensures items[1..][i].originalUrl != key {
        assert items[1..][i] == items[i + 1];
      }
      RemoveAbsentKey(items[1..], key);
      assert items[0].originalUrl != key;
      assert items == [items[0]] + items[1..];
    }
  }

  /** Removing keeps the remaining items in their order. */
  lemma {:induction false} RemoveItemKeepsOrder(items: seq<Product>, key: string)
    ensures IsSubsequence(RemoveItem(items, key), items)
    decreases |items|
  {
    if items != [] {
      RemoveItemKeepsOrder(items[1..], key);
      var r := RemoveItem(items, key);
      if items[0].originalUrl != key {
        assert r[0] == items[0] && r[1..] == RemoveItem(items[1..], key);
      } else {
        assert r == RemoveItem(items[1..], key);
      }
    }
  }

  /** Removing keeps the keys unique: what remains is part of what was. */
  lemma {:induction false} RemovePreservesUnique(items: seq<Product>, key: string)
    requires UniqueKeys(items)
    ensures UniqueKeys(RemoveItem(items, key))
  {
    var r := RemoveItem(items, key);
    RemoveItemKeepsOrder(items, key);
    forall i, j | 0 <= i < j < |r| ensures r[i].originalUrl != r[j].originalUrl {
      SubsequenceIndices(r, items, i, j);
    }
  }

  /** Two positions of a subsequence come from two positions of the whole,
      in the same order. */
  lemma {:induction false} SubsequenceIndices(r: seq<Product>, s: seq<Product>, i: nat, j: nat)
    requires IsSubsequence(r, s) && i < j < |r|
    ensures exists i', j' :: 0 <= i' < j' < |s| && s[i'] == r[i] && s[j'] == r[j]
    decreases |s|
  {
    if r != [] && r[0] == s[0] && IsSubsequence(r[1..], s[1..]) {
      if i == 0 {
        var j' := SubsequenceIndex(r[1..], s[1..], j - 1);
        assert s[0] == r[0] && s[j' + 1] == r[j];
      } else {
        SubsequenceIndices(r[1..], s[1..], i - 1, j - 1);
        var i', j' :| 0 <= i' < j' < |s[1..]| && s[1..][i'] == r[1..][i - 1] && s[1..][j'] == r[1..][j - 1];
        assert s[i' + 1] == r[i] && s[j' + 1] == r[j];
      }
    } else {
      SubsequenceIndices(r, s[1..], i, j);
      var i', j' :| 0 <= i' < j' < |s[1..]| && s[1..][i'] == r[i] && s[1..][j'] == r[j];
      assert s[i' + 1] == r[i] && s[j' + 1] == r[j];
    }
  }

  /** Each element of a subsequence sits somewhere in the whole. */
  lemma {:induction false} SubsequenceIndex(r: seq<Product>, s: seq<Product>, j: nat) returns (j': nat)
    requires IsSubsequence(r, s) && j < |r|
    ensures j' < |s| && s[j'] == r[j]
    decreases |s|
  {
    if r != [] && r[0] == s[0] && IsSubsequence(r[1..], s[1..]) {
      if j == 0 {
        j' := 0;
      } else {
        var k := SubsequenceIndex(r[1..], s[1..], j - 1);
        j' := k + 1;
      }
    } else {
      var k := SubsequenceIndex(r, s[1..], j);
      j' := k + 1;
    }
  }

  /** Removing by key distributes over concatenation. */
  lemma {:induction false} RemoveAppend(a: seq<Product>, b: seq<Product>, key: string)
    ensures RemoveItem(a + b, key) == RemoveItem(a, key) + RemoveItem(b, key)
    decreases |a|
  {
    if a != [] {
      assert (a + b)[0] == a[0];
      assert (a + b)[1..] == a[1..] + b;
      RemoveAppend(a[1..], b, key);
      if a[0].originalUrl != key {
        assert RemoveItem(a + b, key) == [a[0]] + RemoveItem(a[1..] + b, key);
        assert RemoveItem(a, key) == [a[0]] + RemoveItem(a[1..], key);
      } else {
        assert RemoveItem(a + b, key) == RemoveItem(a[1..] + b, key);
        assert RemoveItem(a, key) == RemoveItem(a[1..], key);
      }
    } else {
      assert a + b == b;
    }
  }

  /** Adding an item and then removing its key leaves the cart as removing
      the key alone would. */
  lemma AddThenRemove(items: seq<Product>, p: Product)
    ensures RemoveItem(AddItem(items, p), p.originalUrl) == RemoveItem(items, p.originalUrl)
  {
    if !HasKey(items, p.originalUrl) {
      RemoveAppend(items, [p], p.originalUrl);
      assert RemoveItem([p], p.originalUrl) == RemoveItem([], p.originalUrl);
    }
  }

  /** Adding the same product twice is adding it once. */
  lemma AddIdempotent(items: seq<Product>, p: Product)
    ensures AddItem(AddItem(items, p), p) == AddItem(items, p)
  {
  }

  /** The state of the top-level component. */
  class Session {
    var messages: seq<ChatMessage>
    var cartItems: seq<Product>
    var isCartOpen: bool
    var isLoading: bool

    /** The initial state: the welcome entry alone, an empty and closed cart,
        nothing in flight. */
    constructor (now: int)
      ensures messages == [WelcomeMessage(now)]
      ensures cartItems == [] && !isCartOpen && !isLoading
    {
      messages := [WelcomeMessage(now)];
      cartItems := [];
      isCartOpen := false;
      isLoading := false;
    }

    /** The synchronous part of `handleSendMessage`: a blank url changes
        nothing; any other is appended as typed, untrimmed, and the request
        is marked in flight. `isLoading` is not consulted here. */
    method Submit(url: string, now: int)
      modifies this
      ensures AllWhitespace(url) ==> messages == old(messages) && isLoading == old(isLoading)
      ensures !AllWhitespace(url) ==> messages == old(messages) + [UserMessage(url, now)] && isLoading
      ensures cartItems == old(cartItems) && isCartOpen == old(isCartOpen)
    {
      TrimEmpty(url);
      if Trim(url) == [] {
        return;
      }
      messages := messages + [UserMessage(url, now)];
      isLoading := true;
    }

    /** The part of `handleSendMessage` after the extraction settles: exactly
        one AI entry is appended and `isLoading` is cleared on every path. */
    method Resolve(url: string, s: Settlement, now: int)
      modifies this
      ensures messages == old(messages) + [AiReply(url, s, now)]
      ensures !isLoading
      ensures cartItems == old(cartItems) && isCartOpen == old(isCartOpen)
    {
      messages := messages + [AiReply(url, s, now)];
      isLoading := false;
    }

    /** `handleAddToCart`: the cart gains `p` unless its key is present, and
        opens either way. */
    method AddToCart(p: Product)
      modifies this
      ensures cartItems == AddItem(old(cartItems), p) && isCartOpen
      ensures UniqueKeys(old(cartItems)) ==> UniqueKeys(cartItems)
      ensures messages == old(messages) && isLoading == old(isLoading)
    {
      cartItems := AddItem(cartItems, p);
      isCartOpen := true;
    }

    /** `handleRemoveFromCart`: every item with key `productUrl` goes. */
    method RemoveFromCart(productUrl: string)
      modifies this
      ensures cartItems == RemoveItem(old(cartItems), productUrl)
      ensures !HasKey(cartItems, productUrl)
      ensures UniqueKeys(old(cartItems)) ==> UniqueKeys(cartItems)
      ensures messages == old(messages) && isLoading == old(isLoading) && isCartOpen == old(isCartOpen)
    {
      ghost var before := cartItems;
      cartItems := RemoveItem(cartItems, productUrl);
      RemoveItemDropsKey(before, productUrl);
      if UniqueKeys(before) {
        RemovePreservesUnique(before, productUrl);
      }
    }

    /** The header's cart button. */
    method OpenCart()
      modifies this
      ensures isCartOpen
      ensures messages == old(messages) && cartItems == old(cartItems) && isLoading == old(isLoading)
    {
      isCartOpen := true;
    }

    /** The cart panel's close action. */
    method CloseCart()
      modifies this
      ensures !isCartOpen
      ensures messages == old(messages) && cartItems == old(cartItems) && isLoading == old(isLoading)
    {
      isCartOpen := false;
    }
  }
}
