/** The input box and the top-level component working together: the box's
    gate reads the component's `isLoading`, and a request sent through it
    settles before the next one can be sent. */
module Conversation {
  import opened Types
  import opened JsString
  import opened App
  import opened ChatInput

  /** The chat log is the welcome entry followed by (user, AI) pairs, the
      last pair missing its AI entry exactly while a request is pending.
      User entries are text; an AI product entry carries the url of the user
      entry just before it. */
  ghost predicate WelcomeThenPairs(m: seq<ChatMessage>, pending: bool) {
    && |m| >= 1
    && m[0].sender == Ai && m[0].kind == TextMessage && m[0].content == TextContent(WelcomeText)
    && (pending <==> |m| % 2 == 0)
    && (forall i :: 1 <= i < |m| ==> (m[i].sender == User <==> i % 2 == 1))
    && (forall i :: 1 <= i < |m| && m[i].sender == User ==>
          m[i].kind == TextMessage && m[i].content.TextContent?)
    && (forall i :: 1 <= i < |m| && m[i].content.ProductContent? ==>
          m[i - 1].content == TextContent(m[i].content.product.originalUrl))
  }

  /** A pair is opened by a user entry when none is pending. */
  lemma OpenPair(m: seq<ChatMessage>, url: string, now: int)
    requires WelcomeThenPairs(m, false)
    ensures WelcomeThenPairs(m + [UserMessage(url, now)], true)
  {
    var m' := m + [UserMessage(url, now)];
    forall i | 1 <= i < |m'| && m'[i].content.ProductContent?
      ensures m'[i - 1].content == TextContent(m'[i].content.product.originalUrl)
    {
      assert i < |m|;
    }
  }

  /** The pending pair is closed by the reply to its url. */
  lemma ClosePair(m: seq<ChatMessage>, url: string, s: Settlement, now: int)
    requires WelcomeThenPairs(m, true)
    requires m[|m| - 1].content == TextContent(url)
    ensures WelcomeThenPairs(m + [AiReply(url, s, now)], false)
  {
    var m' := m + [AiReply(url, s, now)];
    forall i | 1 <= i < |m'| && m'[i].content.ProductContent?
      ensures m'[i - 1].content == TextContent(m'[i].content.product.originalUrl)
    {
      if i == |m| {
        assert m'[i - 1] == m[|m| - 1];
      }
    }
  }

  class Shop {
    const app: Session
    const box: InputBox
    /** The url whose extraction is in flight: at most one at a time. */
    var inFlight: Option<string>

    ghost predicate Valid()
      reads this, app, box
    {
      && WelcomeThenPairs(app.messages, app.isLoading)
      && (inFlight.Some? <==> app.isLoading)
      && (inFlight.Some? ==> app.messages[|app.messages| - 1].content == TextContent(inFlight.value))
    }

    constructor (now: int)
      ensures Valid() && fresh(app) && fresh(box)
      ensures app.messages == [WelcomeMessage(now)] && !app.isLoading
      ensures app.cartItems == [] && !app.isCartOpen && box.input == []
    {
      app := new Session(now);
      box := new InputBox();
      inFlight := None;
    }

    /** Typing into the box. */
    method Type(value: string)
      requires Valid()
      modifies box
      ensures Valid() && box.input == value
    {
      box.Change(value);
    }

    /** Pressing send: the box's gate, then `handleSendMessage` up to its
        `await`. A request starts exactly when the gate lets the text
        through; while one is in flight nothing is sent and nothing changes. */
    method Send(now: int)
      requires Valid()
      modifies this, app, box
      ensures Valid()
      ensures var sent := Submission(old(box.input), old(app.isLoading));
        && (sent.Some? ==> app.messages == old(app.messages) + [UserMessage(sent.value, now)]
                           && inFlight == sent && box.input == [])
        && (sent.None? ==> app.messages == old(app.messages) && inFlight == old(inFlight)
                           && box.input == old(box.input))
      ensures old(app.isLoading) ==> app.messages == old(app.messages) && inFlight == old(inFlight)
      ensures app.cartItems == old(app.cartItems) && app.isCartOpen == old(app.isCartOpen)
    {
      var sent := box.HandleSubmit(app.isLoading);
      if sent.Some? {
        OpenPair(app.messages, sent.value, now);
        app.Submit(sent.value, now);
        inFlight := sent;
      }
    }

    /** The in-flight extraction settles: its reply closes the pair and the
        next request may be sent. */
    method Settle(s: Settlement, now: int)
      requires Valid() && inFlight.Some?
      modifies this, app
      ensures Valid()
      ensures app.messages == old(app.messages) + [AiReply(old(inFlight).value, s, now)]
      ensures inFlight == None && !app.isLoading
      ensures app.cartItems == old(app.cartItems) && app.isCartOpen == old(app.isCartOpen)
    {
      ClosePair(app.messages, inFlight.value, s, now);
      app.Resolve(inFlight.value, s, now);
      inFlight := None;
    }
  }

  /** A worked example, not a model of any one function: a single
      paste -> reply -> cart run. The log has one entry at start, two while
      the request is in flight and three once the product has come back, and
      the product ends up in the cart under the pasted url. */
  method ProductToCart(details: ProductDetails, now: int)
  {
    var url := "http://store.example/item";
    var shop := new Shop(now);
    assert |shop.app.messages| == 1;
    shop.Type(url);
    assert !AllWhitespace(url) by {
      assert !IsWhitespace(url[0]);
    }
    assert Submission(url, false) == Some(url);
    shop.Send(now + 10);
    assert |shop.app.messages| == 2 && shop.app.isLoading;
    shop.Settle(Fulfilled(Some(details)), now + 20);
    assert |shop.app.messages| == 3 && !shop.app.isLoading;
    var entry := shop.app.messages[2];
    assert entry.kind == ProductMessage && entry.content.product.originalUrl == url;
    shop.app.AddToCart(entry.content.product);
    assert shop.app.cartItems == [entry.content.product];
  }
}
