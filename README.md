# Denkuan Shop chat core, in Dafny

A model of the logic of a browser chat shop: the user pastes a product link,
the app asks a hosted language model for the product's details, decodes the
model's free-text reply into a product object, shows it as a card whose image
falls back through the product's image list, and lets the user keep products
in a cart keyed by the pasted url.

The model has one module per source file of the core, plus two support
modules:

- `JsString` (jsstring.dfy): the JavaScript built-ins the core depends on:
  `trim` (ECMAScript WhiteSpace and LineTerminator characters), `slice` with
  negative and clamped indices, and `startsWith`.
- `Types` (types.dfy): the product, message type, sender and chat message
  records of `types.ts`.
- `GeminiService` (geminiservice.dfy): the reply decoding of
  `extractProductDetails`: trim, strip a ```` ```json ```` or ```` ``` ````
  fence by dropping the first 7 or 3 and the last 3 characters, the empty
  check, `JSON.parse` as an input function, and the `imageUrls` check,
  with every exception collapsed to `null`.
- `App` (app.dfy): the top-level component's state as a class `Session`
  (`messages`, `cartItems`, `isCartOpen`, `isLoading`). `handleSendMessage`
  becomes two transitions: `Submit` (before the `await`) and `Resolve`
  (after it settles). The cart updaters are functions.
- `ChatInput` (chatinput.dfy): the input box with its `input` field and the
  send gate, which alone keeps a second request from starting while one is
  in flight.
- `ProductCard` (productcard.dfy): the image index that advances on each
  load failure, its reset when the product's url changes, and the image
  shown.
- `Conversation` (conversation.dfy): the input box wired to the top-level
  component. Its invariant is that the log is the welcome entry followed by
  (user, AI) pairs, with at most one request in flight. `ProductToCart` is
  a worked example of one paste, reply and add-to-cart run; it has no
  contract of its own.

In a few places the code does less than the app's evident intent (unique
message ids, refusing a send while a request is in flight, a placeholder
once every image has failed). The model follows the code:

- The code does not make message ids unique. They are clock readings
  (`Date.now()`, and `Date.now() + 1` for the reply), so the model takes
  them as parameters and claims nothing about them.
- `handleSendMessage` itself does not refuse a send while `isLoading`. Only
  the input box's gate does (components/ChatInput.tsx:15). `App.Session.Submit`
  therefore appends whatever its `isLoading`, and the rule "no second
  request" is proved for the composition in `Conversation`.
- The user entry and the url given to the extraction are the text as typed,
  untrimmed. Only the emptiness tests trim.
- Fence stripping drops the last three characters whether or not they are
  backticks (`GeminiService.CleanDropsUnfencedTail`).
- When every image fails, the card keeps showing the last image, not the
  placeholder the comment at components/ProductCard.tsx:33 speaks of
  (`ProductCard.DisplayAfterAllErrors`).
- Removing from the cart removes every item with the key (it is a
  `filter`). Under the unique-key invariant that is at most one item.

## Model

| member | source | states |
|---|---|---|
| `JsString.TrimStart` | services/geminiService.ts:34 | the result is no longer than the input and does not start with whitespace |
| `JsString.TrimStartDrops` | services/geminiService.ts:34 | what the leading trim keeps is a suffix of the input and what it drops is all whitespace |
| `JsString.TrimEnd` | services/geminiService.ts:34 | the result is no longer than the input and does not end with whitespace |
| `JsString.TrimEndDrops` | services/geminiService.ts:34 | what the trailing trim keeps is a prefix of the input and what it drops is all whitespace |
| `JsString.Trim` | services/geminiService.ts:34 | `trim` leaves no whitespace at either end and is no longer than the input |
| `JsString.TrimEmpty` | App.tsx:31 | `trim` gives the empty string exactly when the input is all whitespace (the `!url.trim()` test) |
| `JsString.TrimPadded` | services/geminiService.ts:34 | `trim` is determined by what it keeps: whitespace, core, whitespace trims to the core |
| `JsString.TrimIdempotent` | services/geminiService.ts:34-40 | trimming again changes nothing |
| `JsString.StartsWithConcat` | services/geminiService.ts:37-39 | `startsWith(prefix)` holds of any `prefix + rest`, and a string that starts with `prefix` is `prefix` followed by its remainder |
| `JsString.Slice` | services/geminiService.ts:38-40 | `slice(start, end)` has length `to - from` after clamping both indices, or 0 when `from >= to`, and is the characters from `from` to `to` |
| `JsString.SliceMiddle` | services/geminiService.ts:38-40 | slicing from the head's length to minus the non-empty tail's length gives back exactly the middle of `head + middle + tail` |
| `JsString.RelativeIndex` | services/geminiService.ts:38 | a `slice` index is clamped into `0 .. length` |
| `JsString.SliceDropLastThree` | services/geminiService.ts:38-40 | `s.slice(a, -3)` is the characters from `a` up to the last three, or empty when `s` has fewer than `a + 3` characters |
| `GeminiService.GetProperty` | services/geminiService.ts:50 | reading a property throws exactly on `null`, finds a member exactly on an object holding that key, and gives that member's value |
| `GeminiService.FalsyValues` | services/geminiService.ts:50 | `!v` holds exactly for `null`, `false`, `0` and the empty string; arrays and objects are truthy |
| `GeminiService.CheckImageUrls` | services/geminiService.ts:50-55 | a parsed value is returned unchanged exactly when it is an object whose `imageUrls` is a non-empty array; otherwise `null`, or a throw exactly when the value is `null` |
| `GeminiService.CleanReply` | services/geminiService.ts:33-41 | the text handed to `JSON.parse` has no whitespace at its ends |
| `GeminiService.CleanJsonFence` | services/geminiService.ts:34-38 | a trimmed reply starting with "```json" cleans to `trim(t[7 .. len-3])`, or to "" when shorter than 10 characters |
| `GeminiService.CleanPlainFence` | services/geminiService.ts:37-41 | a trimmed reply starting with "```" but not "```json" cleans to `trim(t[3 .. len-3])`, or to "" when shorter than 6 characters |
| `GeminiService.CleanUnfenced` | services/geminiService.ts:34-41 | a reply without a leading fence cleans to its trim |
| `GeminiService.CleanDropsUnfencedTail` | services/geminiService.ts:38 | the last three characters are dropped even when they are not a closing fence |
| `GeminiService.TaggedFenceRoundTrip` | services/geminiService.ts:34-38 | "```json\n" + s + "\n```" cleans back to exactly `s`, for `s` without whitespace at its ends |
| `GeminiService.PlainFenceRoundTrip` | services/geminiService.ts:34-41 | "```\n" + s + "\n```" cleans back to exactly `s`, for `s` without whitespace at its ends |
| `GeminiService.ExtractProductDetails` | services/geminiService.ts:33-64 | the result is the parsed value, unchanged, exactly when the call succeeded with text, the cleaned text is non-empty, it parses, and the value passes the `imageUrls` check; `null` on every other path, exceptions included; the parser is reached exactly when the cleaned text is non-empty |
| `GeminiService.EmptyImageUrlsRejected` | services/geminiService.ts:50-53 | an object with `imageUrls: []` is rejected whatever its other members |
| `Types.WithOriginalUrl` | App.tsx:49 | the spread copies every member of the details and sets `originalUrl` to the pasted url |
| `App.AiReply` | App.tsx:42-63 | the reply entry is from the AI with id `now + 1`; it is a product entry exactly when a product came back, carrying that product with `originalUrl` set to the pasted url; otherwise it is the fixed apology text, for a `null` result and a rejection alike |
| `App.Find` | App.tsx:71 | `find` returns an item exactly when some item has the key; the item it returns has that key and no earlier item has it (the first match) |
| `App.AddItem` | App.tsx:70-75 | a present key leaves the cart unchanged, an absent one appends the product at the end; the key is present afterwards and unique keys stay unique |
| `App.RemoveItem` | App.tsx:80 | the filtered cart is no longer than the cart |
| `App.RemoveItemDropsKey` | App.tsx:80 | after removing a key no item has it |
| `App.RemoveItemCounts` | App.tsx:80 | every item with another key stays as often as it was there; items with the key are gone |
| `App.RemoveItemKeepsOrder` | App.tsx:80 | the remaining items keep their relative order (a subsequence of the cart) |
| `App.RemoveAbsentKey` | App.tsx:79-81 | removing a key no item has leaves the cart unchanged |
| `App.RemovePreservesUnique` | App.tsx:79-81 | removing keeps the keys unique |
| `App.RemoveAppend` | App.tsx:80 | removing a key from a concatenation removes it from each part |
| `App.AddThenRemove` | App.tsx:69-81 | adding a product then removing its key is the same as removing the key |
| `App.AddIdempotent` | App.tsx:69-75 | adding the same product twice is adding it once |
| `App.Session.constructor` | App.tsx:13-23 | the initial state is the single welcome entry from the AI, an empty closed cart and no request in flight |
| `App.Session.Submit` | App.tsx:30-40 | a blank url changes nothing; any other appends one user text entry holding the untrimmed url and sets `isLoading`; the cart is untouched |
| `App.Session.Resolve` | App.tsx:42-66 | exactly one AI entry is appended after the earlier ones and `isLoading` is false on every path |
| `App.Session.AddToCart` | App.tsx:69-77 | the cart becomes `AddItem` of the old cart, unique keys stay unique, and the cart opens |
| `App.Session.RemoveFromCart` | App.tsx:79-81 | the cart becomes `RemoveItem` of the old cart, no item keeps the key, unique keys stay unique |
| `App.Session.OpenCart` | App.tsx:85 | the header button opens the cart and changes nothing else |
| `App.Session.CloseCart` | App.tsx:105 | the cart's close action closes it and changes nothing else |
| `ChatInput.Submission` | components/ChatInput.tsx:15-16 | the gate forwards the text exactly when it is not blank and nothing is loading, and forwards it verbatim; while loading it forwards nothing |
| `ChatInput.InputBox.constructor` | components/ChatInput.tsx:11 | the field starts empty |
| `ChatInput.InputBox.Change` | components/ChatInput.tsx:27 | typing sets the field to exactly the entered value |
| `ChatInput.InputBox.HandleSubmit` | components/ChatInput.tsx:13-19 | what is sent is the gate's decision on the old field; the field is emptied when something was sent and kept otherwise |
| `ProductCard.ImageList` | components/ProductCard.tsx:24 | the list the card tries is the product's `imageUrls` |
| `ProductCard.NextIndex` | components/ProductCard.tsx:26-31 | a load failure moves the index by exactly one when a later image exists and leaves it otherwise; it never passes the last index |
| `ProductCard.IndexAfterErrors` | components/ProductCard.tsx:26-31 | after `k` repeated `handleImageError` steps from 0 the index is at most `k` and never past the last index |
| `ProductCard.IndexAfterErrorsIs` | components/ProductCard.tsx:17-31 | after `k` failures from 0 the index is `k`, or the last index once `k` reaches it |
| `ProductCard.DisplayImage` | components/ProductCard.tsx:34 | the shown image is `imageUrls[index]` when that exists and is non-empty, the placeholder otherwise |
| `ProductCard.DisplayAfterFewErrors` | components/ProductCard.tsx:28-34 | after `k` failures with `k` below the list length the card shows image `k`: list order is trial order |
| `ProductCard.DisplayAfterAllErrors` | components/ProductCard.tsx:28-34 | once every image has failed the card keeps showing the last image, not the placeholder |
| `ProductCard.Card.constructor` | components/ProductCard.tsx:17 | the index starts at 0 |
| `ProductCard.Card.HandleImageError` | components/ProductCard.tsx:26-31 | the index takes one `NextIndex` step, never decreases, and stays within the list |
| `ProductCard.Card.ReceiveProduct` | components/ProductCard.tsx:19-22 | a product with a different `originalUrl` resets the index to 0; the same url keeps it |
| `ProductCard.Card.Display` | components/ProductCard.tsx:34 | the card shows the current image when it exists and is non-empty, and the placeholder otherwise: for an index past the end (an empty list included) and for an empty url |
| `Conversation.OpenPair` | App.tsx:33-40 | appending a user entry to a log of complete pairs leaves one pair open |
| `Conversation.ClosePair` | App.tsx:42-63 | appending the reply to the open pair's url completes the pairs, and a product reply carries the url of its user entry |
| `Conversation.Shop.constructor` | App.tsx:13-23 | the composed system starts with the welcome entry alone, nothing in flight and an empty field |
| `Conversation.Shop.Type` | components/ChatInput.tsx:27 | typing changes only the field |
| `Conversation.Shop.Send` | components/ChatInput.tsx:13-19 | a request starts exactly when the gate forwards the text, appending one user entry; while a request is in flight nothing is appended and none starts; the log stays welcome-then-pairs |
| `Conversation.Shop.Settle` | App.tsx:42-66 | the in-flight request's reply closes its pair, nothing is left in flight and `isLoading` is false |

## Left out

- The language-model client, its API key, the prompt and the
  `generateContent` call (services/geminiService.ts:6, :11-31) are a network
  call. Their outcome is the `Reply` input: the call failed, or it returned
  a response whose `text` may be undefined.
- `JSON.parse` (services/geminiService.ts:48) is a library call. It is the
  input function `parse`, which either throws a SyntaxError or returns a
  JSON value.
- The cast `as Omit<Product, 'originalUrl'>` (services/geminiService.ts:55)
  checks nothing at run time. The extraction returns the parsed JSON value;
  `App.Session.Resolve` takes the settled result as typed `ProductDetails`,
  and the model does not relate that record's fields to the JSON value's
  members.
- `console.error` logging (services/geminiService.ts:44, :51, :58-62;
  App.tsx:56) has no effect on state.
- `Date.now()` (App.tsx:15, :34, :46, :58) reads the clock. Each transition
  takes the reading as a parameter `now`.
- `async`/`await` and React's batching of state updates: `handleSendMessage`
  is two transitions. `Conversation.Shop.Settle` requires a request in
  flight, because a settlement only ever follows its own submission.
- The `disabled` attributes of the input and the button
  (components/ChatInput.tsx:30, :34) are not modelled. Typing is allowed at
  any time, which admits more behaviours than the page does; the gate's
  `isLoading` test alone keeps a second request from starting.
- `ProductCard.Card.ReceiveProduct`: React renders once with the new product
  and the old index before the effect resets it. Only the state after the
  effect is modelled. A new product with the same `originalUrl` but a
  shorter image list keeps the old index, as the code does. The invariant is
  only promised when the url changes or the list stays the same.
- The card's image list is a list of strings, as `types.ts` declares. Other
  element types a model reply could contain are not modelled.
- String indices are over characters, while JavaScript's `slice` counts
  UTF-16 code units. They differ only for characters outside the Basic
  Multilingual Plane.
- Rendering, styling, the scroll effect (App.tsx:26-28), `window.open`
  checkout (components/Cart.tsx:14, components/ProductCard.tsx:13), and the
  presentation-only components/Cart.tsx and components/Header.tsx are not
  modelled.
