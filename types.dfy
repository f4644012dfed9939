/** The records the shop's chat and cart exchange. */
module Types {

  datatype Option<+T> = None | Some(value: T)

  /** A product as the chat and the cart hold it; `originalUrl` is the page
      the user pasted and is the cart's key. */
  datatype Product = Product(
    name: string,
    description: string,
    price: string,
    imageUrls: seq<string>,
    storeName: string,
    originalUrl: string)

  /** A product as the extraction service hands it back: everything but
      `originalUrl`, which the caller attaches. */
  datatype ProductDetails = ProductDetails(
    name: string,
    description: string,
    price: string,
    imageUrls: seq<string>,
    storeName: string)

  /** `{ ...details, originalUrl: url }`: every member of the details is
      copied and `originalUrl` is the given url. */
  function WithOriginalUrl(d: ProductDetails, url: string): (p: Product)
    ensures p.originalUrl == url
    ensures p.name == d.name && p.description == d.description && p.price == d.price
    ensures p.imageUrls == d.imageUrls && p.storeName == d.storeName
  {
    Product(d.name, d.description, d.price, d.imageUrls, d.storeName, url)
  }

  datatype MessageType = TextMessage | ProductMessage

  datatype Sender = User | Ai

  datatype Content = TextContent(text: string) | ProductContent(product: Product)

  /** One entry of the chat log. `id` is a clock reading; nothing makes it unique. */
  datatype ChatMessage = ChatMessage(id: int, sender: Sender, kind: MessageType, content: Content)
}
