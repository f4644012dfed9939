/** The product card's image fallback: an index into the product's image
    list that moves forward on each load failure and stops at the last image. */
module ProductCard {
  import opened Types

  const PlaceholderImage: string := "https://picsum.photos/400/300"

  /** The list the card tries: the product's `imageUrls` when non-empty,
      the empty list otherwise (the same list, for a typed product). */
  function ImageList(p: Product): (urls: seq<string>)
    ensures urls == p.imageUrls
  {
    if |p.imageUrls| > 0 then p.imageUrls else []
  }

  /** The largest index the card reaches on a list of `len` images. */
  function LastIndex(len: nat): nat {
    if len == 0 then 0 else len - 1
  }

  /** `handleImageError`'s step: one further while a later image exists,
      otherwise stay. */
  function NextIndex(len: nat, i: nat): (r: nat)
    ensures r == i + 1 <==> i + 1 < len
    ensures r == i || r == i + 1
    ensures i <= LastIndex(len) ==> r <= LastIndex(len)
  {
    if i < len - 1 then i + 1 else i
  }

  /** The index after `k` load failures, starting from 0. */
  function IndexAfterErrors(len: nat, k: nat): (r: nat)
    ensures r <= k && r <= LastIndex(len)
  {
    if k == 0 then 0 else NextIndex(len, IndexAfterErrors(len, k - 1))
  }

  /** After `k` failures the card is at image `k`, or at the last image
      once `k` has reached it: the list order is the trial order. */
  lemma {:induction false} IndexAfterErrorsIs(len: nat, k: nat)
    ensures IndexAfterErrors(len, k) == if k < LastIndex(len) then k else LastIndex(len)
  {
    if k > 0 {
      IndexAfterErrorsIs(len, k - 1);
    }
  }

  /** `imageUrls[index] || placeholder`: the placeholder stands in for an
      index past the end and for an empty url. */
  function DisplayImage(urls: seq<string>, index: nat): (r: string)
    ensures index < |urls| && urls[index] != [] ==> r == urls[index]
    ensures index >= |urls| || urls[index] == [] ==> r == PlaceholderImage
  {
    if index < |urls| && urls[index] != [] then urls[index] else PlaceholderImage
  }

  /** Fewer failures than images: the card shows image `k`. */
  lemma DisplayAfterFewErrors(urls: seq<string>, k: nat)
    requires k < |urls| && urls[k] != []
    ensures DisplayImage(urls, IndexAfterErrors(|urls|, k)) == urls[k]
  {
    IndexAfterErrorsIs(|urls|, k);
  }

  /** Every image failed: the card keeps the last image rather than falling
      back to the placeholder. */
  lemma DisplayAfterAllErrors(urls: seq<string>, k: nat)
    requires |urls| > 0 && k >= |urls| - 1 && urls[|urls| - 1] != []
    ensures DisplayImage(urls, IndexAfterErrors(|urls|, k)) == urls[|urls| - 1]
  {
    IndexAfterErrorsIs(|urls|, k);
  }

  class Card {
    var product: Product
    var currentImageIndex: nat

    /** The index stays within the list, or at 0 for an empty list. */
    ghost predicate Valid()
      reads this
    {
      currentImageIndex <= LastIndex(|ImageList(product)|)
    }

    constructor (p: Product)
      ensures product == p && currentImageIndex == 0
      ensures Valid()
    {
      product := p;
      currentImageIndex := 0;
    }

    /** `handleImageError`. */
    method HandleImageError()
      requires Valid()
      modifies this
      ensures currentImageIndex == NextIndex(|ImageList(product)|, old(currentImageIndex))
      ensures old(currentImageIndex) <= currentImageIndex
      ensures product == old(product)
      ensures Valid()
    {
      var imageUrls := ImageList(product);
      if currentImageIndex < |imageUrls| - 1 {
        currentImageIndex := currentImageIndex + 1;
      }
    }

    /** A new `product` prop, with the effect keyed on its `originalUrl`:
        the index goes back to 0 when the url differs and stays otherwise. */
    method ReceiveProduct(p: Product)
      requires Valid()
      modifies this
      ensures product == p
      ensures p.originalUrl != old(product.originalUrl) ==> currentImageIndex == 0
      ensures p.originalUrl == old(product.originalUrl) ==> currentImageIndex == old(currentImageIndex)
      ensures p.originalUrl != old(product.originalUrl) || p.imageUrls == old(product.imageUrls) ==> Valid()
    {
      var previousUrl := product.originalUrl;
      product := p;
      if p.originalUrl != previousUrl {
        currentImageIndex := 0;
      }
    }

    /** The image the card shows. */
    function Display(): (r: string)
      reads this
      ensures currentImageIndex < |product.imageUrls| && product.imageUrls[currentImageIndex] != [] ==>
        r == product.imageUrls[currentImageIndex]
      ensures currentImageIndex >= |product.imageUrls| || product.imageUrls[currentImageIndex] == [] ==>
        r == PlaceholderImage
    {
      DisplayImage(ImageList(product), currentImageIndex)
    }
  }
}
