/** The CSS `content` property's value as ComputedStyle holds it
    (ContentData.cpp): a singly linked list of items — an image, a text, a
    counter or a quote — which is copied node by node when a style is copied. */
module ContentDataModel {

  datatype QuoteType = OpenQuote | CloseQuote | NoOpenQuote | NoCloseQuote

  /** CounterContent: the counter's name, its list style and, for
      counters(), the separator. */
  datatype CounterContent = CounterContent(identifier: string, listStyle: nat, separator: string)

  /** What one node carries: ImageContentData (the style image, null allowed,
      by identity), TextContentData, CounterContentData or QuoteContentData. */
  datatype ContentItem = ImageContent(image: nat) | TextContent(text: string)
                       | CounterItem(counter: CounterContent) | QuoteContent(quote: QuoteType)

  class ContentData {
    var item: ContentItem
    var next: ContentData?

    /** A node of the variant the item names, on its own. */
    constructor(item: ContentItem)
      ensures this.item == item && next == null
    {
      this.item := item;
      next := null;
    }

    /** setNext. */
    method SetNext(next: ContentData?)
      modifies this`next
      ensures this.next == next
    {
      this.next := next;
    }

    /** cloneInternal: a fresh, unlinked node with a copy of this item. */
    method CloneInternal() returns (r: ContentData)
      ensures fresh(r) && r.item == item && r.next == null
    {
      r := new ContentData(item);
    }

    /** clone: a fresh list with a copy of every item, in order; the
        original list is only read. `nodes` is the original list, node by
        node, and `copy` the new one. */
    method Clone(ghost nodes: seq<ContentData>) returns (result: ContentData, ghost copy: seq<ContentData>)
      requires IsList(nodes) && nodes[0] == this
      ensures IsList(copy) && copy[0] == result
      ensures Items(copy) == Items(nodes)
      ensures forall i :: 0 <= i < |copy| ==> fresh(copy[i])
      ensures IsList(nodes) && Items(nodes) == old(Items(nodes))
    {
      result := CloneInternal();
      copy := [result];
      var lastNewData := result;
      var contentData := next;
      var k := 1;
      while contentData != null
        invariant 1 <= k <= |nodes|
        invariant contentData == (if k < |nodes| then nodes[k] else null)
        invariant |copy| == k && copy[0] == result && lastNewData == copy[k - 1]
        invariant forall i :: 0 <= i < k ==> fresh(copy[i]) && copy[i].item == nodes[i].item
        invariant forall i :: 0 <= i < k - 1 ==> copy[i].next == copy[i + 1]
        invariant lastNewData.next == null
        invariant IsList(nodes)
        decreases |nodes| - k
      {
        var newData := contentData.CloneInternal();
        lastNewData.SetNext(newData);
        lastNewData := lastNewData.next;
        copy := copy + [newData];
        contentData := contentData.next;
        k := k + 1;
      }
      ItemsOfList(copy, nodes);
    }
  }

  /** `nodes` is a whole list: each node's next is the following one, and the
      last node ends it. */
  ghost predicate IsList(nodes: seq<ContentData>)
    reads set i | 0 <= i < |nodes| :: nodes[i]
  {
    |nodes| > 0
    && (forall i :: 0 <= i < |nodes| - 1 ==> nodes[i].next == nodes[i + 1])
    && nodes[|nodes| - 1].next == null
  }

  /** The items of a list, in order. */
  ghost function Items(nodes: seq<ContentData>): (r: seq<ContentItem>)
    reads set i | 0 <= i < |nodes| :: nodes[i]
    ensures |r| == |nodes|
    ensures forall i :: 0 <= i < |nodes| ==> r[i] == nodes[i].item
  {
    seq(|nodes|, i requires 0 <= i < |nodes| reads nodes => nodes[i].item)
  }

  lemma ItemsOfList(copy: seq<ContentData>, nodes: seq<ContentData>)
    requires |copy| == |nodes|
    requires forall i :: 0 <= i < |copy| ==> copy[i].item == nodes[i].item
    ensures Items(copy) == Items(nodes)
  {
  }

  /** ContentData::create for an image. */
  method CreateImage(image: nat) returns (r: ContentData)
    ensures fresh(r) && r.item == ImageContent(image) && IsList([r])
  {
    r := new ContentData(ImageContent(image));
  }

  /** ContentData::create for a text. */
  method CreateText(text: string) returns (r: ContentData)
    ensures fresh(r) && r.item == TextContent(text) && IsList([r])
  {
    r := new ContentData(TextContent(text));
  }

  /** ContentData::create for a counter. */
  method CreateCounter(counter: CounterContent) returns (r: ContentData)
    ensures fresh(r) && r.item == CounterItem(counter) && IsList([r])
  {
    r := new ContentData(CounterItem(counter));
  }

  /** ContentData::create for a quote. */
  method CreateQuote(quote: QuoteType) returns (r: ContentData)
    ensures fresh(r) && r.item == QuoteContent(quote) && IsList([r])
  {
    r := new ContentData(QuoteContent(quote));
  }
}
