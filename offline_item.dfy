/** Offline items (offline_item.cc): the identifier of a piece of offline
    content — a namespace and an id within it — with its equality and its
    ordering, and the OfflineItem record with its defaults and equality. */
module OfflineItems {
  import opened Common

  /** ContentId: a namespace and an id unique within it. */
  datatype ContentId = ContentId(nameSpace: string, id: string)

  /** ContentId::operator==. */
  predicate ContentIdEquals(a: ContentId, b: ContentId)
  {
    a.nameSpace == b.nameSpace && a.id == b.id
  }

  /** ContentId::operator<: std::tie compares the namespaces first and the
      ids only between equal namespaces. */
  predicate ContentIdLess(a: ContentId, b: ContentId)
  {
    StringLess(a.nameSpace, b.nameSpace) || (a.nameSpace == b.nameSpace && StringLess(a.id, b.id))
  }

  /** Equality is equality of both parts, that is of the whole identifier. */
  lemma ContentIdEqualsIsIdentity(a: ContentId, b: ContentId)
    ensures ContentIdEquals(a, b) <==> a == b
  {
  }

  /** The ordering is a strict total order whose incomparable pairs are the
      equal ones, as std::map and std::set keyed by ContentId need. */
  lemma ContentIdLessIsStrictTotalOrder(a: ContentId, b: ContentId, c: ContentId)
    ensures !ContentIdLess(a, a)
    ensures ContentIdLess(a, b) && ContentIdLess(b, c) ==> ContentIdLess(a, c)
    ensures !(ContentIdLess(a, b) && ContentIdLess(b, a))
    ensures ContentIdLess(a, b) || ContentIdEquals(a, b) || ContentIdLess(b, a)
  {
    StringLessIrreflexive(a.nameSpace);
    StringLessIrreflexive(a.id);
    StringLessTrichotomous(a.nameSpace, b.nameSpace);
    StringLessTrichotomous(a.id, b.id);
    if ContentIdLess(a, b) && ContentIdLess(b, c) {
      if StringLess(a.nameSpace, b.nameSpace) && StringLess(b.nameSpace, c.nameSpace) {
        StringLessTransitive(a.nameSpace, b.nameSpace, c.nameSpace);
      } else if a.nameSpace == b.nameSpace && b.nameSpace == c.nameSpace {
        StringLessTransitive(a.id, b.id, c.id);
      }
    }
  }

  datatype OfflineItemFilter =
    FilterAll | FilterPage | FilterVideo | FilterAudio | FilterImage | FilterDocument | FilterOther

  datatype OfflineItemState = InProgress | Pending | Complete | Cancelled | Interrupted | Failed | Paused

  /** OfflineItem, with the fields its equality compares; times are
      base::Time values and URLs their specs. */
  datatype OfflineItem = OfflineItem(
    id: ContentId,
    title: string,
    description: string,
    filter: OfflineItemFilter,
    totalSizeBytes: int,
    externallyRemoved: bool,
    creationTime: int,
    lastAccessedTime: int,
    pageUrl: string,
    originalUrl: string,
    isOffTheRecord: bool,
    state: OfflineItemState,
    isResumable: bool,
    receivedBytes: int,
    percentCompleted: int,
    timeRemainingMs: int)

  /** The constructor from an id; the default constructor is this with an
      empty id. Strings, times and URLs start empty or null. */
  function NewOfflineItem(id: ContentId): (r: OfflineItem)
    ensures r.id == id
    ensures r.filter == FilterOther && r.state == Complete
    ensures r.totalSizeBytes == 0 && r.receivedBytes == 0 && r.percentCompleted == 0 && r.timeRemainingMs == 0
    ensures !r.externallyRemoved && !r.isOffTheRecord && !r.isResumable
    ensures r.title == "" && r.description == "" && r.pageUrl == "" && r.originalUrl == ""
    ensures r.creationTime == 0 && r.lastAccessedTime == 0
  {
    OfflineItem(id, "", "", FilterOther, 0, false, 0, 0, "", "", false, Complete, false, 0, 0, 0)
  }

  /** OfflineItem(). */
  function DefaultOfflineItem(): OfflineItem
  {
    NewOfflineItem(ContentId("", ""))
  }

  /** OfflineItem::operator==: every one of the sixteen fields agrees. */
  predicate OfflineItemEquals(a: OfflineItem, b: OfflineItem)
  {
    ContentIdEquals(a.id, b.id) && a.title == b.title && a.description == b.description
    && a.filter == b.filter && a.totalSizeBytes == b.totalSizeBytes
    && a.externallyRemoved == b.externallyRemoved && a.creationTime == b.creationTime
    && a.lastAccessedTime == b.lastAccessedTime && a.pageUrl == b.pageUrl && a.originalUrl == b.originalUrl
    && a.isOffTheRecord == b.isOffTheRecord && a.state == b.state && a.isResumable == b.isResumable
    && a.receivedBytes == b.receivedBytes && a.percentCompleted == b.percentCompleted
    && a.timeRemainingMs == b.timeRemainingMs
  }

  /** Item equality is equality of the whole record, and two items made from
      ids are equal exactly when the ids are. */
  lemma OfflineItemEqualsIsIdentity(a: OfflineItem, b: OfflineItem, x: ContentId, y: ContentId)
    ensures OfflineItemEquals(a, b) <==> a == b
    ensures OfflineItemEquals(NewOfflineItem(x), NewOfflineItem(y)) <==> ContentIdEquals(x, y)
  {
  }
}
