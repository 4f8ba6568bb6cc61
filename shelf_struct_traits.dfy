/** The mojo traits of the shelf types (shelf_struct_traits.h): each shelf
    enum is converted to its mojom counterpart and back. ToMojom is total;
    FromMojom reports success and fills its out-parameter, here an Option.
    Every mojom enum gets one extra value, Undeclared, standing for a wire
    value that names none of the declared enumerators, which is where the
    source's NOTREACHED branch returns false. */
module ShelfTraits {
  import opened Common

  datatype ShelfAction =
    | ShelfActionNone
    | ShelfActionNewWindowCreated
    | ShelfActionWindowActivated
    | ShelfActionWindowMinimized
    | ShelfActionAppListShown

  datatype MojomShelfAction = MojomNone | MojomWindowCreated | MojomWindowActivated
                            | MojomWindowMinimized | MojomAppListShown | MojomActionUndeclared

  function ShelfActionToMojom(a: ShelfAction): MojomShelfAction
  {
    match a
    case ShelfActionNone => MojomNone
    case ShelfActionNewWindowCreated => MojomWindowCreated
    case ShelfActionWindowActivated => MojomWindowActivated
    case ShelfActionWindowMinimized => MojomWindowMinimized
    case ShelfActionAppListShown => MojomAppListShown
  }

  function ShelfActionFromMojom(m: MojomShelfAction): Option<ShelfAction>
  {
    match m
    case MojomNone => Some(ShelfActionNone)
    case MojomWindowCreated => Some(ShelfActionNewWindowCreated)
    case MojomWindowActivated => Some(ShelfActionWindowActivated)
    case MojomWindowMinimized => Some(ShelfActionWindowMinimized)
    case MojomAppListShown => Some(ShelfActionAppListShown)
    case MojomActionUndeclared => None
  }

  /** FromMojom inverts ToMojom, ToMojom inverts every successful FromMojom,
      and FromMojom succeeds exactly on the declared enumerators. The renamed
      pair NEW_WINDOW_CREATED / WINDOW_CREATED is matched. */
  lemma ShelfActionRoundTrip(a: ShelfAction, m: MojomShelfAction)
    ensures ShelfActionFromMojom(ShelfActionToMojom(a)) == Some(a)
    ensures ShelfActionFromMojom(m).Some? <==> m != MojomActionUndeclared
    ensures ShelfActionFromMojom(m).Some? ==> ShelfActionToMojom(ShelfActionFromMojom(m).value) == m
    ensures ShelfActionToMojom(ShelfActionNewWindowCreated) == MojomWindowCreated
  {
  }

  datatype ShelfAlignment =
    | ShelfAlignmentBottom
    | ShelfAlignmentLeft
    | ShelfAlignmentRight
    | ShelfAlignmentBottomLocked

  datatype MojomShelfAlignment = MojomBottom | MojomLeft | MojomRight | MojomBottomLocked | MojomAlignmentUndeclared

  function ShelfAlignmentToMojom(a: ShelfAlignment): MojomShelfAlignment
  {
    match a
    case ShelfAlignmentBottom => MojomBottom
    case ShelfAlignmentLeft => MojomLeft
    case ShelfAlignmentRight => MojomRight
    case ShelfAlignmentBottomLocked => MojomBottomLocked
  }

  function ShelfAlignmentFromMojom(m: MojomShelfAlignment): Option<ShelfAlignment>
  {
    match m
    case MojomBottom => Some(ShelfAlignmentBottom)
    case MojomLeft => Some(ShelfAlignmentLeft)
    case MojomRight => Some(ShelfAlignmentRight)
    case MojomBottomLocked => Some(ShelfAlignmentBottomLocked)
    case MojomAlignmentUndeclared => None
  }

  lemma ShelfAlignmentRoundTrip(a: ShelfAlignment, m: MojomShelfAlignment)
    ensures ShelfAlignmentFromMojom(ShelfAlignmentToMojom(a)) == Some(a)
    ensures ShelfAlignmentFromMojom(m).Some? <==> m != MojomAlignmentUndeclared
    ensures ShelfAlignmentFromMojom(m).Some? ==> ShelfAlignmentToMojom(ShelfAlignmentFromMojom(m).value) == m
  {
  }

  datatype ShelfAutoHideBehavior =
    | ShelfAutoHideBehaviorAlways
    | ShelfAutoHideBehaviorNever
    | ShelfAutoHideAlwaysHidden

  datatype MojomShelfAutoHideBehavior = MojomAlways | MojomNever | MojomHidden | MojomAutoHideUndeclared

  function ShelfAutoHideBehaviorToMojom(b: ShelfAutoHideBehavior): MojomShelfAutoHideBehavior
  {
    match b
    case ShelfAutoHideBehaviorAlways => MojomAlways
    case ShelfAutoHideBehaviorNever => MojomNever
    case ShelfAutoHideAlwaysHidden => MojomHidden
  }

  function ShelfAutoHideBehaviorFromMojom(m: MojomShelfAutoHideBehavior): Option<ShelfAutoHideBehavior>
  {
    match m
    case MojomAlways => Some(ShelfAutoHideBehaviorAlways)
    case MojomNever => Some(ShelfAutoHideBehaviorNever)
    case MojomHidden => Some(ShelfAutoHideAlwaysHidden)
    case MojomAutoHideUndeclared => None
  }

  /** As for ShelfAction; the renamed pair ALWAYS_HIDDEN / HIDDEN is matched. */
  lemma ShelfAutoHideBehaviorRoundTrip(b: ShelfAutoHideBehavior, m: MojomShelfAutoHideBehavior)
    ensures ShelfAutoHideBehaviorFromMojom(ShelfAutoHideBehaviorToMojom(b)) == Some(b)
    ensures ShelfAutoHideBehaviorFromMojom(m).Some? <==> m != MojomAutoHideUndeclared
    ensures ShelfAutoHideBehaviorFromMojom(m).Some? ==>
              ShelfAutoHideBehaviorToMojom(ShelfAutoHideBehaviorFromMojom(m).value) == m
    ensures ShelfAutoHideBehaviorToMojom(ShelfAutoHideAlwaysHidden) == MojomHidden
  {
  }

  datatype ShelfItemStatus = StatusClosed | StatusRunning | StatusActive | StatusAttention

  datatype MojomShelfItemStatus = MojomClosed | MojomRunning | MojomActive | MojomAttention | MojomStatusUndeclared

  function ShelfItemStatusToMojom(s: ShelfItemStatus): MojomShelfItemStatus
  {
    match s
    case StatusClosed => MojomClosed
    case StatusRunning => MojomRunning
    case StatusActive => MojomActive
    case StatusAttention => MojomAttention
  }

  function ShelfItemStatusFromMojom(m: MojomShelfItemStatus): Option<ShelfItemStatus>
  {
    match m
    case MojomClosed => Some(StatusClosed)
    case MojomRunning => Some(StatusRunning)
    case MojomActive => Some(StatusActive)
    case MojomAttention => Some(StatusAttention)
    case MojomStatusUndeclared => None
  }

  lemma ShelfItemStatusRoundTrip(s: ShelfItemStatus, m: MojomShelfItemStatus)
    ensures ShelfItemStatusFromMojom(ShelfItemStatusToMojom(s)) == Some(s)
    ensures ShelfItemStatusFromMojom(m).Some? <==> m != MojomStatusUndeclared
    ensures ShelfItemStatusFromMojom(m).Some? ==> ShelfItemStatusToMojom(ShelfItemStatusFromMojom(m).value) == m
  {
  }

  datatype ShelfItemType =
    | TypeAppPanel
    | TypePinnedApp
    | TypeAppList
    | TypeBrowserShortcut
    | TypeApp
    | TypeDialog
    | TypeUndefined

  datatype MojomShelfItemType = MojomPanel | MojomPinnedApp | MojomAppList | MojomBrowser
                              | MojomApp | MojomDialog | MojomUndefined | MojomTypeUndeclared

  function ShelfItemTypeToMojom(t: ShelfItemType): MojomShelfItemType
  {
    match t
    case TypeAppPanel => MojomPanel
    case TypePinnedApp => MojomPinnedApp
    case TypeAppList => MojomAppList
    case TypeBrowserShortcut => MojomBrowser
    case TypeApp => MojomApp
    case TypeDialog => MojomDialog
    case TypeUndefined => MojomUndefined
  }

  function ShelfItemTypeFromMojom(m: MojomShelfItemType): Option<ShelfItemType>
  {
    match m
    case MojomPanel => Some(TypeAppPanel)
    case MojomPinnedApp => Some(TypePinnedApp)
    case MojomAppList => Some(TypeAppList)
    case MojomBrowser => Some(TypeBrowserShortcut)
    case MojomApp => Some(TypeApp)
    case MojomDialog => Some(TypeDialog)
    case MojomUndefined => Some(TypeUndefined)
    case MojomTypeUndeclared => None
  }

  /** As for ShelfAction; the renamed pairs TYPE_APP_PANEL / PANEL and
      TYPE_BROWSER_SHORTCUT / BROWSER are matched. */
  lemma ShelfItemTypeRoundTrip(t: ShelfItemType, m: MojomShelfItemType)
    ensures ShelfItemTypeFromMojom(ShelfItemTypeToMojom(t)) == Some(t)
    ensures ShelfItemTypeFromMojom(m).Some? <==> m != MojomTypeUndeclared
    ensures ShelfItemTypeFromMojom(m).Some? ==> ShelfItemTypeToMojom(ShelfItemTypeFromMojom(m).value) == m
    ensures ShelfItemTypeToMojom(TypeAppPanel) == MojomPanel && ShelfItemTypeToMojom(TypeBrowserShortcut) == MojomBrowser
  {
  }

  datatype ShelfLaunchSource = LaunchFromUnknown | LaunchFromAppList | LaunchFromAppListSearch

  datatype MojomShelfLaunchSource = MojomUnknown | MojomLaunchAppList | MojomAppListSearch | MojomLaunchUndeclared

  function ShelfLaunchSourceToMojom(s: ShelfLaunchSource): MojomShelfLaunchSource
  {
    match s
    case LaunchFromUnknown => MojomUnknown
    case LaunchFromAppList => MojomLaunchAppList
    case LaunchFromAppListSearch => MojomAppListSearch
  }

  function ShelfLaunchSourceFromMojom(m: MojomShelfLaunchSource): Option<ShelfLaunchSource>
  {
    match m
    case MojomUnknown => Some(LaunchFromUnknown)
    case MojomLaunchAppList => Some(LaunchFromAppList)
    case MojomAppListSearch => Some(LaunchFromAppListSearch)
    case MojomLaunchUndeclared => None
  }

  lemma ShelfLaunchSourceRoundTrip(s: ShelfLaunchSource, m: MojomShelfLaunchSource)
    ensures ShelfLaunchSourceFromMojom(ShelfLaunchSourceToMojom(s)) == Some(s)
    ensures ShelfLaunchSourceFromMojom(m).Some? <==> m != MojomLaunchUndeclared
    ensures ShelfLaunchSourceFromMojom(m).Some? ==> ShelfLaunchSourceToMojom(ShelfLaunchSourceFromMojom(m).value) == m
  {
  }

  /** A ShelfItem without its image (the image accessor is defined outside
      this header). */
  datatype ShelfItem = ShelfItem(itemType: ShelfItemType, id: nat, status: ShelfItemStatus, appId: string,
                                 title: string, showsTooltip: bool, pinnedByPolicy: bool)

  /** The fields the StructTraits accessors hand to the serializer, in
      their declaration order. */
  datatype ShelfItemData = ShelfItemData(itemType: MojomShelfItemType, shelfId: nat, status: MojomShelfItemStatus,
                                         appId: string, title: string, showsTooltip: bool, pinnedByPolicy: bool)

  /** What the accessors write for an item; the enums go through their
      EnumTraits. */
  function WriteShelfItem(i: ShelfItem): ShelfItemData
  {
    ShelfItemData(ShelfItemTypeToMojom(i.itemType), i.id, ShelfItemStatusToMojom(i.status), i.appId, i.title,
                  i.showsTooltip, i.pinnedByPolicy)
  }

  /** Reading the written fields back through FromMojom gives the item. */
  function ReadShelfItem(d: ShelfItemData): Option<ShelfItem>
  {
    match (ShelfItemTypeFromMojom(d.itemType), ShelfItemStatusFromMojom(d.status))
    case (Some(t), Some(s)) => Some(ShelfItem(t, d.shelfId, s, d.appId, d.title, d.showsTooltip, d.pinnedByPolicy))
    case _ => None
  }

  /** The accessors pass every field through unchanged: the written data
      reads back as the same item, so two items with the same data are the
      same item. */
  lemma {:induction false} ShelfItemRoundTrip(i: ShelfItem, j: ShelfItem)
    ensures ReadShelfItem(WriteShelfItem(i)) == Some(i)
    ensures WriteShelfItem(i) == WriteShelfItem(j) ==> i == j
  {
    ShelfItemTypeRoundTrip(i.itemType, MojomTypeUndeclared);
    ShelfItemStatusRoundTrip(i.status, MojomStatusUndeclared);
    if WriteShelfItem(i) == WriteShelfItem(j) {
      ShelfItemTypeRoundTrip(j.itemType, MojomTypeUndeclared);
      ShelfItemStatusRoundTrip(j.status, MojomStatusUndeclared);
    }
  }
}
