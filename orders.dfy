/** The order record every component shares, the seven action names, and the
    package store the composing screen reads and updates (`usePackageStore`). */
module Orders {

  datatype Option<T> = None | Some(value: T)

  /** The seven actions an order can request. */
  datatype Action = Create | Move | Copy | Rename | Execute | Delete | Decompress

  const CreateName: string := "생성하기"
  const MoveName: string := "이동하기"
  const CopyName: string := "복제하기"
  const RenameName: string := "수정하기"
  const ExecuteName: string := "실행하기"
  const DeleteName: string := "삭제하기"
  const DecompressName: string := "압축해제하기"

  /** The string an order's `action` field holds for each action. */
  function Name(a: Action): string {
    match a
    case Create => CreateName
    case Move => MoveName
    case Copy => CopyName
    case Rename => RenameName
    case Execute => ExecuteName
    case Delete => DeleteName
    case Decompress => DecompressName
  }

  /** Decodes an `action` string; None for the empty string and any unknown name. */
  function Kind(action: string): (k: Option<Action>)
    ensures k.Some? ==> Name(k.value) == action
    ensures k.None? ==> forall a: Action :: Name(a) != action
  {
    if action == CreateName then Some(Create)
    else if action == MoveName then Some(Move)
    else if action == CopyName then Some(Copy)
    else if action == RenameName then Some(Rename)
    else if action == ExecuteName then Some(Execute)
    else if action == DeleteName then Some(Delete)
    else if action == DecompressName then Some(Decompress)
    else None
  }

  lemma KindOfName(a: Action)
    ensures Kind(Name(a)) == Some(a)
  {
  }

  /** The browser File object a Create pick carries (only what identifies it). */
  datatype FileData = FileData(baseName: string, mimeType: string)

  /** One order. A string field that JavaScript leaves undefined is "" here:
      every check in the components treats both alike (`!field`). */
  datatype Order = Order(
    action: string,
    attachmentName: string,
    attachmentType: string,
    attachmentFile: Option<FileData>,
    sourcePath: string,
    executionPath: string,
    editingName: string,
    useVscode: bool)

  /** The order the store holds after `clearOrder`: every field unset. */
  const EmptyOrder := Order("", "", "", None, "", "", "", false)

  /** The argument of `updateOrder`: one entry per key present in the object
      literal. A key written with the value undefined is present, which is why
      `attachmentFile` is an Option of an Option. */
  datatype OrderPatch = OrderPatch(
    action: Option<string>,
    attachmentName: Option<string>,
    attachmentType: Option<string>,
    attachmentFile: Option<Option<FileData>>,
    sourcePath: Option<string>,
    executionPath: Option<string>,
    editingName: Option<string>,
    useVscode: Option<bool>)

  const NoChange := OrderPatch(None, None, None, None, None, None, None, None)

  function Override<T>(patch: Option<T>, current: T): T {
    match patch
    case Some(v) => v
    case None => current
  }

  /** `{ ...current, ...patch }`: keys in the patch win, the rest are kept. */
  function Merge(o: Order, p: OrderPatch): Order {
    Order(
      Override(p.action, o.action),
      Override(p.attachmentName, o.attachmentName),
      Override(p.attachmentType, o.attachmentType),
      Override(p.attachmentFile, o.attachmentFile),
      Override(p.sourcePath, o.sourcePath),
      Override(p.executionPath, o.executionPath),
      Override(p.editingName, o.editingName),
      Override(p.useVscode, o.useVscode))
  }

  /** The information modal's text: a server message, or the generic
      COMMON_ALERT.ERROR_OCCUR text (whose wording is not part of this model). */
  datatype InfoMessage = Blank | ServerMessage(text: string) | ErrorOccur

  /** The file picker's radio-button state kept in the store. */
  datatype ClientStatus = ClientStatus(isPickFile: bool, isUsingFilePicker: bool)

  /** The client-side package store: the orders composed so far, the order
      being edited, the information modal and the picker's radio state. */
  class PackageStore {
    var orders: seq<Order>
    var current: Order
    var infoMessage: InfoMessage
    var isInfoModalOpen: bool
    var clientStatus: ClientStatus

    /** The store's initial radio state is not part of this model: it is a parameter. */
    constructor (status: ClientStatus)
      ensures orders == [] && current == EmptyOrder
      ensures infoMessage == Blank && !isInfoModalOpen
      ensures clientStatus == status
    {
      orders := [];
      current := EmptyOrder;
      infoMessage := Blank;
      isInfoModalOpen := false;
      clientStatus := status;
    }

    /** `addOrder`: appends one order to the package. */
    method AddOrder(o: Order)
      modifies this
      ensures orders == old(orders) + [o]
      ensures current == old(current) && infoMessage == old(infoMessage)
      ensures isInfoModalOpen == old(isInfoModalOpen) && clientStatus == old(clientStatus)
    {
      orders := orders + [o];
    }

    /** `clearOrder`: resets the order being edited. */
    method ClearOrder()
      modifies this
      ensures current == EmptyOrder
      ensures orders == old(orders) && infoMessage == old(infoMessage)
      ensures isInfoModalOpen == old(isInfoModalOpen) && clientStatus == old(clientStatus)
    {
      current := EmptyOrder;
    }

    /** `updateOrder`: merges a patch into the order being edited. */
    method UpdateOrder(p: OrderPatch)
      modifies this
      ensures current == Merge(old(current), p)
      ensures orders == old(orders) && infoMessage == old(infoMessage)
      ensures isInfoModalOpen == old(isInfoModalOpen) && clientStatus == old(clientStatus)
    {
      current := Merge(current, p);
    }

    /** `setClientStatus`: merges the given radio flags into the picker state. */
    method SetClientStatus(isPickFile: Option<bool>, isUsingFilePicker: Option<bool>)
      modifies this
      ensures clientStatus == ClientStatus(
        Override(isPickFile, old(clientStatus).isPickFile),
        Override(isUsingFilePicker, old(clientStatus).isUsingFilePicker))
      ensures orders == old(orders) && current == old(current)
      ensures infoMessage == old(infoMessage) && isInfoModalOpen == old(isInfoModalOpen)
    {
      clientStatus := ClientStatus(
        Override(isPickFile, clientStatus.isPickFile),
        Override(isUsingFilePicker, clientStatus.isUsingFilePicker));
    }

    method SetInfoMessage(m: InfoMessage)
      modifies this
      ensures infoMessage == m
      ensures orders == old(orders) && current == old(current)
      ensures isInfoModalOpen == old(isInfoModalOpen) && clientStatus == old(clientStatus)
    {
      infoMessage := m;
    }

    method OpenInfoModal()
      modifies this
      ensures isInfoModalOpen
      ensures orders == old(orders) && current == old(current)
      ensures infoMessage == old(infoMessage) && clientStatus == old(clientStatus)
    {
      isInfoModalOpen := true;
    }
  }
}
