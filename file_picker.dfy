/** The file picker of the composing form: which controls it offers for an
    action, and how a typed name or a dialog pick updates the order being edited. */
module FilePicker {
  import opened Orders

  /** What the open-file dialog hands back; a field the dialog leaves undefined is "" or None. */
  datatype DialogResult = DialogResult(attachmentName: string, fileObj: Option<FileData>, relativePath: string)

  /** The two path fields a picked file's relative path can go into. */
  datatype PathField = SourcePath | ExecutionPath

  /** `pathType`: a Move pick names the source, every other pick the execution path. */
  function TargetField(action: string): PathField {
    if action == MoveName then SourcePath else ExecutionPath
  }

  function FieldValue(o: Order, f: PathField): string {
    match f
    case SourcePath => o.sourcePath
    case ExecutionPath => o.executionPath
  }

  function OtherField(f: PathField): PathField {
    match f
    case SourcePath => ExecutionPath
    case ExecutionPath => SourcePath
  }

  /** The patch `setFileInfo` passes to `updateOrder`. */
  function ManualEntryPatch(text: string): OrderPatch {
    NoChange.(attachmentName := Some(text), attachmentType := Some("string"))
  }

  /** The order after the name is typed by hand. */
  function AfterManualEntry(o: Order, text: string): (r: Order)
    ensures r == o.(attachmentName := text, attachmentType := "string")
  {
    Merge(o, ManualEntryPatch(text))
  }

  /** The patch `openFilePicker` passes to `updateOrder`, or None when a Create
      pick came back without a file and nothing is updated. `current` is the
      order as the picker read it when the dialog was opened. */
  function PickPatch(current: Order, r: DialogResult): Option<OrderPatch> {
    if current.action == CreateName && r.fileObj.None? then None
    else
      var target := TargetField(current.action);
      var path := if FieldValue(current, target) != "" then FieldValue(current, target) else r.relativePath;
      var p := NoChange.(
        attachmentName := Some(r.attachmentName),
        attachmentFile := Some(r.fileObj),
        attachmentType := Some("file"));
      Some(match target
        case SourcePath => p.(sourcePath := Some(path))
        case ExecutionPath => p.(executionPath := Some(path)))
  }

  /** The order after a dialog pick. */
  function AfterPick(o: Order, r: DialogResult): (o': Order)
    ensures o.action == CreateName && r.fileObj.None? ==> o' == o
    ensures !(o.action == CreateName && r.fileObj.None?) ==>
      && o'.attachmentName == r.attachmentName
      && o'.attachmentFile == r.fileObj
      && o'.attachmentType == "file"
      && FieldValue(o', TargetField(o.action)) ==
           (if FieldValue(o, TargetField(o.action)) != "" then FieldValue(o, TargetField(o.action))
            else r.relativePath)
      && FieldValue(o', OtherField(TargetField(o.action))) == FieldValue(o, OtherField(TargetField(o.action)))
      && o'.action == o.action && o'.editingName == o.editingName && o'.useVscode == o.useVscode
  {
    match PickPatch(o, r)
    case None => o
    case Some(p) => Merge(o, p)
  }

  /** A Move pick writes only `sourcePath`, any other pick only `executionPath`,
      and a path already set is never overwritten. */
  lemma PickWritesOnePathField(o: Order, r: DialogResult)
    ensures AfterPick(o, r).executionPath == o.executionPath || o.action != MoveName
    ensures AfterPick(o, r).sourcePath == o.sourcePath || o.action == MoveName
    ensures o.sourcePath != "" ==> AfterPick(o, r).sourcePath == o.sourcePath
    ensures o.executionPath != "" ==> AfterPick(o, r).executionPath == o.executionPath
  {
    var t := TargetField(o.action);
    if !(o.action == CreateName && r.fileObj.None?) {
      assert OtherField(t) == (if o.action == MoveName then ExecutionPath else SourcePath);
    }
  }

  // ---------------------------------------------------------------------------
  // Which controls the picker shows
  // ---------------------------------------------------------------------------

  /** The folder radio and the direct-input radio share this condition. */
  predicate AllowsFolderAndTyping(action: string) {
    action != CreateName && action != DecompressName
  }

  /** The controls rendered for a radio state and an action. */
  datatype Controls = Controls(
    folderRadio: bool,
    vscodeToggle: bool,
    pickerRadio: bool,
    directInputRadio: bool,
    pickerButton: bool,
    textInput: bool)

  function VisibleControls(status: ClientStatus, action: string): Controls {
    Controls(
      AllowsFolderAndTyping(action),
      !status.isPickFile && action == ExecuteName,
      status.isPickFile,
      status.isPickFile && AllowsFolderAndTyping(action),
      status.isPickFile && status.isUsingFilePicker,
      status.isPickFile && !status.isUsingFilePicker)
  }

  /** Folders and typed names are offered for exactly five of the seven actions:
      a Create or Decompress order always targets a file picked in the dialog. */
  lemma FolderAndTypingOffered(status: ClientStatus, a: Action)
    ensures VisibleControls(status, Name(a)).folderRadio <==> a in {Move, Copy, Rename, Execute, Delete}
    ensures status.isPickFile ==>
      (VisibleControls(status, Name(a)).directInputRadio <==> a in {Move, Copy, Rename, Execute, Delete})
  {
  }

  /** The vscode toggle appears only in folder mode of an Execute order, and
      then the folder radio is on offer too. */
  lemma VscodeToggleOnlyForExecutedFolder(status: ClientStatus, action: string)
    ensures VisibleControls(status, action).vscodeToggle <==> !status.isPickFile && Kind(action) == Some(Execute)
    ensures VisibleControls(status, action).vscodeToggle ==> VisibleControls(status, action).folderRadio
  {
  }

  /** In file mode exactly one way of naming the file is shown. */
  lemma OneNamingControl(status: ClientStatus, action: string)
    requires status.isPickFile
    ensures VisibleControls(status, action).pickerButton != VisibleControls(status, action).textInput
  {
  }

  // ---------------------------------------------------------------------------
  // Handlers
  // ---------------------------------------------------------------------------

  /** `setFileInfo`. */
  method SetFileInfo(store: PackageStore, text: string)
    modifies store
    ensures store.current == AfterManualEntry(old(store.current), text)
    ensures store.orders == old(store.orders) && store.clientStatus == old(store.clientStatus)
    ensures store.infoMessage == old(store.infoMessage) && store.isInfoModalOpen == old(store.isInfoModalOpen)
  {
    store.UpdateOrder(ManualEntryPatch(text));
  }

  /** `openFilePicker`; the dialog's answer is a parameter. */
  method OpenFilePicker(store: PackageStore, r: DialogResult)
    modifies store
    ensures store.current == AfterPick(old(store.current), r)
    ensures store.orders == old(store.orders) && store.clientStatus == old(store.clientStatus)
    ensures store.infoMessage == old(store.infoMessage) && store.isInfoModalOpen == old(store.isInfoModalOpen)
  {
    var currentOrder := store.current;
    if currentOrder.action == CreateName && r.fileObj.None? {
      return;
    }
    var pathType := TargetField(currentOrder.action);
    var path := if FieldValue(currentOrder, pathType) != "" then FieldValue(currentOrder, pathType) else r.relativePath;
    var patch := NoChange.(
      attachmentName := Some(r.attachmentName),
      attachmentFile := Some(r.fileObj),
      attachmentType := Some("file"));
    if pathType == SourcePath {
      patch := patch.(sourcePath := Some(path));
    } else {
      patch := patch.(executionPath := Some(path));
    }
    store.UpdateOrder(patch);
  }

  /** The vscode checkbox's change handler. */
  method SetUseVscode(store: PackageStore, checked: bool)
    modifies store
    ensures store.current == old(store.current).(useVscode := checked)
    ensures store.orders == old(store.orders) && store.clientStatus == old(store.clientStatus)
    ensures store.infoMessage == old(store.infoMessage) && store.isInfoModalOpen == old(store.isInfoModalOpen)
  {
    store.UpdateOrder(NoChange.(useVscode := Some(checked)));
  }
}
