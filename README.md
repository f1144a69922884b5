# DeliOrder client: order composing, package processing and package history

DeliOrder lets a user compose a *package*: an ordered list of at most five
file-system *orders*. Each order has one of seven actions: 생성하기 (create),
이동하기 (move), 복제하기 (copy), 수정하기 (rename), 실행하기 (execute),
삭제하기 (delete) and 압축해제하기 (decompress). A receiving machine then
runs the orders in sequence. This project models four renderer components of
the Electron client, and the client-side package store they share.

- `Orders` (`orders.dfy`) holds the shared pieces:
  - the order record and the seven action names;
  - the `{ ...current, ...patch }` merge behind `updateOrder`;
  - the package store, a class with the orders composed so far, the order
    being edited, the information modal and the picker's radio state.
- `CreatingOrder` (`creating_order.dfy`) is the composing form:
  - `validate`, with its first-failure-wins chain of checks;
  - `hasExtension`, which is the regular expression `/\.[^/.]+$/`;
  - `handleSubmit`, which appends a valid order to a package of fewer than
    five orders.
- `FilePicker` (`file_picker.dfy`) covers:
  - how a typed name updates the edited order;
  - how a dialog pick updates it: a move pick fills `sourcePath`, any other
    pick fills `executionPath`, and a path already set is kept;
  - which radios, toggles and inputs are shown.
- `ProcessConfirm` (`process_confirm.dfy`) is the confirmation screen on the
  receiving side:
  - the start path, the end path and the numbered overview lines;
  - the sequential dispatch loop `handleProcessPackage`. It awaits one
    main-process handler per order and collects the results. An exception
    stops the loop; an Axios error is then shown in the information modal,
    and any other exception is swallowed.
- `MyPackages` (`my_packages.dfy`) is the history screen:
  - newest-first sorting on arrival, and the toggle between newest-first and
    oldest-first;
  - the "전송 가능" / "만료됨" status;
  - the per-order description line and the share link.
- `Text` (`text.dfy`) renders decimal numbers, with a parse back, so that
  line numbers can be reasoned about.

Conventions:

- A JavaScript string field that may be `undefined` is `""` here. Every check
  in these components (`!field`, `a || b`) treats the two alike.
- Timestamps are integers: milliseconds since the epoch, as `Date.parse`
  returns them.
- The main-process handlers behind `window.api` are a `Bridge` object. Its
  reply to a call is a function of the calls made before and of the call
  itself. That history stands in for the file-system state that earlier
  orders leave behind. Each call is appended to the bridge's log.

## Model

Source cells are paths from the repository root.

| member | source | states |
|---|---|---|
| Orders.Kind | src/renderer/src/Components/ReceivingPackage/ProcessConfirm/index.tsx:47-71 | a decoded action's name is the string decoded; no action is named by a string that decodes to None |
| Orders.KindOfName | src/renderer/src/Components/ReceivingPackage/ProcessConfirm/index.tsx:47-68 | each of the seven action names decodes to its own action |
| Orders.PackageStore.AddOrder | src/renderer/src/Components/CreatingPackage/CreatingOrder/index.tsx:77 | the order is appended to the package and nothing else in the store changes |
| Orders.PackageStore.ClearOrder | src/renderer/src/Components/CreatingPackage/CreatingOrder/index.tsx:78 | the edited order is reset to the all-unset order and nothing else changes |
| Orders.PackageStore.UpdateOrder | src/renderer/src/Components/CreatingPackage/CreatingOrder/FilePicker/index.tsx:30-35 | the edited order becomes the spread of the patch over it: keys in the patch win and the rest are kept; no other store field changes |
| Orders.PackageStore.SetClientStatus | src/renderer/src/Components/CreatingPackage/CreatingOrder/FilePicker/index.tsx:50-60 | only the radio flags given are replaced; the other flag and the rest of the store are unchanged |
| Orders.PackageStore.SetInfoMessage | src/renderer/src/Components/ReceivingPackage/ProcessConfirm/index.tsx:79-83 | the information message is replaced and nothing else changes |
| Orders.PackageStore.OpenInfoModal | src/renderer/src/Components/ReceivingPackage/ProcessConfirm/index.tsx:84 | the information modal is open afterwards and nothing else changes |
| CreatingOrder.TrailingStemLength | src/renderer/src/Components/CreatingPackage/CreatingOrder/index.tsx:28-30 | the counted suffix is made only of characters other than '/' and '.', and the character before it is '/' or '.' |
| CreatingOrder.HasExtensionIsPatternMatch | src/renderer/src/Components/CreatingPackage/CreatingOrder/index.tsx:28-30 | `HasExtension(s)` holds exactly when `/\.[^/.]+$/` matches s at some position: a '.' followed by one or more non-'/', non-'.' characters running to the end |
| CreatingOrder.HasExtensionExamples | src/renderer/src/Components/CreatingPackage/CreatingOrder/index.tsx:28-30 | "a.txt" and ".bashrc" have an extension; "a.", "a" and "x.d/f" do not |
| CreatingOrder.ValidateReportsFirstViolation | src/renderer/src/Components/CreatingPackage/CreatingOrder/index.tsx:32-53 | `validate` returns error e exactly when check e fails and every earlier check passes, and returns nothing exactly when no check fails |
| CreatingOrder.MissingActionReportedFirst | src/renderer/src/Components/CreatingPackage/CreatingOrder/index.tsx:32-34 | an order without an action is reported as such, whatever its other fields hold |
| CreatingOrder.SourcePathOnlyForMove | src/renderer/src/Components/CreatingPackage/CreatingOrder/index.tsx:44-46 | when every other check passes, a missing source path fails validation exactly for a move order, with UNDEFINED_SOURCE_PATH |
| CreatingOrder.RenameNeedsExtension | src/renderer/src/Components/CreatingPackage/CreatingOrder/index.tsx:48-53 | a rename order whose new name is present but has no extension fails with UNDEFINED_EXTENSION_NAME |
| CreatingOrder.Submit | src/renderer/src/Components/CreatingPackage/CreatingOrder/index.tsx:60-79 | the package grows by one exactly when it holds fewer than 5 orders and the edited order validates. The appended order is the edited one and the edited order is then reset. Otherwise the package and the edited order are unchanged and a message is shown: MAX_ORDER_LIMIT at 5 or more orders, else exactly the error `validate` returned. On success the message is left as it was. Earlier orders are never touched, at most 5 orders are kept, and all-valid packages stay all-valid |
| CreatingOrder.SessionKeepsPackageBounded | src/renderer/src/Components/CreatingPackage/CreatingOrder/index.tsx:60-79 | over any sequence of edits, submits and clicks, a package that starts with at most five valid orders only grows, never exceeds five orders, and holds only orders that validated |
| CreatingOrder.OrderForm.HandleSubmit | src/renderer/src/Components/CreatingPackage/CreatingOrder/index.tsx:60-79 | the store's orders, the edited order and the message become `Submit` of their old values; the information modal and radio state are untouched |
| CreatingOrder.OrderForm.HandleInput | src/renderer/src/Components/CreatingPackage/CreatingOrder/index.tsx:56-58 | only the edited order's `editingName` changes, to the typed text; the package, the information modal and the radio state are unchanged |
| CreatingOrder.OrderForm.ClearMessage | src/renderer/src/Components/CreatingPackage/CreatingOrder/index.tsx:23-25 | the form's message is cleared |
| FilePicker.AfterManualEntry | src/renderer/src/Components/CreatingPackage/CreatingOrder/FilePicker/index.tsx:10-15 | typing a name sets `attachmentName` to it and `attachmentType` to "string", and leaves every other field as it was |
| FilePicker.AfterPick | src/renderer/src/Components/CreatingPackage/CreatingOrder/FilePicker/index.tsx:17-39 | a create pick without a file changes nothing. Any other pick sets the name, the file and type "file". The target path field keeps a value it already had, and otherwise takes the dialog's relative path. The other path field, the action, the new name and the vscode flag are unchanged |
| FilePicker.PickWritesOnePathField | src/renderer/src/Components/CreatingPackage/CreatingOrder/FilePicker/index.tsx:27-35 | a move pick can change only `sourcePath` and any other pick only `executionPath`; a path already set is never overwritten |
| FilePicker.FolderAndTypingOffered | src/renderer/src/Components/CreatingPackage/CreatingOrder/FilePicker/index.tsx:54-55 | the folder radio, and in file mode the direct-input radio, are shown exactly for move, copy, rename, execute and delete orders |
| FilePicker.VscodeToggleOnlyForExecutedFolder | src/renderer/src/Components/CreatingPackage/CreatingOrder/FilePicker/index.tsx:67 | the vscode checkbox is shown exactly in folder mode of an execute order, and then the folder radio is shown too |
| FilePicker.OneNamingControl | src/renderer/src/Components/CreatingPackage/CreatingOrder/FilePicker/index.tsx:107-122 | in file mode exactly one of the picker button and the text input is shown |
| FilePicker.SetFileInfo | src/renderer/src/Components/CreatingPackage/CreatingOrder/FilePicker/index.tsx:10-15 | the store's edited order becomes `AfterManualEntry` of the old one; the package, the information modal and the radio state are unchanged |
| FilePicker.OpenFilePicker | src/renderer/src/Components/CreatingPackage/CreatingOrder/FilePicker/index.tsx:17-39 | the store's edited order becomes `AfterPick` of the old one and the dialog's answer; the package, the information modal and the radio state are unchanged |
| FilePicker.SetUseVscode | src/renderer/src/Components/CreatingPackage/CreatingOrder/FilePicker/index.tsx:72-74 | only the edited order's `useVscode` changes, to the checkbox state; the package, the information modal and the radio state are unchanged |
| ProcessConfirm.PathSummaryOfJoinedPackages | src/renderer/src/Components/ReceivingPackage/ProcessConfirm/index.tsx:23-27 | the start path is the first order's execution path and the end path the last one's: joining two packages keeps the first one's start and the second one's end, and a one-order package starts where it ends |
| ProcessConfirm.OverviewLine | src/renderer/src/Components/ReceivingPackage/ProcessConfirm/index.tsx:29-37 | line i starts with the decimal numeral of i + 1 followed by ". " |
| ProcessConfirm.Overview | src/renderer/src/Components/ReceivingPackage/ProcessConfirm/index.tsx:29-37 | one line per order, line i describing order i under number i + 1 |
| ProcessConfirm.OverviewLineNumber | src/renderer/src/Components/ReceivingPackage/ProcessConfirm/index.tsx:30-35 | the run of digits that opens line i reads exactly i + 1 |
| ProcessConfirm.OverviewLinesDistinct | src/renderer/src/Components/ReceivingPackage/ProcessConfirm/index.tsx:29-37 | two overview lines of one package are never equal, so the lines are usable as the React keys they serve as |
| ProcessConfirm.RenameLineShowsNewName | src/renderer/src/Components/ReceivingPackage/ProcessConfirm/index.tsx:32-33 | a rename line ends with the new name, "로 " and the action |
| ProcessConfirm.VscodeMarkerIff | src/renderer/src/Components/ReceivingPackage/ProcessConfirm/index.tsx:34-35 | a non-rename line ends with "vscode 로 " and the action exactly when the order asks for vscode |
| ProcessConfirm.HandlerForIsOneToOne | src/renderer/src/Components/ReceivingPackage/ProcessConfirm/index.tsx:47-70 | a handler is chosen exactly for the seven action names, and different names choose different handlers |
| ProcessConfirm.Bridge.Invoke | src/renderer/src/Components/ReceivingPackage/ProcessConfirm/index.tsx:49-67 | the reply is the bridge's answer to the call given the calls made before, and the call is appended to the log |
| ProcessConfirm.TraceDispatchesByAction | src/renderer/src/Components/ReceivingPackage/ProcessConfirm/index.tsx:45-73 | a completed run makes at most one call per order, each to the handler its order's action selects |
| ProcessConfirm.TraceOfKnownActions | src/renderer/src/Components/ReceivingPackage/ProcessConfirm/index.tsx:45-73 | when every action is known, call k goes to order k's handler with order k |
| ProcessConfirm.TraceOfUnknownActions | src/renderer/src/Components/ReceivingPackage/ProcessConfirm/index.tsx:69-71 | orders with unknown actions call no handler at all |
| ProcessConfirm.TurnMeetsOutcome | src/renderer/src/Components/ReceivingPackage/ProcessConfirm/index.tsx:46-72 | one loop turn completes exactly when its order's handler returns; it then appends the returned text (or "알 수 없는 작업입니다" for an unknown action) to the results, and otherwise aborts with the raised failure |
| ProcessConfirm.OutcomesOfInit | src/renderer/src/Components/ReceivingPackage/ProcessConfirm/index.tsx:45-73 | an order's outcome does not depend on the orders after it |
| ProcessConfirm.ReplayCompleted | src/renderer/src/Components/ReceivingPackage/ProcessConfirm/index.tsx:42-76 | the run completes exactly when every order's turn returns. It then yields one result per order, in order, each the outcome of that order after the calls of the orders before it. The calls made are the whole package's trace |
| ProcessConfirm.ReplayAborted | src/renderer/src/Components/ReceivingPackage/ProcessConfirm/index.tsx:42-86 | an aborted run has a first failing order: every earlier order returned, and the run's failure is that order's |
| ProcessConfirm.AbortedRunStops | src/renderer/src/Components/ReceivingPackage/ProcessConfirm/index.tsx:42-77 | once a prefix of the package aborts, the orders after it change nothing: no further call is made |
| ProcessConfirm.ProcessConfirmView.constructor | src/renderer/src/Components/ReceivingPackage/ProcessConfirm/index.tsx:15-27 | the view starts with no results and the result modal closed, for a non-empty package |
| ProcessConfirm.ProcessConfirmView.HandleProcessPackage | src/renderer/src/Components/ReceivingPackage/ProcessConfirm/index.tsx:39-87 | the bridge's log grows by exactly the replayed run's calls. On completion the results are stored and the result modal is opened. On an exception the results and the result modal are untouched; an Axios error sets the server message (or ERROR_OCCUR without a response) and opens the information modal; any other exception is swallowed. The package store's orders, edited order and radio state are untouched |
| MyPackages.Insert | src/renderer/src/Components/MyPackages/index.tsx:47-52 | inserting into a sorted history keeps it sorted and adds exactly that record |
| MyPackages.SortHistory | src/renderer/src/Components/MyPackages/index.tsx:47-52 | sorting yields a list ordered by creation time in the chosen direction, holding exactly the same records |
| MyPackages.SortedHeadsAgree | src/renderer/src/Components/MyPackages/index.tsx:93-103 | two sorted lists of the same records with distinct creation times start with the same record |
| MyPackages.SortedPermutationIsUnique | src/renderer/src/Components/MyPackages/index.tsx:93-103 | with distinct creation times, two sorted lists of the same records are equal, so the sorted order does not depend on the order the server sent |
| MyPackages.InsertKeepsTies | src/renderer/src/Components/MyPackages/index.tsx:47-52 | the inserted record lands before every record created at the same time, and the others keep their order |
| MyPackages.SortKeepsTies | src/renderer/src/Components/MyPackages/index.tsx:93-103 | the sort is stable, as the built-in sort is: for every creation time, the records created then come out in the order they went in |
| MyPackages.TailsKeepTies | src/renderer/src/Components/MyPackages/index.tsx:93-103 | two lists with the same head and the same ties keep the same ties after the head is dropped |
| MyPackages.HeadTimesAgree | src/renderer/src/Components/MyPackages/index.tsx:93-103 | two sorted lists of the same records start at the same creation time |
| MyPackages.TiedHeadsAgree | src/renderer/src/Components/MyPackages/index.tsx:93-103 | two sorted lists of the same records with the same ties start with the same record |
| MyPackages.SortedTiesAreUnique | src/renderer/src/Components/MyPackages/index.tsx:93-103 | two sorted lists of the same records with the same ties are equal: a stable sort's result is determined by its input |
| MyPackages.SortKeepsSortedHistory | src/renderer/src/Components/MyPackages/index.tsx:93-103 | resorting an already sorted history leaves it as it is, even where creation times repeat |
| MyPackages.ToggleTwiceRestores | src/renderer/src/Components/MyPackages/index.tsx:87-107 | toggling twice from the newest-first state returns to newest-first and restores the original list, even where creation times repeat |
| MyPackages.HistoryView.constructor | src/renderer/src/Components/MyPackages/index.tsx:22-25 | the screen starts with no history and newest first |
| MyPackages.HistoryView.ReceiveHistory | src/renderer/src/Components/MyPackages/index.tsx:47-52 | the fetched history is stored sorted newest first, and the sort state is untouched |
| MyPackages.HistoryView.ToggleSort | src/renderer/src/Components/MyPackages/index.tsx:87-107 | the sort state flips and the history is resorted in the new direction, holding the same records |
| MyPackages.ToWholeSecond | src/renderer/src/Components/MyPackages/index.tsx:143-144 | `Date.parse(String(new Date()))` drops the milliseconds: the result is at most the current time and less than a second before it |
| MyPackages.StatusLabel | src/renderer/src/Components/MyPackages/index.tsx:149-152 | the status is "전송 가능" or "만료됨": transferable whenever the deadline is after now, and expired whenever it is at least a second before now |
| MyPackages.WholeSecondMonotone | src/renderer/src/Components/MyPackages/index.tsx:143-144 | truncating to whole seconds never reverses two instants |
| MyPackages.ExpiryIsPermanent | src/renderer/src/Components/MyPackages/index.tsx:149-152 | a package once shown as expired stays expired at every later time |
| MyPackages.Describe | src/renderer/src/Components/MyPackages/index.tsx:157-183 | an order's line opens with the decimal numeral of its index + 1 and ends with a space and the action |
| MyPackages.SourceSegmentOnlyWhenPresent | src/renderer/src/Components/MyPackages/index.tsx:165-169 | the line for an order with source path s is the line without a source, with s followed by "에서 " spliced in |
| MyPackages.NewNameSegmentOnlyWhenPresent | src/renderer/src/Components/MyPackages/index.tsx:175-179 | the line for an order with new name e is the line without one, with the quoted e followed by "(으)로 " spliced in |
| MyPackages.PlaceMarkerDistinguishesMove | src/renderer/src/Components/MyPackages/index.tsx:173 | a move order's execution path is marked differently from every other order's |
| MyPackages.ShareLink | src/renderer/src/Components/MyPackages/index.tsx:193-197 | the link is "electron-deliorder://open?packageId=" followed by exactly the serial number |
| MyPackages.ShareLinkRoundTrip | src/renderer/src/Components/MyPackages/index.tsx:193-197 | the package id read back from a share link is the serial number it was made from |
| MyPackages.ShareLinkInjective | src/renderer/src/Components/MyPackages/index.tsx:193-197 | different packages get different share links |
| Text.Decimal | src/renderer/src/Components/ReceivingPackage/ProcessConfirm/index.tsx:30 | a number renders as a non-empty string of digits, a single digit exactly for numbers below 10 |
| Text.ParseDecimalOfDecimal | src/renderer/src/Components/ReceivingPackage/ProcessConfirm/index.tsx:30 | reading a rendered number back gives the number |
| Text.DecimalInjective | src/renderer/src/Components/MyPackages/index.tsx:160 | different numbers render differently |
| Text.DigitPrefix | src/renderer/src/Components/MyPackages/index.tsx:160 | the digit run that opens a string is all digits, and is not followed by another digit |
| Text.DigitPrefixOfDigitsThen | src/renderer/src/Components/MyPackages/index.tsx:160-163 | a numeral followed by a non-digit is exactly the opening digit run |

## Left out

- The package store's source is not part of this model. `PackageStore` assumes
  the store's own contract: `addOrder` appends, `clearOrder` resets,
  `updateOrder` spreads the patch over the edited order, and `setClientStatus`
  spreads the given flags. Its initial radio state is a constructor parameter.
- Texts of `CREATE_ORDER_ALERT`, `VALIDATION_MESSAGES`, `COMMON_ALERT` and
  `GUIDE_MESSAGES` are not part of this model. They are tags
  (`ValidationError`, `FormMessage`, `InfoMessage.ErrorOccur`). The form shows
  a message exactly when the tag is not `NoMessage`.
- Absent string fields are `""`. Template literals in the source print
  "undefined" for an absent field; the model's overview and description lines
  print nothing in its place.
- The main-process handlers (download, move, copy, rename, execute, delete,
  unzip), the file system, the open-file dialog and the HTTP requests are
  outside the model. A handler's reply and the dialog's answer are
  parameters. A handler that resolves with no value is modelled as returning
  a string.
- React rendering, hooks, navigation, the clipboard write, the token refresh
  and the fetch error handling of `MyPackages` are outside the model. Only
  the state updates and the rendered values that the model names are covered.
- `MyPackages` timestamps are integers. A date string that `Date.parse` cannot
  read (NaN, for which every comparison is false) is not modelled.
- OpenFilePicker: the source reads the order as rendered when the picker
  opened. The model reads the store's edited order when the dialog answers.
  Both agree unless the order is edited while the dialog is open.
- OpenFilePicker: the `try`/`catch` around the dialog only logs. A dialog
  that rejects is a call that changes nothing, which is not modelled
  separately.
- `ProcessConfirm` has a `closeModal` callback and the result list's
  rendering. Neither is modelled.
- The older `ReceivingPackage` screen runs every order at once with
  `Promise.all`. It is not part of this model; only the sequential loop is.
- The main process's guard against critical paths is not part of this model.
- StatusLabel: for a deadline in the same whole second as now but before it,
  the status depends on the milliseconds dropped. The contract fixes the
  status only outside that one-second window. `StatusLabel`'s definition
  gives the exact value.
- `PackageIdOf` is not in the source. It is a reference inverse, used to
  state that a share link determines its package.
- The preload wrappers around each handler (`src/preload/index.ts:45-93`)
  catch every error and resolve with `undefined`. In the shipped client a
  failing handler therefore yields an undefined result and the loop goes on.
  The model lets a handler raise, so that the loop's `catch` branch is
  covered; an undefined result is one more returned value.
- StartPath, EndPath and the `ProcessConfirm` view require a non-empty
  package. For an empty package the source throws a TypeError while
  rendering (`orders[0].executionPath`), and that case is not modelled.
