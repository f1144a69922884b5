/** The order-composing form: field validation of the order being edited and
    the submit handler that appends it to a package of at most five orders. */
module CreatingOrder {
  import opened Orders

  /** The six CREATE_ORDER_ALERT kinds `validate` can return. */
  datatype ValidationError =
    | UndefinedAction
    | UndefinedAttachment
    | UndefinedExecutionPath
    | UndefinedSourcePath
    | UndefinedEditingName
    | UndefinedExtensionName

  /** The text shown under the form. */
  datatype FormMessage = NoMessage | Invalid(error: ValidationError) | MaxOrderLimit

  const MaximumOrderNumber: nat := 5

  // ---------------------------------------------------------------------------
  // hasExtension: the regular expression /\.[^/.]+$/
  // ---------------------------------------------------------------------------

  predicate IsStemChar(c: char) {
    c != '/' && c != '.'
  }

  /** The number of trailing characters of s that are neither '/' nor '.'. */
  function TrailingStemLength(s: string): (k: nat)
    ensures k <= |s|
    ensures forall j :: |s| - k <= j < |s| ==> IsStemChar(s[j])
    ensures k < |s| ==> !IsStemChar(s[|s| - k - 1])
  {
    if s == [] || !IsStemChar(s[|s| - 1]) then 0
    else TrailingStemLength(s[..|s| - 1]) + 1
  }

  /** `hasExtension`: s ends with a '.' followed by one or more characters,
      none of them '/' or '.'. */
  predicate HasExtension(s: string) {
    var k := TrailingStemLength(s);
    0 < k < |s| && s[|s| - k - 1] == '.'
  }

  /** The regular expression matches s at position i (with `$` at the end of s). */
  ghost predicate ExtensionMatchAt(s: string, i: int) {
    0 <= i < |s| - 1 && s[i] == '.' &&
    forall j :: i < j < |s| ==> IsStemChar(s[j])
  }

  lemma HasExtensionIsPatternMatch(s: string)
    ensures HasExtension(s) <==> exists i :: ExtensionMatchAt(s, i)
  {
    var k := TrailingStemLength(s);
    if HasExtension(s) {
      assert ExtensionMatchAt(s, |s| - k - 1);
    }
    if i :| ExtensionMatchAt(s, i) {
      assert k == |s| - i - 1;
    }
  }

  lemma HasExtensionExamples()
    ensures HasExtension("a.txt") && HasExtension(".bashrc")
    ensures !HasExtension("a.") && !HasExtension("a") && !HasExtension("x.d/f")
  {
    HasExtensionIsPatternMatch("a.txt");
    assert ExtensionMatchAt("a.txt", 1);
    HasExtensionIsPatternMatch(".bashrc");
    assert ExtensionMatchAt(".bashrc", 0);
    HasExtensionIsPatternMatch("a.");
    HasExtensionIsPatternMatch("a");
    HasExtensionIsPatternMatch("x.d/f");
    assert !IsStemChar("x.d/f"[3]);
  }

  // ---------------------------------------------------------------------------
  // validate
  // ---------------------------------------------------------------------------

  /** `validate`: None when the order may join the package, otherwise the first
      failing check. An action is only checked for being present. */
  function Validate(o: Order): Option<ValidationError> {
    if o.action == "" then Some(UndefinedAction)
    else if o.attachmentName == "" then Some(UndefinedAttachment)
    else if o.executionPath == "" then Some(UndefinedExecutionPath)
    else if o.action == MoveName && o.sourcePath == "" then Some(UndefinedSourcePath)
    else if o.action == RenameName && o.editingName == "" then Some(UndefinedEditingName)
    else if o.action == RenameName && !HasExtension(o.editingName) then Some(UndefinedExtensionName)
    else None
  }

  /** Each check on its own, independent of the order the checks run in. */
  predicate Violates(o: Order, e: ValidationError) {
    match e
    case UndefinedAction => o.action == ""
    case UndefinedAttachment => o.attachmentName == ""
    case UndefinedExecutionPath => o.executionPath == ""
    case UndefinedSourcePath => o.action == MoveName && o.sourcePath == ""
    case UndefinedEditingName => o.action == RenameName && o.editingName == ""
    case UndefinedExtensionName => o.action == RenameName && !HasExtension(o.editingName)
  }

  /** Position of each check in the chain. */
  function Rank(e: ValidationError): nat {
    match e
    case UndefinedAction => 0
    case UndefinedAttachment => 1
    case UndefinedExecutionPath => 2
    case UndefinedSourcePath => 3
    case UndefinedEditingName => 4
    case UndefinedExtensionName => 5
  }

  /** The chain short-circuits: the error returned is the failing check that
      comes first, and the order is accepted exactly when no check fails. */
  lemma ValidateReportsFirstViolation(o: Order, e: ValidationError)
    ensures Validate(o) == Some(e) <==>
            Violates(o, e) && forall d: ValidationError :: Rank(d) < Rank(e) ==> !Violates(o, d)
    ensures Validate(o) == None <==> forall d: ValidationError :: !Violates(o, d)
  {
    if Validate(o) == None {
      forall d: ValidationError ensures !Violates(o, d) {
        match d
        case UndefinedAction =>
        case UndefinedAttachment =>
        case UndefinedExecutionPath =>
        case UndefinedSourcePath =>
        case UndefinedEditingName =>
        case UndefinedExtensionName =>
      }
    }
    if forall d: ValidationError :: !Violates(o, d) {
      assert !Violates(o, UndefinedAction) && !Violates(o, UndefinedAttachment);
      assert !Violates(o, UndefinedExecutionPath) && !Violates(o, UndefinedSourcePath);
      assert !Violates(o, UndefinedEditingName) && !Violates(o, UndefinedExtensionName);
    }
    if Violates(o, e) && forall d: ValidationError :: Rank(d) < Rank(e) ==> !Violates(o, d) {
      match e
      case UndefinedAction =>
      case UndefinedAttachment =>
        assert !Violates(o, UndefinedAction);
      case UndefinedExecutionPath =>
        assert !Violates(o, UndefinedAction) && !Violates(o, UndefinedAttachment);
      case UndefinedSourcePath =>
        assert !Violates(o, UndefinedAction) && !Violates(o, UndefinedAttachment);
        assert !Violates(o, UndefinedExecutionPath);
      case UndefinedEditingName =>
        assert !Violates(o, UndefinedAction) && !Violates(o, UndefinedAttachment);
        assert !Violates(o, UndefinedExecutionPath) && !Violates(o, UndefinedSourcePath);
      case UndefinedExtensionName =>
        assert !Violates(o, UndefinedAction) && !Violates(o, UndefinedAttachment);
        assert !Violates(o, UndefinedExecutionPath) && !Violates(o, UndefinedSourcePath);
        assert !Violates(o, UndefinedEditingName);
    }
  }

  /** A missing action is reported whatever the other fields hold. */
  lemma MissingActionReportedFirst(o: Order)
    requires o.action == ""
    ensures Validate(o) == Some(UndefinedAction)
  {
  }

  /** `sourcePath` is demanded of a Move order only: a complete order of any
      other action validates without it, and a Move order lacking it does not. */
  lemma SourcePathOnlyForMove(o: Order)
    requires o.action != "" && o.attachmentName != "" && o.executionPath != ""
    requires o.sourcePath == ""
    requires o.action == RenameName ==> HasExtension(o.editingName)
    ensures Validate(o) == None <==> o.action != MoveName
    ensures o.action == MoveName ==> Validate(o) == Some(UndefinedSourcePath)
  {
  }

  /** A rename target that is present but has no extension is reported as such. */
  lemma RenameNeedsExtension(o: Order)
    requires o.action == RenameName && o.attachmentName != "" && o.executionPath != ""
    requires o.editingName != "" && !HasExtension(o.editingName)
    ensures Validate(o) == Some(UndefinedExtensionName)
  {
  }

  // ---------------------------------------------------------------------------
  // handleSubmit
  // ---------------------------------------------------------------------------

  /** What the submit handler reads and writes: the package's orders, the order
      being edited and the form's message. */
  datatype Form = Form(orders: seq<Order>, current: Order, message: FormMessage)

  predicate AllValid(orders: seq<Order>) {
    forall k :: 0 <= k < |orders| ==> Validate(orders[k]) == None
  }

  /** `handleSubmit` on values. */
  function Submit(f: Form): (g: Form)
    ensures |f.orders| <= |g.orders| <= |f.orders| + 1 && g.orders[..|f.orders|] == f.orders
    ensures |g.orders| == |f.orders| + 1 <==>
            |f.orders| < MaximumOrderNumber && Validate(f.current) == None
    ensures |g.orders| == |f.orders| + 1 ==> g.orders[|f.orders|] == f.current && g.current == EmptyOrder
    ensures |g.orders| == |f.orders| ==> g.current == f.current && g.message != NoMessage
    ensures |f.orders| < MaximumOrderNumber && Validate(f.current).Some? ==>
            g.message == Invalid(Validate(f.current).value)
    ensures |g.orders| == |f.orders| + 1 ==> g.message == f.message
    ensures |f.orders| >= MaximumOrderNumber ==> g.message == MaxOrderLimit
    ensures |f.orders| <= MaximumOrderNumber ==> |g.orders| <= MaximumOrderNumber
    ensures AllValid(f.orders) ==> AllValid(g.orders)
  {
    if |f.orders| >= MaximumOrderNumber then f.(message := MaxOrderLimit)
    else match Validate(f.current)
      case Some(e) => f.(message := Invalid(e))
      case None => Form(f.orders + [f.current], EmptyOrder, f.message)
  }

  /** What can happen to the form between two renders. */
  datatype FormEvent = Edit(patch: OrderPatch) | SubmitPressed | Clicked

  function Step(f: Form, ev: FormEvent): Form {
    match ev
    case Edit(p) => f.(current := Merge(f.current, p))
    case SubmitPressed => Submit(f)
    case Clicked => f.(message := NoMessage)
  }

  function Session(f: Form, evs: seq<FormEvent>): Form
    decreases |evs|
  {
    if evs == [] then f else Session(Step(f, evs[0]), evs[1..])
  }

  /** Whatever the user does, a package that starts with at most five valid
      orders never holds more than five, and every order in it validated. */
  lemma {:induction false} SessionKeepsPackageBounded(f: Form, evs: seq<FormEvent>)
    requires |f.orders| <= MaximumOrderNumber && AllValid(f.orders)
    ensures |Session(f, evs).orders| <= MaximumOrderNumber
    ensures AllValid(Session(f, evs).orders)
    ensures f.orders <= Session(f, evs).orders
    decreases |evs|
  {
    if evs != [] {
      var g := Step(f, evs[0]);
      assert f.orders <= g.orders;
      SessionKeepsPackageBounded(g, evs[1..]);
    }
  }

  /** The composing form: its message state and the store it updates. */
  class OrderForm {
    const store: PackageStore
    var message: FormMessage

    constructor (store: PackageStore)
      ensures this.store == store && message == NoMessage
    {
      this.store := store;
      message := NoMessage;
    }

    ghost function State(): Form
      reads this, store
    {
      Form(store.orders, store.current, message)
    }

    /** `handleSubmit`. */
    method HandleSubmit()
      modifies this, store
      ensures State() == Submit(old(State()))
      ensures store.infoMessage == old(store.infoMessage)
      ensures store.isInfoModalOpen == old(store.isInfoModalOpen)
      ensures store.clientStatus == old(store.clientStatus)
    {
      var isOverMaxOrders := |store.orders| >= MaximumOrderNumber;
      if isOverMaxOrders {
        message := MaxOrderLimit;
        return;
      }
      var validateResult := Validate(store.current);
      if validateResult.Some? {
        message := Invalid(validateResult.value);
        return;
      }
      store.AddOrder(store.current);
      store.ClearOrder();
    }

    /** `handleInput`: the rename field's text becomes `editingName`. */
    method HandleInput(text: string)
      modifies store
      ensures store.current == old(store.current).(editingName := text)
      ensures store.orders == old(store.orders) && store.clientStatus == old(store.clientStatus)
      ensures store.infoMessage == old(store.infoMessage) && store.isInfoModalOpen == old(store.isInfoModalOpen)
    {
      store.UpdateOrder(NoChange.(editingName := Some(text)));
    }

    /** `clearMessage`: any click on the form clears the message. */
    method ClearMessage()
      modifies this
      ensures message == NoMessage
    {
      message := NoMessage;
    }
  }
}
