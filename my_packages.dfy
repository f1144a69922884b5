/** The package history screen: the list of packages sent before, sorted by
    creation time in either direction, each with its expiry status, a line per
    order and a share link. Timestamps are milliseconds since the epoch. */
module MyPackages {
  import opened Orders
  import opened Text

  /** One entry of the fetched history (the fields this screen uses). */
  datatype PackageRecord = PackageRecord(serialNumber: string, createdAt: int, validUntil: int, orders: seq<Order>)

  // ---------------------------------------------------------------------------
  // Ordering
  // ---------------------------------------------------------------------------

  datatype SortOrder = SortByNewest | SortByOldest

  function Flip(s: SortOrder): (t: SortOrder)
    ensures t != s
  {
    match s
    case SortByNewest => SortByOldest
    case SortByOldest => SortByNewest
  }

  /** a may stand before b: the comparator returns a value <= 0 for them. */
  predicate InOrder(order: SortOrder, a: PackageRecord, b: PackageRecord) {
    match order
    case SortByNewest => a.createdAt >= b.createdAt
    case SortByOldest => a.createdAt <= b.createdAt
  }

  predicate SortedBy(order: SortOrder, s: seq<PackageRecord>) {
    forall i, j :: 0 <= i < j < |s| ==> InOrder(order, s[i], s[j])
  }

  /** Places x before the first element it may precede. */
  function Insert(order: SortOrder, x: PackageRecord, s: seq<PackageRecord>): (r: seq<PackageRecord>)
    requires SortedBy(order, s)
    ensures SortedBy(order, r)
    ensures multiset(r) == multiset(s) + multiset{x}
  {
    if s == [] || InOrder(order, x, s[0]) then [x] + s
    else
      var t := Insert(order, x, s[1..]);
      HeadPrecedesAll(order, x, s, t);
      assert s == [s[0]] + s[1..];
      [s[0]] + t
  }

  /** When x goes after the head of s, that head may precede every record of
      the rest with x inserted. */
  lemma HeadPrecedesAll(order: SortOrder, x: PackageRecord, s: seq<PackageRecord>, t: seq<PackageRecord>)
    requires s != [] && SortedBy(order, s) && !InOrder(order, x, s[0])
    requires multiset(t) == multiset(s[1..]) + multiset{x}
    ensures forall k :: 0 <= k < |t| ==> InOrder(order, s[0], t[k])
  {
    forall k | 0 <= k < |t|
      ensures InOrder(order, s[0], t[k])
    {
      assert t[k] in multiset(t);
      if t[k] != x {
        assert t[k] in multiset(s[1..]);
        var m :| 0 <= m < |s[1..]| && s[1..][m] == t[k];
        assert s[m + 1] == t[k];
      }
    }
  }

  /** `Array.prototype.sort` with the comparator of `order`: the history sorted
      in that direction, keeping the same records. Elements that compare equal
      keep their relative order, as the stable built-in sort keeps them. */
  function SortHistory(order: SortOrder, s: seq<PackageRecord>): (r: seq<PackageRecord>)
    ensures SortedBy(order, r)
    ensures multiset(r) == multiset(s)
  {
    if s == [] then []
    else
      assert s == [s[0]] + s[1..];
      Insert(order, s[0], SortHistory(order, s[1..]))
  }

  predicate DistinctCreationTimes(s: seq<PackageRecord>) {
    forall i, j :: 0 <= i < j < |s| ==> s[i].createdAt != s[j].createdAt
  }

  /** Two sorted lists holding the same records start with the same record
      when creation times are distinct. */
  lemma SortedHeadsAgree(order: SortOrder, a: seq<PackageRecord>, b: seq<PackageRecord>)
    requires a != [] && SortedBy(order, a) && SortedBy(order, b)
    requires multiset(a) == multiset(b) && DistinctCreationTimes(a)
    ensures b != [] && a[0] == b[0]
  {
    assert a[0] in multiset(b);
    assert b[0] in multiset(a);
    var i :| 0 <= i < |a| && a[i] == b[0];
    var j :| 0 <= j < |b| && b[j] == a[0];
    assert forall k :: 0 <= k < |a| ==> InOrder(order, a[0], a[k]);
    assert forall k :: 0 <= k < |b| ==> InOrder(order, b[0], b[k]);
    assert a[i].createdAt == a[0].createdAt;
  }

  /** Dropping the first record keeps a list sorted and its times distinct. */
  lemma TailStaysSorted(order: SortOrder, a: seq<PackageRecord>)
    requires a != [] && SortedBy(order, a)
    ensures SortedBy(order, a[1..])
    ensures DistinctCreationTimes(a) ==> DistinctCreationTimes(a[1..])
  {
  }

  lemma MultisetOfTail(a: seq<PackageRecord>)
    requires a != []
    ensures multiset(a[1..]) == multiset(a) - multiset{a[0]}
  {
    assert a == [a[0]] + a[1..];
  }

  /** With distinct creation times there is one way to sort a set of records:
      two sorted lists holding the same records are equal. */
  lemma {:induction false} SortedPermutationIsUnique(order: SortOrder, a: seq<PackageRecord>, b: seq<PackageRecord>)
    requires SortedBy(order, a) && SortedBy(order, b)
    requires multiset(a) == multiset(b) && DistinctCreationTimes(a)
    ensures a == b
    decreases |a|
  {
    if a == [] {
      assert |b| == |multiset(b)| == 0;
    } else {
      SortedHeadsAgree(order, a, b);
      TailStaysSorted(order, a);
      TailStaysSorted(order, b);
      MultisetOfTail(a);
      MultisetOfTail(b);
      SortedPermutationIsUnique(order, a[1..], b[1..]);
      assert a == [a[0]] + a[1..] && b == [b[0]] + b[1..];
    }
  }

  // ---------------------------------------------------------------------------
  // Stability: records created at the same time keep their relative order
  // ---------------------------------------------------------------------------

  /** The records of s created at time t, in their order in s. */
  function TiedRecords(s: seq<PackageRecord>, t: int): seq<PackageRecord> {
    if s == [] then []
    else (if s[0].createdAt == t then [s[0]] else []) + TiedRecords(s[1..], t)
  }

  /** a and b list the records of every creation time in the same order. */
  ghost predicate SameTies(a: seq<PackageRecord>, b: seq<PackageRecord>) {
    forall t :: TiedRecords(a, t) == TiedRecords(b, t)
  }

  /** x lands before every record of s that was created at the same time. */
  lemma {:induction false} InsertKeepsTies(order: SortOrder, x: PackageRecord, s: seq<PackageRecord>, t: int)
    requires SortedBy(order, s)
    ensures TiedRecords(Insert(order, x, s), t) == (if x.createdAt == t then [x] else []) + TiedRecords(s, t)
    decreases |s|
  {
    if s == [] || InOrder(order, x, s[0]) {
      assert ([x] + s)[1..] == s;
    } else {
      var t1 := Insert(order, x, s[1..]);
      InsertKeepsTies(order, x, s[1..], t);
      assert ([s[0]] + t1)[1..] == t1;
      assert s[0].createdAt != x.createdAt;
    }
  }

  /** The sort is stable: for every creation time, the records created then
      come out in the order they went in. */
  lemma {:induction false} SortKeepsTies(order: SortOrder, s: seq<PackageRecord>, t: int)
    ensures TiedRecords(SortHistory(order, s), t) == TiedRecords(s, t)
    decreases |s|
  {
    if s != [] {
      SortKeepsTies(order, s[1..], t);
      InsertKeepsTies(order, s[0], SortHistory(order, s[1..]), t);
    }
  }

  /** Dropping equal heads keeps the ties of the rest equal. */
  lemma TailsKeepTies(a: seq<PackageRecord>, b: seq<PackageRecord>)
    requires a != [] && b != [] && a[0] == b[0] && SameTies(a, b)
    ensures SameTies(a[1..], b[1..])
  {
    forall t
      ensures TiedRecords(a[1..], t) == TiedRecords(b[1..], t)
    {
      var h := if a[0].createdAt == t then [a[0]] else [];
      assert TiedRecords(a, t) == h + TiedRecords(a[1..], t);
      assert TiedRecords(b, t) == h + TiedRecords(b[1..], t);
      assert TiedRecords(a[1..], t) == (h + TiedRecords(a[1..], t))[|h|..];
      assert TiedRecords(b[1..], t) == (h + TiedRecords(b[1..], t))[|h|..];
    }
  }

  /** Two sorted lists of the same records that list every creation time's
      records in the same order are equal, whether or not times repeat. */
  lemma {:induction false} SortedTiesAreUnique(order: SortOrder, a: seq<PackageRecord>, b: seq<PackageRecord>)
    requires SortedBy(order, a) && SortedBy(order, b)
    requires multiset(a) == multiset(b) && SameTies(a, b)
    ensures a == b
    decreases |a|
  {
    if a == [] {
      assert |b| == |multiset(b)| == 0;
    } else {
      TiedHeadsAgree(order, a, b);
      TailsKeepTies(a, b);
      TailStaysSorted(order, a);
      TailStaysSorted(order, b);
      MultisetOfTail(a);
      MultisetOfTail(b);
      SortedTiesAreUnique(order, a[1..], b[1..]);
      assert a == [a[0]] + a[1..] && b == [b[0]] + b[1..];
    }
  }

  /** Two sorted lists of the same records start at the same creation time. */
  lemma HeadTimesAgree(order: SortOrder, a: seq<PackageRecord>, b: seq<PackageRecord>)
    requires a != [] && SortedBy(order, a) && SortedBy(order, b)
    requires multiset(a) == multiset(b)
    ensures b != [] && a[0].createdAt == b[0].createdAt
  {
    assert a[0] in multiset(b);
    assert b[0] in multiset(a);
    var i :| 0 <= i < |a| && a[i] == b[0];
    var j :| 0 <= j < |b| && b[j] == a[0];
    assert forall k :: 0 <= k < |a| ==> InOrder(order, a[0], a[k]);
    assert forall k :: 0 <= k < |b| ==> InOrder(order, b[0], b[k]);
  }

  /** ... and, when their ties agree, with the same record. */
  lemma TiedHeadsAgree(order: SortOrder, a: seq<PackageRecord>, b: seq<PackageRecord>)
    requires a != [] && SortedBy(order, a) && SortedBy(order, b)
    requires multiset(a) == multiset(b) && SameTies(a, b)
    ensures b != [] && a[0] == b[0]
  {
    HeadTimesAgree(order, a, b);
    var c := a[0].createdAt;
    assert TiedRecords(a, c) == [a[0]] + TiedRecords(a[1..], c);
    assert TiedRecords(b, c) == [b[0]] + TiedRecords(b[1..], c);
    assert a[0] == TiedRecords(a, c)[0] == TiedRecords(b, c)[0] == b[0];
  }

  /** Resorting a sorted history changes nothing, even where creation times repeat. */
  lemma SortKeepsSortedHistory(order: SortOrder, s: seq<PackageRecord>)
    requires SortedBy(order, s)
    ensures SortHistory(order, s) == s
  {
    var r := SortHistory(order, s);
    forall t
      ensures TiedRecords(s, t) == TiedRecords(r, t)
    {
      SortKeepsTies(order, s, t);
    }
    SortedTiesAreUnique(order, s, r);
  }

  /** Toggling twice from a newest-first history gives back the same list and
      the same sort state, even where creation times repeat. */
  lemma ToggleTwiceRestores(s: seq<PackageRecord>)
    requires SortedBy(SortByNewest, s)
    ensures Flip(Flip(SortByNewest)) == SortByNewest
    ensures SortHistory(SortByNewest, SortHistory(SortByOldest, s)) == s
  {
    var u := SortHistory(SortByOldest, s);
    var r := SortHistory(SortByNewest, u);
    forall t
      ensures TiedRecords(s, t) == TiedRecords(r, t)
    {
      SortKeepsTies(SortByOldest, s, t);
      SortKeepsTies(SortByNewest, u, t);
    }
    SortedTiesAreUnique(SortByNewest, s, r);
  }

  /** The history screen's state. */
  class HistoryView {
    var history: seq<PackageRecord>
    var currentSort: SortOrder

    constructor ()
      ensures history == [] && currentSort == SortByNewest
    {
      history := [];
      currentSort := SortByNewest;
    }

    /** The end of `getUserHistoryData`: the fetched history is stored newest first. */
    method ReceiveHistory(fetched: seq<PackageRecord>)
      modifies this
      ensures history == SortHistory(SortByNewest, fetched)
      ensures currentSort == old(currentSort)
    {
      history := SortHistory(SortByNewest, fetched);
    }

    /** `toggleSort`: flips the sort state and resorts the list in the new direction. */
    method ToggleSort()
      modifies this
      ensures currentSort == Flip(old(currentSort))
      ensures history == SortHistory(currentSort, old(history))
      ensures SortedBy(currentSort, history) && multiset(history) == multiset(old(history))
    {
      if currentSort == SortByNewest {
        currentSort := SortByOldest;
        history := SortHistory(SortByOldest, history);
      } else {
        currentSort := SortByNewest;
        history := SortHistory(SortByNewest, history);
      }
    }
  }

  // ---------------------------------------------------------------------------
  // Expiry status
  // ---------------------------------------------------------------------------

  const Transferable: string := "전송 가능"
  const Expired: string := "만료됨"

  /** `Date.parse(String(new Date()))`: the string form of a date keeps whole
      seconds only, so the current time loses its milliseconds. */
  function ToWholeSecond(ms: int): (t: int)
    ensures t <= ms < t + 1000
  {
    ms / 1000 * 1000
  }

  /** The status label of a package valid until `validUntil` at time `now`. */
  function StatusLabel(validUntil: int, now: int): (status: string)
    ensures status == Transferable || status == Expired
    ensures validUntil > now ==> status == Transferable
    ensures validUntil <= now - 1000 ==> status == Expired
  {
    if validUntil > ToWholeSecond(now) then Transferable else Expired
  }

  lemma WholeSecondMonotone(a: int, b: int)
    requires a <= b
    ensures ToWholeSecond(a) <= ToWholeSecond(b)
  {
  }

  /** A package once shown as expired stays expired. */
  lemma ExpiryIsPermanent(validUntil: int, now: int, later: int)
    requires now <= later
    requires StatusLabel(validUntil, now) == Expired
    ensures StatusLabel(validUntil, later) == Expired
  {
    WholeSecondMonotone(now, later);
  }

  // ---------------------------------------------------------------------------
  // Order lines and the share link
  // ---------------------------------------------------------------------------

  /** The marker after the execution path: where a Move goes to, where any
      other action takes place. */
  function PlaceMarker(action: string): string {
    if action == MoveName then "(으)로 " else "에서 "
  }

  /** The segment naming the source, present only when the order has one. */
  function SourceSegment(o: Order): string {
    if o.sourcePath != "" then o.sourcePath + "에서 " else ""
  }

  /** The segment naming the new name, present only when the order has one. */
  function NewNameSegment(o: Order): string {
    if o.editingName != "" then "\"" + o.editingName + "\"(으)로 " else ""
  }

  /** The quoted attachment name after the number. */
  function NameSegment(o: Order): (seg: string)
    ensures seg != [] && seg[0] == ' '
  {
    " \"" + o.attachmentName + "\" 을(를) "
  }

  /** The execution path with its marker. */
  function PlaceSegment(o: Order): string {
    " " + o.executionPath + PlaceMarker(o.action)
  }

  /** Everything between the number and the action. */
  function Lead(o: Order): (lead: string)
    ensures lead != [] && lead[0] == ' '
  {
    NameSegment(o) + SourceSegment(o) + PlaceSegment(o) + NewNameSegment(o)
  }

  /** The text of order line `index` (counted from 0, shown from 1). */
  function Describe(index: nat, o: Order): (text: string)
    ensures DigitPrefix(text) == Decimal(index + 1)
    ensures EndsWith(text, " " + o.action)
  {
    var number := Decimal(index + 1);
    var tail := " " + o.action;
    var rest := Lead(o) + tail;
    assert rest[0] == ' ';
    DigitPrefixOfDigitsThen(number, rest);
    assert number + rest == (number + Lead(o)) + tail;
    number + rest
  }

  /** The line as its six parts, left to right. */
  lemma DescribeParts(index: nat, o: Order)
    ensures Describe(index, o) ==
      Decimal(index + 1) + NameSegment(o) + SourceSegment(o) + PlaceSegment(o) + NewNameSegment(o) + (" " + o.action)
  {
  }

  /** Splicing a segment between two parts. */
  lemma Splice(head: string, mid: string, tail: string)
    ensures var without := head + tail;
      0 <= |head| <= |without| && head + mid + tail == without[..|head|] + mid + without[|head|..]
  {
    var without := head + tail;
    assert without[..|head|] == head && without[|head|..] == tail;
  }

  /** A source segment is inserted only for an order that has a source: the
      line with a source s is the line without one with s + "에서 " spliced in. */
  lemma SourceSegmentOnlyWhenPresent(index: nat, o: Order, s: string)
    requires s != ""
    ensures var without := Describe(index, o.(sourcePath := ""));
      exists k :: 0 <= k <= |without| &&
        Describe(index, o.(sourcePath := s)) == without[..k] + (s + "에서 ") + without[k..]
  {
    var o0, o1 := o.(sourcePath := ""), o.(sourcePath := s);
    DescribeParts(index, o0);
    DescribeParts(index, o1);
    var dn, p, e, t := Decimal(index + 1) + NameSegment(o), PlaceSegment(o), NewNameSegment(o), " " + o.action;
    var mid := s + "에서 ";
    Regroup(dn, SourceSegment(o0), p, e, t);
    Regroup(dn, mid, p, e, t);
    assert dn + SourceSegment(o0) == dn;
    Splice(dn, mid, p + e + t);
  }

  /** Regrouping kept apart so the splice above stays within the solver's budget. */
  lemma Regroup(x: string, m: string, p: string, e: string, t: string)
    ensures x + m + p + e + t == x + m + (p + e + t)
  {
  }

  /** Likewise a new-name segment appears only for an order that has a new name. */
  lemma NewNameSegmentOnlyWhenPresent(index: nat, o: Order, e: string)
    requires e != ""
    ensures var without := Describe(index, o.(editingName := ""));
      exists k :: 0 <= k <= |without| &&
        Describe(index, o.(editingName := e)) == without[..k] + ("\"" + e + "\"(으)로 ") + without[k..]
  {
    var o0, o1 := o.(editingName := ""), o.(editingName := e);
    DescribeParts(index, o0);
    DescribeParts(index, o1);
    var d, n, src, p, t := Decimal(index + 1), NameSegment(o), SourceSegment(o), PlaceSegment(o), " " + o.action;
    var mid := "\"" + e + "\"(으)로 ";
    assert Describe(index, o0) == d + n + src + p + [] + t;
    assert Describe(index, o1) == d + n + src + p + mid + t;
    assert d + n + src + p + [] + t == (d + n + src + p) + t;
    Splice(d + n + src + p, mid, t);
  }

  /** Move lines and all others differ in their marker: "(으)로 " and "에서 "
      never stand in each other's place. */
  lemma PlaceMarkerDistinguishesMove(a: string, b: string)
    requires a == MoveName && b != MoveName
    ensures PlaceMarker(a) != PlaceMarker(b) && |PlaceMarker(a)| != |PlaceMarker(b)|
  {
  }

  const LinkPrefix: string := "electron-deliorder://open?packageId="

  /** The link the history screen offers for a package. */
  function ShareLink(serialNumber: string): (link: string)
    ensures StartsWith(link, LinkPrefix) && |link| == |LinkPrefix| + |serialNumber|
  {
    LinkPrefix + serialNumber
  }

  /** Reads the package id back out of a share link. */
  function PackageIdOf(link: string): Option<string> {
    if StartsWith(link, LinkPrefix) then Some(link[|LinkPrefix|..]) else None
  }

  lemma ShareLinkRoundTrip(serialNumber: string)
    ensures PackageIdOf(ShareLink(serialNumber)) == Some(serialNumber)
  {
  }

  /** Different packages get different links. */
  lemma ShareLinkInjective(a: string, b: string)
    requires ShareLink(a) == ShareLink(b)
    ensures a == b
  {
    ShareLinkRoundTrip(a);
    ShareLinkRoundTrip(b);
  }
}
