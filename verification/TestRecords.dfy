/** The test-result store of the BLE test server: an ordered list of test
    outcomes, keyed by test name, that `updateTestList` upserts into. */
module TestRecords {

  datatype Option<T> = None | Some(value: T)

  /** One outcome of one named test. */
  datatype TestCase = TestCase(testName: string, isPassed: bool)

  /** No two entries carry the same test name. */
  predicate UniqueNames(items: seq<TestCase>) {
    forall i, j :: 0 <= i < j < |items| ==> items[i].testName != items[j].testName
  }

  /** The position of the first entry named `name`, if there is one. */
  function FirstIndexOfName(items: seq<TestCase>, name: string): (r: Option<nat>)
    ensures r.None? <==> forall j :: 0 <= j < |items| ==> items[j].testName != name
    ensures r.Some? ==> r.value < |items| && items[r.value].testName == name
    ensures r.Some? ==> forall j :: 0 <= j < r.value ==> items[j].testName != name
  {
    if |items| == 0 then None
    else if items[0].testName == name then Some(0)
    else match FirstIndexOfName(items[1..], name)
      case None => None
      case Some(i) => Some(i + 1)
  }

  /** The list read as an ordered map: the verdict recorded for `name`. */
  function Lookup(items: seq<TestCase>, name: string): (r: Option<bool>) {
    match FirstIndexOfName(items, name)
    case None => None
    case Some(i) => Some(items[i].isPassed)
  }

  /** The list `updateTestList` leaves behind: the first entry named like
      `testCase` gets its verdict (rewritten only when it differs), and a
      name not yet present is appended at the end. */
  function Upsert(items: seq<TestCase>, testCase: TestCase): (r: seq<TestCase>)
    ensures |items| <= |r| <= |items| + 1
    ensures forall j :: 0 <= j < |items| ==> r[j].testName == items[j].testName
    ensures testCase in r
  {
    match FirstIndexOfName(items, testCase.testName)
    case None => items + [TestCase(testCase.testName, testCase.isPassed)]
    case Some(i) =>
      if items[i].isPassed != testCase.isPassed
      then items[i := TestCase(items[i].testName, testCase.isPassed)]
      else items
  }

  lemma UpsertAppendsWhenAbsent(items: seq<TestCase>, testCase: TestCase)
    requires forall j :: 0 <= j < |items| ==> items[j].testName != testCase.testName
    ensures Upsert(items, testCase) == items + [testCase]
  {
  }

  lemma UpsertUpdatesInPlace(items: seq<TestCase>, testCase: TestCase, i: nat)
    requires i < |items| && items[i].testName == testCase.testName
    requires forall j :: 0 <= j < i ==> items[j].testName != testCase.testName
    requires items[i].isPassed != testCase.isPassed
    ensures |Upsert(items, testCase)| == |items|
    ensures Upsert(items, testCase)[i] == testCase
    ensures forall j :: 0 <= j < |items| && j != i ==> Upsert(items, testCase)[j] == items[j]
  {
    assert FirstIndexOfName(items, testCase.testName) == Some(i);
  }

  lemma UpsertNoOpOnEqual(items: seq<TestCase>, testCase: TestCase)
    requires Lookup(items, testCase.testName) == Some(testCase.isPassed)
    ensures Upsert(items, testCase) == items
  {
  }

  /** Applying the same outcome twice is the same as applying it once. */
  lemma UpsertIdempotent(items: seq<TestCase>, testCase: TestCase)
    ensures Upsert(Upsert(items, testCase), testCase) == Upsert(items, testCase)
  {
    var once := Upsert(items, testCase);
    UpsertLookup(items, testCase, testCase.testName);
    UpsertNoOpOnEqual(once, testCase);
  }

  /** After the upsert, `testCase.testName` reads `testCase.isPassed` and
      every other name reads as before: Upsert is an ordered-map update. */
  lemma UpsertLookup(items: seq<TestCase>, testCase: TestCase, name: string)
    ensures Lookup(Upsert(items, testCase), name)
         == if name == testCase.testName then Some(testCase.isPassed) else Lookup(items, name)
  {
    var r := Upsert(items, testCase);
    match FirstIndexOfName(items, testCase.testName)
    case None =>
      if name == testCase.testName {
        FirstIndexOfNameAt(r, name, |items|);
      } else {
        SameNamesSameIndex(items, r, name);
      }
    case Some(i) =>
      if name == testCase.testName {
        FirstIndexOfNameAt(r, name, i);
      } else {
        SameNamesSameIndex(items, r, name);
        match FirstIndexOfName(items, name)
        case None =>
        case Some(k) => assert r[k] == items[k];
      }
  }

  /** The first position carrying `name` is pinned down by its two defining facts. */
  lemma FirstIndexOfNameAt(items: seq<TestCase>, name: string, k: nat)
    requires k < |items| && items[k].testName == name
    requires forall j :: 0 <= j < k ==> items[j].testName != name
    ensures FirstIndexOfName(items, name) == Some(k)
  {
    var r := FirstIndexOfName(items, name);
    assert r.Some?;
    assert !(r.value < k) && !(k < r.value);
  }

  /** A list that keeps the names of `a` at the same positions (and may add
      entries behind them) finds a name of `a` at the same position. */
  lemma SameNamesSameIndex(a: seq<TestCase>, b: seq<TestCase>, name: string)
    requires |a| <= |b|
    requires forall j :: 0 <= j < |a| ==> a[j].testName == b[j].testName
    requires forall j :: |a| <= j < |b| ==> b[j].testName != name
    ensures FirstIndexOfName(b, name) == FirstIndexOfName(a, name)
  {
    match FirstIndexOfName(a, name)
    case None =>
      assert forall j :: 0 <= j < |b| ==> b[j].testName != name by {
        forall j | 0 <= j < |b| ensures b[j].testName != name {
          if j < |a| { assert a[j].testName == b[j].testName; }
        }
      }
    case Some(k) =>
      FirstIndexOfNameAt(b, name, k);
  }

  /** Distinct names stay distinct. */
  lemma UpsertKeepsUnique(items: seq<TestCase>, testCase: TestCase)
    requires UniqueNames(items)
    ensures UniqueNames(Upsert(items, testCase))
  {
    var r := Upsert(items, testCase);
    match FirstIndexOfName(items, testCase.testName)
    case None =>
      forall i, j | 0 <= i < j < |r| ensures r[i].testName != r[j].testName {
        if j == |items| {
          assert r[j].testName == testCase.testName;
        }
      }
    case Some(_) =>
      forall i, j | 0 <= i < j < |r| ensures r[i].testName != r[j].testName {
        assert r[i].testName == items[i].testName && r[j].testName == items[j].testName;
      }
  }

  /** The result of folding outcomes into the list one after another, in
      the order they arrive. */
  function UpsertAll(items: seq<TestCase>, outcomes: seq<TestCase>): (r: seq<TestCase>)
    ensures |items| <= |r| <= |items| + |outcomes|
  {
    if outcomes == [] then items
    else Upsert(UpsertAll(items, outcomes[..|outcomes| - 1]), outcomes[|outcomes| - 1])
  }

  /** The verdict carried by the last outcome named `name`, if any. */
  function LatestFor(outcomes: seq<TestCase>, name: string): (latest: Option<bool>) {
    if outcomes == [] then None
    else if outcomes[|outcomes| - 1].testName == name then Some(outcomes[|outcomes| - 1].isPassed)
    else LatestFor(outcomes[..|outcomes| - 1], name)
  }

  /** After any sequence of outcomes, each name reads the latest verdict
      reported for it, and a name never reported keeps its old verdict. */
  lemma {:induction false} UpsertAllLatestWins(items: seq<TestCase>, outcomes: seq<TestCase>, name: string)
    ensures Lookup(UpsertAll(items, outcomes), name)
         == match LatestFor(outcomes, name)
            case Some(b) => Some(b)
            case None => Lookup(items, name)
  {
    if outcomes != [] {
      var prefix := outcomes[..|outcomes| - 1];
      UpsertAllLatestWins(items, prefix, name);
      UpsertLookup(UpsertAll(items, prefix), outcomes[|outcomes| - 1], name);
    }
  }

  /** Folding outcomes into a list with distinct names keeps names distinct
      and records every reported name, so each appears exactly once. */
  lemma {:induction false} UpsertAllUniqueAndComplete(items: seq<TestCase>, outcomes: seq<TestCase>)
    requires UniqueNames(items)
    ensures UniqueNames(UpsertAll(items, outcomes))
    ensures forall k :: 0 <= k < |outcomes| ==> Lookup(UpsertAll(items, outcomes), outcomes[k].testName).Some?
  {
    if outcomes != [] {
      var prefix := outcomes[..|outcomes| - 1];
      UpsertAllUniqueAndComplete(items, prefix);
      UpsertKeepsUnique(UpsertAll(items, prefix), outcomes[|outcomes| - 1]);
      forall k | 0 <= k < |outcomes|
        ensures Lookup(UpsertAll(items, outcomes), outcomes[k].testName).Some?
      {
        UpsertAllLatestWins(items, outcomes, outcomes[k].testName);
        LatestForReported(outcomes, k);
      }
    }
  }

  lemma {:induction false} LatestForReported(outcomes: seq<TestCase>, k: nat)
    requires k < |outcomes|
    ensures LatestFor(outcomes, outcomes[k].testName).Some?
  {
    if k < |outcomes| - 1 && outcomes[|outcomes| - 1].testName != outcomes[k].testName {
      LatestForReported(outcomes[..|outcomes| - 1], k);
    }
  }

  /** `find { it.testName == name }`: a linear scan for the first entry with
      that name. */
  method Find(items: seq<TestCase>, name: string) returns (found: Option<TestCase>)
    ensures found.None? <==> forall j :: 0 <= j < |items| ==> items[j].testName != name
    ensures found.Some? ==>
              FirstIndexOfName(items, name).Some? && found.value == items[FirstIndexOfName(items, name).value]
  {
    var i := 0;
    while i < |items|
      invariant 0 <= i <= |items|
      invariant forall j :: 0 <= j < i ==> items[j].testName != name
    {
      if items[i].testName == name {
        return Some(items[i]);
      }
      i := i + 1;
    }
    return None;
  }

  /** `indexOf(element)`: the first position holding an equal entry, or -1. */
  method IndexOf(items: seq<TestCase>, element: TestCase) returns (index: int)
    ensures index == -1 <==> element !in items
    ensures index != -1 ==> 0 <= index < |items| && items[index] == element
    ensures index != -1 ==> forall j :: 0 <= j < index ==> items[j] != element
  {
    index := 0;
    while index < |items|
      invariant 0 <= index <= |items|
      invariant forall j :: 0 <= j < index ==> items[j] != element
    {
      if items[index] == element {
        return;
      }
      index := index + 1;
    }
    index := -1;
  }
}
