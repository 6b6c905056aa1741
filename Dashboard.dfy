/**
 * The dashboard page: the two checkbox selections, the per-field sum shown
 * on each selected field's card, and the BIRADS histogram behind the bar
 * chart. The bundled `structured_data` list is an input: a sequence of
 * records, each a map from field name to its string value.
 */
module Dashboard {
  import opened Wrappers
  import opened Parsing
  import opened Selection

  type Record = map<string, string>

  // ---------------------------------------------------------------------
  // getColumnSum
  // ---------------------------------------------------------------------

  /**
   * The string that `parseInt` receives for `item[column]`: a missing field
   * is `undefined`, which `parseInt` first turns into the string "undefined".
   */
  function FieldText(item: Record, column: string): (text: string)
    ensures column !in item ==> ParseInt(text).None?
  {
    if column in item then item[column] else ParseIntOfUndefined(); "undefined"
  }

  /** `isNaN(value) ? 0 : value` for `value = parseInt(item[column], 10)`. */
  function Contribution(item: Record, column: string): (v: int)
    ensures column !in item || ParseInt(item[column]).None? ==> v == 0
    ensures column in item && ParseInt(item[column]).Some? ==> v == ParseInt(item[column]).value
    ensures column in item && item[column] != [] && AllDigits(item[column]) ==> v == DigitsValue(item[column])
  {
    var text := FieldText(item, column);
    ParseIntOfDigits(text);
    ParseInt(text).GetOr(0)
  }

  /**
   * The `reduce` step by step: the running sum starts at `acc` and takes the
   * records from the left; it ends at `acc` plus the sum of all contributions.
   */
  function FoldSum(records: seq<Record>, column: string, acc: int): (sum: int)
    ensures sum == acc + Total(records, column)
    decreases |records|
  {
    if records == [] then acc
    else FoldSum(records[1..], column, acc + Contribution(records[0], column))
  }

  /** getColumnSum(column): `reduce` over all records with initial value 0. */
  function ColumnSum(records: seq<Record>, column: string): (sum: int)
    ensures sum == Total(records, column)
    ensures records == [] ==> sum == 0
  {
    FoldSum(records, column, 0)
  }

  /** Reference definition: the sum over all records of what each contributes. */
  function Total(records: seq<Record>, column: string): int {
    if records == [] then 0 else Contribution(records[0], column) + Total(records[1..], column)
  }

  lemma {:induction false} TotalAppend(a: seq<Record>, b: seq<Record>, column: string)
    ensures Total(a + b, column) == Total(a, column) + Total(b, column)
  {
    if a == [] {
      assert a + b == b;
    } else {
      assert (a + b)[1..] == a[1..] + b;
      TotalAppend(a[1..], b, column);
    }
  }

  /** Splitting the record list splits the sum. */
  lemma ColumnSumAppend(a: seq<Record>, b: seq<Record>, column: string)
    ensures ColumnSum(a + b, column) == ColumnSum(a, column) + ColumnSum(b, column)
  {
    TotalAppend(a, b, column);
  }

  /** A record whose field does not parse, or lacks the field, leaves the sum unchanged. */
  lemma ColumnSumIgnoresUnparseable(a: seq<Record>, item: Record, b: seq<Record>, column: string)
    requires column !in item || ParseInt(item[column]).None?
    ensures ColumnSum(a + [item] + b, column) == ColumnSum(a + b, column)
  {
    assert Contribution(item, column) == 0;
    assert ColumnSum([item], column) == 0;
    ColumnSumAppend(a + [item], b, column);
    ColumnSumAppend(a, [item], column);
    ColumnSumAppend(a, b, column);
  }

  function SumOf(values: seq<int>): int {
    if values == [] then 0 else values[0] + SumOf(values[1..])
  }

  /**
   * When every record holds the decimal rendering of an integer in the field,
   * the column sum is the sum of those integers.
   */
  lemma {:induction false} ColumnSumOfRenderedValues(records: seq<Record>, column: string, values: seq<int>)
    requires |records| == |values|
    requires forall i :: 0 <= i < |records| ==> column in records[i] && records[i][column] == IntToString(values[i])
    ensures ColumnSum(records, column) == SumOf(values)
  {
    if records != [] {
      ParseIntOfIntToString(values[0]);
      ColumnSumOfRenderedValues(records[1..], column, values[1..]);
    }
  }

  // ---------------------------------------------------------------------
  // getBiradsData
  // ---------------------------------------------------------------------

  /** The BIRADS scale, in display order. */
  const BiradsCategories: seq<string> := ["0", "1", "2", "3", "4A", "4B", "4C", "5", "6"]

  datatype BiradsEntry = BiradsEntry(category: string, count: nat)

  /** `item.birads`; `None` when the record has no such field. */
  function Birads(item: Record): (b: Option<string>)
    ensures b.Some? <==> "birads" in item
    ensures b.Some? ==> b.value == item["birads"]
  {
    if "birads" in item then Some(item["birads"]) else None
  }

  /** The number of records whose `birads` equals `c` exactly. */
  function CountOf(records: seq<Record>, c: string): (n: nat)
    ensures n <= |records|
  {
    if records == [] then 0
    else CountOf(records[..|records| - 1], c) + (if Birads(records[|records| - 1]) == Some(c) then 1 else 0)
  }

  /** One entry per category of `cs`, in the order of `cs`, with its count. */
  function Histogram(cs: seq<string>, records: seq<Record>): (h: seq<BiradsEntry>)
    ensures |h| == |cs|
    ensures forall i :: 0 <= i < |cs| ==> h[i].category == cs[i] && h[i].count == CountOf(records, cs[i])
    ensures forall i :: 0 <= i < |cs| ==> h[i].count <= |records|
  {
    seq(|cs|, i requires 0 <= i < |cs| => BiradsEntry(cs[i], CountOf(records, cs[i])))
  }

  /**
   * What getBiradsData returns: exactly nine entries, in scale order, each
   * holding the number of records whose `birads` equals its category.
   */
  function BiradsData(records: seq<Record>): (data: seq<BiradsEntry>)
    ensures |data| == 9
    ensures forall i :: 0 <= i < 9 ==> data[i].category == BiradsCategories[i]
    ensures forall i :: 0 <= i < 9 ==> data[i].count == CountOf(records, BiradsCategories[i])
  {
    Histogram(BiradsCategories, records)
  }

  /**
   * getBiradsData: fill a dictionary with a zero for every category, count
   * each record whose `birads` is a key of it, then read the counts back in
   * scale order.
   */
  method GetBiradsData(records: seq<Record>) returns (data: seq<BiradsEntry>)
    ensures data == BiradsData(records)
  {
    var counts: map<string, nat> := map[];
    for k := 0 to |BiradsCategories|
      invariant forall c :: c in counts <==> c in BiradsCategories[..k]
      invariant forall c :: c in counts ==> counts[c] == 0
    {
      counts := counts[BiradsCategories[k] := 0];
    }
    assert BiradsCategories[..|BiradsCategories|] == BiradsCategories;
    for i := 0 to |records|
      invariant forall c :: c in counts <==> c in BiradsCategories
      invariant forall c :: c in counts ==> counts[c] == CountOf(records[..i], c)
    {
      assert records[..i + 1][..i] == records[..i];
      var b := Birads(records[i]);
      if b.Some? && b.value in counts {
        counts := counts[b.value := counts[b.value] + 1];
      }
    }
    assert records[..|records|] == records;
    data := seq(|BiradsCategories|, j requires 0 <= j < |BiradsCategories| =>
      BiradsEntry(BiradsCategories[j], counts[BiradsCategories[j]]));
  }

  lemma {:induction false} CountOfAppend(a: seq<Record>, b: seq<Record>, c: string)
    ensures CountOf(a + b, c) == CountOf(a, c) + CountOf(b, c)
    decreases |b|
  {
    if b == [] {
      assert a + b == a;
    } else {
      var b' := b[..|b| - 1];
      assert (a + b)[..|a + b| - 1] == a + b';
      CountOfAppend(a, b', c);
    }
  }

  /** A record whose `birads` is not on the scale changes no count. */
  lemma OffScaleIgnored(records: seq<Record>, item: Record)
    requires Birads(item).None? || Birads(item).value !in BiradsCategories
    ensures BiradsData(records + [item]) == BiradsData(records)
  {
  }

  /** Sum of the counts of a histogram. */
  function SumCounts(h: seq<BiradsEntry>): nat {
    if h == [] then 0 else h[0].count + SumCounts(h[1..])
  }

  predicate OnScale(item: Record, cs: seq<string>) {
    Birads(item).Some? && Birads(item).value in cs
  }

  /** The number of records whose `birads` is one of `cs`. */
  function CountOnScale(records: seq<Record>, cs: seq<string>): (n: nat)
    ensures n <= |records|
  {
    if records == [] then 0
    else CountOnScale(records[..|records| - 1], cs) + (if OnScale(records[|records| - 1], cs) then 1 else 0)
  }

  lemma {:induction false} SumCountsEmpty(cs: seq<string>)
    ensures SumCounts(Histogram(cs, [])) == 0
  {
    if cs != [] {
      assert Histogram(cs, [])[1..] == Histogram(cs[1..], []);
      SumCountsEmpty(cs[1..]);
    }
  }

  lemma {:induction false} SumCountsStep(cs: seq<string>, records: seq<Record>, item: Record)
    requires NoDuplicates(cs)
    ensures SumCounts(Histogram(cs, records + [item]))
         == SumCounts(Histogram(cs, records)) + (if OnScale(item, cs) then 1 else 0)
  {
    if cs != [] {
      var rs := records + [item];
      assert rs[..|rs| - 1] == records;
      assert Histogram(cs, rs)[1..] == Histogram(cs[1..], rs);
      assert Histogram(cs, records)[1..] == Histogram(cs[1..], records);
      assert NoDuplicates(cs[1..]);
      SumCountsStep(cs[1..], records, item);
      if OnScale(item, cs) && Birads(item) == Some(cs[0]) {
        assert Birads(item).value !in cs[1..];
      }
    }
  }

  lemma {:induction false} SumCountsIsCountOnScale(cs: seq<string>, records: seq<Record>)
    requires NoDuplicates(cs)
    ensures SumCounts(Histogram(cs, records)) == CountOnScale(records, cs)
    decreases |records|
  {
    if records == [] {
      SumCountsEmpty(cs);
    } else {
      var init := records[..|records| - 1];
      assert records == init + [records[|records| - 1]];
      SumCountsIsCountOnScale(cs, init);
      SumCountsStep(cs, init, records[|records| - 1]);
    }
  }

  /**
   * The counts add up to the number of records whose `birads` is on the
   * scale, so never to more than the number of records.
   */
  lemma BiradsTotal(records: seq<Record>)
    ensures SumCounts(BiradsData(records)) == CountOnScale(records, BiradsCategories)
    ensures SumCounts(BiradsData(records)) <= |records|
  {
    ScaleHasNoDuplicates();
    SumCountsIsCountOnScale(BiradsCategories, records);
  }

  lemma ScaleHasNoDuplicates()
    ensures NoDuplicates(BiradsCategories)
  {
  }

  // ---------------------------------------------------------------------
  // biradsData: the entries shown in the chart
  // ---------------------------------------------------------------------

  /** `data.filter(item => selected.includes(item.category))`. */
  function ChartData(data: seq<BiradsEntry>, selected: seq<string>): (r: seq<BiradsEntry>)
    ensures forall e :: e in r <==> e in data && e.category in selected
    ensures |r| <= |data|
  {
    if data == [] then []
    else (if data[0].category in selected then [data[0]] else []) + ChartData(data[1..], selected)
  }

  /** The categories of a list of entries, in order. */
  function Categories(data: seq<BiradsEntry>): (cs: seq<string>)
    ensures |cs| == |data|
  {
    seq(|data|, i requires 0 <= i < |data| => data[i].category)
  }

  /** The categories of `cs` that are selected, in the order of `cs`. */
  function KeepSelected(cs: seq<string>, selected: seq<string>): (r: seq<string>)
    ensures forall c :: c in r <==> c in cs && c in selected
  {
    if cs == [] then [] else (if cs[0] in selected then [cs[0]] else []) + KeepSelected(cs[1..], selected)
  }

  lemma {:induction false} ChartCategoriesFollowHistogram(cs: seq<string>, records: seq<Record>, selected: seq<string>)
    ensures Categories(ChartData(Histogram(cs, records), selected)) == KeepSelected(cs, selected)
  {
    if cs != [] {
      var h := Histogram(cs, records);
      assert h[1..] == Histogram(cs[1..], records);
      ChartCategoriesFollowHistogram(cs[1..], records, selected);
    }
  }

  lemma {:induction false} KeepSelectedIsSubsequence(cs: seq<string>, selected: seq<string>)
    ensures IsSubsequence(KeepSelected(cs, selected), cs)
  {
    if cs != [] {
      KeepSelectedIsSubsequence(cs[1..], selected);
      var r := KeepSelected(cs[1..], selected);
      if cs[0] in selected {
        assert ([cs[0]] + r)[1..] == r;
      } else {
        assert [] + r == r;
      }
    }
  }

  /**
   * The chart shows the selected categories in scale order: its categories
   * are the scale with the unselected ones dropped, each with its count.
   */
  lemma ChartDataInScaleOrder(records: seq<Record>, selected: seq<string>)
    ensures Categories(ChartData(BiradsData(records), selected)) == KeepSelected(BiradsCategories, selected)
    ensures IsSubsequence(Categories(ChartData(BiradsData(records), selected)), BiradsCategories)
    ensures forall e :: e in ChartData(BiradsData(records), selected) ==> e.count == CountOf(records, e.category)
  {
    ChartCategoriesFollowHistogram(BiradsCategories, records, selected);
    KeepSelectedIsSubsequence(BiradsCategories, selected);
  }

  /** The order in which categories were selected does not matter, only which ones. */
  lemma {:induction false} ChartDataIgnoresSelectionOrder(data: seq<BiradsEntry>, s1: seq<string>, s2: seq<string>)
    requires forall c :: c in s1 <==> c in s2
    ensures ChartData(data, s1) == ChartData(data, s2)
  {
    if data != [] {
      ChartDataIgnoresSelectionOrder(data[1..], s1, s2);
    }
  }

  // ---------------------------------------------------------------------
  // The page's selection state
  // ---------------------------------------------------------------------

  /** The two `useState` lists of the page and the handlers that update them. */
  class DashboardState {
    var selectedColumns: seq<string>
    var selectedBirads: seq<string>

    /** Lists built only by toggling never hold a value twice. */
    ghost predicate Valid()
      reads this
    {
      NoDuplicates(selectedColumns) && NoDuplicates(selectedBirads)
    }

    constructor ()
      ensures Valid()
      ensures selectedColumns == [] && selectedBirads == []
    {
      selectedColumns := [];
      selectedBirads := [];
    }

    /** handleCheckboxChange(column). */
    method HandleCheckboxChange(column: string)
      requires Valid()
      modifies this
      ensures Valid()
      ensures selectedColumns == Toggle(old(selectedColumns), column)
      ensures column in old(selectedColumns) ==> |selectedColumns| == |old(selectedColumns)| - 1
      ensures column !in old(selectedColumns) ==> |selectedColumns| == |old(selectedColumns)| + 1
      ensures selectedBirads == old(selectedBirads)
    {
      ToggleKeepsNoDuplicates(selectedColumns, column);
      ToggleLength(selectedColumns, column);
      selectedColumns := Toggle(selectedColumns, column);
    }

    /** handleBiradsCheckboxChange(category). */
    method HandleBiradsCheckboxChange(category: string)
      requires Valid()
      modifies this
      ensures Valid()
      ensures selectedBirads == Toggle(old(selectedBirads), category)
      ensures category in old(selectedBirads) ==> |selectedBirads| == |old(selectedBirads)| - 1
      ensures category !in old(selectedBirads) ==> |selectedBirads| == |old(selectedBirads)| + 1
      ensures selectedColumns == old(selectedColumns)
    {
      ToggleKeepsNoDuplicates(selectedBirads, category);
      ToggleLength(selectedBirads, category);
      selectedBirads := Toggle(selectedBirads, category);
    }

    /** The `biradsData` the chart is drawn from. */
    function ChartEntries(records: seq<Record>): (r: seq<BiradsEntry>)
      reads this
      ensures |r| <= 9
      ensures forall e :: e in r ==> e.category in selectedBirads && e.category in BiradsCategories
    {
      ChartData(BiradsData(records), selectedBirads)
    }
  }
}
