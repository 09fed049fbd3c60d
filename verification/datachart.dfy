/** The data-visualisation tab: a notice when there is no data, otherwise a
    bar chart with one series per key of the first row other than `name`,
    coloured from a five-colour palette in turn. The charting library is not
    modelled: only the data and series it is handed. */
module DataChart {
  import opened Types

  const NoDataMessage: string := "No chart data available."

  const Palette: seq<string> := ["#0ea5e9", "#6366f1", "#ec4899", "#f97316", "#10b981"]

  /** One `<Bar>`: the row member it plots and its fill colour. */
  datatype Bar = Bar(dataKey: string, fill: string)

  datatype ChartView =
    | NoData(message: string)
    | BarChart(data: seq<ChartDataItem>, bars: seq<Bar>)

  /** The keys with every `name` dropped, the rest in their order. */
  function RemoveName(keys: seq<string>): (r: seq<string>)
    ensures |r| <= |keys|
    ensures forall k :: k in r <==> k in keys && k != "name"
    decreases |keys|
  {
    if |keys| == 0 then []
    else (if keys[0] == "name" then [] else [keys[0]]) + RemoveName(keys[1..])
  }

  /** `Object.keys(data[0] || {}).filter(key => key !== 'name')`. */
  function BarKeys(first: ChartDataItem): (ks: seq<string>)
    ensures "name" !in ks
    ensures forall k :: k in ks <==> k in Keys(first) && k != "name"
  {
    RemoveName(Keys(first))
  }

  /** `colors[index % colors.length]`: always a palette entry. */
  function Colour(index: nat): (c: string)
    ensures c in Palette
  {
    Palette[index % |Palette|]
  }

  /** The bars for `keys`, the first of them numbered `start`. */
  function BarsFrom(keys: seq<string>, start: nat): (bars: seq<Bar>)
    ensures |bars| == |keys|
    decreases |keys|
  {
    if |keys| == 0 then [] else [Bar(keys[0], Colour(start))] + BarsFrom(keys[1..], start + 1)
  }

  /** The keys the bars plot, in order. */
  function DataKeys(bars: seq<Bar>): (ks: seq<string>)
    ensures |ks| == |bars|
    ensures forall i :: 0 <= i < |bars| ==> ks[i] == bars[i].dataKey
    decreases |bars|
  {
    if |bars| == 0 then [] else [bars[0].dataKey] + DataKeys(bars[1..])
  }

  /** The component: no chart for an empty array; otherwise the data, as
      given, and one bar per series key. */
  function Render(data: seq<ChartDataItem>): (v: ChartView)
    ensures v.NoData? <==> |data| == 0
    ensures v.NoData? ==> v.message == NoDataMessage
    ensures v.BarChart? ==> v.data == data && |v.bars| == |BarKeys(data[0])|
  {
    if |data| == 0 then NoData(NoDataMessage) else BarChart(data, BarsFrom(BarKeys(data[0]), 0))
  }

  /** Bar `i` plots key `i` and takes colour `i mod 5`. */
  lemma {:induction false} BarsFromIndexed(keys: seq<string>, start: nat, i: nat)
    requires i < |keys|
    ensures BarsFrom(keys, start)[i] == Bar(keys[i], Palette[(start + i) % 5])
    decreases |keys|
  {
    if i > 0 {
      BarsFromIndexed(keys[1..], start + 1, i - 1);
    }
  }

  /** The bars plot the series keys, one each, in order, and bar `i` is
      painted with palette entry `i mod 5`. */
  lemma BarsMatchKeys(data: seq<ChartDataItem>)
    requires |data| > 0
    ensures var v := Render(data);
      && DataKeys(v.bars) == BarKeys(data[0])
      && forall i :: 0 <= i < |v.bars| ==> v.bars[i].fill == Palette[i % 5]
  {
    var keys := BarKeys(data[0]);
    var bars := Render(data).bars;
    forall i | 0 <= i < |bars| ensures bars[i] == Bar(keys[i], Palette[i % 5]) {
      BarsFromIndexed(keys, 0, i);
    }
  }

  /** Colours repeat every five bars, and any five consecutive bars have
      five different colours. */
  lemma ColoursCycle(data: seq<ChartDataItem>, i: nat, j: nat)
    requires |data| > 0
    requires i < j < |Render(data).bars|
    ensures var bars := Render(data).bars;
      bars[i].fill == bars[j].fill <==> (j - i) % 5 == 0
  {
    BarsMatchKeys(data);
    PaletteDistinct(i % 5, j % 5);
    SameResidue(i, j);
  }

  lemma PaletteDistinct(a: nat, b: nat)
    requires a < 5 && b < 5
    ensures Palette[a] == Palette[b] <==> a == b
  {
  }

  lemma SameResidue(i: nat, j: nat)
    requires i <= j
    ensures (j - i) % 5 == 0 <==> i % 5 == j % 5
  {
    var qi, qj := i / 5, j / 5;
    assert i == 5 * qi + i % 5;
    assert j == 5 * qj + j % 5;
    assert j - i == 5 * (qj - qi) + (j % 5 - i % 5);
    if i % 5 == j % 5 {
      assert j - i == 5 * (qj - qi);
    }
  }

  /** No chart for empty data, so no series. */
  lemma EmptyShowsNotice()
    ensures Render([]) == NoData(NoDataMessage)
  {
  }

  /** The chart determines its data: different data never look the same. */
  lemma RenderInjective(a: seq<ChartDataItem>, b: seq<ChartDataItem>)
    requires Render(a) == Render(b)
    ensures a == b
  {
  }

  /** `name` is never plotted. */
  lemma NameNeverPlotted(data: seq<ChartDataItem>, i: nat)
    requires |data| > 0 && i < |Render(data).bars|
    ensures Render(data).bars[i].dataKey != "name"
  {
    BarsMatchKeys(data);
    assert Render(data).bars[i].dataKey == BarKeys(data[0])[i];
  }

  /** Only the first row decides the series: a key that appears only in
      later rows gets no bar, and changing later rows changes no bar. */
  lemma FirstRowOnly(first: ChartDataItem, rest: seq<ChartDataItem>, other: seq<ChartDataItem>)
    ensures Render([first] + rest).bars == Render([first] + other).bars
    ensures forall k :: k !in Keys(first) ==> k !in DataKeys(Render([first] + rest).bars)
  {
    BarsMatchKeys([first] + rest);
  }

  /** With the keys distinct and `name` at position `p`, the series keys
      are the keys with exactly that one position cut out. */
  lemma {:induction false} RemoveNameAt(keys: seq<string>, p: nat)
    requires Distinct(keys) && p < |keys| && keys[p] == "name"
    ensures RemoveName(keys) == keys[..p] + keys[p + 1..]
    decreases |keys|
  {
    if p == 0 {
      RemoveNameAbsent(keys[1..]);
    } else {
      assert keys[1..][p - 1] == "name";
      assert Distinct(keys[1..]) by {
        forall i, j | 0 <= i < j < |keys[1..]| ensures keys[1..][i] != keys[1..][j] {
          assert keys[1..][i] == keys[i + 1] && keys[1..][j] == keys[j + 1];
        }
      }
      RemoveNameAt(keys[1..], p - 1);
      assert keys[0] != "name";
      assert keys[..p] == [keys[0]] + keys[1..][..p - 1];
      assert keys[p + 1..] == keys[1..][p..];
    }
  }

  /** Without `name`, the series keys are all the keys, in order. */
  lemma {:induction false} RemoveNameAbsent(keys: seq<string>)
    requires "name" !in keys
    ensures RemoveName(keys) == keys
    decreases |keys|
  {
    if |keys| > 0 {
      assert keys == [keys[0]] + keys[1..];
      RemoveNameAbsent(keys[1..]);
    }
  }

  /** The series keys of a well-formed row: its keys with `name` cut out of
      its one position. */
  lemma SeriesOfWellFormedRow(row: ChartDataItem)
    requires WellFormedRow(row)
    ensures exists p ::
      0 <= p < |Keys(row)| && Keys(row)[p] == "name" && BarKeys(row) == Keys(row)[..p] + Keys(row)[p + 1..]
  {
    var p :| 0 <= p < |row.entries| && row.entries[p].key == "name" && row.entries[p].value.Text?;
    RemoveNameAt(Keys(row), p);
  }
}
