/**
 The data behind the correlation chart: the launches whose payload mass lies
 in the range chosen on the slider, restricted to the selected site unless
 every site is selected, and the chart's title.
 */
module PayloadScatter {
  import opened Collections
  import opened LaunchData

  /** The rows of a scatter chart, in table order, and the chart's title. */
  datatype ScatterView = ScatterView(rows: seq<LaunchRecord>, title: string)

  /** The slider range is inclusive at both ends. */
  predicate InPayloadRange(x: LaunchRecord, low: real, high: real)
  {
    low <= x.payloadMass && x.payloadMass <= high
  }

  /** A launch appears in the chart for this selection. */
  predicate Shown(x: LaunchRecord, selected: string, low: real, high: real)
  {
    InPayloadRange(x, low, high) && (selected == "ALL" || x.site == selected)
  }

  /**
   Keep the rows inside the payload range; then, unless every site is
   selected, keep those of the selected site.
   */
  function ScatterRows(rs: seq<LaunchRecord>, selected: string, low: real, high: real): (rows: seq<LaunchRecord>)
    ensures forall x :: x in rows <==> x in rs && Shown(x, selected, low, high)
    ensures forall x :: multiset(rows)[x] == if Shown(x, selected, low, high) then multiset(rs)[x] else 0
    ensures Subsequence(rows, rs)
  {
    var inRange := (x: LaunchRecord) => InPayloadRange(x, low, high);
    var rows := Filter(rs, inRange);
    if selected == "ALL" then
      rows
    else
      var atSite := (x: LaunchRecord) => x.site == selected;
      FilterTwice(rs, inRange, atSite, (x: LaunchRecord) => Shown(x, selected, low, high));
      Filter(rows, atSite)
  }

  /** The site part of the chart title. */
  function TitleSite(selected: string): (t: string)
    ensures selected != "ALL" ==> t == selected
    ensures t == "All Sites" <==> selected == "ALL" || selected == "All Sites"
  {
    if selected == "ALL" then "All Sites" else selected
  }

  /** The correlation chart for a site selection and a slider range `(low, high)`. */
  function UpdateScatter(rs: seq<LaunchRecord>, selected: string, payloadRange: (real, real)): (v: ScatterView)
    ensures forall x :: x in v.rows <==> x in rs && Shown(x, selected, payloadRange.0, payloadRange.1)
    ensures forall x :: multiset(v.rows)[x] == if Shown(x, selected, payloadRange.0, payloadRange.1) then multiset(rs)[x] else 0
    ensures Subsequence(v.rows, rs)
    ensures selected == "ALL" ==> v.title == "Correlation between Payload and Success (All Sites)"
    ensures selected != "ALL" ==> v.title == "Correlation between Payload and Success (" + selected + ")"
  {
    var (low, high) := payloadRange;
    ScatterView(ScatterRows(rs, selected, low, high),
                "Correlation between Payload and Success (" + TitleSite(selected) + ")")
  }

  /**
   With every site selected and the slider at its initial position, from the
   smallest to the largest payload of the table, the chart shows the whole table.
   */
  lemma InitialRangeShowsAll(rs: seq<LaunchRecord>)
    requires |rs| > 0
    ensures ScatterRows(rs, "ALL", MinPayload(rs).value, MaxPayload(rs).value) == rs
  {
    var low, high := MinPayload(rs).value, MaxPayload(rs).value;
    var rows := ScatterRows(rs, "ALL", low, high);
    forall x ensures multiset(rows)[x] == multiset(rs)[x] {
      if x in rs {
        PayloadWithinBounds(rs);
        assert Shown(x, "ALL", low, high);
      }
    }
    assert multiset(rows) == multiset(rs);
    assert |rows| == |rs| by {
      assert |multiset(rows)| == |rows| && |multiset(rs)| == |rs|;
    }
    SubsequenceOfSameLength(rows, rs);
  }

  /** A range whose ends have crossed shows nothing. */
  lemma CrossedRangeShowsNothing(rs: seq<LaunchRecord>, selected: string, low: real, high: real)
    requires high < low
    ensures ScatterRows(rs, selected, low, high) == []
  {
  }

  /**
   A one-point range at a payload mass that exactly one launch has shows
   exactly that launch, when all sites or that launch's site is selected.
   */
  lemma SinglePointRange(rs: seq<LaunchRecord>, i: nat, selected: string)
    requires i < |rs|
    requires forall j :: 0 <= j < |rs| && j != i ==> rs[j].payloadMass != rs[i].payloadMass
    requires selected == "ALL" || selected == rs[i].site
    ensures ScatterRows(rs, selected, rs[i].payloadMass, rs[i].payloadMass) == [rs[i]]
  {
    var m := rs[i].payloadMass;
    var rows := ScatterRows(rs, selected, m, m);
    assert rs == rs[..i] + [rs[i]] + rs[i + 1..];
    assert rs[i] !in rs[..i] && rs[i] !in rs[i + 1..];
    assert multiset(rs)[rs[i]] == 1;
    assert Shown(rs[i], selected, m, m);
    assert multiset(rows) == multiset{rs[i]};
    assert |rows| == 1;
    assert rows[0] in rows;
  }
}
