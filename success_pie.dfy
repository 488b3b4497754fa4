/**
 The data behind the proportion chart. With every site selected it is the
 number of successful launches per site; with one site selected it is that
 site's launches counted per outcome, labelled "Success" and "Failure".
 */
module SuccessPie {
  import opened Collections
  import opened LaunchData

  /** The rows of a proportion chart, keyed by slice name, and the chart's title. */
  datatype PieView = PieView(slices: map<string, nat>, title: string)

  predicate IsSuccess(x: LaunchRecord)
  {
    x.outcome == 1
  }

  /**
   `counts` has one entry per site with at least one successful launch,
   holding that number of successes, and no other entry.
   */
  ghost predicate IsSuccessShare(rs: seq<LaunchRecord>, counts: map<string, nat>)
  {
    forall s :: (s in counts <==> OutcomesAt(rs, s, 1) > 0) && (s in counts ==> counts[s] == OutcomesAt(rs, s, 1))
  }

  /**
   `counts` has a "Success" entry holding the number of successful launches
   from `site` when there is at least one, likewise a "Failure" entry for the
   failed ones, and no other entry.
   */
  ghost predicate IsOutcomeBreakdown(rs: seq<LaunchRecord>, site: string, counts: map<string, nat>)
  {
    && (forall l :: l in counts ==> l == "Success" || l == "Failure")
    && ("Success" in counts <==> OutcomesAt(rs, site, 1) > 0)
    && ("Success" in counts ==> counts["Success"] == OutcomesAt(rs, site, 1))
    && ("Failure" in counts <==> OutcomesAt(rs, site, 0) > 0)
    && ("Failure" in counts ==> counts["Failure"] == OutcomesAt(rs, site, 0))
  }

  /** Each site occurs among the successful rows once per successful launch from it. */
  lemma {:induction false} SuccessSitesCount(rs: seq<LaunchRecord>, s: string)
    ensures multiset(SitesOf(Filter(rs, IsSuccess)))[s] == OutcomesAt(rs, s, 1)
  {
    if rs != [] {
      SuccessSitesCount(rs[1..], s);
      var tail := Filter(rs[1..], IsSuccess);
      if IsSuccess(rs[0]) {
        assert ([rs[0]] + tail)[1..] == tail;
        assert SitesOf([rs[0]] + tail) == [rs[0].site] + SitesOf(tail);
      }
    }
  }

  /**
   Successful launches grouped by site and counted: keep the rows whose class
   is 1, then count the rows of each launch site.
   */
  function SuccessCountsBySite(rs: seq<LaunchRecord>): (counts: map<string, nat>)
    ensures IsSuccessShare(rs, counts)
  {
    var sites := SitesOf(Filter(rs, IsSuccess));
    assert forall s :: multiset(sites)[s] == OutcomesAt(rs, s, 1) by {
      forall s ensures multiset(sites)[s] == OutcomesAt(rs, s, 1) {
        SuccessSitesCount(rs, s);
      }
    }
    Tally(sites)
  }

  lemma {:induction false} SuccessRowsLength(rs: seq<LaunchRecord>)
    ensures |Filter(rs, IsSuccess)| == OutcomeTotal(rs, 1)
  {
    if rs != [] {
      SuccessRowsLength(rs[1..]);
    }
  }

  /** The per-site counts add up to the number of successful launches in the table. */
  lemma SuccessCountsTotal(rs: seq<LaunchRecord>)
    ensures Total(SuccessCountsBySite(rs)) == OutcomeTotal(rs, 1)
  {
    TallyTotal(SitesOf(Filter(rs, IsSuccess)));
    SuccessRowsLength(rs);
  }

  /** The rows of one launch site. */
  function SiteRecords(rs: seq<LaunchRecord>, site: string): seq<LaunchRecord>
  {
    Filter(rs, (x: LaunchRecord) => x.site == site)
  }

  /** The `class` column. */
  function ClassesOf(rs: seq<LaunchRecord>): (classes: seq<ClassValue>)
    ensures |classes| == |rs|
  {
    if rs == [] then [] else [rs[0].outcome] + ClassesOf(rs[1..])
  }

  /** Each class value occurs among a site's rows once per launch from it with that outcome. */
  lemma {:induction false} SiteClassesCount(rs: seq<LaunchRecord>, site: string, c: ClassValue)
    ensures multiset(ClassesOf(SiteRecords(rs, site)))[c] == OutcomesAt(rs, site, c)
  {
    if rs != [] {
      SiteClassesCount(rs[1..], site, c);
      var tail := SiteRecords(rs[1..], site);
      if rs[0].site == site {
        assert SiteRecords(rs, site) == [rs[0]] + tail;
        assert ([rs[0]] + tail)[1..] == tail;
        assert ClassesOf([rs[0]] + tail) == [rs[0].outcome] + ClassesOf(tail);
      } else {
        assert SiteRecords(rs, site) == tail;
      }
    }
  }

  function OutcomeLabel(c: ClassValue): string
  {
    if c == 1 then "Success" else "Failure"
  }

  /** Renames the class values 1 and 0 of a count table to "Success" and "Failure". */
  function Relabel(counts: map<ClassValue, nat>): (labelled: map<string, nat>)
    ensures forall l :: l in labelled ==> l == "Success" || l == "Failure"
    ensures "Success" in labelled <==> 1 in counts
    ensures "Failure" in labelled <==> 0 in counts
    ensures 1 in counts ==> labelled["Success"] == counts[1]
    ensures 0 in counts ==> labelled["Failure"] == counts[0]
  {
    map c | c in counts :: OutcomeLabel(c) := counts[c]
  }

  /**
   The launches of one site counted per outcome: keep the site's rows, count
   the rows of each class value, and relabel the class values.
   */
  function OutcomeBreakdown(rs: seq<LaunchRecord>, site: string): (counts: map<string, nat>)
    ensures IsOutcomeBreakdown(rs, site, counts)
  {
    var classes := ClassesOf(SiteRecords(rs, site));
    SiteClassesCount(rs, site, 0);
    SiteClassesCount(rs, site, 1);
    Relabel(Tally(classes))
  }

  /** The outcome counts of a site add up to the number of launches from it. */
  lemma BreakdownTotal(rs: seq<LaunchRecord>, site: string)
    ensures Total(OutcomeBreakdown(rs, site)) == LaunchesAt(rs, site)
  {
    LaunchesSplit(rs, site);
    assert "Success"[0] != "Failure"[0];
    TotalOfTwo(OutcomeBreakdown(rs, site), "Success", "Failure");
  }

  /** A site without failed launches gets a single "Success" slice holding all its launches. */
  lemma OnlySuccessesAtSite(rs: seq<LaunchRecord>, site: string)
    requires OutcomesAt(rs, site, 0) == 0 && LaunchesAt(rs, site) > 0
    ensures OutcomeBreakdown(rs, site) == map["Success" := LaunchesAt(rs, site)]
  {
    LaunchesSplit(rs, site);
    SingleSlice(rs, site, OutcomeBreakdown(rs, site));
  }

  lemma SingleSlice(rs: seq<LaunchRecord>, site: string, m: map<string, nat>)
    requires IsOutcomeBreakdown(rs, site, m)
    requires OutcomesAt(rs, site, 0) == 0 && OutcomesAt(rs, site, 1) > 0
    ensures m == map["Success" := OutcomesAt(rs, site, 1)]
  {
  }

  /** A site that has no launches in the table gets an empty chart, not an error. */
  lemma UnknownSiteBreakdown(rs: seq<LaunchRecord>, site: string)
    requires forall x :: x in rs ==> x.site != site
    ensures OutcomeBreakdown(rs, site) == map[]
  {
  }

  /**
   The proportion chart for a selection of the site selector: successes per
   site for `ALL`, the outcome breakdown of the selected site otherwise.
   */
  function UpdateSuccessPie(rs: seq<LaunchRecord>, selected: string): (v: PieView)
    ensures selected == "ALL" ==> IsSuccessShare(rs, v.slices)
    ensures selected == "ALL" ==> v.title == "Total Successful Launches by Site"
    ensures selected != "ALL" ==> IsOutcomeBreakdown(rs, selected, v.slices)
    ensures selected != "ALL" ==> v.title == "Success vs Failure for site " + selected
  {
    if selected == "ALL" then
      PieView(SuccessCountsBySite(rs), "Total Successful Launches by Site")
    else
      PieView(OutcomeBreakdown(rs, selected), "Success vs Failure for site " + selected)
  }
}
