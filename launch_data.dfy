/**
 The launch table the dashboard loads once at start-up, and the summary
 values derived from it before the page is built: the extreme payload
 masses and the options of the launch-site selector.
 */
module LaunchData {
  import opened Collections
  import opened SiteOrder

  /** The `class` column: 1 for a successful landing, 0 for a failed one. */
  type ClassValue = c: int | 0 <= c <= 1

  /** One row of the launch table (the four columns the dashboard reads). */
  datatype LaunchRecord = LaunchRecord(
    site: string,
    payloadMass: real,
    outcome: ClassValue,
    boosterCategory: string)

  /** The `Launch Site` column. */
  function SitesOf(rs: seq<LaunchRecord>): (sites: seq<string>)
    ensures |sites| == |rs|
    ensures forall i :: 0 <= i < |rs| ==> sites[i] == rs[i].site
  {
    if rs == [] then [] else [rs[0].site] + SitesOf(rs[1..])
  }

  /**
   The largest payload mass of the table; `None` for an empty table, where
   the column's maximum is not a number.
   */
  function MaxPayload(rs: seq<LaunchRecord>): (m: Option<real>)
    ensures m.Some? <==> |rs| > 0
    ensures m.Some? ==> exists x :: x in rs && x.payloadMass == m.value
    ensures m.Some? ==> forall x :: x in rs ==> x.payloadMass <= m.value
  {
    if rs == [] then None
    else
      assert forall x :: x in rs <==> x == rs[0] || x in rs[1..] by {
        assert rs == [rs[0]] + rs[1..];
      }
      match MaxPayload(rs[1..])
      case None => Some(rs[0].payloadMass)
      case Some(rest) => Some(if rs[0].payloadMass > rest then rs[0].payloadMass else rest)
  }

  /**
   The smallest payload mass of the table; `None` for an empty table, where
   the column's minimum is not a number.
   */
  function MinPayload(rs: seq<LaunchRecord>): (m: Option<real>)
    ensures m.Some? <==> |rs| > 0
    ensures m.Some? ==> exists x :: x in rs && x.payloadMass == m.value
    ensures m.Some? ==> forall x :: x in rs ==> m.value <= x.payloadMass
  {
    if rs == [] then None
    else
      assert forall x :: x in rs <==> x == rs[0] || x in rs[1..] by {
        assert rs == [rs[0]] + rs[1..];
      }
      match MinPayload(rs[1..])
      case None => Some(rs[0].payloadMass)
      case Some(rest) => Some(if rs[0].payloadMass < rest then rs[0].payloadMass else rest)
  }

  /** Every payload mass lies between the two extremes, which therefore do not cross. */
  lemma PayloadWithinBounds(rs: seq<LaunchRecord>)
    requires |rs| > 0
    ensures MinPayload(rs).value <= MaxPayload(rs).value
    ensures forall x :: x in rs ==> MinPayload(rs).value <= x.payloadMass <= MaxPayload(rs).value
  {
  }

  /** The `Launch Site` column holds exactly the sites of the records. */
  lemma SitesOfMembers(rs: seq<LaunchRecord>)
    ensures forall x :: x in rs ==> x.site in SitesOf(rs)
    ensures forall s :: s in SitesOf(rs) ==> exists x :: x in rs && x.site == s
  {
    var all := SitesOf(rs);
    forall x | x in rs ensures x.site in all {
      var k :| 0 <= k < |rs| && rs[k] == x;
      assert all[k] == x.site;
    }
    forall s | s in all ensures exists x :: x in rs && x.site == s {
      var k :| 0 <= k < |all| && all[k] == s;
      assert rs[k] in rs;
    }
  }

  /** A position at which `s` holds `y`. */
  function IndexOf(s: seq<string>, y: string): (k: nat)
    requires y in s
    ensures k < |s| && s[k] == y
  {
    if s[0] == y then 0 else 1 + IndexOf(s[1..], y)
  }

  /**
   An entry of the launch-site selector: `text` is the option's label (the
   word `label` is reserved in Dafny) and `value` is what selecting it yields.
   */
  datatype DropdownOption = DropdownOption(text: string, value: string)

  /** One option per site name, labelled with the name itself. */
  function OptionsFor(sites: seq<string>): (opts: seq<DropdownOption>)
    ensures |opts| == |sites|
    ensures forall i :: 0 <= i < |sites| ==> opts[i] == DropdownOption(sites[i], sites[i])
  {
    if sites == [] then [] else [DropdownOption(sites[0], sites[0])] + OptionsFor(sites[1..])
  }

  /**
   The selector's options: the `All Sites` entry, whose value is `ALL`,
   then each distinct launch site once, in ascending order.
   */
  function SiteOptions(rs: seq<LaunchRecord>): (opts: seq<DropdownOption>)
    ensures |opts| >= 1 && opts[0] == DropdownOption("All Sites", "ALL")
    ensures forall i :: 1 <= i < |opts| ==> opts[i].text == opts[i].value
    ensures forall i, j :: 1 <= i < j < |opts| ==> Below(opts[i].value, opts[j].value)
    ensures forall i, j :: 1 <= i < j < |opts| ==> opts[i].value != opts[j].value
    ensures forall i :: 1 <= i < |opts| ==> exists x :: x in rs && x.site == opts[i].value
    ensures forall x :: x in rs ==> exists i :: 1 <= i < |opts| && opts[i].value == x.site
  {
    var opts := [DropdownOption("All Sites", "ALL")] + OptionsFor(SortedUnique(SitesOf(rs)));
    SiteOptionsAscending(rs, opts);
    OfferedSitesOccur(rs, opts);
    OccurringSitesOffered(rs, opts);
    opts
  }

  /** The site entries are strictly ascending, hence pairwise different. */
  lemma SiteOptionsAscending(rs: seq<LaunchRecord>, opts: seq<DropdownOption>)
    requires opts == [DropdownOption("All Sites", "ALL")] + OptionsFor(SortedUnique(SitesOf(rs)))
    ensures forall i, j :: 1 <= i < j < |opts| ==> Below(opts[i].value, opts[j].value)
    ensures forall i, j :: 1 <= i < j < |opts| ==> opts[i].value != opts[j].value
  {
    var sites := SortedUnique(SitesOf(rs));
    assert forall i :: 1 <= i < |opts| ==> opts[i].value == sites[i - 1];
    Distinct(sites);
  }

  /** Every site entry of the options is the site of some record. */
  lemma OfferedSitesOccur(rs: seq<LaunchRecord>, opts: seq<DropdownOption>)
    requires opts == [DropdownOption("All Sites", "ALL")] + OptionsFor(SortedUnique(SitesOf(rs)))
    ensures forall i :: 1 <= i < |opts| ==> exists x :: x in rs && x.site == opts[i].value
  {
    var sites := SortedUnique(SitesOf(rs));
    SitesOfMembers(rs);
    forall i | 1 <= i < |opts| ensures exists x :: x in rs && x.site == opts[i].value {
      assert opts[i] == OptionsFor(sites)[i - 1];
      assert sites[i - 1] in SitesOf(rs);
    }
  }

  /** The site of every record has an entry among the options. */
  lemma OccurringSitesOffered(rs: seq<LaunchRecord>, opts: seq<DropdownOption>)
    requires opts == [DropdownOption("All Sites", "ALL")] + OptionsFor(SortedUnique(SitesOf(rs)))
    ensures forall x :: x in rs ==> exists i :: 1 <= i < |opts| && opts[i].value == x.site
  {
    var sites := SortedUnique(SitesOf(rs));
    SitesOfMembers(rs);
    forall x | x in rs ensures exists i :: 1 <= i < |opts| && opts[i].value == x.site {
      var k := IndexOf(sites, x.site);
      assert opts[k + 1] == OptionsFor(sites)[k];
    }
  }

  /** Number of launches from `site`. */
  function LaunchesAt(rs: seq<LaunchRecord>, site: string): nat
  {
    if rs == [] then 0
    else (if rs[0].site == site then 1 else 0) + LaunchesAt(rs[1..], site)
  }

  /** Number of launches from `site` whose class is `c`. */
  function OutcomesAt(rs: seq<LaunchRecord>, site: string, c: ClassValue): nat
  {
    if rs == [] then 0
    else (if rs[0].site == site && rs[0].outcome == c then 1 else 0) + OutcomesAt(rs[1..], site, c)
  }

  /** Number of launches, from any site, whose class is `c`. */
  function OutcomeTotal(rs: seq<LaunchRecord>, c: ClassValue): nat
  {
    if rs == [] then 0
    else (if rs[0].outcome == c then 1 else 0) + OutcomeTotal(rs[1..], c)
  }

  /** Every launch from a site is either a success or a failure. */
  lemma {:induction false} LaunchesSplit(rs: seq<LaunchRecord>, site: string)
    ensures LaunchesAt(rs, site) == OutcomesAt(rs, site, 1) + OutcomesAt(rs, site, 0)
  {
    if rs != [] {
      LaunchesSplit(rs[1..], site);
    }
  }
}
