# SpaceX launch records dashboard — a Dafny model of its filtering and counting

The dashboard loads a table of launch records once. Each record has a launch
site, a payload mass, a landing class (1 success, 0 failure) and a booster
version category. The page has two inputs and two charts:

- a launch-site selector, whose options are built once from the table;
- a payload-mass range slider, which starts at the table's smallest and
  largest payload;
- a proportion chart. With `ALL` selected it shows the number of successful
  launches per site. With one site selected it shows that site's launches
  counted as "Success" and "Failure";
- a correlation chart, which shows the launches inside the payload range,
  from the selected site or from all sites.

The model covers the values the page computes from the table before the
charting library draws them. It is written as pure functions over a
`seq<LaunchRecord>`, with lemmas about them:

- `collections.dfy`, module `Collections`: `Filter` is boolean-mask row
  selection and keeps table order. `Tally` is counting per key, which is what
  `groupby(...).size()` and `value_counts()` do. `Total` is the sum of a count
  table.
- `site_order.dfy`, module `SiteOrder`: Python's string order (by code point,
  a prefix first) and `sorted(column.unique())`.
- `launch_data.dfy`, module `LaunchData`: the record type, the payload
  extremes, the selector options, and simple recursive counters
  (`LaunchesAt`, `OutcomesAt`, `OutcomeTotal`). The counters are the
  reference definitions that the chart contracts are stated against.
- `success_pie.dfy`, module `SuccessPie`: the data and title of the
  proportion chart.
- `payload_scatter.dfy`, module `PayloadScatter`: the rows and title of the
  correlation chart.

Count tables are `map<string, nat>`. The library decides the order of the
chart rows, so the model does not fix one. A table without a row for a key
means that key had no records; the model never makes a zero-count row.

## Behaviour at the edges

- Selecting a site that no record has is not an error. The site's row
  selection is empty, so its breakdown is an empty table
  (`SuccessPie.UnknownSiteBreakdown`).
- The table may be empty. The maximum and minimum of an empty payload column
  are not numbers, and the model gives `None` for them.
- The correlation chart's title names "All Sites" when `ALL` is selected.
  It does the same for a site literally named "All Sites". So when no site
  has that name, the title names "All Sites" exactly when `ALL` is selected
  (`PayloadScatter.TitleSite`).

## Model

| member | source | states |
|---|---|---|
| `LaunchData.MaxPayload` | spacex-dash-app.py:10 | Defined exactly when the table is non-empty; then it is the payload mass of some record and no record's payload is larger. |
| `LaunchData.MinPayload` | spacex-dash-app.py:11 | Defined exactly when the table is non-empty; then it is the payload mass of some record and no record's payload is smaller. |
| `LaunchData.PayloadWithinBounds` | spacex-dash-app.py:10-11 | For a non-empty table the minimum does not exceed the maximum, and every record's payload lies between them. |
| `LaunchData.SiteOptions` | spacex-dash-app.py:14-17 | The first option is label "All Sites" with value "ALL". Each later option has its label equal to its value. The later values are strictly ascending in Python's string order, so no site repeats. Every later value is the site of some record, and every record's site is offered. |
| `LaunchData.SiteOptionsAscending` | spacex-dash-app.py:16 | The site entries of the options are strictly ascending and pairwise different. |
| `LaunchData.OfferedSitesOccur` | spacex-dash-app.py:16 | Every site entry of the options is the site of some record. |
| `LaunchData.OccurringSitesOffered` | spacex-dash-app.py:16 | The site of every record has an entry among the options. |
| `LaunchData.LaunchesSplit` | spacex-dash-app.py:78-83 | The launches from a site are its class-1 launches plus its class-0 launches. |
| `SiteOrder.BelowTransitive` | spacex-dash-app.py:16 | The string order used by `sorted` is transitive. |
| `SiteOrder.BelowTotal` | spacex-dash-app.py:16 | Any two different strings are ordered one way or the other. |
| `SiteOrder.BelowIrreflexive` | spacex-dash-app.py:16 | No string sorts before itself. |
| `SiteOrder.Insert` | spacex-dash-app.py:16 | Inserting into a strictly ascending list keeps it strictly ascending, and adds the new string and nothing else. |
| `SiteOrder.SortedUnique` | spacex-dash-app.py:16 | `sorted(unique())` is strictly ascending and holds exactly the strings of the column. |
| `SiteOrder.Distinct` | spacex-dash-app.py:16 | A strictly ascending list has no repeated element. |
| `SiteOrder.AscendingDetermined` | spacex-dash-app.py:16 | Two strictly ascending lists with the same elements are equal, so the option list does not depend on the order of the table. |
| `Collections.Filter` | spacex-dash-app.py:100-103 | A boolean mask keeps exactly the rows it accepts, each as often as in the table, and keeps their order; the result is never longer. |
| `Collections.FilterTwice` | spacex-dash-app.py:100-108 | Masking by range and then by site is the same as masking once by both conditions. |
| `Collections.Tally` | spacex-dash-app.py:68-71 | Counting per key has an entry exactly for the keys that occur; each entry is the number of occurrences of its key and is at least 1. |
| `Collections.TotalRemove` | spacex-dash-app.py:68-71 | The total of a count table is any one entry plus the total of the rest. |
| `Collections.TotalOfTwo` | spacex-dash-app.py:79-83 | A table with at most two keys totals the sum of the entries present. |
| `Collections.TallyTotal` | spacex-dash-app.py:68-71 | The counts per key add up to the number of counted rows. |
| `Collections.SubsequenceOfSameLength` | spacex-dash-app.py:100-103 | An order-preserving selection as long as the table is the table. |
| `SuccessPie.SuccessSitesCount` | spacex-dash-app.py:68-70 | Among the successful rows, each site occurs once per successful launch from it. |
| `SuccessPie.SuccessCountsBySite` | spacex-dash-app.py:66-71 | The all-sites table has one entry per site with at least one success. That entry is the site's number of class-1 launches. Sites without a success get no entry, so every count is at least 1. |
| `SuccessPie.SuccessCountsTotal` | spacex-dash-app.py:68-71 | The per-site success counts add up to the number of class-1 launches in the table. |
| `SuccessPie.SiteClassesCount` | spacex-dash-app.py:78-80 | Among a site's rows, each class value occurs once per launch from the site with that outcome. |
| `SuccessPie.Relabel` | spacex-dash-app.py:83 | Relabelling turns the class-1 entry into "Success" and the class-0 entry into "Failure", keeps the counts, and makes no other entry. |
| `SuccessPie.OutcomeBreakdown` | spacex-dash-app.py:78-83 | The one-site table has a "Success" entry exactly when the site has a class-1 launch, holding their number. It has a "Failure" entry exactly when the site has a class-0 launch, holding their number. It has no other entry. |
| `SuccessPie.BreakdownTotal` | spacex-dash-app.py:78-83 | The Success and Failure counts of a site add up to its number of launches. |
| `SuccessPie.OnlySuccessesAtSite` | spacex-dash-app.py:79-83 | A site with launches but no failures gets exactly one entry, "Success", holding all its launches. |
| `SuccessPie.SingleSlice` | spacex-dash-app.py:79-83 | Any table meeting the breakdown description for a site with successes and no failures is the single "Success" entry. |
| `SuccessPie.UnknownSiteBreakdown` | spacex-dash-app.py:78-83 | A site that occurs in no record gets an empty table rather than an error. |
| `SuccessPie.UpdateSuccessPie` | spacex-dash-app.py:65-88 | For "ALL": the per-site success table, titled "Total Successful Launches by Site". Otherwise: the selected site's outcome breakdown, titled "Success vs Failure for site " followed by the site. |
| `PayloadScatter.ScatterRows` | spacex-dash-app.py:97-108 | The rows are exactly the records with low <= payload <= high, inclusive at both ends. Unless "ALL" is selected, they are also from the selected site. Each keeps its multiplicity and the table's order; nothing outside is shown and nothing inside is dropped. |
| `PayloadScatter.TitleSite` | spacex-dash-app.py:106-109 | For a selection other than "ALL" the title names the selected site. The title is "All Sites" exactly when the selection is "ALL" or a site named "All Sites". |
| `PayloadScatter.UpdateScatter` | spacex-dash-app.py:96-117 | The chart shows exactly the records in the range from the selected site, or from every site for "ALL", each as often as in the table and in table order. Its title is "Correlation between Payload and Success (…)" around "All Sites" for "ALL" and around the site name otherwise. |
| `PayloadScatter.InitialRangeShowsAll` | spacex-dash-app.py:100-103 | With "ALL" and the slider's initial range (line 52: minimum to maximum payload), the rows are the whole table, in order. |
| `PayloadScatter.CrossedRangeShowsNothing` | spacex-dash-app.py:100-103 | A range with high < low selects no row. |
| `PayloadScatter.SinglePointRange` | spacex-dash-app.py:100-108 | With "ALL" or the launch's own site selected, a one-point range at a payload mass that exactly one launch has shows exactly that launch. |

## Left out

- Reading the CSV file (spacex-dash-app.py:9) is file I/O. The loaded table is a parameter, `rs: seq<LaunchRecord>`.
- The page layout, widget styling, and the slider's bounds, step and marks (spacex-dash-app.py:20-58) are UI configuration. The slider's refusal to let its handles cross (line 53) is not assumed; a crossed range simply selects nothing (`PayloadScatter.CrossedRangeShowsNothing`).
- Callback registration, and the building of chart figures by the plotting library (spacex-dash-app.py:61-64, 72-75, 84-87, 91-95, 111-118), are foreign library calls. Each chart is modelled by the data handed to the library and its title string. Colouring by booster category and hover data are left to the library.
- Starting the web server (spacex-dash-app.py:122-123) is network I/O.
- Payload masses are `real`. The code only compares them, so floating-point rounding and not-a-number values inside the column are not modelled.
- The row order of the chart tables comes from the library, not from the code. Count tables are maps.
- The class column is restricted to 0 and 1. Other values, which the relabelling would turn into missing labels, are not modelled.
- Calling any of these functions twice with the same arguments gives the same result. This holds for every Dafny function, so no lemma states it.
