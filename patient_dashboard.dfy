/**
 * The patient's dashboard (src/components/dashboards/PatientDashboard.tsx):
 * the tab state, the medical-report list with its search and filters, the
 * summary counts, and the profile form.
 */
module PatientDashboard {
  import Lists
  import Text
  import Sidebar

  /** The `TabsTrigger` values, in order, and the tab shown first. */
  const Tabs: seq<string> := ["book", "reports", "profile"]
  const InitialTab: string := "book"

  /** A medical report; `kind` is the report's `type`. */
  datatype Report = Report(id: int, kind: string, testName: string, date: string, status: string,
                           result: string, doctor: string, notes: string, downloadUrl: string)

  /** The five reports the list shows. */
  const RecentReports: seq<Report> := [
    Report(1, "Blood Test", "Complete Blood Count (CBC)", "Dec 10, 2024", "completed", "Normal", "Dr. Smith",
           "All values within normal range. Continue regular monitoring.", "#"),
    Report(2, "X-Ray", "Chest X-Ray", "Dec 8, 2024", "pending", "Pending Review", "Dr. Johnson",
           "Images captured successfully. Awaiting radiologist review.", "#"),
    Report(3, "ECG", "Electrocardiogram", "Dec 5, 2024", "completed", "Normal", "Dr. Smith",
           "Heart rhythm normal. No abnormalities detected.", "#"),
    Report(4, "MRI", "Brain MRI", "Dec 1, 2024", "completed", "Normal", "Dr. Wilson",
           "No structural abnormalities identified. Follow-up in 6 months.", "#"),
    Report(5, "Blood Test", "Lipid Panel", "Nov 28, 2024", "completed", "Abnormal", "Dr. Smith",
           "Cholesterol levels elevated. Dietary modifications recommended.", "#")
  ]

  /** The search box: the lower-cased term occurs in the test name, the type or the doctor. */
  predicate MatchesSearch(r: Report, term: string)
  {
    var t := Text.Lower(term);
    Text.Includes(Text.Lower(r.testName), t) || Text.Includes(Text.Lower(r.kind), t)
    || Text.Includes(Text.Lower(r.doctor), t)
  }

  /** A report passes all three filters ("all" switches a select filter off). */
  predicate Shown(r: Report, term: string, statusFilter: string, typeFilter: string)
  {
    MatchesSearch(r, term) && (statusFilter == "all" || r.status == statusFilter)
    && (typeFilter == "all" || r.kind == typeFilter)
  }

  /** `filteredReports`. */
  function FilteredReports(rs: seq<Report>, term: string, statusFilter: string, typeFilter: string): seq<Report>
  {
    Lists.Filter(rs, (r: Report) => Shown(r, term, statusFilter, typeFilter))
  }

  /** `uniqueTypes`: the options of the type filter, besides "all". */
  function UniqueTypes(rs: seq<Report>): seq<string>
  {
    Lists.Distinct(Lists.Map(rs, (r: Report) => r.kind))
  }

  /** The summary cards count reports by status. */
  function StatusCount(rs: seq<Report>, status: string): nat
  {
    Lists.Count(rs, (r: Report) => r.status == status)
  }

  /** A row offers "Download" only for a completed report. */
  predicate OffersDownload(r: Report)
  {
    r.status == "completed"
  }

  /** The colours of the status and result badges. */
  datatype Tone = Green | Yellow | Red | Gray

  /** `getStatusBadge`: an unknown status is shown like "pending". */
  function StatusTone(status: string): Tone
  {
    if status == "completed" then Green
    else if status == "cancelled" then Red
    else Yellow
  }

  /** `getResultBadge`: an unknown result is grey. */
  function ResultTone(result: string): Tone
  {
    if result == "Normal" then Green
    else if result == "Abnormal" then Red
    else if result == "Pending Review" then Yellow
    else Gray
  }

  /** The badge colours: each listed value has its own, and the two fallbacks. */
  lemma Tones(status: string, result: string)
    ensures StatusTone(status) == Yellow <==> status != "completed" && status != "cancelled"
    ensures StatusTone(status) == StatusTone("pending") || status in ["completed", "cancelled"]
    ensures ResultTone(result) == Gray <==> result !in ["Normal", "Abnormal", "Pending Review"]
  {
  }

  /** With an empty search and both selects on "all", every report is listed. */
  lemma NoFilterShowsAll(rs: seq<Report>)
    ensures FilteredReports(rs, "", "all", "all") == rs
  {
    forall i | 0 <= i < |rs|
      ensures Shown(rs[i], "", "all", "all")
    {
      Text.IncludesEmpty(Text.Lower(rs[i].testName));
    }
    Lists.FilterAll(rs, (r: Report) => Shown(r, "", "all", "all"));
  }

  /** The list holds, in order, exactly the reports that pass the filters. */
  lemma FilteredSpec(rs: seq<Report>, term: string, statusFilter: string, typeFilter: string)
    ensures forall i :: 0 <= i < |FilteredReports(rs, term, statusFilter, typeFilter)| ==>
              FilteredReports(rs, term, statusFilter, typeFilter)[i] in rs &&
              Shown(FilteredReports(rs, term, statusFilter, typeFilter)[i], term, statusFilter, typeFilter)
    ensures forall i :: 0 <= i < |rs| && Shown(rs[i], term, statusFilter, typeFilter) ==>
              rs[i] in FilteredReports(rs, term, statusFilter, typeFilter)
    ensures Lists.IsSubsequence(FilteredReports(rs, term, statusFilter, typeFilter), rs)
  {
  }

  /** The search ignores letter case: a term and its lower-cased form match alike. */
  lemma SearchIgnoresCase(r: Report, term: string)
    ensures MatchesSearch(r, term) <==> MatchesSearch(r, Text.Lower(term))
  {
    Text.LowerIdempotent(term);
  }

  /** Filtering on a status alone lists as many reports as that status's summary card counts. */
  lemma StatusFilterMatchesCount(rs: seq<Report>, status: string)
    requires status != "all"
    ensures |FilteredReports(rs, "", status, "all")| == StatusCount(rs, status)
  {
    var p := (r: Report) => Shown(r, "", status, "all");
    var q := (r: Report) => r.status == status;
    forall i | 0 <= i < |rs|
      ensures p(rs[i]) <==> q(rs[i])
    {
      Text.IncludesEmpty(Text.Lower(rs[i].testName));
    }
    Lists.CountMonotone(rs, p, q);
    Lists.CountMonotone(rs, q, p);
  }

  /** The "completed" and "pending" cards never count more reports than the total card. */
  lemma CardsBounded(rs: seq<Report>)
    ensures StatusCount(rs, "completed") + StatusCount(rs, "pending") <= |rs|
  {
    Lists.CountDisjoint(rs, (r: Report) => r.status == "completed", (r: Report) => r.status == "pending");
  }

  /**
   * The type options are the report types without repetition, in order of
   * first appearance, and each one, chosen alone, lists at least one report.
   */
  lemma {:induction false} TypeOptions(rs: seq<Report>)
    ensures Lists.NoDuplicates(UniqueTypes(rs))
    ensures forall i :: 0 <= i < |rs| ==> rs[i].kind in UniqueTypes(rs)
    ensures forall j :: 0 <= j < |UniqueTypes(rs)| && UniqueTypes(rs)[j] != "all" ==>
              |FilteredReports(rs, "", "all", UniqueTypes(rs)[j])| > 0
  {
    var kinds := Lists.Map(rs, (r: Report) => r.kind);
    Lists.DistinctSpec(kinds);
    forall j | 0 <= j < |UniqueTypes(rs)| && UniqueTypes(rs)[j] != "all"
      ensures |FilteredReports(rs, "", "all", UniqueTypes(rs)[j])| > 0
    {
      var t := UniqueTypes(rs)[j];
      var i := Lists.FirstIndex(kinds, t);
      Text.IncludesEmpty(Text.Lower(rs[i].testName));
      assert Shown(rs[i], "", "all", t);
    }
  }

  /** The fixture: 5 reports, 4 completed (each downloadable), 1 pending, and four types. */
  lemma FixtureFacts()
    ensures |RecentReports| == 5
    ensures StatusCount(RecentReports, "completed") == 4 && StatusCount(RecentReports, "pending") == 1
    ensures Lists.Count(RecentReports, OffersDownload) == 4
    ensures UniqueTypes(RecentReports) == ["Blood Test", "X-Ray", "ECG", "MRI"]
  {
    assert Lists.Map(RecentReports, (r: Report) => r.kind) == ["Blood Test", "X-Ray", "ECG", "MRI", "Blood Test"];
    var s := ["Blood Test", "X-Ray", "ECG", "MRI", "Blood Test"];
    assert Lists.Distinct(s[..1]) == ["Blood Test"] by {
      assert s[..1][..0] == [];
    }
    assert Lists.Distinct(s[..2]) == ["Blood Test", "X-Ray"] by {
      assert s[..2][..1] == s[..1];
    }
    assert Lists.Distinct(s[..3]) == ["Blood Test", "X-Ray", "ECG"] by {
      assert s[..3][..2] == s[..2];
    }
    assert Lists.Distinct(s[..4]) == ["Blood Test", "X-Ray", "ECG", "MRI"] by {
      assert s[..4][..3] == s[..3];
    }
    assert s[..|s| - 1] == s[..4];
  }

  /** Choosing "Completed" alone lists the four completed reports, each downloadable. */
  lemma CompletedRows()
    ensures |FilteredReports(RecentReports, "", "completed", "all")| == 4
    ensures forall i :: 0 <= i < |FilteredReports(RecentReports, "", "completed", "all")| ==>
              OffersDownload(FilteredReports(RecentReports, "", "completed", "all")[i])
  {
    StatusFilterMatchesCount(RecentReports, "completed");
    FixtureFacts();
    FilteredSpec(RecentReports, "", "completed", "all");
  }

  /** The profile form's fields. */
  datatype Profile = Profile(name: string, email: string, phone: string, address: string, emergencyContact: string)

  datatype ProfileField = Name | Email | Phone | Address | EmergencyContact

  function Get(p: Profile, f: ProfileField): string
  {
    match f
    case Name => p.name
    case Email => p.email
    case Phone => p.phone
    case Address => p.address
    case EmergencyContact => p.emergencyContact
  }

  /** `handleInputChange(field, value)`. */
  function WithInput(p: Profile, f: ProfileField, v: string): Profile
  {
    match f
    case Name => p.(name := v)
    case Email => p.(email := v)
    case Phone => p.(phone := v)
    case Address => p.(address := v)
    case EmergencyContact => p.(emergencyContact := v)
  }

  /** An input change sets its own field and leaves the other four alone. */
  lemma InputChangesOneField(p: Profile, f: ProfileField, v: string)
    ensures Get(WithInput(p, f, v), f) == v
    ensures forall g: ProfileField :: g != f ==> Get(WithInput(p, f, v), g) == Get(p, g)
  {
  }

  /** The profile the form starts with, seeded from the signed-in user. */
  function InitialProfile(name: string, email: string): Profile
  {
    Profile(name, email, "+1 (555) 123-4567", "123 Main St, City, State 12345", "Jane Doe - +1 (555) 987-6543")
  }

  /** The patient menu offers exactly the dashboard's tabs, in order. */
  lemma MenuMatchesTabs()
    ensures Sidebar.Values(Sidebar.MenuItems("patient")) == Tabs
  {
    Sidebar.MenuPerRole("patient");
  }

  /** The component's state; the report list itself is a constant. */
  class Dashboard {
    var activeTab: string
    var profile: Profile
    var searchTerm: string
    var statusFilter: string
    var typeFilter: string

    constructor(name: string, email: string)
      ensures activeTab == InitialTab && profile == InitialProfile(name, email)
      ensures searchTerm == "" && statusFilter == "all" && typeFilter == "all"
    {
      activeTab := InitialTab;
      profile := InitialProfile(name, email);
      searchTerm := "";
      statusFilter := "all";
      typeFilter := "all";
    }

    /** The rows of the reports table. */
    function Visible(): seq<Report>
      reads this
    {
      FilteredReports(RecentReports, searchTerm, statusFilter, typeFilter)
    }

    /** `setActiveTab`, from the sidebar or from the tab strip. */
    method ChangeTab(tab: string)
      modifies this
      ensures activeTab == tab
      ensures profile == old(profile) && searchTerm == old(searchTerm)
      ensures statusFilter == old(statusFilter) && typeFilter == old(typeFilter)
    {
      activeTab := tab;
    }

    method InputChange(f: ProfileField, v: string)
      modifies this
      ensures profile == WithInput(old(profile), f, v)
      ensures activeTab == old(activeTab) && searchTerm == old(searchTerm)
      ensures statusFilter == old(statusFilter) && typeFilter == old(typeFilter)
    {
      profile := WithInput(profile, f, v);
    }

    method SetSearchTerm(term: string)
      modifies this
      ensures searchTerm == term
      ensures activeTab == old(activeTab) && profile == old(profile)
      ensures statusFilter == old(statusFilter) && typeFilter == old(typeFilter)
    {
      searchTerm := term;
    }

    method SetStatusFilter(v: string)
      modifies this
      ensures statusFilter == v
      ensures activeTab == old(activeTab) && profile == old(profile)
      ensures searchTerm == old(searchTerm) && typeFilter == old(typeFilter)
    {
      statusFilter := v;
    }

    method SetTypeFilter(v: string)
      modifies this
      ensures typeFilter == v
      ensures activeTab == old(activeTab) && profile == old(profile)
      ensures searchTerm == old(searchTerm) && statusFilter == old(statusFilter)
    {
      typeFilter := v;
    }
  }

  /** Choosing "Completed" lists the four completed reports, matching the card. */
  method ShowCompleted(name: string, email: string) returns (rows: seq<Report>, before: seq<Report>)
    ensures before == RecentReports
    ensures |rows| == 4 && forall i :: 0 <= i < |rows| ==> OffersDownload(rows[i])
  {
    var d := new Dashboard(name, email);
    NoFilterShowsAll(RecentReports);
    before := d.Visible();
    d.ChangeTab("reports");
    d.SetStatusFilter("completed");
    rows := d.Visible();
    CompletedRows();
  }
}
