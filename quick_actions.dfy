/**
 * The quick-action panel (src/components/shared/QuickActions.tsx): the
 * actions each role is offered and what clicking one does.
 */
module QuickActions {
  import opened Wrappers
  import opened Users
  import AdminDashboard

  /** `getQuickActions`: the labels offered to a role string (icons and colours left out). */
  function Actions(role: string): seq<string>
  {
    if role == "admin" then ["Add Doctor", "Add Department", "Generate Report", "View Schedule"]
    else if role == "doctor" then ["Next Patient", "Add Record", "Patient List"]
    else if role == "patient" then ["Book Appointment", "View Reports", "Find Doctor"]
    else []
  }

  /** The branch of `handleQuickAction` an action label (`caption`) takes. */
  datatype Branch =
    | Navigate(tab: string)  // changes the tab when `onTabChange` is given
    | Announce               // a named case that only shows a notice
    | ComingSoon             // the `default` case

  function BranchOf(caption: string): Branch
  {
    if caption == "Add Doctor" then Navigate("doctors")
    else if caption == "Add Department" then Navigate("departments")
    else if caption == "Generate Report" then Navigate("reports")
    else if caption == "View Schedule" then Navigate("appointments")
    else if caption in ["Next Patient", "Add Record", "Patient List", "Book Appointment", "View Reports", "Find Doctor"]
    then Announce
    else ComingSoon
  }

  /** `handleQuickAction(caption)`: the tab passed to `onTabChange`, if it is called. */
  function HandleQuickAction(caption: string, hasOnTabChange: bool): Option<string>
  {
    match BranchOf(caption)
    case Navigate(tab) => if hasOnTabChange then Some(tab) else None
    case _ => None
  }

  /** Four actions for an admin, three for a doctor or a patient, none otherwise. */
  lemma ActionCounts(role: string)
    ensures |Actions(role)| == match RoleNamed(role)
                               case Some(Admin) => 4
                               case Some(_) => 3
                               case None => 0
  {
  }

  /**
   * Exactly four labels change the tab, each to its own target, and only
   * when a callback is given; every other caption leaves the tab alone.
   */
  lemma TabChanges(caption: string, hasOnTabChange: bool)
    ensures HandleQuickAction(caption, hasOnTabChange).Some? <==>
              hasOnTabChange && caption in ["Add Doctor", "Add Department", "Generate Report", "View Schedule"]
    ensures HandleQuickAction(caption, hasOnTabChange).Some? ==>
              HandleQuickAction(caption, hasOnTabChange).value ==
                if caption == "Add Doctor" then "doctors"
                else if caption == "Add Department" then "departments"
                else if caption == "Generate Report" then "reports"
                else "appointments"
  {
  }

  /** Every caption a known role is offered has a case of its own, never the default. */
  lemma OfferedLabelsAreHandled(role: string, i: nat)
    requires i < |Actions(role)|
    ensures BranchOf(Actions(role)[i]) != ComingSoon
  {
  }

  /**
   * Two of the admin's actions, "Generate Report" and "View Schedule",
   * select tabs the admin dashboard does not have.
   */
  lemma AdminTargetsOutsideDashboard()
    ensures HandleQuickAction("Generate Report", true) == Some("reports")
    ensures HandleQuickAction("View Schedule", true) == Some("appointments")
    ensures "reports" !in AdminDashboard.Tabs && "appointments" !in AdminDashboard.Tabs
  {
  }
}
