/**
 * The tab values of the admin dashboard (src/components/dashboards/AdminDashboard.tsx),
 * which the admin menu and quick actions refer to.
 */
module AdminDashboard {

  /** The `TabsTrigger` values, in order. */
  const Tabs: seq<string> := ["doctors", "departments"]

  /** The tab shown first. */
  const InitialTab: string := "doctors"
}
