/**
 * The doctor's dashboard (src/components/dashboards/DoctorDashboard.tsx):
 * the tab state, today's appointments with their status badges, and which
 * patient the record-update dialog is open for.
 */
module DoctorDashboard {
  import Lists
  import Sidebar

  const Tabs: seq<string> := ["appointments", "records"]
  const InitialTab: string := "appointments"

  /** An appointment row; `kind` is the appointment's `type`. */
  datatype Appointment = Appointment(id: int, patient: string, time: string, kind: string, status: string)

  const TodaysAppointments: seq<Appointment> := [
    Appointment(1, "Alice Johnson", "09:00 AM", "Consultation", "confirmed"),
    Appointment(2, "Bob Wilson", "10:30 AM", "Follow-up", "pending"),
    Appointment(3, "Carol Brown", "02:00 PM", "Check-up", "completed"),
    Appointment(4, "David Lee", "03:30 PM", "Consultation", "confirmed")
  ]

  /** The patients listed today, in order. */
  function Patients(): (r: seq<string>)
    ensures |r| == |TodaysAppointments|
    ensures forall i :: 0 <= i < |r| ==> r[i] == TodaysAppointments[i].patient
  {
    Lists.Map(TodaysAppointments, (a: Appointment) => a.patient)
  }

  /** The badge colours. */
  datatype Tone = Green | Yellow | Blue | Red

  /** `getStatusBadge`: an unknown status is shown like "pending". */
  function StatusTone(status: string): Tone
  {
    if status == "confirmed" then Green
    else if status == "completed" then Blue
    else if status == "cancelled" then Red
    else Yellow
  }

  /** The status each colour stands for. */
  function ToneStatus(t: Tone): string
  {
    match t
    case Green => "confirmed"
    case Yellow => "pending"
    case Blue => "completed"
    case Red => "cancelled"
  }

  /** The four statuses have four different colours, and anything else falls back to "pending"'s. */
  lemma BadgeTable(t: Tone, status: string)
    ensures StatusTone(ToneStatus(t)) == t
    ensures status !in ["confirmed", "pending", "completed", "cancelled"] ==> StatusTone(status) == StatusTone("pending")
    ensures StatusTone(status) == t ==> status == ToneStatus(t) || StatusTone(status) == Yellow
  {
  }

  /** The doctor menu offers exactly the dashboard's tabs, in order. */
  lemma MenuMatchesTabs()
    ensures Sidebar.Values(Sidebar.MenuItems("doctor")) == Tabs
  {
    Sidebar.MenuPerRole("doctor");
  }

  /** The dialog is open exactly for a listed patient, and closed with no patient selected. */
  ghost predicate DialogState(isOpen: bool, patient: string)
  {
    if isOpen then patient in Patients() else patient == ""
  }

  class Dashboard {
    var activeTab: string
    var isModalOpen: bool
    var selectedPatient: string

    ghost predicate Valid()
      reads this
    {
      DialogState(isModalOpen, selectedPatient)
    }

    constructor()
      ensures Valid()
      ensures activeTab == InitialTab && !isModalOpen && selectedPatient == ""
    {
      activeTab := InitialTab;
      isModalOpen := false;
      selectedPatient := "";
    }

    /** `setActiveTab`, from the sidebar or the tab strip. */
    method ChangeTab(tab: string)
      requires Valid()
      modifies this
      ensures Valid()
      ensures activeTab == tab && isModalOpen == old(isModalOpen) && selectedPatient == old(selectedPatient)
    {
      activeTab := tab;
    }

    /** `handleUpdateRecord` from the "Update Record" button of row `i` (either tab). */
    method UpdateRecord(i: nat)
      requires Valid() && i < |TodaysAppointments|
      modifies this
      ensures Valid()
      ensures isModalOpen && selectedPatient == TodaysAppointments[i].patient && activeTab == old(activeTab)
    {
      selectedPatient := TodaysAppointments[i].patient;
      isModalOpen := true;
      assert Patients()[i] == selectedPatient;
    }

    /** `handleCloseModal`. */
    method CloseModal()
      requires Valid()
      modifies this
      ensures Valid()
      ensures !isModalOpen && selectedPatient == "" && activeTab == old(activeTab)
    {
      isModalOpen := false;
      selectedPatient := "";
    }
  }

  /** Opening the dialog for a row names that row's patient; closing it clears the name again. */
  method OpenThenClose(i: nat) returns (whileOpen: string, openAfter: bool, after: string)
    requires i < |TodaysAppointments|
    ensures whileOpen in Patients() && whileOpen != ""
    ensures !openAfter && after == ""
  {
    var d := new Dashboard();
    d.ChangeTab("records");
    d.UpdateRecord(i);
    whileOpen := d.selectedPatient;
    assert Patients()[i] == whileOpen;
    d.CloseModal();
    openAfter, after := d.isModalOpen, d.selectedPatient;
  }
}
