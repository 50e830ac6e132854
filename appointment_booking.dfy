/**
 * The patient's booking form (src/components/patient/AppointmentBooking.tsx):
 * department, doctor, date, time and complaint, with the doctor list
 * following the department and a required-field check on submit.
 */
module AppointmentBooking {
  import Lists

  /** The form's state; every field starts empty. */
  datatype Appointment = Appointment(department: string, doctor: string, date: string, time: string, complaint: string)

  const Blank: Appointment := Appointment("", "", "", "", "")

  /** An entry of a select: the value it submits and the name it shows. */
  datatype Choice = Choice(id: string, name: string)

  const Departments: seq<Choice> := [
    Choice("cardiology", "Cardiology"),
    Choice("neurology", "Neurology"),
    Choice("orthopedics", "Orthopedics"),
    Choice("pediatrics", "Pediatrics"),
    Choice("general", "General Medicine")
  ]

  /** The doctors of each department. */
  const DoctorsOf: map<string, seq<Choice>> := map[
    "cardiology" := [Choice("dr-johnson", "Dr. Sarah Johnson"), Choice("dr-brown", "Dr. Michael Brown")],
    "neurology" := [Choice("dr-wilson", "Dr. Emily Wilson"), Choice("dr-davis", "Dr. James Davis")],
    "orthopedics" := [Choice("dr-miller", "Dr. Robert Miller"), Choice("dr-garcia", "Dr. Maria Garcia")],
    "pediatrics" := [Choice("dr-martinez", "Dr. Lisa Martinez"), Choice("dr-anderson", "Dr. David Anderson")],
    "general" := [Choice("dr-smith", "Dr. Michael Smith"), Choice("dr-jones", "Dr. Jennifer Jones")]
  ]

  const TimeSlots: seq<string> := [
    "09:00 AM", "09:30 AM", "10:00 AM", "10:30 AM", "11:00 AM", "11:30 AM",
    "02:00 PM", "02:30 PM", "03:00 PM", "03:30 PM", "04:00 PM", "04:30 PM"
  ]

  /** `availableDoctors`: none without a department or for an unknown one. */
  function AvailableDoctors(department: string): seq<Choice>
  {
    if department == "" then [] else if department in DoctorsOf then DoctorsOf[department] else []
  }

  /** The check in `handleSubmit`: department, doctor, date and time are all filled in. */
  predicate Complete(a: Appointment)
  {
    a.department != "" && a.doctor != "" && a.date != "" && a.time != ""
  }

  /** The doctor select is disabled until a department is chosen. */
  predicate DoctorSelectDisabled(a: Appointment)
  {
    a.department == ""
  }

  function Ids(cs: seq<Choice>): (r: seq<string>)
    ensures |r| == |cs|
    ensures forall i :: 0 <= i < |cs| ==> r[i] == cs[i].id
  {
    Lists.Map(cs, (c: Choice) => c.id)
  }

  /** Each offered department has a non-empty value and exactly two doctors with non-empty values. */
  lemma DepartmentHasDoctors(k: nat)
    requires k < |Departments|
    ensures Departments[k].id != "" && |AvailableDoctors(Departments[k].id)| == 2
    ensures forall j :: 0 <= j < |AvailableDoctors(Departments[k].id)| ==> AvailableDoctors(Departments[k].id)[j].id != ""
  {
    if k == 0 {
      assert Departments[k].id == "cardiology";
    } else if k == 1 {
      assert Departments[k].id == "neurology";
    } else if k == 2 {
      assert Departments[k].id == "orthopedics";
    } else if k == 3 {
      assert Departments[k].id == "pediatrics";
    } else {
      assert Departments[k].id == "general";
    }
  }

  /** The doctor table is keyed by exactly the offered departments' values. */
  lemma TableKeys()
    ensures forall d :: d in DoctorsOf <==> d in Ids(Departments)
  {
    assert Ids(Departments) == ["cardiology", "neurology", "orthopedics", "pediatrics", "general"];
  }

  /** Without a department, or with one the table lacks, no doctor can be offered. */
  lemma NoDepartmentNoDoctors(department: string)
    ensures AvailableDoctors(department) != [] <==> department in DoctorsOf
  {
  }

  /** The component's state and handlers. */
  class Booking {
    var data: Appointment

    constructor()
      ensures data == Blank
    {
      data := Blank;
    }

    function Doctors(): seq<Choice>
      reads this
    {
      AvailableDoctors(data.department)
    }

    /** Choosing a department also clears the doctor. */
    method SelectDepartment(v: string)
      modifies this
      ensures data == old(data).(department := v, doctor := "")
      ensures !Complete(data)
    {
      data := data.(department := v, doctor := "");
    }

    /** Choosing a doctor; the select does nothing while it is disabled. */
    method SelectDoctor(v: string)
      modifies this
      ensures data == if DoctorSelectDisabled(old(data)) then old(data) else old(data).(doctor := v)
    {
      if !DoctorSelectDisabled(data) {
        data := data.(doctor := v);
      }
    }

    method SetDate(v: string)
      modifies this
      ensures data == old(data).(date := v)
    {
      data := data.(date := v);
    }

    method SelectTime(v: string)
      modifies this
      ensures data == old(data).(time := v)
    {
      data := data.(time := v);
    }

    method SetComplaint(v: string)
      modifies this
      ensures data == old(data).(complaint := v)
    {
      data := data.(complaint := v);
    }

    /** `handleSubmit`: books and clears the form exactly when the required fields are filled in. */
    method Submit() returns (booked: bool)
      modifies this
      ensures booked <==> Complete(old(data))
      ensures data == if booked then Blank else old(data)
    {
      if !Complete(data) {
        return false;
      }
      data := Blank;
      return true;
    }
  }

  /**
   * Filling in department, one of its doctors, a date and a time books the
   * appointment, with or without a complaint, and empties the form.
   */
  method BookFilledForm(k: nat, j: nat, date: string, complaint: string)
    returns (offered: seq<Choice>, booked: bool, after: Appointment)
    requires k < |Departments| && j < 2 && date != ""
    ensures |offered| == 2
    ensures booked && after == Blank
  {
    DepartmentHasDoctors(k);
    var b := new Booking();
    b.SelectDepartment(Departments[k].id);
    offered := b.Doctors();
    b.SelectDoctor(offered[j].id);
    b.SetDate(date);
    b.SelectTime(TimeSlots[0]);
    b.SetComplaint(complaint);
    booked := b.Submit();
    after := b.data;
  }

  /**
   * Changing the department after choosing a doctor clears the doctor, so
   * the next submit is refused and keeps everything else typed so far.
   */
  method ChangeDepartmentThenSubmit(date: string, time: string) returns (booked: bool, after: Appointment)
    ensures !booked
    ensures after == Appointment("neurology", "", date, time, "")
  {
    var b := new Booking();
    b.SelectDepartment("cardiology");
    b.SelectDoctor("dr-johnson");
    b.SetDate(date);
    b.SelectTime(time);
    b.SelectDepartment("neurology");
    booked := b.Submit();
    after := b.data;
  }
}
