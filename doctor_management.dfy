/**
 * The admin's doctor list editor (src/components/admin/DoctorManagement.tsx):
 * a list of doctor records, an add form, an edit form holding a draft copy of
 * one record, and a status toggle per record.
 */
module DoctorManagement {
  import opened Wrappers
  import opened Numbers
  import Lists

  /** A doctor record; `experience` is what `parseInt` made of the form's text. */
  datatype Doctor = Doctor(id: int, name: string, email: string, specialization: string,
                           experience: Num, status: string, contactNumber: string)

  /** The record being edited: a copy whose experience is held as text. */
  datatype Draft = Draft(id: int, name: string, email: string, specialization: string,
                         experience: string, status: string, contactNumber: string)

  /** The add form's fields, all text. */
  datatype Form = Form(name: string, email: string, specialization: string,
                       experience: string, contactNumber: string)

  /** The inputs of either form. */
  datatype Field = Name | Email | Specialization | Experience | ContactNumber

  const EmptyForm: Form := Form("", "", "", "", "")

  /** The five records the list starts with. */
  const InitialDoctors: seq<Doctor> := [
    Doctor(1, "Dr. Smith", "doctor@hospital.com", "Cardiology", Int(10), "active", "+1234567890"),
    Doctor(2, "Dr. Sarah Johnson", "sarah.johnson@hospital.com", "Cardiology", Int(8), "active", "+1234567891"),
    Doctor(3, "Dr. Michael Smith", "michael.smith@hospital.com", "General Medicine", Int(12), "active", "+1234567892"),
    Doctor(4, "Dr. Emily Davis", "emily.davis@hospital.com", "Pediatrics", Int(6), "active", "+1234567893"),
    Doctor(5, "Dr. Robert Wilson", "robert.wilson@hospital.com", "Orthopedics", Int(15), "inactive", "+1234567894")
  ]

  /** One input's `onChange`: the form with that field replaced. */
  function WithField(f: Form, field: Field, v: string): Form
  {
    match field
    case Name => f.(name := v)
    case Email => f.(email := v)
    case Specialization => f.(specialization := v)
    case Experience => f.(experience := v)
    case ContactNumber => f.(contactNumber := v)
  }

  /** One input of the edit form: the draft with that field replaced. */
  function DraftWithField(e: Draft, field: Field, v: string): Draft
  {
    match field
    case Name => e.(name := v)
    case Email => e.(email := v)
    case Specialization => e.(specialization := v)
    case Experience => e.(experience := v)
    case ContactNumber => e.(contactNumber := v)
  }

  /** The record `handleAddDoctor` builds from the form, with `Date.now()` as `now`. */
  function NewDoctor(f: Form, now: int): Doctor
  {
    Doctor(now, f.name, f.email, f.specialization, ParseInt(f.experience), "active", f.contactNumber)
  }

  /** `handleEditDoctor`: the draft copy, experience turned back into text. */
  function ToDraft(d: Doctor): Draft
  {
    Draft(d.id, d.name, d.email, d.specialization, ToString(d.experience), d.status, d.contactNumber)
  }

  /** The record `handleUpdateDoctor` stores for a draft. */
  function FromDraft(e: Draft): Doctor
  {
    Doctor(e.id, e.name, e.email, e.specialization, ParseInt(e.experience), e.status, e.contactNumber)
  }

  /** The status a toggle gives: "active" becomes "inactive", anything else "active". */
  function Flip(status: string): string
  {
    if status == "active" then "inactive" else "active"
  }

  /** `toggleDoctorStatus(id)` on the list. */
  function StatusToggled(ds: seq<Doctor>, id: int): seq<Doctor>
  {
    Lists.Map(ds, (d: Doctor) => if d.id == id then d.(status := Flip(d.status)) else d)
  }

  /** `handleUpdateDoctor` on the list: every record with the draft's id is replaced. */
  function Updated(ds: seq<Doctor>, e: Draft): seq<Doctor>
  {
    Lists.Map(ds, (d: Doctor) => if d.id == e.id then FromDraft(e) else d)
  }

  /** The ids of a list, in order. */
  function Ids(ds: seq<Doctor>): (r: seq<int>)
    ensures |r| == |ds|
    ensures forall i :: 0 <= i < |ds| ==> r[i] == ds[i].id
  {
    Lists.Map(ds, (d: Doctor) => d.id)
  }

  /** A status the toggle can produce. */
  predicate IsBinaryStatus(s: string)
  {
    s == "active" || s == "inactive"
  }

  /** The text an input of the add form shows. */
  function Get(f: Form, field: Field): string
  {
    match field
    case Name => f.name
    case Email => f.email
    case Specialization => f.specialization
    case Experience => f.experience
    case ContactNumber => f.contactNumber
  }

  /** A typed value lands in its own field, every other field keeps its text, and typing it again changes nothing. */
  lemma WithFieldSetsOne(f: Form, field: Field, v: string)
    ensures Get(WithField(f, field, v), field) == v
    ensures forall g: Field :: g != field ==> Get(WithField(f, field, v), g) == Get(f, g)
    ensures WithField(f, field, v) == f <==> Get(f, field) == v
    ensures WithField(WithField(f, field, v), field, v) == WithField(f, field, v)
  {
  }

  /**
   * An added doctor is active, has the clock's id, keeps the form's name,
   * e-mail, specialization and contact number, and for a decimal numeral
   * typed as the experience has that numeral's value.
   */
  lemma NewDoctorFromForm(f: Form, now: int, k: int)
    ensures NewDoctor(f, now).status == "active" && NewDoctor(f, now).id == now
    ensures NewDoctor(f, now).name == f.name && NewDoctor(f, now).email == f.email
    ensures NewDoctor(f, now).specialization == f.specialization
    ensures NewDoctor(f, now).contactNumber == f.contactNumber
    ensures f.experience == ToString(Int(k)) ==> NewDoctor(f, now).experience == Int(k)
  {
    if f.experience == ToString(Int(k)) {
      ParseIntToString(Int(k));
    }
  }

  /** Saving an edit nobody changed stores back the very record that was opened. */
  lemma DraftRoundTrip(d: Doctor)
    ensures FromDraft(ToDraft(d)) == d
  {
    ParseIntToString(d.experience);
  }

  /** With unique ids, opening a record and saving it unchanged leaves the list as it was. */
  lemma UneditedUpdateKeepsList(ds: seq<Doctor>, i: nat)
    requires i < |ds| && Lists.NoDuplicates(Ids(ds))
    ensures Updated(ds, ToDraft(ds[i])) == ds
  {
    DraftRoundTrip(ds[i]);
    var f := (d: Doctor) => if d.id == ds[i].id then FromDraft(ToDraft(ds[i])) else d;
    forall j | 0 <= j < |ds|
      ensures f(ds[j]) == ds[j]
    {
      if j != i {
        assert Ids(ds)[j] != Ids(ds)[i] || j == i;
      }
    }
    Lists.MapIdentity(ds, f);
  }

  /** Updating replaces exactly the records with the draft's id and keeps every id in place. */
  lemma UpdateSpec(ds: seq<Doctor>, e: Draft)
    ensures |Updated(ds, e)| == |ds|
    ensures forall i :: 0 <= i < |ds| ==>
              Updated(ds, e)[i] == if ds[i].id == e.id then FromDraft(e) else ds[i]
    ensures Ids(Updated(ds, e)) == Ids(ds)
  {
    assert forall i :: 0 <= i < |ds| ==> Ids(Updated(ds, e))[i] == Ids(ds)[i];
  }

  /** A toggle flips the matching records' status, touches nothing else, and keeps the ids. */
  lemma ToggleSpec(ds: seq<Doctor>, id: int)
    ensures |StatusToggled(ds, id)| == |ds|
    ensures forall i :: 0 <= i < |ds| ==>
              StatusToggled(ds, id)[i] == if ds[i].id == id then ds[i].(status := Flip(ds[i].status)) else ds[i]
    ensures forall i :: 0 <= i < |ds| && ds[i].id == id ==> IsBinaryStatus(StatusToggled(ds, id)[i].status)
    ensures Ids(StatusToggled(ds, id)) == Ids(ds)
  {
    assert forall i :: 0 <= i < |ds| ==> Ids(StatusToggled(ds, id))[i] == Ids(ds)[i];
  }

  /**
   * Toggling the same id twice restores the list when the matching records'
   * statuses are "active" or "inactive"; any other status ends as "inactive".
   */
  lemma ToggleTwice(ds: seq<Doctor>, id: int)
    ensures (forall i :: 0 <= i < |ds| && ds[i].id == id ==> IsBinaryStatus(ds[i].status)) ==>
              StatusToggled(StatusToggled(ds, id), id) == ds
    ensures forall i :: 0 <= i < |ds| && ds[i].id == id && !IsBinaryStatus(ds[i].status) ==>
              StatusToggled(StatusToggled(ds, id), id)[i].status == "inactive"
  {
    var f := (d: Doctor) => if d.id == id then d.(status := Flip(d.status)) else d;
    ToggleSpec(ds, id);
    ToggleSpec(StatusToggled(ds, id), id);
    if forall i :: 0 <= i < |ds| && ds[i].id == id ==> IsBinaryStatus(ds[i].status) {
      Lists.MapInvolution(ds, f);
    }
  }

  /** Adding with a timestamp no record uses keeps the ids unique. */
  lemma AddKeepsIdsUnique(ds: seq<Doctor>, f: Form, now: int)
    requires Lists.NoDuplicates(Ids(ds))
    requires forall i :: 0 <= i < |ds| ==> ds[i].id != now
    ensures Lists.NoDuplicates(Ids(ds + [NewDoctor(f, now)]))
  {
    var r := ds + [NewDoctor(f, now)];
    assert forall i :: 0 <= i < |r| ==> Ids(r)[i] == if i < |ds| then Ids(ds)[i] else now;
  }

  /** The initial list: unique ids 1 to 5, four active doctors and one inactive. */
  lemma InitialDoctorsFacts()
    ensures Lists.NoDuplicates(Ids(InitialDoctors))
    ensures Ids(InitialDoctors) == [1, 2, 3, 4, 5]
    ensures Lists.Count(InitialDoctors, (d: Doctor) => d.status == "active") == 4
    ensures forall i :: 0 <= i < |InitialDoctors| ==> IsBinaryStatus(InitialDoctors[i].status)
  {
    assert Ids(InitialDoctors) == [1, 2, 3, 4, 5];
  }

  /** The component's state and event handlers. */
  class Panel {
    var doctors: seq<Doctor>
    var newDoctor: Form
    var editingDoctor: Option<Draft>
    var showAddForm: bool

    constructor()
      ensures doctors == InitialDoctors && newDoctor == EmptyForm
      ensures editingDoctor == None && !showAddForm
    {
      doctors := InitialDoctors;
      newDoctor := EmptyForm;
      editingDoctor := None;
      showAddForm := false;
    }

    /** Typing into the add form. */
    method TypeNew(field: Field, v: string)
      modifies this
      ensures newDoctor == WithField(old(newDoctor), field, v)
      ensures doctors == old(doctors) && editingDoctor == old(editingDoctor) && showAddForm == old(showAddForm)
    {
      newDoctor := WithField(newDoctor, field, v);
    }

    /** Typing into the edit form, which exists only while a draft is open. */
    method TypeEdit(field: Field, v: string)
      modifies this
      ensures editingDoctor == if old(editingDoctor).Some? then Some(DraftWithField(old(editingDoctor).value, field, v)) else None
      ensures doctors == old(doctors) && newDoctor == old(newDoctor) && showAddForm == old(showAddForm)
    {
      if editingDoctor.Some? {
        editingDoctor := Some(DraftWithField(editingDoctor.value, field, v));
      }
    }

    /** `handleAddDoctor`, with the clock's reading `now` as the new id. */
    method AddDoctor(now: int)
      modifies this
      ensures doctors == old(doctors) + [NewDoctor(old(newDoctor), now)]
      ensures newDoctor == EmptyForm && !showAddForm && editingDoctor == old(editingDoctor)
    {
      doctors := doctors + [NewDoctor(newDoctor, now)];
      newDoctor := EmptyForm;
      showAddForm := false;
    }

    /** `handleEditDoctor` for the record in row `i`: opens a draft and closes the add form. */
    method EditDoctor(i: nat)
      requires i < |doctors|
      modifies this
      ensures editingDoctor == Some(ToDraft(old(doctors)[i])) && !showAddForm
      ensures doctors == old(doctors) && newDoctor == old(newDoctor)
    {
      editingDoctor := Some(ToDraft(doctors[i]));
      showAddForm := false;
    }

    /** `handleUpdateDoctor`: stores the draft and closes the edit form (submittable only while a draft is open). */
    method UpdateDoctor()
      modifies this
      ensures doctors == if old(editingDoctor).Some? then Updated(old(doctors), old(editingDoctor).value) else old(doctors)
      ensures editingDoctor == None
      ensures newDoctor == old(newDoctor) && showAddForm == old(showAddForm)
    {
      if editingDoctor.Some? {
        doctors := Updated(doctors, editingDoctor.value);
        editingDoctor := None;
      }
    }

    /** `toggleDoctorStatus(id)`. */
    method ToggleStatus(id: int)
      modifies this
      ensures doctors == StatusToggled(old(doctors), id)
      ensures newDoctor == old(newDoctor) && editingDoctor == old(editingDoctor) && showAddForm == old(showAddForm)
    {
      doctors := StatusToggled(doctors, id);
    }

    /** The "Add Doctor" / "Cancel" button. */
    method ToggleAddForm()
      modifies this
      ensures showAddForm == !old(showAddForm)
      ensures doctors == old(doctors) && newDoctor == old(newDoctor) && editingDoctor == old(editingDoctor)
    {
      showAddForm := !showAddForm;
    }

    /** Either "Cancel Edit" button: drops the draft. */
    method CancelEdit()
      modifies this
      ensures editingDoctor == None
      ensures doctors == old(doctors) && newDoctor == old(newDoctor) && showAddForm == old(showAddForm)
    {
      editingDoctor := None;
    }
  }

  /** Opening any initial record and saving it unchanged leaves the list as it started. */
  method EditWithoutChanges(i: nat) returns (after: seq<Doctor>, editing: Option<Draft>)
    requires i < |InitialDoctors|
    ensures after == InitialDoctors && editing == None
  {
    var p := new Panel();
    p.EditDoctor(i);
    p.UpdateDoctor();
    InitialDoctorsFacts();
    UneditedUpdateKeepsList(InitialDoctors, i);
    after, editing := p.doctors, p.editingDoctor;
  }

  /** Filling in the add form and submitting appends one active record and clears the form. */
  method AddFromForm(name: string, email: string, specialization: string, years: nat,
                     contactNumber: string, now: int)
    returns (after: seq<Doctor>, form: Form, shown: bool)
    ensures after == InitialDoctors + [Doctor(now, name, email, specialization, Int(years), "active", contactNumber)]
    ensures form == EmptyForm && !shown
  {
    var p := new Panel();
    p.ToggleAddForm();
    var text := ToString(Int(years));
    p.TypeNew(Name, name);
    p.TypeNew(Email, email);
    p.TypeNew(Specialization, specialization);
    p.TypeNew(Experience, text);
    p.TypeNew(ContactNumber, contactNumber);
    assert p.newDoctor == Form(name, email, specialization, text, contactNumber);
    ParseIntToString(Int(years));
    assert NewDoctor(p.newDoctor, now) == Doctor(now, name, email, specialization, Int(years), "active", contactNumber);
    p.AddDoctor(now);
    after, form, shown := p.doctors, p.newDoctor, p.showAddForm;
  }

  /** Deactivating and reactivating a doctor restores the initial list. */
  method DeactivateThenActivate(id: int) returns (between: seq<Doctor>, after: seq<Doctor>)
    ensures Ids(between) == Ids(InitialDoctors)
    ensures after == InitialDoctors
  {
    var p := new Panel();
    p.ToggleStatus(id);
    between := p.doctors;
    p.ToggleStatus(id);
    InitialDoctorsFacts();
    ToggleSpec(InitialDoctors, id);
    ToggleTwice(InitialDoctors, id);
    after := p.doctors;
  }
}
