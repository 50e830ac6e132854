/**
 * The admin's department list editor
 * (src/components/admin/DepartmentManagement.tsx): add, edit, toggle the
 * status of, and delete department records.
 */
module DepartmentManagement {
  import opened Wrappers
  import Lists

  datatype Department = Department(id: int, name: string, description: string, doctorCount: int, status: string)

  /** The add form. */
  datatype Form = Form(name: string, description: string)

  /** The inputs of either form. */
  datatype Field = Name | Description

  const EmptyForm: Form := Form("", "")

  /** The six records the list starts with. */
  const InitialDepartments: seq<Department> := [
    Department(1, "Cardiology", "Heart and cardiovascular system care", 4, "active"),
    Department(2, "Neurology", "Brain and nervous system disorders", 3, "active"),
    Department(3, "Orthopedics", "Bone, joint, and muscle treatment", 5, "active"),
    Department(4, "Pediatrics", "Child healthcare and development", 6, "active"),
    Department(5, "Emergency", "Emergency and trauma care", 8, "active"),
    Department(6, "Dermatology", "Skin and hair related treatments", 2, "inactive")
  ]

  function WithField(f: Form, field: Field, v: string): Form
  {
    match field
    case Name => f.(name := v)
    case Description => f.(description := v)
  }

  /** One input of the edit form; the draft is a plain copy of the record. */
  function DraftWithField(e: Department, field: Field, v: string): Department
  {
    match field
    case Name => e.(name := v)
    case Description => e.(description := v)
  }

  /** The record `handleAddDepartment` builds, with `Date.now()` as `now`. */
  function NewDepartment(f: Form, now: int): Department
  {
    Department(now, f.name, f.description, 0, "active")
  }

  /** The status a toggle gives: "active" becomes "inactive", anything else "active". */
  function Flip(status: string): string
  {
    if status == "active" then "inactive" else "active"
  }

  function StatusToggled(ds: seq<Department>, id: int): seq<Department>
  {
    Lists.Map(ds, (d: Department) => if d.id == id then d.(status := Flip(d.status)) else d)
  }

  /** `handleUpdateDepartment`: every record with the draft's id becomes the draft. */
  function Updated(ds: seq<Department>, e: Department): seq<Department>
  {
    Lists.Map(ds, (d: Department) => if d.id == e.id then e else d)
  }

  /** `deleteDepartment(id)`: the records whose id differs. */
  function Deleted(ds: seq<Department>, id: int): seq<Department>
  {
    Lists.Filter(ds, (d: Department) => d.id != id)
  }

  function Ids(ds: seq<Department>): (r: seq<int>)
    ensures |r| == |ds|
    ensures forall i :: 0 <= i < |ds| ==> r[i] == ds[i].id
  {
    Lists.Map(ds, (d: Department) => d.id)
  }

  predicate IsBinaryStatus(s: string)
  {
    s == "active" || s == "inactive"
  }

  /** A new department is active, has no doctors yet, and keeps the typed name and description. */
  lemma NewDepartmentFromForm(f: Form, now: int)
    ensures NewDepartment(f, now).status == "active" && NewDepartment(f, now).doctorCount == 0
    ensures NewDepartment(f, now).id == now
    ensures NewDepartment(f, now).name == f.name && NewDepartment(f, now).description == f.description
  {
  }

  /** Deleting keeps, in order, exactly the records with another id. */
  lemma DeleteSpec(ds: seq<Department>, id: int)
    ensures forall i :: 0 <= i < |Deleted(ds, id)| ==> Deleted(ds, id)[i] in ds && Deleted(ds, id)[i].id != id
    ensures forall i :: 0 <= i < |ds| && ds[i].id != id ==> ds[i] in Deleted(ds, id)
    ensures Lists.IsSubsequence(Deleted(ds, id), ds)
    ensures |Deleted(ds, id)| == |ds| - Lists.Count(ds, (d: Department) => d.id == id)
  {
    Lists.CountComplement(ds, (d: Department) => d.id == id, (d: Department) => d.id != id);
  }

  /** With unique ids, exactly one record has a listed id. */
  lemma {:induction false} ListedIdOnce(ds: seq<Department>, k: nat)
    requires k < |ds| && Lists.NoDuplicates(Ids(ds))
    ensures Lists.Count(ds, (d: Department) => d.id == ds[k].id) == 1
  {
    var id := ds[k].id;
    var p := (d: Department) => d.id == id;
    var a, b := ds[..k], ds[k + 1..];
    forall i | 0 <= i < |a|
      ensures !p(a[i])
    {
      assert Ids(ds)[i] != Ids(ds)[k];
    }
    forall i | 0 <= i < |b|
      ensures !p(b[i])
    {
      assert b[i] == ds[k + 1 + i];
      assert Ids(ds)[k] != Ids(ds)[k + 1 + i];
    }
    Lists.CountZero(a, p);
    Lists.CountZero(b, p);
    Lists.CountConcat(a, [ds[k]], p);
    Lists.CountConcat(a + [ds[k]], b, p);
    assert ds == a + [ds[k]] + b;
  }

  /** With unique ids, deleting a listed id removes exactly one record. */
  lemma DeleteListedRemovesOne(ds: seq<Department>, k: nat)
    requires k < |ds| && Lists.NoDuplicates(Ids(ds))
    ensures |Deleted(ds, ds[k].id)| == |ds| - 1
  {
    DeleteSpec(ds, ds[k].id);
    ListedIdOnce(ds, k);
  }

  /** Deleting an id no record has changes nothing, and deleting twice is deleting once. */
  lemma DeleteAbsentAndTwice(ds: seq<Department>, id: int)
    ensures (forall i :: 0 <= i < |ds| ==> ds[i].id != id) ==> Deleted(ds, id) == ds
    ensures Deleted(Deleted(ds, id), id) == Deleted(ds, id)
  {
    var p := (d: Department) => d.id != id;
    if forall i :: 0 <= i < |ds| ==> ds[i].id != id {
      Lists.FilterAll(ds, p);
    }
    Lists.FilterAll(Deleted(ds, id), p);
  }

  /** With unique ids, opening a record and saving it unchanged leaves the list as it was. */
  lemma UneditedUpdateKeepsList(ds: seq<Department>, i: nat)
    requires i < |ds| && Lists.NoDuplicates(Ids(ds))
    ensures Updated(ds, ds[i]) == ds
  {
    var f := (d: Department) => if d.id == ds[i].id then ds[i] else d;
    forall j | 0 <= j < |ds|
      ensures f(ds[j]) == ds[j]
    {
      assert Ids(ds)[j] != Ids(ds)[i] || j == i;
    }
    Lists.MapIdentity(ds, f);
  }

  /** Updating replaces exactly the records with the draft's id and keeps every id in place. */
  lemma UpdateSpec(ds: seq<Department>, e: Department)
    ensures |Updated(ds, e)| == |ds|
    ensures forall i :: 0 <= i < |ds| ==> Updated(ds, e)[i] == if ds[i].id == e.id then e else ds[i]
    ensures Ids(Updated(ds, e)) == Ids(ds)
  {
    assert forall i :: 0 <= i < |ds| ==> Ids(Updated(ds, e))[i] == Ids(ds)[i];
  }

  /** A toggle flips the matching records' status, touches nothing else, and keeps the ids. */
  lemma ToggleSpec(ds: seq<Department>, id: int)
    ensures |StatusToggled(ds, id)| == |ds|
    ensures forall i :: 0 <= i < |ds| ==>
              StatusToggled(ds, id)[i] == if ds[i].id == id then ds[i].(status := Flip(ds[i].status)) else ds[i]
    ensures Ids(StatusToggled(ds, id)) == Ids(ds)
  {
    assert forall i :: 0 <= i < |ds| ==> Ids(StatusToggled(ds, id))[i] == Ids(ds)[i];
  }

  /** Toggling the same id twice restores a list whose matching statuses are "active" or "inactive". */
  lemma ToggleTwice(ds: seq<Department>, id: int)
    requires forall i :: 0 <= i < |ds| && ds[i].id == id ==> IsBinaryStatus(ds[i].status)
    ensures StatusToggled(StatusToggled(ds, id), id) == ds
  {
    Lists.MapInvolution(ds, (d: Department) => if d.id == id then d.(status := Flip(d.status)) else d);
  }

  /** The initial list: unique ids 1 to 6, five active departments and one inactive. */
  lemma InitialDepartmentsFacts()
    ensures Ids(InitialDepartments) == [1, 2, 3, 4, 5, 6]
    ensures Lists.NoDuplicates(Ids(InitialDepartments))
    ensures Lists.Count(InitialDepartments, (d: Department) => d.status == "active") == 5
    ensures forall i :: 0 <= i < |InitialDepartments| ==> IsBinaryStatus(InitialDepartments[i].status)
  {
    assert Ids(InitialDepartments) == [1, 2, 3, 4, 5, 6];
  }

  /** The component's state and event handlers. */
  class Panel {
    var departments: seq<Department>
    var newDepartment: Form
    var editingDepartment: Option<Department>
    var showAddForm: bool

    constructor()
      ensures departments == InitialDepartments && newDepartment == EmptyForm
      ensures editingDepartment == None && !showAddForm
    {
      departments := InitialDepartments;
      newDepartment := EmptyForm;
      editingDepartment := None;
      showAddForm := false;
    }

    method TypeNew(field: Field, v: string)
      modifies this
      ensures newDepartment == WithField(old(newDepartment), field, v)
      ensures departments == old(departments) && editingDepartment == old(editingDepartment) && showAddForm == old(showAddForm)
    {
      newDepartment := WithField(newDepartment, field, v);
    }

    /** Typing into the edit form, which exists only while a draft is open. */
    method TypeEdit(field: Field, v: string)
      modifies this
      ensures editingDepartment == if old(editingDepartment).Some? then Some(DraftWithField(old(editingDepartment).value, field, v)) else None
      ensures departments == old(departments) && newDepartment == old(newDepartment) && showAddForm == old(showAddForm)
    {
      if editingDepartment.Some? {
        editingDepartment := Some(DraftWithField(editingDepartment.value, field, v));
      }
    }

    /** `handleAddDepartment`, with the clock's reading `now` as the new id. */
    method AddDepartment(now: int)
      modifies this
      ensures departments == old(departments) + [NewDepartment(old(newDepartment), now)]
      ensures newDepartment == EmptyForm && !showAddForm && editingDepartment == old(editingDepartment)
    {
      departments := departments + [NewDepartment(newDepartment, now)];
      newDepartment := EmptyForm;
      showAddForm := false;
    }

    /** `handleEditDepartment` for the record in row `i`. */
    method EditDepartment(i: nat)
      requires i < |departments|
      modifies this
      ensures editingDepartment == Some(old(departments)[i]) && !showAddForm
      ensures departments == old(departments) && newDepartment == old(newDepartment)
    {
      editingDepartment := Some(departments[i]);
      showAddForm := false;
    }

    /** `handleUpdateDepartment` (submittable only while a draft is open). */
    method UpdateDepartment()
      modifies this
      ensures departments == if old(editingDepartment).Some? then Updated(old(departments), old(editingDepartment).value) else old(departments)
      ensures editingDepartment == None
      ensures newDepartment == old(newDepartment) && showAddForm == old(showAddForm)
    {
      if editingDepartment.Some? {
        departments := Updated(departments, editingDepartment.value);
        editingDepartment := None;
      }
    }

    /** `toggleDepartmentStatus(id)`. */
    method ToggleStatus(id: int)
      modifies this
      ensures departments == StatusToggled(old(departments), id)
      ensures newDepartment == old(newDepartment) && editingDepartment == old(editingDepartment) && showAddForm == old(showAddForm)
    {
      departments := StatusToggled(departments, id);
    }

    /** `deleteDepartment(id)`; an open draft of that record stays open. */
    method Delete(id: int)
      modifies this
      ensures departments == Deleted(old(departments), id)
      ensures newDepartment == old(newDepartment) && editingDepartment == old(editingDepartment) && showAddForm == old(showAddForm)
    {
      departments := Deleted(departments, id);
    }

    method ToggleAddForm()
      modifies this
      ensures showAddForm == !old(showAddForm)
      ensures departments == old(departments) && newDepartment == old(newDepartment) && editingDepartment == old(editingDepartment)
    {
      showAddForm := !showAddForm;
    }

    /** Either "Cancel Edit" button. */
    method CancelEdit()
      modifies this
      ensures editingDepartment == None
      ensures departments == old(departments) && newDepartment == old(newDepartment) && showAddForm == old(showAddForm)
    {
      editingDepartment := None;
    }
  }

  /**
   * The saved draft wins: with unique ids, toggling a record's status while
   * its edit form is open and then saving the unchanged draft gives back the
   * list as it was before the toggle.
   */
  lemma {:induction false} UpdateAfterToggle(ds: seq<Department>, i: nat)
    requires i < |ds| && Lists.NoDuplicates(Ids(ds))
    ensures Updated(StatusToggled(ds, ds[i].id), ds[i]) == ds
  {
    var t := StatusToggled(ds, ds[i].id);
    ToggleSpec(ds, ds[i].id);
    UpdateSpec(t, ds[i]);
    forall j | 0 <= j < |ds|
      ensures Updated(t, ds[i])[j] == ds[j]
    {
      assert Ids(ds)[j] != Ids(ds)[i] || j == i;
    }
  }

  /** A toggle made while the record's edit form is open is lost when the form is saved. */
  method ToggleDuringEditIsOverwritten(i: nat) returns (between: seq<Department>, after: seq<Department>)
    requires i < |InitialDepartments|
    ensures |between| == |InitialDepartments|
    ensures between[i].status == Flip(InitialDepartments[i].status)
    ensures after == InitialDepartments
  {
    var p := new Panel();
    InitialDepartmentsFacts();
    var id := p.departments[i].id;
    p.EditDepartment(i);
    p.ToggleStatus(id);
    between := p.departments;
    ToggleSpec(InitialDepartments, id);
    p.UpdateDepartment();
    UpdateAfterToggle(InitialDepartments, i);
    after := p.departments;
  }

  /** Deleting a listed department shortens the list by one and leaves no record with its id. */
  method DeleteOne(i: nat) returns (after: seq<Department>)
    requires i < |InitialDepartments|
    ensures |after| == 5
    ensures forall j :: 0 <= j < |after| ==> after[j].id != InitialDepartments[i].id
  {
    var p := new Panel();
    InitialDepartmentsFacts();
    p.Delete(p.departments[i].id);
    DeleteListedRemovesOne(InitialDepartments, i);
    DeleteSpec(InitialDepartments, InitialDepartments[i].id);
    after := p.departments;
  }
}
