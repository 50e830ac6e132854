/** The three roles and the identity record a login produces. */
module Users {
  import opened Wrappers
  import Json

  /** The roles the application knows. */
  datatype Role = Admin | Doctor | Patient {
    /** The string the identity record stores for this role. */
    function Name(): string
    {
      match this
      case Admin => "admin"
      case Doctor => "doctor"
      case Patient => "patient"
    }
  }

  /** The role a role string names, if any: the `switch` on `user.role`. */
  function RoleNamed(s: string): (r: Option<Role>)
    ensures r.Some? ==> r.value.Name() == s
    ensures forall role: Role :: role.Name() == s ==> r == Some(role)
  {
    if s == "admin" then Some(Admin)
    else if s == "doctor" then Some(Doctor)
    else if s == "patient" then Some(Patient)
    else None
  }

  /** An authenticated user: `{ id, name, email, role }`. */
  datatype Identity = Identity(id: int, name: string, email: string, role: string)

  /** The identity as the plain object the session holds and stores. */
  function ToJson(u: Identity): (v: Json.Value)
    ensures Json.Truthy(v)
    ensures Json.Property(v, "role") == Some(Json.Str(u.role))
    ensures Json.Property(v, "name") == Some(Json.Str(u.name))
    ensures Json.Property(v, "email") == Some(Json.Str(u.email))
    ensures Json.Property(v, "id") == Some(Json.Number(u.id as real))
  {
    Json.Object(map[
      "id" := Json.Number(u.id as real),
      "name" := Json.Str(u.name),
      "email" := Json.Str(u.email),
      "role" := Json.Str(u.role)])
  }

  /** Distinct identities give distinct objects. */
  lemma ToJsonInjective(u: Identity, w: Identity)
    requires ToJson(u) == ToJson(w)
    ensures u == w
  {
    assert Json.Property(ToJson(u), "id") == Json.Property(ToJson(w), "id");
  }
}
