/**
 * The application root (src/pages/Index.tsx): the session held in
 * `user` and in the `hms_user` storage slot, the start-up restore, login,
 * logout, and the choice of the screen to show.
 */
module IndexPage {
  import opened Wrappers
  import opened Users
  import Json
  import LoginForm
  import Numbers

  /** What the root renders. */
  datatype View =
    | Spinner          // while `loading`
    | SignIn           // the login form
    | Dashboard(role: Role)
    | InvalidRole      // the "Invalid user role" screen, whose one button logs out

  /** `renderDashboard`: a switch on `user.role` alone. */
  function RenderDashboard(user: Json.Value): (v: View)
    ensures v.Dashboard? || v == InvalidRole
    ensures forall r: Role :: v == Dashboard(r) <==> Json.Property(user, "role") == Some(Json.Str(r.Name()))
  {
    var role := Json.Property(user, "role");
    if role.Some? && role.value.Str? then
      match RoleNamed(role.value.s)
      case Some(r) => Dashboard(r)
      case None => InvalidRole
    else InvalidRole
  }

  /** The root's render: the spinner while loading, then the login form or the dashboard. */
  function Screen(loading: bool, user: Json.Value): View
  {
    if loading then Spinner
    else if !Json.Truthy(user) then SignIn
    else RenderDashboard(user)
  }

  /** Two users with the same `role` property get the same screen. */
  lemma DispatchDependsOnlyOnRole(a: Json.Value, b: Json.Value)
    requires Json.Property(a, "role") == Json.Property(b, "role")
    ensures RenderDashboard(a) == RenderDashboard(b)
  {
  }

  /** The spinner is shown exactly while loading, the login form exactly when no user is set. */
  lemma ScreenGates(loading: bool, user: Json.Value)
    ensures Screen(loading, user) == Spinner <==> loading
    ensures Screen(loading, user) == SignIn <==> !loading && !Json.Truthy(user)
    ensures Screen(loading, user) == InvalidRole <==>
              !loading && Json.Truthy(user) && !exists r: Role :: Json.Property(user, "role") == Some(Json.Str(r.Name()))
  {
    if !loading && Json.Truthy(user) && RenderDashboard(user).Dashboard? {
      var r := RenderDashboard(user).role;
      assert Json.Property(user, "role") == Some(Json.Str(r.Name()));
    }
  }

  /** A signed-in identity is routed by its role string: one dashboard per known role. */
  lemma IdentityDispatch(u: Identity)
    ensures Screen(false, ToJson(u)) == match RoleNamed(u.role)
                                       case Some(r) => Dashboard(r)
                                       case None => InvalidRole
  {
  }

  /**
   * What the page needs of `JSON.stringify` / `JSON.parse`: every user
   * object `handleLogin` stores round-trips and is stored as non-empty text.
   */
  ghost predicate KeepsSessions(codec: Json.Codec)
  {
    forall u: Identity :: codec.RoundTrips(ToJson(u))
  }

  /** The storage key of the session record. */
  const SessionKey: string := "hms_user"

  /** The root component's state and the `hms_user` slot of `localStorage`. */
  class Page {
    const codec: Json.Codec
    var user: Json.Value
    var loading: bool
    var slot: Option<string>

    /** The first render: no user yet, loading, and whatever the slot holds. */
    constructor (codec: Json.Codec, stored: Option<string>)
      ensures this.codec == codec
      ensures user == Json.Null && loading && slot == stored
    {
      this.codec := codec;
      user, loading, slot := Json.Null, true, stored;
    }

    /** The screen the current state renders. */
    function View(): View
      reads this
    {
      Screen(loading, user)
    }

    /**
     * The start-up effect: a non-empty stored record is parsed into `user`;
     * one that does not parse is removed.  Loading ends either way.
     */
    method RestoreSession()
      modifies this
      ensures !loading
      ensures old(slot) == None || old(slot) == Some("") ==> user == old(user) && slot == old(slot)
      ensures old(slot).Some? && old(slot).value != "" ==>
                match codec.parse(old(slot).value)
                case Some(v) => user == v && slot == old(slot)
                case None => user == old(user) && slot == None
    {
      if slot.Some? && slot.value != "" {
        match codec.parse(slot.value)
        case Some(v) =>
          user := v;
        case None =>
          slot := None;
      }
      loading := false;
    }

    /**
     * `handleLogin`: the user becomes a copy of the identity with its role
     * copied over, and that copy is stored.
     */
    method HandleLogin(userData: Identity)
      modifies this
      ensures user == ToJson(userData)
      ensures slot == Some(codec.stringify(ToJson(userData)))
      ensures loading == old(loading)
    {
      var userToStore := userData.(role := userData.role);
      user := ToJson(userToStore);
      slot := Some(codec.stringify(ToJson(userToStore)));
    }

    /** `handleLogout`: no user and no stored record. */
    method HandleLogout()
      modifies this
      ensures user == Json.Null && slot == None
      ensures loading == old(loading)
    {
      user := Json.Null;
      slot := None;
    }
  }

  /** Logging in stores a record from which a reload restores an equal user. */
  method ReloadAfterLogin(codec: Json.Codec, stored: Option<string>, u: Identity)
    returns (restored: Json.Value, view: View)
    requires KeepsSessions(codec)
    ensures restored == ToJson(u)
    ensures view == Screen(false, ToJson(u))
  {
    assert codec.RoundTrips(ToJson(u));
    var page := new Page(codec, stored);
    page.RestoreSession();
    page.HandleLogin(u);
    var reloaded := new Page(codec, page.slot);
    reloaded.RestoreSession();
    restored := reloaded.user;
    view := reloaded.View();
  }

  /**
   * Signing in through the login form as a fixed account, reloading and
   * logging out: the role's dashboard before and after the reload, then
   * the login form with the record gone.
   */
  method SignInReloadSignOut(codec: Json.Codec, r: Role)
    returns (first: View, afterLogin: View, afterReload: View, afterLogout: View, slotAfterLogout: Option<string>)
    requires KeepsSessions(codec)
    ensures first == SignIn
    ensures afterLogin == Dashboard(r) && afterReload == Dashboard(r)
    ensures afterLogout == SignIn && slotAfterLogout == None
  {
    var page := new Page(codec, None);
    page.RestoreSession();
    first := page.View();
    var form := new LoginForm.Form();
    form.SetEmail(LoginForm.DemoEmail(r));
    form.SetPassword("password");
    form.Submit();
    var signedIn := form.FireTimer(0);
    LoginForm.FixedAccounts(r, "password");
    assert codec.RoundTrips(ToJson(signedIn.value));
    page.HandleLogin(signedIn.value);
    afterLogin := page.View();
    var reloaded := new Page(codec, page.slot);
    reloaded.RestoreSession();
    afterReload := reloaded.View();
    reloaded.HandleLogout();
    afterLogout := reloaded.View();
    slotAfterLogout := reloaded.slot;
  }

  /** A record that does not parse is purged at start-up, and stays purged on the next start-up. */
  method CorruptRecordPurged(codec: Json.Codec, record: string)
    returns (view: View, slot: Option<string>, viewAgain: View, slotAgain: Option<string>)
    requires record != "" && codec.parse(record) == None
    ensures view == SignIn && slot == None
    ensures viewAgain == SignIn && slotAgain == None
  {
    var page := new Page(codec, Some(record));
    page.RestoreSession();
    view, slot := page.View(), page.slot;
    var again := new Page(codec, page.slot);
    again.RestoreSession();
    viewAgain, slotAgain := again.View(), again.slot;
  }

  /**
   * A stored object whose role is not one of the three reaches the
   * invalid-role screen; its logout button returns to the login form and
   * clears the slot.
   */
  method UnknownRoleRecovery(codec: Json.Codec, record: string, role: string)
    returns (view: View, afterLogout: View, slotAfterLogout: Option<string>)
    requires record != "" && RoleNamed(role) == None
    requires codec.parse(record) == Some(Json.Object(map["role" := Json.Str(role)]))
    ensures view == InvalidRole
    ensures afterLogout == SignIn && slotAfterLogout == None
  {
    var page := new Page(codec, Some(record));
    page.RestoreSession();
    view := page.View();
    page.HandleLogout();
    afterLogout := page.View();
    slotAfterLogout := page.slot;
  }

  /** Logging out twice leaves the same state as logging out once. */
  method LogoutTwice(codec: Json.Codec, stored: Option<string>, u: Identity)
    returns (once: (Json.Value, Option<string>), twice: (Json.Value, Option<string>))
    ensures once == twice == (Json.Null, None)
  {
    var page := new Page(codec, stored);
    page.RestoreSession();
    page.HandleLogin(u);
    page.HandleLogout();
    once := (page.user, page.slot);
    page.HandleLogout();
    twice := (page.user, page.slot);
  }

  /**
   * A codec that meets `KeepsSessions`, so the session scenarios above speak
   * about some codec: each string of a user object is written as its
   * characters each behind an 'a', closed by a 'b', and the id as the
   * decimal text `toString` gives.
   */
  function EncodeText(s: string): (t: string)
    ensures t != []
  {
    if s == [] then "b" else ['a', s[0]] + EncodeText(s[1..])
  }

  /** Reads one `EncodeText` off the front of `t`, returning it and the rest. */
  function DecodeText(t: string): Option<(string, string)>
  {
    if |t| >= 1 && t[0] == 'b' then Some(([], t[1..]))
    else if |t| >= 2 && t[0] == 'a' then
      match DecodeText(t[2..])
      case Some((s, rest)) => Some(([t[1]] + s, rest))
      case None => None
    else None
  }

  lemma {:induction false} DecodeEncode(s: string, rest: string)
    ensures DecodeText(EncodeText(s) + rest) == Some((s, rest))
  {
    if s != [] {
      assert (EncodeText(s) + rest)[2..] == EncodeText(s[1..]) + rest;
      DecodeEncode(s[1..], rest);
      assert [s[0]] + s[1..] == s;
    }
  }

  /** The user object's four properties, or `None` for any other value. */
  function Fields(v: Json.Value): Option<(int, string, string, string)>
  {
    if v.Object? && "id" in v.properties && "name" in v.properties
       && "email" in v.properties && "role" in v.properties
       && v.properties["id"].Number? && v.properties["name"].Str?
       && v.properties["email"].Str? && v.properties["role"].Str?
    then Some((v.properties["id"].n.Floor, v.properties["name"].s,
               v.properties["email"].s, v.properties["role"].s))
    else None
  }

  function ExampleStringify(v: Json.Value): string
  {
    match Fields(v)
    case Some((id, name, email, role)) =>
      EncodeText(Numbers.ToString(Numbers.Int(id))) + (EncodeText(name) + (EncodeText(email) + EncodeText(role)))
    case None => "n"
  }

  function ExampleParse(t: string): Option<Json.Value>
  {
    match DecodeText(t)
    case None => None
    case Some((idText, t1)) =>
      match DecodeText(t1)
      case None => None
      case Some((name, t2)) =>
        match DecodeText(t2)
        case None => None
        case Some((email, t3)) =>
          match DecodeText(t3)
          case None => None
          case Some((role, _)) =>
            match Numbers.ParseInt(idText)
            case NaN => None
            case Int(id) => Some(ToJson(Identity(id, name, email, role)))
  }

  const ExampleCodec: Json.Codec := Json.Codec(ExampleStringify, ExampleParse)

  /** The example codec's text for a user object reads back as that object. */
  lemma ExampleRoundTrip(u: Identity)
    ensures ExampleParse(ExampleStringify(ToJson(u))) == Some(ToJson(u))
  {
    assert Fields(ToJson(u)) == Some((u.id, u.name, u.email, u.role));
    var idText := Numbers.ToString(Numbers.Int(u.id));
    var t3 := EncodeText(u.role);
    var t2 := EncodeText(u.email) + t3;
    var t1 := EncodeText(u.name) + t2;
    assert ExampleStringify(ToJson(u)) == EncodeText(idText) + t1;
    DecodeEncode(idText, t1);
    DecodeEncode(u.name, t2);
    DecodeEncode(u.email, t3);
    DecodeEncode(u.role, []);
    assert t3 + [] == t3;
    Numbers.ParseIntToString(Numbers.Int(u.id));
  }

  lemma ExampleCodecKeepsSessions()
    ensures KeepsSessions(ExampleCodec)
  {
    forall u: Identity
      ensures ExampleCodec.RoundTrips(ToJson(u))
    {
      ExampleRoundTrip(u);
    }
  }
}
