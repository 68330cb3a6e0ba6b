/** The wrapper of Appy users (gen/wrappers/UserWrapper.py): which of the
    user's fields are shown, how a login, a password and the edit form are
    validated, and the patches Appy puts on Zope's users so that the roles
    of a user's groups count as the user's own. */
module UserWrappers {
  import opened Wrappers
  import opened Lists

  // ---------------------------------------------------------------------------
  // Field visibility
  // ---------------------------------------------------------------------------

  /** UserWrapper.showLogin: the layouts where the login is shown. */
  function ShowLogin(isTemporary: bool): (r: seq<string>)
    ensures "edit" in r <==> isTemporary
    ensures !isTemporary ==> "view" in r && "result" in r
  {
    if isTemporary then ["edit"] else ["view", "result"]
  }

  /** UserWrapper.showEmail: the email is shown only when it tells something
      the login does not. */
  function ShowEmail(email: string, login: string): (r: bool)
    ensures email == login ==> !r
    ensures email == "" ==> !r
    ensures email != "" && email != login ==> r
  {
    email != "" && email != login
  }

  // ---------------------------------------------------------------------------
  // Validation
  // ---------------------------------------------------------------------------

  /** The result of a field validator: `True`, or the (translated) message
      whose i18n id is given. */
  datatype Validation = Valid | Invalid(msgId: string)

  const MIN_PASSWORD_LENGTH := 5

  /** UserWrapper.validatePassword. */
  function ValidatePassword(password: string): (r: Validation)
    ensures r.Invalid? <==> |password| < MIN_PASSWORD_LENGTH
    ensures r.Invalid? ==> r.msgId == "password_too_short"
  {
    if |password| < MIN_PASSWORD_LENGTH then Invalid("password_too_short") else Valid
  }

  /** UserWrapper.validateLogin as written: the message about a login in use
      is built but not returned. `users` and `groups` are the numbers of users
      and groups that already have this login. */
  function ValidateLoginAsWritten(login: string, users: nat, groups: nat): (r: Validation)
    ensures r.Invalid? <==> login == "admin"
  {
    if login == "admin" then Invalid("login_reserved") else Valid
  }

  /** validateLogin as intended: a reserved login or one in use is refused. */
  function ValidateLogin(login: string, users: nat, groups: nat): (r: Validation)
    ensures r.Invalid? <==> login == "admin" || users > 0 || groups > 0
    ensures r == Valid ==> ValidateLoginAsWritten(login, users, groups) == Valid
    ensures login == "admin" ==> r == Invalid("login_reserved")
  {
    if login == "admin" then Invalid("login_reserved")
    else if users > 0 || groups > 0 then Invalid("login_in_use")
    else Valid
  }

  /** A login another user already has passes the validator as written. */
  lemma LoginInUseAccepted()
    ensures ValidateLoginAsWritten("jdoe", 1, 0) == Valid
    ensures ValidateLogin("jdoe", 1, 0) == Invalid("login_in_use")
  {
    assert "jdoe" != "admin";
  }

  const PASSWORDS_MISMATCH := "passwords_mismatch"

  /** The page the edit form was submitted from; `main` by default. */
  function FormPage(request: map<string, string>): string {
    if "page" in request then request["page"] else "main"
  }

  /** The errors UserWrapper.validate leaves. `form` holds the submitted
      values; the two password fields are submitted together. */
  function PasswordErrors(errors: map<string, string>, request: map<string, string>, form: map<string, string>)
    : (r: map<string, string>)
    requires "password1" in form ==> "password2" in form
    ensures FormPage(request) == "main" && "password1" in form && form["password1"] != form["password2"] ==>
              "password1" in r && "password2" in r &&
              r["password1"] == PASSWORDS_MISMATCH && r["password2"] == PASSWORDS_MISMATCH &&
              r.Keys == errors.Keys + {"password1", "password2"}
    ensures forall k :: k in errors && k != "password1" && k != "password2" ==> k in r && r[k] == errors[k]
    ensures !(FormPage(request) == "main" && "password1" in form && form["password1"] != form["password2"]) ==>
              r == errors
  {
    if FormPage(request) == "main" && "password1" in form && form["password1"] != form["password2"] then
      errors["password1" := PASSWORDS_MISMATCH]["password2" := PASSWORDS_MISMATCH]
    else errors
  }

  /** The `errors` object a validator fills in, one message per field. */
  class FormErrors {
    var messages: map<string, string>

    constructor ()
      ensures messages == map[]
    {
      messages := map[];
    }
  }

  /** UserWrapper.validate: on the main page, different passwords put the
      same message on both password fields. */
  method Validate(request: map<string, string>, form: map<string, string>, errors: FormErrors)
    requires "password1" in form ==> "password2" in form
    modifies errors
    ensures errors.messages == PasswordErrors(old(errors.messages), request, form)
  {
    var page := if "page" in request then request["page"] else "main";
    if page == "main" {
      if "password1" in form && form["password1"] != form["password2"] {
        var msg := PASSWORDS_MISMATCH;
        errors.messages := errors.messages["password1" := msg];
        errors.messages := errors.messages["password2" := msg];
      }
    }
  }

  // ---------------------------------------------------------------------------
  // Roles
  // ---------------------------------------------------------------------------

  /** `res` extended, in order, with the elements of `xs` it lacks. */
  function AddMissing(res: seq<string>, xs: seq<string>): seq<string>
    decreases |xs|
  {
    if xs == [] then res
    else AddMissing(if xs[0] in res then res else res + [xs[0]], xs[1..])
  }

  /** Adding what is missing keeps the list in front, adds exactly the
      missing elements, and adds no element twice. */
  lemma {:induction false} AddMissingSpec(res: seq<string>, xs: seq<string>)
    ensures |res| <= |AddMissing(res, xs)| && AddMissing(res, xs)[..|res|] == res
    ensures forall x :: x in AddMissing(res, xs) <==> x in res || x in xs
    ensures NoDup(res) ==> NoDup(AddMissing(res, xs))
    decreases |xs|
  {
    if xs != [] {
      var next := if xs[0] in res then res else res + [xs[0]];
      AddMissingSpec(next, xs[1..]);
      assert xs == [xs[0]] + xs[1..];
      assert next[..|res|] == res;
      var r := AddMissing(res, xs);
      assert r[..|res|] == r[..|next|][..|res|];
    }
  }

  lemma {:induction false} AddMissingConcat(res: seq<string>, a: seq<string>, b: seq<string>)
    ensures AddMissing(res, a + b) == AddMissing(AddMissing(res, a), b)
    decreases |a|
  {
    if a != [] {
      assert (a + b)[1..] == a[1..] + b;
      AddMissingConcat(if a[0] in res then res else res + [a[0]], a[1..], b);
    } else {
      assert a + b == b;
    }
  }

  /** The roles of the entries of a dict of role lists, in iteration order. */
  function AllRoles(entries: seq<(string, seq<string>)>): seq<string> {
    if entries == [] then [] else entries[0].1 + AllRoles(entries[1..])
  }

  lemma {:induction false} AllRolesMembers(entries: seq<(string, seq<string>)>, x: string)
    ensures x in AllRoles(entries) <==> exists j :: 0 <= j < |entries| && x in entries[j].1
  {
    if entries != [] {
      AllRolesMembers(entries[1..], x);
      if x in AllRoles(entries[1..]) {
        var j :| 0 <= j < |entries[1..]| && x in entries[1..][j].1;
        assert x in entries[j + 1].1;
      }
      if exists j :: 0 <= j < |entries| && x in entries[j].1 {
        var j :| 0 <= j < |entries| && x in entries[j].1;
        if j > 0 {
          assert entries[1..][j - 1] == entries[j];
        }
      }
    }
  }

  /** The user's own roles, with `Authenticated` unless the user is anonymous. */
  function OwnRoles(roles: seq<string>): seq<string> {
    roles + (if "Anonymous" in roles then [] else ["Authenticated"])
  }

  /** ZopeUserPatches.getRoles. `groups` holds the global roles of each of the
      user's groups, `None` for a user without the `groups` attribute. */
  function GlobalRoles(roles: seq<string>, groups: Option<seq<(string, seq<string>)>>): seq<string> {
    if groups.None? then OwnRoles(roles) else AddMissing(OwnRoles(roles), AllRoles(groups.value))
  }

  /** A user has their own roles, `Authenticated` unless they are anonymous,
      and their groups' roles, each group role once; their own roles come
      first, in order. */
  lemma GlobalRolesSpec(roles: seq<string>, groups: Option<seq<(string, seq<string>)>>, x: string)
    ensures |roles| <= |GlobalRoles(roles, groups)| && GlobalRoles(roles, groups)[..|roles|] == roles
    ensures x in GlobalRoles(roles, groups) <==>
              x in roles || (x == "Authenticated" && "Anonymous" !in roles) ||
              (groups.Some? && exists j :: 0 <= j < |groups.value| && x in groups.value[j].1)
    ensures NoDup(roles) && "Authenticated" !in roles ==> NoDup(GlobalRoles(roles, groups))
  {
    var own := OwnRoles(roles);
    assert own[..|roles|] == roles;
    if NoDup(roles) && "Authenticated" !in roles {
      if "Anonymous" !in roles {
        NoDupConcat(roles, ["Authenticated"]);
      }
    }
    if groups.Some? {
      AddMissingSpec(own, AllRoles(groups.value));
      AllRolesMembers(groups.value, x);
      var r := GlobalRoles(roles, groups);
      assert r[..|roles|] == r[..|own|][..|roles|];
    }
  }

  /** The local-role entries that apply to the user: those of the user and
      those of their groups. */
  function Relevant(entries: seq<(string, seq<string>)>, userId: string, groupNames: set<string>)
    : (r: seq<(string, seq<string>)>)
    ensures forall e :: e in r <==> e in entries && (e.0 == userId || e.0 in groupNames)
  {
    if entries == [] then []
    else if entries[0].0 == userId || entries[0].0 in groupNames
    then [entries[0]] + Relevant(entries[1..], userId, groupNames)
    else Relevant(entries[1..], userId, groupNames)
  }

  function GroupNames(groups: Option<seq<(string, seq<string>)>>): set<string> {
    if groups.None? then {} else set j | 0 <= j < |groups.value| :: groups.value[j].0
  }

  /** ZopeUserPatches.getRolesInContext: `localRoles` is the object's
      `__ac_local_roles__`, `None` when it has none. */
  function RolesInContext(roles: seq<string>, groups: Option<seq<(string, seq<string>)>>, userId: string,
                          localRoles: Option<seq<(string, seq<string>)>>): seq<string>
  {
    var global := GlobalRoles(roles, groups);
    if localRoles.None? || localRoles.value == [] then global
    else AddMissing(global, AllRoles(Relevant(localRoles.value, userId, GroupNames(groups))))
  }

  /** Entry `j` grants role `x` to the user or to one of their groups. */
  predicate GrantedLocally(entries: seq<(string, seq<string>)>, userId: string, groupNames: set<string>, x: string) {
    exists j :: 0 <= j < |entries| && x in entries[j].1 && (entries[j].0 == userId || entries[j].0 in groupNames)
  }

  /** In context, the user also has the local roles granted to them or to one
      of their groups, and no others; the global roles come first and no local
      role is added twice. */
  lemma RolesInContextSpec(roles: seq<string>, groups: Option<seq<(string, seq<string>)>>, userId: string,
                           localRoles: Option<seq<(string, seq<string>)>>, x: string)
    ensures var global := GlobalRoles(roles, groups);
            var r := RolesInContext(roles, groups, userId, localRoles);
            |global| <= |r| && r[..|global|] == global && (NoDup(global) ==> NoDup(r))
    ensures x in RolesInContext(roles, groups, userId, localRoles) <==>
              x in GlobalRoles(roles, groups) || (localRoles.Some? && GrantedLocally(localRoles.value, userId, GroupNames(groups), x))
  {
    var global := GlobalRoles(roles, groups);
    if localRoles.Some? {
      var rel := Relevant(localRoles.value, userId, GroupNames(groups));
      AddMissingSpec(global, AllRoles(rel));
      AllRolesMembers(rel, x);
      if GrantedLocally(localRoles.value, userId, GroupNames(groups), x) {
        var j :| 0 <= j < |localRoles.value| && x in localRoles.value[j].1 &&
           (localRoles.value[j].0 == userId || localRoles.value[j].0 in GroupNames(groups));
        assert localRoles.value[j] in rel;
      }
      if exists j :: 0 <= j < |rel| && x in rel[j].1 {
        var j :| 0 <= j < |rel| && x in rel[j].1;
        assert rel[j] in rel;
      }
    }
  }

  /** The loop that appends the roles a list lacks. */
  method AppendMissing(res: seq<string>, xs: seq<string>) returns (r: seq<string>)
    ensures r == AddMissing(res, xs)
  {
    r := res;
    for i := 0 to |xs|
      invariant AddMissing(r, xs[i..]) == AddMissing(res, xs)
    {
      assert xs[i..][1..] == xs[i + 1..];
      var role := xs[i];
      if role !in r {
        r := r + [role];
      }
    }
  }

  /** ZopeUserPatches.getRoles. */
  method GetRoles(roles: seq<string>, groups: Option<seq<(string, seq<string>)>>) returns (res: seq<string>)
    ensures res == GlobalRoles(roles, groups)
  {
    res := roles;
    if "Anonymous" !in res {
      res := res + ["Authenticated"];
    }
    if groups.None? {
      return;
    }
    var gs := groups.value;
    assert res == OwnRoles(roles) && gs[0..] == gs;
    for i := 0 to |gs|
      invariant AddMissing(res, AllRoles(gs[i..])) == GlobalRoles(roles, groups)
    {
      assert gs[i..][1..] == gs[i + 1..];
      AddMissingConcat(res, gs[i].1, AllRoles(gs[i + 1..]));
      res := AppendMissing(res, gs[i].1);
    }
  }

  /** ZopeUserPatches.getRolesInContext. */
  method GetRolesInContext(roles: seq<string>, groups: Option<seq<(string, seq<string>)>>, userId: string,
                           localRoles: Option<seq<(string, seq<string>)>>) returns (res: seq<string>)
    ensures res == RolesInContext(roles, groups, userId, localRoles)
  {
    res := GetRoles(roles, groups);
    if localRoles.None? || localRoles.value == [] {
      return;
    }
    var names := GroupNames(groups);
    var entries := localRoles.value;
    assert entries[0..] == entries;
    for i := 0 to |entries|
      invariant AddMissing(res, AllRoles(Relevant(entries[i..], userId, names))) ==
                RolesInContext(roles, groups, userId, localRoles)
    {
      assert entries[i..][1..] == entries[i + 1..];
      var (id, idRoles) := entries[i];
      if id != userId && id !in names {
        continue;
      }
      AddMissingConcat(res, idRoles, AllRoles(Relevant(entries[i + 1..], userId, names)));
      res := AppendMissing(res, idRoles);
    }
  }

  // ---------------------------------------------------------------------------
  // Access
  // ---------------------------------------------------------------------------

  /** The `object_roles` argument of `allowed`: Zope's "forbidden to all"
      sentinel, `None`, or a list of roles. */
  datatype ObjectRoles = Forbidden | AnyRole | Roles(names: seq<string>)

  const ANONYMOUS_USER := "Anonymous User"

  predicate Shares(a: seq<string>, b: seq<string>) {
    exists r :: r in a && r in b
  }

  /** The user may use the object through a local role. */
  predicate LocalShares(entries: seq<(string, seq<string>)>, userId: string, groupNames: set<string>,
                        objectRoles: seq<string>)
  {
    exists j :: 0 <= j < |entries| && (entries[j].0 == userId || entries[j].0 in groupNames) &&
      Shares(entries[j].1, objectRoles)
  }

  /** What ZopeUserPatches.allowed answers: `Some(0)`, `Some(1)` or Python's
      `None`. `checkContext` is the answer of Zope's `_check_context` for the
      object. */
  function Access(objectRoles: ObjectRoles, userName: string, globalRoles: seq<string>, userId: string,
                  groupNames: set<string>, localRoles: seq<(string, seq<string>)>, checkContext: bool)
    : Option<nat>
  {
    match objectRoles
    case Forbidden => Some(0)
    case AnyRole => Some(1)
    case Roles(rs) =>
      if "Anonymous" in rs then Some(1)
      else if "Authenticated" in rs && userName != ANONYMOUS_USER && checkContext then Some(1)
      else if Shares(globalRoles, rs) || LocalShares(localRoles, userId, groupNames, rs) then
        (if checkContext then Some(1) else None)
      else None
  }

  /** Access is granted only to everyone, to any authenticated user, or
      through a role the user shares with the object, and then only in
      context; the forbidden sentinel always refuses. */
  lemma AccessSpec(objectRoles: ObjectRoles, userName: string, globalRoles: seq<string>, userId: string,
                   groupNames: set<string>, localRoles: seq<(string, seq<string>)>, checkContext: bool)
    ensures var a := Access(objectRoles, userName, globalRoles, userId, groupNames, localRoles, checkContext);
            (a == Some(1) <==>
               objectRoles.AnyRole? ||
               (objectRoles.Roles? && ("Anonymous" in objectRoles.names ||
                  (checkContext && (("Authenticated" in objectRoles.names && userName != ANONYMOUS_USER) ||
                     Shares(globalRoles, objectRoles.names) ||
                     LocalShares(localRoles, userId, groupNames, objectRoles.names)))))) &&
            (a == Some(0) <==> objectRoles.Forbidden?)
  {
  }

  /** ZopeUserPatches.allowed: the first role of the user the object accepts
      decides, and then the local roles of the user and their groups. */
  method Allowed(objectRoles: ObjectRoles, userName: string, globalRoles: seq<string>, userId: string,
                 groupNames: set<string>, localRoles: seq<(string, seq<string>)>, checkContext: bool)
    returns (res: Option<nat>)
    ensures res == Access(objectRoles, userName, globalRoles, userId, groupNames, localRoles, checkContext)
  {
    if objectRoles.Forbidden? {
      return Some(0);
    }
    if objectRoles.AnyRole? || "Anonymous" in objectRoles.names {
      return Some(1);
    }
    var rs := objectRoles.names;
    if "Authenticated" in rs && userName != ANONYMOUS_USER {
      if checkContext {
        return Some(1);
      }
    }
    for i := 0 to |globalRoles|
      invariant forall k :: 0 <= k < i ==> globalRoles[k] !in rs
    {
      if globalRoles[i] !in rs {
        continue;
      }
      if checkContext {
        return Some(1);
      }
      return None;
    }
    assert !Shares(globalRoles, rs);
    for i := 0 to |localRoles|
      invariant forall j :: 0 <= j < i && (localRoles[j].0 == userId || localRoles[j].0 in groupNames) ==>
                  !Shares(localRoles[j].1, rs)
    {
      var (id, roles) := localRoles[i];
      if id != userId && id !in groupNames {
        continue;
      }
      for k := 0 to |roles|
        invariant forall m :: 0 <= m < k ==> roles[m] !in rs
      {
        if roles[k] !in rs {
          continue;
        }
        if checkContext {
          return Some(1);
        }
        return None;
      }
    }
    return None;
  }
}
