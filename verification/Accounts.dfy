/** Account administration (src/routes/settings_users.py) behind the session check of src/auth.py. */
module Accounts {
  import opened Basics
  import opened Text
  import opened Roles

  /** A user row; `secret` is the password its stored hash accepts. */
  datatype User = User(username: string, secret: string, roles: string, disabled: bool, version: nat)
  type Users = map<nat, User>

  datatype Cookie = Cookie(username: string, version: int)

  datatype Request =
    | Create(id: nat, username: string, password: string, form: seq<string>)
    | Disable(id: nat)
    | Enable(id: nat)
    | Delete(id: nat)
    | Reset(id: nat, password: string, confirm: string)
    | SetRoles(id: nat, form: seq<string>)
    | ChangeOwn(current: string, password: string, confirm: string)

  predicate UniqueNames(users: Users) {
    forall a, b :: a in users && b in users && users[a].username == users[b].username ==> a == b
  }

  function Granted(user: User): set<Role> { Effective(StoredRoles(user.roles)) }

  predicate IsAdmin(user: User) { GlobalAdmin in Granted(user) }

  function Sensitive(user: User): set<Role> { StoredRoles(user.roles) * SENSITIVE }

  /** `load_current_user`: the row a session cookie stands for. */
  predicate SignedIn(users: Users, cookie: Cookie, me: nat) {
    me in users && users[me].username == cookie.username && !users[me].disabled && users[me].version == cookie.version
  }

  /** `global_admin_guard_message` lets the actor manage the target. */
  predicate MayManage(actor: User, target: User) { IsAdmin(target) ==> IsAdmin(actor) }

  /** The request of the user in row `me` goes through. */
  predicate Accepts(users: Users, me: nat, request: Request)
    requires me in users
  {
    var actor := users[me];
    match request
    case ChangeOwn(current, password, confirm) =>
      password != [] && password == confirm && current == actor.secret
    case Create(id, username, password, form) =>
      && Satisfies(Granted(actor), AccountUpdate)
      && Strip(username) != [] && password != []
      && Assignable(IsAdmin(actor), Normalized(Known(form)), {})
      && (forall i :: i in users ==> users[i].username != Strip(username))
      && id !in users
    case Disable(id) =>
      && Satisfies(Granted(actor), AccountUpdate)
      && id in users && id != me && MayManage(actor, users[id]) && !users[id].disabled
    case Enable(id) =>
      && Satisfies(Granted(actor), AccountUpdate)
      && id in users && MayManage(actor, users[id]) && users[id].disabled
    case Delete(id) =>
      && Satisfies(Granted(actor), AccountUpdate)
      && id in users && id != me && MayManage(actor, users[id]) && users[id].disabled
    case Reset(id, password, confirm) =>
      && Satisfies(Granted(actor), ResetPassword)
      && password != [] && password == confirm
      && id in users && MayManage(actor, users[id]) && !users[id].disabled
    case SetRoles(id, form) =>
      && Satisfies(Granted(actor), AccountUpdate)
      && id in users && id != me && MayManage(actor, users[id]) && !users[id].disabled
      && Assignable(IsAdmin(actor), Normalized(Known(form)), StoredRoles(users[id].roles))
  }

  /** The table after an accepted request: every change but enabling bumps the session version. */
  function Next(users: Users, me: nat, request: Request): Users
    requires me in users && Accepts(users, me, request)
  {
    match request
    case ChangeOwn(_, password, _) =>
      users[me := users[me].(secret := password, version := users[me].version + 1)]
    case Create(id, username, password, form) =>
      users[id := User(Strip(username), password, SerializeRoles(Normalized(Known(form))), false, 0)]
    case Disable(id) => users[id := users[id].(disabled := true, version := users[id].version + 1)]
    case Enable(id) => users[id := users[id].(disabled := false)]
    case Delete(id) => users - {id}
    case Reset(id, password, _) => users[id := users[id].(secret := password, version := users[id].version + 1)]
    case SetRoles(id, form) =>
      users[id := users[id].(roles := SerializeRoles(Normalized(Known(form))), version := users[id].version + 1)]
  }

  /** What a user may do, by the roles the row stores. */
  lemma GrantedRoles(user: User, role: Role)
    ensures var held := StoredRoles(user.roles);
      Satisfies(Granted(user), role) <==>
        GlobalAdmin in held || role in held || role == DnsZonesRead || (role == ApiKeysRead && GlobalRead in held)
    ensures IsAdmin(user) <==> GlobalAdmin in StoredRoles(user.roles)
  {
    EveryRole(role);
    hide StoredRoles;
  }

  /** The guards of every handler, by the roles that the rows of actor and target store. */
  lemma AcceptedExactly(users: Users, me: nat, request: Request)
    requires me in users
    ensures Accepts(users, me, request) <==>
      var held := StoredRoles(users[me].roles);
      var admin, updater := GlobalAdmin in held, AccountUpdate in held;
      var sensitive := {GlobalAdmin, AccountUpdate, ResetPassword, ApiKeysUpdate, PluginUpdate, SystemUpdate};
      match request
      case ChangeOwn(current, password, confirm) =>
        password != [] && password == confirm && current == users[me].secret
      case Create(id, name, password, form) =>
        && (admin || (updater && Known(form) !! sensitive)) && Strip(name) != [] && password != []
        && (forall i :: i in users ==> users[i].username != Strip(name)) && id !in users
      case Disable(id) =>
        && id in users && id != me && !users[id].disabled
        && (admin || (updater && GlobalAdmin !in StoredRoles(users[id].roles)))
      case Enable(id) =>
        && id in users && users[id].disabled && (admin || (updater && GlobalAdmin !in StoredRoles(users[id].roles)))
      case Delete(id) =>
        && id in users && id != me && users[id].disabled
        && (admin || (updater && GlobalAdmin !in StoredRoles(users[id].roles)))
      case Reset(id, password, confirm) =>
        && id in users && !users[id].disabled && password != [] && password == confirm
        && (admin || (ResetPassword in held && GlobalAdmin !in StoredRoles(users[id].roles)))
      case SetRoles(id, form) =>
        && id in users && id != me && !users[id].disabled
        && (admin || (updater && GlobalAdmin !in StoredRoles(users[id].roles)
                      && Known(form) * sensitive == StoredRoles(users[id].roles) * sensitive))
  {
    GrantedRoles(users[me], AccountUpdate);
    GrantedRoles(users[me], ResetPassword);
    if !request.Create? && !request.ChangeOwn? && request.id in users {
      GrantedRoles(users[request.id], GlobalAdmin);
    }
    if request.Create? {
      AssignableByNonAdmin(request.form, {});
    } else if request.SetRoles? && request.id in users {
      AssignableByNonAdmin(request.form, StoredRoles(users[request.id].roles));
    }
    hide StoredRoles, Granted, IsAdmin, Satisfies, Assignable, Known, Normalized, Strip;
  }

  lemma AssignableByNonAdmin(form: seq<string>, previous: set<Role>)
    ensures GlobalAdmin !in previous ==>
      (Assignable(false, Normalized(Known(form)), previous) <==> Known(form) * SENSITIVE == previous * SENSITIVE)
    ensures Assignable(true, Normalized(Known(form)), previous)
  {
    var known := Known(form);
    NormalizedIsLeastClosed(known, {});
    AssignableKeepsSensitive(Normalized(known), previous);
    EveryRole(GlobalAdmin);
    hide Known;
    assert Assignable(true, Normalized(known), previous);
    hide Assignable;
    if GlobalAdmin in known {
      assert GlobalAdmin in known * SENSITIVE && GlobalAdmin in Normalized(known) * SENSITIVE;
    } else {
      assert Normalized(known) * SENSITIVE == known * SENSITIVE;
    }
  }

  ghost predicate Step(before: Users, cookie: Cookie, request: Request, after: Users) {
    exists me :: SignedIn(before, cookie, me) && Accepts(before, me, request) && after == Next(before, me, request)
  }

  // ---------------------------------------------------------------- the handlers

  /** The user table with one method per handler, its guards in the order of the code. */
  class UserTable {
    var users: Users

    ghost predicate Valid()
      reads this
    {
      UniqueNames(users)
    }

    /** What each handler promises. */
    twostate predicate Handled(cookie: Cookie, request: Request, ok: bool)
      reads this
    {
      && Valid()
      && (ok ==> Step(old(users), cookie, request, users))
      && (!ok ==> users == old(users) && forall me :: SignedIn(users, cookie, me) ==> !Accepts(users, me, request))
    }

    /** `load_current_user`. */
    method CurrentUser(cookie: Cookie) returns (r: Result<nat>)
      requires Valid()
      ensures r.Ok? ==> r.value in users && var u := users[r.value];
        u.username == cookie.username && !u.disabled && u.version == cookie.version
      ensures r.Err? ==> forall me :: me in users && users[me].username == cookie.username ==>
        users[me].disabled || users[me].version != cookie.version
      ensures forall me: nat :: SignedIn(users, cookie, me) <==> r == Ok(me)
    {
      if me :| me in users && users[me].username == cookie.username {
        if users[me].disabled {
          return Err("Invalid or expired session");
        }
        if cookie.version != users[me].version {
          return Err("Invalid or expired session");
        }
        return Ok(me);
      }
      r := Err("Invalid or expired session");
    }

    /** `require_role`. */
    method RequireRole(cookie: Cookie, role: Role) returns (r: Result<nat>)
      requires Valid()
      ensures r.Ok? <==> exists me ::
        && SignedIn(users, cookie, me)
        && (GlobalAdmin in StoredRoles(users[me].roles) || role in StoredRoles(users[me].roles) || role == DnsZonesRead
            || (role == ApiKeysRead && GlobalRead in StoredRoles(users[me].roles)))
      ensures r.Ok? ==> SignedIn(users, cookie, r.value) && Satisfies(Granted(users[r.value]), role)
      ensures r.Ok? ==> forall me: nat :: SignedIn(users, cookie, me) ==> me == r.value
      ensures r.Err? ==> forall me :: SignedIn(users, cookie, me) ==> !Satisfies(Granted(users[me]), role)
    {
      r := CurrentUser(cookie);
      if r.Ok? {
        GrantedRoles(users[r.value], role);
        hide Satisfies, Granted, StoredRoles;
        if !Satisfies(Granted(users[r.value]), role) {
          r := Err("You do not have permission to access this resource.");
        }
      }
    }

    method ChangeOwnPassword(cookie: Cookie, current: string, password: string, confirm: string) returns (r: Result<()>)
      requires Valid()
      modifies this
      ensures Handled(cookie, ChangeOwn(current, password, confirm), r.Ok?)
      ensures forall me :: r.Ok? && SignedIn(old(users), cookie, me) ==>
        users == old(users)[me := old(users)[me].(secret := password, version := old(users)[me].version + 1)]
    {
      var me :- CurrentUser(cookie);
      if password == [] {
        return Err("A new password is required.");
      }
      if password != confirm {
        return Err("New password and confirmation do not match.");
      }
      if current != users[me].secret {
        return Err("Current password is incorrect.");
      }
      users := users[me := users[me].(secret := password, version := users[me].version + 1)];
      r := Ok(());
    }

    /** The database picks the new row's id. */
    method CreateUser(cookie: Cookie, id: nat, username: string, password: string,
        form: seq<string>) returns (r: Result<()>)
      requires Valid() && id !in users
      modifies this
      ensures Handled(cookie, Create(id, username, password, form), r.Ok?)
      ensures r.Ok? ==>
        users == old(users)[id := User(Strip(username), password, SerializeRoles(Normalized(Known(form))), false, 0)]
    {
      hide Satisfies, Granted, Strip, Normalized, Known, Assignable, SerializeRoles, StoredRoles, Effective;
      var me :- RequireRole(cookie, AccountUpdate);
      var normalized := Strip(username);
      var selected := NormalizeSelectedRoles(form);
      if normalized == [] {
        return Err("Username is required.");
      }
      if password == [] {
        return Err("Password is required.");
      }
      if !Assignable(IsAdmin(users[me]), selected, {}) {
        return Err("Only a global admin can grant sensitive roles.");
      }
      if i :| i in users && users[i].username == normalized {
        return Err("A user with that name already exists.");
      }
      users := users[id := User(normalized, password, SerializeRoles(selected), false, 0)];
      r := Ok(());
    }

    method DisableUser(cookie: Cookie, id: nat) returns (r: Result<()>)
      requires Valid()
      modifies this
      ensures Handled(cookie, Disable(id), r.Ok?)
      ensures r.Ok? ==>
        && id in old(users)
        && users == old(users)[id := old(users)[id].(disabled := true, version := old(users)[id].version + 1)]
    {
      hide Satisfies, Granted, IsAdmin, StoredRoles;
      var me :- RequireRole(cookie, AccountUpdate);
      if id !in users {
        return Err("User not found.");
      }
      if IsAdmin(users[id]) && !IsAdmin(users[me]) {
        return Err("Only a global admin can manage another global admin account.");
      }
      if users[id].disabled {
        return Err("The user is already disabled.");
      }
      var enabled := set i | i in users && !users[i].disabled;
      if |enabled| <= 1 {
        OnlyMember(enabled, id, me);
        return Err("At least one enabled user account must remain.");
      }
      if users[id].username == cookie.username {
        return Err("You cannot disable the user you are signed in as.");
      }
      users := users[id := users[id].(disabled := true, version := users[id].version + 1)];
      r := Ok(());
    }

    method EnableUser(cookie: Cookie, id: nat) returns (r: Result<()>)
      requires Valid()
      modifies this
      ensures Handled(cookie, Enable(id), r.Ok?)
      ensures r.Ok? ==> id in old(users) && users == old(users)[id := old(users)[id].(disabled := false)]
    {
      hide Satisfies, Granted, IsAdmin, StoredRoles;
      var me :- RequireRole(cookie, AccountUpdate);
      if id !in users {
        return Err("User not found.");
      }
      if IsAdmin(users[id]) && !IsAdmin(users[me]) {
        return Err("Only a global admin can manage another global admin account.");
      }
      if !users[id].disabled {
        return Err("The user is already enabled.");
      }
      users := users[id := users[id].(disabled := false)];
      r := Ok(());
    }

    method DeleteUser(cookie: Cookie, id: nat) returns (r: Result<()>)
      requires Valid()
      modifies this
      ensures Handled(cookie, Delete(id), r.Ok?)
      ensures r.Ok? ==> id in old(users) && users == old(users) - {id}
    {
      hide Satisfies, Granted, IsAdmin, StoredRoles;
      var me :- RequireRole(cookie, AccountUpdate);
      if id !in users {
        return Err("User not found.");
      }
      if IsAdmin(users[id]) && !IsAdmin(users[me]) {
        return Err("Only a global admin can manage another global admin account.");
      }
      if |users.Keys| <= 1 {
        OnlyMember(users.Keys, id, me);
        return Err("At least one user account must remain.");
      }
      if users[id].username == cookie.username {
        return Err("You cannot delete the user you are signed in as.");
      }
      if !users[id].disabled {
        return Err("Disable the user account before deleting it.");
      }
      users := users - {id};
      r := Ok(());
    }

    method ResetUserPassword(cookie: Cookie, id: nat, password: string, confirm: string) returns (r: Result<()>)
      requires Valid()
      modifies this
      ensures Handled(cookie, Reset(id, password, confirm), r.Ok?)
      ensures r.Ok? ==>
        && id in old(users)
        && users == old(users)[id := old(users)[id].(secret := password, version := old(users)[id].version + 1)]
    {
      hide Satisfies, Granted, IsAdmin, StoredRoles;
      var me :- RequireRole(cookie, ResetPassword);
      if password == [] || confirm == [] {
        return Err("A new password is required.");
      }
      if password != confirm {
        return Err("New password and confirmation do not match.");
      }
      if id !in users {
        return Err("User not found.");
      }
      if IsAdmin(users[id]) && !IsAdmin(users[me]) {
        return Err("Only a global admin can manage another global admin account.");
      }
      if users[id].disabled {
        return Err("Enable the user account before resetting its password.");
      }
      users := users[id := users[id].(secret := password, version := users[id].version + 1)];
      r := Ok(());
    }

    method UpdateRoles(cookie: Cookie, id: nat, form: seq<string>) returns (r: Result<()>)
      requires Valid()
      modifies this
      ensures Handled(cookie, SetRoles(id, form), r.Ok?)
      ensures r.Ok? ==>
        && id in old(users)
        && users == old(users)[id := old(users)[id].(
             roles := SerializeRoles(Normalized(Known(form))), version := old(users)[id].version + 1)]
    {
      hide Satisfies, Granted, IsAdmin, Normalized, Known, Assignable, SerializeRoles, StoredRoles, UniqueNames;
      var me :- RequireRole(cookie, AccountUpdate);
      SameName(users, me, id, cookie);
      var selected := NormalizeSelectedRoles(form);
      if id !in users {
        return Err("User not found.");
      }
      if IsAdmin(users[id]) && !IsAdmin(users[me]) {
        return Err("Only a global admin can manage another global admin account.");
      }
      if users[id].username == cookie.username {
        return Err("You cannot edit roles for the user you are signed in as.");
      }
      if !Assignable(IsAdmin(users[me]), selected, StoredRoles(users[id].roles)) {
        return Err("Only a global admin can grant or remove sensitive roles.");
      }
      if users[id].disabled {
        return Err("Enable the user account before editing its roles.");
      }
      users := users[id := users[id].(roles := SerializeRoles(selected), version := users[id].version + 1)];
      r := Ok(());
    }
  }

  /** A row with the actor's name is the actor's; and new contents under old names keep names unique. */
  lemma SameName(users: Users, me: nat, id: nat, cookie: Cookie)
    requires UniqueNames(users) && me in users && users[me].username == cookie.username
    ensures id in users && users[id].username == cookie.username ==> id == me
    ensures forall user: User :: id in users && user.username == users[id].username ==> UniqueNames(users[id := user])
  {
  }

  /** The "at least one must remain" counts never refuse anything the other guards allow. */
  lemma OnlyMember<T>(s: set<T>, a: T, b: T)
    requires a in s && b in s && |s| <= 1
    ensures a == b
  {
    assert |s - {a}| == |s| - 1;
    assert a != b ==> b in s - {a};
  }

  // ---------------------------------------------------------------- single steps

  predicate EnabledAdmin(users: Users, id: nat) {
    id in users && !users[id].disabled && IsAdmin(users[id])
  }

  lemma StepKeepsNames(before: Users, cookie: Cookie, request: Request, after: Users)
    requires UniqueNames(before) && Step(before, cookie, request, after)
    ensures UniqueNames(after)
    ensures forall id :: id in before && id in after ==> after[id].username == before[id].username
  {
    hide Satisfies, Granted, Assignable, SerializeRoles, Normalized, Known, Strip;
  }

  /** Whoever stops being an enabled global admin loses that to another one, who stays one. */
  lemma AdminLostToAdmin(before: Users, cookie: Cookie, request: Request, after: Users, lost: nat)
    requires UniqueNames(before) && Step(before, cookie, request, after)
    requires EnabledAdmin(before, lost) && !EnabledAdmin(after, lost)
    ensures exists me ::
      me != lost && SignedIn(before, cookie, me) && EnabledAdmin(before, me) && EnabledAdmin(after, me)
  {
    hide Satisfies, StoredRoles, Effective, Assignable, SerializeRoles, Normalized, Known, Strip;
    var me :| SignedIn(before, cookie, me) && Accepts(before, me, request) && after == Next(before, me, request);
    assert me != lost && EnabledAdmin(before, me) && EnabledAdmin(after, me);
  }

  /** A step by someone who is no global admin leaves every global admin's row as it is, makes no new
      one, keeps the sensitive roles of every account and gives a new account none. */
  lemma NonAdminStep(before: Users, cookie: Cookie, request: Request, after: Users)
    requires UniqueNames(before) && Step(before, cookie, request, after)
    requires forall me :: SignedIn(before, cookie, me) ==> !IsAdmin(before[me])
    ensures forall id :: id in before && IsAdmin(before[id]) ==> id in after && after[id] == before[id]
    ensures forall id :: id in after && IsAdmin(after[id]) ==> id in before && IsAdmin(before[id])
    ensures forall id :: id in before && id in after ==> Sensitive(after[id]) == Sensitive(before[id])
    ensures forall id :: id in after && id !in before ==> Sensitive(after[id]) == {}
  {
    hide Satisfies, Assignable, SerializeRoles, Normalized, Known, Strip, StoredRoles, IsAdmin;
    var me :| SignedIn(before, cookie, me) && Accepts(before, me, request) && after == Next(before, me, request);
    forall id | id in after ensures IsAdmin(after[id]) <==> GlobalAdmin in Sensitive(after[id]) {
      AdminIsSensitive(after[id]);
    }
    forall id | id in before ensures IsAdmin(before[id]) <==> GlobalAdmin in Sensitive(before[id]) {
      AdminIsSensitive(before[id]);
    }
    if request.Create? || request.SetRoles? {
      var selected := Normalized(Known(request.form));
      AssignedRoles(Known(request.form));
      NormalizedIsLeastClosed(Known(request.form), {});
      AssignableKeepsSensitive(selected, if request.Create? then {} else StoredRoles(before[request.id].roles));
    }
  }

  lemma AdminIsSensitive(user: User)
    ensures IsAdmin(user) <==> GlobalAdmin in Sensitive(user)
  {
    hide StoredRoles;
  }

  /** Session versions never fall, and rise with every new password, change of roles and disabling. */
  lemma VersionStep(before: Users, cookie: Cookie, request: Request, after: Users, id: nat)
    requires Step(before, cookie, request, after) && id in before && id in after
    ensures before[id].version <= after[id].version
    ensures (after[id].secret != before[id].secret || after[id].roles != before[id].roles
      || (after[id].disabled && !before[id].disabled)) ==> before[id].version < after[id].version
  {
    hide Satisfies, Granted, Assignable, SerializeRoles, Normalized, Known, Strip;
  }

  // ---------------------------------------------------------------- whole runs

  /** A run of accepted requests; refused ones leave the table as it is. */
  ghost predicate Run(states: seq<Users>, cookies: seq<Cookie>, requests: seq<Request>) {
    && |cookies| == |requests| && |states| == |requests| + 1 && UniqueNames(states[0])
    && forall i :: 0 <= i < |requests| ==> Step(states[i], cookies[i], requests[i], states[i + 1])
  }

  lemma {:induction false} RunKeepsNames(states: seq<Users>, cookies: seq<Cookie>, requests: seq<Request>, i: nat)
    requires Run(states, cookies, requests) && i < |states|
    ensures UniqueNames(states[i])
  {
    hide Step, UniqueNames;
    if i > 0 {
      RunKeepsNames(states, cookies, requests, i - 1);
      StepKeepsNames(states[i - 1], cookies[i - 1], requests[i - 1], states[i]);
    }
  }

  /** At least one enabled global admin remains, whatever is asked by whom. */
  lemma {:induction false} AdminRemains(states: seq<Users>, cookies: seq<Cookie>, requests: seq<Request>, i: nat)
    requires Run(states, cookies, requests) && i < |states|
    requires exists id :: EnabledAdmin(states[0], id)
    ensures exists id :: EnabledAdmin(states[i], id)
  {
    hide Step, UniqueNames, EnabledAdmin, SignedIn;
    if i > 0 {
      AdminRemains(states, cookies, requests, i - 1);
      RunKeepsNames(states, cookies, requests, i - 1);
      var id :| EnabledAdmin(states[i - 1], id);
      if !EnabledAdmin(states[i], id) {
        AdminLostToAdmin(states[i - 1], cookies[i - 1], requests[i - 1], states[i], id);
      }
    }
  }

  /** A request by a user without the roles for accounts changes at most that user's own password. */
  lemma PowerlessStep(before: Users, cookie: Cookie, request: Request, after: Users)
    requires Step(before, cookie, request, after)
    requires forall me :: SignedIn(before, cookie, me) ==>
      StoredRoles(before[me].roles) !! {GlobalAdmin, AccountUpdate, ResetPassword}
    ensures request.ChangeOwn?
    ensures exists me ::
      && SignedIn(before, cookie, me)
      && after == before[me := before[me].(secret := request.password, version := before[me].version + 1)]
  {
    hide Accepts, StoredRoles;
    var me :| SignedIn(before, cookie, me) && Accepts(before, me, request) && after == Next(before, me, request);
    AcceptedExactly(before, me, request);
  }

  /** While nobody who acts has one of these roles, no account appears or disappears, and each row stays as it
      is up to password changes by its own user. */
  lemma {:induction false} PowerlessRun(states: seq<Users>, cookies: seq<Cookie>, requests: seq<Request>, i: nat,
      id: nat)
    requires Run(states, cookies, requests) && i < |states|
    requires forall k, me :: 0 <= k < i && SignedIn(states[k], cookies[k], me) ==>
      StoredRoles(states[k][me].roles) !! {GlobalAdmin, AccountUpdate, ResetPassword}
    ensures id in states[i] <==> id in states[0]
    ensures id in states[0] ==> var before, now := states[0][id], states[i][id];
      && now.username == before.username && now.roles == before.roles && now.disabled == before.disabled
      && (now == before || exists k :: 0 <= k < i && requests[k].ChangeOwn? && SignedIn(states[k], cookies[k], id))
  {
    hide Step, StoredRoles;
    if i > 0 {
      PowerlessRun(states, cookies, requests, i - 1, id);
      assert Step(states[i - 1], cookies[i - 1], requests[i - 1], states[i]);
      PowerlessStep(states[i - 1], cookies[i - 1], requests[i - 1], states[i]);
    }
  }

  ghost predicate ByNonAdmins(states: seq<Users>, cookies: seq<Cookie>) {
    forall i, me :: 0 <= i < |cookies| && i < |states| && SignedIn(states[i], cookies[i], me) ==>
      !IsAdmin(states[i][me])
  }

  ghost function Admins(users: Users): set<nat> {
    set id | id in users && IsAdmin(users[id])
  }

  /** Without a global admin acting, the global admins and their rows stay what they were. */
  lemma {:induction false} AdminsConstant(states: seq<Users>, cookies: seq<Cookie>, requests: seq<Request>, i: nat)
    requires Run(states, cookies, requests) && ByNonAdmins(states, cookies) && i < |states|
    ensures Admins(states[i]) == Admins(states[0])
    ensures forall id :: id in Admins(states[0]) ==> id in states[i] && states[i][id] == states[0][id]
  {
    hide Step, UniqueNames, IsAdmin;
    if i > 0 {
      AdminsConstant(states, cookies, requests, i - 1);
      RunKeepsNames(states, cookies, requests, i - 1);
      NonAdminStep(states[i - 1], cookies[i - 1], requests[i - 1], states[i]);
      assert forall id :: id in Admins(states[i]) <==> id in Admins(states[i - 1]);
    }
  }

  /** Nor do the sensitive roles of an account change while it exists, ... */
  lemma {:induction false} SensitiveRolesKept(states: seq<Users>, cookies: seq<Cookie>, requests: seq<Request>, i: nat,
      j: nat, id: nat)
    requires Run(states, cookies, requests) && ByNonAdmins(states, cookies) && i <= j < |states|
    requires forall k :: i <= k <= j ==> id in states[k]
    ensures Sensitive(states[j][id]) == Sensitive(states[i][id])
  {
    hide Step, UniqueNames, IsAdmin, Sensitive;
    if i < j {
      SensitiveRolesKept(states, cookies, requests, i, j - 1, id);
      RunKeepsNames(states, cookies, requests, j - 1);
      NonAdminStep(states[j - 1], cookies[j - 1], requests[j - 1], states[j]);
    }
  }

  /** ... and an account made on the way has none. */
  lemma {:induction false} NewAccountsHaveNone(states: seq<Users>, cookies: seq<Cookie>, requests: seq<Request>,
      i: nat, j: nat, id: nat)
    requires Run(states, cookies, requests) && ByNonAdmins(states, cookies) && i <= j < |states|
    requires id !in states[i] && id in states[j]
    ensures Sensitive(states[j][id]) == {}
  {
    hide Step, UniqueNames, IsAdmin, Sensitive;
    if i < j {
      RunKeepsNames(states, cookies, requests, j - 1);
      NonAdminStep(states[j - 1], cookies[j - 1], requests[j - 1], states[j]);
      if id in states[j - 1] {
        NewAccountsHaveNone(states, cookies, requests, i, j - 1, id);
      }
    }
  }

  lemma {:induction false} VersionsGrow(states: seq<Users>, cookies: seq<Cookie>, requests: seq<Request>, i: nat,
      j: nat, id: nat)
    requires Run(states, cookies, requests) && i <= j < |states|
    requires forall k :: i <= k <= j ==> id in states[k]
    ensures states[i][id].version <= states[j][id].version && states[i][id].username == states[j][id].username
  {
    hide Step, UniqueNames;
    if i < j {
      VersionsGrow(states, cookies, requests, i, j - 1, id);
      RunKeepsNames(states, cookies, requests, j - 1);
      VersionStep(states[j - 1], cookies[j - 1], requests[j - 1], states[j], id);
      StepKeepsNames(states[j - 1], cookies[j - 1], requests[j - 1], states[j]);
    }
  }

  /** Once an account is disabled or its password or roles change, no cookie issued before ever
      signs anyone in again, even after the account is enabled again. */
  lemma OldCookiesStayDead(states: seq<Users>, cookies: seq<Cookie>, requests: seq<Request>, i: nat, k: nat, j: nat,
      id: nat, cookie: Cookie, who: nat)
    requires Run(states, cookies, requests) && i <= k < j < |states|
    requires forall l :: i <= l <= j ==> id in states[l]
    requires SignedIn(states[i], cookie, id)
    requires var a, b := states[k][id], states[k + 1][id];
      a.secret != b.secret || a.roles != b.roles || (b.disabled && !a.disabled)
    ensures !SignedIn(states[j], cookie, who)
  {
    hide Step;
    VersionsGrow(states, cookies, requests, i, k, id);
    VersionStep(states[k], cookies[k], requests[k], states[k + 1], id);
    VersionsGrow(states, cookies, requests, k + 1, j, id);
    VersionsGrow(states, cookies, requests, i, j, id);
    RunKeepsNames(states, cookies, requests, j);
  }
}
