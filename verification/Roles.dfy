/** Roles, their text form in the user table, and who may assign them (src/rbac.py). */
module Roles {
  import opened Basics
  import opened Text

  datatype Role =
    | GlobalAdmin | GlobalRead | AccountUpdate | ResetPassword | ApiKeysRead
    | ApiKeysUpdate | DnsZonesRead | DnsZonesUpdate | PluginUpdate | SystemUpdate

  const ALL_ROLES: seq<Role> := [
    GlobalAdmin, GlobalRead, AccountUpdate, ResetPassword, ApiKeysRead,
    ApiKeysUpdate, DnsZonesRead, DnsZonesUpdate, PluginUpdate, SystemUpdate]

  /** `sorted(ALL_ROLES)`: the order of the names. */
  const SORTED_ROLES: seq<Role> := [
    ResetPassword, AccountUpdate, ApiKeysRead, ApiKeysUpdate, DnsZonesRead,
    DnsZonesUpdate, GlobalAdmin, GlobalRead, PluginUpdate, SystemUpdate]

  const MANDATORY: set<Role> := {DnsZonesRead}
  const GRANTABLE: set<Role> := {GlobalRead, ApiKeysRead, DnsZonesRead, DnsZonesUpdate}
  const SENSITIVE: set<Role> := {GlobalAdmin, AccountUpdate, ResetPassword, ApiKeysUpdate, PluginUpdate, SystemUpdate}
  const DEPENDENCIES: seq<(Role, Role)> := [(ApiKeysUpdate, ApiKeysRead), (DnsZonesUpdate, DnsZonesRead)]

  function Name(role: Role): string {
    match role
    case GlobalAdmin => "global.admin"
    case GlobalRead => "global.read"
    case AccountUpdate => "account.update"
    case ResetPassword => "account.reset_password"
    case ApiKeysRead => "api_keys.read"
    case ApiKeysUpdate => "api_keys.update"
    case DnsZonesRead => "dns_zones.read"
    case DnsZonesUpdate => "dns_zones.update"
    case PluginUpdate => "plugin.update"
    case SystemUpdate => "system.update"
  }

  lemma EveryRole(role: Role)
    ensures role in ALL_ROLES && role in SORTED_ROLES && (role in GRANTABLE <==> role !in SENSITIVE)
  {
    assert ALL_ROLES[0] == GlobalAdmin && ALL_ROLES[1] == GlobalRead && ALL_ROLES[2] == AccountUpdate
      && ALL_ROLES[3] == ResetPassword && ALL_ROLES[4] == ApiKeysRead && ALL_ROLES[5] == ApiKeysUpdate
      && ALL_ROLES[6] == DnsZonesRead && ALL_ROLES[7] == DnsZonesUpdate && ALL_ROLES[8] == PluginUpdate
      && ALL_ROLES[9] == SystemUpdate;
    assert SORTED_ROLES[0] == ResetPassword && SORTED_ROLES[1] == AccountUpdate && SORTED_ROLES[2] == ApiKeysRead
      && SORTED_ROLES[3] == ApiKeysUpdate && SORTED_ROLES[4] == DnsZonesRead && SORTED_ROLES[5] == DnsZonesUpdate
      && SORTED_ROLES[6] == GlobalAdmin && SORTED_ROLES[7] == GlobalRead && SORTED_ROLES[8] == PluginUpdate
      && SORTED_ROLES[9] == SystemUpdate;
  }

  /** Character-by-character order of two texts, as Python compares strings. */
  ghost predicate Before(a: string, b: string) {
    exists k :: 0 <= k <= |a| && k < |b| && a[..k] == b[..k] && (k == |a| || a[k] < b[k])
  }

  lemma SortedRolesAreSorted(i: nat)
    requires i + 1 < |SORTED_ROLES|
    ensures Before(Name(SORTED_ROLES[i]), Name(SORTED_ROLES[i + 1]))
  {
    var a, b := Name(SORTED_ROLES[i]), Name(SORTED_ROLES[i + 1]);
    var k := [8, 1, 9, 0, 10, 0, 7, 0, 0][i];
    assert a[..k] == b[..k] && a[k] < b[k];
  }

  /** Names are non-empty, free of commas and white space, and distinct. */
  lemma NameShape(role: Role)
    ensures Name(role) != [] && ',' !in Name(role) && Strip(Name(role)) == Name(role)
  {
    hide Strip, LeftStrip, RightStrip;
    StripFixes(Name(role));
  }

  lemma NamesDistinct(a: Role, b: Role)
    ensures Name(a) == Name(b) ==> a == b
  {
    assert Name(a) == Name(b) ==> |Name(a)| == |Name(b)| && Name(a)[0] == Name(b)[0];
  }

  // ---------------------------------------------------------------- text form

  /** `raw.split(",")`. */
  function SplitCommas(s: string): (parts: seq<string>)
    ensures parts != []
    decreases |s|
  {
    var n := FieldLength(s);
    if n == |s| then [s] else [s[..n]] + SplitCommas(s[n + 1..])
  }

  /** The number of characters before the first comma. */
  function FieldLength(s: string): (n: nat)
    ensures n <= |s| && ',' !in s[..n] && (n < |s| ==> s[n] == ',')
  {
    if s == [] || s[0] == ',' then 0
    else
      var n := FieldLength(s[1..]);
      assert s[..n + 1] == [s[0]] + s[1..][..n];
      n + 1
  }

  lemma {:induction false} FieldLengthOf(field: string, rest: string)
    requires ',' !in field
    ensures FieldLength(field) == |field| && FieldLength(field + "," + rest) == |field|
  {
    if field != [] {
      FieldLengthOf(field[1..], rest);
      assert (field + "," + rest)[1..] == field[1..] + "," + rest;
    }
  }

  /** `field` stands at `at` between commas or the ends of the text. */
  predicate FieldAt(s: string, field: string, at: nat) {
    && at + |field| <= |s| && s[at..at + |field|] == field && ',' !in field
    && (at == 0 || s[at - 1] == ',') && (at + |field| == |s| || s[at + |field|] == ',')
  }

  /** `split(",")` yields exactly these. */
  lemma {:induction false} SplitIsField(s: string, field: string) returns (at: nat)
    requires field in SplitCommas(s)
    ensures FieldAt(s, field, at)
    decreases |s|
  {
    hide FieldAt;
    var n := FieldLength(s);
    FirstField(s, s[..n], n);
    if n < |s| && field != s[..n] {
      at := SplitIsField(s[n + 1..], field);
      LaterField(s, field, n, n + 1 + at);
      at := n + 1 + at;
    } else {
      assert n == |s| ==> s[..n] == s;
      at := 0;
    }
  }

  lemma {:induction false} FieldIsSplit(s: string, field: string, at: nat)
    requires FieldAt(s, field, at)
    ensures field in SplitCommas(s)
    decreases |s|
  {
    hide FieldAt;
    var n := FieldLength(s);
    FirstField(s, field, n);
    if n == |s| {
      assert s[..n] == s;
      OnlyField(s, field, at);
    } else if at > 0 {
      LaterField(s, field, n, at);
      FieldIsSplit(s[n + 1..], field, at - n - 1);
    }
  }

  lemma FirstField(s: string, field: string, n: nat)
    requires n <= |s| && ',' !in s[..n] && (n < |s| ==> s[n] == ',')
    ensures FieldAt(s, field, 0) <==> field == s[..n]
  {
    assert s[0..0 + n] == s[..n];
    if FieldAt(s, field, 0) {
      assert field == s[..|field|];
    }
  }

  lemma LaterField(s: string, field: string, n: nat, at: nat)
    requires n < |s| && ',' !in s[..n] && s[n] == ','
    ensures at <= n && at > 0 ==> !FieldAt(s, field, at)
    ensures at > n ==> (FieldAt(s, field, at) <==> FieldAt(s[n + 1..], field, at - n - 1))
  {
    var rest := s[n + 1..];
    assert 0 < at <= n ==> s[..n][at - 1] != ',';
    if n < at && at + |field| <= |s| {
      assert rest[at - n - 1..at - n - 1 + |field|] == s[at..at + |field|];
    }
  }

  lemma OnlyField(s: string, field: string, at: nat)
    requires ',' !in s && FieldAt(s, field, at)
    ensures field == s
  {
    assert s[at..at + |field|] == field;
  }

  /** `parse_roles`: the stripped, non-empty parts. */
  function ParseNames(raw: string): set<string> {
    set part | part in SplitCommas(raw) && Strip(part) != [] :: Strip(part)
  }

  /** The roles a stored text names. Other names it may hold play no part in any decision. */
  function StoredRoles(raw: string): set<Role> {
    set role: Role | Name(role) in ParseNames(raw)
  }

  function Join(names: seq<string>): string
    requires names != []
  {
    if |names| == 1 then names[0] else names[0] + "," + Join(names[1..])
  }

  /** The roles of `roles` among the first ones of `order`, by name. */
  function Pick(order: seq<Role>, roles: set<Role>): seq<string> {
    if order == [] then []
    else (if order[0] in roles then [Name(order[0])] else []) + Pick(order[1..], roles)
  }

  function Cleaned(roles: set<Role>): set<Role> {
    (if GlobalAdmin in roles then Elements(ALL_ROLES) else roles) + MANDATORY
  }

  /** `serialize_roles`. */
  function SerializeRoles(roles: set<Role>): string {
    var names := Pick(SORTED_ROLES, Cleaned(roles));
    if names == [] then "" else Join(names)
  }

  lemma {:induction false} PickMembers(order: seq<Role>, roles: set<Role>, role: Role)
    ensures Name(role) in Pick(order, roles) <==> role in order && role in roles
    ensures forall n :: n in Pick(order, roles) ==> exists r :: r in roles && n == Name(r)
  {
    if order != [] {
      PickMembers(order[1..], roles, role);
      NamesDistinct(order[0], role);
    }
  }

  lemma {:induction false} SplitJoined(names: seq<string>)
    requires names != [] && forall n :: n in names ==> ',' !in n
    ensures SplitCommas(Join(names)) == names
  {
    if |names| == 1 {
      FieldLengthOf(names[0], "");
    } else {
      var rest := Join(names[1..]);
      assert forall n :: n in names[1..] ==> n in names;
      SplitJoined(names[1..]);
      assert names[0] in names;
      FieldLengthOf(names[0], rest);
      var joined := names[0] + "," + rest;
      assert joined[..|names[0]|] == names[0] && joined[|names[0]| + 1..] == rest;
    }
  }

  /** Reading back stored roles gives exactly the cleaned set, and no other name. */
  lemma StoredRolesReadBack(roles: set<Role>)
    ensures StoredRoles(SerializeRoles(roles)) == Cleaned(roles)
    ensures forall n :: n in ParseNames(SerializeRoles(roles)) ==> exists r :: r in Cleaned(roles) && n == Name(r)
  {
    var kept := Cleaned(roles);
    var names := Pick(SORTED_ROLES, kept);
    EveryRole(DnsZonesRead);
    PickMembers(SORTED_ROLES, kept, DnsZonesRead);
    forall n | n in names ensures ',' !in n && n != [] && Strip(n) == n {
      var r :| r in kept && n == Name(r);
      NameShape(r);
    }
    SplitJoined(names);
    hide Pick, Cleaned, Name, Strip, SplitCommas, Join;
    assert ParseNames(SerializeRoles(roles)) == Elements(names) by {
      NamesAsSet(SerializeRoles(roles), names);
    }
    forall role: Role ensures Name(role) in Elements(names) <==> role in kept {
      EveryRole(role);
      PickMembers(SORTED_ROLES, kept, role);
    }
  }

  lemma NamesAsSet(raw: string, names: seq<string>)
    requires SplitCommas(raw) == names && forall n :: n in names ==> n != [] && Strip(n) == n
    ensures ParseNames(raw) == Elements(names)
  {
    hide SplitCommas, Strip;
  }

  /** The names a stored text holds are exactly its stripped fields that are not empty, in whatever order. */
  lemma NamesAreFields(raw: string, name: string)
    ensures name in ParseNames(raw) <==>
      name != [] && exists field, at: nat :: FieldAt(raw, field, at) && Strip(field) == name
  {
    hide SplitCommas, FieldAt, Strip;
    if name in ParseNames(raw) {
      var part :| part in SplitCommas(raw) && Strip(part) != [] && Strip(part) == name;
      var at := SplitIsField(raw, part);
    }
    if field, at: nat :| FieldAt(raw, field, at) && Strip(field) == name {
      FieldIsSplit(raw, field, at);
    }
  }

  // ---------------------------------------------------------------- decisions

  /** The known roles among submitted names. */
  function Known(form: seq<string>): set<Role> {
    set role: Role | Name(role) in form
  }

  ghost predicate Closed(roles: set<Role>) {
    MANDATORY <= roles && forall d :: d in DEPENDENCIES && d.0 in roles ==> d.1 in roles
  }

  /** `normalize_selected_roles`, of the known roles selected. */
  function Normalized(known: set<Role>): set<Role> {
    if GlobalAdmin in known then Elements(ALL_ROLES)
    else known + MANDATORY + (if ApiKeysUpdate in known then {ApiKeysRead} else {})
  }

  /** The normalised selection is the least closed set around the known roles, or every role. */
  lemma NormalizedIsLeastClosed(known: set<Role>, other: set<Role>)
    ensures known <= Normalized(known) && Closed(Normalized(known)) &&
      Normalized(Normalized(known)) == Normalized(known)
    ensures GlobalAdmin in known <==> GlobalAdmin in Normalized(known)
    ensures GlobalAdmin !in known && known <= other && Closed(other) ==> Normalized(known) <= other
    ensures GlobalAdmin in known ==> forall role: Role :: role in Normalized(known)
  {
    forall role: Role ensures role in ALL_ROLES {
      EveryRole(role);
    }
    assert (ApiKeysUpdate, ApiKeysRead) == DEPENDENCIES[0] && (DnsZonesUpdate, DnsZonesRead) == DEPENDENCIES[1];
  }

  /** `normalize_selected_roles` with its loop over the dependencies. */
  method NormalizeSelectedRoles(form: seq<string>) returns (selected: set<Role>)
    ensures selected == Normalized(Known(form))
  {
    selected := {};
    for i := 0 to |ALL_ROLES|
      invariant forall role: Role :: role in selected <==> role in ALL_ROLES[..i] && Name(role) in form
    {
      assert ALL_ROLES[..i + 1] == ALL_ROLES[..i] + [ALL_ROLES[i]];
      if Name(ALL_ROLES[i]) in form {
        selected := selected + {ALL_ROLES[i]};
      }
    }
    assert ALL_ROLES[..|ALL_ROLES|] == ALL_ROLES;
    forall role: Role ensures role in ALL_ROLES {
      EveryRole(role);
    }
    assert selected == Known(form);
    if GlobalAdmin in selected {
      return Elements(ALL_ROLES);
    }
    selected := selected + MANDATORY;
    for i := 0 to |DEPENDENCIES|
      invariant selected == Known(form) + MANDATORY + (if i > 0 &&
        ApiKeysUpdate in Known(form) then {ApiKeysRead} else {})
    {
      assert i == 0 || i == 1;
      if DEPENDENCIES[i].0 in selected {
        selected := selected + {DEPENDENCIES[i].1};
      }
    }
  }

  /** `effective_roles`. */
  function Effective(stored: set<Role>): set<Role> {
    if GlobalAdmin in stored then Elements(ALL_ROLES) else stored + MANDATORY
  }

  /** `roles_satisfy`. */
  predicate Satisfies(roles: set<Role>, role: Role) {
    GlobalAdmin in roles || role in roles || (GlobalRead in roles && role in {ApiKeysRead, DnsZonesRead})
  }

  /** `validate_role_assignment`: no error. */
  predicate Assignable(actorIsAdmin: bool, roles: set<Role>, previous: set<Role>) {
    var selected := Normalized(roles);
    actorIsAdmin ||
    ((selected - previous) - GRANTABLE - MANDATORY == {} && (previous - selected) * SENSITIVE == {})
  }

  /** An account admin may assign exactly the selections that leave the sensitive roles as they are. */
  lemma AssignableKeepsSensitive(roles: set<Role>, previous: set<Role>)
    ensures Assignable(false, roles, previous) <==> Normalized(roles) * SENSITIVE == previous * SENSITIVE
  {
    hide Normalized;
    var selected := Normalized(roles);
    forall role: Role ensures role in GRANTABLE <==> role !in SENSITIVE {
      EveryRole(role);
    }
    if Assignable(false, roles, previous) {
      forall role: Role ensures role in selected * SENSITIVE <==> role in previous * SENSITIVE {
        assert role !in (selected - previous) - GRANTABLE - MANDATORY && role !in (previous - selected) * SENSITIVE;
      }
    }
    if selected * SENSITIVE == previous * SENSITIVE {
      forall role: Role
        ensures role !in (selected - previous) - GRANTABLE - MANDATORY && role !in (previous - selected) * SENSITIVE
      {
        assert role in selected * SENSITIVE <==> role in previous * SENSITIVE;
      }
    }
  }

  /** What an assignment stores: the normalised selection itself. */
  lemma AssignedRoles(known: set<Role>)
    ensures StoredRoles(SerializeRoles(Normalized(known))) == Normalized(known)
  {
    StoredRolesReadBack(Normalized(known));
    NormalizedIsLeastClosed(known, known);
    forall role: Role ensures role in ALL_ROLES {
      EveryRole(role);
    }
    hide StoredRoles, SerializeRoles;
  }
}
