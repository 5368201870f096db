/** Validating and restoring a backup (src/backup_service.py, lines 561-945) against an installation
    whose database and file system may fail at any operation. */
module BackupRestore {
  import opened Basics
  import opened Text
  import opened Roles
  import opened BackupTables
  import opened BackupLaws

  // ---------------------------------------------------------------- validate_restore_records

  method ValidateUsers(checks: Checks, users: seq<UserItem>) returns (r: Result<()>)
    ensures r.Ok? <==> UsersAcceptable(checks, users)
  {
    hide Strip, UserAcceptable, ActiveAdmin, UsersAcceptable;
    if users == [] {
      NoUsersRefused(checks);
      return Err("Backup users category is empty; refusing to leave the system with no accounts.");
    }
    var seen: set<string>, enabledGlobalAdmin := {}, false;
    for i := 0 to |users|
      invariant UsersSeen(checks, users[..i], seen)
      invariant enabledGlobalAdmin <==> exists u :: u in users[..i] && ActiveAdmin(u)
    {
      assert users[..i + 1] == users[..i] + [users[i]];
      UsersSeenNext(checks, users, i, seen);
      if !UserAcceptable(checks, users[i]) {
        return Err("User entry missing username or usable password_hash.");
      }
      var username := Strip(users[i].username);
      if username in seen {
        return Err("Duplicate user in backup.");
      }
      seen := seen + {username};
      if ActiveAdmin(users[i]) {
        enabledGlobalAdmin := true;
      }
    }
    assert users[..|users|] == users;
    UsersVerdict(checks, users, seen);
    if !enabledGlobalAdmin {
      return Err("Backup users must include at least one enabled global administrator.");
    }
    r := Ok(());
  }

  /** The users read so far are acceptable one by one, with the distinct names `seen`. */
  ghost predicate UsersSeen(checks: Checks, users: seq<UserItem>, seen: set<string>) {
    && (forall i :: 0 <= i < |users| ==> UserAcceptable(checks, users[i]))
    && (forall i, j :: 0 <= i < j < |users| ==> Strip(users[i].username) != Strip(users[j].username))
    && (forall n :: n in seen <==> exists i :: 0 <= i < |users| && Strip(users[i].username) == n)
  }

  lemma NoUsersRefused(checks: Checks)
    ensures !UsersAcceptable(checks, [])
  {
  }

  lemma UsersSeenNext(checks: Checks, users: seq<UserItem>, i: nat, seen: set<string>)
    requires i < |users| && UsersSeen(checks, users[..i], seen)
    ensures if !UserAcceptable(checks, users[i]) ||
      Strip(users[i].username) in seen then !UsersAcceptable(checks, users)
      else UsersSeen(checks, users[..i + 1], seen + {Strip(users[i].username)})
  {
    hide Strip, UserAcceptable, ActiveAdmin;
    assert forall k :: 0 <= k < i ==> users[..i][k] == users[k];
    var after := users[..i + 1];
    assert |after| == i + 1 && after[i] == users[i] && forall k :: 0 <= k < i ==> after[k] == users[k];
  }

  lemma UsersVerdict(checks: Checks, users: seq<UserItem>, seen: set<string>)
    requires users != [] && UsersSeen(checks, users, seen)
    ensures UsersAcceptable(checks, users) <==> exists u :: u in users && ActiveAdmin(u)
  {
    hide Strip, UserAcceptable, ActiveAdmin;
  }

  method ValidateZones(zones: seq<ZoneItem>) returns (r: Result<()>)
    ensures r.Ok? <==> ZonesAcceptable(zones)
  {
    hide Strip;
    var seen := {};
    for i := 0 to |zones|
      invariant forall n :: n in seen <==> exists k :: 0 <= k < i && Strip(zones[k].name) == n
      invariant forall k :: 0 <= k < i ==> Strip(zones[k].name) != [] && zones[k].config != Empty
      invariant forall j, k :: 0 <= j < k < i ==> Strip(zones[j].name) != Strip(zones[k].name)
    {
      var name := Strip(zones[i].name);
      if name == [] {
        return Err("Zone entry missing zone_name.");
      }
      if name in seen {
        return Err("Duplicate zone in backup.");
      }
      seen := seen + {name};
      if zones[i].config == Empty {
        return Err("Zone is missing encrypted_config.");
      }
    }
    r := Ok(());
  }

  method ValidateKeys(keys: seq<KeyItem>) returns (r: Result<()>)
    ensures r.Ok? <==> KeysAcceptable(keys)
  {
    var seen := {};
    for i := 0 to |keys|
      invariant forall n :: n in seen <==> exists k :: 0 <= k < i && keys[k].row.digest == n
      invariant forall k :: 0 <= k < i ==> keys[k].row.digest != [] && keys[k].row.mode in {"read_only", "read_write"}
      invariant forall j, k :: 0 <= j < k < i ==> keys[j].row.digest != keys[k].row.digest
    {
      var digest := keys[i].row.digest;
      if digest == [] {
        return Err("API key entry missing key digest.");
      }
      if digest in seen {
        return Err("Duplicate API key digest in backup.");
      }
      seen := seen + {digest};
      if keys[i].row.mode !in {"read_only", "read_write"} {
        return Err("API key access_mode must be read_only or read_write.");
      }
    }
    r := Ok(());
  }

  lemma UsersExactly(checks: Checks, users: seq<UserItem>)
    ensures UsersAcceptable(checks, users) <==>
      && (forall u :: u in users ==> Strip(u.username) != [] && Strip(u.hash) != [] && checks.validHash(u.hash))
      && (forall i, j :: 0 <= i < j < |users| ==> Strip(users[i].username) != Strip(users[j].username))
      && exists u :: u in users && !u.disabled && GlobalAdmin in StoredRoles(u.roles)
  {
    EveryRole(GlobalAdmin);
    hide Strip, StoredRoles;
    if u :| u in users && !u.disabled && GlobalAdmin in StoredRoles(u.roles) {
      var i :| 0 <= i < |users| && users[i] == u;
      assert ActiveAdmin(users[i]);
    }
    assert forall i :: 0 <= i < |users| ==> users[i] in users;
    hide Effective;
  }

  lemma RowsExactly(zones: seq<ZoneItem>, keys: seq<KeyItem>)
    ensures ZonesAcceptable(zones) <==>
      && (forall z :: z in zones ==> Strip(z.name) != [] && z.config != Empty)
      && (forall i, j :: 0 <= i < j < |zones| ==> Strip(zones[i].name) != Strip(zones[j].name))
    ensures KeysAcceptable(keys) <==>
      && (forall k :: k in keys ==> k.row.digest != [] && k.row.mode in {"read_only", "read_write"})
      && (forall i, j :: 0 <= i < j < |keys| ==> keys[i].row.digest != keys[j].row.digest)
  {
    hide Strip;
    assert forall i :: 0 <= i < |zones| ==> zones[i] in zones;
    assert forall i :: 0 <= i < |keys| ==> keys[i] in keys;
  }

  lemma SecretsExactly(checks: Checks, cats: set<Category>, p: Payload, processKey: string)
    ensures cats !! FERNET_BACKED <==> Settings !in cats && Zones !in cats && SslFiles !in cats
    ensures FilesAcceptable(p.files) <==>
      forall n :: n in p.files && n in {"server.key", "server.crt", "server.source", "acme_account.key"} ==>
        p.files[n] != Wrapped(Empty) && p.files[n] != Bytes("")
    ensures SecretsAcceptable(checks, cats, p, processKey) <==>
      && p.sealed && Strip(p.secretKey) != [] && checks.validSecret(Strip(p.secretKey))
      && Strip(p.encryptionKey) != [] && checks.validKey(Strip(p.encryptionKey))
      && (Settings in cats || Zones in cats || SslFiles in cats || Strip(p.encryptionKey) == processKey)
  {
    hide Strip;
    if Settings in cats {
      assert Settings in cats * FERNET_BACKED;
    } else if Zones in cats {
      assert Zones in cats * FERNET_BACKED;
    } else if SslFiles in cats {
      assert SslFiles in cats * FERNET_BACKED;
    }
  }

  method ValidateSecrets(checks: Checks, cats: set<Category>, p: Payload, processKey: string) returns (r: Result<()>)
    ensures r.Ok? <==> SecretsAcceptable(checks, cats, p, processKey)
  {
    hide Strip;
    if !p.sealed {
      return Err("Application secrets can only be restored from a password-encrypted backup.");
    }
    if Strip(p.secretKey) == [] || p.SourceKey() == [] {
      return Err("Backup application secrets are incomplete.");
    }
    if !checks.validSecret(Strip(p.secretKey)) || !checks.validKey(p.SourceKey()) {
      return Err("ENCRYPTION_KEY is not a valid Fernet key.");
    }
    if cats !! FERNET_BACKED && p.SourceKey() != processKey {
      return Err("Restoring Application secrets alone cannot replace ENCRYPTION_KEY.");
    }
    r := Ok(());
  }

  /** What `validate_restore_records` lets through, in full. */
  lemma AcceptableExactly(checks: Checks, cats: set<Category>, p: Payload, processKey: string)
    ensures Acceptable(checks, cats, p, processKey) <==>
      && (forall c :: c in cats ==> c in p.included)
      && (Secrets in cats || (Settings !in cats && Zones !in cats && SslFiles !in cats))
      && (Users in cats ==>
            && (forall u :: u in p.users ==> Strip(u.username) != [] && Strip(u.hash) != [] && checks.validHash(u.hash))
            && (forall i, j :: 0 <= i < j < |p.users| ==> Strip(p.users[i].username) != Strip(p.users[j].username))
            && exists u :: u in p.users && !u.disabled && GlobalAdmin in StoredRoles(u.roles))
      && (Zones in cats ==>
            && (forall z :: z in p.zones ==> Strip(z.name) != [] && z.config != Empty)
            && (forall i, j :: 0 <= i < j < |p.zones| ==> Strip(p.zones[i].name) != Strip(p.zones[j].name)))
      && (ApiKeys in cats ==>
            && (forall k :: k in p.keys ==> k.row.digest != [] && k.row.mode in {"read_only", "read_write"})
            && (forall i, j :: 0 <= i < j < |p.keys| ==> p.keys[i].row.digest != p.keys[j].row.digest))
      && (SslFiles in cats ==>
            forall n :: n in p.files && n in {"server.key", "server.crt", "server.source", "acme_account.key"} ==>
              p.files[n] != Wrapped(Empty) && p.files[n] != Bytes(""))
      && (Secrets in cats ==>
            && p.sealed && Strip(p.secretKey) != [] && checks.validSecret(Strip(p.secretKey))
            && Strip(p.encryptionKey) != [] && checks.validKey(Strip(p.encryptionKey))
            && (Settings in cats || Zones in cats || SslFiles in cats || Strip(p.encryptionKey) == processKey))
  {
    hide Strip, StoredRoles, UsersAcceptable, ZonesAcceptable, KeysAcceptable, FilesAcceptable, SecretsAcceptable,
      FERNET_BACKED;
    UsersExactly(checks, p.users);
    RowsExactly(p.zones, p.keys);
    SecretsExactly(checks, cats, p, processKey);
  }

  /** Its checks, one category after the other. */
  method CheckRecords(checks: Checks, cats: set<Category>, p: Payload, processKey: string) returns (r: Result<()>)
    ensures r.Ok? <==> Acceptable(checks, cats, p, processKey)
  {
    hide Strip, UsersAcceptable, ZonesAcceptable, KeysAcceptable, FilesAcceptable, SecretsAcceptable;
    if !(cats <= p.included) {
      return Err("Backup does not include a selected category.");
    }
    if Secrets !in cats && !(cats !! FERNET_BACKED) {
      return Err("Restoring settings, DNS zones, or SSL files requires Application secrets.");
    }
    if Users in cats {
      var _ :- ValidateUsers(checks, p.users);
    }
    if Zones in cats {
      var _ :- ValidateZones(p.zones);
    }
    if ApiKeys in cats {
      var _ :- ValidateKeys(p.keys);
    }
    if SslFiles in cats && !FilesAcceptable(p.files) {
      return Err("SSL file is empty.");
    }
    if Secrets in cats {
      var _ :- ValidateSecrets(checks, cats, p, processKey);
    }
    r := Ok(());
  }

  /** `validate_restore_records`: every selected category is checked before anything is wiped. */
  method ValidateRestoreRecords(checks: Checks, cats: set<Category>, p: Payload,
      processKey: string) returns (r: Result<()>)
    ensures r.Ok? <==> Acceptable(checks, cats, p, processKey)
    ensures r.Ok? <==>
      && (forall c :: c in cats ==> c in p.included)
      && (Secrets in cats || (Settings !in cats && Zones !in cats && SslFiles !in cats))
      && (Users in cats ==>
            && (forall u :: u in p.users ==> Strip(u.username) != [] && Strip(u.hash) != [] && checks.validHash(u.hash))
            && (forall i, j :: 0 <= i < j < |p.users| ==> Strip(p.users[i].username) != Strip(p.users[j].username))
            && exists u :: u in p.users && !u.disabled && GlobalAdmin in StoredRoles(u.roles))
      && (Zones in cats ==>
            && (forall z :: z in p.zones ==> Strip(z.name) != [] && z.config != Empty)
            && (forall i, j :: 0 <= i < j < |p.zones| ==> Strip(p.zones[i].name) != Strip(p.zones[j].name)))
      && (ApiKeys in cats ==>
            && (forall k :: k in p.keys ==> k.row.digest != [] && k.row.mode in {"read_only", "read_write"})
            && (forall i, j :: 0 <= i < j < |p.keys| ==> p.keys[i].row.digest != p.keys[j].row.digest))
      && (SslFiles in cats ==>
            forall n :: n in p.files && n in {"server.key", "server.crt", "server.source", "acme_account.key"} ==>
              p.files[n] != Wrapped(Empty) && p.files[n] != Bytes(""))
      && (Secrets in cats ==>
            && p.sealed && Strip(p.secretKey) != [] && checks.validSecret(Strip(p.secretKey))
            && Strip(p.encryptionKey) != [] && checks.validKey(Strip(p.encryptionKey))
            && (Settings in cats || Zones in cats || SslFiles in cats || Strip(p.encryptionKey) == processKey))
  {
    hide *;
    r := CheckRecords(checks, cats, p, processKey);
    AcceptableExactly(checks, cats, p, processKey);
  }

  // ---------------------------------------------------------------- the insert loops

  method InsertSettings(checks: Checks, items: seq<SettingItem>, kept: map<string, Token>, source: string, dest: string)
    returns (r: Result<map<string, Token>>)
    requires kept.Keys <= EXCLUDED
    ensures r.Ok? ==> SettingsFrom(checks, items, kept, source, dest, r.value)
    ensures r.Ok? <==>
      (NamesDiffer(items) &&
        (forall i :: 0 <= i < |items| && Restorable(items[i].name) ==>
          Rewrap(checks, items[i].value, source, dest).Ok?))
  {
    hide Strip, Rewrap, SettingsFrom, Restorable;
    var now := kept;
    NoSettings(checks, kept, source, dest);
    for i := 0 to |items|
      invariant SettingsFrom(checks, items[..i], kept, source, dest, now) && NamesDiffer(items[..i])
      invariant forall k :: 0 <= k < i && Restorable(items[k].name) ==> Rewrap(checks, items[k].value, source, dest).Ok?
    {
      assert items[..i + 1] == items[..i] + [items[i]];
      var name := Strip(items[i].name);
      SettingsFromNext(checks, items[..i], items[i], kept, source, dest, now);
      if !Restorable(items[i].name) {
        continue;
      }
      var value := Rewrap(checks, items[i].value, source, dest);
      if value.Err? {
        return Err(value.message);
      }
      if name in now {
        SettingTwice(checks, items, i, kept, source, dest, now);
        return Err("UNIQUE constraint failed: setting.name");
      }
      now := now[name := value.value];
    }
    assert items[..|items|] == items;
    r := Ok(now);
  }

  lemma NoSettings(checks: Checks, kept: map<string, Token>, source: string, dest: string)
    ensures SettingsFrom(checks, [], kept, source, dest, kept)
  {
  }

  lemma SettingsFromNext(checks: Checks, items: seq<SettingItem>, item: SettingItem, kept: map<string, Token>,
      source: string, dest: string,
      now: map<string, Token>)
    requires SettingsFrom(checks, items, kept, source, dest, now) && NamesDiffer(items)
    ensures !Restorable(item.name) ==>
      SettingsFrom(checks, items + [item], kept, source, dest, now) && NamesDiffer(items + [item])
    ensures Restorable(item.name) && Strip(item.name) !in now && Rewrap(checks, item.value, source, dest).Ok? ==>
      (SettingsFrom(checks, items + [item], kept, source, dest,
          now[Strip(item.name) := Rewrap(checks, item.value, source, dest).value])
      && NamesDiffer(items + [item]))
  {
    hide Strip, Rewrap, Restorable;
    var all := items + [item];
    assert all[|items|] == item && forall k :: 0 <= k < |items| ==> all[k] == items[k];
  }

  lemma SettingTwice(checks: Checks, items: seq<SettingItem>, i: nat, kept: map<string, Token>, source: string,
      dest: string, now: map<string, Token>)
    requires i < |items| && SettingsFrom(checks, items[..i], kept, source, dest, now) && kept.Keys <= EXCLUDED
    requires Restorable(items[i].name) && Strip(items[i].name) in now
    ensures !NamesDiffer(items)
  {
    hide Strip, Rewrap;
    var k :| 0 <= k < i && Restorable(items[..i][k].name) && Strip(items[..i][k].name) == Strip(items[i].name);
    assert items[..i][k] == items[k];
  }

  method InsertUsers(items: seq<UserItem>) returns (now: map<string, UserRow>)
    requires forall i, j :: 0 <= i < j < |items| ==> Strip(items[i].username) != Strip(items[j].username)
    ensures UsersFrom(items, now)
  {
    hide Strip, SerializeRoles, StoredRoles;
    now := map[];
    for i := 0 to |items|
      invariant UsersFrom(items[..i], now)
    {
      assert items[..i + 1] == items[..i] + [items[i]];
      var version: nat := *;
      var item := items[i];
      var row := UserRow(item.hash, SerializeRoles(StoredRoles(item.roles)), item.disabled, version);
      now := now[Strip(item.username) := row];
    }
    assert items[..|items|] == items;
  }

  lemma FreshId(used: set<nat>) returns (id: nat)
    ensures forall x :: x in used ==> x < id
  {
    if used == {} {
      id := 0;
    } else {
      var x :| x in used;
      var n := FreshId(used - {x});
      id := if x < n then n else x + 1;
      assert forall y :: y in used ==> y == x || y in used - {x};
    }
  }

  /** `zone_id_by_name` indexes the zone table. */
  ghost predicate Indexes(byName: map<string, nat>, zones: map<nat, ZoneRow>) {
    && (forall n :: n in byName ==> byName[n] in zones && zones[byName[n]].name == n)
    && (forall z :: z in zones ==> zones[z].name in byName && byName[zones[z].name] == z)
  }

  method InsertZones(checks: Checks, items: seq<ZoneItem>, source: string, dest: string)
    returns (r: Result<(map<nat, ZoneRow>, map<string, nat>)>)
    requires forall i, j :: 0 <= i < j < |items| ==> items[i].name != items[j].name
    ensures r.Ok? ==> ZonesFrom(checks, items, source, dest, r.value.0) && Indexes(r.value.1, r.value.0)
    ensures r.Err? <==> exists i :: 0 <= i < |items| && Rewrap(checks, items[i].config, source, dest).Err?
  {
    hide Rewrap;
    var zones: map<nat, ZoneRow>, byName: map<string, nat> := map[], map[];
    for i := 0 to |items|
      invariant Indexes(byName, zones) && forall k :: 0 <= k < i ==> Rewrap(checks, items[k].config, source, dest).Ok?
      invariant forall n :: n in byName ==> exists k :: 0 <= k < i && items[k].name == n
      invariant forall k :: 0 <= k < i ==> items[k].name in byName
      invariant forall k :: 0 <= k < i ==>
        Rewrap(checks, items[k].config, source, dest) == Ok(zones[byName[items[k].name]].config)
    {
      var config := Rewrap(checks, items[i].config, source, dest);
      if config.Err? {
        return Err(config.message);
      }
      ghost var fresh_ := FreshId(zones.Keys);
      assert fresh_ !in zones;
      var id: nat :| id !in zones;
      zones := zones[id := ZoneRow(items[i].name, config.value)];
      byName := byName[items[i].name := id];
    }
    ZonesIndexed(checks, items, source, dest, zones, byName);
    r := Ok((zones, byName));
  }

  lemma ZonesIndexed(checks: Checks, items: seq<ZoneItem>, source: string, dest: string, zones: map<nat, ZoneRow>,
      byName: map<string, nat>)
    requires Indexes(byName, zones)
    requires forall n :: n in byName ==> exists k :: 0 <= k < |items| && items[k].name == n
    requires forall k :: 0 <= k < |items| ==> items[k].name in byName
    requires forall k :: 0 <= k < |items| ==>
      Rewrap(checks, items[k].config, source, dest) == Ok(zones[byName[items[k].name]].config)
    ensures ZonesFrom(checks, items, source, dest, zones)
  {
    hide Rewrap;
    forall i | 0 <= i < |items| ensures ZonePresent(checks, items[i], source, dest, zones) {
      var z := byName[items[i].name];
      assert z in zones && zones[z].name == items[i].name &&
        Rewrap(checks, items[i].config, source, dest) == Ok(zones[z].config);
    }
    forall z | z in zones ensures exists i :: 0 <= i < |items| && items[i].name == zones[z].name {
      assert zones[z].name in byName;
    }
    forall a, b | a in zones && b in zones && zones[a].name == zones[b].name ensures a == b {
      assert byName[zones[a].name] == a && byName[zones[b].name] == b;
    }
  }

  /** The links of one key, in row `key`. */
  method InsertLinks(key: nat, allowed: seq<string>, ghost zones: map<nat, ZoneRow>, byName: map<string, nat>,
      links: set<(nat, nat)>)
    returns (r: Result<set<(nat, nat)>>)
    requires Indexes(byName, zones) && forall link :: link in links ==> link.0 != key
    ensures r.Err? <==> !NamesOnce(allowed, LiveNames(zones))
    ensures r.Ok? ==> forall link :: link in r.value <==>
      link in links || (link.0 == key && link.1 in zones && zones[link.1].name in allowed)
  {
    var added := links;
    for i := 0 to |allowed|
      invariant forall link :: link in added <==>
        link in links || (link.0 == key && link.1 in zones && zones[link.1].name in allowed[..i])
      invariant NamesOnce(allowed[..i], LiveNames(zones))
    {
      assert allowed[..i + 1] == allowed[..i] + [allowed[i]];
      if allowed[i] !in byName {
        continue;
      }
      var zone := byName[allowed[i]];
      assert zones[zone].name in LiveNames(zones);
      if (key, zone) in added {
        var k :| 0 <= k < i && allowed[..i][k] == allowed[i];
        assert allowed[k] == allowed[i];
        return Err("UNIQUE constraint failed: api_key_allowed_zone");
      }
      added := added + {(key, zone)};
    }
    assert allowed[..|allowed|] == allowed;
    r := Ok(added);
  }

  method InsertKeys(items: seq<KeyItem>, ghost zones: map<nat, ZoneRow>, byName: map<string, nat>)
    returns (r: Result<(map<nat, KeyRow>, set<(nat, nat)>)>)
    requires Indexes(byName, zones)
    ensures r.Ok? ==> KeysRestored(items, zones, r.value.0, r.value.1)
    ensures r.Err? <==> exists i :: 0 <= i < |items| && !NamesOnce(items[i].allowed, LiveNames(zones))
  {
    hide NamesOnce, LiveNames, Indexes;
    var keys: map<nat, KeyRow>, links: set<(nat, nat)>, ids: seq<nat> := map[], {}, [];
    for i := 0 to |items|
      invariant KeysFrom(items[..i], ids, zones, keys, links)
      invariant forall k :: 0 <= k < i ==> NamesOnce(items[k].allowed, LiveNames(zones))
    {
      ghost var fresh_ := FreshId(keys.Keys);
      assert fresh_ !in keys;
      var id: nat :| id !in keys;
      var linked := InsertLinks(id, items[i].allowed, zones, byName, links);
      if linked.Err? {
        return Err(linked.message);
      }
      assert items[..i + 1] == items[..i] + [items[i]];
      KeysFromNext(items[..i], items[i], ids, id, zones, keys, links, linked.value);
      keys, links, ids := keys[id := items[i].row], linked.value, ids + [id];
    }
    assert items[..|items|] == items;
    r := Ok((keys, links));
  }

  lemma KeysFromNext(items: seq<KeyItem>, item: KeyItem, ids: seq<nat>, id: nat, zones: map<nat, ZoneRow>,
      keys: map<nat, KeyRow>, links: set<(nat, nat)>, linked: set<(nat, nat)>)
    requires KeysFrom(items, ids, zones, keys, links) && id !in keys
    requires forall link :: link in linked <==>
      link in links || (link.0 == id && link.1 in zones && zones[link.1].name in item.allowed)
    ensures KeysFrom(items + [item], ids + [id], zones, keys[id := item.row], linked)
  {
  }

  // ---------------------------------------------------------------- restore_payload

  /** What becomes of the project's environment file when the durable secrets were written. */
  datatype EnvironmentWrite = Rewritten | Skipped | Mangled(key: string)

  /** What goes wrong outside: the transaction or the message after it, old certificate files that cannot be
      removed, new ones whose write fails and what it leaves if anything, the new session versions, and the
      secrets file, left alone or cut to these lengths. */
  datatype Faults = Faults(
    database: bool, progress: bool, stuck: set<string>, files: map<string, Option<File>>, versions: bool,
    secrets: Option<Option<(nat, nat)>>, environment: EnvironmentWrite)

  /** The certificate files that the archive has are written. */
  ghost predicate FilesWritable(checks: Checks, p: Payload, dest: string, faults: Faults) {
    forall n :: n in p.files && n in SSL_NAMES ==>
      n !in faults.files && RestoredFile(checks, n, p.files[n], p.SourceKey(), dest).Ok?
  }

  /** The installation: database, certificate files, and the durable secrets file read at the next start. */
  class Installation {
    const checks: Checks
    const processKey: string
    var tables: Tables
    var files: map<string, File>
    var durable: Option<(string, string)>
    var environmentKey: string

    constructor (checks: Checks, processKey: string, environmentKey: string, tables: Tables, files: map<string, File>)
      ensures this.checks == checks && this.processKey == processKey && this.environmentKey == environmentKey
      ensures this.tables == tables && this.files == files && durable == None
    {
      this.checks, this.processKey, this.environmentKey := checks, processKey, environmentKey;
      this.tables, this.files, durable := tables, files, None;
    }

    /** The ENCRYPTION_KEY the next start runs with. */
    function BootKey(): string
      reads this
    {
      BootKeyOf(checks, durable, environmentKey)
    }

    /** The database part, in one transaction: the new tables are committed whole or not at all. */
    method RestoreDatabase(p: Payload, cats: set<Category>, faults: Faults) returns (r: Result<()>)
      requires Acceptable(checks, cats, p, processKey) && UniqueZones(tables.zones)
      modifies this`tables
      ensures var touches := cats * IN_DATABASE != {};
        var feasible := TablesFeasible(checks, cats, p, processKey, old(tables));
        && (r.Ok? <==> feasible && (touches ==> !faults.database && !faults.progress))
        && (if feasible && (touches ==> !faults.database)
            then Restored(checks, cats, p, processKey, old(tables), tables) else tables == old(tables))
    {
      hide Restored, TablesFeasible, Acceptable;
      var pending := PendingTables(p, cats);
      if pending.Err? {
        return Err(pending.message);
      }
      if cats * IN_DATABASE != {} && faults.database {
        return Err("database error before or during the commit");
      }
      tables := pending.value;
      if cats * IN_DATABASE != {} && faults.progress {
        return Err("progress could not be written");
      }
      r := Ok(());
    }

    /** The wipes and inserts of the open transaction. */
    method PendingTables(p: Payload, cats: set<Category>) returns (r: Result<Tables>)
      requires Acceptable(checks, cats, p, processKey) && UniqueZones(tables.zones)
      ensures r.Ok? ==> Restored(checks, cats, p, processKey, tables, r.value)
      ensures r.Ok? <==> TablesFeasible(checks, cats, p, processKey, tables)
    {
      FeasibleParts(checks, cats, p, processKey, tables);
      hide Restored, TablesFeasible, Strip, NamesOnce, Acceptable, SettingsFrom, UsersFrom, ZonesFrom, KeysRestored,
        UniqueZones, Indexes, ZonesAcceptable;
      AcceptableUsers(checks, cats, p, processKey);
      var settings :- PlaceSettings(p, cats, tables);
      var users := tables.users;
      if Users in cats {
        users := InsertUsers(p.users);
      }
      var zones :- PlaceZones(p, cats, tables);
      var linked :- PlaceKeys(p, cats, tables, zones.0, zones.1);
      var rules := if AlertRules in cats then p.rules else tables.rules;
      var logs := if ActivityLogs in cats then p.logs else tables.logs;
      var pending := Tables(settings, users, zones.0, linked.0, linked.1, rules, logs);
      AssembleRestored(checks, cats, p, processKey, tables, pending);
      r := Ok(pending);
    }

    method PlaceKeys(p: Payload, cats: set<Category>, before: Tables, zones: map<nat, ZoneRow>,
        byName: map<string, nat>)
      returns (r: Result<(map<nat, KeyRow>, set<(nat, nat)>)>)
      requires Indexes(byName, zones)
      requires if Zones in cats then LiveNames(zones) == NamesOf(p.zones) else zones == before.zones
      ensures r.Ok? ==> if ApiKeys in cats
        then KeysRestored(p.keys, zones, r.value.0, r.value.1)
        else r.value == (before.keys, if Zones in cats then {} else before.links)
      ensures r.Ok? <==> KeysFeasible(cats, p, before)
    {
      hide KeysRestored, NamesOnce, Indexes, LiveNames;
      if ApiKeys in cats {
        r := InsertKeys(p.keys, zones, byName);
      } else {
        r := Ok((before.keys, if Zones in cats then {} else before.links));
      }
    }

    method PlaceSettings(p: Payload, cats: set<Category>, before: Tables) returns (r: Result<map<string, Token>>)
      ensures r.Ok? ==> if Settings in cats
        then SettingsFrom(checks, p.settings, KeptSettings(before.settings), p.SourceKey(), processKey, r.value)
        else r.value == before.settings
      ensures r.Ok? <==> SettingsFeasible(checks, cats, p, processKey)
    {
      hide Strip, Rewrap, SettingsFrom, NamesOnce, RestoredFile;
      if Settings in cats {
        r := InsertSettings(checks, p.settings, KeptSettings(before.settings), p.SourceKey(), processKey);
      } else {
        r := Ok(before.settings);
      }
    }

    method PlaceZones(p: Payload, cats: set<Category>, before: Tables)
      returns (r: Result<(map<nat, ZoneRow>, map<string, nat>)>)
      requires UniqueZones(before.zones) && (Zones in cats ==> ZonesAcceptable(p.zones))
      ensures r.Ok? ==> Indexes(r.value.1, r.value.0)
      ensures r.Ok? ==> if Zones in cats
        then ZonesFrom(checks, p.zones, p.SourceKey(), processKey, r.value.0) &&
          LiveNames(r.value.0) == NamesOf(p.zones)
        else r.value.0 == before.zones
      ensures r.Ok? <==> ZonesFeasible(checks, cats, p, processKey)
    {
      hide Strip, Rewrap, ZonesFrom, NamesOnce, RestoredFile, NamesDiffer, Restorable;
      if Zones in cats {
        assert forall i, j :: 0 <= i < j < |p.zones| ==> Strip(p.zones[i].name) != Strip(p.zones[j].name);
        r := InsertZones(checks, p.zones, p.SourceKey(), processKey);
        if r.Ok? {
          NamesRestored(checks, p.zones, p.SourceKey(), processKey, r.value.0);
        }
      } else {
        var zones := before.zones;
        var ids := zones.Keys;
        var byName: map<string, nat> := map[];
        while ids != {}
          invariant forall n :: n in byName ==> byName[n] in zones && zones[byName[n]].name == n
          invariant forall z :: z in zones ==> z in ids || (zones[z].name in byName && byName[zones[z].name] == z)
          invariant ids <= zones.Keys
          decreases ids
        {
          var z :| z in ids;
          ids, byName := ids - {z}, byName[zones[z].name := z];
        }
        r := Ok((zones, byName));
      }
    }

    /** The certificate files: remove the old ones (a failure is only logged), then write the archived ones in
        place. A failed write may leave any content behind. */
    method RestoreFiles(p: Payload, cats: set<Category>, faults: Faults) returns (r: Result<()>, ghost damage: Damage)
      requires SslFiles in cats
      modifies this`files
      ensures r.Ok? <==> FilesWritable(checks, p, processKey, faults)
      ensures FilesMixed(checks, cats, p, processKey, old(files), files, damage)
      ensures forall n :: n !in SSL_NAMES ==>
        (n in files <==> n in old(files)) && (n in files ==> files[n] == old(files)[n])
      ensures damage != Intact ==>
        && r.Err? && damage.TornFile? && damage.name in p.files && damage.name in SSL_NAMES
        && damage.name in faults.files && faults.files[damage.name].Some?
      ensures r.Ok? ==> FilesRestored(checks, cats, p, processKey, old(files), files)
      ensures r.Ok? ==> forall n :: n in SSL_NAMES && n !in p.files ==>
        (n in files <==> n in old(files) && n in faults.stuck)
    {
      hide RestoredFile, Strip, SSL_NAMES;
      damage := Intact;
      files := map n | n in files && (n !in SSL_NAMES || n in faults.stuck) :: files[n];
      ghost var wiped := files;
      var todo := set n | n in p.files && n in SSL_NAMES;
      while todo != {}
        invariant forall n :: n in todo ==> n in p.files && n in SSL_NAMES
        invariant forall n :: n in files <==> n in wiped || (n in p.files && n in SSL_NAMES && n !in todo)
        invariant forall n :: n in p.files && n in SSL_NAMES && n !in todo ==>
          && n !in faults.files && n in files
          && RestoredFile(checks, n, p.files[n], p.SourceKey(), processKey) == Ok(files[n])
        invariant FilesMixed(checks, cats, p, processKey, old(files), files, Intact)
        invariant forall n :: n in wiped && (n !in p.files || n !in SSL_NAMES) ==> n in files && files[n] == wiped[n]
        decreases todo
      {
        var n :| n in todo;
        todo := todo - {n};
        var file := RestoredFile(checks, n, p.files[n], p.SourceKey(), processKey);
        if file.Err? {
          return Err(file.message), Intact;
        }
        if n in faults.files {
          if faults.files[n].Some? {
            files, damage := files[n := faults.files[n].value], TornFile(n);
          }
          return Err("file could not be written"), damage;
        }
        files := files[n := file.value];
      }
      r := Ok(());
    }

    /** `write_application_secrets`: the durable file is rewritten in place, and then the project's environment
        file; only a failure of the first is reported. */
    method WriteSecrets(secret: string, key: string, faults: Faults) returns (r: Result<()>, ghost damage: Damage)
      modifies this`durable, this`environmentKey
      ensures r.Ok? <==> faults.secrets == None
      ensures r.Ok? ==> durable == Some((secret, key)) && damage == Intact
      ensures r.Ok? ==>
        match faults.environment
        case Rewritten => environmentKey == key
        case Skipped => environmentKey == old(environmentKey)
        case Mangled(other) => environmentKey == other
      ensures r.Err? ==> environmentKey == old(environmentKey)
      ensures r.Err? && faults.secrets.value == None ==> durable == old(durable) && damage == Intact
      ensures r.Err? && faults.secrets.value != None ==>
        damage == TornSecrets && durable.Some? && durable.value.0 <= secret && durable.value.1 <= key
    {
      damage := Intact;
      if faults.secrets.Some? {
        if faults.secrets.value.Some? {
          var (n, m) := faults.secrets.value.value;
          durable := Some((Take(secret, n), Take(key, m)));
          damage := TornSecrets;
        }
        return Err("secrets could not be written"), damage;
      }
      durable := Some((secret, key));
      match faults.environment {
        case Rewritten => environmentKey := key;
        case Skipped =>
        case Mangled(other) => environmentKey := other;
      }
      r := Ok(());
    }

    /** The archive's keys become those of the next start; secrets alone bring new session versions. */
    method AdoptSecrets(p: Payload, cats: set<Category>, faults: Faults, ghost before: Tables) returns (r: Result<()>,
        ghost damage: Damage)
      requires Restored(checks, cats, p, processKey, before, tables)
      requires p.SourceKey() == processKey && processKey != [] && checks.validKey(processKey)
      modifies this`tables, this`durable, this`environmentKey
      ensures Restored(checks, cats, p, processKey, before, tables)
      ensures r.Ok? <==> (Users in cats || !faults.versions) && faults.secrets == None
      ensures r.Ok? ==> durable == Some((Strip(p.secretKey), processKey)) && damage == Intact
      ensures damage == Intact || damage == TornSecrets
      ensures damage != TornSecrets ==> BootKey() == old(BootKey()) || BootKey() == processKey
      ensures OnlyWholeKeys(checks, processKey) ==> BootKey() in {old(BootKey()), processKey, old(environmentKey)}
    {
      hide Restored, Strip;
      if Users !in cats {
        if faults.versions {
          return Err("session versions could not be committed"), Intact;
        }
        ghost var mid := tables;
        var versions: map<string, nat> := *;
        tables := tables.(users := Reversioned(tables.users, versions));
        StillRestored(checks, cats, p, processKey, before, mid, tables);
      }
      r, damage := WriteSecrets(Strip(p.secretKey), p.SourceKey(), faults);
      TornBoot(checks, processKey, durable, environmentKey);
    }

    /** The rest of `restore_payload`, once the archive is validated. */
    method RestoreValidated(p: Payload, cats: set<Category>, faults: Faults) returns (r: Result<bool>,
        ghost damage: Damage)
      requires UniqueZones(tables.zones) && Acceptable(checks, cats, p, processKey)
      modifies this
      ensures !faults.database && !faults.progress && !faults.versions && faults.secrets == None ==>
        faults.files == map[] ==>
        (r.Ok? <==> Feasible(checks, cats, p, processKey, old(tables)))
      ensures unchanged(this) || Restored(checks, cats, p, processKey, old(tables), tables)
      ensures r.Ok? ==> damage == Intact
      ensures r.Ok? ==> Restored(checks, cats, p, processKey, old(tables), tables)
      ensures r.Ok? ==> FilesRestored(checks, cats, p, processKey, old(files), files)
      ensures r.Ok? ==> durable == if Secrets in cats && p.SourceKey() == processKey
                                   then Some((Strip(p.secretKey), processKey)) else old(durable)
      ensures r.Ok? ==> (r.value <==>
        Settings in cats || SslFiles in cats || (Secrets in cats && p.SourceKey() == processKey))
      ensures r.Ok? && SslFiles in cats ==> forall n :: n in SSL_NAMES && n !in p.files ==>
        (n in files <==> n in old(files) && n in faults.stuck)
      ensures FilesMixed(checks, cats, p, processKey, old(files), files, damage)
      ensures forall n :: n !in SSL_NAMES || SslFiles !in cats ==>
        (n in files <==> n in old(files)) && (n in files ==> files[n] == old(files)[n])
      ensures Secrets !in cats ==> durable == old(durable) && environmentKey == old(environmentKey)
      ensures damage != TornSecrets ==> BootKey() == old(BootKey()) || BootKey() == processKey
      ensures OnlyWholeKeys(checks, processKey) ==> BootKey() in {old(BootKey()), processKey, old(environmentKey)}
      ensures old(Consistent(tables)) ==> Consistent(tables)
      ensures old(Coherent(tables, files, processKey)) && ArchiveOpens(p) ==>
        TablesOpen(tables, processKey) && (damage != TornFile(ACME_KEY) ==> Coherent(tables, files, processKey))
    {
      hide Strip, Rewrap, RestoredFile, SettingsFrom, UsersFrom, ZonesFrom, KeysFrom, UsersAcceptable,
        ZonesAcceptable, KeysAcceptable, NamesOnce, Consistent, TablesOpen, AcmeOpens, ArchiveOpens, Acceptable,
        TablesFeasible, Restored, FilesRestored, FilesMixed, StoredRoles;
      damage := Intact;
      NoFilesYet(checks, cats, p, processKey, files);
      AdoptsOwnKey(checks, cats, p, processKey);
      ghost var tables0, files0 := tables, files;
      var done := RestoreDatabase(p, cats, faults);
      AfterRestore(checks, cats, p, processKey, tables0, files0, tables, files, Intact);
      if done.Err? {
        return Err(done.message), Intact;
      }
      var restarting := Settings in cats;
      if SslFiles in cats {
        var written, torn := RestoreFiles(p, cats, faults);
        damage := torn;
        AfterRestore(checks, cats, p, processKey, tables0, files0, tables, files, damage);
        if written.Err? {
          return Err(written.message), damage;
        }
        restarting := true;
      }
      if Secrets in cats {
        var adopt := cats !! FERNET_BACKED || p.SourceKey() == processKey;
        if adopt {
          var adopted, torn := AdoptSecrets(p, cats, faults, tables0);
          AfterRestore(checks, cats, p, processKey, tables0, files0, tables, files, Intact);
          MixedAnyway(checks, cats, p, processKey, files0, files, torn);
          if adopted.Err? {
            return Err(adopted.message), torn;
          }
          restarting := true;
        }
      }
      r := Ok(restarting);
    }

    /** `restore_payload`. */
    method RestorePayload(p: Payload, cats: set<Category>, faults: Faults) returns (r: Result<bool>,
        ghost damage: Damage)
      requires UniqueZones(tables.zones)
      modifies this
      // The call fails and nothing changes, unless all of this holds.
      ensures r.Ok? || !unchanged(this) ==> cats != {} && forall c :: c in cats ==> c in p.included
      ensures r.Ok? || !unchanged(this) ==>
        Secrets in cats || (Settings !in cats && Zones !in cats && SslFiles !in cats)
      ensures (r.Ok? || !unchanged(this)) && Users in cats ==>
        && (forall u :: u in p.users ==> Strip(u.username) != [] && Strip(u.hash) != [] && checks.validHash(u.hash))
        && (forall i, j :: 0 <= i < j < |p.users| ==> Strip(p.users[i].username) != Strip(p.users[j].username))
        && exists u :: u in p.users && !u.disabled && GlobalAdmin in StoredRoles(u.roles)
      ensures (r.Ok? || !unchanged(this)) && Zones in cats ==>
        && (forall z :: z in p.zones ==> Strip(z.name) != [] && z.config != Empty)
        && (forall i, j :: 0 <= i < j < |p.zones| ==> Strip(p.zones[i].name) != Strip(p.zones[j].name))
      ensures (r.Ok? || !unchanged(this)) && ApiKeys in cats ==>
        && (forall k :: k in p.keys ==> k.row.digest != [] && k.row.mode in {"read_only", "read_write"})
        && (forall i, j :: 0 <= i < j < |p.keys| ==> p.keys[i].row.digest != p.keys[j].row.digest)
      ensures (r.Ok? || !unchanged(this)) && Secrets in cats ==>
        && p.sealed && Strip(p.secretKey) != [] && checks.validSecret(Strip(p.secretKey))
        && Strip(p.encryptionKey) != [] && checks.validKey(Strip(p.encryptionKey))
        && (Settings in cats || Zones in cats || SslFiles in cats || Strip(p.encryptionKey) == processKey)
      // When it succeeds, and what it leaves.
      ensures !faults.database && !faults.progress && !faults.versions && faults.secrets == None ==>
        faults.files == map[] ==>
        (r.Ok? <==>
         cats != {} && Acceptable(checks, cats, p, processKey) && Feasible(checks, cats, p, processKey, old(tables)))
      ensures unchanged(this) || Restored(checks, cats, p, processKey, old(tables), tables)
      ensures r.Ok? ==> cats != {} && Acceptable(checks, cats, p, processKey) && damage == Intact
      ensures r.Ok? ==> Restored(checks, cats, p, processKey, old(tables), tables)
      ensures r.Ok? ==> FilesRestored(checks, cats, p, processKey, old(files), files)
      ensures r.Ok? ==> durable == if Secrets in cats && p.SourceKey() == processKey
                                   then Some((Strip(p.secretKey), processKey)) else old(durable)
      ensures r.Ok? ==> (r.value <==>
        Settings in cats || SslFiles in cats || (Secrets in cats && p.SourceKey() == processKey))
      ensures r.Ok? && SslFiles in cats ==> forall n :: n in SSL_NAMES && n !in p.files ==>
        (n in files <==> n in old(files) && n in faults.stuck)
      ensures FilesMixed(checks, cats, p, processKey, old(files), files, damage)
      ensures forall n :: n !in SSL_NAMES || SslFiles !in cats ==>
        (n in files <==> n in old(files)) && (n in files ==> files[n] == old(files)[n])
      ensures Secrets !in cats ==> durable == old(durable) && environmentKey == old(environmentKey)
      ensures damage != TornSecrets ==> BootKey() == old(BootKey()) || BootKey() == processKey
      ensures OnlyWholeKeys(checks, processKey) ==> BootKey() in {old(BootKey()), processKey, old(environmentKey)}
      ensures old(Consistent(tables)) ==> Consistent(tables)
      ensures old(Coherent(tables, files, processKey)) && ArchiveOpens(p) ==>
        TablesOpen(tables, processKey) && (damage != TornFile(ACME_KEY) ==> Coherent(tables, files, processKey))
    {
      hide *;
      damage := Intact;
      Untouched(checks, cats, p, processKey, tables, files);
      if cats == {} {
        return Err("Select at least one category to restore."), Intact;
      }
      var valid := ValidateRestoreRecords(checks, cats, p, processKey);
      if valid.Err? {
        return Err(valid.message), Intact;
      }
      r, damage := RestoreValidated(p, cats, faults);
    }
  }

  /** What holds before anything is done. */
  lemma Untouched(checks: Checks, cats: set<Category>, p: Payload, key: string, tables: Tables,
      files: map<string, File>)
    ensures FilesMixed(checks, cats, p, key, files, files, Intact)
    ensures Coherent(tables, files, key) ==> TablesOpen(tables, key)
  {
    hide RestoredFile, TablesOpen, AcmeOpens;
  }

  lemma TornBoot(checks: Checks, key: string, durable: Option<(string, string)>, environmentKey: string)
    ensures OnlyWholeKeys(checks, key) && durable.Some? && durable.value.1 <= key ==>
      BootKeyOf(checks, durable, environmentKey) in {key, environmentKey}
  {
    if durable.Some? && durable.value.1 <= key && durable.value.1 != key {
      assert durable.value.1 < key;
    }
  }

  lemma MixedAnyway(checks: Checks, cats: set<Category>, p: Payload, key: string, files0: map<string, File>,
      files1: map<string, File>, damage: Damage)
    requires FilesMixed(checks, cats, p, key, files0, files1, Intact)
    ensures FilesMixed(checks, cats, p, key, files0, files1, damage)
  {
    hide RestoredFile;
  }

  function Reversioned(users: map<string, UserRow>, versions: map<string, nat>): map<string, UserRow> {
    map n | n in users :: users[n].(version := if n in versions then versions[n] else 1)
  }

  lemma StillRestored(checks: Checks, cats: set<Category>, p: Payload, dest: string, before: Tables, mid: Tables,
      now: Tables)
    requires Restored(checks, cats, p, dest, before, mid) && Users !in cats
    requires now == mid.(users := now.users) && SameUsers(mid.users, now.users)
    ensures Restored(checks, cats, p, dest, before, now)
  {
    hide SettingsFrom, ZonesFrom, KeysRestored;
  }

  /** Everything that holds whatever point a restore has reached. */
  lemma AfterRestore(checks: Checks, cats: set<Category>, p: Payload, key: string,
      before: Tables, files0: map<string, File>, now: Tables, files1: map<string, File>, damage: Damage)
    requires Acceptable(checks, cats, p, key)
    requires now == before || Restored(checks, cats, p, key, before, now)
    requires FilesMixed(checks, cats, p, key, files0, files1, damage)
    ensures Consistent(before) ==> Consistent(now)
    ensures Coherent(before, files0, key) && ArchiveOpens(p) ==>
      TablesOpen(now, key) && (damage != TornFile(ACME_KEY) ==> AcmeOpens(files1, key))
  {
    hide Acceptable, Consistent, Restored, FilesMixed, TablesOpen, AcmeOpens, ArchiveOpens;
    if now != before && Consistent(before) {
      RestoreKeepsConsistency(checks, cats, p, key, before, now);
    }
    if Coherent(before, files0, key) && ArchiveOpens(p) {
      RestoreKeepsCoherence(checks, cats, p, key, before, files0, now, files1, damage);
    }
  }

  lemma NoFilesYet(checks: Checks, cats: set<Category>, p: Payload, key: string, files: map<string, File>)
    ensures FilesMixed(checks, cats, p, key, files, files, Intact)
    ensures SslFiles !in cats ==> FilesRestored(checks, cats, p, key, files, files)
  {
    hide RestoredFile;
  }

  /** Adopting the archive's keys never changes ENCRYPTION_KEY: it is adopted only when it is this one. */
  lemma AdoptsOwnKey(checks: Checks, cats: set<Category>, p: Payload, processKey: string)
    requires Acceptable(checks, cats, p, processKey)
    ensures Secrets in cats && cats !! FERNET_BACKED ==> p.SourceKey() == processKey
    ensures Secrets in cats ==> checks.validKey(p.SourceKey()) && p.SourceKey() != []
    ensures Secrets !in cats ==> SslFiles !in cats && Settings !in cats
  {
    hide Strip, UsersAcceptable, ZonesAcceptable, KeysAcceptable, FilesAcceptable;
    if SslFiles in cats { assert SslFiles in cats * FERNET_BACKED; }
    if Settings in cats { assert Settings in cats * FERNET_BACKED; }
  }

  lemma AcceptableUsers(checks: Checks, cats: set<Category>, p: Payload, processKey: string)
    requires Acceptable(checks, cats, p, processKey)
    ensures Users in cats ==> forall i, j :: 0 <= i < j < |p.users| ==>
      Strip(p.users[i].username) != Strip(p.users[j].username)
    ensures Zones in cats ==> ZonesAcceptable(p.zones)
  {
    hide Strip, SecretsAcceptable, ZonesAcceptable, KeysAcceptable, FilesAcceptable;
  }

  ghost predicate SettingsFeasible(checks: Checks, cats: set<Category>, p: Payload, dest: string) {
    Settings in cats ==>
      && NamesDiffer(p.settings)
      && forall i :: 0 <= i < |p.settings| && Restorable(p.settings[i].name) ==>
           Rewrap(checks, p.settings[i].value, p.SourceKey(), dest).Ok?
  }

  ghost predicate ZonesFeasible(checks: Checks, cats: set<Category>, p: Payload, dest: string) {
    Zones in cats ==> forall i :: 0 <= i < |p.zones| ==> Rewrap(checks, p.zones[i].config, p.SourceKey(), dest).Ok?
  }

  ghost predicate KeysFeasible(cats: set<Category>, p: Payload, before: Tables) {
    ApiKeys in cats ==> forall i :: 0 <= i < |p.keys| ==>
      NamesOnce(p.keys[i].allowed, if Zones in cats then NamesOf(p.zones) else LiveNames(before.zones))
  }

  lemma FeasibleParts(checks: Checks, cats: set<Category>, p: Payload, dest: string, before: Tables)
    ensures TablesFeasible(checks, cats, p, dest, before) <==>
      SettingsFeasible(checks, cats, p, dest) && ZonesFeasible(checks, cats, p, dest) && KeysFeasible(cats, p, before)
  {
    hide NamesOnce, NamesDiffer, Rewrap, Restorable;
  }

  lemma AssembleRestored(checks: Checks, cats: set<Category>, p: Payload, dest: string, before: Tables, now: Tables)
    requires if Settings in cats
      then SettingsFrom(checks, p.settings, KeptSettings(before.settings), p.SourceKey(), dest, now.settings)
      else now.settings == before.settings
    requires if Users in cats then UsersFrom(p.users, now.users) else now.users == before.users
    requires if Zones in cats
      then ZonesFrom(checks, p.zones, p.SourceKey(), dest, now.zones) else now.zones == before.zones
    requires if ApiKeys in cats then KeysRestored(p.keys, now.zones, now.keys, now.links) else now.keys == before.keys
    requires ApiKeys !in cats ==> now.links == if Zones in cats then {} else before.links
    requires now.rules == (if AlertRules in cats then p.rules else before.rules)
    requires now.logs == (if ActivityLogs in cats then p.logs else before.logs)
    ensures Restored(checks, cats, p, dest, before, now)
  {
    hide SettingsFrom, UsersFrom, ZonesFrom, KeysRestored, Strip;
  }

  lemma NamesRestored(checks: Checks, items: seq<ZoneItem>, source: string, dest: string, now: map<nat, ZoneRow>)
    requires ZonesFrom(checks, items, source, dest, now)
    ensures LiveNames(now) == NamesOf(items)
  {
    hide Rewrap;
    forall n | n in NamesOf(items) ensures n in LiveNames(now) {
      var i :| 0 <= i < |items| && items[i].name == n;
    }
  }
}
