/** Building a backup (src/backup_service.py, lines 329-418). */
module BackupExport {
  import opened Basics
  import opened Text
  import opened Roles
  import opened BackupTables
  import opened BackupLaws
  import opened BackupRestore

  method ListSettings(settings: map<string, Token>) returns (items: seq<SettingItem>)
    ensures SettingsListed(settings, items)
  {
    items := [];
    var rest := set n | n in settings && n != [] && n !in EXCLUDED;
    while rest != {}
      invariant forall n :: n in rest ==> n in settings && n != [] && n !in EXCLUDED
      invariant forall i :: 0 <= i < |items| ==>
        items[i].name in settings && items[i].name != [] && items[i].name !in EXCLUDED
      invariant forall i :: 0 <= i < |items| ==> items[i].value == settings[items[i].name] && items[i].name !in rest
      invariant forall i, j :: 0 <= i < j < |items| ==> items[i].name != items[j].name
      invariant forall n :: n in settings && n != [] && n !in EXCLUDED ==>
        n in rest || SettingItem(n, settings[n]) in items
      decreases rest
    {
      var n :| n in rest;
      items, rest := items + [SettingItem(n, settings[n])], rest - {n};
    }
  }

  method ListUsers(users: map<string, UserRow>) returns (items: seq<UserItem>)
    ensures UsersListed(users, items)
  {
    items := [];
    var rest := users.Keys;
    while rest != {}
      invariant rest <= users.Keys
      invariant forall i :: 0 <= i < |items| ==> items[i].username in users && items[i].username !in rest
      invariant forall i :: 0 <= i < |items| ==> items[i] == ItemOfUser(items[i].username, users[items[i].username])
      invariant forall i, j :: 0 <= i < j < |items| ==> items[i].username != items[j].username
      invariant forall n :: n in users ==> n in rest || ItemOfUser(n, users[n]) in items
      decreases rest
    {
      var n :| n in rest;
      items, rest := items + [ItemOfUser(n, users[n])], rest - {n};
    }
  }

  /** Row ids in the order the database gives them. */
  method ListIds(rows: set<nat>) returns (ids: seq<nat>)
    ensures NoDuplicates(ids) && forall id :: id in rows <==> id in ids
  {
    ids := [];
    var rest := rows;
    while rest != {}
      invariant NoDuplicates(ids) && rest <= rows
      invariant forall id :: id in ids ==> id in rows && id !in rest
      invariant forall id :: id in rows ==> id in rest || id in ids
      decreases rest
    {
      var id :| id in rest;
      ids, rest := ids + [id], rest - {id};
    }
  }

  method ListZones(zones: map<nat, ZoneRow>) returns (items: seq<ZoneItem>)
    ensures ZonesExported(zones, items)
  {
    var ids := ListIds(zones.Keys);
    items := [];
    for i := 0 to |ids|
      invariant |items| == i
      invariant forall k :: 0 <= k < i ==>
        ids[k] in zones && items[k] == ZoneItem(zones[ids[k]].name, zones[ids[k]].config)
    {
      assert ids[i] in ids;
      items := items + [ZoneItem(zones[ids[i]].name, zones[ids[i]].config)];
    }
    assert ZonesListed(zones, items, ids);
  }

  /** The zone names of one key's links. */
  method AllowedNames(t: Tables, key: nat) returns (allowed: seq<string>)
    requires UniqueZones(t.zones)
    ensures NoDuplicates(allowed) && forall n :: n in allowed <==> Linked(t, key, n)
  {
    var zones := set link | link in t.links && link.0 == key && link.1 in t.zones :: link.1;
    assert forall z :: z in zones <==> (key, z) in t.links && z in t.zones by {
      forall z | (key, z) in t.links && z in t.zones ensures z in zones {
        assert (key, z).1 == z;
      }
    }
    var ids := ListIds(zones);
    allowed := [];
    for i := 0 to |ids|
      invariant |allowed| == i
      invariant forall k :: 0 <= k < i ==> ids[k] in t.zones && allowed[k] == t.zones[ids[k]].name
    {
      assert ids[i] in ids;
      allowed := allowed + [t.zones[ids[i]].name];
    }
    forall n ensures n in allowed <==> Linked(t, key, n) {
      if Linked(t, key, n) {
        var z :| (key, z) in t.links && z in t.zones && t.zones[z].name == n;
        assert z in ids;
        var k :| 0 <= k < |ids| && ids[k] == z;
        assert allowed[k] == n;
      }
      if n in allowed {
        var k :| 0 <= k < |allowed| && allowed[k] == n;
        assert ids[k] in ids;
      }
    }
  }

  method ListKeys(t: Tables) returns (items: seq<KeyItem>)
    requires UniqueZones(t.zones)
    ensures KeysExported(t, items)
  {
    hide Linked, UniqueZones;
    var ids := ListIds(t.keys.Keys);
    items := [];
    for i := 0 to |ids|
      invariant |items| == i
      invariant forall k :: 0 <= k < i ==>
        ids[k] in t.keys && items[k].row == t.keys[ids[k]] && NoDuplicates(items[k].allowed)
      invariant forall k, n :: 0 <= k < i ==> (n in items[k].allowed <==> Linked(t, ids[k], n))
    {
      assert ids[i] in ids;
      var allowed := AllowedNames(t, ids[i]);
      items := items + [KeyItem(t.keys[ids[i]], allowed)];
    }
    assert KeysListed(t, items, ids);
  }

  function CertificateFiles(files: map<string, File>): (kept: map<string, File>)
    ensures forall n :: (n in kept <==> n in files && n in SSL_NAMES) && (n in kept ==> kept[n] == files[n])
  {
    map n | n in files && n in SSL_NAMES :: files[n]
  }

  /** `build_payload`, as decoded again from its encrypted envelope. */
  method BuildPayload(t: Tables, files: map<string, File>, cats: set<Category>, secretKey: string,
      key: string) returns (p: Payload)
    requires UniqueZones(t.zones)
    ensures Exported(cats, t, files, secretKey, key, p)
    ensures Settings !in cats ==> p.settings == []
    ensures Users !in cats ==> p.users == []
    ensures Zones !in cats ==> p.zones == []
    ensures ApiKeys !in cats ==> p.keys == []
    ensures SslFiles !in cats ==> p.files == map[]
    ensures AlertRules !in cats ==> p.rules == []
    ensures ActivityLogs !in cats ==> p.logs == []
    ensures Secrets !in cats ==> p.secretKey == p.encryptionKey == ""
  {
    hide SettingsListed, UsersListed, ZonesExported, KeysExported, CertificateFiles, UniqueZones, SSL_NAMES;
    var settings, users, zones, keys := [], [], [], [];
    if Settings in cats {
      settings := ListSettings(t.settings);
    }
    if Users in cats {
      users := ListUsers(t.users);
    }
    if Zones in cats {
      zones := ListZones(t.zones);
    }
    if ApiKeys in cats {
      keys := ListKeys(t);
    }
    p := Payload(
      cats, true, if Secrets in cats then secretKey else "", if Secrets in cats then key else "",
      settings, users, zones, keys, if AlertRules in cats then t.rules else [],
      if SslFiles in cats then CertificateFiles(files) else map[], if ActivityLogs in cats then t.logs else []);
  }

  /** Backup of one healthy installation restored into another, end to end: without I/O faults it fails only
      for a selection that is empty or not portable, and it reproduces everything selected; what the other
      installation kept true of its data stays true. */
  method Migrate(t: Tables, files: map<string, File>, cats: set<Category>, secretKey: string, key: string,
      target: Installation, faults: Faults)
    returns (r: Result<bool>)
    requires Healthy(target.checks, t, files, secretKey, key) && UniqueZones(target.tables.zones)
    modifies target
    ensures !faults.database && !faults.progress && !faults.versions && faults.secrets == None ==>
      faults.files == map[] ==>
      (r.Ok? <==> cats != {} && Portable(cats, key, target.processKey))
    ensures r.Ok? && Settings in cats ==> forall n :: n != [] && n !in EXCLUDED ==>
      && (n in t.settings <==> n in target.tables.settings)
      && (n in t.settings ==> Decrypt(key, t.settings[n]) == Decrypt(target.processKey, target.tables.settings[n]))
    ensures r.Ok? && Users in cats ==> target.tables.users.Keys == t.users.Keys && forall n :: n in t.users ==>
      var a, b := t.users[n], target.tables.users[n];
      a.hash == b.hash && a.disabled == b.disabled && StoredRoles(b.roles) == Cleaned(StoredRoles(a.roles))
    ensures r.Ok? && Zones in cats ==> forall y :: y in t.zones ==> exists z ::
      && z in target.tables.zones && target.tables.zones[z].name == t.zones[y].name
      && Decrypt(key, t.zones[y].config) == Decrypt(target.processKey, target.tables.zones[z].config)
    ensures r.Ok? && Zones in cats ==> LiveNames(target.tables.zones) == LiveNames(t.zones)
    ensures r.Ok? && ApiKeys in cats ==> SameKeys(t, target.tables)
    ensures r.Ok? && AlertRules in cats ==> target.tables.rules == t.rules
    ensures r.Ok? && ActivityLogs in cats ==> target.tables.logs == t.logs
    ensures r.Ok? && SslFiles in cats ==> forall n :: n in SSL_NAMES && n in files ==>
      && n in target.files && (n != ACME_KEY || !files[n].Wrapped? ==> target.files[n] == files[n])
      && (n == ACME_KEY && files[n].Wrapped? ==>
            && target.files[n].Wrapped?
            && Decrypt(key, files[n].token) == Decrypt(target.processKey, target.files[n].token))
    ensures r.Ok? && SslFiles in cats ==> forall n :: n in SSL_NAMES && n !in files ==>
      (n in target.files <==> n in old(target.files) && n in faults.stuck)
    ensures r.Ok? && Secrets in cats && key == target.processKey ==> target.durable == Some((Strip(secretKey), key))
    ensures old(Consistent(target.tables)) ==> Consistent(target.tables)
    ensures r.Ok? && old(Coherent(target.tables, target.files, target.processKey)) ==>
      Coherent(target.tables, target.files, target.processKey)
  {
    hide Healthy, Exported, Acceptable, Feasible, Restored, FilesRestored, FilesMixed, Consistent, Coherent,
      ArchiveOpens, SameSettings, SameAccounts, SameZones, SameKeys, SameFile, Portable, SSL_NAMES, EXCLUDED,
      StoredRoles, Cleaned, LiveNames, UniqueZones, Decrypt;
    HealthyIsUnique(target.checks, t, files, secretKey, key);
    var p := BuildPayload(t, files, cats, secretKey, key);
    ExportIsRestorable(target.checks, cats, t, files, secretKey, key, p, target.processKey, target.tables);
    SourceKeyOf(target.checks, cats, t, files, secretKey, key, p);
    ghost var before, files0 := target.tables, target.files;
    ghost var damage;
    r, damage := target.RestorePayload(p, cats, faults);
    if r.Ok? {
      NeedsSecrets(target.checks, cats, p, target.processKey);
      ExportOpens(target.checks, cats, t, files, secretKey, key, p);
      RoundTrip(target.checks, cats, t, files, secretKey, key, p, target.processKey, before, target.tables);
      ExportedFiles(cats, t, files, secretKey, key, p);
      if SslFiles in cats {
        AllFilesRoundTrip(target.checks, cats, t, files, secretKey, key, p, target.processKey, files0, target.files);
      }
      SameTables(cats, t, key, target.processKey, target.tables);
    }
  }

  lemma SameTables(cats: set<Category>, t: Tables, key: string, dest: string, now: Tables)
    requires Settings in cats ==> SameSettings(key, t.settings, dest, now.settings)
    requires Users in cats ==> SameAccounts(t.users, now.users)
    requires Zones in cats ==> SameZones(key, t.zones, dest, now.zones)
    ensures Settings in cats ==> forall n :: n != [] && n !in EXCLUDED ==>
      && (n in t.settings <==> n in now.settings)
      && (n in t.settings ==> Decrypt(key, t.settings[n]) == Decrypt(dest, now.settings[n]))
    ensures Users in cats ==> now.users.Keys == t.users.Keys && forall n :: n in t.users ==>
      var a, b := t.users[n], now.users[n];
      a.hash == b.hash && a.disabled == b.disabled && StoredRoles(b.roles) == Cleaned(StoredRoles(a.roles))
    ensures Zones in cats ==> forall y :: y in t.zones ==> exists z ::
      && z in now.zones && now.zones[z].name == t.zones[y].name
      && Decrypt(key, t.zones[y].config) == Decrypt(dest, now.zones[z].config)
  {
    hide StoredRoles, Cleaned, EXCLUDED, Decrypt;
    if Zones in cats {
      assert forall y :: y in t.zones ==> ZoneWithin(key, t.zones[y], dest, now.zones);
    }
  }

  lemma ExportedFiles(cats: set<Category>, t: Tables, files: map<string, File>, secretKey: string, key: string,
      p: Payload)
    requires Exported(cats, t, files, secretKey, key, p)
    ensures SslFiles in cats ==> forall n :: n in SSL_NAMES ==> (n in p.files <==> n in files)
    ensures Secrets in cats ==> p.secretKey == secretKey
  {
    hide SettingsListed, UsersListed, ZonesExported, KeysExported;
  }

  lemma AllFilesRoundTrip(checks: Checks, cats: set<Category>, t: Tables, files: map<string, File>, secretKey: string,
      key: string,
      p: Payload, dest: string, before: map<string, File>, now: map<string, File>)
    requires Healthy(checks, t, files, secretKey, key) && Exported(cats, t, files, secretKey, key, p)
    requires SslFiles in cats
    requires Acceptable(checks, cats, p, dest) && FilesRestored(checks, cats, p, dest, before, now)
    ensures forall n :: n in SSL_NAMES && n in files ==>
      && n in now && (n != ACME_KEY || !files[n].Wrapped? ==> now[n] == files[n])
      && (n == ACME_KEY && files[n].Wrapped? ==>
            now[n].Wrapped? && Decrypt(key, files[n].token) == Decrypt(dest, now[n].token))
  {
    NeedsSecrets(checks, cats, p, dest);
    hide Healthy, Exported, FilesRestored, Acceptable, SSL_NAMES;
    forall n | n in SSL_NAMES && n in files ensures n in now && SameFile(key, n, files[n], dest, now[n]) {
      FilesRoundTrip(checks, cats, t, files, secretKey, key, p, dest, before, now, n);
    }
  }

  lemma HealthyIsUnique(checks: Checks, t: Tables, files: map<string, File>, secretKey: string, key: string)
    requires Healthy(checks, t, files, secretKey, key)
    ensures UniqueZones(t.zones)
  {
    hide Coherent, UniqueZones, Strip;
  }
}
