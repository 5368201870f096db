/** What holds of every restore, and of restoring an export (src/backup_service.py). */
module BackupLaws {
  import opened Basics
  import opened Text
  import opened Roles
  import opened BackupTables

  // ---------------------------------------------------------------- every restore

  /** What a failed write may leave damaged: nothing, one certificate file, or the secrets file. */
  datatype Damage = Intact | TornFile(name: string) | TornSecrets

  /** Each certificate file but a torn one is an old one or the archive's, re-wrapped: also midway. */
  ghost predicate FilesMixed(checks: Checks, cats: set<Category>, p: Payload, dest: string, before: map<string, File>,
      now: map<string, File>, damage: Damage)
  {
    forall n :: n in now && damage != TornFile(n) ==>
      (n in before && now[n] == before[n])
      || (SslFiles in cats && n in p.files && RestoredFile(checks, n, p.files[n], p.SourceKey(), dest) == Ok(now[n]))
  }

  /** The archive's tokens are readable with the key it carries. */
  ghost predicate ArchiveOpens(p: Payload) {
    && (forall i :: 0 <= i < |p.settings| ==> Opens(p.SourceKey(), p.settings[i].value))
    && (forall i :: 0 <= i < |p.zones| ==> Opens(p.SourceKey(), p.zones[i].config))
    && (ACME_KEY in p.files && p.files[ACME_KEY].Wrapped? ==> Opens(p.SourceKey(), p.files[ACME_KEY].token))
  }

  lemma RewrapOpens(checks: Checks, token: Token, source: string, dest: string)
    requires Opens(source, token) && Rewrap(checks, token, source, dest).Ok?
    ensures Opens(dest, Rewrap(checks, token, source, dest).value)
  {
  }

  /** Key coherence: whatever point a restore reached, the tables open under this installation's key, and so
      does the ACME account key unless its own write was torn. */
  lemma RestoreKeepsCoherence(checks: Checks, cats: set<Category>, p: Payload, key: string,
      before: Tables, files0: map<string, File>, now: Tables, files1: map<string, File>, damage: Damage)
    requires Coherent(before, files0, key) && ArchiveOpens(p)
    requires now == before || Restored(checks, cats, p, key, before, now)
    requires FilesMixed(checks, cats, p, key, files0, files1, damage)
    ensures TablesOpen(now, key) && (damage != TornFile(ACME_KEY) ==> AcmeOpens(files1, key))
  {
    hide Rewrap, Opens, Strip, UsersFrom, KeysRestored;
    if now != before {
      SettingsOpen(checks, cats, p, key, before, now);
      ZonesOpen(checks, cats, p, key, before, now);
    }
    if damage != TornFile(ACME_KEY) && ACME_KEY in files1 &&
      !(ACME_KEY in files0 && files1[ACME_KEY] == files0[ACME_KEY]) {
      var file := p.files[ACME_KEY];
      if !file.Pem? {
        RewrapOpens(checks, file.token, p.SourceKey(), key);
      }
    }
  }

  /** After a write of the ACME account key that stopped partway, whatever it left, coherence remains exactly
      when that is still a PEM text, or a token that is empty or sealed under this installation's key. */
  lemma TornKeyFileCoherence(checks: Checks, cats: set<Category>, p: Payload, key: string,
      before: Tables, files0: map<string, File>, now: Tables, files1: map<string, File>)
    requires Coherent(before, files0, key) && ArchiveOpens(p)
    requires now == before || Restored(checks, cats, p, key, before, now)
    requires FilesMixed(checks, cats, p, key, files0, files1, TornFile(ACME_KEY)) && ACME_KEY in files1
    ensures Coherent(now, files1, key) <==>
      match files1[ACME_KEY]
      case Pem(_) => true
      case Wrapped(token) => token == Empty || (token.Sealed? && token.key == key)
      case Bytes(_) => false
  {
    RestoreKeepsCoherence(checks, cats, p, key, before, files0, now, files1, TornFile(ACME_KEY));
    hide TablesOpen;
  }

  /** No part of the key passes for a key, as for Fernet keys, whose length is fixed. */
  ghost predicate OnlyWholeKeys(checks: Checks, key: string) {
    forall part :: part < key ==> !checks.validKey(part)
  }

  lemma KeysOfOneLengthAreWhole(checks: Checks, key: string)
    requires forall other :: checks.validKey(other) ==> |other| == |key|
    ensures OnlyWholeKeys(checks, key)
  {
    forall part | part < key ensures !checks.validKey(part) {
      assert |part| < |key|;
    }
  }

  /** A write of the secrets file that stops partway makes the next start fall back to the environment's key. */
  lemma TornSecretsFallBack(checks: Checks, key: string, environmentKey: string, secret: string, part: string)
    requires OnlyWholeKeys(checks, key) && part <= key
    ensures BootKeyOf(checks, Some((secret, part)), environmentKey) ==
      if part == key && key != [] && checks.validKey(key) then key else environmentKey
  {
    if part != key {
      assert part < key;
    }
  }

  lemma SettingsOpen(checks: Checks, cats: set<Category>, p: Payload, key: string, before: Tables, now: Tables)
    requires Restored(checks, cats, p, key, before, now) && ArchiveOpens(p)
    requires forall n :: n in before.settings ==> Opens(key, before.settings[n])
    ensures forall n :: n in now.settings ==> Opens(key, now.settings[n])
  {
    hide Rewrap, Opens, Strip, UsersFrom, ZonesFrom, KeysRestored;
    if Settings in cats {
      forall n | n in now.settings && n !in KeptSettings(before.settings) ensures Opens(key, now.settings[n]) {
        var i :| 0 <= i < |p.settings| && Restorable(p.settings[i].name) && Strip(p.settings[i].name) == n;
        RewrapOpens(checks, p.settings[i].value, p.SourceKey(), key);
      }
    }
  }

  lemma ZonesOpen(checks: Checks, cats: set<Category>, p: Payload, key: string, before: Tables, now: Tables)
    requires Restored(checks, cats, p, key, before, now) && ArchiveOpens(p)
    requires forall z :: z in before.zones ==> Opens(key, before.zones[z].config)
    ensures forall z :: z in now.zones ==> Opens(key, now.zones[z].config)
  {
    hide Rewrap, Opens, Strip, SettingsFrom, UsersFrom, KeysRestored;
    if Zones in cats {
      forall z | z in now.zones ensures Opens(key, now.zones[z].config) {
        var i :| 0 <= i < |p.zones| && p.zones[i].name == now.zones[z].name;
        assert ZonePresent(checks, p.zones[i], p.SourceKey(), key, now.zones);
        RewrapOpens(checks, p.zones[i].config, p.SourceKey(), key);
      }
    }
  }

  /** A restore leaves what is not selected: only session versions may change, and links to replaced zones go. */
  lemma UnselectedStays(checks: Checks, cats: set<Category>, p: Payload, dest: string, before: Tables, now: Tables)
    requires Restored(checks, cats, p, dest, before, now)
    ensures Settings !in cats ==> now.settings == before.settings
    ensures Users !in cats ==> now.users.Keys == before.users.Keys && forall n :: n in before.users ==>
      var a, b := before.users[n], now.users[n]; a.hash == b.hash && a.roles == b.roles && a.disabled == b.disabled
    ensures Zones !in cats ==> now.zones == before.zones
    ensures ApiKeys !in cats ==> now.keys == before.keys && now.links == if Zones in cats then {} else before.links
    ensures now.rules == if AlertRules in cats then p.rules else before.rules
    ensures now.logs == if ActivityLogs in cats then p.logs else before.logs
  {
    hide Strip, Rewrap, StoredRoles, SerializeRoles;
  }

  /** Of the settings before only the progress marker stays; each archived one arrives, with the same token for the
      same key and otherwise with the same text under this installation's key. */
  lemma SettingsArrive(checks: Checks, cats: set<Category>, p: Payload, dest: string, before: Tables, now: Tables)
    requires Restored(checks, cats, p, dest, before, now) && Settings in cats
    ensures forall n :: n in now.settings <==>
      (n == PROGRESS && n in before.settings)
      || exists i :: 0 <= i < |p.settings| && Strip(p.settings[i].name) == n && n != [] && n !in EXCLUDED
    ensures PROGRESS in before.settings ==> now.settings[PROGRESS] == before.settings[PROGRESS]
    ensures forall i :: 0 <= i < |p.settings| ==>
      var name, token := Strip(p.settings[i].name), p.settings[i].value;
      name != [] && name !in EXCLUDED ==>
      && name in now.settings && (Strip(p.encryptionKey) == dest ==> now.settings[name] == token)
      && (Strip(p.encryptionKey) != dest && token != Empty ==>
            && Decrypt(dest, now.settings[name]).Some?
            && Decrypt(dest, now.settings[name]) == Decrypt(Strip(p.encryptionKey), token))
  {
    hide Strip, StoredRoles, SerializeRoles, UsersFrom, ZonesFrom, KeysRestored, EXCLUDED;
    var source := p.SourceKey();
    forall i | 0 <= i < |p.settings| && Restorable(p.settings[i].name)
      ensures Strip(p.settings[i].name) in now.settings
      ensures Rewrap(checks, p.settings[i].value, source, dest) == Ok(now.settings[Strip(p.settings[i].name)])
    {
    }
  }

  /** The accounts are exactly the archived ones, each with its hash and state, and with its roles completed. */
  lemma UsersArrive(checks: Checks, cats: set<Category>, p: Payload, dest: string, before: Tables, now: Tables)
    requires Restored(checks, cats, p, dest, before, now) && Users in cats
    ensures forall n :: n in now.users <==> exists i :: 0 <= i < |p.users| && Strip(p.users[i].username) == n
    ensures forall i :: 0 <= i < |p.users| ==> Strip(p.users[i].username) in now.users
    ensures forall i, role: Role :: 0 <= i < |p.users| ==>
      var item, row := p.users[i], now.users[Strip(p.users[i].username)];
      && row.hash == item.hash && row.disabled == item.disabled
      && (role in StoredRoles(row.roles) <==>
          role in StoredRoles(item.roles) || role == DnsZonesRead || GlobalAdmin in StoredRoles(item.roles))
  {
    hide Strip, StoredRoles, SerializeRoles, SettingsFrom, ZonesFrom, KeysRestored;
    forall i, role: Role | 0 <= i < |p.users| ensures
      var item, row := p.users[i], now.users[Strip(p.users[i].username)];
      && row.hash == item.hash && row.disabled == item.disabled
      && (role in StoredRoles(row.roles) <==>
          role in StoredRoles(item.roles) || role == DnsZonesRead || GlobalAdmin in StoredRoles(item.roles))
    {
      EveryRole(role);
      StoredRolesReadBack(StoredRoles(p.users[i].roles));
      assert UserRestored(p.users[i], now.users[Strip(p.users[i].username)]);
    }
  }

  /** So are the zones, each configuration the same token for the same key and otherwise the same text, ... */
  lemma ZonesArrive(checks: Checks, cats: set<Category>, p: Payload, dest: string, before: Tables, now: Tables)
    requires Restored(checks, cats, p, dest, before, now) && Zones in cats
    ensures forall z :: z in now.zones ==> exists i :: 0 <= i < |p.zones| && p.zones[i].name == now.zones[z].name
    ensures forall a, b :: a in now.zones && b in now.zones && now.zones[a].name == now.zones[b].name ==> a == b
  {
    hide Strip, Rewrap, StoredRoles, SerializeRoles, SettingsFrom, UsersFrom, KeysRestored;
  }

  lemma ZoneArrives(checks: Checks, cats: set<Category>, p: Payload, dest: string, before: Tables, now: Tables, i: nat)
    requires Restored(checks, cats, p, dest, before, now) && Zones in cats && i < |p.zones|
    ensures exists z ::
      var source, token := Strip(p.encryptionKey), p.zones[i].config;
      && z in now.zones && now.zones[z].name == p.zones[i].name
      && (source == dest ==> now.zones[z].config == token)
      && (source != dest && token != Empty ==>
            && Decrypt(dest, now.zones[z].config).Some?
            && Decrypt(dest, now.zones[z].config) == Decrypt(source, token))
  {
    hide Strip, StoredRoles, SerializeRoles, SettingsFrom, UsersFrom, KeysRestored;
    assert ZonePresent(checks, p.zones[i], p.SourceKey(), dest, now.zones);
  }

  /** ... and the keys, each linked to exactly the live zones that it names. */
  lemma KeysArrive(checks: Checks, cats: set<Category>, p: Payload, dest: string, before: Tables, now: Tables)
    requires Restored(checks, cats, p, dest, before, now) && ApiKeys in cats
    ensures |now.keys| == |p.keys|
    ensures forall link :: link in now.links ==> link.0 in now.keys && link.1 in now.zones
  {
    hide Strip, StoredRoles, SerializeRoles, SettingsFrom, UsersFrom, ZonesFrom, KeysFrom;
    var ids: seq<nat> :| KeysFrom(p.keys, ids, now.zones, now.keys, now.links);
    KeysAre(p.keys, ids, now);
  }

  lemma KeyArrives(checks: Checks, cats: set<Category>, p: Payload, dest: string, before: Tables, now: Tables, i: nat)
    requires Restored(checks, cats, p, dest, before, now) && ApiKeys in cats && i < |p.keys|
    ensures exists k ::
      && k in now.keys && now.keys[k] == p.keys[i].row
      && forall z :: z in now.zones ==> ((k, z) in now.links <==> now.zones[z].name in p.keys[i].allowed)
  {
    hide Strip, StoredRoles, SerializeRoles, SettingsFrom, UsersFrom, ZonesFrom;
    var ids: seq<nat> :| KeysFrom(p.keys, ids, now.zones, now.keys, now.links);
    assert ids[i] in now.keys && now.keys[ids[i]] == p.keys[i].row;
  }

  /** The archived certificate files arrive as they are, only the ACME account key with the same text under this
      installation's key; no other file changes. */
  lemma FilesArrive(checks: Checks, cats: set<Category>, p: Payload, dest: string, before: map<string, File>,
      now: map<string, File>)
    requires FilesRestored(checks, cats, p, dest, before, now)
    ensures SslFiles !in cats ==> now == before
    ensures forall n :: n in now && n !in p.files ==> n in before && now[n] == before[n]
    ensures forall n :: n in before && n !in SSL_NAMES ==> n in now && now[n] == before[n]
    ensures SslFiles in cats ==> forall n :: n in p.files && n in SSL_NAMES ==>
      var file := p.files[n];
      && n in now && (n != ACME_KEY || file.Pem? ==> now[n] == file)
      && (n == ACME_KEY && !file.Pem? ==>
            && file.Wrapped? && now[n].Wrapped? && (Strip(p.encryptionKey) == dest ==> now[n] == file)
            && (Strip(p.encryptionKey) != dest && file.token != Empty ==>
                  && Decrypt(dest, now[n].token).Some?
                  && Decrypt(dest, now[n].token) == Decrypt(Strip(p.encryptionKey), file.token)))
  {
    hide Strip;
  }

  lemma KeysAre(items: seq<KeyItem>, ids: seq<nat>, now: Tables)
    requires KeysFrom(items, ids, now.zones, now.keys, now.links)
    ensures |now.keys| == |items| && forall link :: link in now.links ==> link.0 in now.keys && link.1 in now.zones
  {
    assert now.keys.Keys == Elements(ids);
    DistinctCount(ids);
  }

  /** Names stay unique, and every key-zone link joins a live key and a live zone. */
  lemma RestoreKeepsConsistency(checks: Checks, cats: set<Category>, p: Payload, key: string, before: Tables,
      now: Tables)
    requires Acceptable(checks, cats, p, key) && Consistent(before) && Restored(checks, cats, p, key, before, now)
    ensures Consistent(now)
  {
    hide Rewrap, Strip, SettingsFrom, UsersFrom, KeysFrom, UsersAcceptable, ZonesAcceptable, KeysAcceptable,
      FilesAcceptable, SecretsAcceptable, ZonePresent, UniqueKeys;
    if ApiKeys in cats {
      var ids :| KeysFrom(p.keys, ids, now.zones, now.keys, now.links);
      KeysConsistent(p.keys, ids, now);
    }
  }

  lemma KeysConsistent(items: seq<KeyItem>, ids: seq<nat>, now: Tables)
    requires KeysAcceptable(items) && KeysFrom(items, ids, now.zones, now.keys, now.links)
    ensures UniqueKeys(now.keys) && forall link :: link in now.links ==> link.0 in now.keys && link.1 in now.zones
  {
    forall a, b | a in now.keys && b in now.keys && now.keys[a].digest == now.keys[b].digest ensures a == b {
      var i, j :| 0 <= i < |ids| && ids[i] == a && 0 <= j < |ids| && ids[j] == b;
    }
  }

  /** A restore of users leaves an enabled global admin, after the stored text is read back. */
  lemma RestoreKeepsAnAdmin(checks: Checks, cats: set<Category>, p: Payload, key: string, before: Tables, now: Tables)
    requires Acceptable(checks, cats, p, key) && Restored(checks, cats, p, key, before, now) && Users in cats
    ensures exists n ::
      n in now.users && !now.users[n].disabled && GlobalAdmin in Effective(StoredRoles(now.users[n].roles))
  {
    hide Strip, SettingsFrom, ZonesFrom, KeysRestored, ZonesAcceptable, KeysAcceptable, FilesAcceptable,
      SecretsAcceptable, StoredRoles, SerializeRoles;
    var i :| 0 <= i < |p.users| && ActiveAdmin(p.users[i]);
    StoredRolesReadBack(StoredRoles(p.users[i].roles));
    EveryRole(GlobalAdmin);
    var n := Strip(p.users[i].username);
    assert UserRestored(p.users[i], now.users[n]);
    assert n in now.users && !now.users[n].disabled && GlobalAdmin in Effective(StoredRoles(now.users[n].roles));
  }

  /** The running restore's own progress marker is neither deleted nor overwritten. */
  lemma RestoreKeepsProgress(checks: Checks, cats: set<Category>, p: Payload, key: string, before: Tables, now: Tables)
    requires Restored(checks, cats, p, key, before, now)
    ensures PROGRESS in now.settings <==> PROGRESS in before.settings
    ensures PROGRESS in before.settings ==> now.settings[PROGRESS] == before.settings[PROGRESS]
  {
    hide Rewrap, Strip, UsersFrom, ZonesFrom, KeysRestored;
    assert PROGRESS in EXCLUDED;
  }

  // ---------------------------------------------------------------- exports

  ghost predicate SettingsListed(settings: map<string, Token>, items: seq<SettingItem>) {
    && (forall i :: 0 <= i < |items| ==> items[i].name in settings && items[i].name != [] && items[i].name !in EXCLUDED)
    && (forall i :: 0 <= i < |items| ==> items[i].value == settings[items[i].name])
    && (forall i, j :: 0 <= i < j < |items| ==> items[i].name != items[j].name)
    && (forall n :: n in settings && n != [] && n !in EXCLUDED ==> SettingItem(n, settings[n]) in items)
  }

  ghost predicate UsersListed(users: map<string, UserRow>, items: seq<UserItem>) {
    && (forall i :: 0 <= i < |items| ==>
          items[i].username in users && items[i] == ItemOfUser(items[i].username, users[items[i].username]))
    && (forall i, j :: 0 <= i < j < |items| ==> items[i].username != items[j].username)
    && (forall n :: n in users ==> ItemOfUser(n, users[n]) in items)
  }

  function ItemOfUser(name: string, row: UserRow): UserItem {
    UserItem(name, row.hash, row.roles, row.disabled)
  }

  ghost predicate ZonesListed(zones: map<nat, ZoneRow>, items: seq<ZoneItem>, ids: seq<nat>) {
    && |ids| == |items| && NoDuplicates(ids)
    && (forall z :: z in zones <==> z in ids)
    && (forall i :: 0 <= i < |items| ==>
          ids[i] in zones && items[i] == ZoneItem(zones[ids[i]].name, zones[ids[i]].config))
  }

  /** The key may use the zone of that name. */
  ghost predicate Linked(t: Tables, key: nat, name: string) {
    exists z :: (key, z) in t.links && z in t.zones && t.zones[z].name == name
  }

  ghost predicate KeysListed(t: Tables, items: seq<KeyItem>, ids: seq<nat>) {
    && |ids| == |items| && NoDuplicates(ids)
    && (forall k :: k in t.keys <==> k in ids)
    && (forall i :: 0 <= i < |items| ==> ids[i] in t.keys && items[i].row == t.keys[ids[i]])
    && (forall i :: 0 <= i < |items| ==> NoDuplicates(items[i].allowed))
    && (forall i, n :: 0 <= i < |items| ==> (n in items[i].allowed <==> Linked(t, ids[i], n)))
  }

  ghost predicate ZonesExported(zones: map<nat, ZoneRow>, items: seq<ZoneItem>) {
    exists ids :: ZonesListed(zones, items, ids)
  }

  ghost predicate KeysExported(t: Tables, items: seq<KeyItem>) {
    exists ids :: KeysListed(t, items, ids)
  }

  /** `build_payload` of the selected categories, inside an encrypted envelope. */
  ghost predicate Exported(cats: set<Category>, t: Tables, files: map<string, File>, secretKey: string, key: string,
      p: Payload) {
    && p.included == cats && p.sealed
    && (Secrets in cats ==> p.secretKey == secretKey && p.encryptionKey == key)
    && (Settings in cats ==> SettingsListed(t.settings, p.settings))
    && (Users in cats ==> UsersListed(t.users, p.users))
    && (Zones in cats ==> ZonesExported(t.zones, p.zones))
    && (ApiKeys in cats ==> KeysExported(t, p.keys))
    && (AlertRules in cats ==> p.rules == t.rules)
    && (ActivityLogs in cats ==> p.logs == t.logs)
    && (SslFiles in cats ==>
          forall n :: (n in p.files <==> n in files && n in SSL_NAMES) && (n in p.files ==> p.files[n] == files[n]))
  }

  /** What the application keeps true of its own data. */
  ghost predicate Healthy(checks: Checks, t: Tables, files: map<string, File>, secretKey: string, key: string) {
    && Consistent(t) && Coherent(t, files, key)
    && (forall n :: n in t.settings ==> Strip(n) == n)
    && (forall n :: n in t.users ==>
          n != [] && Strip(n) == n && Strip(t.users[n].hash) != [] && checks.validHash(t.users[n].hash))
    && (exists n :: n in t.users && !t.users[n].disabled && GlobalAdmin in Effective(StoredRoles(t.users[n].roles)))
    && (forall z :: z in t.zones ==>
          t.zones[z].name != [] && Strip(t.zones[z].name) == t.zones[z].name && t.zones[z].config != Empty)
    && (forall k :: k in t.keys ==> t.keys[k].digest != [] && t.keys[k].mode in {"read_only", "read_write"})
    && FilesAcceptable(files)
    && Strip(secretKey) != [] && checks.validSecret(Strip(secretKey))
    && key != [] && Strip(key) == key && checks.validKey(key)
  }

  /** A fresh installation with one account is healthy. */
  lemma FreshInstallationIsHealthy(admin: string, hash: string, key: string)
    requires admin != [] && Strip(admin) == admin && Strip(hash) != [] && key != [] && Strip(key) == key
    ensures
      var users := map[admin := UserRow(hash, SerializeRoles({GlobalAdmin}), false, 0)];
      Healthy(Checks(_ => true, _ => true, _ => true), Tables(map[], users, map[], map[], {}, [], []), map[], key, key)
  {
    hide Strip, SerializeRoles, StoredRoles;
    StoredRolesReadBack({GlobalAdmin});
    EveryRole(GlobalAdmin);
    var users := map[admin := UserRow(hash, SerializeRoles({GlobalAdmin}), false, 0)];
    assert admin in users && GlobalAdmin in Effective(StoredRoles(users[admin].roles));
  }

  /** The selections of an export that another installation takes. */
  /** An export can be read with the key it carries. */
  lemma ExportOpens(checks: Checks, cats: set<Category>, t: Tables, files: map<string, File>, secretKey: string,
      key: string, p: Payload)
    requires Healthy(checks, t, files, secretKey, key) && Exported(cats, t, files, secretKey, key, p)
    requires Settings !in cats ==> p.settings == []
    requires Zones !in cats ==> p.zones == []
    requires SslFiles !in cats ==> p.files == map[]
    requires Settings in cats || Zones in cats || SslFiles in cats ==> Secrets in cats
    ensures ArchiveOpens(p)
  {
    hide Opens, UsersListed, KeysExported, StoredRoles, Effective;
    if Secrets in cats {
      assert p.SourceKey() == key;
    }
    hide Strip;
    if Zones in cats {
      var ids :| ZonesListed(t.zones, p.zones, ids);
      assert forall i :: 0 <= i < |p.zones| ==> ids[i] in t.zones && p.zones[i].config == t.zones[ids[i]].config;
    }
  }

  predicate Portable(cats: set<Category>, key: string, dest: string) {
    if cats !! FERNET_BACKED then Secrets in cats ==> key == dest else Secrets in cats
  }

  /** An export of a healthy installation passes validation anywhere, unless settings, zones or certificate
      files come without the secrets, or the secrets alone bring another ENCRYPTION_KEY; and nothing in it
      stops its restore. */
  lemma ExportIsRestorable(checks: Checks, cats: set<Category>, t: Tables, files: map<string, File>, secretKey: string,
      key: string,
      p: Payload, dest: string, before: Tables)
    requires Healthy(checks, t, files, secretKey, key) && Exported(cats, t, files, secretKey, key, p)
    ensures Acceptable(checks, cats, p, dest) <==> Portable(cats, key, dest)
    ensures Portable(cats, key, dest) ==> Feasible(checks, cats, p, dest, before)
  {
    hide Strip, StoredRoles, Effective, Rewrap, UsersAcceptable, ZonesAcceptable, KeysAcceptable, FilesAcceptable,
      SettingsListed, UsersListed, ZonesListed, KeysListed, Consistent, Feasible, RestoredFile;
    if Users in cats {
      UsersPass(checks, t, files, secretKey, key, p.users);
    }
    if Zones in cats {
      var ids :| ZonesListed(t.zones, p.zones, ids);
      ZonesPass(checks, t, files, secretKey, key, p.zones, ids, dest);
    }
    if ApiKeys in cats {
      var ids :| KeysListed(t, p.keys, ids);
      KeysPass(checks, t, files, secretKey, key, p.keys, ids);
    }
    if SslFiles in cats {
      FilesPass(checks, cats, t, files, secretKey, key, p, dest);
    }
    if Settings in cats {
      SettingsPass(checks, t, files, secretKey, key, p.settings, dest);
    }
    SourceKeyOf(checks, cats, t, files, secretKey, key, p);
    hide Healthy, Exported, Acceptable;
    if Portable(cats, key, dest) {
      AllFeasible(checks, cats, p, key, dest, before);
    }
  }

  lemma SourceKeyOf(checks: Checks, cats: set<Category>, t: Tables, files: map<string, File>, secretKey: string,
      key: string, p: Payload)
    requires Healthy(checks, t, files, secretKey, key) && Exported(cats, t, files, secretKey, key, p)
    ensures Secrets in cats ==> p.SourceKey() == key
  {
    hide Strip, StoredRoles, Effective, Consistent, Coherent, SettingsListed, UsersListed, ZonesListed, KeysListed;
  }

  lemma AllFeasible(checks: Checks, cats: set<Category>, p: Payload, key: string, dest: string, before: Tables)
    requires !(cats !! FERNET_BACKED) ==> p.SourceKey() == key
    requires Settings in cats ==> NamesDiffer(p.settings)
    requires Settings in cats ==> forall i :: 0 <= i < |p.settings| ==>
      Rewrap(checks, p.settings[i].value, key, dest).Ok?
    requires Zones in cats ==> forall i :: 0 <= i < |p.zones| ==> Rewrap(checks, p.zones[i].config, key, dest).Ok?
    requires ApiKeys in cats ==> forall i :: 0 <= i < |p.keys| ==> NoDuplicates(p.keys[i].allowed)
    requires SslFiles in cats ==> forall n :: n in p.files ==> RestoredFile(checks, n, p.files[n], key, dest).Ok?
    ensures Feasible(checks, cats, p, dest, before)
  {
    hide Strip, Rewrap, RestoredFile, NamesDiffer;
    assert Settings in cats || Zones in cats || SslFiles in cats ==> !(cats !! FERNET_BACKED) by {
      assert Settings in FERNET_BACKED && Zones in FERNET_BACKED && SslFiles in FERNET_BACKED;
      if Settings in cats { assert Settings in cats * FERNET_BACKED; }
      if Zones in cats { assert Zones in cats * FERNET_BACKED; }
      if SslFiles in cats { assert SslFiles in cats * FERNET_BACKED; }
    }
  }

  lemma SettingsPass(checks: Checks, t: Tables, files: map<string, File>, secretKey: string, key: string,
      items: seq<SettingItem>, dest: string)
    requires Healthy(checks, t, files, secretKey, key) && SettingsListed(t.settings, items)
    ensures NamesDiffer(items) && forall i :: 0 <= i < |items| ==> Rewrap(checks, items[i].value, key, dest).Ok?
  {
    hide Strip, StoredRoles, Effective, Consistent;
  }

  lemma UsersPass(checks: Checks, t: Tables, files: map<string, File>, secretKey: string, key: string,
      items: seq<UserItem>)
    requires Healthy(checks, t, files, secretKey, key) && UsersListed(t.users, items)
    ensures UsersAcceptable(checks, items)
  {
    hide Strip, StoredRoles, Effective, Consistent, Coherent;
    var n :| n in t.users && !t.users[n].disabled && GlobalAdmin in Effective(StoredRoles(t.users[n].roles));
    var i :| 0 <= i < |items| && items[i] == ItemOfUser(n, t.users[n]);
    assert ActiveAdmin(items[i]);
  }

  lemma ZonesPass(checks: Checks, t: Tables, files: map<string, File>, secretKey: string, key: string,
      items: seq<ZoneItem>, ids: seq<nat>, dest: string)
    requires Healthy(checks, t, files, secretKey, key) && ZonesListed(t.zones, items, ids)
    ensures ZonesAcceptable(items) && forall i :: 0 <= i < |items| ==> Rewrap(checks, items[i].config, key, dest).Ok?
  {
    hide Strip, StoredRoles, Effective;
  }

  lemma KeysPass(checks: Checks, t: Tables, files: map<string, File>, secretKey: string, key: string,
      items: seq<KeyItem>, ids: seq<nat>)
    requires Healthy(checks, t, files, secretKey, key) && KeysListed(t, items, ids)
    ensures KeysAcceptable(items) && forall i :: 0 <= i < |items| ==> NoDuplicates(items[i].allowed)
  {
    hide Strip, StoredRoles, Effective, Coherent, Linked;
  }

  lemma FilesPass(checks: Checks, cats: set<Category>, t: Tables, files: map<string, File>, secretKey: string,
      key: string, p: Payload, dest: string)
    requires Healthy(checks, t, files, secretKey, key) && Exported(cats, t, files, secretKey, key, p)
    requires SslFiles in cats
    ensures FilesAcceptable(p.files) && forall n :: n in p.files ==> RestoredFile(checks, n, p.files[n], key, dest).Ok?
  {
    hide Strip, StoredRoles, Effective, Consistent, SettingsListed, UsersListed, ZonesListed, KeysListed;
  }

  // ---------------------------------------------------------------- round trip

  /** Two tokens hold the same text, each under its own key. */
  predicate SameText(source: string, a: Token, dest: string, b: Token) {
    Decrypt(source, a) == Decrypt(dest, b) && (a == Empty <==> b == Empty)
  }

  ghost predicate SameSettings(source: string, a: map<string, Token>, dest: string, b: map<string, Token>) {
    forall n :: n != [] && n !in EXCLUDED ==> (n in a <==> n in b) && (n in a ==> SameText(source, a[n], dest, b[n]))
  }

  predicate SameAccount(a: UserRow, b: UserRow) {
    a.hash == b.hash && a.disabled == b.disabled && StoredRoles(b.roles) == Cleaned(StoredRoles(a.roles))
  }

  ghost predicate SameAccounts(a: map<string, UserRow>, b: map<string, UserRow>) {
    a.Keys == b.Keys && forall n :: n in a ==> SameAccount(a[n], b[n])
  }

  ghost predicate ZoneWithin(source: string, zone: ZoneRow, dest: string, zones: map<nat, ZoneRow>) {
    exists z :: z in zones && zones[z].name == zone.name && SameText(source, zone.config, dest, zones[z].config)
  }

  ghost predicate SameZones(source: string, a: map<nat, ZoneRow>, dest: string, b: map<nat, ZoneRow>) {
    && (forall z :: z in a ==> ZoneWithin(source, a[z], dest, b))
    && (forall z :: z in b ==> ZoneWithin(dest, b[z], source, a))
  }

  /** Key `k` of `a` and key `l` of `b` are the same key, for the zones that `b` has. */
  ghost predicate SameKey(a: Tables, k: nat, b: Tables, l: nat) {
    && k in a.keys && l in b.keys && a.keys[k] == b.keys[l]
    && forall n :: Linked(b, l, n) <==> Linked(a, k, n) && n in LiveNames(b.zones)
  }

  ghost predicate SameKeys(a: Tables, b: Tables) {
    && (forall k :: k in a.keys ==> exists l :: SameKey(a, k, b, l))
    && (forall l :: l in b.keys ==> exists k :: SameKey(a, k, b, l))
  }

  /** Restoring an export reproduces the exported tables and certificate files up to row ids, session
      versions, canonical role texts and excluded settings, every ciphertext under the new key. */
  lemma RoundTrip(checks: Checks, cats: set<Category>, t: Tables, files: map<string, File>, secretKey: string,
      key: string,
      p: Payload, dest: string, before: Tables, now: Tables)
    requires Healthy(checks, t, files, secretKey, key) && Exported(cats, t, files, secretKey, key, p)
    requires Acceptable(checks, cats, p, dest) && Restored(checks, cats, p, dest, before, now)
    ensures Settings in cats ==> SameSettings(key, t.settings, dest, now.settings)
    ensures Users in cats ==> SameAccounts(t.users, now.users)
    ensures Zones in cats ==> SameZones(key, t.zones, dest, now.zones) && LiveNames(now.zones) == LiveNames(t.zones)
    ensures ApiKeys in cats ==> SameKeys(t, now)
    ensures AlertRules in cats ==> now.rules == t.rules
    ensures ActivityLogs in cats ==> now.logs == t.logs
  {
    SourceKeyOf(checks, cats, t, files, secretKey, key, p);
    NeedsSecrets(checks, cats, p, dest);
    HealthyData(checks, t, files, secretKey, key);
    hide Strip, Rewrap, Healthy, SettingsListed, UsersListed, ZonesListed, KeysListed, SettingsFrom, UsersFrom,
      ZonesFrom, KeysFrom, SameSettings, SameAccounts, SameZones, SameKeys, Coherent, Acceptable, ZonesExported,
      KeysExported, KeysRestored, LiveNames;
    if Settings in cats {
      var kept := KeptSettings(before.settings);
      SettingsRoundTrip(checks, t, files, secretKey, key, p.settings, kept, dest, now.settings);
    }
    if Users in cats {
      UsersRoundTrip(t.users, p.users, now.users);
    }
    if Zones in cats {
      ZonesRoundTrip(checks, t, key, p.zones, dest, now.zones);
    }
    if ApiKeys in cats {
      KeysRoundTrip(t, p.keys, now);
    }
  }

  lemma HealthyData(checks: Checks, t: Tables, files: map<string, File>, secretKey: string, key: string)
    requires Healthy(checks, t, files, secretKey, key)
    ensures forall n :: n in t.users ==> Strip(n) == n
    ensures forall z :: z in t.zones ==> Opens(key, t.zones[z].config)
  {
    hide Strip, Opens, StoredRoles, Effective, Consistent, FilesAcceptable;
  }

  lemma NeedsSecrets(checks: Checks, cats: set<Category>, p: Payload, dest: string)
    requires Acceptable(checks, cats, p, dest)
    ensures Settings in cats || Zones in cats || SslFiles in cats ==> Secrets in cats
  {
    hide UsersAcceptable, ZonesAcceptable, KeysAcceptable, FilesAcceptable, SecretsAcceptable;
    if Settings in cats { assert Settings in cats * FERNET_BACKED; }
    if Zones in cats { assert Zones in cats * FERNET_BACKED; }
    if SslFiles in cats { assert SslFiles in cats * FERNET_BACKED; }
  }

  lemma SettingsRoundTrip(checks: Checks, t: Tables, files: map<string, File>, secretKey: string, key: string,
      items: seq<SettingItem>, kept: map<string, Token>, dest: string, now: map<string, Token>)
    requires Healthy(checks, t, files, secretKey, key) && SettingsListed(t.settings, items)
    requires kept.Keys <= EXCLUDED && SettingsFrom(checks, items, kept, key, dest, now)
    ensures SameSettings(key, t.settings, dest, now)
  {
    hide Strip, Rewrap, StoredRoles, Effective, Consistent, FilesAcceptable;
    forall n | n != [] && n !in EXCLUDED
      ensures (n in t.settings <==> n in now) && (n in now ==> SameText(key, t.settings[n], dest, now[n]))
    {
      if n in t.settings {
        var i :| 0 <= i < |items| && items[i] == SettingItem(n, t.settings[n]);
        assert Restorable(items[i].name) && Strip(items[i].name) == n;
        RewrapSameText(checks, t.settings[n], key, dest, now[n]);
      }
    }
  }

  lemma RewrapSameText(checks: Checks, token: Token, source: string, dest: string, now: Token)
    requires Opens(source, token) && Rewrap(checks, token, source, dest) == Ok(now)
    ensures SameText(source, token, dest, now) && SameText(dest, now, source, token)
  {
  }

  lemma UsersRoundTrip(users: map<string, UserRow>, items: seq<UserItem>, now: map<string, UserRow>)
    requires forall n :: n in users ==> Strip(n) == n
    requires UsersListed(users, items) && UsersFrom(items, now)
    ensures SameAccounts(users, now)
  {
    hide Strip, StoredRoles, SerializeRoles, Cleaned, SameAccounts;
    forall n | n in users ensures n in now && SameAccount(users[n], now[n]) {
      var i :| 0 <= i < |items| && items[i] == ItemOfUser(n, users[n]);
      assert Strip(items[i].username) == n && UserRestored(items[i], now[n]);
      StoredRolesReadBack(StoredRoles(users[n].roles));
    }
    assert forall n :: n in now ==> n in users;
    hide UsersListed, UsersFrom;
    AccountsMatch(users, now);
  }

  lemma AccountsMatch(users: map<string, UserRow>, now: map<string, UserRow>)
    requires forall n :: n in users ==> n in now && SameAccount(users[n], now[n])
    requires forall n :: n in now ==> n in users
    ensures SameAccounts(users, now)
  {
    hide SameAccount;
  }

  lemma ZonesRoundTrip(checks: Checks, t: Tables, key: string, items: seq<ZoneItem>, dest: string,
      now: map<nat, ZoneRow>)
    requires forall z :: z in t.zones ==> Opens(key, t.zones[z].config)
    requires ZonesExported(t.zones, items) && ZonesFrom(checks, items, key, dest, now)
    ensures SameZones(key, t.zones, dest, now) && LiveNames(now) == LiveNames(t.zones)
  {
    hide Opens, ZonesFrom, ZonesListed, SameZones, LiveNames;
    var ids :| ZonesListed(t.zones, items, ids);
    ListedZonesRoundTrip(checks, t, key, items, ids, dest, now);
  }

  lemma ListedZonesRoundTrip(checks: Checks, t: Tables, key: string, items: seq<ZoneItem>, ids: seq<nat>, dest: string,
      now: map<nat, ZoneRow>)
    requires forall z :: z in t.zones ==> Opens(key, t.zones[z].config)
    requires ZonesListed(t.zones, items, ids) && ZonesFrom(checks, items, key, dest, now)
    ensures SameZones(key, t.zones, dest, now) && LiveNames(now) == LiveNames(t.zones)
  {
    hide Strip, Rewrap, ZonesFrom, Opens, SameText, ZoneWithin, LiveNames;
    forall i | 0 <= i < |items|
      ensures Opens(key, items[i].config) && items[i] == ZoneItem(t.zones[ids[i]].name, t.zones[ids[i]].config)
    {
      assert ids[i] in t.zones;
    }
    forall z | z in t.zones ensures ZoneWithin(key, t.zones[z], dest, now) && t.zones[z].name in LiveNames(now) {
      var i :| 0 <= i < |ids| && ids[i] == z;
      ZoneRoundTrip(checks, t, key, items, ids, dest, now, i);
    }
    forall z | z in now ensures ZoneWithin(dest, now[z], key, t.zones) && now[z].name in LiveNames(t.zones) {
      var i := ArchivedZone(checks, items, key, dest, now, z);
      ZoneRoundTrip(checks, t, key, items, ids, dest, now, i);
    }
    assert LiveNames(now) == LiveNames(t.zones) by {
      SameNames(t.zones, now);
    }
  }

  lemma SameNames(a: map<nat, ZoneRow>, b: map<nat, ZoneRow>)
    requires forall z :: z in a ==> a[z].name in LiveNames(b)
    requires forall z :: z in b ==> b[z].name in LiveNames(a)
    ensures LiveNames(a) == LiveNames(b)
  {
  }

  lemma ArchivedZone(checks: Checks, items: seq<ZoneItem>, key: string, dest: string, now: map<nat, ZoneRow>,
      z: nat) returns (i: nat)
    requires ZonesFrom(checks, items, key, dest, now) && z in now
    ensures i < |items| && items[i].name == now[z].name
  {
    hide ZonePresent;
    i :| 0 <= i < |items| && items[i].name == now[z].name;
  }

  lemma ZoneRoundTrip(checks: Checks, t: Tables, key: string, items: seq<ZoneItem>, ids: seq<nat>, dest: string,
      now: map<nat, ZoneRow>, i: nat)
    requires i < |items| == |ids| && ids[i] in t.zones
    requires items[i] == ZoneItem(t.zones[ids[i]].name, t.zones[ids[i]].config)
    requires Opens(key, items[i].config) && ZonesFrom(checks, items, key, dest, now)
    ensures ZoneWithin(key, t.zones[ids[i]], dest, now)
    ensures items[i].name in LiveNames(now) && items[i].name in LiveNames(t.zones)
    ensures forall z :: z in now && now[z].name == items[i].name ==> ZoneWithin(dest, now[z], key, t.zones)
  {
    hide Rewrap, SameText, Opens;
    assert ZonePresent(checks, items[i], key, dest, now);
    var z :| && z in now && now[z].name == items[i].name
             && Rewrap(checks, items[i].config, key, dest) == Ok(now[z].config);
    RewrapSameText(checks, items[i].config, key, dest, now[z].config);
    assert forall y :: y in now && now[y].name == items[i].name ==> y == z;
  }

  lemma KeysRoundTrip(t: Tables, items: seq<KeyItem>, now: Tables)
    requires KeysExported(t, items) && KeysRestored(items, now.zones, now.keys, now.links)
    ensures SameKeys(t, now)
  {
    var ids :| KeysListed(t, items, ids);
    var rows :| KeysFrom(items, rows, now.zones, now.keys, now.links);
    hide Linked, LiveNames, SameKey, SameKeys;
    forall i | 0 <= i < |items| ensures SameKey(t, ids[i], now, rows[i]) {
      KeyRoundTrip(t, items, ids, rows, now, i);
    }
    PairedKeys(t, ids, rows, now);
  }

  lemma PairedKeys(t: Tables, ids: seq<nat>, rows: seq<nat>, now: Tables)
    requires |ids| == |rows| && forall i :: 0 <= i < |ids| ==> SameKey(t, ids[i], now, rows[i])
    requires (forall k :: k in t.keys ==> k in ids) && (forall l :: l in now.keys ==> l in rows)
    ensures SameKeys(t, now)
  {
    hide SameKey;
    forall k | k in t.keys ensures exists l :: SameKey(t, k, now, l) {
      var i :| 0 <= i < |ids| && ids[i] == k;
      assert SameKey(t, ids[i], now, rows[i]);
    }
    forall l | l in now.keys ensures exists k :: SameKey(t, k, now, l) {
      var i :| 0 <= i < |rows| && rows[i] == l;
      assert SameKey(t, ids[i], now, rows[i]);
    }
  }

  lemma KeyRoundTrip(t: Tables, items: seq<KeyItem>, ids: seq<nat>, rows: seq<nat>, now: Tables, i: nat)
    requires KeysListed(t, items, ids) && KeysFrom(items, rows, now.zones, now.keys, now.links) && i < |items|
    ensures SameKey(t, ids[i], now, rows[i])
  {
    hide Linked, LiveNames;
    forall n ensures Linked(now, rows[i], n) <==> n in items[i].allowed && n in LiveNames(now.zones) {
      LinksOfRow(items, rows, now, i, n);
    }
  }

  lemma LinksOfRow(items: seq<KeyItem>, rows: seq<nat>, now: Tables, i: nat, n: string)
    requires KeysFrom(items, rows, now.zones, now.keys, now.links) && i < |items|
    ensures Linked(now, rows[i], n) <==> n in items[i].allowed && n in LiveNames(now.zones)
  {
    if n in items[i].allowed && n in LiveNames(now.zones) {
      var z :| z in now.zones && now.zones[z].name == n;
      assert (rows[i], z) in now.links;
    }
  }

  /** The same file, the ACME account key perhaps under another key. */
  predicate SameFile(source: string, name: string, a: File, dest: string, b: File) {
    if name == ACME_KEY && a.Wrapped? then b.Wrapped? && SameText(source, a.token, dest, b.token) else a == b
  }

  /** The certificate files come back too: the same names with the same contents. */
  lemma FilesRoundTrip(checks: Checks, cats: set<Category>, t: Tables, files: map<string, File>, secretKey: string,
      key: string,
      p: Payload, dest: string, before: map<string, File>, now: map<string, File>, n: string)
    requires Healthy(checks, t, files, secretKey, key) && Exported(cats, t, files, secretKey, key, p)
    requires SslFiles in cats && Secrets in cats
    requires FilesRestored(checks, cats, p, dest, before, now) && n in SSL_NAMES && n in files
    ensures n in now && SameFile(key, n, files[n], dest, now[n])
  {
    SourceKeyOf(checks, cats, t, files, secretKey, key, p);
    hide Strip, Rewrap, StoredRoles, Effective, Consistent, SettingsListed, UsersListed, ZonesListed, KeysListed,
      FilesAcceptable;
    if n == ACME_KEY && files[n].Wrapped? {
      RewrapSameText(checks, files[n].token, key, dest, now[n].token);
    }
  }
}
