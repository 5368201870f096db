/** What a backup holds, the tables it is taken from, and what restoring it must produce
    (src/backup_service.py). Encryption is symbolic: a token opens under the key that sealed it. */
module BackupTables {
  import opened Basics
  import opened Text
  import opened Roles

  datatype Category = Settings | Users | Zones | ApiKeys | AlertRules | SslFiles | Secrets | ActivityLogs

  const FERNET_BACKED: set<Category> := {Settings, Zones, SslFiles}
  const IN_DATABASE: set<Category> := {Settings, Users, Zones, ApiKeys, AlertRules, ActivityLogs}

  const PROGRESS := "backup_restore_progress"
  const EXCLUDED: set<string> := {
    PROGRESS, "restart_required", "restart_reason", "last_scheduled_restart_date",
    "letsencrypt_renewal_pending_restart", "letsencrypt_enrollment", "letsencrypt_enrollment_progress",
    "last_activity_retention_cleanup"}

  const ACME_KEY := "acme_account.key"
  const SSL_NAMES: set<string> := {"server.key", "server.crt", "server.source", ACME_KEY}

  // ---------------------------------------------------------------- tokens

  /** A stored ciphertext: nothing, a Fernet token (up to its random part), or text that is none. */
  datatype Token = Empty | Sealed(key: string, text: string) | Garbage(raw: string)

  function Encrypt(key: string, text: string): Token { Sealed(key, text) }

  function Decrypt(key: string, token: Token): Option<string> {
    if token.Sealed? && token.key == key then Some(token.text) else None
  }

  /** The token is readable with the key; an empty one holds nothing to read. */
  predicate Opens(key: string, token: Token) { token == Empty || Decrypt(key, token).Some? }

  /** What cannot be seen here: which keys Fernet accepts, which hashes pass the work-factor bounds. */
  datatype Checks = Checks(validKey: string -> bool, validSecret: string -> bool, validHash: string -> bool)

  /** `_rewrap_fernet_token`. */
  function Rewrap(checks: Checks, token: Token, source: string, dest: string): (r: Result<Token>)
    ensures r.Ok? && source != dest ==> Opens(source, token) && Opens(dest, r.value)
    ensures r.Ok? && Opens(source, token) ==>
      Decrypt(dest, r.value) == Decrypt(source, token) && (r.value == Empty <==> token == Empty)
    ensures checks.validKey(source) && Opens(source, token) ==> r.Ok?
  {
    if token == Empty then Ok(token)
    else if source == dest then Ok(token)
    else if !checks.validKey(source) then Err("Backup ENCRYPTION_KEY is not a valid Fernet key.")
    else
      var text := Decrypt(source, token);
      if text.None? then Err("could not be decrypted with the backup ENCRYPTION_KEY")
      else Ok(Encrypt(dest, text.value))
  }

  /** A certificate file: plain PEM text, a token, or other bytes. */
  datatype File = Pem(text: string) | Wrapped(token: Token) | Bytes(raw: string)

  // ---------------------------------------------------------------- tables

  datatype UserRow = UserRow(hash: string, roles: string, disabled: bool, version: nat)
  datatype ZoneRow = ZoneRow(name: string, config: Token)
  datatype KeyRow = KeyRow(digest: string, caption: string, prefix: string, mode: string, active: bool, created: int)

  /** Settings and users by their unique names; zones and keys by row id, for the links between them.
      Alert rules and log entries are copied column by column and are opaque here. */
  datatype Tables = Tables(
    settings: map<string, Token>, users: map<string, UserRow>,
    zones: map<nat, ZoneRow>, keys: map<nat, KeyRow>, links: set<(nat, nat)>,
    rules: seq<string>, logs: seq<string>)

  ghost predicate UniqueZones(zones: map<nat, ZoneRow>) {
    forall a, b :: a in zones && b in zones && zones[a].name == zones[b].name ==> a == b
  }

  ghost predicate UniqueKeys(keys: map<nat, KeyRow>) {
    forall a, b :: a in keys && b in keys && keys[a].digest == keys[b].digest ==> a == b
  }

  /** Unique names, and every link joins a live key to a live zone. */
  ghost predicate Consistent(t: Tables) {
    && UniqueZones(t.zones) && UniqueKeys(t.keys)
    && forall link :: link in t.links ==> link.0 in t.keys && link.1 in t.zones
  }

  /** Every ciphertext in the tables is readable with `key`. */
  ghost predicate TablesOpen(t: Tables, key: string) {
    && (forall n :: n in t.settings ==> Opens(key, t.settings[n]))
    && (forall z :: z in t.zones ==> Opens(key, t.zones[z].config))
  }

  /** The ACME account key file is absent, plain PEM, or readable with `key`. */
  predicate AcmeOpens(files: map<string, File>, key: string) {
    ACME_KEY in files ==> files[ACME_KEY].Pem? || (files[ACME_KEY].Wrapped? && Opens(key, files[ACME_KEY].token))
  }

  ghost predicate Coherent(t: Tables, files: map<string, File>, key: string) {
    TablesOpen(t, key) && AcmeOpens(files, key)
  }

  /** `apply_persisted_secrets`: the ENCRYPTION_KEY of the next start. A valid key in the durable secrets file
      overlays the environment's. */
  function BootKeyOf(checks: Checks, durable: Option<(string, string)>, environmentKey: string): string {
    if durable.Some? && durable.value.1 != [] && checks.validKey(durable.value.1) then durable.value.1
    else environmentKey
  }

  // ---------------------------------------------------------------- archive

  datatype SettingItem = SettingItem(name: string, value: Token)
  datatype UserItem = UserItem(username: string, hash: string, roles: string, disabled: bool)
  datatype ZoneItem = ZoneItem(name: string, config: Token)
  datatype KeyItem = KeyItem(row: KeyRow, allowed: seq<string>)

  /** A decoded archive. `included` lists the categories its manifest or body has; `sealed` says that
      it came out of a password-encrypted envelope. */
  datatype Payload = Payload(
    included: set<Category>, sealed: bool, secretKey: string, encryptionKey: string,
    settings: seq<SettingItem>, users: seq<UserItem>, zones: seq<ZoneItem>, keys: seq<KeyItem>,
    rules: seq<string>, files: map<string, File>, logs: seq<string>)
  {
    /** `_payload_encryption_key`. */
    function SourceKey(): string { Strip(encryptionKey) }
  }

  predicate UserAcceptable(checks: Checks, user: UserItem) {
    Strip(user.username) != [] && Strip(user.hash) != [] && checks.validHash(user.hash)
  }

  predicate ActiveAdmin(user: UserItem) {
    !user.disabled && GlobalAdmin in Effective(StoredRoles(user.roles))
  }

  predicate UsersAcceptable(checks: Checks, users: seq<UserItem>) {
    && users != []
    && (forall i :: 0 <= i < |users| ==> UserAcceptable(checks, users[i]))
    && (forall i, j :: 0 <= i < j < |users| ==> Strip(users[i].username) != Strip(users[j].username))
    && exists i :: 0 <= i < |users| && ActiveAdmin(users[i])
  }

  predicate ZonesAcceptable(zones: seq<ZoneItem>) {
    && (forall i :: 0 <= i < |zones| ==> Strip(zones[i].name) != [] && zones[i].config != Empty)
    && (forall i, j :: 0 <= i < j < |zones| ==> Strip(zones[i].name) != Strip(zones[j].name))
  }

  predicate KeysAcceptable(keys: seq<KeyItem>) {
    && (forall i :: 0 <= i < |keys| ==> keys[i].row.digest != [] && keys[i].row.mode in {"read_only", "read_write"})
    && (forall i, j :: 0 <= i < j < |keys| ==> keys[i].row.digest != keys[j].row.digest)
  }

  predicate FilesAcceptable(files: map<string, File>) {
    forall n :: n in files && n in SSL_NAMES ==> files[n] != Wrapped(Empty) && files[n] != Bytes("")
  }

  predicate SecretsAcceptable(checks: Checks, cats: set<Category>, p: Payload, processKey: string) {
    && p.sealed
    && Strip(p.secretKey) != [] && checks.validSecret(Strip(p.secretKey))
    && p.SourceKey() != [] && checks.validKey(p.SourceKey())
    && (cats !! FERNET_BACKED ==> p.SourceKey() == processKey)
  }

  /** What `validate_restore_records` lets through. */
  predicate Acceptable(checks: Checks, cats: set<Category>, p: Payload, processKey: string) {
    && cats <= p.included
    && (Secrets in cats || cats !! FERNET_BACKED)
    && (Users in cats ==> UsersAcceptable(checks, p.users))
    && (Zones in cats ==> ZonesAcceptable(p.zones))
    && (ApiKeys in cats ==> KeysAcceptable(p.keys))
    && (SslFiles in cats ==> FilesAcceptable(p.files))
    && (Secrets in cats ==> SecretsAcceptable(checks, cats, p, processKey))
  }

  // ---------------------------------------------------------------- what a restore leaves

  predicate Restorable(name: string) { Strip(name) != [] && Strip(name) !in EXCLUDED }

  /** The setting rows: those kept from before (only the progress marker), and the archive's, re-wrapped. */
  ghost predicate SettingsFrom(checks: Checks, items: seq<SettingItem>, kept: map<string, Token>, source: string,
      dest: string, now: map<string, Token>) {
    && (forall n :: n in now <==>
          n in kept || exists i :: 0 <= i < |items| && Restorable(items[i].name) && Strip(items[i].name) == n)
    && (forall n :: n in kept ==> now[n] == kept[n])
    && (forall i :: 0 <= i < |items| && Restorable(items[i].name) ==>
          Strip(items[i].name) in now && Rewrap(checks, items[i].value, source, dest) == Ok(now[Strip(items[i].name)]))
  }

  predicate UserRestored(item: UserItem, row: UserRow) {
    row == UserRow(item.hash, SerializeRoles(StoredRoles(item.roles)), item.disabled, row.version)
  }

  /** The rows as archived, canonical roles, session versions free. */
  ghost predicate UsersFrom(items: seq<UserItem>, now: map<string, UserRow>) {
    && (forall n :: n in now <==> exists i :: 0 <= i < |items| && Strip(items[i].username) == n)
    && (forall i :: 0 <= i < |items| ==> Strip(items[i].username) in now)
    && (forall i :: 0 <= i < |items| ==> UserRestored(items[i], now[Strip(items[i].username)]))
  }

  predicate ZonePresent(checks: Checks, item: ZoneItem, source: string, dest: string, now: map<nat, ZoneRow>) {
    exists z :: z in now && now[z].name == item.name && Rewrap(checks, item.config, source, dest) == Ok(now[z].config)
  }

  /** The zone rows: one per archived zone, its configuration re-wrapped. */
  ghost predicate ZonesFrom(checks: Checks, items: seq<ZoneItem>, source: string, dest: string,
      now: map<nat, ZoneRow>) {
    && UniqueZones(now)
    && (forall z :: z in now ==> exists i :: 0 <= i < |items| && items[i].name == now[z].name)
    && (forall i :: 0 <= i < |items| ==> ZonePresent(checks, items[i], source, dest, now))
  }

  /** One row per archived key, in rows `ids`, linked to exactly the live zones it names. */
  ghost predicate KeysFrom(items: seq<KeyItem>, ids: seq<nat>, zones: map<nat, ZoneRow>, keys: map<nat, KeyRow>,
      links: set<(nat, nat)>) {
    && |ids| == |items| && NoDuplicates(ids)
    && (forall k :: k in keys <==> k in ids)
    && (forall i :: 0 <= i < |items| ==> ids[i] in keys && keys[ids[i]] == items[i].row)
    && (forall link :: link in links ==> link.0 in ids && link.1 in zones)
    && (forall i, z :: 0 <= i < |items| && z in zones ==> ((ids[i], z) in links <==> zones[z].name in items[i].allowed))
  }

  ghost predicate KeysRestored(items: seq<KeyItem>, zones: map<nat, ZoneRow>, keys: map<nat, KeyRow>,
      links: set<(nat, nat)>) {
    exists ids :: KeysFrom(items, ids, zones, keys, links)
  }

  ghost predicate SameUsers(before: map<string, UserRow>, now: map<string, UserRow>) {
    now.Keys == before.Keys && forall n :: n in before ==> now[n] == before[n].(version := now[n].version)
  }

  function KeptSettings(before: map<string, Token>): map<string, Token> {
    map n | n in before && n == PROGRESS :: before[n]
  }

  /** The tables after a completed restore of the selected categories. */
  ghost predicate Restored(checks: Checks, cats: set<Category>, p: Payload, dest: string, before: Tables, now: Tables) {
    && (if Settings in cats
        then SettingsFrom(checks, p.settings, KeptSettings(before.settings), p.SourceKey(), dest, now.settings)
        else now.settings == before.settings)
    && (if Users in cats then UsersFrom(p.users, now.users) else SameUsers(before.users, now.users))
    && (if Zones in cats then ZonesFrom(checks, p.zones, p.SourceKey(), dest, now.zones) else now.zones == before.zones)
    && (if ApiKeys in cats then KeysRestored(p.keys, now.zones, now.keys, now.links) else now.keys == before.keys)
    && (ApiKeys !in cats ==> now.links == if Zones in cats then {} else before.links)
    && now.rules == (if AlertRules in cats then p.rules else before.rules)
    && now.logs == (if ActivityLogs in cats then p.logs else before.logs)
  }

  /** What is written for one archived certificate file. */
  function RestoredFile(checks: Checks, name: string, file: File, source: string, dest: string): Result<File> {
    if name == ACME_KEY && !file.Pem? then
      if file.Bytes? then Err("not UTF-8 text")
      else
        var token :- Rewrap(checks, file.token, source, dest);
        Ok(Wrapped(token))
    else Ok(file)
  }

  /** The certificate files after a completed restore; an old file whose removal failed may remain. */
  ghost predicate FilesRestored(checks: Checks, cats: set<Category>, p: Payload, dest: string,
      before: map<string, File>, now: map<string, File>) {
    && (forall n :: n !in SSL_NAMES || SslFiles !in cats ==>
          (n in now <==> n in before) && (n in now ==> now[n] == before[n]))
    && (SslFiles in cats ==> forall n :: n in SSL_NAMES ==>
          if n in p.files then n in now && RestoredFile(checks, n, p.files[n], p.SourceKey(), dest) == Ok(now[n])
          else n in now ==> n in before && now[n] == before[n])
  }

  /** A setting named twice would break the unique name. */
  predicate NamesDiffer(items: seq<SettingItem>) {
    forall i, j :: 0 <= i < j < |items| && Restorable(items[i].name) && Restorable(items[j].name) ==>
      Strip(items[i].name) != Strip(items[j].name)
  }

  /** Nothing in an acceptable archive stops the restore of its tables, ... */
  ghost predicate TablesFeasible(checks: Checks, cats: set<Category>, p: Payload, dest: string, before: Tables) {
    && (Settings in cats ==>
          && NamesDiffer(p.settings)
          && (forall i :: 0 <= i < |p.settings| && Restorable(p.settings[i].name) ==>
                Rewrap(checks, p.settings[i].value, p.SourceKey(), dest).Ok?))
    && (Zones in cats ==> forall i :: 0 <= i < |p.zones| ==> Rewrap(checks, p.zones[i].config, p.SourceKey(), dest).Ok?)
    && (ApiKeys in cats ==>
          forall i :: 0 <= i < |p.keys| ==>
            NamesOnce(p.keys[i].allowed, if Zones in cats then NamesOf(p.zones) else LiveNames(before.zones)))
  }

  /** ... nor that of its certificate files. */
  ghost predicate Feasible(checks: Checks, cats: set<Category>, p: Payload, dest: string, before: Tables) {
    && TablesFeasible(checks, cats, p, dest, before)
    && (SslFiles in cats ==> forall n :: n in p.files && n in SSL_NAMES ==>
          RestoredFile(checks, n, p.files[n], p.SourceKey(), dest).Ok?)
  }

  function NamesOf(zones: seq<ZoneItem>): set<string> {
    set z | z in zones :: z.name
  }

  function LiveNames(zones: map<nat, ZoneRow>): set<string> {
    set z | z in zones :: zones[z].name
  }

  /** A zone named twice for one key would break the unique link. */
  predicate NamesOnce(allowed: seq<string>, live: set<string>) {
    forall i, j :: 0 <= i < j < |allowed| && allowed[i] == allowed[j] ==> allowed[i] !in live
  }
}
