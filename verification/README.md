# A verified model of API-to-DNS

API-to-DNS is a web service that manages DNS records at several providers, with accounts and roles, encrypted
settings, backup and restore, and a remote syslog feed. This project models the parts of it whose correctness rests on
more than one function, and proves what holds over every input, every run or every interleaving.

- **Cloudflare record store** (`RecordValues`, `CloudflareRows`, `RecordForms`, `RecordStore`, `CloudflareSync`,
  `DnsMutation`, `CloudflareListing`). `RecordForms` says part by part what names, values and rows become. The provider
  keeps one row per value. `RemoteZone` is that row store: a request may fail before or after it took effect, and a
  listing of one RRset is one response of bounded size. The reconciliation loops run against it, and the mutation layer
  on top is proved to refine a plain map from (name, type) to a TTL and a set of values, with the exact conditions. The
  paged listing with its early stop is proved against the plain definition of "the first `limit` keys".
- **Remote syslog** (`SyslogFraming`, `SyslogForwarder`). Octet-counted framing, and the forwarder as a state machine in
  which each lock region, queue operation and socket operation is one step, with any number of workers and callers: what
  never happens in any interleaving, and what an uninterrupted run delivers.
- **Accounts** (`Roles`, `Accounts`, `AccountInterleaving`, `AccountSessions`). Roles from submitted names to stored
  text and back, the handlers with their guards in the order of the code, theorems over runs of requests one at a time,
  and the handlers as they interleave between check and commit: which of those theorems then hold, and under exactly
  what condition the others do.
- **Backup** (`BackupTables`, `BackupExport`, `BackupRestore`, `BackupLaws`). Validation, one transaction, re-encryption
  of tokens, certificate files and the key the next start loads, over a database and file system that may fail at any
  operation; a failed write to a file may leave any content in a certificate file, or the first part of the secrets file.
- **Smaller protocols** (`WorkerGate`, `RateLimit`, `ZoneTransfer`, `WinRmStaging`).
- `Basics` and `Text` hold shared datatypes and Python's string operations on ASCII text.

Encryption is symbolic: a token opens under exactly the key that sealed it. A Python exception is `Err`. Fields written
`ghost` record history (requests made, states left, decisions counted) and take no part in what the code computes. What
may go wrong outside is a parameter where a contract speaks of it (the attempts of a rate-limit decision, the faults of a
restore, the page that fails, a reliable provider), so no method chooses its own excuse.

Where code and comments disagree, the model follows the code:

- `configure` says it preserves pending events across a queue resize. It keeps the newest ones in order
  (`SyslogForwarder.Configure`), but each carries an older generation than the configuration just installed, so the
  worker discards every one of them (`SyslogForwarder.ResizeKeepsNothingAlive`).
- A hostname may keep a newline before its trailing dot, because `$` also matches before a final newline, so
  normalising is not always idempotent (`RecordValues.NormalizeIdempotent` says exactly when it is).
- The early stop of the paged listing is complete exactly when no row of a listed RRset comes after a page that ends the
  reading (`CloudflareListing.CompleteIffNoRowAfterStop`). Runs of at most 101 rows always meet that; with 102 a row can
  be lost (`CloudflareListing.RunOf102LosesARow`).
- A value listed twice creates two rows when it was absent, and one when it was present
  (`CloudflareSync.SyncMany` gives the exact condition).
- A sync can lose a value that is both present and desired (`RecordStore.UpdateLosesQuotedTxt`). It survives every
  request exactly when it, or a desired value before it, reads back as it (`RecordStore.SurvivesIff`).
- The rows of one RRset are listed with a single request, without paging. What does not fit in its response is not seen:
  a delete then leaves exactly the rest (`DnsMutation.DeleteRecords`, `DnsMutation.OneRowMoreStays`), and a written
  RRset reads as asked exactly when the rest already does (`DnsMutation.ApplyMutation`, `DnsMutation.ApplyPatch`).
- The rate limiter reads the clock once, before its attempts. A request delayed past a cleanup can find its full bucket
  gone (`RateLimit.DelayedRequestIsAdmittedTwice`); `RateLimit.VerdictsAreRightIffOnTime` says exactly when verdicts
  count everything.
- Certificate files and the secrets file are written in place. A write that stops partway can leave an ACME account key
  that no key opens (`BackupLaws.TornKeyFileCoherence`), or make the next start use the environment's key
  (`BackupLaws.TornSecretsFallBack`).
- Two global admins who disable each other at the same moment can leave none
  (`AccountInterleaving.OverlappingRemovalsLeaveNone`). However the requests under way end, one remains exactly when
  some enabled global admin is the target of none that removes (`AccountInterleaving.AdminRemainsIffUntargeted`).
- A handler adds one to the session version it read before hashing the password. Two overlapping password resets store
  the same version, so a cookie issued between them outlives the second
  (`AccountSessions.OverlappingResetsShareAVersion`); an older reset that commits last lowers the version, and a dead
  cookie signs in again (`AccountSessions.OvertakenResetRevivesACookie`). Versions only rise exactly when no version
  is stored between the check and the commit of another (`AccountSessions.VersionsRiseIffNoneOvertaken`).
- A change of roles that is still under way when its account is deleted, and whose row id is given to a new account,
  gives the new account the sensitive roles of the old one (`AccountSessions.ReusedIdInheritsRoles`).
- Restoring DNS zones without API keys removes every link between the keys and the zones.
- Adopting an archive's ENCRYPTION_KEY happens only when it equals the present one, so a restore never changes the key.
- The two counts "at least one account must remain" never refuse anything the other guards let through
  (`Accounts.UserTable.DisableUser` and `DeleteUser` are proved against a specification without them).

## Model

| member | source | states |
|---|---|---|
| RecordValues.NormalizeHostnameFixed | src/dns_record_types.py:116-122 | A normalised hostname normalises to itself exactly when it has no newline at its end. |
| RecordValues.NormalizeIdempotent | src/dns_record_types.py:207-242 | Normalising any value of any type twice equals normalising once, except exactly for CNAME, NS and PTR values with a newline before the trailing dot. |
| RecordValues.NewlineBeforeDotIsKept | src/dns_record_types.py:116-122 | A concrete hostname on which normalising is not idempotent. |
| RecordValues.NormalizeValues | src/dns_record_types.py:245-254 | One normalised value per input, at least one, exactly one for CNAME. |
| RecordValues.ParseMxText | src/dns_record_types.py:135-139 | Parsing a formatted MX value gives it back. |
| RecordValues.ParseSrvText | src/dns_record_types.py:142-151 | Parsing a formatted SRV value gives it back. |
| RecordValues.ParseCaaText | src/dns_record_types.py:154-167 | Parsing a formatted CAA value gives it back stripped and, with a space, quoted; an empty one is refused. |
| RecordForms.HostLabelsExactly | src/dns_record_types.py:29 | The pattern accepts exactly the texts of letters, digits, hyphens, underscores and dots without an empty label, a hyphen at the end of a label or a stretch of 64 characters without a dot; one dot may end them. |
| RecordForms.HostnameExactly | src/dns_record_types.py:116-122 | A host name is what is left after outer white space and trailing dots, accepted exactly if that is such a text of at most 253 characters, or one followed by a newline. |
| RecordForms.QuadIsIp4 | src/dns_record_types.py:207-217 | Every dotted quad of numbers up to 255 is an IPv4 address, ... |
| RecordForms.Ip4IsQuad | src/dns_record_types.py:207-217 | ... and nothing else is. |
| RecordForms.NumbersRead | src/dns_record_types.py:125-132 | Numbers are read as written and within their bounds; a sign is allowed. |
| RecordForms.OnePartValues | src/dns_record_types.py:207-242 | For each type of one part: exactly which values are accepted, and that they are only stripped (host names also of trailing dots). |
| RecordForms.MxValues | src/dns_record_types.py:227-229 | Normalising an MX value keeps its priority and the exchange without trailing dots; it is refused exactly for a priority above 65535 or a bad exchange. |
| RecordForms.SrvValues | src/dns_record_types.py:232-234 | Normalising an SRV value keeps its three numbers and the target without trailing dots; it is refused exactly for a number above 65535 or a bad target. |
| RecordForms.CaaValues | src/dns_record_types.py:235-237 | A CAA value keeps its flags, gets a lower-case tag, and its value stripped and, with a space, quoted; only an empty value is refused. |
| RecordForms.CaaRefused | src/dns_record_types.py:154-167 | Whatever is accepted has flags up to 255, a tag of letters and digits, and a value. |
| RecordForms.MxRow | src/plugins/cloudflare.py:380-392 | An MX value is sent as its exchange, with the priority beside it. |
| RecordForms.SrvRow | src/plugins/cloudflare.py:373-406 | An SRV value is sent as its four parts, with service and protocol from the first two labels of the owner name. |
| RecordForms.OtherOwner | src/plugins/cloudflare.py:373-378 | Another owner name is sent as it is, with a default service and protocol. |
| RecordForms.CaaRow | src/plugins/cloudflare.py:404-408 | A CAA value is sent as its parts, without enclosing quotes. |
| RecordForms.TextRow | src/plugins/cloudflare.py:380-414 | A TXT value is sent in exactly one pair of quotes, simple values as they are. |
| RecordForms.HostRowsRead | src/plugins/cloudflare.py:65-88 | Rows are read back into the record texts: addresses and host names as they are, MX with its priority, SRV with its four parts. |
| RecordForms.TextRowsRead | src/plugins/cloudflare.py:65-88 | TXT rows without their pair of quotes, CAA rows with their flags, tag and value. |
| RecordForms.Apex | src/plugins/cloudflare.py:32-40 | An empty name or "@" is the zone. |
| RecordForms.InsideZone | src/plugins/cloudflare.py:32-40 | A name that is the zone or ends in it, in whatever case, is written under that very name. |
| RecordForms.OutsideZone | src/plugins/cloudflare.py:32-40 | Any other name gets the zone appended. |
| CloudflareRows.RelativeOfFqdn | src/plugins/cloudflare.py:32-51 | The qualified name reads back as the relative name exactly when that name is not itself the zone or inside it; the apex always does. |
| CloudflareRows.ReadBackWritten | src/plugins/cloudflare.py:65-88 | A normalised value is read back from its row unchanged exactly for the readable ones: all of A, AAAA, MX and SRV, a CNAME, NS or PTR value without a newline at its end, TXT not wrapped in quotes, CAA unquoted or re-quoted by the parser. |
| CloudflareRows.CaaReadBack | src/plugins/cloudflare.py:380-414 | The exact round-trip condition for CAA values. |
| CloudflareRows.QuotedTxtLosesQuotes | src/plugins/cloudflare.py:54-62 | A TXT value wrapped in quotes loses them. |
| CloudflareRows.EmptyQuotedCaaUnreadable | src/plugins/cloudflare.py:380-414 | A CAA value holding only quotes can be written and not read back. |
| RecordStore.NormalizedIsWritable | src/plugins/cloudflare.py:380-414 | Every normalised value has a row body. |
| RecordStore.RemoteZone.List | src/plugins/cloudflare.py:319-333 | One response lists the RRset if it fits, and otherwise as many rows as it holds; what is cut off is known by number. |
| RecordStore.SafeForRoundTripping | src/plugins/cloudflare.py:416-486 | For values that read back unchanged, safety means: nothing present and desired is missing, nothing outside old and desired appears. |
| RecordStore.NormalizedRoundTrip | src/plugins/cloudflare.py:65-88 | Normalised values all read back unchanged exactly when they are all readable, as those of A, AAAA, MX, SRV and SOA always are. |
| RecordStore.SafeWithHidden | src/plugins/cloudflare.py:319-333 | Safety over the listed rows is safety over all rows. |
| RecordStore.UpdateLosesQuotedTxt | src/plugins/cloudflare.py:466-477 | A row on which a sync loses a value both present and desired: a TXT text that reads with quotes. |
| RecordStore.SurvivesIff | src/plugins/cloudflare.py:463-486 | A value present and desired is there after every request of a sync exactly when it, or a desired value before it, reads back as it. |
| RecordStore.SyncedHolds | src/plugins/cloudflare.py:466-486 | After a completed sync a desired value is missing from the whole RRset exactly when no desired value reads back as it and no unlisted row holds it. |
| CloudflareSync.ClassifyRows | src/plugins/cloudflare.py:453-461 | The first loop keeps one listed row per desired value and marks all others stale, or fails on an unreadable row. |
| CloudflareSync.DeleteStale | src/plugins/cloudflare.py:463-464 | Deleting the stale rows is safe after every request, loses no desired value at all, and removes exactly them, one by one in order. |
| CloudflareSync.PlaceDesired | src/plugins/cloudflare.py:466-486 | Every desired value ends in its kept row or a new one; after every request, also one whose answer was lost, no round-tripping value both present and desired is missing, and the RRset holds exactly what the values placed so far read back as and those of the others that were there. |
| CloudflareSync.SyncMany | src/plugins/cloudflare.py:453-486 | The same safety, and the same exact contents after every request, over all three loops; at the end the listed rows hold exactly what the desired values read back as, with one TTL, and, for round-tripping values, one row each exactly if repeated values were already there. |
| CloudflareSync.SyncOne | src/plugins/cloudflare.py:427-451 | The same safety and end state for CNAME, by rewriting the first listed row and deleting the rest. |
| CloudflareSync.SyncRecords | src/plugins/cloudflare.py:416-486 | Both branches over the listed rows: safe after every request, exact at the end, other RRsets and unlisted rows untouched, failing only for a failed request or an unreadable row. |
| CloudflareSync.SyncAgain | src/plugins/cloudflare.py:416-486 | A second sync of round-tripping values creates nothing, deletes nothing and keeps every row id, if one response can list the RRset before and after; at a reliable provider the first one fails only for an unreadable row. |
| DnsMutation.GetRecord | src/plugins/cloudflare.py:157-187 | Reads the smallest TTL and the set of values of the listed rows, or nothing without rows; fails exactly on a failed request or an unreadable row. |
| DnsMutation.CreateOrUpdate | src/plugins/cloudflare.py:108-155 | Says whether the RRset existed; the listed rows end as what the normalised values read back as, with the TTL, 0 stored as 300; rows that did not fit in the listing stay. |
| DnsMutation.DeleteRecords | src/plugins/cloudflare.py:127-136 | Says whether the RRset existed; a completed delete removes it exactly when one response can list it, and otherwise leaves the further rows untouched. |
| DnsMutation.OneRowMoreStays | src/plugins/cloudflare.py:127-136 | An RRset of one row more than a response lists keeps exactly one row. |
| DnsMutation.SyncedReads | src/plugins/cloudflare.py:489-498 | A synced RRset reads as a set of values exactly when the desired ones read back as that set. |
| DnsMutation.SyncedReadsBeside | src/plugins/cloudflare.py:319-333 | With rows beside it that no response listed, a synced RRset reads as an entry exactly when both together do. |
| DnsMutation.RoundTrippingBeside | src/plugins/cloudflare.py:319-333 | For round-tripping values that means: the unlisted rows are already among the new values, with TTLs not below the new one. |
| DnsMutation.ApplyMutation | src/dns_mutation.py:90-169 | Replacing or deleting what is absent, and creating what is not, is refused, exactly then, and sends nothing. Otherwise an RRset that agreed with its map entry agrees with the new entry exactly when the written values and the unlisted rows read together as it; with all rows listed, exactly when the normalised values read back as themselves, as round-tripping ones do; a delete needs all rows listed. It fails only for a failed request, an unreadable row or a bad value; every other RRset is untouched. |
| DnsMutation.OneEntryChanged | src/dns_mutation.py:90-225 | A store that represents a map represents the changed map after such a call. |
| DnsMutation.RepresentationIsUnique | src/plugins/cloudflare.py:489-498 | A store represents at most one map, ... |
| DnsMutation.RepresentedIffReadable | src/plugins/cloudflare.py:489-498 | ... and one exactly if all its rows can be read. |
| DnsMutation.ApplyPatch | src/dns_mutation.py:172-225 | PATCH is refused exactly for an absent RRset, and then sends nothing. Otherwise the same exact condition holds for the patched entry. With all rows listed, given values must read back as themselves, as round-tripping ones do; omitted values are kept exactly when normalising and writing those read gives the same set back, and with omitted values the call fails exactly when what was read cannot be read or written again, or a request fails. |
| DnsMutation.RewriteFails | src/dns_mutation.py:61-71 | Values read normalise again exactly when each does and the type allows their number. |
| DnsMutation.StableIsKeepable | src/dns_mutation.py:61-71 | Values that normalising and writing leave alone are kept. |
| DnsMutation.WrittenValuesAreStable | src/dns_mutation.py:61-71 | Values this layer wrote and can read back survive a later PATCH that omits them. |
| DnsMutation.StableTxt | src/dns_mutation.py:61-71 | A TXT value survives such a PATCH exactly when it is stripped, not empty and not in quotes. |
| CloudflareListing.EarlyStopKeepsKeys | src/plugins/cloudflare.py:189-262 | Stopping early never changes which keys are listed, nor whether there are more. |
| CloudflareListing.CompleteIffNoRowAfterStop | src/plugins/cloudflare.py:225-254 | Every listed key has all of its rows exactly when no row of a listed key comes after a page that ends the reading. |
| CloudflareListing.ShortRunsAreComplete | src/plugins/cloudflare.py:225-254 | With contiguous names of at most 101 rows there is no such row. |
| CloudflareListing.ListingIsComplete | src/plugins/cloudflare.py:189-262 | The paged loop lists the first `limit` distinct keys in order of appearance, truncated if and only if there are more, each with all of its rows under exactly that condition. |
| CloudflareListing.RunOf102LosesARow | src/plugins/cloudflare.py:189-262 | The bound is tight: a run of 102 rows loses one. |
| CloudflareListing.ReadPage | src/plugins/cloudflare.py:227-246 | Grouping the rows of one page extends the grouping of those before. |
| CloudflareListing.ListPages | src/plugins/cloudflare.py:214-254 | The loop over pages computes that grouping; it fails if the failing page has rows it reads, and only on such a page or the one after them. |
| CloudflareListing.RowsToInfo | src/plugins/cloudflare.py:489-498 | The smallest TTL and every value of some rows; fails exactly on an unreadable one. |
| CloudflareListing.ListRecords | src/plugins/cloudflare.py:189-262 | The listing as returned: the first `limit` keys and at least one, whether there are more, each record describing the rows read of its key; fails only for a failed page it reads or an unreadable row of a listed key. |
| CloudflareListing.KeysAreWanted | src/plugins/cloudflare.py:222-236 | The keys are those of the rows of a supported type, of the requested one if any, whose relative name matches, ... |
| CloudflareListing.RowsAreWanted | src/plugins/cloudflare.py:222-236 | ... and the rows of a key are those of them with its name and type. |
| SyslogFraming.MeetsIffAsSevere | src/remote_syslog.py:231-240 | An event is wanted exactly when it is at least as severe as the minimum. |
| SyslogFraming.PriorityIsValid | src/remote_syslog.py:237-248 | The priority is in 0..191 and determines facility and severity, as section 6.2.1 of RFC 5424 asks; an unknown facility is local0. |
| SyslogFraming.FramesDecode | src/remote_syslog.py:251-253 | A decoder for section 3.4.1 of RFC 6587 recovers any list of messages from the concatenated frames, except exactly when one is empty. |
| SyslogFraming.HeaderReads | src/remote_syslog.py:237-248 | A receiver reads facility and severity back from the header, followed by version 1 and the rest as it was. |
| SyslogFraming.EncodedStreamDecodes | src/remote_syslog.py:237-253 | The stream of encoded events decodes to those events. |
| SyslogForwarder.InvStep | src/remote_syslog.py:347-518 | Every step of configure, enqueue, stop and the workers keeps the invariant. |
| SyslogForwarder.Safety | src/remote_syslog.py:328-539 | Every reachable state of every interleaving satisfies the invariant. |
| SyslogForwarder.InstalledStreamIsCurrent | src/remote_syslog.py:470-518 | With the lock free, an installed stream is open and connected to the current, enabled target; every opened socket is closed, installed, or held by a worker about to install it, no two workers holding the same one. |
| SyslogForwarder.DeliversIffInstalled | src/remote_syslog.py:470-518 | A worker on a stream can deliver exactly while its stream is the installed one, which with the lock free leads to the current, enabled target; nothing is delivered over a stream that a change has closed. |
| SyslogForwarder.BytesReachAcceptingTarget | src/remote_syslog.py:421-518 | An event's bytes only go to the target of the configuration that accepted it. |
| SyslogForwarder.EveryEventIsInOnePlace | src/remote_syslog.py:347-443 | Accepted events are conserved: each is in exactly one of sent, failed, discarded, displaced, in flight or pending. |
| SyslogForwarder.BoundedAndInOrder | src/remote_syslog.py:405-443 | Queues respect their bounds and live events are taken in acceptance order. |
| SyslogForwarder.PendingStaleIsNeverSent | src/remote_syslog.py:421-443 | An event pending under an older generation is never encoded or sent. |
| SyslogForwarder.ResizeKeepsNothingAlive | src/remote_syslog.py:347-376 | Events kept by a resize are never sent. |
| SyslogForwarder.Configure | src/remote_syslog.py:347-376 | An uninterrupted resize leaves exactly the newest pending events, in order, and counts the others as displaced. |
| SyslogForwarder.AcceptedIffWanted | src/remote_syslog.py:405-409 | An event passes the configuration exactly if that is enabled and asks for its severity; otherwise nothing changes. |
| SyslogForwarder.PutAddsAtTail | src/remote_syslog.py:409-412 | A put adds exactly one item, at the tail of the queue it read, exactly when that has room; otherwise no queue changes. |
| SyslogForwarder.TurnsEnd | src/remote_syslog.py:421-443 | A worker that finds nothing, takes the sentinel or fails on its event is idle again; only the failure is recorded. |
| SyslogForwarder.StopReleasesSockets | src/remote_syslog.py:385-403 | Stopping puts a sentinel at the tail of the current queue if it has room, and closes the installed stream, so that every socket opened is closed or held by a worker about to install it. |
| SyslogForwarder.EventIsDelivered | src/remote_syslog.py:405-518 | From any reachable state with the lock free, an enabled configuration that wants the event, an idle worker and an empty queue, the uninterrupted path without errors (over UDP, the installed stream, or one it opens and installs) sends the event to the current target and leaves nothing behind. |
| SyslogForwarder.FreshForwarderDelivers | src/remote_syslog.py:347-518 | A forwarder just started is configured, gets a worker, and delivers the first event it wants to the configured target. |
| SyslogForwarder.DiscardedIffStale | src/remote_syslog.py:431-434 | A taken event is dropped exactly when its configuration is no longer in force or is disabled. |
| SyslogForwarder.RetriesOnce | src/remote_syslog.py:496-518 | A first send that fails on a stream leads to another stream while the configuration is in force; the broken one is closed if it is still installed. |
| SyslogForwarder.SecondFailureEnds | src/remote_syslog.py:435-443 | A second failure, or one over UDP, ends the event as failed and changes nothing else. |
| Roles.SortedRolesAreSorted | src/rbac.py:167-172 | The order in which stored roles are written is the sorted one. |
| Roles.StoredRolesReadBack | src/rbac.py:161-172 | Reading back serialised roles gives exactly the cleaned set and no other name. |
| Roles.NamesAreFields | src/rbac.py:161-164 | The names a stored text holds are exactly its stripped fields between commas that are not empty. |
| Roles.NormalizedIsLeastClosed | src/rbac.py:175-183 | The normalised selection is the least set closed under mandatory roles and dependencies, or every role for a global admin. |
| Roles.NormalizeSelectedRoles | src/rbac.py:175-183 | The loops compute that selection. |
| Roles.AssignableKeepsSensitive | src/rbac.py:238-269 | An account admin may assign exactly the selections that leave the sensitive roles as they are. |
| Roles.AssignedRoles | src/rbac.py:161-183 | What an assignment stores reads back as the normalised selection. |
| Accounts.UserTable.CurrentUser | src/auth.py:127-148 | A cookie signs in exactly the enabled row with its name and version. |
| Accounts.UserTable.RequireRole | src/rbac.py:199-204 | A request passes exactly when the stored roles of the signed-in row hold the role or the global admin's; reading DNS zones passes for everyone signed in, and reading API keys also with the global read role. |
| Accounts.AcceptedExactly | src/routes/settings_users.py:39-544 | The guards of every handler in terms of the roles that the rows of actor and target store. |
| Accounts.UserTable.ChangeOwnPassword | src/routes/settings_users.py:39-95 | Own password change: accepted exactly under its guards, with a new session version. |
| Accounts.UserTable.CreateUser | src/routes/settings_users.py:98-174 | Account creation: accepted exactly under its guards, name stripped, roles canonical. |
| Accounts.UserTable.DisableUser | src/routes/settings_users.py:177-250 | Disabling: accepted exactly under its guards, which the count of enabled users never narrows. |
| Accounts.UserTable.EnableUser | src/routes/settings_users.py:253-308 | Enabling: accepted exactly under its guards. |
| Accounts.UserTable.DeleteUser | src/routes/settings_users.py:311-384 | Deletion: accepted exactly under its guards, which the count of users never narrows. |
| Accounts.UserTable.ResetUserPassword | src/routes/settings_users.py:387-461 | Password reset: accepted exactly under its guards, with a new session version. |
| Accounts.UserTable.UpdateRoles | src/routes/settings_users.py:464-544 | Role change: accepted exactly under its guards, canonical text stored, with a new session version. |
| Accounts.AdminLostToAdmin | src/routes/settings_users.py:177-544 | One request at a time, whoever stops being an enabled global admin loses that to a different enabled one, who stays one. |
| Accounts.AdminRemains | src/routes/settings_users.py:98-544 | Every run of whole requests, one at a time, keeps at least one enabled global admin. |
| Accounts.PowerlessRun | src/routes/settings_users.py:39-544 | In runs of one request at a time in which nobody who acts has a role for accounts, no account appears or disappears, and each row stays as it is up to password changes by its own user. |
| Accounts.NonAdminStep | src/rbac.py:223-269 | One request at a time, a request by anyone else leaves global admins' rows, makes none, and changes no sensitive role. |
| Accounts.AdminsConstant | src/routes/settings_users.py:98-544 | In runs of one request at a time without an acting global admin, the set of global admins and their rows is constant. |
| Accounts.SensitiveRolesKept | src/routes/settings_users.py:464-544 | In such runs of one request at a time no existing account's sensitive roles change. |
| Accounts.NewAccountsHaveNone | src/routes/settings_users.py:98-174 | In such runs of one request at a time new accounts hold no sensitive role. |
| Accounts.VersionStep | src/auth.py:117-124 | One request at a time, session versions never fall, and rise with a new password, new roles or disabling. |
| Accounts.OldCookiesStayDead | src/auth.py:117-148 | In runs of one request at a time, after such a change no earlier cookie ever signs in again while the account exists. |
| AccountInterleaving.UninterruptedIsAtomic | src/routes/settings_users.py:39-544 | A handler that commits right after its guards is the atomic step. |
| AccountInterleaving.AdminRemainsIffUntargeted | src/routes/settings_users.py:98-544 | However the requests under way end, in any order, an enabled global admin remains, exactly when some enabled global admin is the target of no pending removal. |
| AccountInterleaving.AdminRemainsInRun | src/routes/settings_users.py:98-544 | In every interleaving in which each check leaves such an admin, one remains throughout. |
| AccountInterleaving.AdminRemainsWithoutOverlap | src/routes/settings_users.py:98-544 | So it does in every interleaving in which no two removals overlap. |
| AccountInterleaving.OverlappingRemovalsLeaveNone | src/routes/settings_users.py:177-232 | A run of two overlapping removals that leaves none. |
| AccountSessions.RisesIffNotOvertaken | src/auth.py:117-124 | While versions only rose, storing one raises the row's version exactly when none was stored since the check of that request. |
| AccountSessions.VersionsRiseIffNoneOvertaken | src/auth.py:117-124 | Over any interleaving, every stored version of a row is higher than the one before exactly when none was overtaken so. |
| AccountSessions.OldCookiesStayDeadInterleaved | src/auth.py:117-148 | In every interleaving without such overtaking, no cookie issued before a new password, new roles or disabling ever signs in again while the account exists. |
| AccountSessions.OverlappingResetsShareAVersion | src/routes/settings_users.py:387-461 | A run of two overlapping resets in which a cookie issued between them survives the second. |
| AccountSessions.OvertakenResetRevivesACookie | src/routes/settings_users.py:387-461 | A run in which a reset overtaken twice lowers the version, and a dead cookie signs in again. |
| AccountSessions.PowerlessInterleaving | src/routes/settings_users.py:39-544 | In every interleaving in which nobody who acts has a role for accounts, no account appears or disappears, and rows change only by their own users' passwords. |
| AccountSessions.AdminsConstantInterleaved | src/routes/settings_users.py:98-544 | In every interleaving without a check by a global admin, the set of global admins and their rows is constant. |
| AccountSessions.SensitiveRolesKeptInterleaved | src/routes/settings_users.py:464-544 | There an account's sensitive roles stay while it exists, if no change of roles for its row id was under way at the start. |
| AccountSessions.NewAccountsHaveNoneInterleaved | src/routes/settings_users.py:98-174 | And a new account has none, under the same condition on its row id. |
| AccountSessions.ReusedIdInheritsRoles | src/routes/settings_users.py:464-544 | A run without it: a new account gets the sensitive roles of the deleted one whose row id it has. |
| BackupTables.Rewrap | src/backup_service.py:151-169 | A re-wrapped token opens under the local key to the same text; it fails only for a bad key or an unreadable token. |
| BackupExport.BuildPayload | src/backup_service.py:329-418 | The export lists exactly the selected rows, each key with the names of its zones, without the excluded settings. |
| BackupExport.Migrate | src/backup_service.py:329-945 | Backing up one installation and restoring into another, end to end, reproduces every selected category, and without faults fails exactly for an empty selection, missing secrets, or foreign secrets alone; names stay unique, links live, and all tokens readable at the destination. |
| BackupRestore.ValidateRestoreRecords | src/backup_service.py:561-696 | Validation passes exactly the acceptable archives, category by category: every selected category is included; encrypted ones come with the secrets; users, zones and keys are complete and not repeated, hashes and access modes valid, some user an enabled global admin; secrets come sealed, complete and valid, and alone only with the present key. |
| BackupRestore.InsertSettings | src/backup_service.py:753-761 | Settings are re-wrapped under their stripped names beside the kept marker; it fails exactly for a repeated name or an unreadable token. |
| BackupRestore.InsertUsers | src/backup_service.py:764-777 | User rows with stripped names and canonical roles. |
| BackupRestore.InsertZones | src/backup_service.py:780-801 | Zone rows with re-wrapped configurations, and the index by name. |
| BackupRestore.InsertLinks | src/backup_service.py:817-821 | A key is linked to exactly the live zones it names; a live zone named twice fails. |
| BackupRestore.InsertKeys | src/backup_service.py:803-821 | One row per archived key, with its links. |
| BackupRestore.Installation.RestoreDatabase | src/backup_service.py:721-882 | The tables are committed whole or stay as they were: whole exactly if nothing in the archive or the database stops the transaction. |
| BackupRestore.Installation.RestoreFiles | src/backup_service.py:884-913 | Certificate files are replaced by the archive's, the ACME key re-wrapped, exactly if each can be written; a failed write damages at most the one file it was writing, and other files stay in any case. |
| BackupRestore.Installation.WriteSecrets | src/env_bootstrap.py:119-171 | The secrets file is rewritten whole unless its write fails, and then left alone or cut short; the environment file follows only afterwards. |
| BackupRestore.Installation.RestorePayload | src/backup_service.py:699-945 | An archive that misses a selected category, or is refused in any other way, changes nothing; without faults an acceptable and feasible one is restored, and only such a one. All or nothing before the commit, fully restored after it, also when a later step fails; tables stay consistent and open under the local key, and so does the ACME key unless its own write was torn; the key of the next start is the old one or this installation's, or, if the write of the secrets file was torn and no part of a key is itself a valid key, possibly the environment's. |
| BackupRestore.AdoptsOwnKey | src/backup_service.py:674-696 | Validated secrets without encrypted categories carry the present key. |
| BackupLaws.RestoreKeepsCoherence | src/backup_service.py:151-169 | Whatever point a restore reached, every ciphertext in the tables opens under the local key, and the ACME key does unless its write was torn, given that archive tokens open under the archive's. |
| BackupLaws.TornKeyFileCoherence | src/backup_service.py:884-913 | After a torn write of the ACME key, whatever it left, everything opens under the local key exactly when that is PEM text, or a token empty or sealed under that key. |
| BackupLaws.TornSecretsFallBack | src/env_bootstrap.py:68-79 | A secrets file cut short makes the next start use the environment's key. |
| BackupLaws.RestoreKeepsConsistency | src/backup_service.py:721-882 | Names stay unique and links join live keys to live zones. |
| BackupLaws.RestoreKeepsAnAdmin | src/backup_service.py:579-604 | A restore of users leaves an enabled global admin. |
| BackupLaws.RestoreKeepsProgress | src/backup_service.py:745-757 | A restore of settings neither deletes nor overwrites its own progress marker. |
| BackupLaws.UnselectedStays | src/backup_service.py:721-882 | A restore leaves what is not selected: only session versions may change, and links to replaced zones go. |
| BackupLaws.SettingsArrive | src/backup_service.py:745-761 | After a restore of settings exactly the progress marker and the archived settings are there, each with its token, or with its text under this installation's key. |
| BackupLaws.UsersArrive | src/backup_service.py:764-777 | Exactly the archived accounts are there, with their hashes and states, and their roles completed. |
| BackupLaws.ZonesArrive | src/backup_service.py:780-801 | Every zone after a restore of zones is an archived one, none twice, ... |
| BackupLaws.ZoneArrives | src/backup_service.py:780-801 | ... and every archived one is there, with its configuration under this installation's key. |
| BackupLaws.KeysArrive | src/backup_service.py:803-821 | There are as many API keys as archived, with links only between live keys and zones, ... |
| BackupLaws.KeyArrives | src/backup_service.py:803-821 | ... and every archived one is there, linked to exactly the live zones that it names. |
| BackupLaws.FilesArrive | src/backup_service.py:884-913 | Archived certificate files arrive as they are, the ACME account key with the same text under this installation's key, and no other file changes. |
| BackupLaws.FreshInstallationIsHealthy | src/backup_service.py:561-604 | A fresh installation with one global admin meets what the export theorems ask of an installation. |
| BackupLaws.ExportIsRestorable | src/backup_service.py:561-696 | An export of a healthy installation passes validation exactly when it is portable (secrets with encrypted categories, and secrets alone only with the same key), and then nothing in it stops its restore. |
| BackupLaws.ExportOpens | src/backup_service.py:329-418 | Every token of an export of a healthy installation opens under the key that the export carries. |
| BackupLaws.RoundTrip | src/backup_service.py:329-882 | Restoring an export reproduces its tables and key-zone links, every ciphertext with the same text under the new key. |
| BackupLaws.FilesRoundTrip | src/backup_service.py:884-913 | And its certificate files. |
| WorkerGate.InvStep | src/settings_store.py:123-129 | Every lock, read, write and commit step keeps the gate's invariant. |
| WorkerGate.BeginsAreSeparated | src/backup_service.py:219-250 | Between any two successful begins there is a terminal or clearing write, in every interleaving; none succeeds while the row says running. |
| WorkerGate.RefusedExactlyWhileRunning | src/letsencrypt.py:184-191 | In every interleaving a begin is refused exactly while the last write to its gate was a begin or another running row. |
| WorkerGate.RunningExactly | src/backup_service.py:219-223 | Running means not done, and in a phase that is neither blank nor "idle" in any case. |
| WorkerGate.BeginUninterrupted | src/backup_service.py:230-237 | A begin nobody interrupts succeeds exactly on a gate that is not running, leaving the starting row; otherwise it changes nothing. |
| WorkerGate.PutUninterrupted | src/settings_store.py:123-129 | Another write leaves its row, and nobody begins or writes while a client holds the lock. |
| RateLimit.Limiter.MaybeCleanupExpired | src/rate_limit.py:104-108 | The cleanup, when drawn, removes exactly the expired rows. |
| RateLimit.Limiter.RateLimitExceeded | src/rate_limit.py:116-179 | The decision is counted exactly if one of three attempts commits and those before it found the database locked; then a request is rejected exactly when its bucket's row remembers `max`, and a bucket without a row admits it. Otherwise it is rejected and nothing is counted. |
| RateLimit.CountedIsCardinality | src/rate_limit.py:116-168 | What a bucket counts is the number of decisions of its identity on its route in its window. |
| RateLimit.AdmittedIsCardinality | src/rate_limit.py:116-168 | And the admitted ones in a span are counted as they are. |
| RateLimit.FullCountIffNotForgotten | src/rate_limit.py:104-179 | A row holds the full count of its bucket exactly when no cleanup removed counts of it. |
| RateLimit.VerdictsAreRightIffOnTime | src/rate_limit.py:104-179 | Every verdict of a bucket counts all earlier decisions in it exactly when none comes after its counts were removed. |
| RateLimit.OrderedIsOnTime | src/rate_limit.py:104-179 | Decisions in clock order are always on time. |
| RateLimit.DelayedRequestIsAdmittedTwice | src/rate_limit.py:104-179 | A run out of clock order that admits more than `max` in one window. |
| RateLimit.AdmittedPerWindow | src/rate_limit.py:116-179 | In each aligned window whose bucket is on time exactly the first `max` requests are admitted. |
| RateLimit.AdmittedInAnySpan | src/rate_limit.py:116-179 | At most twice `max` in any `window` consecutive seconds, if the two buckets it meets are on time. |
| RateLimit.OrderedBounds | src/rate_limit.py:116-179 | In clock order both bounds always hold. |
| ZoneTransfer.ListTransfer | src/plugins/bind.py:117-204 | The streaming lister returns the first `limit` matches of the first 5000 RRsets, as many as there are, truncated if and only if there are more matches or more RRsets; a broken transfer is an error exactly when the listing had to read that far. |
| ZoneTransfer.CompleteUnlessTruncated | src/plugins/bind.py:117-160 | A listing not marked truncated shows every match of the zone. |
| ZoneTransfer.MatchesInOrder | src/plugins/bind.py:138-158 | The matches are what the wanted RRsets show, all of them and in order. |
| ZoneTransfer.FirstSoaKept | src/plugins/bind.py:184-193 | The first SOA RRset is passed on. |
| ZoneTransfer.OnlySoasDropped | src/plugins/bind.py:184-193 | Dropping repeated SOA RRsets loses no other match and no order. |
| ZoneTransfer.OneSoa | src/plugins/bind.py:184-193 | At most one SOA RRset is passed on. |
| ZoneTransfer.ListRecordSets | src/plugins/azure.py:141-170 | The Azure lister meets the same specification without the cap. |
| ZoneTransfer.SlotsMatchThreads | src/plugins/bind.py:27-33 | Slots taken equal the threads in a transfer, never more than two, none is released beyond the bound, and another thread is refused exactly when there are two. |
| ZoneTransfer.TransferInTurns | src/plugins/bind.py:162-204 | A thread that finds a slot can transfer, stop at any point and give the slot back, leaving what it found; one that finds none is refused and changes nothing. |
| WinRmStaging.Base64RoundTrip | src/plugins/microsoft.py:94-95 | Decoding base64 text, section 4 of RFC 4648, gives the bytes back. |
| WinRmStaging.Base64Examples | src/plugins/microsoft.py:94-95 | Examples of section 10 of RFC 4648, and the last two digits. |
| WinRmStaging.ShortCodePoint | src/plugins/microsoft.py:94-95 | UTF-8 keeps code points of one or two bytes, ... |
| WinRmStaging.MiddleCodePoint | src/plugins/microsoft.py:94-95 | ... of three, ... |
| WinRmStaging.LongCodePoint | src/plugins/microsoft.py:94-95 | ... and of four. |
| WinRmStaging.StagingTexts | src/plugins/microsoft.py:102-118 | The first staging command sets the content of the file, the later ones add to it. |
| WinRmStaging.ChunksConcat | src/plugins/microsoft.py:95-100 | The chunks concatenate to the whole text. |
| WinRmStaging.StagedScriptRuns | src/plugins/microsoft.py:93-136 | The staged file decodes to exactly the bytes of the script, of any length. |
| WinRmStaging.StagingFits | src/plugins/microsoft.py:35-40 | No staging command exceeds 6000 encoded characters, and no chunk can end the literal that quotes it. |
| WinRmStaging.Session.RunPsPayload | src/plugins/microsoft.py:87-136 | A script whose encoded form has at most 6000 characters is sent as it is, a longer one staged; every command sent fits; a failing step ends the run; a complete staging executes the original bytes. |

## Left out

- Accounts.OldCookiesStayDead: an account deleted and created again under the same name starts again at version 0, so the account must exist throughout.
- Interleaved account handlers: a commit writes its columns without further database conflicts. A handler reads its actor at the session check and its target a little later; both are one moment here, the session check, from which overlap counts.
- AccountSessions.OldCookiesStayDeadInterleaved: as for whole requests, the account must exist throughout.
- IPv6 text forms are a parameter with the one property used; Unicode case folding and normalisation are left out.
- The proxied flag, comments and tags of Cloudflare rows, rows without an integer TTL, and wildcard name patterns: the pattern is an arbitrary predicate.
- `prepare_mutation` and the reverse-zone and apex guards: checks before the modelled calls.
- The syslog forwarder is a state machine over values, not a class, because its methods interleave at lock boundaries; the worker's stop flag and exit, the UDP socket's reuse and rate-limited warnings are over-approximated or left out.
- RFC 5424 header fields other than the priority; message text is opaque.
- Password hashing is replaced by the password a hash accepts.
- Backup: JSON typing of archive fields, the password envelope, dates, the work factor of password hashes and base64 of files are parameters or already decoded; alert rules and log rows are copied whole; row ids of settings and users are not modelled; progress messages, whose rows belong to another session, are left out.
- The text of the secrets file and the project's .env file: the durable keys are modelled by value, cut short by a torn write.
- A `zone_id` inside the Let's Encrypt setting is not remapped by a restore, and is not part of consistency.
- Mutual exclusion of whole restore workers: the call that marks a worker finished may run after another begin.
- Databases other than SQLite, where the gate takes no lock.
- Matching a request to its rate-limit route and identity, and the environment overrides.
- PowerShell and WinRM themselves, the retry loop around a payload, Azure and dnspython objects, and record writes through BIND, Azure and Microsoft DNS.
- ACME, certificates, templates, log search, redaction and retention: little state, or behaviour of other systems.
