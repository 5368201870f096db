/** Reconciling the rows of one RRset with the desired values (src/plugins/cloudflare.py, lines 416-486). */
module CloudflareSync {
  import opened Basics
  import opened Text
  import opened RecordValues
  import opened CloudflareRows
  import opened RecordStore

  /** The first loop of `_sync_records`: which row to keep for each desired value, and which rows are stale. */
  method ClassifyRows(rows: Rows, ip6: Ip6, key: Key, desired: seq<string>, existing: seq<nat>)
    returns (r: Result<(map<string, nat>, seq<nat>)>)
    requires Listing(rows, key, existing)
    ensures r.Err? <==> Unreadable(ip6, rows, key)
    ensures r.Ok? ==> Classified(ip6, rows, key, desired, existing, r.value.0, r.value.1)
    ensures r.Ok? && Settled(ip6, rows, key, desired) ==> r.value.1 == [] && forall v :: v in desired ==> v in r.value.0
  {
    hide Value, Settled;
    var kept: map<string, nat>, stale: seq<nat> := map[], [];
    assert forall k :: 0 <= k < |existing| ==> existing[k] in existing && At(rows, key, existing[k]);
    for i := 0 to |existing|
      invariant forall k :: 0 <= k < i ==> Value(ip6, rows[existing[k]]).Ok?
      invariant Classified(ip6, rows, key, desired, existing[..i], kept, stale)
    {
      var content := Value(ip6, rows[existing[i]]);
      if content.Err? {
        return Err(content.message);
      }
      ClassifyNext(ip6, rows, key, desired, existing, i, kept, stale);
      if content.value in desired && content.value !in kept {
        kept := kept[content.value := existing[i]];
      } else {
        stale := stale + [existing[i]];
      }
    }
    assert existing[..|existing|] == existing;
    if Settled(ip6, rows, key, desired) {
      SettledHasNoStale(ip6, rows, key, desired, existing, kept, stale);
    }
    r := Ok((kept, stale));
  }

  /** The second loop: delete the stale rows one by one. */
  method DeleteStale(zone: RemoteZone, ghost ip6: Ip6, key: Key, ghost desired: seq<string>, ghost existing: seq<nat>,
      ghost kept: map<string, nat>, stale: seq<nat>) returns (r: Result<()>)
    requires zone.Valid() && Listing(zone.rows, key, existing)
    requires Classified(ip6, zone.rows, key, desired, existing, kept, stale)
    modifies zone
    ensures Extends(old(zone.requests), old(zone.states), old(zone.rows), zone.requests, zone.states, zone.rows)
    ensures zone.Valid() && zone.hidden == old(zone.hidden) && old(zone.nextId) <= zone.nextId
    ensures (r.Ok? ==> zone.faults == old(zone.faults)) && (r.Err? ==> zone.faults > old(zone.faults))
    ensures forall k :: |old(zone.states)| <= k < |zone.states| ==>
      Safe(ip6, old(zone.rows), zone.states[k], key, desired)
    ensures Safe(ip6, old(zone.rows), zone.rows, key, desired)
    ensures forall k :: |old(zone.states)| <= k < |zone.states| ==>
      OnlyStaleGone(ip6, old(zone.rows), zone.states[k], key, desired)
    ensures |zone.states| - |old(zone.states)| <= |stale| && forall k :: |old(zone.states)| <= k < |zone.states| ==>
      LacksFirst(old(zone.rows), zone.states[k], stale, k - |old(zone.states)| + 1)
    ensures r.Ok? ==> forall id :: id in zone.rows <==> id in old(zone.rows) && id !in stale
    ensures r.Ok? ==> forall id :: id in zone.rows ==> zone.rows[id] == old(zone.rows)[id]
    ensures stale == [] ==> r.Ok? && zone.requests == old(zone.requests) && zone.rows == old(zone.rows)
  {
    hide RemoteZone.Valid, Safe, OnlyStaleGone, LacksFirst, Value, Classified;
    ghost var before, seen := zone.rows, |zone.states|;
    SafeSelf(ip6, before, key, desired);
    StaleIsListed(ip6, before, key, desired, existing, kept, stale);
    LacksNone(before, stale);
    for i := 0 to |stale|
      invariant zone.Valid() && zone.hidden == old(zone.hidden) && old(zone.nextId) <= zone.nextId
      invariant zone.faults == old(zone.faults)
      invariant Extends(old(zone.requests), old(zone.states), before, zone.requests, zone.states, zone.rows)
      invariant |zone.states| == seen + i && LacksFirst(before, zone.rows, stale, i)
      invariant forall k :: seen <= k < |zone.states| ==> LacksFirst(before, zone.states[k], stale, k - seen + 1)
    {
      LacksNext(before, zone.rows, key, stale, i);
      r := zone.Delete(stale[i]);
      if r.Err? {
        DeletesAreSafe(ip6, before, zone.rows, zone.states, seen, key, desired, existing, kept, stale);
        return;
      }
    }
    DeletesAreSafe(ip6, before, zone.rows, zone.states, seen, key, desired, existing, kept, stale);
    LacksAll(before, zone.rows, stale);
    r := Ok(());
  }

  /** The rows without the first `n` stale ones. */
  ghost predicate LacksFirst(before: Rows, now: Rows, stale: seq<nat>, n: nat)
    requires n <= |stale|
  {
    && (forall id :: id in now <==> id in before && id !in stale[..n])
    && (forall id :: id in now ==> now[id] == before[id])
  }

  lemma LacksNone(before: Rows, stale: seq<nat>)
    ensures LacksFirst(before, before, stale, 0)
  {
  }

  lemma LacksNext(before: Rows, now: Rows, key: Key, stale: seq<nat>, i: nat)
    requires i < |stale| && LacksFirst(before, now, stale, i)
    requires NoDuplicates(stale) && At(before, key, stale[i])
    ensures stale[i] in now && LacksFirst(before, now - {stale[i]}, stale, i + 1)
  {
    assert stale[..i + 1] == stale[..i] + [stale[i]];
    assert stale[i] !in stale[..i];
  }

  lemma LacksAll(before: Rows, now: Rows, stale: seq<nat>)
    requires LacksFirst(before, now, stale, |stale|)
    ensures forall id :: id in now <==> id in before && id !in stale
    ensures forall id :: id in now ==> now[id] == before[id]
  {
    assert stale[..|stale|] == stale;
  }

  lemma DeletesAreSafe(ip6: Ip6, before: Rows, now: Rows, states: seq<Rows>, seen: nat, key: Key,
      desired: seq<string>, existing: seq<nat>, kept: map<string, nat>, stale: seq<nat>)
    requires Listing(before, key, existing) && seen <= |states| <= seen + |stale|
    requires Classified(ip6, before, key, desired, existing, kept, stale)
    requires forall k :: seen <= k < |states| ==> LacksFirst(before, states[k], stale, k - seen + 1)
    requires now == if |states| == seen then before else states[|states| - 1]
    ensures forall k :: seen <= k < |states| ==>
      Safe(ip6, before, states[k], key, desired) && OnlyStaleGone(ip6, before, states[k], key, desired)
    ensures Safe(ip6, before, now, key, desired)
  {
    hide Safe, OnlyStaleGone, Value, Classified, Listing;
    SafeSelf(ip6, before, key, desired);
    forall k | seen <= k < |states|
      ensures Safe(ip6, before, states[k], key, desired) && OnlyStaleGone(ip6, before, states[k], key, desired)
    {
      DeletingIsSafe(ip6, before, states[k], key, desired, existing, kept, stale, k - seen + 1);
    }
  }

  /** The third loop: update the kept row of each desired value, or create one. */
  method PlaceDesired(zone: RemoteZone, ghost ip6: Ip6, key: Key, ttl: int, desired: seq<string>,
      kept: map<string, nat>, ghost origin: Rows) returns (r: Result<()>)
    requires zone.Valid() && Writable(key, desired)
    requires Placed(ip6, origin, zone.rows, key, ttl, [], kept, [])
    requires Safe(ip6, origin, zone.rows, key, desired) && (forall id :: id in origin ==> id < zone.nextId)
    requires KeptMatches(ip6, origin, key, desired, kept)
    modifies zone
    ensures Extends(old(zone.requests), old(zone.states), old(zone.rows), zone.requests, zone.states, zone.rows)
    ensures zone.Valid() && zone.hidden == old(zone.hidden) && old(zone.nextId) <= zone.nextId
    ensures (r.Ok? ==> zone.faults == old(zone.faults)) && (r.Err? ==> zone.faults > old(zone.faults))
    ensures forall k :: |old(zone.states)| <= k < |zone.states| ==> Safe(ip6, origin, zone.states[k], key, desired)
    ensures TracePlaced(ip6, origin, zone.states, |old(zone.states)|, key, desired)
    ensures Safe(ip6, origin, zone.rows, key, desired)
    ensures r.Ok? ==> exists target :: Placed(ip6, origin, zone.rows, key, ttl, desired, kept, target)
    ensures r.Ok? ==> |zone.states| == |old(zone.states)| + |desired|
    ensures (forall v :: v in desired ==> v in kept) ==>
      && (forall k :: |old(zone.requests)| <= k < |zone.requests| ==> zone.requests[k].Updated?)
      && zone.rows.Keys == old(zone.rows.Keys)
  {
    hide Safe, Placed, PlacedUpTo, OthersKept, KeptMatches, RecordBody;
    ghost var asked, seen := |zone.requests|, |zone.states|;
    ghost var target: seq<nat> := [];
    SafeOthers(ip6, origin, zone.rows, key, desired);
    for i := 0 to |desired|
      invariant zone.Valid() && zone.hidden == old(zone.hidden) && zone.faults == old(zone.faults)
      invariant old(zone.nextId) <= zone.nextId && forall id :: id in origin ==> id < zone.nextId
      invariant Extends(old(zone.requests), old(zone.states), old(zone.rows), zone.requests, zone.states, zone.rows)
      invariant OthersKept(origin, zone.rows, key) && Safe(ip6, origin, zone.rows, key, desired)
      invariant |target| == i && Placed(ip6, origin, zone.rows, key, ttl, desired[..i], kept, target)
      invariant forall k :: seen <= k < |zone.states| ==> Safe(ip6, origin, zone.states[k], key, desired)
      invariant |zone.states| == seen + i && TracePlaced(ip6, origin, zone.states, seen, key, desired)
      invariant (forall v :: v in desired ==> v in kept) ==>
        && (forall k :: asked <= k < |zone.requests| ==> zone.requests[k].Updated?)
        && zone.rows.Keys == old(zone.rows.Keys)
    {
      var content := desired[i];
      var row := Row(key, ttl, RecordBody(key.name, key.rtype, content).value);
      ghost var prior, sent := zone.rows, |zone.requests|;
      ghost var id := if content in kept then kept[content] else zone.nextId;
      if content in kept {
        KeptPresent(ip6, origin, zone.rows, key, ttl, desired[..i], kept, target, content);
        r := zone.Update(kept[content], row);
      } else {
        var created := zone.Create(row);
        r := if created.Ok? then Ok(()) else Err(created.message);
      }
      if |zone.requests| > sent {
        assert (target + [id])[..i] == target;
        target := target + [id];
        assert desired[..i + 1] == desired[..i] + [content];
        OthersKeptUpdate(origin, prior, key, id, row);
        PlaceNext(ip6, origin, prior, zone.rows, key, ttl, desired[..i], content, kept, target);
        PlacedIsSafe(ip6, origin, zone.rows, key, ttl, desired, i + 1, kept, target);
        PlacedContents(ip6, origin, zone.rows, key, ttl, desired, i + 1, kept, target);
      }
      if r.Err? {
        return;
      }
    }
    assert desired[..|desired|] == desired;
    r := Ok(());
  }

  /** `_sync_records` for every type but CNAME, over the listed rows. */
  method SyncMany(zone: RemoteZone, ip6: Ip6, key: Key, ttl: int, desired: seq<string>, existing: seq<nat>)
    returns (r: Result<()>)
    requires zone.Valid() && Listing(zone.rows, key, existing) && Writable(key, desired)
    modifies zone
    ensures Extends(old(zone.requests), old(zone.states), old(zone.rows), zone.requests, zone.states, zone.rows)
    ensures zone.Valid() && zone.hidden == old(zone.hidden) && old(zone.nextId) <= zone.nextId
    ensures r.Ok? ==> zone.faults == old(zone.faults)
    ensures r.Err? ==> zone.faults > old(zone.faults) || Unreadable(ip6, old(zone.rows), key)
    ensures forall k :: |old(zone.states)| <= k < |zone.states| ==>
      Safe(ip6, old(zone.rows), zone.states[k], key, desired)
    ensures exists start: nat ::
      && Course(ip6, old(zone.rows), zone.states, |old(zone.states)|, start, key, desired)
      && (r.Ok? ==> |zone.states| == start + |desired|)
    ensures Safe(ip6, old(zone.rows), zone.rows, key, desired)
    ensures r.Ok? ==> Synced(ip6, zone.rows, key, ttl, desired)
    ensures r.Ok? && AllRoundTrip(ip6, key, desired) ==>
      (Settled(ip6, zone.rows, key, desired) <==> RepeatsPresent(ip6, old(zone.rows), key, desired))
    ensures Settled(ip6, old(zone.rows), key, desired) ==>
      && (forall k :: |old(zone.requests)| <= k < |zone.requests| ==> zone.requests[k].Updated?)
      && zone.rows.Keys == old(zone.rows.Keys)
    ensures Unreadable(ip6, old(zone.rows), key) ==> r.Err? && zone.requests == old(zone.requests)
  {
    hide Safe, Settled, Synced, OthersKept, Placed, Classified, KeptMatches, Writable, Unreadable, Listing,
      AllRoundTrip, RepeatsPresent;
    SafeSelf(ip6, zone.rows, key, desired);
    ghost var before, seen := zone.rows, |zone.states|;
    var classes := ClassifyRows(zone.rows, ip6, key, desired, existing);
    if classes.Err? {
      assert Course(ip6, before, zone.states, seen, seen, key, desired);
      return Err(classes.message);
    }
    var (kept, stale) := classes.value;
    r := DeleteStale(zone, ip6, key, desired, existing, kept, stale);
    ghost var start := |zone.states|;
    if r.Err? {
      assert Course(ip6, before, zone.states, seen, start, key, desired);
      return;
    }
    ReadyToPlace(ip6, before, zone.rows, key, ttl, desired, existing, kept, stale);
    r := PlaceDesired(zone, ip6, key, ttl, desired, kept, before);
    assert Course(ip6, before, zone.states, seen, start, key, desired);
    if r.Ok? {
      ghost var target :| Placed(ip6, before, zone.rows, key, ttl, desired, kept, target);
      PlacedIsSynced(ip6, before, zone.rows, key, ttl, desired, kept, target);
      if AllRoundTrip(ip6, key, desired) {
        PlacedIsSettled(ip6, before, zone.rows, key, ttl, desired, kept, target);
      }
    }
  }

  /** `_sync_records` for CNAME: rewrite the first row, then delete the others. */
  method SyncOne(zone: RemoteZone, ghost ip6: Ip6, key: Key, ttl: int, content: string, existing: seq<nat>)
    returns (r: Result<()>)
    requires zone.Valid() && Listing(zone.rows, key, existing) && Writable(key, [content])
    modifies zone
    ensures Extends(old(zone.requests), old(zone.states), old(zone.rows), zone.requests, zone.states, zone.rows)
    ensures zone.Valid() && zone.hidden == old(zone.hidden) && old(zone.nextId) <= zone.nextId
    ensures (r.Ok? ==> zone.faults == old(zone.faults)) && (r.Err? ==> zone.faults > old(zone.faults))
    ensures forall k :: |old(zone.states)| <= k < |zone.states| ==>
      Safe(ip6, old(zone.rows), zone.states[k], key, [content])
    ensures Safe(ip6, old(zone.rows), zone.rows, key, [content])
    ensures r.Ok? ==> Synced(ip6, zone.rows, key, ttl, [content])
    ensures r.Ok? && AllRoundTrip(ip6, key, [content]) ==> Settled(ip6, zone.rows, key, [content])
    ensures Settled(ip6, old(zone.rows), key, [content]) ==>
      && (forall k :: |old(zone.requests)| <= k < |zone.requests| ==> zone.requests[k].Updated?)
      && zone.rows.Keys == old(zone.rows.Keys)
  {
    hide Safe, Synced, Settled, AllRoundTrip, OthersKept, RecordBody, Value;
    assert forall id :: id in existing <==> At(zone.rows, key, id);
    ghost var before, asked := zone.rows, |zone.requests|;
    var row := Row(key, ttl, RecordBody(key.name, key.rtype, content).value);
    assert content in [content];
    SafeSelf(ip6, before, key, [content]);
    SettledIsListed(ip6, before, key, content, existing);
    if existing == [] {
      var created := zone.Create(row);
      if |zone.requests| > asked {
        forall id | id in before ensures before[id].key != key {
          assert id in existing <==> At(before, key, id);
        }
        OneRowIsSynced(ip6, before, zone.rows, key, row, content, old(zone.nextId));
      }
      return if created.Ok? then Ok(()) else Err(created.message);
    }
    FirstIsMember(existing);
    r := zone.Update(existing[0], row);
    if |zone.requests| > asked {
      OneRowIsSafe(ip6, before, zone.rows, key, row, content, existing[0]);
    }
    if r.Err? {
      return;
    }
    r := DeleteRest(zone, ip6, key, row, content, existing, before);
  }

  /** The rest of the CNAME branch: delete every row but the first, which holds the new value already. */
  method DeleteRest(zone: RemoteZone, ghost ip6: Ip6, key: Key, ghost row: Row, ghost content: string,
      existing: seq<nat>,
      ghost before: Rows) returns (r: Result<()>)
    requires zone.Valid() && Listing(before, key, existing) && existing != []
    requires RecordBody(key.name, key.rtype, content).Ok?
    requires row == Row(key, row.ttl, RecordBody(key.name, key.rtype, content).value)
    requires existing[0] in before && zone.rows == before[existing[0] := row]
    requires Safe(ip6, before, zone.rows, key, [content])
    modifies zone
    ensures Extends(old(zone.requests), old(zone.states), old(zone.rows), zone.requests, zone.states, zone.rows)
    ensures zone.Valid() && zone.hidden == old(zone.hidden) && old(zone.nextId) <= zone.nextId
    ensures (r.Ok? ==> zone.faults == old(zone.faults)) && (r.Err? ==> zone.faults > old(zone.faults))
    ensures forall k :: |old(zone.states)| <= k < |zone.states| ==> Safe(ip6, before, zone.states[k], key, [content])
    ensures Safe(ip6, before, zone.rows, key, [content])
    ensures r.Ok? ==> Synced(ip6, zone.rows, key, row.ttl, [content])
    ensures r.Ok? && AllRoundTrip(ip6, key, [content]) ==> Settled(ip6, zone.rows, key, [content])
    ensures |existing| == 1 ==> zone.requests == old(zone.requests) && zone.rows == old(zone.rows)
  {
    hide RemoteZone.Valid, Safe, Synced, Settled, AllRoundTrip, OthersKept, RecordBody, Value;
    assert forall id :: id in existing <==> At(before, key, id);
    ghost var seen := |zone.states|;
    for i := 1 to |existing|
      invariant zone.Valid() && zone.hidden == old(zone.hidden) && old(zone.nextId) <= zone.nextId
      invariant zone.faults == old(zone.faults)
      invariant Extends(old(zone.requests), old(zone.states), old(zone.rows), zone.requests, zone.states, zone.rows)
      invariant existing[0] in zone.rows && zone.rows[existing[0]] == row
      invariant forall id :: id in zone.rows <==> id in before && id !in existing[1..i]
      invariant forall id :: id in zone.rows && id != existing[0] ==> zone.rows[id] == before[id]
      invariant forall k :: seen <= k < |zone.states| ==> Safe(ip6, before, zone.states[k], key, [content])
      invariant Safe(ip6, before, zone.rows, key, [content])
      invariant i == 1 ==> zone.requests == old(zone.requests) && zone.rows == old(zone.rows)
    {
      assert existing[i] in existing && existing[i] !in existing[1..i];
      ghost var sent := |zone.requests|;
      r := zone.Delete(existing[i]);
      if |zone.requests| > sent {
        assert existing[1..i + 1] == existing[1..i] + [existing[i]];
        forall id | id in before && before[id].key != key ensures id in zone.rows {
          assert id in existing[1..i + 1] ==> id in existing;
        }
        FirstIsMember(existing);
        OneRowIsSafe(ip6, before, zone.rows, key, row, content, existing[0]);
      }
      if r.Err? {
        return;
      }
    }
    assert forall id :: id in existing <==> id == existing[0] || id in existing[1..];
    assert existing[1..|existing|] == existing[1..];
    OneRowIsSynced(ip6, before, zone.rows, key, row, content, existing[0]);
    r := Ok(());
  }

  /** `_sync_records`. */
  method SyncRecords(zone: RemoteZone, ip6: Ip6, key: Key, ttl: int, desired: seq<string>, existing: seq<nat>)
    returns (r: Result<()>)
    requires zone.Valid() && Listing(zone.rows, key, existing) && Writable(key, desired)
    requires desired != [] && (key.rtype == CNAME ==> |desired| == 1)
    modifies zone
    ensures Extends(old(zone.requests), old(zone.states), old(zone.rows), zone.requests, zone.states, zone.rows)
    ensures zone.Valid() && zone.hidden == old(zone.hidden) && old(zone.nextId) <= zone.nextId
    ensures r.Ok? ==> zone.faults == old(zone.faults)
    ensures r.Err? ==> zone.faults > old(zone.faults) || (key.rtype != CNAME && Unreadable(ip6, old(zone.rows), key))
    ensures forall k :: |old(zone.states)| <= k < |zone.states| ==>
      Safe(ip6, old(zone.rows), zone.states[k], key, desired)
    ensures Safe(ip6, old(zone.rows), zone.rows, key, desired)
    ensures r.Ok? ==> Synced(ip6, zone.rows, key, ttl, desired)
    ensures r.Ok? && AllRoundTrip(ip6, key, desired) ==>
      (Settled(ip6, zone.rows, key, desired) <==> RepeatsPresent(ip6, old(zone.rows), key, desired))
    ensures Settled(ip6, old(zone.rows), key, desired) ==>
      && (forall k :: |old(zone.requests)| <= k < |zone.requests| ==> zone.requests[k].Updated?)
      && zone.rows.Keys == old(zone.rows.Keys)
  {
    hide Safe, Synced, Settled, AllRoundTrip, RecordBody, Unreadable;
    if key.rtype == CNAME {
      assert desired == [desired[0]];
      r := SyncOne(zone, ip6, key, ttl, desired[0], existing);
    } else {
      r := SyncMany(zone, ip6, key, ttl, desired, existing);
    }
  }

  /** Syncing the same values twice, each time from a fresh listing: the second sync creates and deletes
      nothing and keeps every id, given values that read back unchanged and, if listed twice, were there
      already, and an RRset that one response can list before and after. */
  method SyncAgain(zone: RemoteZone, ip6: Ip6, key: Key, ttl: int, desired: seq<string>)
    returns (first: Result<()>, second: Result<()>, ghost between: Rows, ghost quiet: seq<Request>)
    requires zone.Valid() && Writable(key, desired) && desired != [] && (key.rtype == CNAME ==> |desired| == 1)
    requires AllRoundTrip(ip6, key, desired) && RepeatsPresent(ip6, zone.Whole(), key, desired)
    requires Fits(zone.Whole(), key, zone.pageSize) && |Elements(desired)| <= zone.pageSize
    modifies zone
    ensures first.Ok? ==> (forall k :: 0 <= k < |quiet| ==> quiet[k].Updated?) && zone.Whole().Keys == between.Keys
    ensures zone.Valid() && (zone.reliable ==> (first.Ok? || Unreadable(ip6, old(zone.Whole()), key)))
    ensures first.Ok? && second.Ok? ==> Settled(ip6, zone.Whole(), key, desired)
  {
    hide Safe, Settled, Synced, OthersKept, Writable, AllRoundTrip, RepeatsPresent, Unreadable, Listing,
      Fits, CutOff;
    between, quiet := zone.Whole(), [];
    first, second := Ok(()), Ok(());
    var listed := zone.List(key);
    if listed.Err? {
      return Err(listed.message), Err(listed.message), between, quiet;
    }
    NothingHidden(zone.Whole(), zone.rows, zone.hidden, key, zone.pageSize);
    PlusNothing(zone.rows);
    first := SyncRecords(zone, ip6, key, ttl, desired, listed.value);
    between, second := zone.Whole(), first;
    if first.Ok? {
      PlusNothing(zone.rows);
      SettledFits(ip6, zone.rows, key, desired, zone.pageSize);
      SettledRepeats(ip6, zone.rows, key, desired);
      ghost var asked := |zone.requests|;
      listed := zone.List(key);
      if listed.Err? {
        return first, Err(listed.message), between, quiet;
      }
      NothingHidden(zone.Whole(), zone.rows, zone.hidden, key, zone.pageSize);
      PlusNothing(zone.rows);
      second := SyncRecords(zone, ip6, key, ttl, desired, listed.value);
      PlusNothing(zone.rows);
      quiet := zone.requests[asked..];
      assert forall k :: 0 <= k < |quiet| ==> quiet[k] == zone.requests[asked + k];
    }
  }

  lemma NothingHidden(whole: Rows, rows: Rows, hidden: Rows, key: Key, size: nat)
    requires CutOff(whole, hidden, key, size) && Fits(whole, key, size)
    ensures hidden == map[] && whole + hidden == whole
  {
    assert hidden.Keys == {};
  }

  lemma PlusNothing(rows: Rows)
    ensures rows + map[] == rows
  {
  }

  lemma SettledRepeats(ip6: Ip6, rows: Rows, key: Key, desired: seq<string>)
    ensures Settled(ip6, rows, key, desired) ==> RepeatsPresent(ip6, rows, key, desired)
  {
    hide Value;
  }

  /** A settled RRset has one row for each desired value. */
  lemma SettledFits(ip6: Ip6, rows: Rows, key: Key, desired: seq<string>, size: nat)
    requires |Elements(desired)| <= size
    ensures Settled(ip6, rows, key, desired) ==> Fits(rows, key, size)
  {
    hide Value;
    if Settled(ip6, rows, key, desired) {
      OneRowEach(ip6, rows, key, IdsOf(rows, key), Elements(desired));
    }
  }

  lemma {:induction false} OneRowEach(ip6: Ip6, rows: Rows, key: Key, ids: set<nat>, values: set<string>)
    requires forall id :: id in ids ==> id in rows && Value(ip6, rows[id]).Ok? && Value(ip6, rows[id]).value in values
    requires forall i, j :: i in ids && j in ids && i != j ==> Value(ip6, rows[i]) != Value(ip6, rows[j])
    ensures |ids| <= |values|
  {
    hide Value;
    if ids != {} {
      var id :| id in ids;
      var v := Value(ip6, rows[id]).value;
      OneRowEach(ip6, rows, key, ids - {id}, values - {v});
    }
  }

  // ---------------------------------------------------------------- proof of SyncMany

  /** The rows seen so far are split into one kept row per desired value and the stale rest. */
  ghost predicate Classified(ip6: Ip6, rows: Rows, key: Key, desired: seq<string>, seen: seq<nat>,
      kept: map<string, nat>, stale: seq<nat>) {
    && (forall c :: c in kept ==>
          c in desired && kept[c] in seen && At(rows, key, kept[c]) && Value(ip6, rows[kept[c]]) == Ok(c))
    && (forall id ::
          id in seen && At(rows, key, id) && Value(ip6, rows[id]).Ok? && Value(ip6, rows[id]).value in desired ==>
            Value(ip6, rows[id]).value in kept)
    && (forall id :: id in seen ==> (id in stale <==> id !in kept.Values))
    && (forall id :: id in stale ==> id in seen && At(rows, key, id))
    && NoDuplicates(stale)
  }

  lemma ClassifyNext(ip6: Ip6, rows: Rows, key: Key, desired: seq<string>, existing: seq<nat>, i: nat,
      kept: map<string, nat>, stale: seq<nat>)
    requires Listing(rows, key, existing) && i < |existing| && existing[i] in existing
    requires Value(ip6, rows[existing[i]]).Ok?
    requires Classified(ip6, rows, key, desired, existing[..i], kept, stale)
    ensures var content := Value(ip6, rows[existing[i]]).value;
      if content in desired && content !in kept
      then Classified(ip6, rows, key, desired, existing[..i + 1], kept[content := existing[i]], stale)
      else Classified(ip6, rows, key, desired, existing[..i + 1], kept, stale + [existing[i]])
  {
    hide RecordBody, Value;
    var content := Value(ip6, rows[existing[i]]).value;
    var id := existing[i];
    assert existing[..i + 1] == existing[..i] + [id];
    assert id !in existing[..i];
    if content in desired && content !in kept {
      var kept' := kept[content := id];
      assert kept'.Values == kept.Values + {id} by {
        forall x | x in kept.Values ensures x in kept'.Values {
          var c :| c in kept && kept[c] == x;
          assert c in kept' && kept'[c] == x;
        }
        assert content in kept' && kept'[content] == id;
      }
    }
  }

  lemma FirstIsMember(s: seq<nat>)
    requires s != []
    ensures s[0] in s
  {
  }

  lemma SettledHasNoStale(ip6: Ip6, rows: Rows, key: Key, desired: seq<string>, existing: seq<nat>,
      kept: map<string, nat>, stale: seq<nat>)
    requires Settled(ip6, rows, key, desired) && Listing(rows, key, existing)
    requires Classified(ip6, rows, key, desired, existing, kept, stale)
    ensures stale == [] && forall v :: v in desired ==> v in kept
  {
    forall id | id in existing ensures id in kept.Values {
      assert At(rows, key, id);
      var other := kept[Value(ip6, rows[id]).value];
      assert At(rows, key, other) && other in kept.Values;
    }
    if stale != [] {
      FirstIsMember(stale);
    }
  }

  /** After the desired values `done`: kept rows are untouched or rewritten with their own value,
      `target[j]` holds the j-th value, and the RRset has no further row. */
  ghost predicate Placed(ip6: Ip6, before: Rows, now: Rows, key: Key, ttl: int, done: seq<string>,
      kept: map<string, nat>, target: seq<nat>) {
    && |target| == |done|
    && Writable(key, done)
    && (forall c :: c in kept ==>
          At(before, key, kept[c]) && Value(ip6, before[kept[c]]) == Ok(c) && At(now, key, kept[c]))
    && (forall c :: c in kept && c !in done ==> now[kept[c]] == before[kept[c]])
    && (forall j :: 0 <= j < |done| ==>
          target[j] in now && now[target[j]] == Row(key, ttl, RecordBody(key.name, key.rtype, done[j]).value))
    && (forall j :: 0 <= j < |done| ==> if done[j] in kept then target[j] == kept[done[j]] else target[j] !in before)
    && (forall j, k :: 0 <= j < k < |done| ==> (target[j] == target[k] <==> done[j] == done[k] && done[j] in kept))
    && (forall id :: At(now, key, id) ==> id in target || id in kept.Values)
  }

  lemma OthersKeptUpdate(before: Rows, prior: Rows, key: Key, id: nat, row: Row)
    requires OthersKept(before, prior, key) && row.key == key
    requires id !in prior || prior[id].key == key
    requires id !in before || before[id].key == key
    ensures OthersKept(before, prior[id := row], key)
  {
  }

  lemma KeptPresent(ip6: Ip6, before: Rows, now: Rows, key: Key, ttl: int, done: seq<string>, kept: map<string, nat>,
      target: seq<nat>, content: string)
    requires Placed(ip6, before, now, key, ttl, done, kept, target) && content in kept
    ensures At(now, key, kept[content]) && At(before, key, kept[content])
  {
  }

  lemma PlaceNext(ip6: Ip6, before: Rows, prior: Rows, now: Rows, key: Key, ttl: int, done: seq<string>,
      content: string, kept: map<string, nat>, target: seq<nat>)
    requires |target| == |done| + 1
    requires Placed(ip6, before, prior, key, ttl, done, kept, target[..|done|])
    requires RecordBody(key.name, key.rtype, content).Ok?
    requires now == prior[target[|done|] := Row(key, ttl, RecordBody(key.name, key.rtype, content).value)]
    requires if content in kept
      then target[|done|] == kept[content] else target[|done|] !in prior && target[|done|] !in before
    ensures Placed(ip6, before, now, key, ttl, done + [content], kept, target)
  {
    hide RecordBody, Value;
    var id := target[|done|];
    assert forall j :: 0 <= j < |done| ==> target[..|done|][j] == target[j];
    forall j | 0 <= j < |done| && done[j] != content ensures target[j] != id {
    }
    forall x | At(now, key, x) ensures x in target || x in kept.Values {
      if x != id {
        assert At(prior, key, x);
      }
    }
  }

  ghost predicate KeptMatches(ip6: Ip6, origin: Rows, key: Key, desired: seq<string>, kept: map<string, nat>) {
    && (forall v :: v in desired && Holds(ip6, origin, key, Ok(v)) ==> v in kept)
    && (forall c :: c in kept ==> c in desired)
  }

  lemma StaleIsListed(ip6: Ip6, rows: Rows, key: Key, desired: seq<string>, existing: seq<nat>,
      kept: map<string, nat>, stale: seq<nat>)
    requires Classified(ip6, rows, key, desired, existing, kept, stale)
    ensures NoDuplicates(stale) && forall id :: id in stale ==> At(rows, key, id)
  {
    hide Value;
  }

  lemma DeletingIsSafe(ip6: Ip6, before: Rows, now: Rows, key: Key, desired: seq<string>, existing: seq<nat>,
      kept: map<string, nat>, stale: seq<nat>, i: nat)
    requires Listing(before, key, existing) && i <= |stale|
    requires Classified(ip6, before, key, desired, existing, kept, stale)
    requires forall id :: id in now <==> id in before && id !in stale[..i]
    requires forall id :: id in now ==> now[id] == before[id]
    ensures OnlyStaleGone(ip6, before, now, key, desired)
    ensures Safe(ip6, before, now, key, desired) && OthersKept(before, now, key)
  {
    hide RecordBody, Value;
    forall v | v in desired && Holds(ip6, before, key, Ok(v)) ensures Holds(ip6, now, key, Ok(v)) {
      var id :| id in before && before[id].key == key && Value(ip6, before[id]) == Ok(v);
      assert At(before, key, id) && id in existing;
      assert kept[v] in kept.Values && kept[v] !in stale[..i];
      assert now[kept[v]] == before[kept[v]];
    }
    forall id | id in stale[..i] ensures At(before, key, id) {
      assert id in stale;
    }
  }

  lemma ReadyToPlace(ip6: Ip6, before: Rows, now: Rows, key: Key, ttl: int, desired: seq<string>, existing: seq<nat>,
      kept: map<string, nat>, stale: seq<nat>)
    requires Listing(before, key, existing)
    requires Classified(ip6, before, key, desired, existing, kept, stale)
    requires forall id :: id in now <==> id in before && id !in stale
    requires forall id :: id in now ==> now[id] == before[id]
    ensures Placed(ip6, before, now, key, ttl, [], kept, [])
    ensures KeptMatches(ip6, before, key, desired, kept)
  {
    hide RecordBody, Value;
    forall c | c in kept ensures At(now, key, kept[c]) {
      assert kept[c] in kept.Values;
    }
    forall id | At(now, key, id) ensures id in kept.Values {
      assert At(before, key, id) && id in existing;
    }
    forall v | v in desired && Holds(ip6, before, key, Ok(v)) ensures v in kept {
      var id :| id in before && before[id].key == key && Value(ip6, before[id]) == Ok(v);
      assert At(before, key, id) && id in existing;
    }
  }

  lemma SafeOthers(ip6: Ip6, before: Rows, now: Rows, key: Key, desired: seq<string>)
    requires Safe(ip6, before, now, key, desired)
    ensures OthersKept(before, now, key)
  {
  }

  lemma PlacedIsSafe(ip6: Ip6, before: Rows, now: Rows, key: Key, ttl: int, desired: seq<string>, i: nat,
      kept: map<string, nat>, target: seq<nat>)
    requires i <= |desired|
    requires Placed(ip6, before, now, key, ttl, desired[..i], kept, target)
    requires OthersKept(before, now, key) && KeptMatches(ip6, before, key, desired, kept)
    ensures Safe(ip6, before, now, key, desired)
  {
    hide RecordBody, Canonical;
    forall v | v in desired && RoundTrips(ip6, key.name, key.rtype, v) && Holds(ip6, before, key, Ok(v))
      ensures Holds(ip6, now, key, Ok(v))
    {
      if v in desired[..i] {
        var j :| 0 <= j < i && desired[..i][j] == v;
      }
      assert kept[v] in now && now[kept[v]].key == key && Value(ip6, now[kept[v]]) == Ok(v);
    }
    forall id | At(now, key, id)
      ensures Holds(ip6, before, key, Value(ip6, now[id])) || ReadsBack(ip6, key, desired, Value(ip6, now[id]))
    {
      if id in target {
        var j :| 0 <= j < |target| && target[j] == id;
        assert desired[..i][j] in desired;
        assert Value(ip6, now[id]) == ReadBack(ip6, key.name, key.rtype, desired[..i][j]);
      } else {
        var c :| c in kept && kept[c] == id;
      }
    }
  }

  /** What the RRset holds when `i` of the desired values are placed. */
  lemma PlacedContents(ip6: Ip6, before: Rows, now: Rows, key: Key, ttl: int, desired: seq<string>, i: nat,
      kept: map<string, nat>, target: seq<nat>)
    requires i <= |desired|
    requires Placed(ip6, before, now, key, ttl, desired[..i], kept, target)
    requires KeptMatches(ip6, before, key, desired, kept)
    ensures PlacedUpTo(ip6, before, now, key, desired, i)
  {
    hide RecordBody, Canonical;
    var done := desired[..i];
    forall v | v in done ensures Holds(ip6, now, key, ReadBack(ip6, key.name, key.rtype, v)) {
      var j :| 0 <= j < |done| && done[j] == v;
      assert target[j] in now;
    }
    forall v | v in desired && v !in done && Holds(ip6, before, key, Ok(v)) ensures Holds(ip6, now, key, Ok(v)) {
      assert kept[v] in now;
    }
    forall id | At(now, key, id)
      ensures
        var x := Value(ip6, now[id]);
        ReadsBack(ip6, key, done, x) || (x.Ok? && x.value in desired && x.value !in done && Holds(ip6, before, key, x))
    {
      PlacedRow(ip6, before, now, key, ttl, desired, done, kept, target, id);
    }
  }

  lemma PlacedRow(ip6: Ip6, before: Rows, now: Rows, key: Key, ttl: int, desired: seq<string>, done: seq<string>,
      kept: map<string, nat>, target: seq<nat>, id: nat)
    requires Placed(ip6, before, now, key, ttl, done, kept, target) && At(now, key, id)
    requires KeptMatches(ip6, before, key, desired, kept)
    ensures
      var x := Value(ip6, now[id]);
      ReadsBack(ip6, key, done, x) || (x.Ok? && x.value in desired && x.value !in done && Holds(ip6, before, key, x))
  {
    hide RecordBody, Canonical;
    if id in target {
      var j :| 0 <= j < |target| && target[j] == id;
      assert done[j] in done && Value(ip6, now[id]) == ReadBack(ip6, key.name, key.rtype, done[j]);
    } else {
      var c :| c in kept && kept[c] == id;
    }
  }

  /** Once every desired value is placed, each row of the RRset is some value's row. */
  lemma AllRowsTargeted(ip6: Ip6, before: Rows, now: Rows, key: Key, ttl: int, desired: seq<string>,
      kept: map<string, nat>, target: seq<nat>, id: nat)
    returns (j: nat)
    requires Placed(ip6, before, now, key, ttl, desired, kept, target)
    requires forall c :: c in kept ==> c in desired
    requires At(now, key, id)
    ensures j < |target| && target[j] == id
  {
    if id in kept.Values {
      var c :| c in kept && kept[c] == id;
      var k :| 0 <= k < |desired| && desired[k] == c;
      assert target[k] == id;
    }
    j :| 0 <= j < |target| && target[j] == id;
  }

  lemma PlacedIsSynced(ip6: Ip6, before: Rows, now: Rows, key: Key, ttl: int, desired: seq<string>,
      kept: map<string, nat>, target: seq<nat>)
    requires Placed(ip6, before, now, key, ttl, desired, kept, target)
    requires KeptMatches(ip6, before, key, desired, kept)
    ensures Synced(ip6, now, key, ttl, desired)
  {
    hide RecordBody, Canonical;
    forall id | At(now, key, id)
      ensures exists v :: v in desired && Value(ip6, now[id]) == ReadBack(ip6, key.name, key.rtype, v)
      ensures now[id].ttl == ttl
    {
      var j := AllRowsTargeted(ip6, before, now, key, ttl, desired, kept, target, id);
      assert desired[j] in desired;
    }
    forall v | v in desired ensures Holds(ip6, now, key, ReadBack(ip6, key.name, key.rtype, v)) {
      var j :| 0 <= j < |desired| && desired[j] == v;
      assert target[j] in now;
    }
  }

  lemma PlacedIsSettled(ip6: Ip6, before: Rows, now: Rows, key: Key, ttl: int, desired: seq<string>,
      kept: map<string, nat>, target: seq<nat>)
    requires Placed(ip6, before, now, key, ttl, desired, kept, target)
    requires KeptMatches(ip6, before, key, desired, kept)
    requires AllRoundTrip(ip6, key, desired)
    ensures Settled(ip6, now, key, desired) <==> RepeatsPresent(ip6, before, key, desired)
  {
    hide RecordBody, Canonical;
    PlacedIsSynced(ip6, before, now, key, ttl, desired, kept, target);
    forall v | v in desired ensures Holds(ip6, now, key, Ok(v)) {
      assert ReadBack(ip6, key.name, key.rtype, v) == Ok(v);
    }
    forall id | At(now, key, id) ensures Holds(ip6, now, key, Value(ip6, now[id])) {
    }
    forall v | v in desired ensures v in kept <==> Holds(ip6, before, key, Ok(v)) {
    }
    forall j | 0 <= j < |desired| ensures At(now, key, target[j]) && Value(ip6, now[target[j]]) == Ok(desired[j]) {
      assert desired[j] in desired;
    }
    if RepeatsPresent(ip6, before, key, desired) {
      forall a, b | At(now, key, a) && At(now, key, b) && a != b ensures Value(ip6, now[a]) != Value(ip6, now[b]) {
        var i := AllRowsTargeted(ip6, before, now, key, ttl, desired, kept, target, a);
        var j := AllRowsTargeted(ip6, before, now, key, ttl, desired, kept, target, b);
        assert desired[i] in desired && desired[j] in desired;
      }
    }
    if Settled(ip6, now, key, desired) {
      forall i, j | 0 <= i < j < |desired| && desired[i] == desired[j] ensures Holds(ip6, before, key, Ok(desired[i])) {
        assert target[i] == target[j];
      }
    }
  }

  lemma SettledIsListed(ip6: Ip6, rows: Rows, key: Key, content: string, existing: seq<nat>)
    requires Listing(rows, key, existing)
    ensures Settled(ip6, rows, key, [content]) ==> |existing| == 1
  {
    hide RecordBody, Value;
    if Settled(ip6, rows, key, [content]) {
      assert content in [content];
      var id :| id in rows && rows[id].key == key && Value(ip6, rows[id]) == Ok(content);
      assert At(rows, key, id);
      assert |existing| < 2 || existing[0] != existing[1];
      forall k | 0 <= k < |existing| ensures existing[k] == id {
        assert existing[k] in existing && At(rows, key, existing[k]);
      }
      var k :| 0 <= k < |existing| && existing[k] == id;
      assert forall j :: 0 <= j < |existing| ==> existing[j] == existing[k];
    }
  }

  lemma OneRowIsSafe(ip6: Ip6, before: Rows, now: Rows, key: Key, row: Row, content: string, id: nat)
    requires RecordBody(key.name, key.rtype, content).Ok?
    requires row == Row(key, row.ttl, RecordBody(key.name, key.rtype, content).value)
    requires id in now && now[id] == row && (id in before ==> before[id].key == key)
    requires forall x :: x in now && x != id ==> x in before && now[x] == before[x]
    requires forall x :: x in before && before[x].key != key ==> x in now
    ensures Safe(ip6, before, now, key, [content])
  {
    hide RecordBody, Canonical;
    assert content in [content];
    assert Value(ip6, now[id]) == ReadBack(ip6, key.name, key.rtype, content);
  }

  lemma OneRowIsSynced(ip6: Ip6, before: Rows, now: Rows, key: Key, row: Row, content: string, id: nat)
    requires RecordBody(key.name, key.rtype, content).Ok? &&
      row == Row(key, row.ttl, RecordBody(key.name, key.rtype, content).value)
    requires id in now && now[id] == row && (id in before ==> before[id].key == key)
    requires forall x :: x in now && x != id ==> x in before && now[x] == before[x] && now[x].key != key
    requires forall x :: x in before && before[x].key != key ==> x in now
    ensures Synced(ip6, now, key, row.ttl, [content])
    ensures AllRoundTrip(ip6, key, [content]) ==> Settled(ip6, now, key, [content])
    ensures Safe(ip6, before, now, key, [content])
  {
    hide RecordBody, Canonical;
    OneRowIsSafe(ip6, before, now, key, row, content, id);
    assert content in [content];
    assert Value(ip6, now[id]) == ReadBack(ip6, key.name, key.rtype, content);
    assert At(now, key, id);
  }
}
