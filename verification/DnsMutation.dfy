/** Create, replace, patch and delete of RRsets over the row store (src/dns_mutation.py, lines 61-225,
    with src/plugins/cloudflare.py, lines 108-187 and 489-498), refined by a plain map of RRsets. */
module DnsMutation {
  import opened Basics
  import opened Text
  import opened RecordValues
  import opened CloudflareRows
  import opened RecordStore
  import opened CloudflareSync

  datatype RRset = RRset(ttl: int, values: set<string>)
  type RRsets = map<Key, RRset>

  datatype Mode = CreateMode | ReplaceMode | DeleteMode
  datatype Status = Done | AlreadyExists | NotFound
  datatype Info = Info(ttl: int, values: seq<string>)

  /** `ttl or 300`: a TTL of 0 is stored as 300. */
  function StoredTtl(ttl: int): int {
    if ttl == 0 then 300 else ttl
  }

  // ---------------------------------------------------------------- abstraction

  /** The rows of one RRset read as this TTL (the smallest) and these values. */
  ghost predicate Reads(ip6: Ip6, rows: Rows, key: Key, rrset: RRset) {
    && (exists id :: At(rows, key, id) && rows[id].ttl == rrset.ttl)
    && (forall id :: At(rows, key, id) ==> rrset.ttl <= rows[id].ttl)
    && (forall x :: Holds(ip6, rows, key, x) <==> x.Ok? && x.value in rrset.values)
  }

  /** The rows of one RRset read as the map's entry. */
  ghost predicate Agrees(ip6: Ip6, rows: Rows, m: RRsets, key: Key) {
    if key in m then Reads(ip6, rows, key, m[key]) else Absent(rows, key)
  }

  /** The row store represents the map. */
  ghost predicate Represents(ip6: Ip6, rows: Rows, m: RRsets) {
    forall key :: Agrees(ip6, rows, m, key)
  }

  /** The values are exactly what the desired ones read back as. */
  ghost predicate ReadsBackAs(ip6: Ip6, key: Key, desired: seq<string>, values: set<string>) {
    forall x :: ReadsBack(ip6, key, desired, x) <==> x.Ok? && x.value in values
  }

  /** A synced RRset reads as a set of values exactly when the desired ones read back as that set. */
  lemma SyncedReads(ip6: Ip6, rows: Rows, key: Key, ttl: int, desired: seq<string>, values: set<string>)
    requires Synced(ip6, rows, key, ttl, desired) && desired != []
    ensures Reads(ip6, rows, key, RRset(ttl, values)) <==> ReadsBackAs(ip6, key, desired, values)
  {
    assert desired[0] in desired;
    var x := ReadBack(ip6, key.name, key.rtype, desired[0]);
    hide ReadBack, Value;
    assert ReadsBack(ip6, key, desired, x);
    assert Holds(ip6, rows, key, x);
    var id :| id in rows && rows[id].key == key && Value(ip6, rows[id]) == x;
    assert At(rows, key, id);
    hide Holds, ReadsBack;
  }

  lemma RoundTrippingReadBack(ip6: Ip6, key: Key, desired: seq<string>)
    requires AllRoundTrip(ip6, key, desired)
    ensures ReadsBackAs(ip6, key, desired, Elements(desired))
  {
    hide ReadBack;
    forall v | v in desired ensures ReadsBack(ip6, key, desired, Ok(v)) {
      assert RoundTrips(ip6, key.name, key.rtype, v);
    }
  }

  /** Rows that are `ttl` and `desired`, and the hidden ones beside them, read together as one RRset. */
  ghost predicate ReadsBeside(ip6: Ip6, hidden: Rows, key: Key, ttl: int, desired: seq<string>, rrset: RRset) {
    && rrset.ttl <= ttl && (forall id :: id in hidden ==> rrset.ttl <= hidden[id].ttl)
    && (rrset.ttl == ttl || exists id :: id in hidden && hidden[id].ttl == rrset.ttl)
    && (forall x :: ReadsBack(ip6, key, desired, x) || Holds(ip6, hidden, key, x) <==> x.Ok? && x.value in rrset.values)
  }

  /** The hidden rows read as some of the values, with no TTL below `ttl`. */
  ghost predicate FitIn(ip6: Ip6, hidden: Rows, ttl: int, values: set<string>) {
    forall id :: id in hidden ==>
      ttl <= hidden[id].ttl && Value(ip6, hidden[id]).Ok? && Value(ip6, hidden[id]).value in values
  }

  /** A synced RRset, with the rows of it that were not seen, reads as the entry exactly as these say. */
  lemma SyncedReadsBeside(ip6: Ip6, rows: Rows, hidden: Rows, key: Key, ttl: int, desired: seq<string>, rrset: RRset)
    requires Synced(ip6, rows, key, ttl, desired) && desired != []
    requires rows.Keys !! hidden.Keys && forall id :: id in hidden ==> hidden[id].key == key
    ensures Reads(ip6, rows + hidden, key, rrset) <==> ReadsBeside(ip6, hidden, key, ttl, desired, rrset)
  {
    hide Holds, ReadsBack, ReadBack, Value;
    var id := SyncedHasRow(ip6, rows, key, ttl, desired);
    HoldsEither(ip6, rows, hidden, key);
    forall id ensures At(rows + hidden, key, id) <==> At(rows, key, id) || id in hidden {
    }
    assert At(rows + hidden, key, id) && (rows + hidden)[id].ttl == ttl;
  }

  lemma SyncedHasRow(ip6: Ip6, rows: Rows, key: Key, ttl: int, desired: seq<string>) returns (id: nat)
    requires Synced(ip6, rows, key, ttl, desired) && desired != []
    ensures At(rows, key, id)
  {
    assert desired[0] in desired;
    var x := ReadBack(ip6, key.name, key.rtype, desired[0]);
    hide ReadBack, Value;
    assert ReadsBack(ip6, key, desired, x);
    assert Holds(ip6, rows, key, x);
    id :| id in rows && rows[id].key == key && Value(ip6, rows[id]) == x;
  }

  /** When nothing is hidden that means: the desired values read back as the entry's. */
  lemma NothingBeside(ip6: Ip6, key: Key, ttl: int, desired: seq<string>, values: set<string>)
    ensures ReadsBeside(ip6, map[], key, ttl, desired, RRset(ttl, values)) <==> ReadsBackAs(ip6, key, desired, values)
  {
    hide ReadsBack, Value;
  }

  /** For desired values that round-trip it means: the hidden rows read as some of them, with TTLs not below
      the new one. */
  lemma RoundTrippingBeside(ip6: Ip6, hidden: Rows, key: Key, ttl: int, desired: seq<string>)
    requires AllRoundTrip(ip6, key, desired) && forall id :: id in hidden ==> hidden[id].key == key
    ensures ReadsBeside(ip6, hidden, key, ttl, desired, RRset(ttl, Elements(desired)))
      <==> FitIn(ip6, hidden, ttl, Elements(desired))
  {
    RoundTrippingReadBack(ip6, key, desired);
    hide ReadsBack, Value;
    if FitIn(ip6, hidden, ttl, Elements(desired)) {
      assert forall x :: Holds(ip6, hidden, key, x) ==> x.Ok? && x.value in Elements(desired);
    }
    forall id | id in hidden ensures Holds(ip6, hidden, key, Value(ip6, hidden[id])) {
    }
  }

  /** The three together, after a listing cut `hidden` off from the RRset. */
  lemma WrittenReads(ip6: Ip6, whole: Rows, rows: Rows, hidden: Rows, key: Key, size: nat, ttl: int,
      desired: seq<string>, rrset: RRset)
    requires CutOff(whole, hidden, key, size) && rows.Keys !! hidden.Keys
    requires Synced(ip6, rows, key, ttl, desired) && desired != []
    ensures Reads(ip6, rows + hidden, key, rrset) <==> ReadsBeside(ip6, hidden, key, ttl, desired, rrset)
    ensures Fits(whole, key, size) && rrset.ttl == ttl ==>
      (Reads(ip6, rows + hidden, key, rrset) <==> ReadsBackAs(ip6, key, desired, rrset.values))
    ensures AllRoundTrip(ip6, key, desired) && rrset == RRset(ttl, Elements(desired)) ==>
      (Reads(ip6, rows + hidden, key, rrset) <==> FitIn(ip6, hidden, ttl, Elements(desired)))
    ensures Fits(whole, key, size) ==> FitIn(ip6, hidden, ttl, Elements(desired))
  {
    assert forall id :: id in hidden ==> hidden[id].key == key by {
      hide Fits;
      forall id | id in hidden ensures hidden[id].key == key {
        assert id in IdsOf(whole, key);
      }
    }
    if Fits(whole, key, size) {
      NothingHidden(whole, rows, hidden, key, size);
    }
    hide *;
    SyncedReadsBeside(ip6, rows, hidden, key, ttl, desired, rrset);
    NothingBeside(ip6, key, ttl, desired, rrset.values);
    if AllRoundTrip(ip6, key, desired) {
      RoundTrippingBeside(ip6, hidden, key, ttl, desired);
    }
  }

  lemma OtherKeyReads(ip6: Ip6, before: Rows, now: Rows, changed: Key, key: Key, rrset: RRset)
    requires OthersKept(before, now, changed) && key != changed
    ensures Absent(before, key) ==> Absent(now, key)
    ensures Reads(ip6, before, key, rrset) ==> Reads(ip6, now, key, rrset)
  {
    forall id ensures At(now, key, id) <==> At(before, key, id) {
    }
    forall x ensures Holds(ip6, now, key, x) <==> Holds(ip6, before, key, x) {
    }
  }

  /** A change of one RRset that agrees with a change of its map entry keeps the whole store representing
      the whole map. */
  lemma OneEntryChanged(ip6: Ip6, before: Rows, now: Rows, m: RRsets, m': RRsets, key: Key)
    requires Represents(ip6, before, m) && OthersKept(before, now, key) && Agrees(ip6, now, m', key)
    requires m - {key} == m' - {key}
    ensures Represents(ip6, now, m')
  {
    hide Reads, OthersKept, Absent;
    forall k ensures Agrees(ip6, now, m', k) {
      if k != key {
        assert Agrees(ip6, before, m, k);
        assert k in m <==> k in m - {key};
        assert k in m' <==> k in m' - {key};
        assert k in m ==> (m - {key})[k] == m[k] && (m' - {key})[k] == m'[k];
        OtherKeyReads(ip6, before, now, key, k, if k in m then m[k] else RRset(0, {}));
      }
    }
  }

  lemma ReadsIsFunctional(ip6: Ip6, rows: Rows, key: Key, a: RRset, b: RRset)
    requires Reads(ip6, rows, key, a) && Reads(ip6, rows, key, b)
    ensures a == b && !Absent(rows, key)
  {
    forall v ensures v in a.values <==> v in b.values {
      assert Holds(ip6, rows, key, Ok(v)) <==> v in a.values;
    }
  }

  lemma AgreesPresent(ip6: Ip6, rows: Rows, m: RRsets, key: Key)
    requires Agrees(ip6, rows, m, key)
    ensures key in m <==> !Absent(rows, key)
    ensures forall rrset :: Reads(ip6, rows, key, rrset) ==> key in m && m[key] == rrset
    ensures !Unreadable(ip6, rows, key)
  {
    hide Value;
    forall rrset | Reads(ip6, rows, key, rrset) ensures key in m && m[key] == rrset {
      ReadsIsFunctional(ip6, rows, key, rrset, if key in m then m[key] else rrset);
    }
    forall id | At(rows, key, id) ensures Value(ip6, rows[id]).Ok? {
      assert Holds(ip6, rows, key, Value(ip6, rows[id]));
    }
  }

  /** A store represents at most one map, and one exactly if all its rows can be read. */
  lemma RepresentationIsUnique(ip6: Ip6, rows: Rows, a: RRsets, b: RRsets)
    requires Represents(ip6, rows, a) && Represents(ip6, rows, b)
    ensures a == b
  {
    hide Reads, Absent;
    forall key ensures key in a <==> key in b
      ensures key in a && key in b ==> a[key] == b[key] {
      AgreesPresent(ip6, rows, a, key);
      AgreesPresent(ip6, rows, b, key);
      assert Agrees(ip6, rows, a, key) && Agrees(ip6, rows, b, key);
    }
  }

  lemma RepresentedIffReadable(ip6: Ip6, rows: Rows)
    ensures (exists m :: Represents(ip6, rows, m)) <==> forall id :: id in rows ==> Value(ip6, rows[id]).Ok?
  {
    hide Value, Reads;
    if m :| Represents(ip6, rows, m) {
      forall id | id in rows ensures Value(ip6, rows[id]).Ok? {
        assert Agrees(ip6, rows, m, rows[id].key) && At(rows, rows[id].key, id);
        AgreesPresent(ip6, rows, m, rows[id].key);
      }
    }
    if forall id :: id in rows ==> Value(ip6, rows[id]).Ok? {
      forall id | id in rows ensures exists rrset :: Reads(ip6, rows, rows[id].key, rrset) {
        var rrset := EntryRead(ip6, rows, rows[id].key, id);
      }
      var keys := set id | id in rows :: rows[id].key;
      var m := map key | key in keys :: var rrset :| Reads(ip6, rows, key, rrset); rrset;
      forall key ensures Agrees(ip6, rows, m, key) {
        assert key !in keys ==> Absent(rows, key);
      }
      assert Represents(ip6, rows, m);
    }
  }

  lemma EntryRead(ip6: Ip6, rows: Rows, key: Key, id: nat) returns (rrset: RRset)
    requires At(rows, key, id) && !Unreadable(ip6, rows, key)
    ensures Reads(ip6, rows, key, rrset)
  {
    hide Value;
    var low := Lowest(rows, IdsOf(rows, key));
    var values := set i | i in IdsOf(rows, key) && Value(ip6, rows[i]).Ok? :: Value(ip6, rows[i]).value;
    rrset := RRset(rows[low].ttl, values);
    assert At(rows, key, low);
    forall x ensures Holds(ip6, rows, key, x) <==> x.Ok? && x.value in values {
      forall i | i in rows && rows[i].key == key && Value(ip6, rows[i]) == x ensures x.Ok? && i in IdsOf(rows, key) {
        assert At(rows, key, i);
      }
    }
  }

  lemma {:induction false} Lowest(rows: Rows, ids: set<nat>) returns (low: nat)
    requires ids != {} && ids <= rows.Keys
    ensures low in ids && forall id :: id in ids ==> rows[low].ttl <= rows[id].ttl
    decreases |ids|
  {
    low :| low in ids;
    if ids != {low} {
      var other := Lowest(rows, ids - {low});
      low := if rows[other].ttl < rows[low].ttl then other else low;
    }
  }

  // ---------------------------------------------------------------- operations

  /** `get_record` for one type, over the rows that one response lists: the smallest TTL and every value,
      or nothing without rows. */
  method GetRecord(zone: RemoteZone, ip6: Ip6, key: Key) returns (r: Result<Option<Info>>)
    requires zone.Valid()
    modifies zone
    ensures zone.Valid() && zone.Whole() == old(zone.Whole()) && zone.requests == old(zone.requests)
    ensures r.Ok? ==> zone.faults == old(zone.faults) && CutOff(zone.Whole(), zone.hidden, key, zone.pageSize)
    ensures r.Err? ==> zone.faults > old(zone.faults) || Unreadable(ip6, zone.rows, key)
    ensures r.Ok? ==> !Unreadable(ip6, zone.rows, key)
    ensures r.Ok? && r.value.None? ==> Absent(zone.rows, key)
    ensures r.Ok? && r.value.Some? ==>
      r.value.value.values != [] && Reads(ip6, zone.rows, key, RRset(r.value.value.ttl, Elements(r.value.value.values)))
    ensures r.Ok? && r.value.Some? ==> |r.value.value.values| == |IdsOf(zone.rows, key)|
  {
    hide Value, Elements, Reads, CutOff;
    var listed := zone.List(key);
    if listed.Err? {
      return Err(listed.message);
    }
    var ids, rows := listed.value, zone.rows;
    assert forall k :: 0 <= k < |ids| ==> ids[k] in ids && At(rows, key, ids[k]);
    if ids == [] {
      return Ok(None);
    }
    var ttl, values := rows[ids[0]].ttl, [];
    for i := 0 to |ids|
      invariant |values| == i
      invariant forall k :: 0 <= k < i ==> ttl <= rows[ids[k]].ttl
      invariant exists k :: 0 <= k < |ids| && ttl == rows[ids[k]].ttl
      invariant forall k :: 0 <= k < i ==> Value(ip6, rows[ids[k]]) == Ok(values[k])
    {
      var value := Value(ip6, rows[ids[i]]);
      if value.Err? {
        return Err(value.message);
      }
      if rows[ids[i]].ttl < ttl {
        ttl := rows[ids[i]].ttl;
      }
      values := values + [value.value];
    }
    ListedReads(ip6, rows, key, ids, ttl, values);
    ListedCount(rows, key, ids);
    r := Ok(Some(Info(ttl, values)));
  }

  lemma ListedReads(ip6: Ip6, rows: Rows, key: Key, ids: seq<nat>, ttl: int, values: seq<string>)
    requires Listing(rows, key, ids) && |values| == |ids| > 0
    requires forall k :: 0 <= k < |ids| ==> At(rows, key, ids[k]) && ttl <= rows[ids[k]].ttl
    requires exists k :: 0 <= k < |ids| && ttl == rows[ids[k]].ttl
    requires forall k :: 0 <= k < |ids| ==> Value(ip6, rows[ids[k]]) == Ok(values[k])
    ensures Reads(ip6, rows, key, RRset(ttl, Elements(values))) && !Unreadable(ip6, rows, key)
  {
    forall id | At(rows, key, id)
      ensures ttl <= rows[id].ttl && Value(ip6, rows[id]).Ok? && Value(ip6, rows[id]).value in values
    {
      assert id in ids;
      var k :| 0 <= k < |ids| && ids[k] == id;
    }
    forall v | v in values ensures Holds(ip6, rows, key, Ok(v)) {
      var k :| 0 <= k < |values| && values[k] == v;
      assert At(rows, key, ids[k]);
    }
  }

  lemma ListedCount(rows: Rows, key: Key, ids: seq<nat>)
    requires Listing(rows, key, ids)
    ensures |IdsOf(rows, key)| == |ids|
  {
    assert IdsOf(rows, key) == Elements(ids);
    DistinctCount(ids);
  }

  /** What is listed, and what is not, of an RRset. */
  lemma ShownPart(whole: Rows, rows: Rows, hidden: Rows, key: Key, size: nat)
    requires CutOff(whole, hidden, key, size) && whole == rows + hidden && rows.Keys !! hidden.Keys && size >= 1
    ensures Fits(whole, key, size) ==> rows == whole && hidden == map[]
    ensures Absent(rows, key) <==> Absent(whole, key)
  {
    if Fits(whole, key, size) {
      assert hidden.Keys == {};
      assert rows + hidden == rows;
    }
    if Absent(rows, key) {
      forall id | id in IdsOf(whole, key) ensures id in hidden.Keys {
        assert At(whole, key, id) && !At(rows, key, id);
      }
      assert IdsOf(whole, key) == hidden.Keys;
      assert |hidden.Keys| == 0;
      forall id ensures !At(whole, key, id) {
        assert id in IdsOf(whole, key) <==> At(whole, key, id);
      }
    }
    forall id | At(rows, key, id) ensures At(whole, key, id) {
    }
  }

  lemma OthersKeptWhole(before: Rows, now: Rows, hidden: Rows, key: Key)
    requires OthersKept(before, now, key) && before.Keys !! hidden.Keys && now.Keys !! hidden.Keys
    ensures OthersKept(before + hidden, now + hidden, key)
  {
  }

  /** `create_or_update_record` for a record type. The answer says whether the RRset existed. Rows beyond
      the one response that lists it stay as they are. */
  method CreateOrUpdate(zone: RemoteZone, ip6: Ip6, key: Key, ttl: int, values: seq<string>) returns (r: Result<bool>)
    requires zone.Valid()
    modifies zone
    ensures zone.Valid() && OthersKept(old(zone.Whole()), zone.Whole(), key)
    ensures r.Ok? ==> NormalizeValues(ip6, key.rtype, values).Ok? && (r.value <==> !Absent(old(zone.Whole()), key))
    ensures r.Ok? ==>
      Synced(ip6, zone.rows, key, if ttl == 0 then 300 else ttl, NormalizeValues(ip6, key.rtype, values).value)
    ensures r.Ok? ==> CutOff(old(zone.Whole()), zone.hidden, key, zone.pageSize)
    ensures r.Ok? ==> zone.faults == old(zone.faults)
    ensures r.Err? ==>
      (zone.faults > old(zone.faults) || NormalizeValues(ip6, key.rtype, values).Err?
      || Unreadable(ip6, old(zone.Whole()), key))
  {
    hide Reads, Synced, Settled, Safe, OthersKept, RepeatsPresent, CutOff, Listing, RecordBody,
      NormalizeValues;
    ghost var whole := zone.Whole();
    SafeSelf(ip6, whole, key, []);
    var listed := zone.List(key);
    if listed.Err? {
      return Err(listed.message);
    }
    ghost var shown := zone.rows;
    ShownPart(whole, shown, zone.hidden, key, zone.pageSize);
    var existed := listed.value != [];
    ListedPresent(shown, key, listed.value);
    var normalized := NormalizeValues(ip6, key.rtype, values);
    if normalized.Err? {
      return Err(normalized.message);
    }
    NormalizedWritable(ip6, key, values);
    var synced := SyncRecords(zone, ip6, key, StoredTtl(ttl), normalized.value, listed.value);
    SafeOthers(ip6, shown, zone.rows, key, normalized.value);
    OthersKeptWhole(shown, zone.rows, zone.hidden, key);
    if synced.Err? {
      UnreadableWhole(ip6, shown, zone.hidden, key);
      return Err(synced.message);
    }
    r := Ok(existed);
  }

  lemma ListedPresent(rows: Rows, key: Key, ids: seq<nat>)
    requires Listing(rows, key, ids)
    ensures ids == [] <==> Absent(rows, key)
  {
    if ids != [] {
      assert ids[0] in ids;
    }
  }

  lemma UnreadableWhole(ip6: Ip6, rows: Rows, hidden: Rows, key: Key)
    requires rows.Keys !! hidden.Keys
    ensures Unreadable(ip6, rows, key) ==> Unreadable(ip6, rows + hidden, key)
  {
    hide Value;
    if Unreadable(ip6, rows, key) {
      var id :| At(rows, key, id) && Value(ip6, rows[id]).Err?;
      assert (rows + hidden)[id] == rows[id];
      assert At(rows + hidden, key, id);
    }
  }

  lemma NormalizedWritable(ip6: Ip6, key: Key, values: seq<string>)
    requires NormalizeValues(ip6, key.rtype, values).Ok?
    ensures var desired := NormalizeValues(ip6, key.rtype, values).value;
      Writable(key, desired) && desired != [] && (key.rtype == CNAME ==> |desired| == 1)
  {
    hide NormalizeValue, RecordBody;
    var desired := NormalizeValues(ip6, key.rtype, values).value;
    forall v | v in desired ensures RecordBody(key.name, key.rtype, v).Ok? {
      var k :| 0 <= k < |desired| && desired[k] == v;
      NormalizedIsWritable(ip6, key.name, key.rtype, values[k]);
    }
  }

  /** `create_or_update_record` for the synthetic DELETE type. A completed delete removes the rows that one
      response lists: the RRset is gone exactly when it fitted, and otherwise the rest stays untouched. */
  method DeleteRecords(zone: RemoteZone, key: Key) returns (r: Result<bool>)
    requires zone.Valid()
    modifies zone
    ensures zone.Valid() && OthersKept(old(zone.Whole()), zone.Whole(), key)
    ensures r.Ok? ==> (r.value <==> !Absent(old(zone.Whole()), key))
    ensures r.Ok? ==> (Absent(zone.Whole(), key) <==> Fits(old(zone.Whole()), key, zone.pageSize))
    ensures r.Ok? ==> CutOff(old(zone.Whole()), zone.hidden, key, zone.pageSize) && Absent(zone.rows, key)
    ensures (r.Ok? ==> zone.faults == old(zone.faults)) && (r.Err? ==> zone.faults > old(zone.faults))
  {
    hide CutOff, Fits, OthersKept;
    ghost var whole := zone.Whole();
    OthersKeptSelf(whole, key);
    var listed := zone.List(key);
    if listed.Err? {
      return Err(listed.message);
    }
    var existing := listed.value;
    ghost var before := zone.rows;
    ShownPart(whole, before, zone.hidden, key, zone.pageSize);
    ListedPresent(before, key, existing);
    for i := 0 to |existing|
      invariant zone.Valid() && zone.faults == old(zone.faults) && before + zone.hidden == whole
      invariant before.Keys !! zone.hidden.Keys && CutOff(whole, zone.hidden, key, zone.pageSize)
      invariant forall id :: id in zone.rows <==> id in before && id !in existing[..i]
      invariant forall id :: id in zone.rows ==> zone.rows[id] == before[id]
    {
      assert existing[i] in existing && existing[i] !in existing[..i];
      ghost var sent := |zone.requests|;
      var deleted := zone.Delete(existing[i]);
      assert existing[..i + 1] == existing[..i] + [existing[i]];
      if deleted.Err? {
        DeletedKeeps(before, zone.rows, key, existing, if |zone.requests| > sent then i + 1 else i);
        OthersKeptWhole(before, zone.rows, zone.hidden, key);
        return Err(deleted.message);
      }
    }
    DeletedKeeps(before, zone.rows, key, existing, |existing|);
    OthersKeptWhole(before, zone.rows, zone.hidden, key);
    assert existing[..|existing|] == existing;
    assert Absent(zone.rows, key);
    HiddenRemains(whole, zone.rows, zone.hidden, key, zone.pageSize);
    r := Ok(existing != []);
  }

  lemma OthersKeptSelf(rows: Rows, key: Key)
    ensures OthersKept(rows, rows, key)
  {
  }

  lemma DeletedKeeps(before: Rows, now: Rows, key: Key, existing: seq<nat>, i: nat)
    requires Listing(before, key, existing) && i <= |existing|
    requires forall id :: id in now <==> id in before && id !in existing[..i]
    requires forall id :: id in now ==> now[id] == before[id]
    ensures OthersKept(before, now, key)
  {
    forall id | id in existing[..i] ensures At(before, key, id) {
      assert id in existing;
    }
  }

  lemma HiddenRemains(whole: Rows, rows: Rows, hidden: Rows, key: Key, size: nat)
    requires CutOff(whole, hidden, key, size) && Absent(rows, key)
    ensures Absent(rows + hidden, key) <==> Fits(whole, key, size)
  {
    CutOffSome(whole, hidden, key, size);
    hide CutOff, Fits, IdsOf;
    if Fits(whole, key, size) {
      assert rows + hidden == rows;
    } else {
      var id :| At(hidden, key, id);
      assert At(rows + hidden, key, id);
    }
  }

  lemma CutOffSome(whole: Rows, hidden: Rows, key: Key, size: nat)
    requires CutOff(whole, hidden, key, size)
    ensures if Fits(whole, key, size) then hidden == map[] else exists id :: At(hidden, key, id)
  {
    if Fits(whole, key, size) {
      assert hidden.Keys == {};
    } else {
      assert |hidden.Keys| > 0;
      var id :| id in hidden.Keys;
      assert id in IdsOf(whole, key) && At(hidden, key, id);
    }
  }

  /** An RRset of one row more than a response lists keeps exactly one row through a delete. */
  lemma OneRowMoreStays(whole: Rows, hidden: Rows, key: Key, size: nat)
    requires CutOff(whole, hidden, key, size) && |IdsOf(whole, key)| == size + 1
    ensures exists id :: hidden.Keys == {id} && At(whole, key, id) && hidden[id] == whole[id]
  {
    hide Fits;
    assert !Fits(whole, key, size) by {
      FitsIsSmall(whole, key, size);
    }
    var id :| id in hidden;
    assert |hidden.Keys - {id}| == 0;
    assert hidden.Keys == {id};
  }

  lemma FitsIsSmall(whole: Rows, key: Key, size: nat)
    ensures Fits(whole, key, size) <==> |IdsOf(whole, key)| <= size
  {
  }

  /** `apply_rrset_mutation`. A completed call refuses exactly to replace or delete what is absent and to create
      what is not, and then sends nothing. An RRset that agreed with its map entry, once written, agrees with
      the new entry exactly when what was written, and the rows no response listed, read together as that
      entry: with all rows listed, when the normalised values read back as themselves; and for values that
      round-trip, when the unlisted rows are already among the new values with a TTL not below the new one. A
      deleted one is gone exactly when all rows were listed. Every other RRset stays as it is, readable or
      not. */
  method ApplyMutation(zone: RemoteZone, ip6: Ip6, zoneName: string, recordName: string, rt: RecordType,
      ttl: Option<int>, values: seq<string>, mode: Mode, ghost m: RRsets) returns (r: Result<Status>)
    requires zone.Valid()
    modifies zone
    ensures zone.Valid() && OthersKept(old(zone.Whole()), zone.Whole(), Key(Fqdn(zoneName, recordName), rt))
    ensures r.Ok? && r.value != Done ==> zone.Whole() == old(zone.Whole()) && zone.requests == old(zone.requests)
    ensures r.Err? && (zone.reliable || zone.faults == old(zone.faults)) ==>
      (Unreadable(ip6, old(zone.Whole()), Key(Fqdn(zoneName, recordName), rt))
      || (mode != DeleteMode && NormalizeValues(ip6, rt, values).Err?))
    ensures r.Ok? && r.value == Done && mode != DeleteMode ==> NormalizeValues(ip6, rt, values).Ok?
    ensures r.Ok? ==> CutOff(old(zone.Whole()), zone.hidden, Key(Fqdn(zoneName, recordName), rt), zone.pageSize)
    ensures var absent := Absent(old(zone.Whole()), Key(Fqdn(zoneName, recordName), rt));
      && (r == Ok(NotFound) <==> r.Ok? && (mode == ReplaceMode || mode == DeleteMode) && absent)
      && (r == Ok(AlreadyExists) <==> r.Ok? && mode == CreateMode && !absent)
    ensures var key := Key(Fqdn(zoneName, recordName), rt);
      r == Ok(Done) && mode == DeleteMode && Agrees(ip6, old(zone.Whole()), m, key) ==>
        (Agrees(ip6, zone.Whole(), m - {key}, key) <==> Fits(old(zone.Whole()), key, zone.pageSize))
    ensures var key := Key(Fqdn(zoneName, recordName), rt);
      r == Ok(Done) && mode != DeleteMode && Agrees(ip6, old(zone.Whole()), m, key) ==>
        var stored := NormalizeValues(ip6, rt, values).value;
        var entry := RRset(if ttl == None || ttl == Some(0) then 300 else ttl.value, Elements(stored));
        var now := m[key := entry];
        && (Agrees(ip6, zone.Whole(), now, key) <==> ReadsBeside(ip6, zone.hidden, key, entry.ttl, stored, entry))
        && (Fits(old(zone.Whole()), key, zone.pageSize) ==>
              (Agrees(ip6, zone.Whole(), now, key) <==> ReadsBackAs(ip6, key, stored, entry.values)))
        && (AllRoundTrip(ip6, key, stored) ==>
              (Agrees(ip6, zone.Whole(), now, key) <==> FitIn(ip6, zone.hidden, entry.ttl, entry.values)))
        && (AllRoundTrip(ip6, key, stored) && Fits(old(zone.Whole()), key, zone.pageSize) ==>
              Agrees(ip6, zone.Whole(), now, key))
  {
    hide Reads, OthersKept, Unreadable, Synced, Absent, CutOff, Fits, ReadsBackAs, ReadsBeside, FitIn, AllRoundTrip,
      NormalizeValues;
    var key := Key(Fqdn(zoneName, recordName), rt);
    ghost var whole := zone.Whole();
    OthersKeptSelf(whole, key);
    var found := GetRecord(zone, ip6, key);
    if found.Err? {
      UnreadableWhole(ip6, zone.rows, zone.hidden, key);
      return Err(found.message);
    }
    ShownPart(whole, zone.rows, zone.hidden, key, zone.pageSize);
    ReadsPresent(ip6, zone.rows, key);
    if Agrees(ip6, whole, m, key) {
      AgreesPresent(ip6, whole, m, key);
    }
    var exists_ := found.value.Some?;
    if mode == CreateMode && exists_ {
      return Ok(AlreadyExists);
    }
    if mode != CreateMode && !exists_ {
      return Ok(NotFound);
    }
    if mode == DeleteMode {
      var deleted := DeleteRecords(zone, key);
      r := if deleted.Ok? then Ok(Done) else Err(deleted.message);
    } else {
      var newTtl := if ttl.Some? then ttl.value else 300;
      var written := CreateOrUpdate(zone, ip6, key, newTtl, values);
      if written.Err? {
        return Err(written.message);
      }
      r := Ok(Done);
      ghost var desired := NormalizeValues(ip6, rt, values).value;
      NormalizedWritable(ip6, key, values);
      WrittenReads(ip6, whole, zone.rows, zone.hidden, key, zone.pageSize, StoredTtl(newTtl), desired,
        RRset(StoredTtl(newTtl), Elements(desired)));
    }
  }

  lemma ReadsPresent(ip6: Ip6, rows: Rows, key: Key)
    ensures forall rrset :: Reads(ip6, rows, key, rrset) ==> !Absent(rows, key)
  {
    hide Holds;
  }

  // ---------------------------------------------------------------- patch

  /** What writing a value that was read reads back as. */
  function PatchBack(ip6: Ip6, key: Key, value: string): Result<string> {
    var normalized :- NormalizeValue(ip6, key.rtype, value);
    ReadBack(ip6, key.name, key.rtype, normalized)
  }

  /** Normalising and writing the values gives the same set of values back. */
  ghost predicate Keepable(ip6: Ip6, key: Key, values: set<string>) {
    forall x :: (exists v :: v in values && x == PatchBack(ip6, key, v)) <==> (x.Ok? && x.value in values)
  }

  /** The values read cannot be written again: one does not normalise, or the type allows one value only. */
  ghost predicate Unwritable(ip6: Ip6, rows: Rows, key: Key) {
    || (exists v :: Holds(ip6, rows, key, Ok(v)) && NormalizeValue(ip6, key.rtype, v).Err?)
    || ((key.rtype == CNAME || key.rtype == SOA) && |IdsOf(rows, key)| != 1)
  }

  /** `apply_patch_mutation`. It passes on what the request omits as the listing read it: `read` is that, and
      `unread` are the rows no response listed then. The RRset agrees with the patched entry exactly when
      what was written and the rows not listed at the write read together as that entry. With all rows
      listed, given values must read back as themselves, and omitted values are kept exactly when
      normalising and writing those read gives the same set back; the smallest TTL is the one kept. Then,
      with omitted values and no failed request, the call fails exactly when what was read cannot be read or
      written again. */
  method ApplyPatch(zone: RemoteZone, ip6: Ip6, zoneName: string, recordName: string, rt: RecordType,
      patchTtl: Option<int>, patchValues: Option<seq<string>>, ghost m: RRsets)
    returns (r: Result<Status>, ghost read: Info, ghost unread: Rows)
    requires zone.Valid()
    modifies zone
    ensures zone.Valid() && OthersKept(old(zone.Whole()), zone.Whole(), Key(Fqdn(zoneName, recordName), rt))
    ensures r == Ok(NotFound) ==> zone.Whole() == old(zone.Whole()) && zone.requests == old(zone.requests)
    ensures r.Err? && (zone.reliable || zone.faults == old(zone.faults)) && patchValues.Some? ==>
      (Unreadable(ip6, old(zone.Whole()), Key(Fqdn(zoneName, recordName), rt))
      || NormalizeValues(ip6, rt, patchValues.value).Err?)
    ensures var key := Key(Fqdn(zoneName, recordName), rt);
      Fits(old(zone.Whole()), key, zone.pageSize) && patchValues.None? ==>
        && (r.Err? && (zone.reliable || zone.faults == old(zone.faults)) ==>
              Unreadable(ip6, old(zone.Whole()), key) || Unwritable(ip6, old(zone.Whole()), key))
        && (r == Ok(Done) ==> !Unreadable(ip6, old(zone.Whole()), key) && !Unwritable(ip6, old(zone.Whole()), key))
    ensures var key := Key(Fqdn(zoneName, recordName), rt);
      r == Ok(Done) ==>
        && CutOff(old(zone.Whole()), zone.hidden, key, zone.pageSize)
        && CutOff(old(zone.Whole()), unread, key, zone.pageSize) && read.values != []
        && Reads(ip6, old(zone.Whole()) - unread.Keys, key, RRset(read.ttl, Elements(read.values)))
        && NormalizeValues(ip6, rt, if patchValues.Some? then patchValues.value else read.values).Ok?
    ensures r == Ok(NotFound) <==> r.Ok? && Absent(old(zone.Whole()), Key(Fqdn(zoneName, recordName), rt))
    ensures r.Ok? ==> r.value in {NotFound, Done}
    ensures var key := Key(Fqdn(zoneName, recordName), rt);
      r == Ok(Done) && Agrees(ip6, old(zone.Whole()), m, key) ==>
        var stored := NormalizeValues(ip6, rt, if patchValues.Some? then patchValues.value else read.values).value;
        var written := StoredTtl(if patchTtl.Some? then patchTtl.value else read.ttl);
        var entry := RRset(StoredTtl(if patchTtl.Some? then patchTtl.value else m[key].ttl),
                           if patchValues.Some? then Elements(stored) else m[key].values);
        && (Agrees(ip6, zone.Whole(), m[key := entry], key) <==>
            ReadsBeside(ip6, zone.hidden, key, written, stored, entry))
        && (patchTtl.Some? && patchValues.Some? && AllRoundTrip(ip6, key, stored) ==>
              (Agrees(ip6, zone.Whole(), m[key := entry], key) <==> FitIn(ip6, zone.hidden, entry.ttl, entry.values)))
    ensures var key := Key(Fqdn(zoneName, recordName), rt);
      r == Ok(Done) && Agrees(ip6, old(zone.Whole()), m, key) && Fits(old(zone.Whole()), key, zone.pageSize) ==>
        var newTtl := StoredTtl(if patchTtl.Some? then patchTtl.value else m[key].ttl);
        && (patchValues.Some? ==>
              var stored := NormalizeValues(ip6, rt, patchValues.value).value;
              var now := m[key := RRset(newTtl, Elements(stored))];
              && (Agrees(ip6, zone.Whole(), now, key) <==> ReadsBackAs(ip6, key, stored, Elements(stored)))
              && (AllRoundTrip(ip6, key, stored) ==> Agrees(ip6, zone.Whole(), now, key)))
        && (patchValues.None? ==>
              (Agrees(ip6, zone.Whole(), m[key := RRset(newTtl, m[key].values)], key) <==>
               Keepable(ip6, key, m[key].values)))
  {
    hide Reads, OthersKept, Unreadable, Synced, Absent, CutOff, Fits, ReadsBackAs, ReadsBeside, FitIn, AllRoundTrip,
      NormalizeValues, Keepable, Unwritable, Stable, IdsOf;
    var key := Key(Fqdn(zoneName, recordName), rt);
    ghost var whole := zone.Whole();
    OthersKeptSelf(whole, key);
    read, unread := Info(0, []), map[];
    var found := GetRecord(zone, ip6, key);
    if found.Err? {
      UnreadableWhole(ip6, zone.rows, zone.hidden, key);
      return Err(found.message), read, unread;
    }
    ghost var shown := zone.rows;
    unread := zone.hidden;
    WithoutHidden(shown, unread);
    ShownPart(whole, shown, unread, key, zone.pageSize);
    ReadsPresent(ip6, shown, key);
    if Agrees(ip6, whole, m, key) {
      AgreesPresent(ip6, whole, m, key);
    }
    if found.value.None? {
      return Ok(NotFound), read, unread;
    }
    var info := found.value.value;
    read := info;
    var newTtl := if patchTtl.Some? then patchTtl.value else info.ttl;
    var newValues := if patchValues.Some? then patchValues.value else info.values;
    var written := CreateOrUpdate(zone, ip6, key, newTtl, newValues);
    if patchValues.None? {
      RewriteFails(ip6, shown, key, info.ttl, info.values);
    }
    if written.Err? {
      return Err(written.message), read, unread;
    }
    r := Ok(Done);
    ghost var desired := NormalizeValues(ip6, rt, newValues).value;
    NormalizedWritable(ip6, key, newValues);
    if Agrees(ip6, whole, m, key) {
      ghost var entry := RRset(StoredTtl(if patchTtl.Some? then patchTtl.value else m[key].ttl),
                               if patchValues.Some? then Elements(desired) else m[key].values);
      WrittenReads(ip6, whole, zone.rows, zone.hidden, key, zone.pageSize, StoredTtl(newTtl), desired, entry);
    }
    if patchValues.None? {
      RewriteKeeps(ip6, key, info.values);
    }
  }

  lemma WithoutHidden(rows: Rows, hidden: Rows)
    requires rows.Keys !! hidden.Keys
    ensures (rows + hidden) - hidden.Keys == rows
  {
  }

  /** Writing the values read fails to normalise exactly when the RRset is unwritable. */
  lemma RewriteFails(ip6: Ip6, rows: Rows, key: Key, ttl: int, values: seq<string>)
    requires Reads(ip6, rows, key, RRset(ttl, Elements(values))) && values != [] && |values| == |IdsOf(rows, key)|
    ensures NormalizeValues(ip6, key.rtype, values).Err? <==> Unwritable(ip6, rows, key)
  {
    hide NormalizeValue, Holds, IdsOf;
    forall v ensures Holds(ip6, rows, key, Ok(v)) <==> v in values {
      assert Holds(ip6, rows, key, Ok(v)) <==> v in Elements(values);
    }
    var all := NormalizeEach(ip6, key.rtype, values);
    if all.Err? {
      var i :| 0 <= i < |values| && NormalizeValue(ip6, key.rtype, values[i]).Err?;
      assert values[i] in values;
    } else {
      forall v | v in values ensures NormalizeValue(ip6, key.rtype, v).Ok? {
        var i :| 0 <= i < |values| && values[i] == v;
      }
    }
  }

  lemma RewriteKeeps(ip6: Ip6, key: Key, values: seq<string>)
    requires NormalizeValues(ip6, key.rtype, values).Ok?
    ensures ReadsBackAs(ip6, key, NormalizeValues(ip6, key.rtype, values).value, Elements(values))
      <==> Keepable(ip6, key, Elements(values))
  {
    hide NormalizeValue, ReadBack;
    var desired := NormalizeValues(ip6, key.rtype, values).value;
    forall x ensures ReadsBack(ip6, key, desired, x) <==>
      (exists v :: v in Elements(values) && x == PatchBack(ip6, key, v)) {
      if ReadsBack(ip6, key, desired, x) {
        var u :| u in desired && x == ReadBack(ip6, key.name, key.rtype, u);
        var i :| 0 <= i < |desired| && desired[i] == u;
        assert values[i] in Elements(values) && x == PatchBack(ip6, key, values[i]);
      }
      if v :| v in Elements(values) && x == PatchBack(ip6, key, v) {
        var i :| 0 <= i < |values| && values[i] == v;
        assert desired[i] in desired && x == ReadBack(ip6, key.name, key.rtype, desired[i]);
      }
    }
    hide ReadsBack, PatchBack;
  }

  /** Values that normalising and writing both leave alone can be kept. */
  lemma StableIsKeepable(ip6: Ip6, key: Key, values: set<string>)
    requires forall v :: v in values ==> Stable(ip6, key.name, key.rtype, v)
    ensures Keepable(ip6, key, values)
  {
    hide NormalizeValue, ReadBack;
    forall v | v in values ensures PatchBack(ip6, key, v) == Ok(v) {
      assert Stable(ip6, key.name, key.rtype, v);
    }
    hide PatchBack, Stable;
    forall x: Result<string> | x.Ok? && x.value in values
      ensures exists v :: v in values && x == PatchBack(ip6, key, v)
    {
      assert x == PatchBack(ip6, key, x.value);
    }
  }

  /** A value that normalising and writing both leave alone. */
  predicate Stable(ip6: Ip6, fqdn: string, rt: RecordType, value: string) {
    NormalizeValue(ip6, rt, value) == Ok(value) && RoundTrips(ip6, fqdn, rt, value)
  }

  /** What this layer wrote and can read back is stable, so a later PATCH keeps it. */
  lemma WrittenValuesAreStable(ip6: Ip6, fqdn: string, rt: RecordType, value: string)
    requires CanonicalIp6(ip6) && NormalizeValue(ip6, rt, value).Ok?
    requires Readable(rt, NormalizeValue(ip6, rt, value).value)
    ensures Stable(ip6, fqdn, rt, NormalizeValue(ip6, rt, value).value)
  {
    ReadBackWritten(ip6, fqdn, rt, value);
    NormalizeIdempotent(ip6, rt, value);
    if rt in {CNAME, NS, PTR} {
      StripTwice(value);
    }
  }

  /** A TXT value found at the provider is stable exactly when it is stripped, not empty and not in
      quotes; so a PATCH of the TTL alone rewrites a TXT value with outer white space. */
  lemma StableTxt(ip6: Ip6, fqdn: string, text: string)
    ensures Stable(ip6, fqdn, TXT, text) <==> text != [] && Stripped(text) && !(|text| >= 2 && Quoted(text))
  {
    StripFixes(text);
    if text != [] && Stripped(text) {
      var v := UnquoteTxt(text);
      StripFixes(TxtContent(text));
      assert TxtContent(text)[1..|TxtContent(text)| - 1] == v;
    }
  }
}
