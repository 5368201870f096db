/** The provider's record rows and the requests that change them (src/plugins/cloudflare.py, lines 319-371). */
module RecordStore {
  import opened Basics
  import opened Text
  import opened RecordValues
  import opened CloudflareRows

  datatype Key = Key(name: string, rtype: RecordType)
  datatype Row = Row(key: Key, ttl: int, body: Body)
  type Rows = map<nat, Row>

  datatype Request = Created(id: nat) | Updated(id: nat) | Deleted(id: nat)

  function Value(ip6: Ip6, row: Row): Result<string> {
    Canonical(ip6, row.key.rtype, row.body)
  }

  predicate At(rows: Rows, key: Key, id: nat) {
    id in rows && rows[id].key == key
  }

  function IdsOf(rows: Rows, key: Key): set<nat> {
    set id | id in rows && rows[id].key == key
  }

  /** The RRset has at most `size` rows: one response can list it. */
  predicate Fits(rows: Rows, key: Key, size: nat) { |IdsOf(rows, key)| <= size }

  /** The rows of one RRset that a response of `size` rows leaves out: none if it fits, else all further ones. */
  ghost predicate CutOff(whole: Rows, hidden: Rows, key: Key, size: nat) {
    && hidden.Keys <= IdsOf(whole, key) && (forall id :: id in hidden ==> hidden[id] == whole[id])
    && |hidden.Keys| == if Fits(whole, key, size) then 0 else |IdsOf(whole, key)| - size
  }

  /** Some row of the RRset reads as `x`. */
  ghost predicate Holds(ip6: Ip6, rows: Rows, key: Key, x: Result<string>) {
    exists id :: id in rows && rows[id].key == key && Value(ip6, rows[id]) == x
  }

  ghost predicate Unreadable(ip6: Ip6, rows: Rows, key: Key) {
    exists id :: At(rows, key, id) && Value(ip6, rows[id]).Err?
  }

  ghost predicate Absent(rows: Rows, key: Key) {
    forall id :: !At(rows, key, id)
  }

  /** `ids` lists the rows of one RRset, in any order. */
  ghost predicate Listing(rows: Rows, key: Key, ids: seq<nat>) {
    NoDuplicates(ids) && (forall id :: id in ids <==> At(rows, key, id))
  }

  ghost predicate OthersKept(old_: Rows, now: Rows, key: Key) {
    && (forall id :: id in old_ && old_[id].key != key ==> id in now && now[id] == old_[id])
    && (forall id :: id in now && now[id].key != key ==> id in old_ && now[id] == old_[id])
  }

  /** `x` is what some desired value reads back as. */
  ghost predicate ReadsBack(ip6: Ip6, key: Key, desired: seq<string>, x: Result<string>) {
    exists u :: u in desired && x == ReadBack(ip6, key.name, key.rtype, u)
  }

  /** No value that is present, desired and read back unchanged is missing; nothing appears that was not
      there and is not what a desired value reads back as; no other RRset differs. */
  ghost predicate Safe(ip6: Ip6, old_: Rows, now: Rows, key: Key, desired: seq<string>) {
    && (forall v :: v in desired && RoundTrips(ip6, key.name, key.rtype, v) && Holds(ip6, old_, key, Ok(v)) ==>
          Holds(ip6, now, key, Ok(v)))
    && (forall x :: Holds(ip6, now, key, x) ==> Holds(ip6, old_, key, x) || ReadsBack(ip6, key, desired, x))
    && OthersKept(old_, now, key)
  }

  /** Exactly one readable row for each desired value, and no other row. */
  ghost predicate Settled(ip6: Ip6, rows: Rows, key: Key, desired: seq<string>) {
    && (forall id :: At(rows, key, id) ==> Value(ip6, rows[id]).Ok? && Value(ip6, rows[id]).value in desired)
    && (forall v :: v in desired ==> Holds(ip6, rows, key, Ok(v)))
    && (forall i, j :: At(rows, key, i) && At(rows, key, j) && i != j ==> Value(ip6, rows[i]) != Value(ip6, rows[j]))
  }

  /** The RRset holds what the desired values read back as, all with one TTL. */
  ghost predicate Synced(ip6: Ip6, rows: Rows, key: Key, ttl: int, desired: seq<string>) {
    && (forall x :: Holds(ip6, rows, key, x) <==> ReadsBack(ip6, key, desired, x))
    && (forall id :: At(rows, key, id) ==> rows[id].ttl == ttl)
  }

  /** Every value present and desired is still there, and nothing is new. */
  ghost predicate OnlyStaleGone(ip6: Ip6, old_: Rows, now: Rows, key: Key, desired: seq<string>) {
    && (forall v :: v in desired && Holds(ip6, old_, key, Ok(v)) ==> Holds(ip6, now, key, Ok(v)))
    && (forall x :: Holds(ip6, now, key, x) ==> Holds(ip6, old_, key, x))
  }

  /** The RRset holds what the first `n` desired values read back as, and those of the others that were there. */
  ghost predicate PlacedUpTo(ip6: Ip6, old_: Rows, now: Rows, key: Key, desired: seq<string>, n: nat)
    requires n <= |desired|
  {
    forall x :: Holds(ip6, now, key, x) <==>
      ReadsBack(ip6, key, desired[..n], x)
      || (x.Ok? && x.value in desired && x.value !in desired[..n] && Holds(ip6, old_, key, x))
  }

  /** Every value listed more than once was already there: otherwise each listing creates a row. */
  ghost predicate RepeatsPresent(ip6: Ip6, rows: Rows, key: Key, desired: seq<string>) {
    forall i, j :: 0 <= i < j < |desired| && desired[i] == desired[j] ==> Holds(ip6, rows, key, Ok(desired[i]))
  }

  ghost predicate AllRoundTrip(ip6: Ip6, key: Key, desired: seq<string>) {
    forall v :: v in desired ==> RoundTrips(ip6, key.name, key.rtype, v)
  }

  ghost predicate Writable(key: Key, desired: seq<string>) {
    forall v :: v in desired ==> RecordBody(key.name, key.rtype, v).Ok?
  }

  /** Normalized values can always be written. */
  lemma NormalizedIsWritable(ip6: Ip6, fqdn: string, rt: RecordType, value: string)
    requires NormalizeValue(ip6, rt, value).Ok?
    ensures RecordBody(fqdn, rt, NormalizeValue(ip6, rt, value).value).Ok?
  {
    match rt {
      case MX =>
        ParsedMx(Strip(value));
        ParseMxText(ParseMx(Strip(value)).value);
      case SRV =>
        ParsedSrv(Strip(value));
        ParseSrvText(ParseSrv(Strip(value)).value);
      case CAA =>
        ParsedCaa(Strip(value));
        ParseCaaText(ParseCaa(Strip(value)).value);
      case _ =>
    }
  }

  // ---------------------------------------------------------------- the store

  /** The rows are `rows` and `hidden` together: `hidden` are those of its RRset that the one page of the
      last listing did not hold. Every request that took effect is logged with the rows it left. A request
      may fail, before or after it took effect, unless the provider is `reliable`. */
  class RemoteZone {
    const pageSize: nat
    const reliable: bool
    var rows: Rows
    var hidden: Rows
    var nextId: nat
    ghost var requests: seq<Request>
    ghost var states: seq<Rows>
    ghost var faults: nat

    ghost predicate Valid()
      reads this
    {
      && pageSize >= 1 && |requests| == |states| && rows.Keys !! hidden.Keys
      && (forall id :: id in rows ==> id < nextId) && (forall id :: id in hidden ==> id < nextId)
      && (reliable ==> faults == 0)
    }

    function Whole(): Rows
      reads this
    {
      rows + hidden
    }

    /** The request took effect. */
    twostate predicate Took(request: Request, now: Rows)
      reads this
    {
      rows == now && requests == old(requests) + [request] && states == old(states) + [now]
    }

    twostate predicate Missed()
      reads this
    {
      rows == old(rows) && requests == old(requests) && states == old(states)
    }

    /** What no request for a row changes. */
    twostate predicate Framed(failed: bool)
      reads this
    {
      Valid() && hidden == old(hidden) && old(nextId) <= nextId && faults == old(faults) + if failed then 1 else 0
    }

    constructor (pageSize: nat, reliable: bool)
      requires pageSize >= 1
      ensures Valid() && Whole() == map[] && requests == []
      ensures this.pageSize == pageSize && this.reliable == reliable
    {
      this.pageSize, this.reliable := pageSize, reliable;
      rows, hidden, nextId, requests, states, faults := map[], map[], 0, [], [], 0;
    }

    method Create(row: Row) returns (r: Result<nat>)
      requires Valid()
      modifies this
      ensures Framed(r.Err?)
      ensures r.Ok? ==> r.value == old(nextId)
      ensures Took(Created(old(nextId)), old(rows)[old(nextId) := row]) || (r.Err? && Missed())
    {
      r := Ok(nextId);
      var fails: bool := *;
      if fails && !reliable {
        faults := faults + 1;
        r := Err("Cloudflare API request failed");
        if * {
          return;
        }
      }
      rows := rows[nextId := row];
      requests, states, nextId := requests + [Created(nextId)], states + [rows], nextId + 1;
    }

    method Update(id: nat, row: Row) returns (r: Result<()>)
      requires Valid() && id in rows
      modifies this
      ensures Framed(r.Err?)
      ensures Took(Updated(id), old(rows)[id := row]) || (r.Err? && Missed())
    {
      r := Ok(());
      var fails: bool := *;
      if fails && !reliable {
        faults := faults + 1;
        r := Err("Cloudflare API request failed");
        if * {
          return;
        }
      }
      rows := rows[id := row];
      requests, states := requests + [Updated(id)], states + [rows];
    }

    method Delete(id: nat) returns (r: Result<()>)
      requires Valid() && id in rows
      modifies this
      ensures Framed(r.Err?)
      ensures Took(Deleted(id), old(rows) - {id}) || (r.Err? && Missed())
    {
      r := Ok(());
      var fails: bool := *;
      if fails && !reliable {
        faults := faults + 1;
        r := Err("Cloudflare API request failed");
        if * {
          return;
        }
      }
      rows := rows - {id};
      requests, states := requests + [Deleted(id)], states + [rows];
    }

    /** `_list_records`: one response of at most `pageSize` rows, whatever the RRset holds. */
    method List(key: Key) returns (r: Result<seq<nat>>)
      requires Valid()
      modifies this
      ensures Valid() && Whole() == old(Whole()) && nextId == old(nextId)
      ensures requests == old(requests) && states == old(states) && faults == old(faults) + if r.Err? then 1 else 0
      ensures r.Err? ==> rows == old(rows) && hidden == old(hidden)
      ensures r.Ok? ==> Listing(rows, key, r.value) && |r.value| <= pageSize
      ensures r.Ok? ==> CutOff(Whole(), hidden, key, pageSize)
    {
      hide Listing, CutOff, IdsOf, At;
      var fails: bool := *;
      if fails && !reliable {
        faults := faults + 1;
        return Err("Cloudflare API request failed");
      }
      var ids, shown, cut := SplitListing(Whole(), key, pageSize);
      rows, hidden := shown, cut;
      r := Ok(ids);
    }
  }

  /** One response: the rows it lists, and how it divides the store. */
  method SplitListing(whole: Rows, key: Key, size: nat) returns (ids: seq<nat>, shown: Rows, cut: Rows)
    ensures shown + cut == whole && shown.Keys !! cut.Keys && |ids| <= size
    ensures forall id :: id in whole <==> id in shown || id in cut
    ensures Listing(shown, key, ids) && CutOff(whole, cut, key, size)
  {
    hide Listing, Fits, CutOff;
    var rest: set<nat>;
    ids, rest := FirstPage(whole, key, size);
    shown, cut := whole - rest, map id | id in rest && id in whole :: whole[id];
    Partition(whole, key, size, ids, rest);
  }

  lemma Partition(whole: Rows, key: Key, size: nat, ids: seq<nat>, rest: set<nat>)
    requires NoDuplicates(ids) && forall id :: id in ids <==> At(whole, key, id) && id !in rest
    requires rest <= IdsOf(whole, key)
    requires |rest| == if Fits(whole, key, size) then 0 else |IdsOf(whole, key)| - size
    ensures var shown, cut := whole - rest, map id | id in rest && id in whole :: whole[id];
      && shown + cut == whole && shown.Keys !! cut.Keys && Listing(shown, key, ids) && CutOff(whole, cut, key, size)
  {
    hide Fits, NoDuplicates;
    var cut := map id | id in rest && id in whole :: whole[id];
    assert cut.Keys == rest;
    forall id ensures id in ids <==> At(whole - rest, key, id) {
    }
  }

  method FirstPage(whole: Rows, key: Key, size: nat) returns (ids: seq<nat>, rest: set<nat>)
    ensures NoDuplicates(ids) && |ids| <= size
    ensures forall id :: id in ids <==> At(whole, key, id) && id !in rest
    ensures rest <= IdsOf(whole, key) && |rest| == if Fits(whole, key, size) then 0 else |IdsOf(whole, key)| - size
  {
    ids, rest := [], IdsOf(whole, key);
    while rest != {} && |ids| < size
      invariant NoDuplicates(ids) && |ids| <= size && |ids| + |rest| == |IdsOf(whole, key)|
      invariant forall id :: id in ids <==> At(whole, key, id) && id !in rest
      invariant forall id :: id in rest ==> At(whole, key, id)
      decreases rest
    {
      var id :| id in rest;
      ids, rest := ids + [id], rest - {id};
    }
  }

  /** From state `start` on, each state has one more desired value placed. */
  ghost predicate TracePlaced(ip6: Ip6, old_: Rows, states: seq<Rows>, start: nat, key: Key, desired: seq<string>) {
    start <= |states| <= start + |desired|
    && forall k :: start <= k < |states| ==> PlacedUpTo(ip6, old_, states[k], key, desired, k - start + 1)
  }

  /** The states a sync goes through: stale rows go, and from `start` on the desired values are placed in turn. */
  ghost predicate Course(ip6: Ip6, old_: Rows, states: seq<Rows>, from: nat, start: nat, key: Key,
      desired: seq<string>)
  {
    && from <= start <= |states|
    && (forall k :: from <= k < start ==> OnlyStaleGone(ip6, old_, states[k], key, desired))
    && TracePlaced(ip6, old_, states, start, key, desired)
  }

  /** The logs only grow, and the rows are those of the last logged state. */
  ghost predicate Extends(requests0: seq<Request>, states0: seq<Rows>, rows0: Rows,
      requests: seq<Request>, states: seq<Rows>, rows: Rows)
  {
    && requests0 <= requests && states0 <= states
    && |requests| - |requests0| == |states| - |states0|
    && rows == if |states| == |states0| then rows0 else states[|states| - 1]
  }

  // ---------------------------------------------------------------- safety

  lemma SafeSelf(ip6: Ip6, rows: Rows, key: Key, desired: seq<string>)
    ensures Safe(ip6, rows, rows, key, desired) && OthersKept(rows, rows, key)
  {
  }

  /** When every desired value reads back unchanged, safety is what one expects: no value both present
      and desired is missing, and nothing outside old and desired appears. */
  lemma SafeForRoundTripping(ip6: Ip6, old_: Rows, now: Rows, key: Key, desired: seq<string>)
    requires Safe(ip6, old_, now, key, desired) && AllRoundTrip(ip6, key, desired)
    ensures forall v :: v in desired && Holds(ip6, old_, key, Ok(v)) ==> Holds(ip6, now, key, Ok(v))
    ensures forall x :: Holds(ip6, now, key, x) ==> Holds(ip6, old_, key, x) || (x.Ok? && x.value in desired)
  {
    hide RecordBody, Canonical, Value;
  }

  /** So it is for all normalised values but the few texts that the provider's rows do not give back. */
  lemma NormalizedRoundTrip(ip6: Ip6, key: Key, desired: seq<string>)
    requires CanonicalIp6(ip6) && forall v :: v in desired ==> NormalizeValue(ip6, key.rtype, v) == Ok(v)
    ensures key.rtype in {A, AAAA, MX, SRV, SOA} ==> AllRoundTrip(ip6, key, desired)
    ensures AllRoundTrip(ip6, key, desired) <==> forall v :: v in desired ==> Readable(key.rtype, v)
  {
    forall v | v in desired ensures RoundTrips(ip6, key.name, key.rtype, v) <==> Readable(key.rtype, v) {
      ReadBackWritten(ip6, key.name, key.rtype, v);
    }
    hide RoundTrips, NormalizeValue;
  }

  /** Rows that no request can reach change nothing about safety. */
  lemma SafeWithHidden(ip6: Ip6, old_: Rows, now: Rows, hidden: Rows, key: Key, desired: seq<string>)
    requires Safe(ip6, old_, now, key, desired) && old_.Keys !! hidden.Keys && now.Keys !! hidden.Keys
    ensures Safe(ip6, old_ + hidden, now + hidden, key, desired)
  {
    hide RecordBody, Canonical, Value, ReadBack;
    HoldsEither(ip6, old_, hidden, key);
    HoldsEither(ip6, now, hidden, key);
    hide Holds, ReadsBack;
  }

  lemma HoldsEither(ip6: Ip6, rows: Rows, hidden: Rows, key: Key)
    requires rows.Keys !! hidden.Keys
    ensures forall x :: Holds(ip6, rows + hidden, key, x) <==> Holds(ip6, rows, key, x) || Holds(ip6, hidden, key, x)
  {
    hide Value;
    forall x ensures Holds(ip6, rows + hidden, key, x) <==> Holds(ip6, rows, key, x) || Holds(ip6, hidden, key, x) {
      if Holds(ip6, rows, key, x) {
        var id :| id in rows && rows[id].key == key && Value(ip6, rows[id]) == x;
        assert (rows + hidden)[id] == rows[id];
      }
      if Holds(ip6, hidden, key, x) {
        var id :| id in hidden && hidden[id].key == key && Value(ip6, hidden[id]) == x;
        assert (rows + hidden)[id] == hidden[id];
      }
    }
  }

  /** Without round-tripping a value can be lost: a row that reads as a quoted text, desired as it reads,
      is rewritten by the sync into one that reads without the quotes. */
  lemma UpdateLosesQuotedTxt(ip6: Ip6, name: string)
    ensures var key, v := Key(name, TXT), "\"x\"";
      && RecordBody(name, TXT, v).Ok? && NormalizeValue(ip6, TXT, v) == Ok(v)
      && var old_ := map[0 := Row(key, 300, Body("\"\"x\"\"", 0, NoData))];
      && var now := old_[0 := Row(key, 300, RecordBody(name, TXT, v).value)];
      && Holds(ip6, old_, key, Ok(v)) && !Holds(ip6, now, key, Ok(v))
  {
    var key, v := Key(name, TXT), "\"x\"";
    var twice := "\"\"x\"\"";
    StripFixes(v);
    StripFixes(twice);
    assert twice[1..|twice| - 1] == v && v[1..|v| - 1] == "x";
    assert UnquoteTxt(twice) == v && UnquoteTxt(v) == "x";
    assert TxtContent(v) == v;
    var old_ := map[0 := Row(key, 300, Body(twice, 0, NoData))];
    var now := old_[0 := Row(key, 300, RecordBody(name, TXT, v).value)];
    assert Value(ip6, old_[0]) == Ok(v) && Value(ip6, now[0]) == Ok("x");
  }

  /** A value present and desired survives every request up to its own, and beyond, exactly when it, or a
      desired value before it, reads back as it. */
  lemma SurvivesIff(ip6: Ip6, old_: Rows, states: seq<Rows>, from: nat, start: nat, key: Key, desired: seq<string>,
      i: nat)
    requires Course(ip6, old_, states, from, start, key, desired) && i < |states| - start
    requires Holds(ip6, old_, key, Ok(desired[i])) && desired[i] !in desired[..i]
    ensures (forall k :: from <= k < |states| ==> Holds(ip6, states[k], key, Ok(desired[i])))
      <==> ReadsBack(ip6, key, desired[..i + 1], Ok(desired[i]))
  {
    hide Holds, ReadBack;
    var v := desired[i];
    assert desired[..i + 1] == desired[..i] + [v];
    assert v in desired[..i + 1];
    assert PlacedUpTo(ip6, old_, states[start + i], key, desired, i + 1);
    if ReadsBack(ip6, key, desired[..i + 1], Ok(v)) {
      forall k | from <= k < |states| ensures Holds(ip6, states[k], key, Ok(v)) {
        if start <= k {
          var n := k - start + 1;
          assert PlacedUpTo(ip6, old_, states[k], key, desired, n);
          if n <= i {
            assert v !in desired[..n] by {
              assert desired[..n] <= desired[..i];
            }
          } else {
            assert desired[..i + 1] <= desired[..n];
          }
        }
      }
    }
  }

  /** After a completed sync a desired value is missing from the whole RRset exactly when no desired value reads
      back as it and no unlisted row holds it. */
  lemma SyncedHolds(ip6: Ip6, rows: Rows, hidden: Rows, key: Key, ttl: int, desired: seq<string>, v: string)
    requires Synced(ip6, rows, key, ttl, desired) && rows.Keys !! hidden.Keys && v in desired
    ensures !Holds(ip6, rows + hidden, key, Ok(v)) <==>
      (forall u :: u in desired ==> ReadBack(ip6, key.name, key.rtype, u) != Ok(v)) && !Holds(ip6, hidden, key, Ok(v))
  {
    HoldsEither(ip6, rows, hidden, key);
    hide Holds, ReadBack;
  }
}
