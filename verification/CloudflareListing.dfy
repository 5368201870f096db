/** The bounded, paged lister of the Cloudflare plugin (src/plugins/cloudflare.py, lines 205-262). */
module CloudflareListing {
  import opened Basics
  import opened CloudflareRows

  const PAGE_SIZE := 100

  const SUPPORTED_RECORD_TYPES: set<string> :=
    {"A", "AAAA", "CNAME", "TXT", "MX", "NS", "SRV", "CAA", "PTR", "SOA"}

  /** A row of the provider's answer; `value` is what `_canonical_from_row` makes of it. */
  datatype ApiRow = ApiRow(id: nat, name: string, rtype: string, ttl: int, value: Result<string>)

  /** An RRset: relative owner name and type. */
  datatype RRsetKey = RRsetKey(name: string, rtype: string)

  /** What is listed; `matches` stands for the glob test on the relative name. */
  datatype Query = Query(zoneName: string, requestedType: Option<string>, matches: string -> bool, limit: int) {
    function Limit(): nat { if limit < 1 then 1 else limit }

    function DisplayName(row: ApiRow): string { RelativeName(zoneName, row.name) }

    function KeyOf(row: ApiRow): RRsetKey { RRsetKey(DisplayName(row), row.rtype) }

    predicate Wanted(row: ApiRow) {
      && row.rtype in SUPPORTED_RECORD_TYPES
      && (requestedType.Some? ==> row.rtype == requestedType.value)
      && matches(DisplayName(row))
    }
  }

  // ---------------------------------------------------------------- specification

  /** The distinct wanted keys of `rows`, in order of first appearance. */
  function FirstKeys(q: Query, rows: seq<ApiRow>): (keys: seq<RRsetKey>)
    ensures NoDuplicates(keys)
    ensures forall k :: k in keys <==> exists j :: 0 <= j < |rows| && q.Wanted(rows[j]) && q.KeyOf(rows[j]) == k
  {
    hide Query.Wanted, Query.KeyOf;
    if rows == [] then []
    else
      var init, last := rows[..|rows| - 1], rows[|rows| - 1];
      var keys := FirstKeys(q, init);
      assert forall j :: 0 <= j < |init| ==> init[j] == rows[j];
      if q.Wanted(last) && q.KeyOf(last) !in keys then keys + [q.KeyOf(last)] else keys
  }

  /** All wanted rows of one key. */
  function RowsOf(q: Query, rows: seq<ApiRow>, key: RRsetKey): seq<ApiRow> {
    if rows == [] then []
    else
      var rest, last := RowsOf(q, rows[..|rows| - 1], key), rows[|rows| - 1];
      if q.Wanted(last) && q.KeyOf(last) == key then rest + [last] else rest
  }

  function Listed(q: Query, rows: seq<ApiRow>): seq<RRsetKey> {
    Take(FirstKeys(q, rows), q.Limit())
  }

  predicate Overflows(q: Query, rows: seq<ApiRow>) {
    |FirstKeys(q, rows)| > q.Limit()
  }

  function PageEnd(rows: seq<ApiRow>, page: nat): nat {
    if page * PAGE_SIZE < |rows| then page * PAGE_SIZE else |rows|
  }

  /** Some row between the two positions belongs to a listed RRset. */
  predicate Touches(q: Query, rows: seq<ApiRow>, from: nat, to: nat, listed: seq<RRsetKey>)
    requires to <= |rows|
  {
    exists j :: from <= j < to && q.Wanted(rows[j]) && q.KeyOf(rows[j]) in listed
  }

  /** How many rows are read from `page` on: all of them, or up to the first later page that comes
      after an overflow and touches no listed RRset. */
  function ScannedFrom(q: Query, rows: seq<ApiRow>, page: nat): (n: nat)
    requires page > 0
    ensures PageEnd(rows, page) <= n <= |rows|
    decreases |rows| - PageEnd(rows, page)
  {
    var end := PageEnd(rows, page);
    if end == |rows| then end
    else if Overflows(q, rows[..end]) &&
      !Touches(q, rows, PageEnd(rows, page - 1), end, Listed(q, rows[..end])) then end
    else ScannedFrom(q, rows, page + 1)
  }

  function Scanned(q: Query, rows: seq<ApiRow>): (n: nat)
    ensures n <= |rows|
  {
    ScannedFrom(q, rows, 1)
  }

  /** Reading stops after the page: the limit has overflowed, and the page held no row of a listed RRset. */
  predicate StopsAfter(q: Query, rows: seq<ApiRow>, page: nat) {
    && page > 0 && page * PAGE_SIZE < |rows| && Overflows(q, rows[..page * PAGE_SIZE])
    && !Touches(q, rows, (page - 1) * PAGE_SIZE, page * PAGE_SIZE, Listed(q, rows[..page * PAGE_SIZE]))
  }

  /** No row of a listed RRset comes after a page that ends the reading. */
  ghost predicate NoRowAfterStop(q: Query, rows: seq<ApiRow>) {
    forall page: nat :: StopsAfter(q, rows, page) ==> !Touches(q, rows, page * PAGE_SIZE, |rows|, Listed(q, rows))
  }

  /** Rows of one owner name are contiguous and at most one more than a page. */
  predicate ShortRuns(q: Query, rows: seq<ApiRow>) {
    forall i, j :: 0 <= i <= j < |rows| && q.DisplayName(rows[i]) == q.DisplayName(rows[j]) ==>
      j - i + 1 <= PAGE_SIZE + 1 && forall k :: i <= k <= j ==> q.DisplayName(rows[k]) == q.DisplayName(rows[i])
  }

  // ---------------------------------------------------------------- lemmas

  lemma {:induction false} FirstKeysPrefix(q: Query, rows: seq<ApiRow>, n: nat)
    requires n <= |rows|
    ensures FirstKeys(q, rows[..n]) <= FirstKeys(q, rows)
    decreases |rows|
  {
    hide Query.Wanted, Query.KeyOf;
    if n < |rows| {
      FirstKeysPrefix(q, rows[..|rows| - 1], n);
      assert rows[..|rows| - 1][..n] == rows[..n];
    } else {
      assert rows[..n] == rows;
    }
  }

  /** Rows that bring no new key leave the keys as they are. */
  lemma {:induction false} FirstKeysUnchanged(q: Query, rows: seq<ApiRow>, n: nat)
    requires n <= |rows|
    requires forall j :: n <= j < |rows| && q.Wanted(rows[j]) ==> q.KeyOf(rows[j]) in FirstKeys(q, rows[..n])
    ensures FirstKeys(q, rows) == FirstKeys(q, rows[..n])
    decreases |rows|
  {
    hide Query.Wanted, Query.KeyOf;
    if n < |rows| {
      var init := rows[..|rows| - 1];
      assert init[..n] == rows[..n];
      FirstKeysUnchanged(q, init, n);
    } else {
      assert rows[..n] == rows;
    }
  }

  lemma {:induction false} RowsOfUnchanged(q: Query, rows: seq<ApiRow>, n: nat, key: RRsetKey)
    requires n <= |rows|
    requires forall j :: n <= j < |rows| && q.Wanted(rows[j]) ==> q.KeyOf(rows[j]) != key
    ensures RowsOf(q, rows, key) == RowsOf(q, rows[..n], key)
    decreases |rows|
  {
    hide Query.Wanted, Query.KeyOf;
    if n < |rows| {
      var init := rows[..|rows| - 1];
      assert init[..n] == rows[..n];
      RowsOfUnchanged(q, init, n, key);
    } else {
      assert rows[..n] == rows;
    }
  }

  lemma {:induction false} RowsOfGrows(q: Query, rows: seq<ApiRow>, n: nat, key: RRsetKey)
    requires n <= |rows|
    ensures |RowsOf(q, rows[..n], key)| <= |RowsOf(q, rows, key)|
    ensures (exists j :: n <= j < |rows| && q.Wanted(rows[j]) && q.KeyOf(rows[j]) == key) ==>
      |RowsOf(q, rows[..n], key)| < |RowsOf(q, rows, key)|
    decreases |rows|
  {
    hide Query.Wanted, Query.KeyOf;
    if n < |rows| {
      var init := rows[..|rows| - 1];
      assert init[..n] == rows[..n];
      assert forall j :: 0 <= j < |init| ==> init[j] == rows[j];
      RowsOfGrows(q, init, n, key);
    } else {
      assert rows[..n] == rows;
    }
  }

  /** Stopping early changes neither the keys listed nor whether the list is truncated. */
  lemma {:induction false} EarlyStopKeepsKeys(q: Query, rows: seq<ApiRow>, page: nat)
    requires page > 0
    ensures var n := ScannedFrom(q, rows, page);
      && Listed(q, rows[..n]) == Listed(q, rows)
      && (Overflows(q, rows[..n]) <==> Overflows(q, rows))
      && (n < |rows| ==> Overflows(q, rows[..n]))
    decreases |rows| - PageEnd(rows, page)
  {
    var end := PageEnd(rows, page);
    if end == |rows| {
      assert rows[..end] == rows;
    } else if Overflows(q, rows[..end]) && !Touches(q, rows, PageEnd(rows, page - 1), end, Listed(q, rows[..end])) {
      FirstKeysPrefix(q, rows, end);
    } else {
      EarlyStopKeepsKeys(q, rows, page + 1);
    }
  }

  lemma FirstAppearance(q: Query, rows: seq<ApiRow>, end: nat, key: RRsetKey) returns (i: nat)
    requires end <= |rows| && key in Listed(q, rows[..end])
    ensures i < end && q.Wanted(rows[i]) && q.KeyOf(rows[i]) == key
  {
    assert key in FirstKeys(q, rows[..end]);
    i :| i < end && q.Wanted(rows[..end][i]) && q.KeyOf(rows[..end][i]) == key;
  }

  lemma FarRowsDiffer(q: Query, rows: seq<ApiRow>, i: nat, j: nat)
    requires ShortRuns(q, rows) && j < |rows| && j - i + 1 > PAGE_SIZE + 1
    ensures q.KeyOf(rows[i]) != q.KeyOf(rows[j])
  {
    hide RelativeName;
  }

  /** Reading ends at the end, or after the first page that stops it. */
  lemma {:induction false} StopPage(q: Query, rows: seq<ApiRow>, page: nat) returns (stop: nat)
    requires page > 0
    ensures stop >= page && ScannedFrom(q, rows, page) == PageEnd(rows, stop)
    ensures ScannedFrom(q, rows, page) < |rows| ==> StopsAfter(q, rows, stop)
    ensures forall p :: page <= p < stop ==> !StopsAfter(q, rows, p)
    decreases |rows| - PageEnd(rows, page)
  {
    hide FirstKeys, Listed, Overflows, Touches;
    var end := PageEnd(rows, page);
    if end == |rows| || StopsAfter(q, rows, page) {
      stop := page;
    } else {
      stop := StopPage(q, rows, page + 1);
    }
  }

  /** Every listed RRset has all of its rows exactly when none comes after a page that ends the reading. */
  lemma CompleteIffNoRowAfterStop(q: Query, rows: seq<ApiRow>)
    ensures (forall k :: k in Listed(q, rows) ==> RowsOf(q, rows[..Scanned(q, rows)], k) == RowsOf(q, rows, k)) <==>
      NoRowAfterStop(q, rows)
  {
    hide FirstKeys, RowsOf, Query.Wanted, Query.KeyOf;
    var n, listed := Scanned(q, rows), Listed(q, rows);
    var stop := StopPage(q, rows, 1);
    if NoRowAfterStop(q, rows) {
      forall k | k in listed ensures RowsOf(q, rows[..n], k) == RowsOf(q, rows, k) {
        if n < |rows| {
          assert !Touches(q, rows, n, |rows|, listed);
        }
        RowsOfUnchanged(q, rows, n, k);
      }
    }
    forall page: nat | StopsAfter(q, rows, page) && Touches(q, rows, page * PAGE_SIZE, |rows|, listed)
      ensures exists k :: k in listed && RowsOf(q, rows[..n], k) != RowsOf(q, rows, k)
    {
      var j :| page * PAGE_SIZE <= j < |rows| && q.Wanted(rows[j]) && q.KeyOf(rows[j]) in listed;
      assert stop <= page;
      RowsOfGrows(q, rows, n, q.KeyOf(rows[j]));
    }
  }

  /** Contiguous names of at most 101 rows have no such row. */
  lemma ShortRunsAreComplete(q: Query, rows: seq<ApiRow>)
    requires forall i, j :: 0 <= i <= j < |rows| && q.DisplayName(rows[i]) == q.DisplayName(rows[j]) ==>
      j - i < 101 && forall k :: i <= k <= j ==> q.DisplayName(rows[k]) == q.DisplayName(rows[i])
    ensures NoRowAfterStop(q, rows)
  {
    assert ShortRuns(q, rows);
    hide ShortRuns, FirstKeys, RelativeName, Query.Wanted;
    forall page: nat | StopsAfter(q, rows, page) ensures !Touches(q, rows, page * PAGE_SIZE, |rows|, Listed(q, rows)) {
      var end := page * PAGE_SIZE;
      FirstKeysPrefix(q, rows, end);
      assert Listed(q, rows) == Listed(q, rows[..end]);
      forall k, j | k in Listed(q, rows) && end <= j < |rows| ensures q.KeyOf(rows[j]) != k {
        var i := FirstAppearance(q, rows, end, k);
        assert i < end - PAGE_SIZE;
        FarRowsDiffer(q, rows, i, j);
      }
    }
  }

  /** The listing theorem: keys and truncation are right for every page sequence; every listed RRset has
      all of its rows exactly when none comes after a page that ends the reading, as with short runs. */
  lemma ListingIsComplete(q: Query, rows: seq<ApiRow>)
    ensures Listed(q, rows[..Scanned(q, rows)]) == Listed(q, rows)
    ensures Overflows(q, rows[..Scanned(q, rows)]) <==> Overflows(q, rows)
    ensures (forall k :: k in Listed(q, rows) ==> RowsOf(q, rows[..Scanned(q, rows)], k) == RowsOf(q, rows, k)) <==>
      NoRowAfterStop(q, rows)
    ensures ShortRuns(q, rows) ==> NoRowAfterStop(q, rows)
  {
    hide Listed, Overflows, RowsOf, NoRowAfterStop;
    EarlyStopKeepsKeys(q, rows, 1);
    CompleteIffNoRowAfterStop(q, rows);
    if ShortRuns(q, rows) {
      ShortRunsAreComplete(q, rows);
    }
  }

  /** 99 rows of another name, then 102 rows of `name`: an A row, a page of TXT rows, an A row. */
  function LongRun(other: string, name: string): seq<ApiRow> {
    seq(201, i requires 0 <= i < 201 =>
      if i < 99 then ApiRow(i, other, "DS", 300, Ok("x"))
      else ApiRow(i, name, if i == 99 || i == 200 then "A" else "TXT", 300, Ok("x")))
  }

  /** The bound is tight: a contiguous run of 102 rows loses the last row of its A RRset. */
  lemma RunOf102LosesARow(zoneName: string, other: string, name: string)
    requires RelativeName(zoneName, other) != RelativeName(zoneName, name)
    ensures var q := Query(zoneName, None, _ => true, 1);
      var rows := LongRun(other, name);
      var key := RRsetKey(RelativeName(zoneName, name), "A");
      && (forall j :: 0 <= j < |rows| ==> (q.DisplayName(rows[j]) == key.name <==> 99 <= j <= 200))
      && key in Listed(q, rows)
      && RowsOf(q, rows[..Scanned(q, rows)], key) != RowsOf(q, rows, key)
  {
    var q := Query(zoneName, None, _ => true, 1);
    var rows := LongRun(other, name);
    var a := RRsetKey(RelativeName(zoneName, name), "A");
    KeysOfLongRun(q, rows, other, name);
    EarlyStopKeepsKeys(q, rows, 1);
    assert ScannedFrom(q, rows, 2) == 200;
    assert q.Wanted(rows[200]) && q.KeyOf(rows[200]) == a;
    RowsOfGrows(q, rows, 200, a);
  }

  lemma KeysOfLongRun(q: Query, rows: seq<ApiRow>, other: string, name: string)
    requires q.requestedType == None && q.limit == 1 && (forall s :: q.matches(s)) && rows == LongRun(other, name)
    ensures var a := RRsetKey(RelativeName(q.zoneName, name), "A");
      && FirstKeys(q, rows[..100]) == [a]
      && Listed(q, rows[..200]) == [a] && Overflows(q, rows[..200])
      && !Touches(q, rows, 100, 200, [a])
  {
    hide RelativeName, FirstKeys;
    var a, txt := RRsetKey(RelativeName(q.zoneName, name), "A"), RRsetKey(RelativeName(q.zoneName, name), "TXT");
    assert a.rtype != txt.rtype;
    assert forall j :: 0 <= j < 99 ==> !q.Wanted(rows[j]);
    assert q.Wanted(rows[99]) && q.KeyOf(rows[99]) == a;
    assert forall j :: 100 <= j < 200 ==> q.Wanted(rows[j]) && q.KeyOf(rows[j]) == txt;
    hide LongRun, Query.Wanted, Query.KeyOf;
    KeysOfTwoRuns(q, rows, a, txt);
  }

  /** Rows nobody wants, then one row of `a`, then a hundred of `b`. */
  lemma KeysOfTwoRuns(q: Query, rows: seq<ApiRow>, a: RRsetKey, b: RRsetKey)
    requires |rows| >= 200 && a != b
    requires forall j :: 0 <= j < 99 ==> !q.Wanted(rows[j])
    requires q.Wanted(rows[99]) && q.KeyOf(rows[99]) == a
    requires forall j :: 100 <= j < 200 ==> q.Wanted(rows[j]) && q.KeyOf(rows[j]) == b
    ensures FirstKeys(q, rows[..100]) == [a] && FirstKeys(q, rows[..200]) == [a, b]
  {
    hide FirstKeys, RowsOf, Query.Wanted, Query.KeyOf;
    KeysOfFirstRun(q, rows, a);
    assert rows[..101] == rows[..100] + [rows[100]];
    Snoc(q, rows[..100], rows[100], a);
    assert rows[..200][..101] == rows[..101];
    FirstKeysUnchanged(q, rows[..200], 101) by {
      assert forall j :: 101 <= j < 200 ==> rows[..200][j] == rows[j];
    }
  }

  lemma KeysOfFirstRun(q: Query, rows: seq<ApiRow>, a: RRsetKey)
    requires |rows| >= 100 && (forall j :: 0 <= j < 99 ==> !q.Wanted(rows[j]))
    requires q.Wanted(rows[99]) && q.KeyOf(rows[99]) == a
    ensures FirstKeys(q, rows[..100]) == [a]
  {
    hide FirstKeys, RowsOf, Query.Wanted, Query.KeyOf;
    var head := rows[..99];
    FirstKeysUnchanged(q, head, 0);
    NoKeys(q);
    assert head[..0] == [];
    assert rows[..100] == head + [rows[99]];
    Snoc(q, head, rows[99], a);
  }

  // ---------------------------------------------------------------- the method

  /** The inner loop of `list_records`: group the rows of one page. */
  method ReadPage(q: Query, rows: seq<ApiRow>, start: nat, end: nat, order0: seq<RRsetKey>,
      grouped0: map<RRsetKey, seq<ApiRow>>, truncated0: bool)
    returns (order: seq<RRsetKey>, grouped: map<RRsetKey, seq<ApiRow>>, truncated: bool, appendedExisting: bool)
    requires start <= end <= |rows| && Grouping(q, rows[..start], order0, grouped0, truncated0)
    ensures Grouping(q, rows[..end], order, grouped, truncated)
    ensures appendedExisting <==> Touches(q, rows, start, end, order)
  {
    hide FirstKeys, RowsOf, RelativeName, Grouping, Listed, Overflows, Query.Wanted, Query.KeyOf;
    order, grouped, truncated, appendedExisting := order0, grouped0, truncated0, false;
    for n := start to end
      invariant Grouping(q, rows[..n], order, grouped, truncated)
      invariant appendedExisting <==> Touches(q, rows, start, n, order)
    {
      var row := rows[n];
      var key := q.KeyOf(row);
      assert rows[..n + 1] == rows[..n] + [row];
      GroupingFacts(q, rows[..n], order, grouped, truncated);
      if !q.Wanted(row) {
        GroupSkipped(q, rows[..n], row, order, grouped, truncated);
      } else if key in grouped {
        GroupKnown(q, rows[..n], row, order, grouped, truncated);
        grouped := grouped[key := grouped[key] + [row]];
        appendedExisting := true;
      } else {
        GroupNew(q, rows[..n], row, order, grouped, truncated);
        if |grouped| >= q.Limit() {
          truncated := true;
        } else {
          order, grouped := order + [key], grouped[key := [row]];
          appendedExisting := true;
        }
      }
    }
  }

  /** The loop of `list_records` over pages: `rows` is the zone in provider order, served in pages of 100,
      with or without a page count. The request for page `failing` fails: the loop fails if that page has rows
      it reads, and else at most on the first page after them. */
  method ListPages(q: Query, rows: seq<ApiRow>, reportsTotal: bool, failing: Option<nat>)
    returns (order: seq<RRsetKey>, grouped: map<RRsetKey, seq<ApiRow>>, truncated: bool, failed: bool)
    ensures failing.Some? && failing.value > 0 && (failing.value - 1) * PAGE_SIZE < Scanned(q, rows) ==> failed
    ensures failed ==> failing.Some? && failing.value > 0 && (failing.value - 1) * PAGE_SIZE <= Scanned(q, rows)
    ensures !failed ==> order == Listed(q, rows) && (truncated <==> Overflows(q, rows))
    ensures !failed ==> grouped.Keys == Elements(order)
    ensures !failed ==> forall k :: k in order ==> grouped[k] == RowsOf(q, rows[..Scanned(q, rows)], k)
  {
    hide FirstKeys, RowsOf, RelativeName, Grouping, ShortRuns, Listed, Overflows, Touches, NoRowAfterStop;
    order, grouped, truncated, failed := [], map[], false, false;
    GroupNone(q);
    assert rows[..0] == [];
    var page := 1;
    while true
      invariant page > 0 && (page - 1) * PAGE_SIZE <= |rows|
      invariant Grouping(q, rows[..(page - 1) * PAGE_SIZE], order, grouped, truncated)
      invariant ScannedFrom(q, rows, page) == Scanned(q, rows)
      invariant failing.Some? && failing.value > 0 ==> failing.value >= page
      decreases |rows| - (page - 1) * PAGE_SIZE
    {
      if failing == Some(page) {
        failed := true;
        return;
      }
      var start, end := (page - 1) * PAGE_SIZE, PageEnd(rows, page);
      var appendedExisting: bool;
      order, grouped, truncated, appendedExisting := ReadPage(q, rows, start, end, order, grouped, truncated);
      GroupingFacts(q, rows[..end], order, grouped, truncated);
      assert PageEnd(rows, page - 1) == start;
      var totalPages := if reportsTotal then (|rows| + PAGE_SIZE - 1) / PAGE_SIZE else 0;
      if truncated && !appendedExisting {
        break;
      }
      if start == end || (totalPages != 0 && page >= totalPages) || (totalPages == 0 && end - start < PAGE_SIZE) {
        break;
      }
      page := page + 1;
    }
    ListingIsComplete(q, rows);
  }

  /** A listed RRset: its smallest TTL, and its values in the order of its rows. */
  datatype Described = Described(key: RRsetKey, ttl: int, values: seq<string>)

  predicate Describes(info: Described, key: RRsetKey, rows: seq<ApiRow>) {
    && info.key == key && |info.values| == |rows|
    && (forall i :: 0 <= i < |rows| ==> rows[i].value == Ok(info.values[i]) && info.ttl <= rows[i].ttl)
    && exists i :: 0 <= i < |rows| && info.ttl == rows[i].ttl
  }

  /** `_rows_to_info`: it raises on a row whose value cannot be read. */
  method RowsToInfo(key: RRsetKey, rows: seq<ApiRow>) returns (r: Result<Described>)
    requires rows != []
    ensures r.Ok? ==> Describes(r.value, key, rows)
    ensures r.Ok? ==>
      && |r.value.values| == |rows|
      && (forall i :: 0 <= i < |rows| ==> rows[i].value == Ok(r.value.values[i]) && r.value.ttl <= rows[i].ttl)
      && exists i :: 0 <= i < |rows| && r.value.ttl == rows[i].ttl
    ensures r.Err? <==> exists i :: 0 <= i < |rows| && rows[i].value.Err?
  {
    var ttl, values := rows[0].ttl, [];
    for i := 0 to |rows|
      invariant |values| == i && (forall k :: 0 <= k < i ==> rows[k].value == Ok(values[k]) && ttl <= rows[k].ttl)
      invariant exists k :: 0 <= k < |rows| && ttl == rows[k].ttl
    {
      if rows[i].value.Err? {
        return Err(rows[i].value.message);
      }
      if rows[i].ttl < ttl {
        ttl := rows[i].ttl;
      }
      values := values + [rows[i].value.value];
    }
    r := Ok(Described(key, ttl, values));
  }

  /** Some row read of a listed RRset has no readable value. */
  ghost predicate UnreadableListed(q: Query, rows: seq<ApiRow>) {
    exists k, row :: k in Listed(q, rows) && row in RowsOf(q, rows[..Scanned(q, rows)], k) && row.value.Err?
  }

  /** What the keys are: those of the rows of a supported type, of the requested one if any, whose relative name
      matches. */
  lemma KeysAreWanted(q: Query, rows: seq<ApiRow>, key: RRsetKey)
    ensures key in FirstKeys(q, rows) <==> exists row ::
      && row in rows && row.rtype in {"A", "AAAA", "CNAME", "TXT", "MX", "NS", "SRV", "CAA", "PTR", "SOA"}
      && (q.requestedType == None || q.requestedType == Some(row.rtype))
      && q.matches(RelativeName(q.zoneName, row.name))
      && key == RRsetKey(RelativeName(q.zoneName, row.name), row.rtype)
  {
    hide RelativeName;
    if j :| 0 <= j < |rows| && q.Wanted(rows[j]) && q.KeyOf(rows[j]) == key {
      assert rows[j] in rows;
    }
    hide FirstKeys;
  }

  /** And its rows are those of them with that name and type. */
  lemma {:induction false} RowsAreWanted(q: Query, rows: seq<ApiRow>, key: RRsetKey, row: ApiRow)
    ensures row in RowsOf(q, rows, key) <==>
      && row in rows && row.rtype in {"A", "AAAA", "CNAME", "TXT", "MX", "NS", "SRV", "CAA", "PTR", "SOA"}
      && (q.requestedType == None || q.requestedType == Some(row.rtype))
      && q.matches(RelativeName(q.zoneName, row.name))
      && key == RRsetKey(RelativeName(q.zoneName, row.name), row.rtype)
  {
    hide RelativeName;
    if rows != [] {
      RowsAreWanted(q, rows[..|rows| - 1], key, row);
    }
  }

  /** `list_records`: the first `limit` distinct keys in order of appearance, at least one, each with the rows
      read of it, which are all of its rows exactly when none comes after a page that ends the reading. */
  method ListRecords(q: Query, rows: seq<ApiRow>, reportsTotal: bool, failing: Option<nat>)
    returns (r: Result<(seq<Described>, bool)>)
    ensures r.Ok? ==> var keys, limit := FirstKeys(q, rows), if q.limit < 1 then 1 else q.limit;
      && |r.value.0| == (if |keys| < limit then |keys| else limit) && (r.value.1 <==> |keys| > limit)
      && (forall i :: 0 <= i < |r.value.0| ==>
            Describes(r.value.0[i], keys[i], RowsOf(q, rows[..Scanned(q, rows)], keys[i])))
      && (NoRowAfterStop(q, rows) ==> forall i :: 0 <= i < |r.value.0| ==>
            Describes(r.value.0[i], keys[i], RowsOf(q, rows, keys[i])))
    ensures r.Ok? ==> !UnreadableListed(q, rows)
    ensures r.Err? ==>
      UnreadableListed(q, rows)
      || (failing.Some? && failing.value > 0 && (failing.value - 1) * PAGE_SIZE <= Scanned(q, rows))
    ensures failing.Some? && failing.value > 0 && (failing.value - 1) * PAGE_SIZE < Scanned(q, rows) ==> r.Err?
  {
    hide FirstKeys, RowsOf, Overflows, Describes, NoRowAfterStop, UnreadableListed, Scanned, Listed;
    var order, grouped, truncated, failed := ListPages(q, rows, reportsTotal, failing);
    if failed {
      return Err("Cloudflare API request failed");
    }
    var infos: seq<Described> := [];
    for i := 0 to |order|
      invariant |infos| == i
      invariant forall k :: 0 <= k < i ==>
        Describes(infos[k], order[k], RowsOf(q, rows[..Scanned(q, rows)], order[k]))
    {
      assert order[i] in order;
      ListedHasRows(q, rows, order[i]);
      var info := RowsToInfo(order[i], grouped[order[i]]);
      if info.Err? {
        UnreadableRow(q, rows, order[i]);
        return Err(info.message);
      }
      infos := infos + [info.value];
    }
    AllReadable(q, rows, infos);
    FirstDescribed(q, rows, infos);
    r := Ok((infos, truncated));
  }

  lemma FirstDescribed(q: Query, rows: seq<ApiRow>, infos: seq<Described>)
    requires |infos| == |Listed(q, rows)|
    requires forall i :: 0 <= i < |infos| ==>
      Describes(infos[i], Listed(q, rows)[i], RowsOf(q, rows[..Scanned(q, rows)], Listed(q, rows)[i]))
    ensures var keys, limit := FirstKeys(q, rows), if q.limit < 1 then 1 else q.limit;
      && |infos| == (if |keys| < limit then |keys| else limit) && (Overflows(q, rows) <==> |keys| > limit)
      && (forall i :: 0 <= i < |infos| ==> Describes(infos[i], keys[i], RowsOf(q, rows[..Scanned(q, rows)], keys[i])))
      && (NoRowAfterStop(q, rows) ==> forall i :: 0 <= i < |infos| ==>
            Describes(infos[i], keys[i], RowsOf(q, rows, keys[i])))
  {
    hide FirstKeys, RowsOf, Overflows, Describes, NoRowAfterStop, ShortRuns, Scanned, Listed;
    ListedAre(q, rows);
    ListingIsComplete(q, rows);
    assert forall i :: 0 <= i < |infos| ==> Listed(q, rows)[i] in Listed(q, rows);
  }

  lemma ListedAre(q: Query, rows: seq<ApiRow>)
    ensures var keys, limit := FirstKeys(q, rows), if q.limit < 1 then 1 else q.limit;
      && |Listed(q, rows)| == (if |keys| < limit then |keys| else limit) && (Overflows(q, rows) <==> |keys| > limit)
      && forall i :: 0 <= i < |Listed(q, rows)| ==> Listed(q, rows)[i] == keys[i]
  {
    hide FirstKeys;
  }

  lemma ListedHasRows(q: Query, rows: seq<ApiRow>, key: RRsetKey)
    requires key in Listed(q, rows)
    ensures RowsOf(q, rows[..Scanned(q, rows)], key) != []
  {
    hide RelativeName;
    EarlyStopKeepsKeys(q, rows, 1);
    var n := Scanned(q, rows);
    var i := FirstAppearance(q, rows, n, key);
    assert rows[..n][i] == rows[i] && rows[..n][..0] == [];
    RowsOfGrows(q, rows[..n], 0, key);
  }

  lemma UnreadableRow(q: Query, rows: seq<ApiRow>, key: RRsetKey)
    requires key in Listed(q, rows)
    ensures var read := RowsOf(q, rows[..Scanned(q, rows)], key);
      (exists i :: 0 <= i < |read| && read[i].value.Err?) ==> UnreadableListed(q, rows)
  {
    hide RowsOf, Listed, Scanned;
  }

  lemma AllReadable(q: Query, rows: seq<ApiRow>, infos: seq<Described>)
    requires |infos| == |Listed(q, rows)|
    requires forall i :: 0 <= i < |infos| ==>
      Describes(infos[i], Listed(q, rows)[i], RowsOf(q, rows[..Scanned(q, rows)], Listed(q, rows)[i]))
    ensures !UnreadableListed(q, rows)
  {
    hide RowsOf, Listed, Scanned;
  }

  /** The loop state after the rows `seen`. */
  ghost predicate Grouping(q: Query, seen: seq<ApiRow>, order: seq<RRsetKey>, grouped: map<RRsetKey, seq<ApiRow>>,
      truncated: bool) {
    && order == Listed(q, seen)
    && (truncated <==> Overflows(q, seen))
    && grouped.Keys == Elements(order) && |grouped| == |order|
    && forall k :: k in order ==> grouped[k] == RowsOf(q, seen, k)
  }

  lemma NoKeys(q: Query)
    ensures FirstKeys(q, []) == []
  {
  }

  lemma GroupNone(q: Query)
    ensures Grouping(q, [], [], map[], false)
  {
  }

  lemma Snoc(q: Query, seen: seq<ApiRow>, row: ApiRow, key: RRsetKey)
    ensures FirstKeys(q, seen + [row]) ==
      if q.Wanted(row) &&
        q.KeyOf(row) !in FirstKeys(q, seen) then FirstKeys(q, seen) + [q.KeyOf(row)] else FirstKeys(q, seen)
    ensures RowsOf(q, seen + [row], key) ==
      if q.Wanted(row) && q.KeyOf(row) == key then RowsOf(q, seen, key) + [row] else RowsOf(q, seen, key)
  {
    assert (seen + [row])[..|seen|] == seen;
  }

  lemma NewKeyHasNoRows(q: Query, seen: seq<ApiRow>, key: RRsetKey)
    requires key !in FirstKeys(q, seen)
    ensures RowsOf(q, seen, key) == []
  {
    RowsOfUnchanged(q, seen, 0, key) by {
      assert forall j :: 0 <= j < |seen| && q.Wanted(seen[j]) ==> q.KeyOf(seen[j]) in FirstKeys(q, seen);
    }
  }

  lemma GroupSkipped(q: Query, seen: seq<ApiRow>, row: ApiRow, order: seq<RRsetKey>,
      grouped: map<RRsetKey, seq<ApiRow>>, truncated: bool)
    requires Grouping(q, seen, order, grouped, truncated) && !q.Wanted(row)
    ensures Grouping(q, seen + [row], order, grouped, truncated)
  {
    hide FirstKeys, RowsOf, Query.KeyOf, Query.Wanted;
    Snoc(q, seen, row, q.KeyOf(row));
    forall k | k in order ensures RowsOf(q, seen + [row], k) == RowsOf(q, seen, k) {
      Snoc(q, seen, row, k);
    }
  }

  lemma GroupKnown(q: Query, seen: seq<ApiRow>, row: ApiRow, order: seq<RRsetKey>, grouped: map<RRsetKey, seq<ApiRow>>,
      truncated: bool)
    requires Grouping(q, seen, order, grouped, truncated)
    requires q.Wanted(row) && q.KeyOf(row) in grouped
    ensures Grouping(q, seen + [row], order, grouped[q.KeyOf(row) := grouped[q.KeyOf(row)] + [row]], truncated)
  {
    hide FirstKeys, RowsOf, Query.KeyOf, Query.Wanted;
    var key := q.KeyOf(row);
    Snoc(q, seen, row, key);
    assert key in order && key in FirstKeys(q, seen);
    var grown := grouped[key := grouped[key] + [row]];
    forall k | k in order ensures grown[k] == RowsOf(q, seen + [row], k) {
      Snoc(q, seen, row, k);
    }
    assert grown.Keys == grouped.Keys;
  }

  lemma GroupNew(q: Query, seen: seq<ApiRow>, row: ApiRow, order: seq<RRsetKey>, grouped: map<RRsetKey, seq<ApiRow>>,
      truncated: bool)
    requires Grouping(q, seen, order, grouped, truncated)
    requires q.Wanted(row) && q.KeyOf(row) !in grouped
    ensures if |grouped| >= q.Limit() then Grouping(q, seen + [row], order, grouped, true)
      else Grouping(q, seen + [row], order + [q.KeyOf(row)], grouped[q.KeyOf(row) := [row]], truncated)
  {
    hide FirstKeys, RowsOf, Query.KeyOf, Query.Wanted;
    var key := q.KeyOf(row);
    Snoc(q, seen, row, key);
    forall k | k in order ensures k != key && RowsOf(q, seen + [row], k) == RowsOf(q, seen, k) {
      Snoc(q, seen, row, k);
    }
    if |grouped| < q.Limit() {
      NewKeyHasNoRows(q, seen, key);
    } else {
      TakeSnoc(FirstKeys(q, seen), key, q.Limit());
    }
  }

  lemma TakeSnoc<T>(s: seq<T>, x: T, n: nat)
    requires |s| >= n
    ensures Take(s + [x], n) == Take(s, n)
  {
  }

  lemma GroupingFacts(q: Query, seen: seq<ApiRow>, order: seq<RRsetKey>, grouped: map<RRsetKey, seq<ApiRow>>,
      truncated: bool)
    requires Grouping(q, seen, order, grouped, truncated)
    ensures grouped.Keys == Elements(order) && order == Listed(q, seen) && (truncated <==> Overflows(q, seen))
    ensures forall k :: k in order ==> grouped[k] == RowsOf(q, seen, k)
  {
  }
}
