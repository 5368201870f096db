/** Bounded record listing over a streamed zone (src/plugins/bind.py, lines 27-33 and 117-204;
    src/plugins/azure.py, lines 140-170), and the slots that bound concurrent transfers. */
module ZoneTransfer {
  import opened Basics

  /** An RRset on the wire; `shown` is the record the lister returns for it. */
  datatype WireRRset = WireRRset(soa: bool, name: string, rtype: string, shown: string)

  /** The name pattern, browsable types and requested type, in one test. */
  type Query = WireRRset -> bool

  const SCAN_CAP := 5000
  const MAX_CONCURRENT := 2

  /** The zone without the SOA that repeats at the end of a transfer. */
  function Deduplicated(wire: seq<WireRRset>): seq<WireRRset> {
    DropSoas(wire, false)
  }

  function DropSoas(wire: seq<WireRRset>, seenSoa: bool): (rows: seq<WireRRset>)
    ensures |rows| <= |wire|
  {
    if wire == [] then []
    else if wire[0].soa && seenSoa then DropSoas(wire[1..], true)
    else [wire[0]] + DropSoas(wire[1..], seenSoa || wire[0].soa)
  }

  function Matching(q: Query, rows: seq<WireRRset>): (found: seq<string>)
    ensures |found| <= |rows|
  {
    if rows == [] then []
    else (if q(rows[0]) then [rows[0].shown] else []) + Matching(q, rows[1..])
  }

  datatype Listing = Listing(records: seq<string>, truncated: bool)

  /** The first `limit` matches, and whether there are more. */
  function FirstMatches(q: Query, rows: seq<WireRRset>, limit: int): Listing {
    Listing(Take(Matching(q, rows), limit), |Matching(q, rows)| > if limit > 0 then limit else 0)
  }

  /** The same among the first 5000 RRsets of the zone; a longer zone counts as truncated. */
  function CappedListing(q: Query, wire: seq<WireRRset>, limit: int): Listing {
    var rows := Deduplicated(wire);
    if |rows| <= SCAN_CAP then FirstMatches(q, rows, limit)
    else Listing(FirstMatches(q, rows[..SCAN_CAP], limit).records, true)
  }

  /** A listing that is not truncated shows every match of the whole zone. */
  lemma CompleteUnlessTruncated(q: Query, wire: seq<WireRRset>, limit: int)
    ensures !CappedListing(q, wire, limit).truncated ==>
      CappedListing(q, wire, limit).records == Matching(q, Deduplicated(wire))
  {
  }

  /** In numbers: as many of the matches among the first 5000 RRsets as wanted, and whether there was more. */
  lemma CappedExactly(q: Query, wire: seq<WireRRset>, limit: int)
    ensures var rows, wanted := Deduplicated(wire), if limit < 0 then 0 else limit;
      var all, listing := Matching(q, if |rows| <= 5000 then rows else rows[..5000]), CappedListing(q, wire, limit);
      && listing.records <= all && |listing.records| == (if |all| <= wanted then |all| else wanted)
      && (listing.truncated <==> |rows| > 5000 || |all| > wanted)
  {
    hide Matching, DropSoas;
  }

  ghost predicate Ascending(at: seq<nat>) {
    forall i, j :: 0 <= i < j < |at| ==> at[i] < at[j]
  }

  /** The matches are what the wanted RRsets show, in their order: all of them, and nothing else. */
  lemma {:induction false} MatchesInOrder(q: Query, rows: seq<WireRRset>) returns (at: seq<nat>)
    ensures Ascending(at) && |at| == |Matching(q, rows)|
    ensures forall i :: 0 <= i < |at| ==> at[i] < |rows| && q(rows[at[i]]) && Matching(q, rows)[i] == rows[at[i]].shown
    ensures forall k :: 0 <= k < |rows| && q(rows[k]) ==> k in at
  {
    at := [];
    if rows != [] {
      var before, last := rows[..|rows| - 1], rows[|rows| - 1];
      assert rows == before + [last];
      at := MatchesInOrder(q, before);
      MatchingSnoc(q, before, last);
      if q(last) {
        at := at + [|before|];
        assert at[|at| - 1] == |before|;
      }
    }
  }

  /** Dropping repeated SOAs keeps every other RRset, in order, and the first SOA. */
  lemma {:induction false} OnlySoasDropped(q: Query, wire: seq<WireRRset>, seenSoa: bool)
    requires forall r: WireRRset :: q(r) ==> !r.soa
    ensures Matching(q, DropSoas(wire, seenSoa)) == Matching(q, wire)
  {
    if wire != [] {
      OnlySoasDropped(q, wire[1..], seenSoa || wire[0].soa);
      if !(wire[0].soa && seenSoa) {
        var rest := DropSoas(wire[1..], seenSoa || wire[0].soa);
        assert ([wire[0]] + rest)[1..] == rest;
      }
    }
  }

  /** The first SOA RRset is kept. */
  lemma {:induction false} FirstSoaKept(wire: seq<WireRRset>, i: nat)
    requires i < |wire| && wire[i].soa && forall j :: 0 <= j < i ==> !wire[j].soa
    ensures i < |Deduplicated(wire)| && Deduplicated(wire)[i] == wire[i]
  {
    if i > 0 {
      FirstSoaKept(wire[1..], i - 1);
    }
  }

  lemma {:induction false} OneSoa(wire: seq<WireRRset>, seenSoa: bool, i: nat, j: nat)
    requires i < j < |DropSoas(wire, seenSoa)|
    ensures !(DropSoas(wire, seenSoa)[i].soa && DropSoas(wire, seenSoa)[j].soa)
    ensures seenSoa ==> !DropSoas(wire, seenSoa)[i].soa
    decreases |wire|
  {
    if wire[0].soa && seenSoa {
      OneSoa(wire[1..], true, i, j);
    } else if i > 0 {
      OneSoa(wire[1..], seenSoa || wire[0].soa, i - 1, j - 1);
    } else if wire[0].soa {
      NoSoa(wire[1..], j - 1);
    }
  }

  lemma {:induction false} NoSoa(wire: seq<WireRRset>, i: nat)
    requires i < |DropSoas(wire, true)|
    ensures !DropSoas(wire, true)[i].soa
    decreases |wire|
  {
    if wire[0].soa {
      NoSoa(wire[1..], i);
    } else if i > 0 {
      NoSoa(wire[1..], i - 1);
    }
  }

  lemma {:induction false} MatchingSnoc(q: Query, rows: seq<WireRRset>, row: WireRRset)
    ensures Matching(q, rows + [row]) == Matching(q, rows) + (if q(row) then [row.shown] else [])
  {
    if rows == [] {
      assert rows + [row] == [row] && [row][1..] == [];
    } else {
      assert (rows + [row])[1..] == rows[1..] + [row];
      MatchingSnoc(q, rows[1..], row);
    }
  }

  lemma {:induction false} MatchingPrefix(q: Query, rows: seq<WireRRset>, n: nat)
    requires n <= |rows|
    ensures Matching(q, rows[..n]) <= Matching(q, rows)
  {
    if n > 0 {
      assert rows[..n][1..] == rows[1..][..n - 1] && rows[..n][0] == rows[0];
      MatchingPrefix(q, rows[1..], n - 1);
    }
  }

  predicate HasSoa(rows: seq<WireRRset>) { exists r :: r in rows && r.soa }

  lemma {:induction false} DropSoasSnoc(rows: seq<WireRRset>, row: WireRRset, seenSoa: bool)
    ensures DropSoas(rows + [row], seenSoa) ==
      DropSoas(rows, seenSoa) + (if row.soa && (seenSoa || HasSoa(rows)) then [] else [row])
  {
    hide HasSoa;
    var kept := if row.soa && (seenSoa || HasSoa(rows)) then [] else [row];
    if rows == [] {
      assert rows + [row] == [row] && [row][1..] == [] && !HasSoa(rows) by {
        NoSoaYet();
      }
    } else {
      HasSoaHead(rows);
      var all, rest := rows + [row], rows[1..];
      assert all[0] == rows[0] && all[1..] == rest + [row];
      DropSoasSnoc(rest, row, seenSoa || rows[0].soa);
      if rows[0].soa && seenSoa {
        assert DropSoas(all, seenSoa) == DropSoas(rest + [row], true) == DropSoas(rows, seenSoa) + kept;
      } else {
        var more := DropSoas(rest, seenSoa || rows[0].soa);
        assert DropSoas(all, seenSoa) == [rows[0]] + (more + kept);
        assert DropSoas(rows, seenSoa) == [rows[0]] + more;
      }
    }
  }

  lemma NoSoaYet()
    ensures !HasSoa([])
  {
  }

  lemma HasSoaHead(rows: seq<WireRRset>)
    requires rows != []
    ensures HasSoa(rows) <==> rows[0].soa || HasSoa(rows[1..])
  {
    assert rows == [rows[0]] + rows[1..];
  }

  lemma {:induction false} DropSoasPrefix(wire: seq<WireRRset>, seenSoa: bool, n: nat)
    requires n <= |wire|
    ensures DropSoas(wire[..n], seenSoa) <= DropSoas(wire, seenSoa)
  {
    if n > 0 {
      assert wire[..n][1..] == wire[1..][..n - 1] && wire[..n][0] == wire[0];
      DropSoasPrefix(wire[1..], seenSoa || wire[0].soa, n - 1);
    }
  }

  /** `BindTsigDnsClient.list_records` with its generator: `broken` says that the transfer fails after the
      RRsets of `wire`. The failure is raised only when the listing needed to read that far. */
  method ListTransfer(q: Query, wire: seq<WireRRset>, broken: bool, limit: int) returns (r: Result<Listing>)
    ensures r.Err? <==> broken && !CappedListing(q, wire, limit).truncated
    ensures r.Ok? ==> r.value == CappedListing(q, wire, limit)
    ensures r.Ok? ==>
      var rows, wanted := Deduplicated(wire), if limit < 0 then 0 else limit;
      var all := Matching(q, if |rows| <= 5000 then rows else rows[..5000]);
      && r.value.records <= all && |r.value.records| == (if |all| <= wanted then |all| else wanted)
      && (r.value.truncated <==> |rows| > 5000 || |all| > wanted)
  {
    hide Matching, DropSoas, Take;
    CappedExactly(q, wire, limit);
    var records: seq<string>, scanned, seenSoa := [], 0, false;
    ghost var rows: seq<WireRRset> := [];
    NothingYet(q, wire);
    for i := 0 to |wire|
      invariant seenSoa <==> HasSoa(wire[..i])
      invariant rows == DropSoas(wire[..i], false) && scanned == |rows| <= SCAN_CAP
      invariant records == Matching(q, rows) && (limit > 0 ==> |records| <= limit) && (limit <= 0 ==> records == [])
    {
      assert wire[..i + 1] == wire[..i] + [wire[i]];
      DropSoasSnoc(wire[..i], wire[i], false);
      DropSoasPrefix(wire, false, i + 1);
      if wire[i].soa {
        if seenSoa {
          continue;
        }
        seenSoa := true;
      }
      scanned := scanned + 1;
      MatchingSnoc(q, rows, wire[i]);
      if scanned > SCAN_CAP {
        StopsAtCap(q, wire, rows, wire[i], limit);
        return Ok(Listing(records, true));
      }
      rows := rows + [wire[i]];
      if !q(wire[i]) {
        continue;
      }
      if |records| >= limit {
        StopsAtLimit(q, wire, rows, records, wire[i].shown, limit);
        return Ok(Listing(records, true));
      }
      records := records + [wire[i].shown];
    }
    assert wire[..|wire|] == wire;
    ReadsAll(q, wire, rows, limit);
    if broken {
      return Err("zone transfer failed");
    }
    r := Ok(Listing(records, false));
  }

  lemma NothingYet(q: Query, wire: seq<WireRRset>)
    ensures DropSoas(wire[..0], false) == [] && Matching(q, []) == []
  {
  }

  lemma StopsAtCap(q: Query, wire: seq<WireRRset>, rows: seq<WireRRset>, next: WireRRset, limit: int)
    requires rows + [next] <= Deduplicated(wire) && |rows| == SCAN_CAP
    requires (limit > 0 ==> |Matching(q, rows)| <= limit) && (limit <= 0 ==> Matching(q, rows) == [])
    ensures CappedListing(q, wire, limit) == Listing(Matching(q, rows), true)
  {
    hide Matching, DropSoas;
    assert Deduplicated(wire)[..SCAN_CAP] == rows;
  }

  lemma StopsAtLimit(q: Query, wire: seq<WireRRset>, rows: seq<WireRRset>, records: seq<string>, shown: string,
      limit: int)
    requires rows <= Deduplicated(wire) && |rows| <= SCAN_CAP
    requires Matching(q, rows) == records + [shown] && |records| >= limit
    requires (limit > 0 ==> |records| <= limit) && (limit <= 0 ==> records == [])
    ensures CappedListing(q, wire, limit) == Listing(records, true)
  {
    var all := Deduplicated(wire);
    var scanned := if |all| <= SCAN_CAP then all else all[..SCAN_CAP];
    assert scanned[..|rows|] == rows;
    MatchingPrefix(q, scanned, |rows|);
    hide Matching, DropSoas;
    assert limit > 0 ==> Matching(q, scanned)[..limit] == records;
  }

  lemma ReadsAll(q: Query, wire: seq<WireRRset>, rows: seq<WireRRset>, limit: int)
    requires rows == Deduplicated(wire) && |rows| <= SCAN_CAP
    requires (limit > 0 ==> |Matching(q, rows)| <= limit) && (limit <= 0 ==> Matching(q, rows) == [])
    ensures CappedListing(q, wire, limit) == Listing(Matching(q, rows), false)
  {
    hide Matching, DropSoas;
  }

  /** Azure's `list_records`: no cap, a limit of at least one, and one match too many detects truncation. */
  method ListRecordSets(q: Query, sets: seq<WireRRset>, limit: int) returns (r: Listing)
    ensures r == FirstMatches(q, sets, if limit < 1 then 1 else limit)
    ensures var all, wanted := Matching(q, sets), if limit < 1 then 1 else limit;
      && r.records <= all && |r.records| == (if |all| <= wanted then |all| else wanted)
      && (r.truncated <==> |all| > wanted)
  {
    hide Matching;
    var resultLimit := if limit < 1 then 1 else limit;
    var records: seq<string> := [];
    NothingYet(q, sets);
    assert sets[..0] == [];
    for i := 0 to |sets|
      invariant records == Matching(q, sets[..i]) && |records| <= resultLimit
    {
      assert sets[..i + 1] == sets[..i] + [sets[i]];
      MatchingSnoc(q, sets[..i], sets[i]);
      MatchingPrefix(q, sets, i + 1);
      if !q(sets[i]) {
        continue;
      }
      records := records + [sets[i].shown];
      if |records| > resultLimit {
        return Listing(records[..resultLimit], true);
      }
    }
    assert sets[..|sets|] == sets;
    r := Listing(records, false);
  }

  // ---------------------------------------------------------------- transfer slots

  /** A thread inside the generator: past the acquire with no connection yet, transferring, or closed and
      about to release its slot. */
  datatype Thread = Acquired | Transferring | Closed

  datatype Slots = Slots(free: int, threads: map<nat, Thread>)

  /** Exit is any way out of the iteration: exhausted, stopped early by the caller, or failed. */
  datatype Step =
    | Acquire(thread: nat) | Refuse(thread: nat) | Connect(thread: nat)
    | Pull(thread: nat) | Exit(thread: nat) | Release(thread: nat)

  predicate Enabled(s: Slots, step: Step) {
    match step
    case Acquire(t) => t !in s.threads && s.free > 0
    case Refuse(t) => t !in s.threads && s.free <= 0
    case Connect(t) => t in s.threads && s.threads[t].Acquired?
    case Pull(t) => t in s.threads && s.threads[t].Transferring?
    case Exit(t) => t in s.threads && !s.threads[t].Closed?
    case Release(t) => t in s.threads && s.threads[t].Closed?
  }

  function Apply(s: Slots, step: Step): Slots
    requires Enabled(s, step)
  {
    match step
    case Acquire(t) => Slots(s.free - 1, s.threads[t := Acquired])
    case Refuse(_) => s
    case Connect(t) => s.(threads := s.threads[t := Transferring])
    case Pull(_) => s
    case Exit(t) => s.(threads := s.threads[t := Closed])
    case Release(t) => Slots(s.free + 1, s.threads - {t})
  }

  function Open(s: Slots): set<nat> {
    set t | t in s.threads && s.threads[t].Transferring?
  }

  ghost predicate Run(states: seq<Slots>, steps: seq<Step>) {
    && |states| == |steps| + 1 && states[0] == Slots(MAX_CONCURRENT, map[])
    && forall i :: 0 <= i < |steps| ==> Enabled(states[i], steps[i]) && states[i + 1] == Apply(states[i], steps[i])
  }

  lemma SubsetSize(a: set<nat>, b: set<nat>)
    requires a <= b
    ensures |a| <= |b|
  {
    assert b == a + (b - a);
  }

  /** Slots taken equal the threads inside, so at most two transfers are open, whatever the order of
      arrivals, failures and early exits; and a slot is never released beyond the bound. */
  lemma {:induction false} SlotsMatchThreads(states: seq<Slots>, steps: seq<Step>, i: nat)
    requires Run(states, steps) && i < |states|
    ensures states[i].free == MAX_CONCURRENT - |states[i].threads|
    ensures 0 <= states[i].free <= MAX_CONCURRENT && |Open(states[i])| <= MAX_CONCURRENT
    ensures i < |steps| && steps[i].Release? ==> states[i].free < MAX_CONCURRENT
    ensures forall t :: t !in states[i].threads ==>
      (Enabled(states[i], Acquire(t)) <==> |states[i].threads| < 2)
      && (Enabled(states[i], Refuse(t)) <==> |states[i].threads| == 2)
  {
    if i > 0 {
      SlotsMatchThreads(states, steps, i - 1);
      ThreadsStep(states[i - 1], steps[i - 1]);
    }
    SubsetSize(Open(states[i]), states[i].threads.Keys);
    if i < |steps| && steps[i].Release? {
      SubsetSize({steps[i].thread}, states[i].threads.Keys);
    }
  }

  /** A thread that finds a slot transfers, stops at any point and gives the slot back, leaving what it found;
      one that finds none is refused and changes nothing. */
  lemma TransferInTurns(s: Slots, t: nat)
    requires t !in s.threads
    ensures s.free <= 0 ==> !Enabled(s, Acquire(t)) && Enabled(s, Refuse(t)) && Apply(s, Refuse(t)) == s
    ensures s.free > 0 ==>
      && !Enabled(s, Refuse(t)) && Enabled(s, Acquire(t))
      && var inside := Apply(s, Acquire(t));
      && inside.free == s.free - 1 && Open(inside) == Open(s)
      && Enabled(inside, Connect(t)) && Enabled(inside, Exit(t)) && !Enabled(inside, Release(t))
      && var open := Apply(inside, Connect(t));
      && open.free == s.free - 1 && Open(open) == Open(s) + {t}
      && Enabled(open, Pull(t)) && Apply(open, Pull(t)) == open && Enabled(open, Exit(t)) && !Enabled(open, Release(t))
      && var done := Apply(open, Exit(t));
      && done == Apply(inside, Exit(t)) && done.free == s.free - 1 && Open(done) == Open(s)
      && Enabled(done, Release(t)) && Apply(done, Release(t)) == s
  {
    if s.free > 0 {
      var inside := Apply(s, Acquire(t));
      var open := Apply(inside, Connect(t));
      var done := Apply(open, Exit(t));
      assert Apply(inside, Exit(t)).threads == done.threads;
      assert Apply(done, Release(t)).threads == s.threads;
    }
  }

  lemma ThreadsStep(s: Slots, step: Step)
    requires Enabled(s, step) && s.free == MAX_CONCURRENT - |s.threads|
    ensures Apply(s, step).free == MAX_CONCURRENT - |Apply(s, step).threads|
    ensures s.free >= 0 ==> Apply(s, step).free >= 0
  {
    var t := Apply(s, step);
    match step {
      case Acquire(x) => assert t.threads.Keys == s.threads.Keys + {x};
      case Release(x) => assert t.threads.Keys == s.threads.Keys - {x};
      case Refuse(_) | Pull(_) =>
      case Connect(_) | Exit(_) => assert t.threads.Keys == s.threads.Keys;
    }
    assert |s.threads| == |s.threads.Keys| && |t.threads| == |t.threads.Keys|;
  }
}
