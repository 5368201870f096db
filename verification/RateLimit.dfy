/** The fixed-window rate limiter over its shared SQLite table (src/rate_limit.py, lines 104-179). */
module RateLimit {
  import opened Basics

  /** At most `max` requests per `window` seconds; the code forces both to be at least 1. */
  datatype Rule = Rule(max: nat, window: nat)
  type Rules = string -> Rule

  ghost predicate Sound(rules: Rules) { forall route :: rules(route).max >= 1 && rules(route).window >= 1 }

  datatype Bucket = Bucket(route: string, identity: string, start: int)
  datatype Counter = Counter(count: nat, expires: int)

  /** What reached the database, in commit order: a decision, or a cleanup. Each carries the time its request
      read from the clock before its attempts, so the times need not be in order. */
  datatype Event = Hit(route: string, identity: string, now: int, admitted: bool) | Cleanup(now: int)

  /** What the database does with an attempt: commit it, after a cleanup or not, find itself locked, or fail. */
  datatype Attempt = Commits(cleans: bool) | Locked | Fails

  function WindowStart(now: int, window: nat): int
    requires window >= 1
  {
    now - now % window
  }

  function BucketOf(rules: Rules, route: string, identity: string, now: int): Bucket
    requires Sound(rules)
  {
    Bucket(route, identity, WindowStart(now, rules(route).window))
  }

  function Expires(rules: Rules, b: Bucket): int { b.start + rules(b.route).window }

  predicate Falls(rules: Rules, e: Event, b: Bucket)
    requires Sound(rules)
  {
    e.Hit? && BucketOf(rules, e.route, e.identity, e.now) == b
  }

  /** The cleanup removes the bucket's row, if it has one. */
  predicate Removes(rules: Rules, e: Event, b: Bucket) { e.Cleanup? && Expires(rules, b) < e.now }

  /** How many decisions fell in a bucket. */
  ghost function Counted(rules: Rules, events: seq<Event>, b: Bucket): nat
    requires Sound(rules)
  {
    if events == [] then 0
    else Counted(rules, events[..|events| - 1], b) + if Falls(rules, events[|events| - 1], b) then 1 else 0
  }

  /** How many of them its row remembers: those since the last cleanup that removed it. */
  ghost function Remembered(rules: Rules, events: seq<Event>, b: Bucket): nat
    requires Sound(rules)
  {
    if events == [] then 0
    else
      var last, before := events[|events| - 1], Remembered(rules, events[..|events| - 1], b);
      if Removes(rules, last, b) then 0 else before + if Falls(rules, last, b) then 1 else 0
  }

  /** Every decision admits exactly when fewer than `max` of its bucket are remembered. */
  ghost predicate Decided(rules: Rules, events: seq<Event>)
    requires Sound(rules)
  {
    forall i :: 0 <= i < |events| && events[i].Hit? ==>
      var e := events[i];
      (e.admitted <==> Remembered(rules, events[..i], BucketOf(rules, e.route, e.identity, e.now)) < rules(e.route).max)
  }

  /** The table holds exactly what is remembered. */
  ghost predicate Tracks(rules: Rules, events: seq<Event>, buckets: map<Bucket, Counter>)
    requires Sound(rules)
  {
    && (forall b :: b in buckets ==> buckets[b] == Counter(Remembered(rules, events, b), Expires(rules, b)))
    && (forall b :: b in buckets <==> Remembered(rules, events, b) > 0)
  }

  class Limiter {
    ghost const rules: Rules
    var buckets: map<Bucket, Counter>
    ghost var events: seq<Event>

    ghost predicate Valid()
      reads this
    {
      Sound(rules) && Decided(rules, events) && Tracks(rules, events, buckets)
    }

    constructor (rules: Rules)
      requires Sound(rules)
      ensures Valid() && events == [] && this.rules == rules
    {
      this.rules, buckets, events := rules, map[], [];
    }

    /** `_maybe_cleanup_expired`: drop the expired rows if the draw says so. */
    method MaybeCleanupExpired(now: int, drawn: bool)
      requires Valid()
      modifies this
      ensures Valid() && events == old(events) + if drawn then [Cleanup(now)] else []
      ensures forall b :: b in buckets <==> b in old(buckets) && (drawn ==> now <= b.start + rules(b.route).window)
    {
      hide Decided, Remembered;
      if drawn {
        ghost var before := buckets;
        buckets := map b | b in buckets && buckets[b].expires >= now :: buckets[b];
        CleanupTracks(rules, events, before, now);
        DecidedNext(rules, events, Cleanup(now));
        events := events + [Cleanup(now)];
      }
    }

    /** `rate_limit_exceeded` past the route match: the clock is read once, then up to three attempts, closed
        on failure. `attempts` says what the database does with each. The decision is counted, and then exact,
        exactly when one of the three commits and those before it found the database locked. */
    method RateLimitExceeded(route: string, identity: string, rule: Rule, now: int, attempts: seq<Attempt>)
      returns (exceeded: bool)
      requires Valid() && rule == rules(route) && |attempts| == 3
      modifies this
      ensures Valid()
      ensures (forall k :: 0 <= k < 3 && attempts[k].Commits? ==> exists j :: 0 <= j < k && attempts[j].Fails?) ==>
        exceeded && events == old(events) && buckets == old(buckets)
      ensures forall k :: 0 <= k < 3 && attempts[k].Commits? && (forall j :: 0 <= j < k ==> attempts[j].Locked?) ==>
        && events == old(events) + (if attempts[k].cleans then [Cleanup(now)] else [])
                    + [Hit(route, identity, now, !exceeded)]
        && (exceeded <==> Remembered(rules, old(events), BucketOf(rules, route, identity, now)) >= rule.max)
      ensures attempts[0].Commits? && Bucket(route, identity, now - now % rule.window) !in old(buckets) ==> !exceeded
    {
      hide Decided, Remembered, Tracks;
      var start := now - now % rule.window;
      var bucket := Bucket(route, identity, start);
      var attempt := 0;
      while attempt < 3
        invariant attempt <= 3 && Valid() && events == old(events) && buckets == old(buckets)
        invariant forall k :: 0 <= k < attempt ==> attempts[k].Locked?
      {
        if attempts[attempt].Locked? {
          // The transaction is rolled back, and tried again.
          attempt := attempt + 1;
          continue;
        }
        if attempts[attempt].Fails? {
          return true;
        }
        RowOf(rules, events, buckets, bucket);
        MaybeCleanupExpired(now, attempts[attempt].cleans);
        OwnCleanupKeeps(rules, old(events), route, identity, now);
        assert old(events) + [] == old(events);
        RowOf(rules, events, buckets, bucket);
        var count := if bucket in buckets then buckets[bucket].count + 1 else 1;
        exceeded := count > rule.max;
        ghost var hit := Hit(route, identity, now, !exceeded);
        HitTracks(rules, events, buckets, hit);
        DecidedNext(rules, events, hit);
        buckets := buckets[bucket := Counter(count,
            if bucket in buckets then buckets[bucket].expires else start + rule.window)];
        events := events + [hit];
        return;
      }
      return true;
    }
  }

  lemma RememberedNext(rules: Rules, events: seq<Event>, e: Event, b: Bucket)
    requires Sound(rules)
    ensures Remembered(rules, events + [e], b) ==
      if Removes(rules, e, b) then 0 else Remembered(rules, events, b) + if Falls(rules, e, b) then 1 else 0
    ensures Counted(rules, events + [e], b) == Counted(rules, events, b) + if Falls(rules, e, b) then 1 else 0
  {
    assert (events + [e])[..|events|] == events;
  }

  lemma CleanupTracks(rules: Rules, events: seq<Event>, buckets: map<Bucket, Counter>, now: int)
    requires Sound(rules) && Tracks(rules, events, buckets)
    ensures Tracks(rules, events + [Cleanup(now)], map b | b in buckets && buckets[b].expires >= now :: buckets[b])
  {
    hide Remembered;
    forall b ensures Remembered(rules, events + [Cleanup(now)], b) ==
      if Expires(rules, b) < now then 0 else Remembered(rules, events, b)
    {
      RememberedNext(rules, events, Cleanup(now), b);
    }
  }

  lemma RowOf(rules: Rules, events: seq<Event>, buckets: map<Bucket, Counter>, b: Bucket)
    requires Sound(rules) && Tracks(rules, events, buckets)
    ensures Remembered(rules, events, b) == if b in buckets then buckets[b].count else 0
    ensures b in buckets ==> buckets[b].expires == Expires(rules, b)
  {
    hide Remembered;
  }

  /** A request's own cleanup never removes the row it is about to read. */
  lemma OwnCleanupKeeps(rules: Rules, events: seq<Event>, route: string, identity: string, now: int)
    requires Sound(rules)
    ensures var b := BucketOf(rules, route, identity, now);
      Remembered(rules, events + [Cleanup(now)], b) == Remembered(rules, events, b)
  {
    RememberedNext(rules, events, Cleanup(now), BucketOf(rules, route, identity, now));
    hide Remembered;
  }

  lemma HitTracks(rules: Rules, events: seq<Event>, buckets: map<Bucket, Counter>, hit: Event)
    requires Sound(rules) && Tracks(rules, events, buckets) && hit.Hit?
    ensures var b := BucketOf(rules, hit.route, hit.identity, hit.now);
      Tracks(rules, events + [hit], buckets[b := Counter(Remembered(rules, events, b) + 1, Expires(rules, b))])
  {
    hide Remembered, WindowStart;
    forall b ensures Remembered(rules, events + [hit], b) ==
      Remembered(rules, events, b) + if Falls(rules, hit, b) then 1 else 0
    {
      RememberedNext(rules, events, hit, b);
    }
  }

  lemma DecidedNext(rules: Rules, events: seq<Event>, e: Event)
    requires Sound(rules) && Decided(rules, events)
    requires e.Hit? ==>
      (e.admitted <==> Remembered(rules, events, BucketOf(rules, e.route, e.identity, e.now)) < rules(e.route).max)
    ensures Decided(rules, events + [e])
  {
    hide Remembered, BucketOf;
    var after := events + [e];
    assert after[..|events|] == events;
    assert forall i :: 0 <= i < |events| ==> after[..i] == events[..i] && after[i] == events[i];
  }

  ghost function Positions(events: seq<Event>, p: Event -> bool): set<int> {
    set i | 0 <= i < |events| && p(events[i])
  }

  lemma PositionsNext(events: seq<Event>, p: Event -> bool)
    requires events != []
    ensures |Positions(events, p)| ==
      |Positions(events[..|events| - 1], p)| + if p(events[|events| - 1]) then 1 else 0
  {
    var n := |events| - 1;
    var before := Positions(events[..n], p);
    assert Positions(events, p) == if p(events[n]) then before + {n} else before;
  }

  /** The counts are numbers of events: the decisions of one identity on one route whose time lies in the
      bucket's window, ... */
  lemma {:induction false} CountedIsCardinality(rules: Rules, events: seq<Event>, b: Bucket, p: Event -> bool)
    requires Sound(rules) && b.start % rules(b.route).window == 0
    requires forall e :: p(e) <==> e.Hit? && e.route == b.route && e.identity == b.identity
                                   && b.start <= e.now < b.start + rules(b.route).window
    ensures Counted(rules, events, b) == |Positions(events, p)|
  {
    hide WindowStart;
    if events != [] {
      var e := events[|events| - 1];
      CountedIsCardinality(rules, events[..|events| - 1], b, p);
      PositionsNext(events, p);
      if e.Hit? {
        InWindow(e.now, b.start, rules(b.route).window);
      }
      hide Positions;
    }
  }

  /** ... and the admitted ones whose time lies in a span. */
  lemma {:induction false} AdmittedIsCardinality(events: seq<Event>, route: string, identity: string, from: int,
      to: int, p: Event -> bool)
    requires forall e :: p(e) <==> e.Hit? && e.admitted && e.route == route && e.identity == identity
                                   && from <= e.now < to
    ensures AdmittedIn(events, route, identity, from, to) == |Positions(events, p)|
  {
    if events != [] {
      AdmittedIsCardinality(events[..|events| - 1], route, identity, from, to, p);
      PositionsNext(events, p);
      hide Positions;
    }
  }

  // ---------------------------------------------------------------- when nothing is forgotten

  /** No decision falls in the bucket after a cleanup removed counts of it. */
  ghost predicate OnTime(rules: Rules, events: seq<Event>, b: Bucket)
    requires Sound(rules)
  {
    forall i, j :: 0 <= i < j < |events| && Removes(rules, events[i], b) && Falls(rules, events[j], b) ==>
      Counted(rules, events[..i], b) == 0
  }

  /** The bucket was removed with counts in it. */
  ghost predicate Forgotten(rules: Rules, events: seq<Event>, b: Bucket)
    requires Sound(rules)
  {
    exists i :: 0 <= i < |events| && Removes(rules, events[i], b) && Counted(rules, events[..i], b) > 0
  }

  /** A row holds the full count of its bucket exactly when no cleanup removed counts of it. */
  lemma {:induction false} FullCountIffNotForgotten(rules: Rules, events: seq<Event>, b: Bucket)
    requires Sound(rules)
    ensures Remembered(rules, events, b) == Counted(rules, events, b) <==> !Forgotten(rules, events, b)
    ensures Remembered(rules, events, b) <= Counted(rules, events, b)
  {
    if events != [] {
      var before, e := events[..|events| - 1], events[|events| - 1];
      FullCountIffNotForgotten(rules, before, b);
      assert before + [e] == events;
      RememberedNext(rules, before, e, b);
      ForgottenNext(rules, before, e, b);
    }
  }

  lemma ForgottenNext(rules: Rules, before: seq<Event>, e: Event, b: Bucket)
    requires Sound(rules)
    ensures Forgotten(rules, before + [e], b) <==>
      Forgotten(rules, before, b) || (Removes(rules, e, b) && Counted(rules, before, b) > 0)
  {
    hide Counted, Falls;
    var events := before + [e];
    assert events[..|before|] == before && forall i :: 0 <= i < |before| ==>
      events[..i] == before[..i] && events[i] == before[i];
    if i :| 0 <= i < |before| && Removes(rules, before[i], b) && Counted(rules, before[..i], b) > 0 {
      assert Removes(rules, events[i], b) && Counted(rules, events[..i], b) > 0;
    }
    if Removes(rules, e, b) && Counted(rules, before, b) > 0 {
      assert events[|before|] == e && events[..|before|] == before;
    }
  }

  /** Every decision of a bucket sees its full count exactly when none comes after its counts were removed. */
  lemma VerdictsAreRightIffOnTime(rules: Rules, events: seq<Event>, b: Bucket)
    requires Sound(rules)
    ensures OnTime(rules, events, b) <==>
      forall j :: 0 <= j < |events| && Falls(rules, events[j], b) ==>
        Remembered(rules, events[..j], b) == Counted(rules, events[..j], b)
  {
    hide Remembered, Counted, Falls, Removes;
    forall j | 0 <= j < |events|
      ensures Remembered(rules, events[..j], b) == Counted(rules, events[..j], b) <==>
        forall i :: 0 <= i < j && Removes(rules, events[i], b) ==> Counted(rules, events[..i], b) == 0
    {
      FullCountIffNotForgotten(rules, events[..j], b);
      assert forall i :: 0 <= i < j ==> events[..j][..i] == events[..i] && events[..j][i] == events[i];
    }
  }

  /** Requests that reach the database in clock order are on time for every bucket. */
  lemma OrderedIsOnTime(rules: Rules, events: seq<Event>, b: Bucket)
    requires Sound(rules) && forall i, j :: 0 <= i < j < |events| ==> events[i].now <= events[j].now
    ensures OnTime(rules, events, b)
  {
    hide Counted;
  }

  /** Out of order they need not be: a request that read its clock before a cleanup finds its full bucket gone. */
  lemma DelayedRequestIsAdmittedTwice(rules: Rules, route: string, identity: string)
    requires Sound(rules) && rules(route) == Rule(1, 60)
    ensures var events := [Hit(route, identity, 59, true), Cleanup(61), Hit(route, identity, 59, true)];
      && Decided(rules, events) && !OnTime(rules, events, Bucket(route, identity, 0))
      && AdmittedIn(events, route, identity, 0, 60) == 2
  {
    var h, c, b := Hit(route, identity, 59, true), Cleanup(61), Bucket(route, identity, 0);
    assert WindowStart(59, 60) == 0;
    assert BucketOf(rules, route, identity, 59) == b && Falls(rules, h, b) && Removes(rules, c, b);
    assert [] + [h] == [h] && [h] + [c] == [h, c] && [h, c] + [h] == [h, c, h] && [h, c, h][..1] == [h];
    RememberedNext(rules, [], h, b);
    RememberedNext(rules, [h], c, b);
    hide Remembered, Counted, Decided, WindowStart, BucketOf, Falls, Removes, AdmittedIn;
    NothingYet(rules, b, route, identity);
    DecidedNext(rules, [], h);
    DecidedNext(rules, [h], c);
    DecidedNext(rules, [h, c], h);
    AdmittedNext([], h, route, identity, 0, 60);
    AdmittedNext([h], c, route, identity, 0, 60);
    AdmittedNext([h, c], h, route, identity, 0, 60);
    assert Removes(rules, [h, c, h][1], b) && Falls(rules, [h, c, h][2], b) && Counted(rules, [h, c, h][..1], b) == 1;
  }

  lemma NothingYet(rules: Rules, b: Bucket, route: string, identity: string)
    requires Sound(rules)
    ensures Decided(rules, []) && Remembered(rules, [], b) == 0 && Counted(rules, [], b) == 0
    ensures AdmittedIn([], route, identity, 0, 60) == 0
  {
  }

  // ---------------------------------------------------------------- what the verdicts amount to

  /** How many admitted requests of one identity on one route read a time in [from, to). */
  ghost function AdmittedIn(events: seq<Event>, route: string, identity: string, from: int, to: int): nat {
    if events == [] then 0
    else
      var e := events[|events| - 1];
      AdmittedIn(events[..|events| - 1], route, identity, from, to)
      + if e.Hit? && e.admitted && e.route == route && e.identity == identity && from <= e.now < to then 1 else 0
  }

  lemma AdmittedNext(events: seq<Event>, e: Event, route: string, identity: string, from: int, to: int)
    ensures AdmittedIn(events + [e], route, identity, from, to) == AdmittedIn(events, route, identity, from, to)
      + if e.Hit? && e.admitted && e.route == route && e.identity == identity && from <= e.now < to then 1 else 0
  {
    assert (events + [e])[..|events|] == events;
  }

  lemma DecidedPrefix(rules: Rules, events: seq<Event>, b: Bucket)
    requires Sound(rules) && events != [] && Decided(rules, events) && OnTime(rules, events, b)
    ensures Decided(rules, events[..|events| - 1]) && OnTime(rules, events[..|events| - 1], b)
  {
    hide Remembered, Counted, Falls, Removes, BucketOf;
    var before := events[..|events| - 1];
    assert forall i :: 0 <= i < |before| ==> before[..i] == events[..i] && before[i] == events[i];
  }

  lemma InWindow(now: int, start: int, window: nat)
    requires window >= 1 && start % window == 0
    ensures WindowStart(now, window) == start <==> start <= now < start + window
  {
    if start <= now < start + window {
      Remainder(start / window, now - start, window);
      assert start == window * (start / window);
    }
  }

  lemma Remainder(q: int, r: int, window: nat)
    requires 0 <= r < window
    ensures (window * q + r) % window == r
  {
    var n := window * q + r;
    assert n == window * (n / window) + n % window;
    var d := n / window - q;
    assert window * d == r - n % window by {
      assert window * d == window * (n / window) - window * q;
    }
  }

  /** In each aligned window whose bucket is on time, exactly the first `max` requests are admitted. */
  lemma {:induction false} AdmittedPerWindow(rules: Rules, events: seq<Event>, b: Bucket)
    requires Sound(rules) && Decided(rules, events) && OnTime(rules, events, b) && b.start % rules(b.route).window == 0
    ensures var n, rule := Counted(rules, events, b), rules(b.route);
      AdmittedIn(events, b.route, b.identity, b.start, b.start + rule.window) == if n <= rule.max then n else rule.max
  {
    if events != [] {
      var before, e := events[..|events| - 1], events[|events| - 1];
      DecidedPrefix(rules, events, b);
      AdmittedPerWindow(rules, before, b);
      VerdictsAreRightIffOnTime(rules, events, b);
      assert events[..|events| - 1] == before;
      if e.Hit? {
        InWindow(e.now, b.start, rules(b.route).window);
      }
      hide Remembered, WindowStart, OnTime;
    }
  }

  /** A span no longer than a window meets at most two aligned windows. */
  lemma {:induction false} AdmittedSplit(events: seq<Event>, route: string, identity: string, from: int, to: int,
      start: int, window: nat)
    requires window >= 1 && start <= from < start + window && to <= from + window
    ensures AdmittedIn(events, route, identity, from, to) <=
      AdmittedIn(events, route, identity, start, start + window)
      + AdmittedIn(events, route, identity, start + window, start + window + window)
  {
    if events != [] {
      AdmittedSplit(events[..|events| - 1], route, identity, from, to, start, window);
    }
  }

  lemma AdmittedInTwo(rules: Rules, events: seq<Event>, route: string, identity: string, from: int, start: int)
    requires Sound(rules) && Decided(rules, events)
    requires start % rules(route).window == 0 && (start + rules(route).window) % rules(route).window == 0
    requires start <= from < start + rules(route).window
    requires OnTime(rules, events, Bucket(route, identity, start))
    requires OnTime(rules, events, Bucket(route, identity, start + rules(route).window))
    ensures AdmittedIn(events, route, identity, from, from + rules(route).window) <= 2 * rules(route).max
  {
    hide OnTime, Decided, AdmittedIn, Counted;
    var window := rules(route).window;
    AdmittedSplit(events, route, identity, from, from + window, start, window);
    AdmittedPerWindow(rules, events, Bucket(route, identity, start));
    AdmittedPerWindow(rules, events, Bucket(route, identity, start + window));
  }

  /** At most twice `max` requests are admitted in any `window` consecutive seconds, if the two buckets that
      the span meets are on time. */
  lemma AdmittedInAnySpan(rules: Rules, events: seq<Event>, route: string, identity: string, from: int)
    requires Sound(rules) && Decided(rules, events)
    requires var start, window := WindowStart(from, rules(route).window), rules(route).window;
      && OnTime(rules, events, Bucket(route, identity, start))
      && OnTime(rules, events, Bucket(route, identity, start + window))
    ensures AdmittedIn(events, route, identity, from, from + rules(route).window) <= 2 * rules(route).max
  {
    hide OnTime, Decided, WindowStart, AdmittedIn;
    Aligned(from, rules(route).window);
    AdmittedInTwo(rules, events, route, identity, from, WindowStart(from, rules(route).window));
  }

  /** So, in clock order, both bounds always hold. */
  lemma OrderedBounds(rules: Rules, events: seq<Event>, route: string, identity: string, from: int)
    requires Sound(rules) && Decided(rules, events) && forall i, j :: 0 <= i < j < |events| ==>
      events[i].now <= events[j].now
    ensures AdmittedIn(events, route, identity, from, from + rules(route).window) <= 2 * rules(route).max
    ensures from % rules(route).window == 0 ==>
      AdmittedIn(events, route, identity, from, from + rules(route).window) <= rules(route).max
  {
    var window := rules(route).window;
    var start := WindowStart(from, window);
    OrderedIsOnTime(rules, events, Bucket(route, identity, start));
    OrderedIsOnTime(rules, events, Bucket(route, identity, start + window));
    OrderedIsOnTime(rules, events, Bucket(route, identity, from));
    hide OnTime, Decided;
    AdmittedInAnySpan(rules, events, route, identity, from);
    if from % window == 0 {
      AdmittedPerWindow(rules, events, Bucket(route, identity, from));
    }
  }

  lemma Aligned(now: int, window: nat)
    requires window >= 1
    ensures var start := WindowStart(now, window);
      start <= now < start + window && start % window == 0 && (start + window) % window == 0
  {
    var q := now / window;
    assert now == window * q + now % window;
    Remainder(q, 0, window);
    Remainder(q + 1, 0, window);
    assert window * (q + 1) == window * q + window;
  }
}
