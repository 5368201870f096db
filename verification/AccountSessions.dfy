/** Session versions and roles while account handlers interleave (src/auth.py, lines 117-148;
    src/routes/settings_users.py, lines 39-544). */
module AccountSessions {
  import opened Basics
  import opened Text
  import opened Roles
  import opened Accounts
  import opened AccountInterleaving

  // ---------------------------------------------------------------- session versions

  /** The request stores a session version: one more than the version it read. */
  predicate BumpsVersion(request: Request) {
    request.ChangeOwn? || request.Disable? || request.Reset? || request.SetRoles?
  }

  /** A pending request that will store a version in row `id`. */
  predicate Bumps(p: Pending, id: nat) { BumpsVersion(p.request) && TargetOf(p) == id }

  /** Step `k` commits a version to row `id`. */
  ghost predicate BumpAt(states: seq<State>, steps: seq<Turn>, k: nat, id: nat)
    requires Interleaving(states, steps)
  {
    k < |steps| && steps[k].Commit? && Bumps(states[k].pending[steps[k].thread], id)
  }

  /** Another version was committed to the row, at or after step `a`, while thread `t` was pending up to `k`. */
  ghost predicate Overtaken(states: seq<State>, steps: seq<Turn>, a: nat, t: nat, k: nat, id: nat)
    requires Interleaving(states, steps) && k < |states|
  {
    exists m: nat :: a <= m < k && BumpAt(states, steps, m, id) && PendingThrough(states, t, m, k)
  }

  ghost predicate PendingThrough(states: seq<State>, t: nat, m: nat, k: nat)
    requires k < |states|
  {
    forall l :: m <= l <= k ==> t in states[l].pending
  }

  /** From step `a` on the row exists, and at `a` no version for it is pending. */
  ghost predicate Tracked(states: seq<State>, a: nat, j: nat, id: nat) {
    && a <= j < |states| && (forall l :: a <= l <= j ==> id in states[l].users)
    && forall t :: t in states[a].pending ==> !Bumps(states[a].pending[t], id)
  }

  /** A commit leaves a row's version alone, unless it is one that bumps it: then it stores what it read plus one. */
  lemma CommittedVersion(users: Users, p: Pending, id: nat)
    requires id in users && id in Write(users, p)
    ensures Write(users, p)[id].version == if Bumps(p, id) then p.version + 1 else users[id].version
    ensures Write(users, p)[id].username == users[id].username
    ensures
      (Write(users, p)[id].secret != users[id].secret || Write(users, p)[id].roles != users[id].roles
      || (Write(users, p)[id].disabled && !users[id].disabled)) ==> Bumps(p, id)
  {
    hide NewRoles, Strip;
  }

  /** A pending version is one more than the row's, or the request was overtaken. */
  lemma {:induction false} ReadUnlessOvertaken(states: seq<State>, steps: seq<Turn>, a: nat, l: nat, t: nat, id: nat)
    requires Interleaving(states, steps) && Tracked(states, a, l, id)
    requires t in states[l].pending && Bumps(states[l].pending[t], id)
    ensures states[l].pending[t].version == states[l].users[id].version || Overtaken(states, steps, a, t, l, id)
  {
    if l > a {
      var s, step := states[l - 1], steps[l - 1];
      assert Enabled(s, step) && states[l] == Apply(s, step);
      if t in s.pending {
        assert s.pending[t] == states[l].pending[t];
        ReadUnlessOvertaken(states, steps, a, l - 1, t, id);
        hide Write, Accepts;
        if step.Commit? {
          CommittedVersion(s.users, s.pending[step.thread], id);
        }
        if Overtaken(states, steps, a, t, l - 1, id) {
          var m: nat :| a <= m < l - 1 && BumpAt(states, steps, m, id) && PendingThrough(states, t, m, l - 1);
          assert PendingThrough(states, t, m, l);
        } else if BumpAt(states, steps, l - 1, id) {
          assert PendingThrough(states, t, l - 1, l);
        }
      }
    }
  }

  /** A commit that was not overtaken raises the version by one. */
  lemma LoneBumpRises(states: seq<State>, steps: seq<Turn>, a: nat, k: nat, id: nat)
    requires Interleaving(states, steps) && a <= k < |steps| && Tracked(states, a, k + 1, id)
    requires BumpAt(states, steps, k, id) && !Overtaken(states, steps, a, steps[k].thread, k, id)
    ensures states[k + 1].users[id].version == states[k].users[id].version + 1
  {
    ReadUnlessOvertaken(states, steps, a, k, steps[k].thread, id);
    assert Enabled(states[k], steps[k]) && states[k + 1] == Apply(states[k], steps[k]);
    CommittedVersion(states[k].users, states[k].pending[steps[k].thread], id);
    hide Write, Overtaken;
  }

  ghost predicate AllRise(states: seq<State>, steps: seq<Turn>, a: nat, j: nat, id: nat)
    requires Interleaving(states, steps) && Tracked(states, a, j, id)
  {
    forall k :: a <= k < j && BumpAt(states, steps, k, id) ==>
      states[k].users[id].version < states[k + 1].users[id].version
  }

  ghost predicate NoneOvertaken(states: seq<State>, steps: seq<Turn>, a: nat, j: nat, id: nat)
    requires Interleaving(states, steps) && j < |states|
  {
    forall k :: a <= k < j && BumpAt(states, steps, k, id) ==> !Overtaken(states, steps, a, steps[k].thread, k, id)
  }

  /** While all rise, versions only grow, and names stay. */
  lemma {:induction false} VersionsGrow(states: seq<State>, steps: seq<Turn>, a: nat, i: nat, j: nat, id: nat)
    requires Interleaving(states, steps) && Tracked(states, a, j, id) && a <= i <= j
    requires AllRise(states, steps, a, j, id)
    ensures states[i].users[id].version <= states[j].users[id].version
    ensures states[i].users[id].username == states[j].users[id].username
  {
    hide Interleaving, AllRise;
    if i < j {
      RisingStep(states, steps, a, j, id);
      VersionsGrow(states, steps, a, i, j - 1, id);
    }
  }

  lemma RisingStep(states: seq<State>, steps: seq<Turn>, a: nat, j: nat, id: nat)
    requires Interleaving(states, steps) && Tracked(states, a, j, id) && a < j && AllRise(states, steps, a, j, id)
    ensures Tracked(states, a, j - 1, id) && AllRise(states, steps, a, j - 1, id)
    ensures states[j - 1].users[id].version <= states[j].users[id].version
    ensures states[j - 1].users[id].username == states[j].users[id].username
  {
    OneTurn(states, steps, a, j - 1, id);
    hide Interleaving, BumpAt;
  }

  /** A turn that bumps no version of the row leaves it; none changes the name. */
  lemma OneTurn(states: seq<State>, steps: seq<Turn>, a: nat, k: nat, id: nat)
    requires Interleaving(states, steps) && a <= k < |steps| && Tracked(states, a, k + 1, id)
    ensures BumpAt(states, steps, k, id) || states[k + 1].users[id].version == states[k].users[id].version
    ensures states[k + 1].users[id].username == states[k].users[id].username
  {
    var s, step := states[k], steps[k];
    assert Enabled(s, step) && states[k + 1] == Apply(s, step);
    hide Write, Accepts;
    if step.Commit? {
      CommittedVersion(s.users, s.pending[step.thread], id);
    }
  }

  /** While all rise, a pending request has read no more than the row's version. */
  lemma {:induction false} ReadAtMost(states: seq<State>, steps: seq<Turn>, a: nat, l: nat, t: nat, id: nat)
    requires Interleaving(states, steps) && Tracked(states, a, l, id) && AllRise(states, steps, a, l, id)
    requires t in states[l].pending && Bumps(states[l].pending[t], id)
    ensures states[l].pending[t].version <= states[l].users[id].version
  {
    if l > a {
      var s, step := states[l - 1], steps[l - 1];
      assert Enabled(s, step) && states[l] == Apply(s, step);
      if t in s.pending {
        ReadAtMost(states, steps, a, l - 1, t, id);
        VersionsGrow(states, steps, a, l - 1, l, id);
      }
      hide Write, Accepts;
    }
  }

  lemma OvertakenFalls(states: seq<State>, steps: seq<Turn>, a: nat, k: nat, id: nat)
    requires Interleaving(states, steps) && a <= k < |steps| && Tracked(states, a, k + 1, id)
    requires AllRise(states, steps, a, k, id)
    requires BumpAt(states, steps, k, id) && Overtaken(states, steps, a, steps[k].thread, k, id)
    ensures states[k + 1].users[id].version <= states[k].users[id].version
  {
    var t := steps[k].thread;
    var m: nat :| a <= m < k && BumpAt(states, steps, m, id) && PendingThrough(states, t, m, k);
    StillPending(states, steps, t, m, k);
    ReadAtMost(states, steps, a, m, t, id);
    VersionsGrow(states, steps, a, m + 1, k, id);
    assert Enabled(states[k], steps[k]) && states[k + 1] == Apply(states[k], steps[k]);
    CommittedVersion(states[k].users, states[k].pending[t], id);
    hide Write, Overtaken;
  }

  lemma {:induction false} StillPending(states: seq<State>, steps: seq<Turn>, t: nat, m: nat, k: nat)
    requires Interleaving(states, steps) && m <= k < |states| && PendingThrough(states, t, m, k)
    ensures states[m].pending[t] == states[k].pending[t]
  {
    if m < k {
      StillPending(states, steps, t, m, k - 1);
      assert Enabled(states[k - 1], steps[k - 1]) && states[k] == Apply(states[k - 1], steps[k - 1]);
      hide Write, Accepts;
    }
  }

  /** A commit of a version raises it exactly when it was not overtaken. */
  lemma RisesIffNotOvertaken(states: seq<State>, steps: seq<Turn>, a: nat, k: nat, id: nat)
    requires Interleaving(states, steps) && a <= k < |steps| && Tracked(states, a, k + 1, id)
    requires AllRise(states, steps, a, k, id) && BumpAt(states, steps, k, id)
    ensures states[k].users[id].version < states[k + 1].users[id].version
      <==> !Overtaken(states, steps, a, steps[k].thread, k, id)
  {
    hide Interleaving, BumpAt, Overtaken, AllRise;
    if Overtaken(states, steps, a, steps[k].thread, k, id) {
      OvertakenFalls(states, steps, a, k, id);
    } else {
      LoneBumpRises(states, steps, a, k, id);
    }
  }

  /** Every stored version of a row is higher than the one before exactly when none was overtaken: when no
      version is stored in the row between the check and the commit of another. */
  lemma {:induction false} VersionsRiseIffNoneOvertaken(states: seq<State>, steps: seq<Turn>, a: nat, j: nat, id: nat)
    requires Interleaving(states, steps) && Tracked(states, a, j, id)
    ensures AllRise(states, steps, a, j, id) <==> NoneOvertaken(states, steps, a, j, id)
  {
    hide AllRise, NoneOvertaken, Overtaken, BumpAt, Interleaving;
    if j == a {
      NothingStored(states, steps, a, id);
    } else {
      OneMore(states, steps, a, j, id);
      OneMoreOvertaken(states, steps, a, j, id);
      VersionsRiseIffNoneOvertaken(states, steps, a, j - 1, id);
      if AllRise(states, steps, a, j - 1, id) && BumpAt(states, steps, j - 1, id) {
        RisesIffNotOvertaken(states, steps, a, j - 1, id);
      }
    }
  }

  lemma NothingStored(states: seq<State>, steps: seq<Turn>, a: nat, id: nat)
    requires Interleaving(states, steps) && Tracked(states, a, a, id)
    ensures AllRise(states, steps, a, a, id) && NoneOvertaken(states, steps, a, a, id)
  {
  }

  lemma OneMore(states: seq<State>, steps: seq<Turn>, a: nat, j: nat, id: nat)
    requires Interleaving(states, steps) && Tracked(states, a, j, id) && a < j
    ensures |states| == |steps| + 1 && Tracked(states, a, j - 1, id)
    ensures AllRise(states, steps, a, j, id) <==>
      AllRise(states, steps, a, j - 1, id)
      && (BumpAt(states, steps, j - 1, id) ==> states[j - 1].users[id].version < states[j].users[id].version)
  {
    assert |states| == |steps| + 1;
    hide Interleaving, BumpAt;
    assert Tracked(states, a, j - 1, id);
  }

  lemma OneMoreOvertaken(states: seq<State>, steps: seq<Turn>, a: nat, j: nat, id: nat)
    requires Interleaving(states, steps) && a < j < |states|
    ensures |states| == |steps| + 1
    ensures NoneOvertaken(states, steps, a, j, id) <==>
      NoneOvertaken(states, steps, a, j - 1, id)
      && (BumpAt(states, steps, j - 1, id) ==> !Overtaken(states, steps, a, steps[j - 1].thread, j - 1, id))
  {
    assert |states| == |steps| + 1;
    hide Interleaving, BumpAt, Overtaken;
  }

  lemma {:induction false} NamesStayUnique(states: seq<State>, steps: seq<Turn>, i: nat)
    requires Interleaving(states, steps) && i < |states| && UniqueNames(states[0].users)
    ensures UniqueNames(states[i].users)
  {
    if i > 0 {
      NamesStayUnique(states, steps, i - 1);
      assert Enabled(states[i - 1], steps[i - 1]) && states[i] == Apply(states[i - 1], steps[i - 1]);
      hide Write, Accepts, Interleaving;
      if steps[i - 1].Commit? {
        NamesStayUniqueInWrite(states[i - 1].users, states[i - 1].pending[steps[i - 1].thread]);
      }
    }
  }

  lemma NamesStayUniqueInWrite(users: Users, p: Pending)
    requires UniqueNames(users)
    ensures UniqueNames(Write(users, p))
  {
    hide NewRoles, Strip;
  }

  /** Once an account is disabled, or its password or roles change, no cookie issued before ever signs anyone
      in again while the account exists, provided no stored version of it was overtaken. */
  lemma OldCookiesStayDeadInterleaved(states: seq<State>, steps: seq<Turn>, a: nat, i: nat, k: nat, j: nat, id: nat,
      cookie: Cookie, who: nat)
    requires Interleaving(states, steps) && UniqueNames(states[0].users) && a <= i <= k < j && Tracked(states, a, j, id)
    requires NoneOvertaken(states, steps, a, j, id)
    requires SignedIn(states[i].users, cookie, id)
    requires
      var before, after := states[k].users[id], states[k + 1].users[id];
      before.secret != after.secret || before.roles != after.roles || (after.disabled && !before.disabled)
    ensures !SignedIn(states[j].users, cookie, who)
  {
    VersionsRiseIffNoneOvertaken(states, steps, a, j, id);
    assert Enabled(states[k], steps[k]) && states[k + 1] == Apply(states[k], steps[k]);
    if steps[k].Commit? {
      CommittedVersion(states[k].users, states[k].pending[steps[k].thread], id);
    }
    assert BumpAt(states, steps, k, id);
    NamesStayUnique(states, steps, j);
    hide Write, Interleaving, BumpAt, NoneOvertaken;
    RisesOver(states, steps, a, i, k, j, id);
  }

  lemma RisesOver(states: seq<State>, steps: seq<Turn>, a: nat, i: nat, k: nat, j: nat, id: nat)
    requires Interleaving(states, steps) && a <= i <= k < j && Tracked(states, a, j, id)
    requires AllRise(states, steps, a, j, id)
    requires BumpAt(states, steps, k, id)
    ensures states[i].users[id].version < states[j].users[id].version
    ensures states[i].users[id].username == states[j].users[id].username
  {
    hide Interleaving, BumpAt;
    assert AllRise(states, steps, a, k, id);
    VersionsGrow(states, steps, a, i, k, id);
    VersionsGrow(states, steps, a, k + 1, j, id);
    VersionsGrow(states, steps, a, i, j, id);
  }

  /** The admin `a` in row 0 resets the password of the account `b` in row 1, from several windows at once. */
  predicate Resettable(a: User, b: User) {
    a.username != b.username && IsAdmin(a) && !a.disabled && !b.disabled
  }

  function ResetCheck(t: nat, a: User, password: string): Turn {
    Check(t, Cookie(a.username, a.version), 0, Reset(1, password, password))
  }

  function Users2(a: User, b: User, secret: string, version: nat): Users {
    map[0 := a, 1 := b.(secret := secret, version := version)]
  }

  lemma ResetChecks(s: State, t: nat, a: User, b: User, secret: string, version: nat, password: string)
    requires Resettable(a, b) && password != [] && s.users == Users2(a, b, secret, version) && t !in s.pending
    ensures Enabled(s, ResetCheck(t, a, password)) && Accepts(s.users, 0, Reset(1, password, password))
    ensures Apply(s, ResetCheck(t, a, password)) ==
      State(s.users, s.pending[t := Pending(0, Reset(1, password, password), version, b.roles)])
  {
    hide StoredRoles, Effective;
  }

  lemma ResetCommits(s: State, t: nat, a: User, b: User, secret: string, version: nat, password: string, read: nat)
    requires s.users == Users2(a, b, secret, version) && t in s.pending
    requires s.pending[t] == Pending(0, Reset(1, password, password), read, b.roles)
    ensures Enabled(s, Commit(t)) && Apply(s, Commit(t)) == State(Users2(a, b, password, read + 1), s.pending - {t})
  {
  }

  /** A run grows by one turn. */
  lemma OneMoreTurn(states: seq<State>, steps: seq<Turn>, step: Turn) returns (now: seq<State>)
    requires Interleaving(states, steps) && Enabled(states[|steps|], step)
    ensures now == states + [Apply(states[|steps|], step)] && Interleaving(now, steps + [step])
  {
    hide Enabled, Apply;
    now := states + [Apply(states[|steps|], step)];
    var all := steps + [step];
    assert forall k :: 0 <= k < |steps| ==> all[k] == steps[k];
    assert forall k :: 0 <= k < |states| ==> now[k] == states[k];
  }

  /** Two overlapping resets store the same version: a cookie issued after the first still signs in after the
      second, although the password changed. */
  lemma OverlappingResetsShareAVersion(a: User, b: User, p: string, q: string)
    returns (states: seq<State>, steps: seq<Turn>)
    requires Resettable(a, b) && p != [] && q != [] && p != q
    ensures |states| == 5 && Interleaving(states, steps) && states[0].users == map[0 := a, 1 := b]
    ensures states[3].users == Users2(a, b, p, b.version + 1) && states[4].users == Users2(a, b, q, b.version + 1)
    ensures var cookie := Cookie(b.username, b.version + 1);
      SignedIn(states[3].users, cookie, 1) && SignedIn(states[4].users, cookie, 1)
  {
    hide Enabled, Apply, Interleaving, SignedIn, Resettable, Accepts;
    var s0 := State(Users2(a, b, b.secret, b.version), map[]);
    assert s0.users == map[0 := a, 1 := b];
    hide Users2;
    states, steps := [s0], [];
    ResetChecks(s0, 0, a, b, b.secret, b.version, p);
    NoTurns(s0);
    states := OneMoreTurn(states, steps, ResetCheck(0, a, p));
    steps := steps + [ResetCheck(0, a, p)];
    ResetChecks(states[1], 1, a, b, b.secret, b.version, q);
    states := OneMoreTurn(states, steps, ResetCheck(1, a, q));
    steps := steps + [ResetCheck(1, a, q)];
    ResetCommits(states[2], 0, a, b, b.secret, b.version, p, b.version);
    states := OneMoreTurn(states, steps, Commit(0));
    steps := steps + [Commit(0)];
    ResetCommits(states[3], 1, a, b, p, b.version + 1, q, b.version);
    states := OneMoreTurn(states, steps, Commit(1));
    steps := steps + [Commit(1)];
    OneCookieSignsIn(a, b, p, b.version + 1, b.version + 1);
    OneCookieSignsIn(a, b, q, b.version + 1, b.version + 1);
  }

  lemma NoTurns(s: State)
    requires s.pending == map[]
    ensures Interleaving([s], [])
  {
  }

  lemma OneCookieSignsIn(a: User, b: User, secret: string, version: nat, v: nat)
    requires Resettable(a, b)
    ensures SignedIn(Users2(a, b, secret, version), Cookie(b.username, v), 1) <==> v == version
  {
  }

  /** A request that nothing interrupts takes two turns. */
  lemma Uninterrupted(s: State, t: nat, cookie: Cookie, me: nat, request: Request) returns (mid: State)
    requires t !in s.pending && SignedIn(s.users, cookie, me) && Accepts(s.users, me, request)
    ensures Enabled(s, Check(t, cookie, me, request)) && Apply(s, Check(t, cookie, me, request)) == mid
    ensures Enabled(mid, Commit(t)) && Apply(mid, Commit(t)) == State(Next(s.users, me, request), s.pending)
    ensures mid.users == s.users
  {
    mid := State(s.users, s.pending[t := Checked(s.users, me, request)]);
    UninterruptedIsAtomic(s.users, me, request);
    assert mid.pending - {t} == s.pending;
    hide Accepts, Write, Next, Checked;
  }

  /** A run grows by a reset that nothing interrupts. */
  lemma OneMoreReset(states: seq<State>, steps: seq<Turn>, t: nat, a: User, b: User, secret: string, version: nat,
      password: string)
    returns (now: seq<State>, all: seq<Turn>)
    requires Resettable(a, b) && password != [] && Interleaving(states, steps) && |states| == |steps| + 1
    requires states[|steps|].users == Users2(a, b, secret, version) && t !in states[|steps|].pending
    ensures Interleaving(now, all) && |now| == |all| + 1 == |states| + 2 && states <= now
    ensures now[|all|] == State(Users2(a, b, password, version + 1), states[|steps|].pending)
  {
    var last := states[|steps|];
    ResetChecks(last, t, a, b, secret, version, password);
    hide Enabled, Apply, Interleaving, StoredRoles, Effective;
    var mid := Uninterrupted(last, t, Cookie(a.username, a.version), 0, Reset(1, password, password));
    now := OneMoreTurn(states, steps, ResetCheck(t, a, password));
    all := steps + [ResetCheck(t, a, password)];
    now := OneMoreTurn(now, all, Commit(t));
    all := all + [Commit(t)];
  }

  /** A reset that was overtaken twice lowers the version: a cookie that was dead signs in again. */
  lemma OvertakenResetRevivesACookie(a: User, b: User, p: string, q: string, r: string)
    returns (states: seq<State>, steps: seq<Turn>)
    requires Resettable(a, b) && p != [] && q != [] && r != []
    ensures |states| == 7 && Interleaving(states, steps) && states[0].users == map[0 := a, 1 := b]
    ensures states[3].users == Users2(a, b, q, b.version + 1) && states[5].users == Users2(a, b, r, b.version + 2)
    ensures states[6].users == Users2(a, b, p, b.version + 1)
    ensures var cookie := Cookie(b.username, b.version + 1);
      && SignedIn(states[3].users, cookie, 1) && !SignedIn(states[5].users, cookie, 1)
      && SignedIn(states[6].users, cookie, 1)
  {
    hide Enabled, Apply, Interleaving, SignedIn, Resettable, Accepts;
    var s0 := State(Users2(a, b, b.secret, b.version), map[]);
    assert s0.users == map[0 := a, 1 := b];
    hide Users2;
    states, steps := [s0], [];
    ResetChecks(s0, 0, a, b, b.secret, b.version, p);
    NoTurns(s0);
    states := OneMoreTurn(states, steps, ResetCheck(0, a, p));
    steps := steps + [ResetCheck(0, a, p)];
    states, steps := OneMoreReset(states, steps, 1, a, b, b.secret, b.version, q);
    states, steps := OneMoreReset(states, steps, 2, a, b, q, b.version + 1, r);
    ResetCommits(states[5], 0, a, b, r, b.version + 2, p, b.version);
    states := OneMoreTurn(states, steps, Commit(0));
    steps := steps + [Commit(0)];
    OneCookieSignsIn(a, b, q, b.version + 1, b.version + 1);
    OneCookieSignsIn(a, b, r, b.version + 2, b.version + 1);
    OneCookieSignsIn(a, b, p, b.version + 1, b.version + 1);
  }

  // ---------------------------------------------------------------- roles

  /** Every check before `i` is by a user without the roles for accounts. */
  ghost predicate PowerlessChecks(states: seq<State>, steps: seq<Turn>, i: nat) {
    forall k :: 0 <= k < i && k < |steps| && k < |states| && steps[k].Check? && steps[k].me in states[k].users ==>
      StoredRoles(states[k].users[steps[k].me].roles) !! {GlobalAdmin, AccountUpdate, ResetPassword}
  }

  /** User `id` passed the check of a change of the own password. */
  ghost predicate AskedBefore(steps: seq<Turn>, i: nat, id: nat) {
    exists k :: 0 <= k < i && k < |steps| && steps[k].Check? && steps[k].request.ChangeOwn? && steps[k].me == id
  }

  /** Interleaved or not: while nobody who acts has one of these roles, no account appears or disappears, and each
      row stays as it is up to password changes by its own user. */
  lemma PowerlessInterleaving(states: seq<State>, steps: seq<Turn>, i: nat, id: nat)
    requires Interleaving(states, steps) && i < |states|
    requires forall k :: 0 <= k < i && k < |steps| && steps[k].Check? && steps[k].me in states[k].users ==>
      StoredRoles(states[k].users[steps[k].me].roles) !! {GlobalAdmin, AccountUpdate, ResetPassword}
    ensures id in states[i].users <==> id in states[0].users
    ensures id in states[0].users ==> var before, now := states[0].users[id], states[i].users[id];
      && now.username == before.username && now.roles == before.roles && now.disabled == before.disabled
      && (now == before || exists k ::
            0 <= k < i && k < |steps| && steps[k].Check? && steps[k].request.ChangeOwn? && steps[k].me == id)
  {
    assert PowerlessChecks(states, steps, i);
    hide PowerlessChecks, StoredRoles, Interleaving;
    AlwaysPowerless(states, steps, i);
  }

  lemma {:induction false} AlwaysPowerless(states: seq<State>, steps: seq<Turn>, i: nat)
    requires Interleaving(states, steps) && i < |states| && PowerlessChecks(states, steps, i)
    ensures states[i].users.Keys == states[0].users.Keys
    ensures forall id :: id in states[0].users ==>
      SameButPassword(states[0].users[id], states[i].users[id], AskedBefore(steps, i, id))
    ensures forall t :: t in states[i].pending ==>
      states[i].pending[t].request.ChangeOwn? && AskedBefore(steps, i, states[i].pending[t].me)
  {
    hide AskedBefore, Accepts, Write, PowerlessChecks, StoredRoles, SignedIn;
    if i > 0 {
      FewerChecks(states, steps, i);
      AlwaysPowerless(states, steps, i - 1);
      var s, step := states[i - 1], steps[i - 1];
      assert Enabled(s, step) && states[i] == Apply(s, step);
      AskedStill(steps, i);
      if step.Check? {
        PowerlessCheck(states, steps, i);
      } else if step.Commit? {
        OwnPasswordCommit(s.users, s.pending[step.thread]);
      }
    }
  }

  lemma FewerChecks(states: seq<State>, steps: seq<Turn>, i: nat)
    requires i > 0 && PowerlessChecks(states, steps, i)
    ensures PowerlessChecks(states, steps, i - 1)
  {
    hide StoredRoles;
  }

  lemma AskedStill(steps: seq<Turn>, i: nat)
    requires i > 0
    ensures forall id :: AskedBefore(steps, i - 1, id) ==> AskedBefore(steps, i, id)
  {
  }

  lemma PowerlessCheck(states: seq<State>, steps: seq<Turn>, i: nat)
    requires 0 < i <= |steps| && i <= |states| && PowerlessChecks(states, steps, i) && steps[i - 1].Check?
    requires Enabled(states[i - 1], steps[i - 1])
    ensures steps[i - 1].request.ChangeOwn? && AskedBefore(steps, i, steps[i - 1].me)
  {
    hide Accepts, StoredRoles;
    AcceptedExactly(states[i - 1].users, steps[i - 1].me, steps[i - 1].request);
  }

  predicate SameButPassword(before: User, now: User, asked: bool) {
    && now.username == before.username && now.roles == before.roles && now.disabled == before.disabled
    && (now == before || asked)
  }

  lemma OwnPasswordCommit(users: Users, p: Pending)
    requires p.request.ChangeOwn?
    ensures Write(users, p).Keys == users.Keys
    ensures forall id :: id in users ==> SameButPassword(users[id], Write(users, p)[id], id == p.me)
  {
  }

  /** Every check is by someone who is no global admin. */
  ghost predicate NonAdminChecks(states: seq<State>, steps: seq<Turn>) {
    forall k :: 0 <= k < |steps| && k < |states| && steps[k].Check? && steps[k].me in states[k].users ==>
      !IsAdmin(states[k].users[steps[k].me])
  }

  function NewSensitive(form: seq<string>): set<Role> { Normalized(Known(form)) * SENSITIVE }

  /** A pending request that neither changes a global admin's row nor makes a global admin. */
  predicate Harmless(users: Users, p: Pending) {
    && (!p.request.Create? ==> TargetOf(p) in users ==> !IsAdmin(users[TargetOf(p)]))
    && (p.request.Create? ==> NewSensitive(p.request.form) == {})
    && (p.request.SetRoles? ==> GlobalAdmin !in NewSensitive(p.request.form))
  }

  lemma StoredSensitive(form: seq<string>)
    ensures StoredRoles(NewRoles(form)) * SENSITIVE == NewSensitive(form)
  {
    AssignedRoles(Known(form));
  }

  /** What a check by someone who is no global admin lets through. */
  lemma NonAdminCheck(users: Users, me: nat, request: Request)
    requires me in users && Accepts(users, me, request) && !IsAdmin(users[me])
    ensures Harmless(users, Checked(users, me, request))
    ensures request.SetRoles? ==> request.id in users && NewSensitive(request.form) == Sensitive(users[request.id])
  {
    hide Satisfies, Normalized, Known, StoredRoles, Strip, IsAdmin;
    if request.Create? || request.SetRoles? {
      NormalizedIsLeastClosed(Known(request.form), {});
      AssignableKeepsSensitive(Normalized(Known(request.form)),
        if request.Create? then {} else StoredRoles(users[request.id].roles));
    }
    if request.SetRoles? {
      AdminIsSensitive(users[request.id]);
    }
    hide Assignable;
  }

  lemma HarmlessCommit(users: Users, p: Pending)
    requires Harmless(users, p)
    ensures Admins(Write(users, p)) == Admins(users)
    ensures forall x :: x in Admins(users) ==> x in Write(users, p) && Write(users, p)[x] == users[x]
  {
    if p.request.Create? || p.request.SetRoles? {
      StoredSensitive(p.request.form);
    }
    hide NewRoles, NewSensitive, StoredRoles, Strip, Known;
    var now, id := Write(users, p), TargetOf(p);
    if id in now {
      AdminIsSensitive(now[id]);
    }
    hide Write;
    forall x ensures x in Admins(now) <==> x in Admins(users) {
      WriteElsewhere(users, p, x);
    }
    forall x | x in Admins(users) ensures x in now && now[x] == users[x] {
      WriteElsewhere(users, p, x);
    }
  }

  lemma WriteElsewhere(users: Users, p: Pending, x: nat)
    ensures x != TargetOf(p) ==>
      (x in users <==> x in Write(users, p)) && (x in users ==> Write(users, p)[x] == users[x])
    ensures p.request.Create? && x in users ==> x in Write(users, p) && Write(users, p)[x] == users[x]
  {
    hide NewRoles, Strip;
  }

  /** Interleaved or not, without a global admin acting the global admins and their rows stay what they were. */
  lemma {:induction false} AdminsConstantInterleaved(states: seq<State>, steps: seq<Turn>, i: nat)
    requires Interleaving(states, steps) && NonAdminChecks(states, steps) && i < |states|
    ensures Admins(states[i].users) == Admins(states[0].users)
    ensures forall x :: x in Admins(states[0].users) ==>
      x in states[i].users && states[i].users[x] == states[0].users[x]
    ensures forall t :: t in states[i].pending ==> Harmless(states[i].users, states[i].pending[t])
  {
    if i > 0 {
      AdminsConstantInterleaved(states, steps, i - 1);
      var s, step := states[i - 1], steps[i - 1];
      assert Enabled(s, step) && states[i] == Apply(s, step);
      hide Write, Harmless, Accepts, IsAdmin, Checked;
      if step.Check? {
        NonAdminCheck(s.users, step.me, step.request);
      } else if step.Commit? {
        HarmlessCommit(s.users, s.pending[step.thread]);
        forall t | t in states[i].pending ensures Harmless(states[i].users, states[i].pending[t]) {
          StillHarmless(s.users, states[i].users, s.pending[t]);
        }
      }
    }
  }

  lemma StillHarmless(users: Users, now: Users, p: Pending)
    requires Harmless(users, p) && Admins(now) == Admins(users)
    ensures Harmless(now, p)
  {
    hide IsAdmin, NewSensitive;
    var id := TargetOf(p);
    assert id in Admins(now) <==> id in Admins(users);
  }

  /** What is stored in row `id`, or pending for it, has the sensitive roles `roles`; new accounts have none. */
  ghost predicate SensitiveAs(s: State, id: nat, roles: set<Role>) {
    && (id in s.users ==> Sensitive(s.users[id]) == roles)
    && (forall t :: t in s.pending && s.pending[t].request.SetRoles? && TargetOf(s.pending[t]) == id ==>
          NewSensitive(s.pending[t].request.form) == roles)
    && (forall t :: t in s.pending && s.pending[t].request.Create? ==> NewSensitive(s.pending[t].request.form) == {})
  }

  lemma SensitiveStep(s: State, step: Turn, id: nat, roles: set<Role>)
    requires SensitiveAs(s, id, roles) && Enabled(s, step)
    requires step.Check? ==> !IsAdmin(s.users[step.me])
    requires roles == {} || (id in s.users && id in Apply(s, step).users)
    ensures SensitiveAs(Apply(s, step), id, roles)
  {
    hide IsAdmin, NewSensitive, Sensitive, Accepts;
    if step.Check? {
      NonAdminCheck(s.users, step.me, step.request);
    } else if step.Commit? {
      SensitiveCommit(s.users, s.pending[step.thread], id);
    }
    hide Write;
  }

  lemma SensitiveCommit(users: Users, p: Pending, id: nat)
    ensures
      var now := Write(users, p);
      id in now ==>
        if id in users && !(p.request.SetRoles? && TargetOf(p) == id) then Sensitive(now[id]) == Sensitive(users[id])
        else if id in users then Sensitive(now[id]) in {Sensitive(users[id]), NewSensitive(p.request.form)}
        else p.request.Create? && Sensitive(now[id]) == NewSensitive(p.request.form)
  {
    if p.request.Create? || p.request.SetRoles? {
      StoredSensitive(p.request.form);
    }
    hide NewRoles, NewSensitive, StoredRoles, Strip;
  }

  /** The sensitive roles of a row that stays do not change, if no change of its roles was pending before. */
  lemma {:induction false} SensitiveRolesKeptInterleaved(states: seq<State>, steps: seq<Turn>, a: nat, j: nat, id: nat)
    requires Interleaving(states, steps) && NonAdminChecks(states, steps) && a <= j < |states|
    requires forall k :: a <= k <= j ==> id in states[k].users
    requires forall t :: t in states[a].pending && states[a].pending[t].request.SetRoles? ==>
      TargetOf(states[a].pending[t]) != id
    ensures Sensitive(states[j].users[id]) == Sensitive(states[a].users[id])
    ensures SensitiveAs(states[j], id, Sensitive(states[a].users[id]))
  {
    hide Sensitive, NewSensitive, IsAdmin, Accepts, Write;
    if j == a {
      PendingCreatesHaveNone(states, steps, a);
    } else {
      SensitiveRolesKeptInterleaved(states, steps, a, j - 1, id);
      assert Enabled(states[j - 1], steps[j - 1]) && states[j] == Apply(states[j - 1], steps[j - 1]);
      SensitiveStep(states[j - 1], steps[j - 1], id, Sensitive(states[a].users[id]));
    }
  }

  /** And an account made on the way has none, if no change of roles for its row id was pending before. */
  lemma {:induction false} NewAccountsHaveNoneInterleaved(states: seq<State>, steps: seq<Turn>, a: nat, j: nat, id: nat)
    requires Interleaving(states, steps) && NonAdminChecks(states, steps) && a <= j < |states| && id !in states[a].users
    requires forall t :: t in states[a].pending && states[a].pending[t].request.SetRoles? ==>
      TargetOf(states[a].pending[t]) != id
    ensures SensitiveAs(states[j], id, {})
    ensures id in states[j].users ==> Sensitive(states[j].users[id]) == {}
  {
    hide Sensitive, NewSensitive, IsAdmin, Accepts, Write;
    if j == a {
      PendingCreatesHaveNone(states, steps, a);
    } else {
      NewAccountsHaveNoneInterleaved(states, steps, a, j - 1, id);
      assert Enabled(states[j - 1], steps[j - 1]) && states[j] == Apply(states[j - 1], steps[j - 1]);
      SensitiveStep(states[j - 1], steps[j - 1], id, {});
    }
  }

  lemma PendingCreatesHaveNone(states: seq<State>, steps: seq<Turn>, a: nat)
    requires Interleaving(states, steps) && NonAdminChecks(states, steps) && a < |states|
    ensures forall t :: t in states[a].pending && states[a].pending[t].request.Create? ==>
      NewSensitive(states[a].pending[t].request.form) == {}
  {
    hide Interleaving, NonAdminChecks, NewSensitive, IsAdmin;
    AdminsConstantInterleaved(states, steps, a);
  }

  lemma NoRolesAssignable()
    ensures Assignable(false, Normalized(Known([])), {}) && NewSensitive([]) == {}
  {
    NormalizedIsLeastClosed({}, MANDATORY);
    NormalizedIsLeastClosed({}, {});
    AssignableKeepsSensitive(Normalized({}), {});
  }

  function One(u: User): (users: Users)
    ensures 0 in users && users[0] == u && 1 !in users
  {
    map[0 := u]
  }

  function Two(u: User, b: User): (users: Users)
    ensures 0 in users && users[0] == u && 1 in users && users[1] == b
  {
    map[0 := u, 1 := b]
  }

  function Disabled(b: User): User { b.(disabled := true, version := b.version + 1) }

  function Made(name: string, password: string): User { User(Strip(name), password, NewRoles([]), false, 0) }

  /** The account in row 1 is disabled and deleted, and another is made in its row. */
  lemma Recreates(u: User, b: User, cookie: Cookie, name: string, password: string)
    requires !IsAdmin(u) && Satisfies(Granted(u), AccountUpdate) && !IsAdmin(b) && !b.disabled
    requires Strip(name) != [] && Strip(name) != u.username && password != []
    requires cookie == Cookie(u.username, u.version) && !u.disabled
    ensures SignedIn(Two(u, b), cookie, 0) && Accepts(Two(u, b), 0, Disable(1))
    ensures Next(Two(u, b), 0, Disable(1)) == Two(u, Disabled(b))
    ensures SignedIn(Two(u, Disabled(b)), cookie, 0) && Accepts(Two(u, Disabled(b)), 0, Delete(1))
    ensures Next(Two(u, Disabled(b)), 0, Delete(1)) == One(u)
    ensures SignedIn(One(u), cookie, 0) && Accepts(One(u), 0, Create(1, name, password, []))
    ensures Next(One(u), 0, Create(1, name, password, [])) == Two(u, Made(name, password))
  {
    NoRolesAssignable();
    hide Known, Normalized, StoredRoles, Effective, SerializeRoles, Strip, Assignable, Satisfies;
  }

  /** The pending change of roles, when it is checked and when it commits. */
  lemma ChangesRoles(u: User, b: User, cookie: Cookie, form: seq<string>, made: User)
    requires SignedIn(Two(u, b), cookie, 0) && Accepts(Two(u, b), 0, SetRoles(1, form)) && NewRoles(form) != b.roles
    ensures
      var change := Pending(0, SetRoles(1, form), b.version, b.roles);
      var s, t := State(Two(u, b), map[]), State(Two(u, made), map[0 := change]);
      && Enabled(s, Check(0, cookie, 0, SetRoles(1, form))) && Enabled(t, Commit(0))
      && Apply(s, Check(0, cookie, 0, SetRoles(1, form))) == State(Two(u, b), map[0 := change])
      && Apply(t, Commit(0)) == State(Two(u, made.(roles := NewRoles(form), version := b.version + 1)), map[])
  {
    hide Accepts, NewRoles;
  }

  function RecreatingTurns(cookie: Cookie, name: string, password: string): (steps: seq<Turn>)
    ensures |steps| == 6
  {
    [Check(1, cookie, 0, Disable(1)), Commit(1), Check(1, cookie, 0, Delete(1)), Commit(1),
     Check(1, cookie, 0, Create(1, name, password, [])), Commit(1)]
  }

  ghost predicate Follow(states: seq<State>, steps: seq<Turn>) {
    && |states| == |steps| + 1
    && forall i :: 0 <= i < |steps| ==> Enabled(states[i], steps[i]) && states[i + 1] == Apply(states[i], steps[i])
  }

  /** The six turns of that, while something else is pending. */
  lemma RecreatesInTurns(u: User, b: User, cookie: Cookie, pending: map<nat, Pending>, name: string, password: string)
    returns (states: seq<State>)
    requires !IsAdmin(u) && Satisfies(Granted(u), AccountUpdate) && !IsAdmin(b) && !b.disabled && 1 !in pending
    requires Strip(name) != [] && Strip(name) != u.username && password != []
    requires cookie == Cookie(u.username, u.version) && !u.disabled
    ensures |states| == 7 && states[0] == State(Two(u, b), pending) && states[4].users == One(u)
    ensures states[6] == State(Two(u, Made(name, password)), pending)
    ensures forall k :: 0 <= k < 6 ==> 0 in states[k].users && states[k].users[0] == u
    ensures Follow(states, RecreatingTurns(cookie, name, password))
  {
    hide Enabled, Apply, Strip, Satisfies, Accepts, SignedIn, Next, Granted, Made, IsAdmin, One, Two, Disabled;
    Recreates(u, b, cookie, name, password);
    var s0, s2 := State(Two(u, b), pending), State(Two(u, Disabled(b)), pending);
    var s4, s6 := State(One(u), pending), State(Two(u, Made(name, password)), pending);
    var s1 := Uninterrupted(s0, 1, cookie, 0, Disable(1));
    var s3 := Uninterrupted(s2, 1, cookie, 0, Delete(1));
    var s5 := Uninterrupted(s4, 1, cookie, 0, Create(1, name, password, []));
    states := [s0, s1, s2, s3, s4, s5, s6];
  }

  /** Turns between a first and a last one make a run. */
  lemma Enclose(first: State, step: Turn, states: seq<State>, steps: seq<Turn>, step': Turn, last: State)
    requires first.pending == map[] && Follow(states, steps)
    requires Enabled(first, step) && Apply(first, step) == states[0]
    requires Enabled(states[|steps|], step') && Apply(states[|steps|], step') == last
    ensures Interleaving([first] + states + [last], [step] + steps + [step'])
  {
    hide Enabled, Apply, Follow;
    var now, all := [first] + states + [last], [step] + steps + [step'];
    FollowLength(states, steps);
    forall k | 0 <= k < |all| ensures Enabled(now[k], all[k]) && now[k + 1] == Apply(now[k], all[k]) {
      if 0 < k <= |steps| {
        FollowAt(states, steps, k - 1);
        assert now[k] == states[k - 1] && now[k + 1] == states[k] && all[k] == steps[k - 1];
      } else {
        assert k == 0 || k == |steps| + 1;
      }
    }
  }

  lemma FollowLength(states: seq<State>, steps: seq<Turn>)
    requires Follow(states, steps)
    ensures |states| == |steps| + 1
  {
  }

  lemma FollowAt(states: seq<State>, steps: seq<Turn>, k: nat)
    requires Follow(states, steps) && k < |steps|
    ensures |states| == |steps| + 1 && Enabled(states[k], steps[k]) && states[k + 1] == Apply(states[k], steps[k])
  {
    hide Enabled, Apply;
  }

  lemma RolesOf(u: User, b: User, form: seq<string>)
    requires !IsAdmin(u) && Accepts(Two(u, b), 0, SetRoles(1, form))
    ensures Satisfies(Granted(u), AccountUpdate) && !IsAdmin(b) && !b.disabled
    ensures StoredRoles(NewRoles([])) * SENSITIVE == {} && StoredRoles(NewRoles(form)) * SENSITIVE == Sensitive(b)
  {
    hide Known, Normalized, StoredRoles, Effective, NewRoles, Assignable, Satisfies, NewSensitive, SENSITIVE;
    NoRolesAssignable();
    StoredSensitive([]);
    StoredSensitive(form);
    NonAdminCheck(Two(u, b), 0, SetRoles(1, form));
  }

  /** That condition matters: a change of roles still pending when its row is deleted, and the row id given to a
      new account without sensitive roles, brings the new account those of the old one. */
  lemma ReusedIdInheritsRoles(u: User, b: User, form: seq<string>, name: string, password: string)
    returns (states: seq<State>, steps: seq<Turn>)
    requires !IsAdmin(u) && !u.disabled && u.username != b.username
    requires Accepts(Two(u, b), 0, SetRoles(1, form)) && NewRoles(form) != b.roles
    requires Strip(name) != [] && Strip(name) != u.username && password != []
    ensures Interleaving(states, steps) && |states| == 9 && states[0].users == Two(u, b)
    ensures NonAdminChecks(states, steps)
    ensures states[5].users == One(u) && states[7].users == Two(u, Made(name, password))
    ensures 1 in states[8].users && states[8].users[1].username == Strip(name)
    ensures Sensitive(states[7].users[1]) == {} && Sensitive(states[8].users[1]) == Sensitive(b)
  {
    hide Enabled, Apply, Strip, Satisfies, Accepts, Granted, IsAdmin, NewRoles, StoredRoles, Two, Follow,
      Interleaving, SENSITIVE;
    var made, cookie := Made(name, password), Cookie(u.username, u.version);
    var changed := made.(roles := NewRoles(form), version := b.version + 1);
    RolesOf(u, b, form);
    ChangesRoles(u, b, cookie, form, made);
    var pending := map[0 := Pending(0, SetRoles(1, form), b.version, b.roles)];
    var mid := RecreatesInTurns(u, b, cookie, pending, name, password);
    var change := Check(0, cookie, 0, SetRoles(1, form));
    var turns := RecreatingTurns(cookie, name, password);
    var first, last := State(Two(u, b), map[]), State(Two(u, changed), map[]);
    Enclose(first, change, mid, turns, Commit(0), last);
    states, steps := [first] + mid + [last], [change] + turns + [Commit(0)];
  }
}
