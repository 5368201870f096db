/** The account handlers as they interleave: each first reads and passes its guards, and later commits what it
    changed (src/routes/settings_users.py, lines 39-544). */
module AccountInterleaving {
  import opened Basics
  import opened Text
  import opened Roles
  import opened Accounts

  /** A request past its guards: its actor's row, and what it read of the row it changes. */
  datatype Pending = Pending(me: nat, request: Request, version: nat, roles: string)

  datatype State = State(users: Users, pending: map<nat, Pending>)

  /** The threads serving requests check, and then commit or give up. A check stands for all that a handler
      reads, at one moment: a request overlaps another from its session check to its commit. */
  datatype Turn =
    | Check(thread: nat, cookie: Cookie, me: nat, request: Request)
    | Commit(thread: nat)
    | GiveUp(thread: nat)

  /** The row a request changes. */
  function Target(me: nat, request: Request): nat {
    match request
    case ChangeOwn(_, _, _) => me
    case _ => request.id
  }

  function TargetOf(p: Pending): nat { Target(p.me, p.request) }

  /** The text a change of roles stores. */
  function NewRoles(form: seq<string>): string { SerializeRoles(Normalized(Known(form))) }

  /** The commit writes the columns whose value differs from the one read, if the row is still there; a taken
      name or id fails. */
  function Write(users: Users, p: Pending): Users {
    var id := TargetOf(p);
    if p.request.Create? then
      if id in users || exists i :: i in users && users[i].username == Strip(p.request.username) then users
      else users[id := User(Strip(p.request.username), p.request.password, NewRoles(p.request.form), false, 0)]
    else if id !in users then users
    else
      match p.request
      case ChangeOwn(_, password, _) => users[id := users[id].(secret := password, version := p.version + 1)]
      case Disable(_) => users[id := users[id].(disabled := true, version := p.version + 1)]
      case Enable(_) => users[id := users[id].(disabled := false)]
      case Delete(_) => users - {id}
      case Reset(_, password, _) => users[id := users[id].(secret := password, version := p.version + 1)]
      case SetRoles(_, form) =>
        var roles := if NewRoles(form) == p.roles then users[id].roles else NewRoles(form);
        users[id := users[id].(roles := roles, version := p.version + 1)]
  }

  /** What a check keeps of a request. */
  function Checked(users: Users, me: nat, request: Request): Pending {
    var id := Target(me, request);
    if id in users then Pending(me, request, users[id].version, users[id].roles) else Pending(me, request, 0, "")
  }

  predicate Enabled(s: State, step: Turn) {
    match step
    case Check(t, cookie, me, request) =>
      t !in s.pending && SignedIn(s.users, cookie, me) && Accepts(s.users, me, request)
    case Commit(t) => t in s.pending
    case GiveUp(t) => t in s.pending
  }

  function Apply(s: State, step: Turn): State
    requires Enabled(s, step)
  {
    match step
    case Check(t, _, me, request) => s.(pending := s.pending[t := Checked(s.users, me, request)])
    case Commit(t) => State(Write(s.users, s.pending[t]), s.pending - {t})
    case GiveUp(t) => s.(pending := s.pending - {t})
  }

  ghost predicate Interleaving(states: seq<State>, steps: seq<Turn>) {
    && |states| == |steps| + 1 && states[0].pending == map[]
    && forall i :: 0 <= i < |steps| ==> Enabled(states[i], steps[i]) && states[i + 1] == Apply(states[i], steps[i])
  }

  /** A commit right after its check is the atomic step. */
  lemma UninterruptedIsAtomic(users: Users, me: nat, request: Request)
    requires me in users && Accepts(users, me, request)
    ensures Write(users, Checked(users, me, request)) == Next(users, me, request)
  {
    hide Satisfies, Granted, Assignable, SerializeRoles, Normalized, Known, Strip;
  }

  // ---------------------------------------------------------------- global admins

  ghost predicate AnAdmin(users: Users) {
    exists x :: EnabledAdmin(users, x)
  }

  /** The commit ends its target's being an enabled global admin, if it is one. */
  predicate Removes(p: Pending) {
    p.request.Disable? || p.request.Delete?
    || (p.request.SetRoles? && GlobalAdmin !in Known(p.request.form) && NewRoles(p.request.form) != p.roles)
  }

  predicate Targeted(s: State, x: nat) {
    exists t :: t in s.pending && Removes(s.pending[t]) && TargetOf(s.pending[t]) == x
  }

  /** Some enabled global admin is the target of no pending removal. */
  ghost predicate AnUntargetedAdmin(s: State) {
    exists x :: EnabledAdmin(s.users, x) && !Targeted(s, x)
  }

  lemma AssignedAdmin(form: seq<string>)
    ensures GlobalAdmin in Known(form) <==> GlobalAdmin in Effective(StoredRoles(NewRoles(form)))
  {
    AssignedRoles(Known(form));
    NormalizedIsLeastClosed(Known(form), {});
    EveryRole(GlobalAdmin);
    hide SerializeRoles, Normalized, Known, StoredRoles;
  }

  /** A commit takes the status of enabled global admin from nobody but the target of a removal, ... */
  lemma OthersKeepAdmins(users: Users, p: Pending, x: nat)
    requires EnabledAdmin(users, x) && (!Removes(p) || x != TargetOf(p))
    ensures EnabledAdmin(Write(users, p), x)
  {
    hide NewRoles, Known, Strip, StoredRoles, Effective;
    if p.request.SetRoles? {
      AssignedAdmin(p.request.form);
    }
  }

  /** ... which loses it, and nobody else gains it. */
  lemma RemovalRemoves(users: Users, p: Pending, x: nat)
    requires Removes(p) && EnabledAdmin(Write(users, p), x)
    ensures EnabledAdmin(users, x) && x != TargetOf(p)
  {
    hide NewRoles, Known, Strip, StoredRoles, Effective;
    if p.request.SetRoles? {
      AssignedAdmin(p.request.form);
    }
  }

  /** A way the pending requests may finish, without new ones: each step commits or gives up one. */
  ghost predicate Finishing(s: State, steps: seq<Turn>)
    decreases |steps|
  {
    steps != [] ==> !steps[0].Check? && Enabled(s, steps[0]) && Finishing(Apply(s, steps[0]), steps[1..])
  }

  ghost function Finish(s: State, steps: seq<Turn>): State
    requires Finishing(s, steps)
    decreases |steps|
  {
    if steps == [] then s else Finish(Apply(s, steps[0]), steps[1..])
  }

  lemma UntargetedStays(s: State, step: Turn, x: nat)
    requires EnabledAdmin(s.users, x) && !Targeted(s, x) && Enabled(s, step) && !step.Check?
    ensures EnabledAdmin(Apply(s, step).users, x) && !Targeted(Apply(s, step), x)
  {
    hide EnabledAdmin, Write, Removes, TargetOf;
    if step.Commit? {
      OthersKeepAdmins(s.users, s.pending[step.thread], x);
    }
  }

  lemma {:induction false} UntargetedSurvives(s: State, steps: seq<Turn>, x: nat)
    requires EnabledAdmin(s.users, x) && !Targeted(s, x) && Finishing(s, steps)
    ensures EnabledAdmin(Finish(s, steps).users, x)
    decreases |steps|
  {
    hide EnabledAdmin, Targeted, Apply, Enabled;
    if steps != [] {
      UntargetedStays(s, steps[0], x);
      UntargetedSurvives(Apply(s, steps[0]), steps[1..], x);
    }
  }

  /** Committing every pending removal leaves no enabled global admin that one of them targeted. */
  lemma {:induction false} CommitRemovals(s: State, threads: set<nat>) returns (steps: seq<Turn>)
    requires forall t :: t in threads ==> t in s.pending && Removes(s.pending[t])
    ensures Finishing(s, steps)
    ensures forall x :: EnabledAdmin(Finish(s, steps).users, x) ==>
      EnabledAdmin(s.users, x) && forall t :: t in threads ==> TargetOf(s.pending[t]) != x
    decreases threads
  {
    hide EnabledAdmin, Write, Removes, TargetOf;
    if threads == {} {
      steps := [];
    } else {
      var t :| t in threads;
      var next := Apply(s, Commit(t));
      var rest := CommitRemovals(next, threads - {t});
      steps := [Commit(t)] + rest;
      assert steps[1..] == rest;
      forall x | EnabledAdmin(Finish(s, steps).users, x)
        ensures EnabledAdmin(s.users, x) && forall u :: u in threads ==> TargetOf(s.pending[u]) != x
      {
        RemovalRemoves(s.users, s.pending[t], x);
        assert forall u :: u in threads ==> u == t || u in threads - {t};
      }
    }
  }

  /** However the pending requests finish, in any order, an enabled global admin remains exactly when one is
      the target of no pending removal. */
  lemma AdminRemainsIffUntargeted(s: State)
    ensures AnUntargetedAdmin(s) <==> forall steps :: Finishing(s, steps) ==> AnAdmin(Finish(s, steps).users)
  {
    hide EnabledAdmin, Finishing, Finish, Removes, TargetOf;
    if AnUntargetedAdmin(s) {
      var x :| EnabledAdmin(s.users, x) && !Targeted(s, x);
      forall steps | Finishing(s, steps) ensures AnAdmin(Finish(s, steps).users) {
        UntargetedSurvives(s, steps, x);
      }
    } else {
      var removals := set t | t in s.pending && Removes(s.pending[t]);
      var steps := CommitRemovals(s, removals);
      assert !AnAdmin(Finish(s, steps).users);
    }
  }

  lemma UntargetedStep(s: State, step: Turn)
    requires AnUntargetedAdmin(s) && Enabled(s, step)
    ensures AnAdmin(Apply(s, step).users) && (!step.Check? ==> AnUntargetedAdmin(Apply(s, step)))
  {
    hide EnabledAdmin, Targeted, Write, Accepts, SignedIn;
    var x :| EnabledAdmin(s.users, x) && !Targeted(s, x);
    if !step.Check? {
      UntargetedStays(s, step, x);
    }
  }

  /** In a run, one remains at every moment if every check leaves one untargeted. */
  lemma {:induction false} AdminRemainsInRun(states: seq<State>, steps: seq<Turn>, i: nat)
    requires Interleaving(states, steps) && i < |states| && AnAdmin(states[0].users)
    requires forall k :: 0 <= k < i && steps[k].Check? ==> AnUntargetedAdmin(states[k + 1])
    ensures AnAdmin(states[i].users) && AnUntargetedAdmin(states[i])
  {
    hide Enabled, Apply, EnabledAdmin, AnUntargetedAdmin;
    if i == 0 {
      NobodyTargeted(states[0]);
    } else {
      AdminRemainsInRun(states, steps, i - 1);
      UntargetedStep(states[i - 1], steps[i - 1]);
    }
  }

  lemma NobodyTargeted(s: State)
    requires s.pending == map[] && AnAdmin(s.users)
    ensures AnUntargetedAdmin(s)
  {
    hide EnabledAdmin;
    var x :| EnabledAdmin(s.users, x);
    assert !Targeted(s, x);
  }

  /** At most one removal is between its check and its commit. */
  ghost predicate OneRemoval(s: State) {
    forall t, u :: t in s.pending && u in s.pending && Removes(s.pending[t]) && Removes(s.pending[u]) ==> t == u
  }

  /** The guards leave another admin: an admin's account can only be changed by a different enabled one. */
  lemma CheckLeavesAnother(users: Users, cookie: Cookie, me: nat, request: Request) returns (x: nat)
    requires SignedIn(users, cookie, me) && Accepts(users, me, request) && Removes(Checked(users, me, request))
    requires AnAdmin(users)
    ensures EnabledAdmin(users, x) && x != Target(me, request)
  {
    hide Satisfies, Granted, Assignable, NewRoles, Known, StoredRoles;
    x :| EnabledAdmin(users, x);
    if x == request.id {
      x := me;
    }
  }

  /** A check that leaves no two removals overlapping leaves an admin untargeted. */
  lemma LoneRemovalLeavesOne(s: State, step: Turn)
    requires AnUntargetedAdmin(s) && step.Check? && Enabled(s, step) && OneRemoval(Apply(s, step))
    ensures AnUntargetedAdmin(Apply(s, step))
  {
    hide EnabledAdmin, Removes, Accepts, SignedIn, TargetOf, Checked;
    var now, p := Apply(s, step), Checked(s.users, step.me, step.request);
    if Removes(p) {
      var x := CheckLeavesAnother(s.users, step.cookie, step.me, step.request);
      CheckedTarget(s.users, step.me, step.request);
      assert now.pending[step.thread] == p;
      assert !Targeted(now, x);
    } else {
      var x :| EnabledAdmin(s.users, x) && !Targeted(s, x);
      assert !Targeted(now, x);
    }
  }

  lemma CheckedTarget(users: Users, me: nat, request: Request)
    ensures TargetOf(Checked(users, me, request)) == Target(me, request)
  {
  }

  /** So one remains as long as no two removals overlap. */
  lemma {:induction false} AdminRemainsWithoutOverlap(states: seq<State>, steps: seq<Turn>, i: nat)
    requires Interleaving(states, steps) && i < |states| && AnAdmin(states[0].users)
    requires forall k, t, u ::
      (0 <= k <= i && t in states[k].pending && u in states[k].pending
       && Removes(states[k].pending[t]) && Removes(states[k].pending[u])) ==> t == u
    ensures AnAdmin(states[i].users) && AnUntargetedAdmin(states[i])
  {
    assert OneRemoval(states[i]);
    hide Enabled, Apply, EnabledAdmin, AnUntargetedAdmin, OneRemoval, Removes;
    if i == 0 {
      NobodyTargeted(states[0]);
    } else {
      AdminRemainsWithoutOverlap(states, steps, i - 1);
      UntargetedStep(states[i - 1], steps[i - 1]);
      if steps[i - 1].Check? {
        assert states[(i - 1) + 1] == Apply(states[i - 1], steps[i - 1]) && OneRemoval(states[i]);
        LoneRemovalLeavesOne(states[i - 1], steps[i - 1]);
      }
    }
  }

  /** Two that overlap can leave none: each of two global admins passes the guards before either commits. */
  lemma OverlappingRemovalsLeaveNone(a: User, b: User)
    requires a.username != b.username && IsAdmin(a) && IsAdmin(b) && !a.disabled && !b.disabled
    ensures
      var users := map[0 := a, 1 := b];
      var first := Check(0, Cookie(a.username, a.version), 0, Disable(1));
      var second := Check(1, Cookie(b.username, b.version), 1, Disable(0));
      && UniqueNames(users) && EnabledAdmin(users, 0) && EnabledAdmin(users, 1)
      && exists states: seq<State> ::
           && Interleaving(states, [first, second, Commit(0), Commit(1)])
           && states[0].users == users && !AnAdmin(states[4].users)
  {
    hide StoredRoles, Effective, NewRoles, Known, Strip, Assignable;
    var users := map[0 := a, 1 := b];
    var s0 := State(users, map[]);
    var first := Check(0, Cookie(a.username, a.version), 0, Disable(1));
    var second := Check(1, Cookie(b.username, b.version), 1, Disable(0));
    assert Enabled(s0, first);
    var s1 := Apply(s0, first);
    assert Enabled(s1, second);
    var s2 := Apply(s1, second);
    assert 0 in s2.pending && 1 in s2.pending;
    var s3 := Apply(s2, Commit(0));
    var s4 := Apply(s3, Commit(1));
    assert s4.users.Keys == {0, 1} && s4.users[0].disabled && s4.users[1].disabled;
    var states := [s0, s1, s2, s3, s4];
    assert Interleaving(states, [first, second, Commit(0), Commit(1)]);
  }
}
