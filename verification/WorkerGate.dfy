/** The check-then-write gates that restore and certificate enrollment share (src/settings_store.py, lines
    123-129; src/backup_service.py, 219-250; src/letsencrypt.py, 173-204): any number of clients of one
    SQLite database interleave their lock, read, write and commit steps. */
module WorkerGate {
  import opened Basics
  import opened Text

  datatype Gate = RestoreGate | EnrollmentGate

  /** A gate's progress row; one that cannot be decrypted or parsed reads as idle. */
  datatype Row = Absent | Unreadable | Progress(phase: string, done: bool)

  /** `_restore_is_running`, `_enrollment_is_running`. */
  predicate Running(row: Row) {
    row.Progress? && !row.done && Lower(Strip(if row.phase == [] then "idle" else row.phase)) !in {"", "idle"}
  }

  const STARTING := Progress("starting", false)

  /** What the client inside a write transaction does next. The first three are `try_begin_...`, between
      BEGIN IMMEDIATE and its commit or rollback; Putting is any other write of a progress row. */
  datatype Stage = Reading(gate: Gate) | Clear(gate: Gate) | Marked(gate: Gate) | Putting(gate: Gate, row: Row)

  datatype Lock = Free | Held(client: nat, stage: Stage)

  /** A committed write of one gate's row; `begin` when it is a successful begin. */
  datatype Commit = Commit(gate: Gate, row: Row, begin: bool)

  datatype State = State(rows: map<Gate, Row>, lock: Lock, log: seq<Commit>)

  datatype Step =
    | BeginImmediate(client: nat, gate: Gate) | Read | Write | CommitBegin
    | PutLock(client: nat, gate: Gate, row: Row) | CommitPut
    | Abort

  predicate Enabled(s: State, step: Step) {
    match step
    case BeginImmediate(_, _) => s.lock.Free?
    case Read => s.lock.Held? && s.lock.stage.Reading? && s.lock.stage.gate in s.rows
    case Write => s.lock.Held? && s.lock.stage.Clear?
    case CommitBegin => s.lock.Held? && s.lock.stage.Marked?
    case PutLock(_, _, _) => s.lock.Free?
    case CommitPut => s.lock.Held? && s.lock.stage.Putting?
    case Abort => s.lock.Held?
  }

  function Apply(s: State, step: Step): State
    requires Enabled(s, step)
  {
    match step
    case BeginImmediate(c, gate) => s.(lock := Held(c, Reading(gate)))
    case Read =>
      if Running(s.rows[s.lock.stage.gate]) then s.(lock := Free)
      else s.(lock := Held(s.lock.client, Clear(s.lock.stage.gate)))
    case Write => s.(lock := Held(s.lock.client, Marked(s.lock.stage.gate)))
    case CommitBegin =>
      var gate := s.lock.stage.gate;
      State(s.rows[gate := STARTING], Free, s.log + [Commit(gate, STARTING, true)])
    case PutLock(c, gate, row) => s.(lock := Held(c, Putting(gate, row)))
    case CommitPut =>
      var put := s.lock.stage;
      State(s.rows[put.gate := put.row], Free, s.log + [Commit(put.gate, put.row, false)])
    case Abort => s.(lock := Free)
  }

  /** The row that a log of commits leaves. */
  function RowAfter(initial: Row, log: seq<Commit>, gate: Gate): Row {
    if log == [] then initial
    else if log[|log| - 1].gate == gate then log[|log| - 1].row
    else RowAfter(initial, log[..|log| - 1], gate)
  }

  /** Every begin finds its gate idle; a client past the check still does. */
  ghost predicate Inv(initial: Row, gate: Gate, s: State) {
    && gate in s.rows && s.rows[gate] == RowAfter(initial, s.log, gate)
    && (s.lock.Held? && (s.lock.stage.Clear? || s.lock.stage.Marked?) && s.lock.stage.gate == gate ==>
          !Running(s.rows[gate]))
    && (forall j :: 0 <= j < |s.log| && s.log[j].begin ==> s.log[j].row == STARTING)
    && (forall j :: 0 <= j < |s.log| && s.log[j].begin && s.log[j].gate == gate ==>
          !Running(RowAfter(initial, s.log[..j], gate)))
  }

  lemma InvStep(initial: Row, gate: Gate, s: State, step: Step)
    requires Inv(initial, gate, s) && Enabled(s, step)
    ensures Inv(initial, gate, Apply(s, step))
  {
    hide Running, Inv, RowAfter;
    Passed(initial, gate, s);
    if step.CommitBegin? || step.CommitPut? {
      var t := Apply(s, step);
      InvCommit(initial, gate, s, t, t.log[|s.log|]);
    } else {
      InvQuiet(initial, gate, s, Apply(s, step));
    }
  }

  lemma Passed(initial: Row, gate: Gate, s: State)
    requires Inv(initial, gate, s)
    ensures gate in s.rows
    ensures s.lock.Held? && (s.lock.stage.Clear? || s.lock.stage.Marked?) && s.lock.stage.gate == gate ==>
      !Running(s.rows[gate])
  {
    hide Running, RowAfter;
  }

  lemma InvQuiet(initial: Row, gate: Gate, s: State, t: State)
    requires Inv(initial, gate, s) && t.rows == s.rows && t.log == s.log
    requires t.lock.Held? && (t.lock.stage.Clear? || t.lock.stage.Marked?) && t.lock.stage.gate == gate ==>
      !Running(s.rows[gate])
    ensures Inv(initial, gate, t)
  {
    hide Running, RowAfter;
  }

  lemma InvCommit(initial: Row, gate: Gate, s: State, t: State, next: Commit)
    requires Inv(initial, gate, s) && t.lock.Free?
    requires t.log == s.log + [next] && t.rows == s.rows[next.gate := next.row]
    requires next.begin ==> next.row == STARTING && (next.gate == gate ==> !Running(s.rows[gate]))
    ensures Inv(initial, gate, t)
  {
    hide Running, RowAfter;
    LogNext(initial, gate, s.log, next);
  }

  lemma LogNext(initial: Row, gate: Gate, log: seq<Commit>, next: Commit)
    ensures RowAfter(initial, log + [next], gate) ==
      if next.gate == gate then next.row else RowAfter(initial, log, gate)
    ensures forall j :: 0 <= j <= |log| ==> (log + [next])[..j] == log[..j]
    ensures (log + [next])[..|log|] == log
  {
  }

  ghost predicate Run(states: seq<State>, steps: seq<Step>) {
    && |states| == |steps| + 1 && states[0].lock.Free? && states[0].log == [] && (forall gate :: gate in states[0].rows)
    && forall i :: 0 <= i < |steps| ==> Enabled(states[i], steps[i]) && states[i + 1] == Apply(states[i], steps[i])
  }

  lemma {:induction false} Reachable(states: seq<State>, steps: seq<Step>, gate: Gate, i: nat)
    requires Run(states, steps) && i < |states|
    ensures Inv(states[0].rows[gate], gate, states[i])
  {
    hide Enabled, Apply;
    if i > 0 {
      Reachable(states, steps, gate, i - 1);
      InvStep(states[0].rows[gate], gate, states[i - 1], steps[i - 1]);
    } else {
      hide Running;
    }
  }

  /** A running row stays running until a write that ends it. */
  lemma {:induction false} EndedBetween(initial: Row, log: seq<Commit>, gate: Gate, i: nat, j: nat) returns (k: nat)
    requires i < j <= |log| && log[i].gate == gate && Running(log[i].row)
    requires !Running(RowAfter(initial, log[..j], gate))
    ensures i < k < j && log[k].gate == gate && !Running(log[k].row)
  {
    hide Running;
    var last := log[..j][j - 1];
    if last.gate == gate {
      k := j - 1;
    } else {
      assert log[..j][..j - 1] == log[..j - 1];
      k := EndedBetween(initial, log, gate, i, j - 1);
    }
  }

  /** Between any two successful begins of one gate there is a terminal or clearing write, whatever the
      clients interleave; and no begin succeeds while the row says running. */
  lemma BeginsAreSeparated(states: seq<State>, steps: seq<Step>, gate: Gate, s: nat, i: nat, j: nat) returns (k: nat)
    requires Run(states, steps) && s < |states| && i < j < |states[s].log|
    requires states[s].log[i].gate == gate && states[s].log[i].begin
    requires states[s].log[j].gate == gate && states[s].log[j].begin
    ensures i < k < j && states[s].log[k].gate == gate && !states[s].log[k].begin && !Running(states[s].log[k].row)
    ensures !Running(RowAfter(states[0].rows[gate], states[s].log[..j], gate))
  {
    Reachable(states, steps, gate, s);
    StartingRuns();
    hide Running;
    k := EndedBetween(states[0].rows[gate], states[s].log, gate, i, j);
  }

  lemma StartingRuns()
    ensures Running(STARTING)
  {
    StripFixes("starting");
  }

  /** A begin, or another write, left the gate running and nothing was written to it since. */
  ghost predicate LeftRunning(initial: Row, log: seq<Commit>, gate: Gate) {
    || (Running(initial) && forall k :: 0 <= k < |log| ==> log[k].gate != gate)
    || (exists k :: LastOf(log, gate, k) && Running(log[k].row))
  }

  predicate LastOf(log: seq<Commit>, gate: Gate, k: int) {
    0 <= k < |log| && log[k].gate == gate && forall l :: k < l < |log| ==> log[l].gate != gate
  }

  lemma {:induction false} RowAfterIsLastWrite(initial: Row, log: seq<Commit>, gate: Gate)
    ensures Running(RowAfter(initial, log, gate)) <==> LeftRunning(initial, log, gate)
  {
    hide Running;
    if log != [] {
      var before, last := log[..|log| - 1], log[|log| - 1];
      RowAfterIsLastWrite(initial, before, gate);
      if last.gate == gate {
        assert LastOf(log, gate, |log| - 1);
      } else {
        assert forall k :: 0 <= k < |before| ==> before[k] == log[k];
        if k :| LastOf(before, gate, k) && Running(before[k].row) {
          assert LastOf(log, gate, k) && Running(log[k].row);
        }
        if k :| LastOf(log, gate, k) && Running(log[k].row) {
          assert LastOf(before, gate, k) && Running(before[k].row);
        }
      }
    }
  }

  /** A begin is refused exactly while the gate was left running: by a begin whose worker has written no end,
      by another running row, or by the row found at the start. */
  lemma RefusedExactlyWhileRunning(states: seq<State>, steps: seq<Step>, i: nat)
    requires Run(states, steps) && i < |steps| && steps[i].Read?
    ensures var gate := states[i].lock.stage.gate;
      states[i + 1].lock.Free? <==> LeftRunning(states[0].rows[gate], states[i].log, gate)
  {
    var gate := states[i].lock.stage.gate;
    Reachable(states, steps, gate, i);
    RowAfterIsLastWrite(states[0].rows[gate], states[i].log, gate);
    hide Running, LeftRunning, RowAfter;
  }
  /** Running means: not done, and in a phase that is neither blank nor "idle" in any case. */
  lemma RunningExactly(row: Row)
    ensures Running(row) <==> row.Progress? && !row.done && Strip(row.phase) != [] && Lower(Strip(row.phase)) != "idle"
  {
    StripFixes("idle");
    assert Lower("idle") == "idle";
  }

  /** A begin that nobody interrupts succeeds exactly on a gate that is not running: it leaves the starting row and
      logs a begin; on a running gate it changes nothing. */
  lemma BeginUninterrupted(s: State, client: nat, gate: Gate)
    requires s.lock.Free? && gate in s.rows
    ensures Enabled(s, BeginImmediate(client, gate)) && Enabled(Apply(s, BeginImmediate(client, gate)), Read)
    ensures var t := Apply(Apply(s, BeginImmediate(client, gate)), Read);
      if Running(s.rows[gate]) then t == s
      else
        && Enabled(t, Write) && Enabled(Apply(t, Write), CommitBegin)
        && var row := Progress("starting", false);
           Apply(Apply(t, Write), CommitBegin) == State(s.rows[gate := row], Free, s.log + [Commit(gate, row, true)])
  {
    hide Running;
  }

  /** Another write, uninterrupted, leaves its row; and while a client holds the lock nobody else begins or writes. */
  lemma PutUninterrupted(s: State, client: nat, gate: Gate, row: Row)
    ensures s.lock.Free? ==>
      && Enabled(s, PutLock(client, gate, row)) && Enabled(Apply(s, PutLock(client, gate, row)), CommitPut)
      && Apply(Apply(s, PutLock(client, gate, row)), CommitPut) ==
         State(s.rows[gate := row], Free, s.log + [Commit(gate, row, false)])
    ensures s.lock.Held? ==> !Enabled(s, BeginImmediate(client, gate)) && !Enabled(s, PutLock(client, gate, row))
  {
  }
}
