/** The driver's deferred transmission as a value-level state machine: the shared
    six-value buffer plus the "work pending" bit of its single work item
    (schedule_work, the workqueue running xiaomiff_worker, cancel_work_sync).
    Runs are sequential interleavings of these actions; the worker reads the
    buffer at the moment it runs. */
module Dispatch {
  import opened Rumble

  /** The buffer the worker transmits and whether the work item is queued. */
  datatype Work = Work(buffer: seq<int>, pending: bool)

  predicate WellFormed(w: Work)
  {
    |w.buffer| == MsgLength
  }

  /** What can happen to one session, in some order. */
  datatype Action =
    | Play(effect: RumbleEffect)  // xiaomiff_play: two buffer writes, then schedule_work
    | Schedule                    // schedule_work alone
    | Run                         // the workqueue looks at the work item
    | Cancel                      // cancel_work_sync

  /** The state after some actions and the payloads handed to set-report, in order. */
  datatype Outcome = Outcome(next: Work, sent: seq<seq<int>>)

  /** One action. A queued work item loses its pending bit before the worker
      body runs, and the worker sends the buffer as it is at that time. */
  function Step(w: Work, a: Action): (o: Outcome)
    requires WellFormed(w)
    ensures WellFormed(o.next)
    ensures |o.sent| <= 1
    ensures o.sent != [] <==> a.Run? && w.pending
  {
    match a
    case Play(e) => Outcome(Work(Staged(w.buffer, e), true), [])
    case Schedule => Outcome(w.(pending := true), [])
    case Run => if w.pending then Outcome(w.(pending := false), [w.buffer]) else Outcome(w, [])
    case Cancel => Outcome(w.(pending := false), [])
  }

  /** A sequence of actions, from left to right. */
  function Exec(w: Work, acts: seq<Action>): (o: Outcome)
    requires WellFormed(w)
    ensures WellFormed(o.next)
    decreases |acts|
  {
    if acts == [] then Outcome(w, [])
    else
      var first := Step(w, acts[0]);
      var rest := Exec(first.next, acts[1..]);
      Outcome(rest.next, first.sent + rest.sent)
  }

  /** Running two action sequences one after the other is running their concatenation. */
  lemma {:induction false} ExecAppend(w: Work, a: seq<Action>, b: seq<Action>)
    requires WellFormed(w)
    ensures Exec(w, a + b).next == Exec(Exec(w, a).next, b).next
    ensures Exec(w, a + b).sent == Exec(w, a).sent + Exec(Exec(w, a).next, b).sent
    decreases |a|
  {
    if a == [] {
      assert a + b == b;
    } else {
      assert (a + b)[0] == a[0];
      assert (a + b)[1..] == a[1..] + b;
      ExecAppend(Step(w, a[0]).next, a[1..], b);
    }
  }

  /** The actions of a sequence of play calls. */
  function Plays(effects: seq<RumbleEffect>): (acts: seq<Action>)
    ensures |acts| == |effects|
    ensures forall i :: 0 <= i < |effects| ==> acts[i] == Play(effects[i])
  {
    if effects == [] then [] else [Play(effects[0])] + Plays(effects[1..])
  }

  /** The same action n times. */
  function Repeat(a: Action, n: nat): (acts: seq<Action>)
    ensures |acts| == n
    ensures forall i :: 0 <= i < n ==> acts[i] == a
  {
    if n == 0 then [] else [a] + Repeat(a, n - 1)
  }

  /** Play calls with no run in between transmit nothing, leave the work queued
      once, and leave the last effect's bytes in the buffer. */
  lemma {:induction false} PlaysCoalesce(w: Work, effects: seq<RumbleEffect>)
    requires WellFormed(w) && effects != []
    ensures Exec(w, Plays(effects)) == Outcome(Work(Staged(w.buffer, effects[|effects| - 1]), true), [])
    decreases |effects|
  {
    var first := Step(w, Play(effects[0]));
    assert Plays(effects)[1..] == Plays(effects[1..]);
    if |effects| > 1 {
      PlaysCoalesce(first.next, effects[1..]);
      StagedOverwrites(w.buffer, effects[0], effects[|effects| - 1]);
    }
  }

  /** Once nothing is queued, further runs do nothing. */
  lemma {:induction false} IdleRunsDoNothing(w: Work, n: nat)
    requires WellFormed(w) && !w.pending
    ensures Exec(w, Repeat(Run, n)) == Outcome(w, [])
    decreases n
  {
    if n > 0 {
      assert Repeat(Run, n)[1..] == Repeat(Run, n - 1);
      IdleRunsDoNothing(w, n - 1);
    }
  }

  /** However many runs follow, a pending work item is transmitted exactly once. */
  lemma RunsTransmitOnce(w: Work, n: nat)
    requires WellFormed(w) && w.pending && n >= 1
    ensures Exec(w, Repeat(Run, n)) == Outcome(w.(pending := false), [w.buffer])
  {
    assert Repeat(Run, n)[1..] == Repeat(Run, n - 1);
    IdleRunsDoNothing(w.(pending := false), n - 1);
  }

  /** Last write wins: any number of play calls followed by any number of runs
      give exactly one transmission, and it carries the last call's bytes. */
  lemma LastWriteWins(w: Work, effects: seq<RumbleEffect>, n: nat)
    requires WellFormed(w) && effects != [] && n >= 1
    ensures Exec(w, Plays(effects) + Repeat(Run, n)).sent == [Staged(w.buffer, effects[|effects| - 1])]
    ensures !Exec(w, Plays(effects) + Repeat(Run, n)).next.pending
  {
    ExecAppend(w, Plays(effects), Repeat(Run, n));
    PlaysCoalesce(w, effects);
    RunsTransmitOnce(Work(Staged(w.buffer, effects[|effects| - 1]), true), n);
  }

  /** Scheduling n >= 1 times before the work runs gives one run, not n. */
  lemma {:induction false} SchedulesCoalesce(w: Work, n: nat)
    requires WellFormed(w) && n >= 1
    ensures Exec(w, Repeat(Schedule, n)) == Outcome(w.(pending := true), [])
    decreases n
  {
    assert Repeat(Schedule, n)[1..] == Repeat(Schedule, n - 1);
    if n > 1 {
      SchedulesCoalesce(w.(pending := true), n - 1);
    }
  }

  /** Schedule n >= 1 times, then let the workqueue run m >= 1 times: one
      transmission of the current buffer. */
  lemma ScheduleBurstRunsOnce(w: Work, n: nat, m: nat)
    requires WellFormed(w) && n >= 1 && m >= 1
    ensures Exec(w, Repeat(Schedule, n) + Repeat(Run, m)).sent == [w.buffer]
  {
    ExecAppend(w, Repeat(Schedule, n), Repeat(Run, m));
    SchedulesCoalesce(w, n);
    RunsTransmitOnce(w.(pending := true), m);
  }

  /** After cancel_work_sync nothing is pending, and no run transmits until the
      work is scheduled again. */
  lemma CancelStopsRuns(w: Work, n: nat)
    requires WellFormed(w)
    ensures Exec(w, [Cancel] + Repeat(Run, n)) == Outcome(w.(pending := false), [])
  {
    ExecAppend(w, [Cancel], Repeat(Run, n));
    IdleRunsDoNothing(w.(pending := false), n);
  }

  /** Cancelling twice is cancelling once. */
  lemma CancelIdempotent(w: Work)
    requires WellFormed(w)
    ensures Exec(w, [Cancel, Cancel]) == Exec(w, [Cancel])
  {
    assert [Cancel, Cancel][1..] == [Cancel];
  }

  /** The number of schedule requests (plays and bare schedules) among the actions. */
  function Requests(acts: seq<Action>): (n: nat)
    ensures n <= |acts|
  {
    if acts == [] then 0
    else (if acts[0].Play? || acts[0].Schedule? then 1 else 0) + Requests(acts[1..])
  }

  function Bit(b: bool): nat { if b then 1 else 0 }

  /** Single slot: each transmission, and a run still queued at the end, is paid
      for by a distinct schedule request or by the run queued at the start. */
  lemma {:induction false} AtMostOneRunPerRequest(w: Work, acts: seq<Action>)
    requires WellFormed(w)
    ensures |Exec(w, acts).sent| + Bit(Exec(w, acts).next.pending) <= Bit(w.pending) + Requests(acts)
    decreases |acts|
  {
    if acts != [] {
      AtMostOneRunPerRequest(Step(w, acts[0]).next, acts[1..]);
    }
  }

  /** Every payload the worker sends is a buffer of bytes, provided the buffer
      started as bytes: the zeroed buffer of a fresh session, say. */
  lemma {:induction false} TransmitsOnlyBytes(w: Work, acts: seq<Action>)
    requires WellFormed(w) && AllBytes(w.buffer)
    ensures AllBytes(Exec(w, acts).next.buffer)
    ensures forall k :: 0 <= k < |Exec(w, acts).sent| ==> AllBytes(Exec(w, acts).sent[k])
    decreases |acts|
  {
    if acts != [] {
      var first := Step(w, acts[0]);
      if acts[0].Play? {
        StagedKeepsBytes(w.buffer, acts[0].effect);
      }
      TransmitsOnlyBytes(first.next, acts[1..]);
    }
  }

  /** The worked example: full weak rumble, then full strong rumble, then the
      work runs (twice): one report goes out, with bytes 0 and 255. */
  lemma WeakThenStrongSendsLast(rest: seq<int>)
    requires |rest| == MsgLength - 2
    ensures Exec(Work([0, 0] + rest, false),
                 Plays([RumbleEffect(0, 0xffff), RumbleEffect(0xffff, 0)]) + [Run, Run]).sent
            == [[0, 0xff] + rest]
  {
    var w := Work([0, 0] + rest, false);
    var effects := [RumbleEffect(0, 0xffff), RumbleEffect(0xffff, 0)];
    assert [Run, Run] == Repeat(Run, 2);
    LastWriteWins(w, effects, 2);
    ScaleEdges();
    assert Staged(w.buffer, effects[1]) == [0, 0xff] + rest;
  }
}
