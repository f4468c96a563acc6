/**
 The notify stream (`NipcaCameraDevice._notify_listener`) as a state machine.

 The source runs it as an async generator: every `__anext__` that
 `update_motion_sensors` awaits resumes the generator for one pass of its
 outer loop. The pass looks at the response buffer, counts the passes in a
 row that found it empty, drains the lines it holds into the events
 dictionary and yields. Once the count reaches `cycles` the loop ends, and the
 next `__anext__` raises StopAsyncIteration. An exception raised inside the
 generator ends it as well.

 Here a `State` is where the generator stands between two `__anext__` calls
 and an `Attempt` is what one `update_motion_sensors` call does with it:
 either the generator is resumed and the stream delivers a `Poll` (the lines
 the buffer holds, none when it is empty, or the failure the I/O raises), or
 the code around `__anext__` raises before the generator resumes.
 */
module Listener {
  import opened Text
  import Protocol

  /** The exceptions `update_motion_sensors` catches around `__anext__` (StopAsyncIteration is `Stopped`). */
  datatype Failure = TypeError | Timeout | ClientError | RuntimeError

  /** What the stream delivers during one pass. */
  datatype Poll = Ready(lines: seq<string>) | Fail(failure: Failure)

  /**
   One try at `__anext__`. `Resumed`: the generator runs a pass and the
   stream delivers `poll`. `Refused`: the exception is raised before the
   generator resumes, so the generator is left as it was. In the source that
   is a TypeError from the `async_timeout.timeout(10, loop=...)` call itself,
   or the RuntimeError `__anext__` raises on a generator that is already
   running.
   */
  datatype Attempt = Resumed(poll: Poll) | Refused(failure: Failure)

  /** Fresh: created, not yet started. Running: suspended at the `yield`. Exhausted: finished. */
  datatype State = Fresh | Running(cleaned: nat) | Exhausted

  /** How one `__anext__` ends. */
  datatype Outcome = Yielded | Stopped | Raised(failure: Failure)

  /**
   A notify line after `strip()`: empty lines and lines without `=` carry
   nothing; otherwise it sets the text before the first `=` (case kept) to
   the text after it.
   */
  function NotifyLine(raw: string): Option<(string, string)>
  {
    var line := Strip(raw);
    if line != [] && '=' in line then Some(SplitFirst(line)) else None
  }

  /** The notify stream and the status pages split lines alike; only the status pages lower-case the key. */
  lemma NotifyLineMatchesParseLine(raw: string)
    ensures Protocol.ParseLine(raw) == match NotifyLine(raw)
                                      case None => None
                                      case Some(kv) => Some((Lower(kv.0), kv.1))
  {
    if raw == [] {
      assert Strip(raw) == [];
    }
  }

  /** A notify line `k=v` (after stripping, `k` without `=`) carries exactly the pair `(k, v)`. */
  lemma NotifyLineOf(raw: string, k: string, v: string)
    requires Strip(raw) == k + "=" + v && '=' !in k
    ensures NotifyLine(raw) == Some((k, v))
  {
    SplitFirstJoin(k, v);
  }

  function NotifyEntries(lines: seq<string>): (es: seq<Option<(string, string)>>)
    ensures |es| == |lines|
    ensures forall i :: 0 <= i < |lines| ==> es[i] == NotifyLine(lines[i])
  {
    seq(|lines|, i requires 0 <= i < |lines| => NotifyLine(lines[i]))
  }

  /** The events dictionary after one notify line. */
  function ApplyLine(events: map<string, string>, raw: string): map<string, string>
  {
    match NotifyLine(raw)
    case None => events
    case Some(kv) => events[kv.0 := kv.1]
  }

  /** A dictionary after a run of `k=v` entries is stored into it one by one. */
  function Overlay(events: map<string, string>, es: seq<Option<(string, string)>>): map<string, string>
  {
    if es == [] then events
    else
      var before := Overlay(events, es[..|es| - 1]);
      match es[|es| - 1]
      case None => before
      case Some(kv) => before[kv.0 := kv.1]
  }

  /** The events dictionary after the lines of one pass are drained, in order. */
  function NotifyEvents(events: map<string, string>, lines: seq<string>): map<string, string>
  {
    Overlay(events, NotifyEntries(lines))
  }

  lemma {:induction false} OverlayCollect(events: map<string, string>, es: seq<Option<(string, string)>>)
    ensures Overlay(events, es) == events + Protocol.Collect(es)
  {
    if es != [] {
      OverlayCollect(events, es[..|es| - 1]);
    }
  }

  /**
   Draining a pass overlays the dictionary its lines build (last write wins,
   as for a status page) on the events: keys the lines do not mention keep
   their values.
   */
  lemma NotifyEventsOverlay(events: map<string, string>, lines: seq<string>)
    ensures NotifyEvents(events, lines) == events + Protocol.Collect(NotifyEntries(lines))
  {
    OverlayCollect(events, NotifyEntries(lines));
  }

  /** `cleaned_buffer_count` after one look at the buffer. */
  function CountPoll(cleaned: nat, lines: seq<string>): nat
  {
    if |lines| == 0 then cleaned + 1 else 0
  }

  /** One pass of the outer loop, from the loop test on. */
  function Resume(cleaned: nat, poll: Poll, cycles: nat): (State, Outcome)
  {
    if !(cleaned < cycles) then (Exhausted, Stopped)
    else
      match poll
      case Fail(f) => (Exhausted, Raised(f))
      case Ready(lines) => (Running(CountPoll(cleaned, lines)), Yielded)
  }

  /**
   One `__anext__`. An exception raised before the generator resumes leaves
   it as it was. Otherwise a fresh generator first opens the stream (a
   failure there is raised) and starts counting at 0; a running one resumes
   at the loop test; a finished one raises StopAsyncIteration again.
   */
  function Step(s: State, a: Attempt, cycles: nat): (r: (State, Outcome))
    ensures a.Refused? ==> r == (s, Raised(a.failure))
    ensures r.1 == Yielded ==> a.Resumed? && a.poll.Ready? && r.0.Running?
    ensures a.Resumed? && r.1 != Yielded ==> r.0 == Exhausted
  {
    match a
    case Refused(f) => (s, Raised(f))
    case Resumed(poll) =>
      match s
      case Exhausted => (Exhausted, Stopped)
      case Fresh => if poll.Fail? then (Exhausted, Raised(poll.failure)) else Resume(0, poll, cycles)
      case Running(c) => Resume(c, poll, cycles)
  }

  /** The state after a run of attempts. */
  function Drive(s: State, attempts: seq<Attempt>, cycles: nat): State
  {
    if attempts == [] then s
    else Step(Drive(s, attempts[..|attempts| - 1], cycles), attempts[|attempts| - 1], cycles).0
  }

  /** The attempts that resumed the generator, in order. */
  function Reached(attempts: seq<Attempt>): (r: seq<Attempt>)
    ensures Delivered(r)
  {
    if attempts == [] then []
    else
      var last := attempts[|attempts| - 1];
      Reached(attempts[..|attempts| - 1]) + (if last.Refused? then [] else [last])
  }

  /** An attempt that is refused changes nothing: a run acts as the attempts in it that resumed the generator. */
  lemma {:induction false} DriveSkipsRefused(s: State, attempts: seq<Attempt>, cycles: nat)
    ensures Drive(s, attempts, cycles) == Drive(s, Reached(attempts), cycles)
  {
    if attempts != [] {
      var n := |attempts| - 1;
      var init := attempts[..n];
      DriveSkipsRefused(s, init, cycles);
      if attempts[n].Resumed? {
        var r := Reached(init) + [attempts[n]];
        assert Reached(attempts) == r;
        assert r != [] && r[..|r| - 1] == Reached(init) && r[|r| - 1] == attempts[n];
        assert Drive(s, r, cycles) == Step(Drive(s, Reached(init), cycles), attempts[n], cycles).0;
      } else {
        assert Reached(attempts) == Reached(init) + [];
        assert Reached(init) + [] == Reached(init);
      }
    }
  }

  /** The number of passes at the end of `attempts` that found the buffer empty. */
  function TrailingEmpty(attempts: seq<Attempt>): nat
  {
    if attempts == [] || attempts[|attempts| - 1] != Resumed(Ready([])) then 0
    else 1 + TrailingEmpty(attempts[..|attempts| - 1])
  }

  /** Every attempt resumed the generator. */
  predicate Delivered(attempts: seq<Attempt>)
  {
    forall i :: 0 <= i < |attempts| ==> attempts[i].Resumed?
  }

  /** Every attempt resumed the generator and the stream delivered lines (possibly none). */
  predicate AllReady(attempts: seq<Attempt>)
  {
    forall i :: 0 <= i < |attempts| ==> attempts[i].Resumed? && attempts[i].poll.Ready?
  }

  /**
   The idle counter: while the generator runs, no pass has failed, and its
   count is the number of passes in a row at the end that found the buffer
   empty (attempts refused before the generator resumed do not count). It
   never exceeds `cycles`.
   */
  lemma IdleCount(attempts: seq<Attempt>, cycles: nat)
    requires Drive(Fresh, attempts, cycles).Running?
    ensures Reached(attempts) != [] && AllReady(Reached(attempts))
    ensures Drive(Fresh, attempts, cycles).cleaned == TrailingEmpty(Reached(attempts)) <= cycles
  {
    DriveSkipsRefused(Fresh, attempts, cycles);
    IdleCountDelivered(Reached(attempts), cycles);
  }

  lemma {:induction false} IdleCountDelivered(attempts: seq<Attempt>, cycles: nat)
    requires Delivered(attempts)
    requires Drive(Fresh, attempts, cycles).Running?
    ensures attempts != [] && AllReady(attempts)
    ensures Drive(Fresh, attempts, cycles).cleaned == TrailingEmpty(attempts) <= cycles
  {
    var n := |attempts| - 1;
    var init := attempts[..n];
    var last := attempts[n];
    assert Delivered(init) by {
      forall i | 0 <= i < |init| ensures init[i].Resumed? {
        assert init[i] == attempts[i];
      }
    }
    var before := Drive(Fresh, init, cycles);
    assert Drive(Fresh, attempts, cycles) == Step(before, last, cycles).0;
    StepRunning(before, last, cycles);
    if before.Running? {
      IdleCountDelivered(init, cycles);
    } else {
      FreshOnlyAtStart(init, cycles);
    }
    assert attempts == init + [last];
    ReadyAppend(init, last);
  }

  /** A resuming attempt that leaves the generator running delivered lines and counted the pass. */
  lemma StepRunning(before: State, last: Attempt, cycles: nat)
    requires last.Resumed? && Step(before, last, cycles).0.Running?
    ensures last.poll.Ready? && before != Exhausted
    ensures before.Running? ==>
              before.cleaned < cycles && Step(before, last, cycles).0.cleaned == CountPoll(before.cleaned, last.poll.lines)
    ensures before == Fresh ==> 0 < cycles && Step(before, last, cycles).0.cleaned == CountPoll(0, last.poll.lines)
  {
  }

  /** The trailing run of empty passes grows by an empty pass and restarts at a pass with lines. */
  lemma ReadyAppend(init: seq<Attempt>, last: Attempt)
    requires AllReady(init) && last.Resumed? && last.poll.Ready?
    ensures AllReady(init + [last])
    ensures TrailingEmpty(init + [last]) == CountPoll(TrailingEmpty(init), last.poll.lines)
  {
    assert (init + [last])[..|init|] == init;
  }

  /** Only the empty run of resuming attempts leaves a generator unstarted. */
  lemma {:induction false} FreshOnlyAtStart(attempts: seq<Attempt>, cycles: nat)
    requires Delivered(attempts)
    requires Drive(Fresh, attempts, cycles) == Fresh
    ensures attempts == []
  {
  }

  /**
   The loop ends exactly after `cycles` empty passes in a row: a run on which
   the stream never fails finishes the generator if and only if, before some
   pass, the run so far ends in `cycles` empty passes.
   */
  lemma {:induction false} IdleStop(attempts: seq<Attempt>, cycles: nat)
    requires AllReady(attempts)
    ensures Drive(Fresh, attempts, cycles) == Exhausted <==>
            exists j :: 0 <= j < |attempts| && TrailingEmpty(attempts[..j]) == cycles
  {
    if attempts == [] {
      return;
    }
    var n := |attempts| - 1;
    var init := attempts[..n];
    assert forall j :: 0 <= j <= n ==> attempts[..j] == init[..j];
    assert init[..n] == init;
    IdleStop(init, cycles);
    var before := Drive(Fresh, init, cycles);
    match before
    case Exhausted =>
    case Fresh =>
      FreshOnlyAtStart(init, cycles);
      assert TrailingEmpty(attempts[..0]) == 0;
      assert (exists j :: 0 <= j < |attempts| && TrailingEmpty(attempts[..j]) == cycles) <==> cycles == 0;
    case Running(c) =>
      IdleCountDelivered(init, cycles);
      assert TrailingEmpty(attempts[..n]) == c;
  }

  /** `self.motion_detection_enabled and not self.client` creates the generator. */
  function Started(enabled: bool, client: Option<State>): Option<State>
  {
    if enabled && client.None? then Some(Fresh) else client
  }

  /** Outcomes after which `update_motion_sensors` keeps `self.client`. */
  predicate Survives(o: Outcome)
  {
    o == Yielded || o == Raised(TypeError) || o == Raised(RuntimeError)
  }

  /** `self.client` after one `update_motion_sensors`. */
  function ClientAfter(enabled: bool, client: Option<State>, a: Attempt, cycles: nat): Option<State>
  {
    match Started(enabled, client)
    case None => None
    case Some(s) =>
      var r := Step(s, a, cycles);
      if Survives(r.1) then Some(r.0) else None
  }

  /** A client only comes into being when motion detection is enabled. */
  lemma ClientNeedsMotion(enabled: bool, a: Attempt, cycles: nat)
    requires ClientAfter(enabled, None, a, cycles).Some?
    ensures enabled
  {
  }

  /** With motion detection enabled and no client, a first pass that delivers lines leaves a running client. */
  lemma ClientStarts(poll: Poll, cycles: nat)
    requires poll.Ready? && cycles > 0
    ensures ClientAfter(true, None, Resumed(poll), cycles) == Some(Running(CountPoll(0, poll.lines)))
  {
  }

  /** A timeout or a client error always clears the client, wherever it is raised. */
  lemma ClientClearedOnError(enabled: bool, client: Option<State>, f: Failure, cycles: nat)
    requires f == Timeout || f == ClientError
    ensures ClientAfter(enabled, client, Resumed(Fail(f)), cycles) == None
    ensures ClientAfter(enabled, client, Refused(f), cycles) == None
  {
  }

  /**
   A TypeError or RuntimeError keeps the client. Raised inside a live
   generator, it has finished the generator, so the next update that
   resumes it meets StopAsyncIteration and clears it.
   */
  lemma ClientKeptOnWarning(enabled: bool, client: Option<State>, f: Failure, cycles: nat, next: Poll)
    requires f == TypeError || f == RuntimeError
    requires Started(enabled, client) == Some(Fresh) ||
             (Started(enabled, client).Some? && Started(enabled, client).value.Running? &&
              Started(enabled, client).value.cleaned < cycles)
    ensures ClientAfter(enabled, client, Resumed(Fail(f)), cycles) == Some(Exhausted)
    ensures ClientAfter(enabled, Some(Exhausted), Resumed(next), cycles) == None
  {
  }

  /**
   Raised before the generator resumes, a TypeError or RuntimeError keeps the
   client as it was: a live generator stays live, and a run of such failures
   never clears it.
   */
  lemma ClientKeptOnRefusal(enabled: bool, client: Option<State>, f: Failure, cycles: nat)
    requires f == TypeError || f == RuntimeError
    ensures ClientAfter(enabled, client, Refused(f), cycles) == Started(enabled, client)
    ensures forall s :: ClientAfter(enabled, Some(s), Refused(f), cycles) == Some(s)
  {
  }
}
