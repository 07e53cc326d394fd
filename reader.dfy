/** `RFIDReader` (utils/rfid.py): the three acquisition strategies over the
  * read-allowed flag and the last chip id.
  *
  * The serial line and the clock are an input trace: each `Poll` is one
  * iteration of a strategy's `while True` loop, carrying the `ticks_ms()`
  * reading and the `uart.read()` answer that iteration would see; each
  * `Reset` is one run of the periodic timer's callback `reset_last_chip`,
  * between two iterations. A strategy that reaches the end of a finite
  * trace without returning is `Pending`: it would still be polling. */
module Reader {

  import opened Wrappers
  import opened Ascii
  import opened Rdm6300

  datatype Event =
    | Reset
    | Poll(now: nat, data: Option<seq<byte>>)

  /** The two fields the strategies and the timer callback share. */
  datatype Gate = Gate(readAllowed: bool, lastChipId: string)

  /** How `read_single_chip` and `detect_chip_with_id` end: an id, `None`
    * on timeout, ValueError out of `parse_packet`, or not yet. */
  datatype ReadResult = Found(id: string) | TimedOut | Failed | Pending

  /** A read's result, the fields afterwards, and how many events it used. */
  datatype Run = Run(result: ReadResult, gate: Gate, consumed: nat)

  /** `timeout_ms is not None and ticks_diff(now, start) > timeout_ms`
    * (the tick counter's wrap-around is not modelled). */
  predicate Expired(start: nat, timeoutMs: Option<int>, now: nat) {
    timeoutMs.Some? && now - start > timeoutMs.value
  }

  /** The poll brought data, and `parse_packet` gives v on it. */
  predicate Brings(e: Event, v: Verdict) {
    e.Poll? && e.data.Some? && Decode(e.data.value) == v
  }

  /** A read that went through i more events before the ones it ran over. */
  function Shifted(r: Run, i: nat): Run {
    r.(consumed := r.consumed + i)
  }

  /** How many events a read went through without being ended by them:
    * all it used when pending, all but the last otherwise. */
  function Passed(r: Run): nat {
    if r.result.Pending? || r.consumed == 0 then r.consumed else r.consumed - 1
  }

  // ---------------------------------------------------------------------
  // read_single_chip

  /** The loop of `read_single_chip` from fields g on. */
  function SingleRun(g: Gate, start: nat, timeoutMs: Option<int>, trace: seq<Event>): (r: Run)
    ensures r.consumed <= |trace|
    decreases |trace|
  {
    if trace == [] then Run(Pending, g, 0)
    else
      match trace[0]
      case Reset => Shifted(SingleRun(Gate(true, ""), start, timeoutMs, trace[1..]), 1)
      case Poll(now, data) =>
        if Expired(start, timeoutMs, now) then Run(TimedOut, g, 1)
        else if data.Some? && g.readAllowed then
          match Decode(data.value)
          case Accepted(id) => Run(Found(id), Gate(false, id), 1)
          case Rejected(_) => Shifted(SingleRun(g, start, timeoutMs, trace[1..]), 1)
          case Raised(_) => Run(Failed, g, 1)
        else Shifted(SingleRun(g, start, timeoutMs, trace[1..]), 1)
  }

  /** An event `read_single_chip` goes past: a timer reset, or a poll before
    * the deadline that brought nothing or a packet `parse_packet` rejected. */
  predicate PassesSingle(e: Event, start: nat, timeoutMs: Option<int>) {
    e.Reset? ||
    (!Expired(start, timeoutMs, e.now) && (e.data.None? || Decode(e.data.value).Rejected?))
  }

  /** How `read_single_chip` ends, told by the last event it uses: `None`
    * exactly when the elapsed time there is strictly above the timeout,
    * never with no timeout; otherwise the first accepted id, which becomes
    * the last chip id and closes the flag; or the ValueError of a packet
    * with text it cannot read. */
  lemma {:induction false} SingleReadEnds(g: Gate, start: nat, timeoutMs: Option<int>, trace: seq<Event>, r: Run)
    requires g.readAllowed && r == SingleRun(g, start, timeoutMs, trace)
    ensures r.result.Pending? ==> r.consumed == |trace|
    ensures !r.result.Pending? ==> 0 < r.consumed && trace[r.consumed - 1].Poll?
    ensures r.result.TimedOut? ==> Expired(start, timeoutMs, trace[r.consumed - 1].now)
    ensures timeoutMs.None? ==> !r.result.TimedOut?
    ensures r.result.Found? ==>
              !Expired(start, timeoutMs, trace[r.consumed - 1].now) &&
              Brings(trace[r.consumed - 1], Accepted(r.result.id)) &&
              r.gate == Gate(false, r.result.id)
    ensures r.result.Failed? ==>
              !Expired(start, timeoutMs, trace[r.consumed - 1].now) &&
              trace[r.consumed - 1].data.Some? && Decode(trace[r.consumed - 1].data.value).Raised?
    decreases |trace|
  {
    if trace != [] {
      var e := trace[0];
      if !(e.Poll? && (Expired(start, timeoutMs, e.now) || (e.data.Some? && !Decode(e.data.value).Rejected?))) {
        var g' := if e.Reset? then Gate(true, "") else g;
        var r' := SingleRun(g', start, timeoutMs, trace[1..]);
        assert r == Shifted(r', 1);
        SingleReadEnds(g', start, timeoutMs, trace[1..], r');
        if !r.result.Pending? {
          assert trace[r.consumed - 1] == trace[1..][r'.consumed - 1];
        }
      }
    }
  }

  /** Every event before the last one `read_single_chip` uses is passed
    * over; in particular the flag, true from the start, never blocks a
    * packet. */
  lemma {:induction false} SingleReadPasses(g: Gate, start: nat, timeoutMs: Option<int>, trace: seq<Event>, r: Run)
    requires g.readAllowed && r == SingleRun(g, start, timeoutMs, trace)
    ensures forall k :: 0 <= k < Passed(r) ==> PassesSingle(trace[k], start, timeoutMs)
    decreases |trace|
  {
    if trace != [] {
      var e := trace[0];
      if !(e.Poll? && (Expired(start, timeoutMs, e.now) || (e.data.Some? && !Decode(e.data.value).Rejected?))) {
        var g' := if e.Reset? then Gate(true, "") else g;
        var r' := SingleRun(g', start, timeoutMs, trace[1..]);
        assert r == Shifted(r', 1);
        SingleReadPasses(g', start, timeoutMs, trace[1..], r');
        forall k | 0 <= k < Passed(r)
          ensures PassesSingle(trace[k], start, timeoutMs)
        {
          if k > 0 {
            assert trace[k] == trace[1..][k - 1];
          }
        }
      }
    }
  }

  /** Until `read_single_chip` finds an id the flag stays true and the last
    * chip id is only ever cleared, by a timer reset. */
  lemma {:induction false} SingleReadKeeps(g: Gate, start: nat, timeoutMs: Option<int>, trace: seq<Event>, r: Run)
    requires g.readAllowed && r == SingleRun(g, start, timeoutMs, trace)
    ensures !r.result.Found? ==>
              r.gate == Gate(true, if Reset in trace[..r.consumed] then "" else g.lastChipId)
    decreases |trace|
  {
    if trace != [] {
      var e := trace[0];
      if e.Poll? && (Expired(start, timeoutMs, e.now) || (e.data.Some? && !Decode(e.data.value).Rejected?)) {
        assert trace[..r.consumed] == [e];
      } else {
        var g' := if e.Reset? then Gate(true, "") else g;
        var r' := SingleRun(g', start, timeoutMs, trace[1..]);
        assert r == Shifted(r', 1);
        SingleReadKeeps(g', start, timeoutMs, trace[1..], r');
        assert trace[..r.consumed] == [e] + trace[1..][..r'.consumed];
      }
    }
  }

  // ---------------------------------------------------------------------
  // detect_chip_with_id

  /** The loop of `detect_chip_with_id` from fields g on. */
  function DetectRun(g: Gate, target: string, start: nat, timeoutMs: Option<int>, trace: seq<Event>): (r: Run)
    ensures r.consumed <= |trace|
    decreases |trace|
  {
    if trace == [] then Run(Pending, g, 0)
    else
      match trace[0]
      case Reset => Shifted(DetectRun(Gate(true, ""), target, start, timeoutMs, trace[1..]), 1)
      case Poll(now, data) =>
        if Expired(start, timeoutMs, now) then Run(TimedOut, g, 1)
        else if data.Some? && g.readAllowed then
          match Decode(data.value)
          case Accepted(id) =>
            if id == target then Run(Found(id), Gate(false, id), 1)
            else Shifted(DetectRun(g.(lastChipId := id), target, start, timeoutMs, trace[1..]), 1)
          case Rejected(_) => Shifted(DetectRun(g, target, start, timeoutMs, trace[1..]), 1)
          case Raised(_) => Run(Failed, g, 1)
        else Shifted(DetectRun(g, target, start, timeoutMs, trace[1..]), 1)
  }

  /** An event `detect_chip_with_id` goes past: a timer reset, or a poll
    * before the deadline that brought nothing, a rejected packet, or the
    * id of another chip. */
  predicate PassesDetect(e: Event, target: string, start: nat, timeoutMs: Option<int>) {
    e.Reset? ||
    (!Expired(start, timeoutMs, e.now) &&
     (e.data.None? || Decode(e.data.value).Rejected? ||
      (Decode(e.data.value).Accepted? && Decode(e.data.value).id != target)))
  }

  /** The last chip id after a sequence of events: a timer reset clears it,
    * a packet that parses overwrites it, anything else leaves it. */
  function LastSeen(last: string, events: seq<Event>): string
    decreases |events|
  {
    if events == [] then last
    else if events[0].Reset? then LastSeen("", events[1..])
    else if events[0].data.Some? && Decode(events[0].data.value).Accepted? then
      LastSeen(Decode(events[0].data.value).id, events[1..])
    else LastSeen(last, events[1..])
  }

  /** The fields after an event `detect_chip_with_id` goes past. */
  function DetectNext(g: Gate, e: Event): Gate {
    if e.Reset? then Gate(true, "")
    else if e.data.Some? && Decode(e.data.value).Accepted? then g.(lastChipId := Decode(e.data.value).id)
    else g
  }

  /** An event that ends `detect_chip_with_id` while the flag is true. */
  predicate DetectStops(e: Event, target: string, start: nat, timeoutMs: Option<int>) {
    e.Poll? &&
    (Expired(start, timeoutMs, e.now) ||
     (e.data.Some? && (Decode(e.data.value).Raised? || Decode(e.data.value) == Accepted(target))))
  }

  /** How `detect_chip_with_id` ends, told by the last event it uses: it
    * returns only the target id, on a poll before the deadline whose packet
    * parses to it, and then closes the flag; it returns `None` exactly when
    * the deadline has passed strictly, never with no timeout. */
  lemma {:induction false} DetectEnds(g: Gate, target: string, start: nat, timeoutMs: Option<int>, trace: seq<Event>, r: Run)
    requires g.readAllowed && r == DetectRun(g, target, start, timeoutMs, trace)
    ensures r.result.Pending? ==> r.consumed == |trace|
    ensures !r.result.Pending? ==> 0 < r.consumed && trace[r.consumed - 1].Poll?
    ensures r.result.TimedOut? ==> Expired(start, timeoutMs, trace[r.consumed - 1].now)
    ensures timeoutMs.None? ==> !r.result.TimedOut?
    ensures r.result.Found? ==>
              r.result.id == target && r.gate == Gate(false, target) &&
              !Expired(start, timeoutMs, trace[r.consumed - 1].now) &&
              Brings(trace[r.consumed - 1], Accepted(target))
    ensures r.result.Failed? ==>
              !Expired(start, timeoutMs, trace[r.consumed - 1].now) &&
              trace[r.consumed - 1].data.Some? && Decode(trace[r.consumed - 1].data.value).Raised?
    decreases |trace|
  {
    if trace != [] && !DetectStops(trace[0], target, start, timeoutMs) {
      var g' := DetectNext(g, trace[0]);
      var r' := DetectRun(g', target, start, timeoutMs, trace[1..]);
      assert r == Shifted(r', 1);
      DetectEnds(g', target, start, timeoutMs, trace[1..], r');
      if !r.result.Pending? {
        assert trace[r.consumed - 1] == trace[1..][r'.consumed - 1];
      }
    }
  }

  /** Every event before the last one `detect_chip_with_id` uses is passed
    * over, the ids of other chips among them. */
  lemma {:induction false} DetectPasses(g: Gate, target: string, start: nat, timeoutMs: Option<int>, trace: seq<Event>, r: Run)
    requires g.readAllowed && r == DetectRun(g, target, start, timeoutMs, trace)
    ensures forall k :: 0 <= k < Passed(r) ==> PassesDetect(trace[k], target, start, timeoutMs)
    decreases |trace|
  {
    if trace != [] && !DetectStops(trace[0], target, start, timeoutMs) {
      var g' := DetectNext(g, trace[0]);
      var r' := DetectRun(g', target, start, timeoutMs, trace[1..]);
      assert r == Shifted(r', 1);
      DetectPasses(g', target, start, timeoutMs, trace[1..], r');
      forall k | 0 <= k < Passed(r)
        ensures PassesDetect(trace[k], target, start, timeoutMs)
      {
        if k > 0 {
          assert trace[k] == trace[1..][k - 1];
        }
      }
    }
  }

  /** Until `detect_chip_with_id` finds its target the flag stays true, and
    * the ids of the other chips it meets overwrite the last chip id. */
  lemma {:induction false} DetectKeeps(g: Gate, target: string, start: nat, timeoutMs: Option<int>, trace: seq<Event>, r: Run)
    requires g.readAllowed && r == DetectRun(g, target, start, timeoutMs, trace)
    ensures !r.result.Found? ==> r.gate == Gate(true, LastSeen(g.lastChipId, trace[..Passed(r)]))
    decreases |trace|
  {
    if trace != [] {
      if DetectStops(trace[0], target, start, timeoutMs) {
        assert trace[..Passed(r)] == [];
      } else {
        var g' := DetectNext(g, trace[0]);
        var r' := DetectRun(g', target, start, timeoutMs, trace[1..]);
        assert r == Shifted(r', 1);
        DetectKeeps(g', target, start, timeoutMs, trace[1..], r');
        assert trace[..Passed(r)][1..] == trace[1..][..Passed(r')];
      }
    }
  }

  // ---------------------------------------------------------------------
  // read_continuously

  /** How the generator of `read_continuously` ends: the stop flag was true
    * from the start, `None` on timeout, ValueError, or not yet. */
  datatype StreamEnd = Stopped | StreamTimedOut | StreamFailed | StreamPending

  /** The ids the generator yielded, how it ended, the fields afterwards,
    * and how many events it used. */
  datatype Stream = Stream(ids: seq<string>, end: StreamEnd, gate: Gate, consumed: nat)

  /** What one event does to the generator: it goes on with new fields,
    * having yielded zero or one id, or it ends. */
  datatype Step = Continue(gate: Gate, yielded: seq<string>) | Stop(end: StreamEnd)

  /** One iteration of the loop of `read_continuously` (`shouldStop` false),
    * or one timer reset. While the flag is false an iteration does nothing:
    * it looks at neither the clock nor the line. */
  function StreamStep(g: Gate, start: nat, timeoutMs: Option<int>, e: Event): (r: Step)
    ensures r.Stop? ==>
              e.Poll? && g.readAllowed &&
              (r.end.StreamTimedOut? <==> Expired(start, timeoutMs, e.now)) &&
              (r.end.StreamFailed? ==> e.data.Some? && Decode(e.data.value).Raised?) &&
              (r.end.StreamTimedOut? || r.end.StreamFailed?)
    ensures r.Continue? && r.yielded != [] ==>
              |r.yielded| == 1 && g.readAllowed && e.Poll? && !Expired(start, timeoutMs, e.now) &&
              Brings(e, Accepted(r.yielded[0])) && r.gate == Gate(false, r.yielded[0])
    ensures r.Continue? && r.yielded == [] ==>
              r.gate == (if e.Reset? then Gate(true, "") else g)
    ensures e.Poll? && g.readAllowed && Expired(start, timeoutMs, e.now) ==> r == Stop(StreamTimedOut)
    ensures e.Poll? && g.readAllowed && !Expired(start, timeoutMs, e.now) && e.data.Some? ==>
              var v := Decode(e.data.value);
              && (v.Accepted? ==> r == Continue(Gate(false, v.id), [v.id]))
              && (v.Rejected? ==> r == Continue(g, []))
              && (v.Raised? ==> r == Stop(StreamFailed))
    ensures e.Poll? && (!g.readAllowed || (!Expired(start, timeoutMs, e.now) && e.data.None?)) ==>
              r == Continue(g, [])
  {
    match e
    case Reset => Continue(Gate(true, ""), [])
    case Poll(now, data) =>
      if !g.readAllowed then Continue(g, [])
      else if Expired(start, timeoutMs, now) then Stop(StreamTimedOut)
      else if data.None? then Continue(g, [])
      else
        match Decode(data.value)
        case Accepted(id) => Continue(Gate(false, id), [id])
        case Rejected(_) => Continue(g, [])
        case Raised(_) => Stop(StreamFailed)
  }

  /** The loop of `read_continuously` from fields g on, over the trace. */
  function StreamRun(g: Gate, start: nat, timeoutMs: Option<int>, trace: seq<Event>): (s: Stream)
    ensures s.consumed <= |trace| && !s.end.Stopped?
    decreases |trace|
  {
    if trace == [] then Stream([], StreamPending, g, 0)
    else
      match StreamStep(g, start, timeoutMs, trace[0])
      case Stop(end) => Stream([], end, g, 1)
      case Continue(g', out) =>
        var s := StreamRun(g', start, timeoutMs, trace[1..]);
        Stream(out + s.ids, s.end, s.gate, s.consumed + 1)
  }

  /** `read_continuously(shouldStop, timeout_ms)` from last chip id `last`:
    * the flag is set true, then `shouldStop`, captured by value, either
    * ends the generator before its first iteration or never. */
  function ContinuousRun(last: string, shouldStop: bool, start: nat, timeoutMs: Option<int>, trace: seq<Event>): (s: Stream)
    ensures s.end.Stopped? <==> shouldStop
    ensures shouldStop ==> s.ids == [] && s.consumed == 0 && s.gate == Gate(true, last)
  {
    if shouldStop then Stream([], Stopped, Gate(true, last), 0)
    else StreamRun(Gate(true, last), start, timeoutMs, trace)
  }

  /** The generator's loop, one event unrolled. */
  lemma StreamUnfold(g: Gate, start: nat, timeoutMs: Option<int>, trace: seq<Event>)
    requires trace != []
    ensures var step := StreamStep(g, start, timeoutMs, trace[0]);
      StreamRun(g, start, timeoutMs, trace) ==
        if step.Stop? then Stream([], step.end, g, 1)
        else Resumed(step.yielded, StreamRun(step.gate, start, timeoutMs, trace[1..]), 1)
  {
  }

  lemma ResumedAfter(before: seq<string>, out: seq<string>, s: Stream, i: nat, j: nat)
    ensures Resumed(before, Resumed(out, s, j), i) == Resumed(before + out, s, i + j)
  {
    assert before + (out + s.ids) == (before + out) + s.ids;
  }

  /** A generator still pending after the first k events goes on from the
    * fields it has reached, with the ids it has yielded so far. */
  lemma {:induction false} StreamPrefix(g: Gate, start: nat, timeoutMs: Option<int>, trace: seq<Event>, k: nat)
    requires k <= |trace| && StreamRun(g, start, timeoutMs, trace[..k]).end.StreamPending?
    ensures var p := StreamRun(g, start, timeoutMs, trace[..k]);
      StreamRun(g, start, timeoutMs, trace) == Resumed(p.ids, StreamRun(p.gate, start, timeoutMs, trace[k..]), k)
    decreases k
  {
    if k == 0 {
      assert trace[..k] == [] && trace[k..] == trace;
    } else {
      var pre := trace[..k];
      var step := StreamStep(g, start, timeoutMs, trace[0]);
      assert pre[0] == trace[0];
      StreamUnfold(g, start, timeoutMs, pre);
      assert step.Continue?;
      assert pre[1..] == trace[1..][..k - 1];
      assert trace[1..][k - 1..] == trace[k..];
      var p' := StreamRun(step.gate, start, timeoutMs, trace[1..][..k - 1]);
      assert StreamRun(g, start, timeoutMs, pre) == Resumed(step.yielded, p', 1);
      StreamPrefix(step.gate, start, timeoutMs, trace[1..], k - 1);
      StreamUnfold(g, start, timeoutMs, trace);
      ResumedAfter(step.yielded, p'.ids, StreamRun(p'.gate, start, timeoutMs, trace[k..]), 1, k - 1);
    }
  }

  /** What the poll at event k does to a generator still pending with the
    * flag open: past the deadline it ends there with `None`; before it,
    * text it cannot read ends it there with the raise, and a parsed id is
    * the next one yielded. */
  lemma StreamAt(g: Gate, start: nat, timeoutMs: Option<int>, trace: seq<Event>, k: nat)
    requires k < |trace| && trace[k].Poll?
    requires StreamRun(g, start, timeoutMs, trace[..k]).end.StreamPending?
    requires StreamRun(g, start, timeoutMs, trace[..k]).gate.readAllowed
    ensures var p, e, s := StreamRun(g, start, timeoutMs, trace[..k]), trace[k], StreamRun(g, start, timeoutMs, trace);
      && (Expired(start, timeoutMs, e.now) ==> s == Stream(p.ids, StreamTimedOut, p.gate, k + 1))
      && (!Expired(start, timeoutMs, e.now) && e.data.Some? && Decode(e.data.value).Raised? ==>
            s == Stream(p.ids, StreamFailed, p.gate, k + 1))
      && (!Expired(start, timeoutMs, e.now) && e.data.Some? && Decode(e.data.value).Accepted? ==>
            |s.ids| > |p.ids| && s.ids[..|p.ids| + 1] == p.ids + [Decode(e.data.value).id])
  {
    var p, e := StreamRun(g, start, timeoutMs, trace[..k]), trace[k];
    StreamPrefix(g, start, timeoutMs, trace, k);
    StreamUnfold(p.gate, start, timeoutMs, trace[k..]);
    assert trace[k..][0] == e;
    var step := StreamStep(p.gate, start, timeoutMs, e);
    var s := StreamRun(g, start, timeoutMs, trace);
    var rest := StreamRun(p.gate, start, timeoutMs, trace[k..]);
    assert s == Resumed(p.ids, rest, k);
    if step.Stop? {
      assert rest == Stream([], step.end, p.gate, 1);
    } else if !Expired(start, timeoutMs, e.now) && e.data.Some? && Decode(e.data.value).Accepted? {
      var later := StreamRun(step.gate, start, timeoutMs, trace[k..][1..]);
      assert step.yielded == [Decode(e.data.value).id];
      assert rest.ids == step.yielded + later.ids;
      assert s.ids == p.ids + rest.ids;
      assert s.ids[..|p.ids| + 1] == p.ids + [rest.ids[0]];
    }
  }

  /** The number of timer resets among the events. */
  function Resets(events: seq<Event>): nat
    decreases |events|
  {
    if events == [] then 0 else (if events[0].Reset? then 1 else 0) + Resets(events[1..])
  }

  /** At most one id per opening of the flag: the ids yielded, plus one if
    * the flag is open at the end, never exceed the timer resets among the
    * events used, plus one if the flag was open at the start. */
  lemma {:induction false} StreamOnePerReset(g: Gate, start: nat, timeoutMs: Option<int>, trace: seq<Event>)
    ensures var s := StreamRun(g, start, timeoutMs, trace);
      |s.ids| + (if s.gate.readAllowed then 1 else 0) <=
        Resets(trace[..s.consumed]) + (if g.readAllowed then 1 else 0)
    decreases |trace|
  {
    if trace != [] {
      var s := StreamRun(g, start, timeoutMs, trace);
      var e, rest := trace[0], trace[1..];
      assert trace[..s.consumed][0] == e;
      match StreamStep(g, start, timeoutMs, e)
      case Stop(_) =>
      case Continue(g', out) =>
        var s' := StreamRun(g', start, timeoutMs, rest);
        StreamOnePerReset(g', start, timeoutMs, rest);
        assert trace[..s.consumed][1..] == rest[..s'.consumed];
    }
  }

  /** Every id in ids is the id of a packet one of the first n events brought. */
  predicate AllBrought(ids: seq<string>, trace: seq<Event>, n: nat)
    requires n <= |trace|
  {
    forall id :: id in ids ==> exists k :: 0 <= k < n && Brings(trace[k], Accepted(id))
  }

  /** Every id the generator yields is the id of a packet some poll brought. */
  lemma {:induction false} StreamYieldsParsedIds(g: Gate, start: nat, timeoutMs: Option<int>, trace: seq<Event>)
    ensures AllBrought(StreamRun(g, start, timeoutMs, trace).ids, trace, StreamRun(g, start, timeoutMs, trace).consumed)
    decreases |trace|
  {
    if trace != [] {
      var s := StreamRun(g, start, timeoutMs, trace);
      var e, rest := trace[0], trace[1..];
      var step := StreamStep(g, start, timeoutMs, e);
      if step.Continue? {
        var out := step.yielded;
        var s' := StreamRun(step.gate, start, timeoutMs, rest);
        StreamUnfold(g, start, timeoutMs, trace);
        StreamYieldsParsedIds(step.gate, start, timeoutMs, rest);
        assert s.ids == out + s'.ids && s.consumed == s'.consumed + 1;
        forall id | id in s.ids
          ensures exists k :: 0 <= k < s.consumed && Brings(trace[k], Accepted(id))
        {
          if id in out {
            assert Brings(trace[0], Accepted(id));
          } else {
            var k :| 0 <= k < s'.consumed && Brings(rest[k], Accepted(id));
            assert trace[k + 1] == rest[k];
          }
        }
      }
    }
  }

  /** While the flag is false and no timer reset comes, the generator does
    * nothing at all: no id, no timeout, no read, no change. */
  lemma {:induction false} StreamGatedIdle(g: Gate, start: nat, timeoutMs: Option<int>, trace: seq<Event>)
    requires !g.readAllowed && Reset !in trace
    ensures StreamRun(g, start, timeoutMs, trace) == Stream([], StreamPending, g, |trace|)
    decreases |trace|
  {
    if trace != [] {
      assert trace[0] != Reset;
      StreamGatedIdle(g, start, timeoutMs, trace[1..]);
    }
  }

  /** The generator checks the deadline only while the flag is open, and
    * ends on it exactly there; with no timeout it never times out. */
  lemma {:induction false} StreamEnds(g: Gate, start: nat, timeoutMs: Option<int>, trace: seq<Event>)
    ensures var s := StreamRun(g, start, timeoutMs, trace);
      && (s.end.StreamPending? ==> s.consumed == |trace|)
      && (s.end.StreamTimedOut? ==>
            0 < s.consumed && trace[s.consumed - 1].Poll? && s.gate.readAllowed &&
            Expired(start, timeoutMs, trace[s.consumed - 1].now))
      && (s.end.StreamFailed? ==>
            0 < s.consumed && trace[s.consumed - 1].Poll? && s.gate.readAllowed &&
            trace[s.consumed - 1].data.Some? && Decode(trace[s.consumed - 1].data.value).Raised?)
      && (timeoutMs.None? ==> !s.end.StreamTimedOut?)
    decreases |trace|
  {
    if trace != [] {
      var s := StreamRun(g, start, timeoutMs, trace);
      var e, rest := trace[0], trace[1..];
      match StreamStep(g, start, timeoutMs, e)
      case Stop(_) =>
      case Continue(g', out) =>
        var s' := StreamRun(g', start, timeoutMs, rest);
        StreamEnds(g', start, timeoutMs, rest);
        if !s.end.StreamPending? {
          assert trace[s.consumed - 1] == rest[s'.consumed - 1];
        }
    }
  }

  /** The same chip seen twice, then a timer reset, then again: two polls
    * between the same two resets give one id, and the reset lets it through
    * once more. */
  lemma StreamRestart(last: string, f: seq<byte>, id: string, start: nat, timeoutMs: Option<int>, now: nat)
    requires Decode(f) == Accepted(id) && !Expired(start, timeoutMs, now)
    ensures var p := Poll(now, Some(f));
      ContinuousRun(last, false, start, timeoutMs, [p, p, Reset, p]).ids == [id, id]
  {
    var p := Poll(now, Some(f));
    var t3, t2, t1, t0 := [p], [Reset, p], [p, Reset, p], [p, p, Reset, p];
    assert t3[1..] == [] && t2[1..] == t3 && t1[1..] == t2 && t0[1..] == t1;
    var closed := Gate(false, id);
    assert StreamStep(Gate(true, ""), start, timeoutMs, p) == Continue(closed, [id]);
    assert StreamStep(Gate(true, last), start, timeoutMs, p) == Continue(closed, [id]);
    assert StreamStep(closed, start, timeoutMs, p) == Continue(closed, []);
    assert StreamStep(closed, start, timeoutMs, Reset) == Continue(Gate(true, ""), []);
    StreamUnfold(Gate(true, ""), start, timeoutMs, t3);
    var r3 := StreamRun(Gate(true, ""), start, timeoutMs, t3);
    assert r3.ids == [id];
    StreamUnfold(closed, start, timeoutMs, t2);
    assert StreamRun(closed, start, timeoutMs, t2) == Resumed([], r3, 1);
    StreamUnfold(closed, start, timeoutMs, t1);
    var r1 := StreamRun(closed, start, timeoutMs, t1);
    assert r1.ids == [id];
    StreamUnfold(Gate(true, last), start, timeoutMs, t0);
    assert StreamRun(Gate(true, last), start, timeoutMs, t0) == Resumed([id], r1, 1);
  }

  // ---------------------------------------------------------------------
  // The reader object

  class RFIDReader {
    var readAllowed: bool
    var lastChipId: string

    function State(): Gate
      reads this
    {
      Gate(readAllowed, lastChipId)
    }

    constructor ()
      ensures State() == Gate(true, "")
    {
      readAllowed := true;
      lastChipId := "";
    }

    /** The periodic timer's callback. */
    method ResetLastChip()
      modifies this
      ensures State() == Gate(true, "")
    {
      readAllowed := true;
      lastChipId := "";
    }

    method ReadSingleChip(start: nat, timeoutMs: Option<int>, trace: seq<Event>) returns (result: ReadResult, polls: nat)
      modifies this
      ensures Run(result, State(), polls) == SingleRun(Gate(true, old(lastChipId)), start, timeoutMs, trace)
    {
      readAllowed := true;
      ghost var spec := SingleRun(State(), start, timeoutMs, trace);
      var i := 0;
      while i < |trace|
        invariant 0 <= i <= |trace|
        decreases |trace| - i
        invariant spec == Shifted(SingleRun(State(), start, timeoutMs, trace[i..]), i)
      {
        assert trace[i..][1..] == trace[i + 1..];
        match trace[i] {
        case Reset =>
          ResetLastChip();
        case Poll(now, data) =>
          if Expired(start, timeoutMs, now) {
            return TimedOut, i + 1;
          }
          if data.Some? && readAllowed {
            var parsed := ParsePacket(data.value);
            match parsed
            case Accepted(id) =>
              lastChipId := id;
              readAllowed := false;
              return Found(id), i + 1;
            case Rejected(_) =>
            case Raised(_) =>
              return Failed, i + 1;
          }
        }
        i := i + 1;
      }
      return Pending, i;
    }

    method DetectChipWithId(target: string, start: nat, timeoutMs: Option<int>, trace: seq<Event>) returns (result: ReadResult, polls: nat)
      modifies this
      ensures Run(result, State(), polls) == DetectRun(Gate(true, old(lastChipId)), target, start, timeoutMs, trace)
    {
      readAllowed := true;
      ghost var spec := DetectRun(State(), target, start, timeoutMs, trace);
      var i := 0;
      while i < |trace|
        invariant 0 <= i <= |trace|
        decreases |trace| - i
        invariant spec == Shifted(DetectRun(State(), target, start, timeoutMs, trace[i..]), i)
      {
        assert trace[i..][1..] == trace[i + 1..];
        match trace[i] {
        case Reset =>
          ResetLastChip();
        case Poll(now, data) =>
          if Expired(start, timeoutMs, now) {
            return TimedOut, i + 1;
          }
          if data.Some? && readAllowed {
            var parsed := ParsePacket(data.value);
            match parsed
            case Accepted(id) =>
              lastChipId := id;
              if id == target {
                readAllowed := false;
                return Found(id), i + 1;
              }
            case Rejected(_) =>
            case Raised(_) =>
              return Failed, i + 1;
          }
        }
        i := i + 1;
      }
      return Pending, i;
    }

    /** What the generator does between two iterations: a run of the timer
      * callback, or one iteration of its loop. `StreamPending` when it goes
      * on. */
    method StreamIteration(start: nat, timeoutMs: Option<int>, e: Event) returns (out: seq<string>, end: StreamEnd)
      modifies this
      ensures var st := StreamStep(old(State()), start, timeoutMs, e);
        if st.Stop? then end == st.end && State() == old(State())
        else end.StreamPending? && out == st.yielded && State() == st.gate
    {
      out := [];
      end := StreamPending;
      match e {
        case Reset =>
          ResetLastChip();
        case Poll(now, data) =>
          if readAllowed {
            if Expired(start, timeoutMs, now) {
              return out, StreamTimedOut;
            }
            if data.Some? {
              var parsed := ParsePacket(data.value);
              match parsed
              case Accepted(id) =>
                lastChipId := id;
                readAllowed := false;
                out := [id];
              case Rejected(_) =>
              case Raised(_) =>
                end := StreamFailed;
            }
          }
      }
    }

    /** The generator, run over the whole trace: the ids it yields in order. */
    method ReadContinuously(shouldStop: bool, start: nat, timeoutMs: Option<int>, trace: seq<Event>)
      returns (ids: seq<string>, end: StreamEnd, polls: nat)
      modifies this
      ensures Stream(ids, end, State(), polls) == ContinuousRun(old(lastChipId), shouldStop, start, timeoutMs, trace)
    {
      readAllowed := true;
      ids := [];
      if shouldStop {
        return ids, Stopped, 0;
      }
      ghost var spec := StreamRun(State(), start, timeoutMs, trace);
      var i := 0;
      while i < |trace|
        invariant 0 <= i <= |trace|
        invariant spec == Resumed(ids, StreamRun(State(), start, timeoutMs, trace[i..]), i)
        decreases |trace| - i
      {
        assert trace[i..][0] == trace[i] && trace[i..][1..] == trace[i + 1..];
        StreamUnfold(State(), start, timeoutMs, trace[i..]);
        var out, stop := StreamIteration(start, timeoutMs, trace[i]);
        if !stop.StreamPending? {
          return ids, stop, i + 1;
        }
        ResumedAfter(ids, out, StreamRun(State(), start, timeoutMs, trace[i + 1..]), i, 1);
        ids := ids + out;
        i := i + 1;
      }
      return ids, StreamPending, i;
    }
  }

  function Resumed(before: seq<string>, s: Stream, i: nat): Stream {
    s.(ids := before + s.ids, consumed := s.consumed + i)
  }
}
