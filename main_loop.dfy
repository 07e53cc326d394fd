/** The stand-alone script main.py: a module-level `readAllowed` flag that a
  * periodic timer sets true, a module-level `lastChipId`, and a loop that
  * reads the serial line and prints each new chip id once per opening of
  * the flag.
  *
  * As for the reader class, the line and the timer are an input trace:
  * each `Read` is one iteration of `while True` with the bytes
  * `uart.read()` returned there, each `Fired` one run of the timer callback
  * between two iterations. */
module MainLoop {

  import opened Wrappers
  import opened Ascii
  import opened Rdm6300

  datatype Input =
    | Fired
    | Read(data: Option<seq<byte>>)

  /** The script's two globals. */
  datatype Globals = Globals(readAllowed: bool, lastChipId: string)

  /** How the loop ends: `break` on a packet `parse_packet` rejects, the
    * ValueError out of `parse_packet` on text it cannot read, or not yet. */
  datatype Halt = BadFrame | Crash | Running

  /** The ids printed, how the loop ended, the globals afterwards, and how
    * many inputs it used. */
  datatype Report = Report(printed: seq<string>, halt: Halt, globals: Globals, consumed: nat)

  /** What one input does: the loop goes on with new globals having printed
    * zero or one id, or it ends. */
  datatype Turn = Goes(globals: Globals, printed: seq<string>) | Halts(halt: Halt)

  /** One iteration of the loop, or one run of `resetLastChip`, which sets
    * the flag and leaves the last chip id alone. Data read while the flag
    * is false is dropped unparsed; an id equal to the last one is dropped
    * and leaves the flag true. */
  function LoopTurn(g: Globals, x: Input): (t: Turn)
    ensures t.Halts? ==>
              x.Read? && x.data.Some? && g.readAllowed &&
              (t.halt.BadFrame? <==> Decode(x.data.value).Rejected?) &&
              (t.halt.Crash? <==> Decode(x.data.value).Raised?)
    ensures t.Goes? && t.printed != [] ==>
              |t.printed| == 1 && g.readAllowed && x.Read? && x.data.Some? &&
              Decode(x.data.value) == Accepted(t.printed[0]) &&
              t.printed[0] != g.lastChipId && t.globals == Globals(false, t.printed[0])
    ensures t.Goes? && t.printed == [] ==>
              t.globals == (if x.Fired? then g.(readAllowed := true) else g)
    ensures x.Read? && x.data.Some? && g.readAllowed ==>
              var v := Decode(x.data.value);
              && (v.Rejected? ==> t == Halts(BadFrame))
              && (v.Raised? ==> t == Halts(Crash))
              && (v.Accepted? && v.id != g.lastChipId ==> t == Goes(Globals(false, v.id), [v.id]))
              && (v.Accepted? && v.id == g.lastChipId ==> t == Goes(g, []))
    ensures !(x.Read? && x.data.Some? && g.readAllowed) ==> t.Goes? && t.printed == []
  {
    match x
    case Fired => Goes(g.(readAllowed := true), [])
    case Read(data) =>
      if data.None? || !g.readAllowed then Goes(g, [])
      else
        match Decode(data.value)
        case Rejected(_) => Halts(BadFrame)
        case Raised(_) => Halts(Crash)
        case Accepted(id) =>
          if id != g.lastChipId then Goes(Globals(false, id), [id]) else Goes(g, [])
  }

  /** The loop of main.py from globals g on, over the trace. */
  function Loop(g: Globals, trace: seq<Input>): (r: Report)
    ensures r.consumed <= |trace|
    decreases |trace|
  {
    if trace == [] then Report([], Running, g, 0)
    else
      match LoopTurn(g, trace[0])
      case Halts(h) => Report([], h, g, 1)
      case Goes(g', out) =>
        var r := Loop(g', trace[1..]);
        Report(out + r.printed, r.halt, r.globals, r.consumed + 1)
  }

  function Continued(before: seq<string>, r: Report, i: nat): Report {
    r.(printed := before + r.printed, consumed := r.consumed + i)
  }

  /** The loop, one input unrolled. */
  lemma LoopUnfold(g: Globals, trace: seq<Input>)
    requires trace != []
    ensures var t := LoopTurn(g, trace[0]);
      Loop(g, trace) ==
        if t.Halts? then Report([], t.halt, g, 1)
        else Continued(t.printed, Loop(t.globals, trace[1..]), 1)
  {
  }

  lemma ContinuedAfter(before: seq<string>, out: seq<string>, r: Report, i: nat, j: nat)
    ensures Continued(before, Continued(out, r, j), i) == Continued(before + out, r, i + j)
  {
    assert before + (out + r.printed) == (before + out) + r.printed;
  }

  /** A loop still running after the first k inputs goes on from the
    * globals it has reached, with the ids it has printed so far. */
  lemma {:induction false} LoopPrefix(g: Globals, trace: seq<Input>, k: nat)
    requires k <= |trace| && Loop(g, trace[..k]).halt.Running?
    ensures var p := Loop(g, trace[..k]);
      Loop(g, trace) == Continued(p.printed, Loop(p.globals, trace[k..]), k)
    decreases k
  {
    if k == 0 {
      assert trace[..k] == [] && trace[k..] == trace;
    } else {
      var t := LoopTurn(g, trace[0]);
      LoopUnfold(g, trace);
      LoopUnfold(g, trace[..k]);
      assert trace[..k][0] == trace[0];
      assert trace[..k][1..] == trace[1..][..k - 1];
      assert trace[1..][k - 1..] == trace[k..];
      LoopPrefix(t.globals, trace[1..], k - 1);
      var p' := Loop(t.globals, trace[1..][..k - 1]);
      ContinuedAfter(t.printed, p'.printed, Loop(p'.globals, trace[k..]), 1, k - 1);
    }
  }

  /** What the packet read at input k does to a loop still running with the
    * flag open: a rejected packet ends the loop there (`break`), text it
    * cannot read crashes it there, and a new id is the next one printed. */
  lemma LoopAt(g: Globals, trace: seq<Input>, k: nat)
    requires k < |trace| && trace[k].Read? && trace[k].data.Some?
    requires Loop(g, trace[..k]).halt.Running? && Loop(g, trace[..k]).globals.readAllowed
    ensures var p, v, r := Loop(g, trace[..k]), Decode(trace[k].data.value), Loop(g, trace);
      && (v.Rejected? ==> r == Report(p.printed, BadFrame, p.globals, k + 1))
      && (v.Raised? ==> r == Report(p.printed, Crash, p.globals, k + 1))
      && (v.Accepted? && v.id != p.globals.lastChipId ==>
            |r.printed| > |p.printed| && r.printed[..|p.printed| + 1] == p.printed + [v.id])
  {
    var p, x := Loop(g, trace[..k]), trace[k];
    LoopPrefix(g, trace, k);
    LoopUnfold(p.globals, trace[k..]);
    assert trace[k..][0] == x;
    var t := LoopTurn(p.globals, x);
    var r := Loop(g, trace);
    var rest := Loop(p.globals, trace[k..]);
    assert r == Continued(p.printed, rest, k);
    if t.Halts? {
      assert rest == Report([], t.halt, p.globals, 1);
    } else if Decode(x.data.value).Accepted? && Decode(x.data.value).id != p.globals.lastChipId {
      var later := Loop(t.globals, trace[k..][1..]);
      assert t.printed == [Decode(x.data.value).id];
      assert rest.printed == t.printed + later.printed;
      assert r.printed == p.printed + rest.printed;
      assert r.printed[..|p.printed| + 1] == p.printed + [rest.printed[0]];
    }
  }

  /** The id the globals hold after printing `printed` from last id `last`. */
  function LastPrinted(last: string, printed: seq<string>): string {
    if printed == [] then last else printed[|printed| - 1]
  }

  /** The script never prints the same id twice in a row, nor first the id
    * it already held; the last chip id afterwards is the last id printed. */
  lemma {:induction false} NoRepeats(g: Globals, trace: seq<Input>)
    ensures var r := Loop(g, trace);
      && r.globals.lastChipId == LastPrinted(g.lastChipId, r.printed)
      && (r.printed != [] ==> r.printed[0] != g.lastChipId)
      && (forall i :: 0 < i < |r.printed| ==> r.printed[i] != r.printed[i - 1])
    decreases |trace|
  {
    if trace != [] {
      var t := LoopTurn(g, trace[0]);
      LoopUnfold(g, trace);
      if t.Goes? {
        var r, r' := Loop(g, trace), Loop(t.globals, trace[1..]);
        NoRepeats(t.globals, trace[1..]);
        assert r.printed == t.printed + r'.printed;
        if t.printed != [] {
          forall i | 0 < i < |r.printed|
            ensures r.printed[i] != r.printed[i - 1]
          {
            if i > 1 {
              assert r.printed[i] == r'.printed[i - 1] && r.printed[i - 1] == r'.printed[i - 2];
            }
          }
          if r'.printed != [] {
            assert r.printed[|r.printed| - 1] == r'.printed[|r'.printed| - 1];
          }
        }
      }
    }
  }

  /** Every id the script prints is the id of a packet it read. */
  predicate AllRead(ids: seq<string>, trace: seq<Input>, n: nat)
    requires n <= |trace|
  {
    forall id :: id in ids ==>
      exists k :: 0 <= k < n && trace[k].Read? && trace[k].data.Some? &&
        Decode(trace[k].data.value) == Accepted(id)
  }

  lemma {:induction false} PrintsParsedIds(g: Globals, trace: seq<Input>)
    ensures AllRead(Loop(g, trace).printed, trace, Loop(g, trace).consumed)
    decreases |trace|
  {
    if trace != [] {
      var t := LoopTurn(g, trace[0]);
      LoopUnfold(g, trace);
      if t.Goes? {
        var r, r' := Loop(g, trace), Loop(t.globals, trace[1..]);
        PrintsParsedIds(t.globals, trace[1..]);
        assert r.printed == t.printed + r'.printed && r.consumed == r'.consumed + 1;
        forall id | id in r.printed
          ensures exists k :: 0 <= k < r.consumed && trace[k].Read? && trace[k].data.Some? &&
                    Decode(trace[k].data.value) == Accepted(id)
        {
          if id in t.printed {
            assert trace[0].Read? && Decode(trace[0].data.value) == Accepted(id);
          } else {
            var k :| 0 <= k < r'.consumed && trace[1..][k].Read? && trace[1..][k].data.Some? &&
                       Decode(trace[1..][k].data.value) == Accepted(id);
            assert trace[k + 1] == trace[1..][k];
          }
        }
      }
    }
  }

  /** The number of timer callbacks among the inputs. */
  function Firings(inputs: seq<Input>): nat
    decreases |inputs|
  {
    if inputs == [] then 0 else (if inputs[0].Fired? then 1 else 0) + Firings(inputs[1..])
  }

  /** At most one id per opening of the flag: the ids printed, plus one if
    * the flag is still open, never exceed the timer callbacks among the
    * inputs used, plus one if the flag was open at the start. */
  lemma {:induction false} OnePerFiring(g: Globals, trace: seq<Input>)
    ensures var r := Loop(g, trace);
      |r.printed| + (if r.globals.readAllowed then 1 else 0) <=
        Firings(trace[..r.consumed]) + (if g.readAllowed then 1 else 0)
    decreases |trace|
  {
    if trace != [] {
      var t := LoopTurn(g, trace[0]);
      var r := Loop(g, trace);
      LoopUnfold(g, trace);
      assert trace[..r.consumed][0] == trace[0];
      if t.Goes? {
        var r' := Loop(t.globals, trace[1..]);
        OnePerFiring(t.globals, trace[1..]);
        assert trace[..r.consumed][1..] == trace[1..][..r'.consumed];
      }
    }
  }

  /** While the flag is false and the timer does not fire, the script only
    * drains the line: nothing is parsed, printed or changed. */
  lemma {:induction false} GatedIdle(g: Globals, trace: seq<Input>)
    requires !g.readAllowed && Fired !in trace
    ensures Loop(g, trace) == Report([], Running, g, |trace|)
    decreases |trace|
  {
    if trace != [] {
      assert trace[0] != Fired;
      GatedIdle(g, trace[1..]);
    }
  }

  /** The loop stops only on the packet that made it stop, read with the
    * flag open: `break` on a rejected packet, a crash on text it cannot read. */
  lemma {:induction false} LoopEnds(g: Globals, trace: seq<Input>)
    ensures var r := Loop(g, trace);
      && (r.halt.Running? ==> r.consumed == |trace|)
      && (!r.halt.Running? ==>
            0 < r.consumed && r.globals.readAllowed &&
            trace[r.consumed - 1].Read? && trace[r.consumed - 1].data.Some? &&
            (r.halt.BadFrame? <==> Decode(trace[r.consumed - 1].data.value).Rejected?) &&
            (r.halt.Crash? <==> Decode(trace[r.consumed - 1].data.value).Raised?))
    decreases |trace|
  {
    if trace != [] {
      var t := LoopTurn(g, trace[0]);
      LoopUnfold(g, trace);
      if t.Goes? {
        var r, r' := Loop(g, trace), Loop(t.globals, trace[1..]);
        LoopEnds(t.globals, trace[1..]);
        if !r.halt.Running? {
          assert trace[r.consumed - 1] == trace[1..][r'.consumed - 1];
        }
      }
    }
  }

  /** Unlike the reader class's callback, the script's timer callback keeps
    * the last chip id: once a chip's id has been printed, the timer firing
    * and that chip being read again, in any order and any number of times,
    * print nothing more and stop nothing. */
  lemma {:induction false} SameChipSilent(f: seq<byte>, id: string, open: bool, trace: seq<Input>)
    requires Decode(f) == Accepted(id)
    requires forall k :: 0 <= k < |trace| ==> trace[k] == Fired || trace[k] == Read(Some(f))
    ensures var r := Loop(Globals(open, id), trace);
      r.printed == [] && r.halt.Running? && r.globals.lastChipId == id
    decreases |trace|
  {
    if trace != [] {
      var t := LoopTurn(Globals(open, id), trace[0]);
      LoopUnfold(Globals(open, id), trace);
      assert t.Goes? && t.printed == [] && t.globals.lastChipId == id;
      SameChipSilent(f, id, t.globals.readAllowed, trace[1..]);
    }
  }

  /** From the script's start, a chip read first and then again between
    * timer firings is printed exactly once. */
  lemma PrintedOnce(f: seq<byte>, id: string, later: seq<Input>)
    requires Decode(f) == Accepted(id)
    requires forall k :: 0 <= k < |later| ==> later[k] == Fired || later[k] == Read(Some(f))
    ensures Loop(Globals(true, ""), [Read(Some(f))] + later).printed == [id]
  {
    assert id != "" by {
      DecodeCases(f);
    }
    var trace := [Read(Some(f))] + later;
    assert trace[1..] == later;
    assert LoopTurn(Globals(true, ""), trace[0]) == Goes(Globals(false, id), [id]);
    LoopUnfold(Globals(true, ""), trace);
    SameChipSilent(f, id, false, later);
  }

  // ---------------------------------------------------------------------
  // The script's state

  /** The script's globals as one object. */
  class Station {
    var readAllowed: bool
    var lastChipId: string

    function State(): Globals
      reads this
    {
      Globals(readAllowed, lastChipId)
    }

    /** The module-level initialisations before the loop. */
    constructor ()
      ensures State() == Globals(true, "")
    {
      readAllowed := true;
      lastChipId := "";
    }

    /** `resetLastChip`, the timer callback: it opens the flag only. */
    method ResetLastChip()
      modifies this
      ensures State() == old(State()).(readAllowed := true)
    {
      readAllowed := true;
    }

    /** What happens between two iterations of `while True`: a run of the
      * timer callback, or one iteration on the bytes one `uart.read()`
      * returned. `Running` when the loop goes on. */
    method Step(x: Input) returns (out: seq<string>, halt: Halt)
      modifies this
      ensures var t := LoopTurn(old(State()), x);
        if t.Halts? then halt == t.halt && State() == old(State())
        else halt.Running? && out == t.printed && State() == t.globals
    {
      out := [];
      halt := Running;
      match x {
        case Fired =>
          ResetLastChip();
        case Read(data) =>
          if data.Some? && readAllowed {
            var parsed := ParsePacket(data.value);
            match parsed
            case Rejected(_) =>
              halt := BadFrame;
            case Raised(_) =>
              halt := Crash;
            case Accepted(id) =>
              if id != lastChipId {
                lastChipId := id;
                readAllowed := false;
                out := [id];
              }
          }
      }
    }

    /** The `while True` loop, run over the whole trace: the ids it prints. */
    method Run(trace: seq<Input>) returns (printed: seq<string>, halt: Halt, steps: nat)
      modifies this
      ensures Report(printed, halt, State(), steps) == Loop(old(State()), trace)
    {
      printed := [];
      ghost var spec := Loop(State(), trace);
      var i := 0;
      while i < |trace|
        invariant 0 <= i <= |trace|
        invariant spec == Continued(printed, Loop(State(), trace[i..]), i)
        decreases |trace| - i
      {
        assert trace[i..][0] == trace[i] && trace[i..][1..] == trace[i + 1..];
        LoopUnfold(State(), trace[i..]);
        var out, stop := Step(trace[i]);
        if !stop.Running? {
          return printed, stop, i + 1;
        }
        ContinuedAfter(printed, out, Loop(State(), trace[i + 1..]), i, 1);
        printed := printed + out;
        i := i + 1;
      }
      return printed, Running, i;
    }
  }
}
