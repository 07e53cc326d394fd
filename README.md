# RDM6300-Pico in Dafny

A model of the core of RDM6300-Pico, a MicroPython driver for the RDM6300
125 kHz RFID reader on a Raspberry Pi Pico, with proofs about it.

- **The frame decoder** is `parse_packet`, in `utils/rfid.py` and again in
  `main.py` with the same logic. The reader module sends 14 octets:
  - STX `0x02`;
  - ten ASCII hex digits of card data, which are a site-code octet and the
    four octets of the tag number;
  - two ASCII hex digits of checksum, the XOR of the five card-data octets;
  - ETX `0x03`.

  The decoder checks the framing and the checksum. It returns the tag number,
  without the site code, as a decimal string. `Rdm6300.Decode` is the decoder
  as a function. `Rdm6300.DecodeCases` states what it decides.
  `Rdm6300.ParsePacket` is the source's guard chain and XOR loop, proved equal
  to `Decode`. Both copies of `parse_packet` are modelled by these members.
- **The acquisition strategies of `RFIDReader`** are `read_single_chip`,
  `detect_chip_with_id` and the generator `read_continuously`. They share two
  fields: the read-allowed flag and the last chip id. A periodic timer
  callback, `reset_last_chip`, sets the flag true and clears the id.
  - The serial line and the clock are a finite trace of events:
    - `Poll(now, data)` is one iteration of a strategy's loop, with the clock
      reading and the `uart.read()` answer it sees.
    - `Reset` is one run of the timer callback between two iterations.
  - Each strategy is a specification function over the trace: `SingleRun`,
    `DetectRun`, `StreamRun` and `ContinuousRun`. Lemmas state what each
    strategy returns and what the fields hold afterwards.
  - The class `Reader.RFIDReader` holds the two fields. Its methods run the
    source's loops over the trace and are proved equal to those functions.
- **The script `main.py`** has a module-level flag and last id, and a timer
  callback that only sets the flag. Its `while True` loop prints each new id.
  It is modelled the same way: the function `MainLoop.Loop` and the class
  `MainLoop.Station`.
- **`Logger`** has five ranked levels, a current threshold and a per-level
  switch. Its setters raise `ValueError` on unknown names. `log` prints when
  the level is known, ranks at or above the threshold and is switched on.

In these places the model follows the code, which a reader might expect to
behave otherwise:
- Card data that is not ten hex digits, or checksum text that `int(_, 16)`
  cannot read (see `Rdm6300.IntBase16`), makes `unhexlify` or `int` raise
  `ValueError`. The model lets that error end the strategy (`Failed`,
  `StreamFailed`, `Crash`); the frame is not skipped.
- In `main.py`, a frame `parse_packet` rejects ends the loop (`break`).
- A checksum field of one hex digit with a sign before it, or with one white
  space character before or after it, is read by `int(_, 16)` as a number, so
  the frame is checked against that value rather than raising.
- The timer callback of `main.py` sets the flag only and keeps the last chip
  id.
- The stop flag of `read_continuously` is a plain value. It can only stop
  the generator before its first iteration.
- The reset timer is never stopped. `Reset` events may therefore occur during
  any strategy, since a timer started by an earlier `read_continuously` keeps
  running.

## Model

| member | source | states |
|---|---|---|
| Ascii.UnhexlifyCases | utils/rfid.py:73 | `unhexlify` succeeds exactly on an even number of hex digits (either case); then there is one octet per digit pair, worth 16 × the first digit + the second |
| Ascii.UnhexlifyHexlify | utils/rfid.py:73 | decoding the upper-case hex rendering of any octets gives those octets back |
| Ascii.Decimal | utils/rfid.py:88 | `str(n)` is a numeral of digits only, with no leading zero except "0", whose base-10 value is n |
| Ascii.DecimalOfValue | utils/rfid.py:88 | canonical numerals and naturals correspond one to one: rendering a canonical numeral's value gives the numeral back |
| Rdm6300.IntBase16 | utils/rfid.py:76 | `int(chr(a) + chr(b), 16)`: two hex digits give 16 × the first + the second; any other result needs one of the two characters to be a hex digit, and lies in (-16, 256) |
| Rdm6300.DecodeCases | utils/rfid.py:36-88 | checks in the source's order: length ≠ 14, then header ≠ 0x02, then stop byte ≠ 0x03 each reject; card data that is not ten hex digits, or checksum text `int(_, 16)` cannot read, raises; an accepted frame has XOR of the five octets = checksum value; the id is the canonical decimal of digits 3–10 and is below 2^32 |
| Rdm6300.ParsePacket | utils/rfid.py:36-88 | the guard chain, `unhexlify`, the XOR loop and the checksum comparison return exactly `Decode`'s verdict (`main.py`'s copy at lines 7-62 is the same code) |
| Rdm6300.EncodeFrame | utils/rfid.py:37-47 | the frame built from a site code and a tag number has length 14, STX first and ETX last |
| Rdm6300.RoundTrip | utils/rfid.py:68-88 | for every site code and tag number n < 2^32, the frame with its XOR checksum decodes to `str(n)` |
| Rdm6300.IdRoundTrip | utils/rfid.py:85-88 | every canonical decimal id below 2^32, framed under any site code, decodes to itself |
| Rdm6300.SameIdIffSameNumber | utils/rfid.py:85-88 | two accepted frames give the same id exactly when digits 3–10 spell the same number, whatever their site codes |
| Rdm6300.ExampleFrame | test/rfid_test.py:16 | 0x02 "00006140C8" "E9" 0x03 decodes to "6373576" |
| Rdm6300.ExampleChecksumForged | utils/rfid.py:79-81 | the example with any other readable checksum text fails the checksum |
| Rdm6300.ExampleFramingCorrupted | utils/rfid.py:51-66 | the example cut to 13 octets, with header zeroed, or with stop byte zeroed, is rejected for that reason |
| Rdm6300.ChecksumDetectsForgery | utils/rfid.py:76-81 | replacing an accepted frame's checksum text by readable text of another value makes it fail the checksum |
| Reader.SingleReadEnds | utils/rfid.py:90-115 | `read_single_chip` gives `None` only on a poll where elapsed > timeout (strict), never with no timeout; otherwise it returns the parsed id of a poll before the deadline, and the flag is false and the last id is that id; a raise comes from text `parse_packet` cannot read |
| Reader.SingleReadPasses | utils/rfid.py:102-109 | every event before the deciding one is a reset or a poll before the deadline with no data or a rejected packet: the open flag never blocks a packet |
| Reader.SingleReadKeeps | utils/rfid.py:90-115 | until an id is found the flag stays true, and the last id is unchanged or cleared by a reset |
| Reader.DetectEnds | utils/rfid.py:117-142 | `detect_chip_with_id` returns only the target id, from a poll before the deadline, then the flag is false; `None` only when elapsed > timeout, never with no timeout |
| Reader.DetectPasses | utils/rfid.py:128-135 | every event before the deciding one is a reset or a poll before the deadline with no data, a rejected packet, or another chip's id |
| Reader.DetectKeeps | utils/rfid.py:130-140 | until the target is found the flag stays true and the last id is that of the last other chip parsed since the last reset |
| Reader.StreamStep | utils/rfid.py:150-173 | one generator iteration, both ways round: with the flag false a poll does nothing and a reset opens the flag and clears the id; with the flag open, a poll past the deadline stops with `None`, and before it an accepted packet is yielded (flag false, last id that id), a rejected one is passed over, and text `parse_packet` cannot read stops with the raise; every stop and every yield comes from one of these cases |
| Reader.ContinuousRun | utils/rfid.py:144-150 | a true stop flag ends the generator at once with nothing yielded; a false one never stops it |
| Reader.StreamOnePerReset | utils/rfid.py:150-173 | yields + (flag open at end) ≤ resets + (flag open at start): at most one id per opening of the flag |
| Reader.StreamYieldsParsedIds | utils/rfid.py:161-173 | every yielded id is the id `parse_packet` gives on some poll's data |
| Reader.StreamGatedIdle | utils/rfid.py:150-152 | while the flag is false and no reset comes, the generator yields nothing, never times out and changes nothing |
| Reader.StreamEnds | utils/rfid.py:150-168 | the generator ends only on a poll with the flag open: a timeout ending comes from a poll with elapsed > timeout, never with no timeout, and a raise from text `parse_packet` cannot read (the converse is `StreamAt`) |
| Reader.StreamPrefix | utils/rfid.py:150-173 | a generator still running after k events goes on from the fields it reached, after the ids it yielded so far |
| Reader.StreamAt | utils/rfid.py:150-173 | for a generator still running with the flag open at event k, a poll there past the deadline ends it with `None` at k; before the deadline text `parse_packet` cannot read ends it with the raise at k, and an accepted packet's id is the next id yielded |
| Reader.StreamRestart | utils/rfid.py:144-173 | polls p, p, reset, p of one chip yield its id twice: once per reset interval |
| Reader.RFIDReader.constructor | utils/rfid.py:14-15 | a new reader has the flag true and an empty last id |
| Reader.RFIDReader.ResetLastChip | utils/rfid.py:18-20 | the callback sets the flag true and clears the last id |
| Reader.RFIDReader.ReadSingleChip | utils/rfid.py:90-115 | the loop's result, the new fields and the polls used are exactly `SingleRun`'s |
| Reader.RFIDReader.DetectChipWithId | utils/rfid.py:117-142 | the loop's result, the new fields and the polls used are exactly `DetectRun`'s |
| Reader.RFIDReader.StreamIteration | utils/rfid.py:150-173 | one iteration does what `StreamStep` says to the fields and the output |
| Reader.RFIDReader.ReadContinuously | utils/rfid.py:144-173 | the ids yielded in order, how the generator ends, the new fields and the polls used are exactly `ContinuousRun`'s |
| MainLoop.LoopTurn | main.py:81-94 | one iteration, both ways round: data read with the flag open ends the loop with `break` if rejected and with a crash if it raises, prints a new id (setting the last id and closing the flag), and drops a repeated id with no change; no data, a closed flag or a timer firing never prints or stops, and the firing only sets the flag; every print and every stop comes from one of these cases |
| MainLoop.NoRepeats | main.py:90-92 | the script never prints the same id twice in a row, nor first the id it already held; the last id afterwards is the last id printed |
| MainLoop.PrintsParsedIds | main.py:84-94 | every printed id is the id `parse_packet` gives on some read's data |
| MainLoop.OnePerFiring | main.py:68-92 | printed ids + (flag open at end) ≤ timer firings + (flag open at start) |
| MainLoop.GatedIdle | main.py:82-84 | with the flag false and no timer firing, the loop drains the line and does nothing else |
| MainLoop.LoopEnds | main.py:84-89 | the loop stops only on the packet that stopped it, read with the flag open: `break` exactly on a rejected packet, a crash exactly on text `parse_packet` cannot read (the converse is `LoopAt`) |
| MainLoop.LoopPrefix | main.py:81-94 | a loop still running after k inputs goes on from the globals it reached, after the ids it printed so far |
| MainLoop.LoopAt | main.py:84-92 | for a loop still running with the flag open at input k, a rejected packet read there ends it with `break` at k, text `parse_packet` cannot read crashes it at k, and a new id is the next one printed |
| MainLoop.SameChipSilent | main.py:68-70 | once a chip's id is the last id, timer firings and reads of that chip print nothing and never stop the loop |
| MainLoop.PrintedOnce | main.py:80-94 | from the script's start, one chip read, then read again between any number of firings, is printed exactly once |
| MainLoop.Station.constructor | main.py:65-80 | the globals start with the flag true and an empty last id |
| MainLoop.Station.ResetLastChip | main.py:68-70 | the callback sets the flag true and leaves the last id |
| MainLoop.Station.Step | main.py:82-94 | one iteration or firing does what `LoopTurn` says to the globals and the output |
| MainLoop.Station.Run | main.py:81-94 | the ids printed in order, how the loop ends, the new globals and the inputs used are exactly `Loop`'s |
| Logging.Decide | utils/logger.py:34-39 | `log` prints exactly when the level is known, the current level is known and ranks no higher, and the level is on; an unknown level does nothing; a known level under an unknown current level raises KeyError |
| Logging.Logger.constructor | utils/logger.py:5-14 | the level, "INFO" when none is given, is stored unchecked and all five levels start switched on |
| Logging.Logger.SetLevel | utils/logger.py:16-20 | a known name becomes the current level; an unknown one raises `ValueError("Invalid log level '<name>'")` and changes nothing |
| Logging.Logger.EnableLevel | utils/logger.py:22-26 | a known name's switch turns on and nothing else changes; an unknown one raises `ValueError` and changes nothing |
| Logging.Logger.DisableLevel | utils/logger.py:28-32 | a known name's switch turns off and nothing else changes; an unknown one raises `ValueError` and changes nothing |
| Logging.Logger.Log | utils/logger.py:34-49 | the method decides as `Decide` and changes nothing |
| Logging.Logger.Debug | utils/logger.py:51-52 | `log("DEBUG", message)` |
| Logging.Logger.Info | utils/logger.py:54-55 | `log("INFO", message)` |
| Logging.Logger.Warning | utils/logger.py:57-58 | `log("WARNING", message)` |
| Logging.Logger.Error | utils/logger.py:60-61 | `log("ERROR", message)` |
| Logging.Logger.Critical | utils/logger.py:63-64 | `log("CRITICAL", message)` |
| Logging.LevelOrder | utils/logger.py:6-12 | the five levels rank strictly DEBUG < INFO < WARNING < ERROR < CRITICAL |
| Logging.ThresholdMonotone | utils/logger.py:37 | raising the current level never lets more messages through |
| Logging.PrintedUpwardClosed | utils/logger.py:36-39 | among switched-on levels, any level ranking at least as high as a printed one is printed |
| Logging.DisabledIsSilent | utils/logger.py:38 | a switched-off level prints nothing, whatever the threshold |
| Logging.WarningThreshold | utils/logger.py:34-39 | with every level on and the threshold at WARNING, exactly WARNING, ERROR and CRITICAL are printed |

## Left out

- The hardware: UART and pin setup, and the `Timer` objects (`start_reset_timer`, `stop_reset_timer`, and the timer set-up in `main.py`). The line is the `data` of each poll, and the timer is the `Reset`/`Fired` events.
- `stop_reset_timer` is never called. It reads `reset_timer` before any assignment when the timer was never started.
- Real concurrency between the timer interrupt and the polling loop. A callback runs only between two iterations, so there are no torn reads or writes of the flag.
- UART buffering: each poll's `data` is what that `uart.read()` returns. Bytes that arrive while `read_continuously` is gated, or that `main.py` drains, are not tracked across polls.
- Reader.Expired: `ticks_diff` wrap-around of the millisecond counter is not modelled; the clock is an unbounded natural number.
- The unbounded loops: each run covers a finite trace. A strategy still polling at the end of the trace is `Pending`, `StreamPending` or `Running`.
- The generator's laziness and pacing: `read_continuously` is modelled as the list of ids it yields over the trace.
- Logging and printing: `RFIDReader.log`, `enable_logging`/`disable_logging`, the `print` calls, and the `Logger` timestamp (`utime.localtime`) and line format. Printing is the `Printed(level, message)` outcome.
- Rdm6300.IntBase16: models only what the two runtimes agree on for two ASCII characters. Left out: CPython's extra whitespace characters (0x1C–0x1F, 0x85, 0xA0) around a single digit, and MicroPython's acceptance of `_`.
- `RFIDReader.__init__`'s `gpioPin` and `logEnabled` parameters, which only configure hardware and logging.
- The stop callback in `test/rfid_test.py` assigns a local variable that the generator never sees, so it is not a stop signal.
- `utils/led.py`, `utils/webserver.py`, `static/rfid_test.py` and `test/led_test.py` are not part of this model: GPIO, threads, HTTP glue and constant text.
