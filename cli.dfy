/** The entry point `main`: it parses the arguments, drops monitor mode when
    stdin or stdout is not a terminal, counts the devices, selects the visible
    ones, runs the terminal UI once or as a monitor loop, and turns the
    collected error messages into the exit status. NVML, curses, the
    terminal checks and the interpreter's digit limit for `int()` are inputs
    here; the UI is described by what it is asked to show. */
module Cli {
  import opened Wrappers
  import opened Arguments
  import opened VisibleDevices
  import opened Messages

  /** What the `Top` UI object is given. With a monitor mode it runs its
      interactive loop in that mode and then prints; without one it prints
      a single snapshot. The thresholds are the values in force on `Device`. */
  datatype Display = Display(
    devices: seq<nat>,
    monitor: Option<MonitorMode>,
    ascii: bool,
    gpuThresholds: Thresholds,
    memThresholds: Thresholds)

  datatype Outcome =
    | ArgumentError                 // argparse rejected the command line
    | DeviceCountFailed             // `Device.count()` raised NVMLError
    | Finished(display: Display, errors: seq<string>)

  /** The process exit status: 2 for an argparse error, 1 when the device
      count failed or an error message was collected, 0 otherwise. */
  function ExitCode(o: Outcome): (code: int)
    ensures code == 0 <==> o.Finished? && o.errors == []
    ensures code == 2 <==> o.ArgumentError?
    ensures code == 0 || code == 1 || code == 2
  {
    match o
    case ArgumentError => 2
    case DeviceCountFailed => 1
    case Finished(_, errors) => if |errors| > 0 then 1 else 0
  }

  /** Monitor mode was asked for, but stdin or stdout is not a terminal. */
  predicate MonitorWithoutTerminal(cl: CommandLine, stdinIsTty: bool, stdoutIsTty: bool): (b: bool)
    ensures b <==> MonitorModeOf(cl.monitor).Some? && !(stdinIsTty && stdoutIsTty)
  {
    !cl.monitor.Omitted? && !(stdinIsTty && stdoutIsTty)
  }

  /** `main`. The error messages are collected in order: the terminal error
      first, then the report on unknown NVML functions. When the device count
      fails, `main` returns 1 at once and the messages collected so far are
      never printed. */
  method Run(cl: CommandLine, gpuDefault: Thresholds, memDefault: Thresholds,
             stdinIsTty: bool, stdoutIsTty: bool, deviceCount: Option<nat>,
             cudaVisibleDevices: Option<string>, maxStrDigits: nat, unknownFunctions: seq<string>)
    returns (o: Outcome)
    ensures o.ArgumentError? <==> !ValidCommandLine(cl)
    ensures o.DeviceCountFailed? <==> ValidCommandLine(cl) && deviceCount.None?
    ensures o.Finished? ==>
      o.display.devices == SelectVisibleDevices(cl.only, cl.onlyVisible, cudaVisibleDevices, deviceCount.value, maxStrDigits)
    ensures o.Finished? ==>
      (o.display.monitor.Some? <==> !cl.monitor.Omitted? && stdinIsTty && stdoutIsTty && |o.display.devices| > 0)
    ensures o.Finished? && o.display.monitor.Some? ==> o.display.monitor == MonitorModeOf(cl.monitor)
    ensures o.Finished? ==> (o.display.ascii == cl.ascii
      && o.display.gpuThresholds == StoredThresholds(cl.gpuUtilThresh, gpuDefault)
      && o.display.memThresholds == StoredThresholds(cl.memUtilThresh, memDefault))
    ensures o.Finished? ==>
      o.errors == (if MonitorWithoutTerminal(cl, stdinIsTty, stdoutIsTty) then [TerminalRequired] else [])
                  + UnknownFunctionMessages(unknownFunctions)
    ensures o.Finished? ==>
      multiset(o.errors)[TerminalRequired] == (if MonitorWithoutTerminal(cl, stdinIsTty, stdoutIsTty) then 1 else 0)
    ensures ExitCode(o) == 0 <==>
      ValidCommandLine(cl) && deviceCount.Some? && !MonitorWithoutTerminal(cl, stdinIsTty, stdoutIsTty)
      && unknownFunctions == []
  {
    var parsed := ParseArguments(cl, gpuDefault, memDefault);
    if parsed.None? {
      return ArgumentError;
    }
    var options := parsed.value.options;

    var errorMessages: seq<string> := [];
    if options.monitor.Some? && !(stdinIsTty && stdoutIsTty) {
      errorMessages := errorMessages + [TerminalRequired];
      options := options.(monitor := None);
    }
    ghost var terminalErrors: seq<string> :=
      if MonitorWithoutTerminal(cl, stdinIsTty, stdoutIsTty) then [TerminalRequired] else [];
    assert errorMessages == terminalErrors;

    if deviceCount.None? {
      return DeviceCountFailed;
    }
    var count := deviceCount.value;

    var visibleDevices := SelectVisibleDevices(options.only, options.onlyVisible, cudaVisibleDevices, count, maxStrDigits);

    var monitor: Option<MonitorMode> := None;
    if options.monitor.Some? && |visibleDevices| > 0 {
      monitor := options.monitor;
    }
    var display := Display(visibleDevices, monitor, options.ascii,
                           parsed.value.gpuThresholds, parsed.value.memThresholds);

    var unknownMessages := UnknownFunctionMessages(unknownFunctions);
    TerminalRequiredRecordedOnce(|errorMessages| > 0, unknownFunctions);
    errorMessages := errorMessages + unknownMessages;
    assert errorMessages == terminalErrors + UnknownFunctionMessages(unknownFunctions);

    o := Finished(display, errorMessages);
  }
}
