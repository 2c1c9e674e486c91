# nvitop command-line entry point, modelled in Dafny

nvitop is an interactive viewer for NVIDIA GPUs and their processes. This
project models the decision logic of its command-line entry point
(`nvitop/cli.py`) as Dafny functions, one method and lemmas over values that
are already known: the options argparse has read, whether stdin and stdout
are terminals, the device count NVML reports (or its failure), the value of
`CUDA_VISIBLE_DEVICES` (or its absence) and the names of the NVML functions
the installed bindings lack, and the interpreter's limit on the number of
digits `int()` converts.

- `wrappers.dfy` — `Option`, standing for Python's `None` and for "raised an
  exception".
- `text.dfy` (module `Text`) — the Python string operations applied to
  `CUDA_VISIBLE_DEVICES`: `str.split(',')` with its inverse `join`,
  `str.strip()`, `str.isnumeric()` and `int()` with its inverse `str()`.
- `visible_devices.dfy` (module `VisibleDevices`) — the choice of visible
  devices: `--only` first, then `--only-visible` with the variable, then all
  devices. The choice is intersected with `range(device_count)` and sorted.
- `examples_devices.dfy` (module `DeviceSelectionExamples`) — worked
  examples of that choice on concrete variable values.
- `arguments.dfy` (module `Arguments`) — `parse_arguments`: the `choices`
  check on the threshold options, a bare `--monitor` becoming `auto`, and
  each threshold pair stored sorted.
- `messages.dfy` (module `Messages`) — the error messages: the terminal
  error and the report on unknown NVML functions. The report can be read
  back to recover the function names.
- `cli.dfy` (module `Cli`) — `main` as the method `Run`. It collects the
  error messages step by step. It returns what the UI is asked to show, the
  messages printed to stderr, and through `ExitCode` the exit status.

Where the help text and the code disagree, the model follows the code:
- The help text asks for `1 <= th1 < th2 <= 99`. The code only checks that
  each value is in 1..99 and then sorts the pair, so equal thresholds are
  accepted (`Arguments.EqualThresholdsAccepted`).
- When `Device.count()` fails, `main` returns 1 straight away. The terminal
  error it may already have collected is never printed
  (`Cli.Run`, outcome `DeviceCountFailed`).

## Model

| member | source | states |
|---|---|---|
| `Text.Split` | nvitop/cli.py:71 | `value.split(',')` yields at least one piece, and no piece contains the separator |
| `Text.JoinSplit` | nvitop/cli.py:71 | joining the pieces with the separator gives back the original string |
| `Text.SplitJoin` | nvitop/cli.py:71 | splitting separator-free pieces joined by the separator gives back the pieces, so split and join are inverses |
| `Text.IsSpace` | nvitop/cli.py:71 | the 29 code points of `str.isspace()` that `str.strip()` removes; none of them is numeric or a comma, so stripping never removes a digit or a separator |
| `Text.StripLeft` | nvitop/cli.py:71 | the result is the suffix left after removing only whitespace, and it does not start with whitespace |
| `Text.StripRight` | nvitop/cli.py:71 | the result is the prefix left after removing only whitespace, and it does not end with whitespace |
| `Text.Strip` | nvitop/cli.py:71 | a stripped token has no whitespace at either end and is no longer than the original |
| `Text.StripPadded` | nvitop/cli.py:71 | stripping a core wrapped in any whitespace gives exactly that core; all-whitespace strips to the empty string |
| `Text.StripKeepsOut` | nvitop/cli.py:71 | stripping only removes characters, so a comma-free piece stays comma-free |
| `Text.IsNumeric` | nvitop/cli.py:72 | `str.isnumeric()` on the modelled alphabet (ASCII digits plus six Latin-1 numeric characters that are not decimal digits; see "## Left out"): every decimal string passes, and a passing token is non-empty with no whitespace at either end |
| `Text.ParseInt` | nvitop/cli.py:72-74 | `int()` returns a value exactly on a non-empty string of decimal digits no longer than the interpreter's digit limit (0 meaning no limit); otherwise it raises ValueError (None) |
| `Text.DecimalValueOfDecimalString` | nvitop/cli.py:72 | the decimal spelling of n denotes n |
| `Text.ParseIntDecimalString` | nvitop/cli.py:72 | `int(str(n)) == n` whenever `str(n)` is within the digit limit (beyond it `str(n)` itself raises) |
| `Text.NumericParseFails` | nvitop/cli.py:72-74 | a token that passes `isnumeric()` is rejected by `int()` exactly when it holds a non-decimal numeric character or has more digits than the limit allows |
| `VisibleDevices.StripEach` | nvitop/cli.py:71 | `map(str.strip, parts)` keeps the length, and each token is the strip of its piece |
| `VisibleDevices.Tokens` | nvitop/cli.py:71 | the variable's value gives at least one token, and no token holds a comma or has whitespace at either end |
| `VisibleDevices.NumericValues` | nvitop/cli.py:72-74 | raises (None) exactly when some numeric token fails `int()`; otherwise the set holds exactly the values of the numeric tokens, and non-numeric tokens are skipped |
| `VisibleDevices.ParseCudaVisibleDevices` | nvitop/cli.py:70-74 | an unset variable, or a numeric token that `int()` rejects, leads to the fallback (None), and nothing else does; the indices it names are never negative |
| `VisibleDevices.AllDevices` | nvitop/cli.py:74-76 | `set(range(count))` holds exactly the integers 0 to count - 1 |
| `VisibleDevices.RequestedDevices` | nvitop/cli.py:67-76 | with `--only`, exactly the listed indices; without it, only non-negative indices: every device when `--only-visible` is off or the variable cannot be used, else the indices the variable names |
| `VisibleDevices.SortedInRange` | nvitop/cli.py:77 | the result is strictly increasing, every entry is below the count, and it holds exactly the requested indices in `[0, count)` |
| `VisibleDevices.SelectVisibleDevices` | nvitop/cli.py:67-77 | the visible-device list is strictly increasing, every entry is a device index, and it holds exactly the requested indices in `[0, count)`; the lemmas below pin it down case by case |
| `VisibleDevices.SortedUnique` | nvitop/cli.py:77 | two strictly increasing sequences with the same members are equal, so the result is the sorted listing of the set |
| `VisibleDevices.SelectionWellFormed` | nvitop/cli.py:67-77 | for every combination of options, the visible-device list is strictly increasing, in range, and no longer than the device count |
| `VisibleDevices.OnlyOverridesOnlyVisible` | nvitop/cli.py:67-77 | with `--only`, neither `--only-visible` nor the variable matters, and the result is exactly the requested indices in `[0, count)` |
| `VisibleDevices.AllDevicesInOrder` | nvitop/cli.py:76-77 | selecting from all devices gives `0, 1, ..., count - 1` |
| `VisibleDevices.FallbackToAllDevices` | nvitop/cli.py:69-77 | without `--only`, all devices are shown if `--only-visible` is off, the variable is unset, or a numeric token fails `int()` |
| `VisibleDevices.SelectedFromEnvironment` | nvitop/cli.py:69-77 | with `--only-visible` and a parsable variable, an index is shown exactly when it is in range and some stripped numeric token has that value |
| `VisibleDevices.NoNumericTokenSelectsNothing` | nvitop/cli.py:71-77 | a variable with no numeric token selects no device, and there is no fallback |
| `VisibleDevices.PaddedTokenNamesSameDevice` | nvitop/cli.py:71-72 | whitespace around a single decimal token does not change the device it names |
| `VisibleDevices.SingleDecimalToken` | nvitop/cli.py:72 | a single decimal token within the digit limit gives the one-element set of its value |
| `VisibleDevices.TooManyDigitsFallsBack` | nvitop/cli.py:71-77 | a single decimal token longer than the digit limit makes `int()` raise, so every device is shown |
| `DeviceSelectionExamples.ExampleTwoDevices` | nvitop/cli.py:69-77 | `CUDA_VISIBLE_DEVICES="0,2"` shows devices `[0, 2]` when there are at least three devices |
| `DeviceSelectionExamples.ExampleNonDecimalNumericFallsBack` | nvitop/cli.py:72-74 | a superscript-two token passes `isnumeric()`, fails `int()`, and so every device is shown |
| `DeviceSelectionExamples.ExampleTooManyZeros` | nvitop/cli.py:71-77 | 4301 zeros show every device under the default limit of 4300 digits, and only device 0 when there is no limit |
| `DeviceSelectionExamples.ExampleEmptyVariable` | nvitop/cli.py:71-77 | an empty variable hides every device |
| `DeviceSelectionExamples.ExampleSkippedTokens` | nvitop/cli.py:71-72 | a GPU UUID and `-1` are skipped and do not raise |
| `Arguments.ValidThresholdArgument` | nvitop/cli.py:31-36 | `choices=range(1, 100)` admits an absent option, and a given pair exactly when both values are in 1..99 |
| `Arguments.ValidCommandLine` | nvitop/cli.py:27-36 | the command line is accepted exactly when a given `--only` names at least one index and every given threshold value of both options is in 1..99 |
| `Arguments.SortedPair` | nvitop/cli.py:46 | the stored pair is ascending and a permutation of the two values given |
| `Arguments.StoredThresholds` | nvitop/cli.py:45-48 | a given pair is stored ascending as a permutation of its values; with no pair, the current value stays |
| `Arguments.MonitorModeOf` | nvitop/cli.py:43-44 | no monitor mode exactly when `--monitor` is absent; a bare `--monitor` means `auto`; a given mode is kept |
| `Arguments.ParseArguments` | nvitop/cli.py:27-48 | accepted exactly when the command line is valid (a given `--only` is non-empty, each given threshold value is in 1..99); the monitor mode, options and stored thresholds are as described above |
| `Arguments.SuppliedThresholdsStoredInRange` | nvitop/cli.py:31-48 | a supplied threshold pair is stored with `1 <= th1 <= th2 <= 99` |
| `Arguments.SortedPairCanonical` | nvitop/cli.py:46 | the order in which the two thresholds are typed does not matter, and sorting is idempotent |
| `Arguments.EqualThresholdsAccepted` | nvitop/cli.py:31-48 | equal thresholds `t t` are accepted and stored as `(t, t)`; `th1 < th2` is not enforced |
| `Arguments.BareMonitorIsAuto` | nvitop/cli.py:43-44 | a bare `--monitor` yields monitor mode `auto` |
| `Messages.QueryLine` | nvitop/cli.py:96 | a query line is the fixed `    nvmlQuery('` prefix, the function name, and the fixed `', *args, **kwargs)` suffix |
| `Messages.QueriedName` | nvitop/cli.py:96 | a recovered name, when there is one, is the name whose query line is the given line |
| `Messages.QueriedNameOfQueryLine` | nvitop/cli.py:96 | the name is recovered from its own query line |
| `Messages.QueryLines` | nvitop/cli.py:95-96 | one query line per unknown function, in order |
| `Messages.UnknownFunctionMessages` | nvitop/cli.py:90-98 | nothing exactly when no function is unknown; otherwise a header (singular exactly for one function), the query lines in order and the advice line |
| `Messages.ReportedNamesOfQueryLines` | nvitop/cli.py:95-96 | the query lines give back the function names in order |
| `Messages.UnknownFunctionsRecoverable` | nvitop/cli.py:90-98 | the unknown functions can be read back from the messages, all of them and in order |
| `Messages.TerminalRequiredNotAmongUnknownFunctionMessages` | nvitop/cli.py:58-98 | the terminal error never appears among the unknown-function messages |
| `Messages.TerminalRequiredRecordedOnce` | nvitop/cli.py:56-98 | the collected messages contain the terminal error once if it was recorded, and not at all otherwise |
| `Cli.MonitorWithoutTerminal` | nvitop/cli.py:58 | the terminal error applies exactly when a monitor mode was asked for and stdin or stdout is not a terminal |
| `Cli.ExitCode` | nvitop/cli.py:62-103 | the status is 0 exactly for a finished run with no error message, 2 exactly for an argparse error, and otherwise 1 |
| `Cli.Run` | nvitop/cli.py:53-103 | argparse error (an empty `--only` or a threshold value outside 1..99), device-count failure or completion, each exactly when its inputs say so. When the run completes: the devices are the selected list; the monitor loop runs exactly when monitor mode was asked for, both streams are terminals and a device is visible; the messages are the terminal error (exactly once, when monitor mode lacks a terminal) followed by the unknown-function report. The exit status is 0 exactly when no failure and no message occurs |

## Left out

- `nvitop/api/libasmi.py` as a whole: a thin wrapper over the foreign AMD SMI library, which `main` does not call.
  - `asmi_available` and `device_count` initialise the library lazily. Initialisation registers the library's shutdown with `atexit` and prints any `AmdSmiException` instead of raising it.
  - `device_count`, `device_handle` and `get_uuid` catch nothing.
  - The other getters wrap one native call, or two for memory, utilisation, fan speed and driver version (the last through `device_handle(0)`). On `AmdSmiException` they return a sentinel (`None` or `0, 0`). Some of them print the exception first; the fan-speed, power-usage and power-cap getters do not.
  - The only logic of its own is the index check in `device_handle`. It tests `index > len(devices)`, so `index == len(devices)` reaches the list lookup and raises `IndexError`, not the library's exception.
- argparse itself: `--version`, the help and usage text, the coloured help, and rejecting unknown options or a `--monitor` value outside `auto`, `full` and `compact`. `--monitor` is a datatype with the three modes, and `--only` is a list of integers. Only the `choices=range(1, 100)` check on the thresholds and the rule that `--only` (`nargs='+'`) takes at least one index are modelled, as `ArgumentError` with status 2; argparse's messages for them are not.
- `Device.count`, `nvml.NVMLError` and `nvml.UNKNOWN_FUNCTIONS` are inputs: the count is `Option<nat>`, and the unknown functions are their names.
- `Device.from_indices` is not modelled: the UI is given the list of visible indices itself (`Display.devices`), not device objects.
- The curses UI (`libcurses`, `Top`, `loop`, `print`, `destroy`) and the `isatty` checks. The TTY state is two booleans. The UI is the `Display` value it is given: monitor mode present means loop then print, absent means print once.
- Printing the messages to stderr and `sys.exit`: `Run` returns the messages and `ExitCode` the status.
- The class attributes `Device.GPU_UTILIZATION_THRESHOLDS` and `Device.MEMORY_UTILIZATION_THRESHOLDS` are not shared state. Their current values are parameters, and the new values are returned. Their defaults are defined in `nvitop/core`, which is not part of this model.
- `str.isnumeric()` and `int()` are modelled on ASCII digits plus six Latin-1 numeric characters that are not decimal digits (superscript one, two and three; one quarter, one half, three quarters). Other Unicode numeric characters are not modelled. In particular, a non-ASCII decimal digit, which Python's `int()` accepts, is treated as non-numeric here and skipped.
- `Text.ParseInt`: the interpreter's limit on the digits `int()` converts (`sys.get_int_max_str_digits()`, 4300 by default on the versions that have it) is the parameter `maxStrDigits`, with 0 meaning no limit. CPython refuses a positive limit below 640; the model accepts any natural number.
- `str.strip()` removes the single code points for which Python's `str.isspace()` holds. `int()` would also accept signs, underscores and surrounding whitespace, but no token that passes `isnumeric()` has any.
- The `repr` in each query line is modelled as single quotes around the name. Escaping a name that contains a quote, a backslash or an unprintable character is not modelled, because the `__name__` of an NVML binding function is a plain identifier.
- Python's lazy `map` stops at the first token that `int()` rejects. The model evaluates every token, which gives the same result: any such token triggers the fallback.
