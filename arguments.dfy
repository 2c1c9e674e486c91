/** What `parse_arguments` does with the values argparse has already read:
    the `choices` check on the two threshold options, the default mode of a
    bare `--monitor`, and the sorting of each threshold pair before it
    replaces the class-wide default on `Device`. */
module Arguments {
  import opened Wrappers

  datatype MonitorMode = Auto | Full | Compact

  /** The three shapes `--monitor` can take on the command line. */
  datatype MonitorFlag =
    | Omitted              // not given: argparse leaves no `monitor` attribute
    | Bare                 // `--monitor` with no value: argparse stores None
    | Given(mode: MonitorMode)

  /** The options as argparse read them, before `parse_arguments` adjusts them.
      A threshold option is a pair of integers (nargs=2). */
  datatype CommandLine = CommandLine(
    monitor: MonitorFlag,
    only: Option<seq<int>>,
    onlyVisible: bool,
    gpuUtilThresh: Option<(int, int)>,
    memUtilThresh: Option<(int, int)>,
    ascii: bool)

  /** The `args` namespace `parse_arguments` returns; `monitor` is None when
      the namespace has no `monitor` attribute. */
  datatype Options = Options(
    monitor: Option<MonitorMode>,
    only: Option<seq<int>>,
    onlyVisible: bool,
    ascii: bool)

  /** A pair of utilization thresholds `(th1, th2)` in percent. */
  type Thresholds = (int, int)

  /** The options together with the two threshold pairs on `Device`. */
  datatype Settings = Settings(options: Options, gpuThresholds: Thresholds, memThresholds: Thresholds)

  /** The values `choices=range(1, 100)` admits. */
  const ThresholdChoices: set<int> := set k: int | 1 <= k < 100

  /** argparse checks each value of a given pair against the choices: an
      absent option passes, a given pair passes when both values are
      percentages from 1 to 99. */
  predicate ValidThresholdArgument(p: Option<Thresholds>): (ok: bool)
    ensures ok <==> p.None? || (1 <= p.value.0 <= 99 && 1 <= p.value.1 <= 99)
  {
    p.None? || (p.value.0 in ThresholdChoices && p.value.1 in ThresholdChoices)
  }

  /** argparse accepts the command line when a given `--only` names at least
      one index (`nargs='+'`) and both threshold options pass the choices
      check. */
  predicate ValidCommandLine(cl: CommandLine): (ok: bool)
    ensures ok <==>
      (cl.only.Some? ==> cl.only.value != []) &&
      (cl.gpuUtilThresh.Some? ==> 1 <= cl.gpuUtilThresh.value.0 <= 99 && 1 <= cl.gpuUtilThresh.value.1 <= 99) &&
      (cl.memUtilThresh.Some? ==> 1 <= cl.memUtilThresh.value.0 <= 99 && 1 <= cl.memUtilThresh.value.1 <= 99)
  {
    (cl.only.None? || |cl.only.value| > 0)
    && ValidThresholdArgument(cl.gpuUtilThresh) && ValidThresholdArgument(cl.memUtilThresh)
  }

  /** `tuple(sorted(pair))`: the same two values, ascending. */
  function SortedPair(p: Thresholds): (r: Thresholds)
    ensures r.0 <= r.1
    ensures multiset{r.0, r.1} == multiset{p.0, p.1}
  {
    if p.0 <= p.1 then p else (p.1, p.0)
  }

  /** The pair stored on `Device`: the sorted argument when one was given,
      otherwise the current value. */
  function StoredThresholds(arg: Option<Thresholds>, current: Thresholds): (r: Thresholds)
    ensures arg.None? ==> r == current
    ensures arg.Some? ==> r.0 <= r.1 && multiset{r.0, r.1} == multiset{arg.value.0, arg.value.1}
  {
    if arg.Some? then SortedPair(arg.value) else current
  }

  /** A bare `--monitor` means `auto`; an omitted one means no monitor mode. */
  function MonitorModeOf(flag: MonitorFlag): (r: Option<MonitorMode>)
    ensures r.None? <==> flag.Omitted?
    ensures flag.Bare? ==> r == Some(Auto)
    ensures flag.Given? ==> r == Some(flag.mode)
  {
    match flag
    case Omitted => None
    case Bare => Some(Auto)
    case Given(m) => Some(m)
  }

  /** `parse_arguments`, given the class-wide threshold defaults: None when
      argparse rejects the command line (it exits with status 2),
      otherwise the options and the thresholds now in force. */
  function ParseArguments(cl: CommandLine, gpuDefault: Thresholds, memDefault: Thresholds): (r: Option<Settings>)
    ensures r.Some? <==> ValidCommandLine(cl)
    ensures r.Some? ==> r.value.options.monitor == MonitorModeOf(cl.monitor)
    ensures r.Some? ==> (r.value.options.only == cl.only
      && r.value.options.onlyVisible == cl.onlyVisible && r.value.options.ascii == cl.ascii)
    ensures r.Some? ==> (r.value.gpuThresholds == StoredThresholds(cl.gpuUtilThresh, gpuDefault)
      && r.value.memThresholds == StoredThresholds(cl.memUtilThresh, memDefault))
  {
    if !ValidCommandLine(cl) then None
    else Some(Settings(
      Options(MonitorModeOf(cl.monitor), cl.only, cl.onlyVisible, cl.ascii),
      StoredThresholds(cl.gpuUtilThresh, gpuDefault),
      StoredThresholds(cl.memUtilThresh, memDefault)))
  }

  // ---------------------------------------------------------------------------
  // Properties
  // ---------------------------------------------------------------------------

  /** A supplied pair is stored ascending with both values in 1..99. */
  lemma SuppliedThresholdsStoredInRange(cl: CommandLine, gpuDefault: Thresholds, memDefault: Thresholds)
    requires ParseArguments(cl, gpuDefault, memDefault).Some?
    ensures var s := ParseArguments(cl, gpuDefault, memDefault).value;
      (cl.gpuUtilThresh.Some? ==> 1 <= s.gpuThresholds.0 <= s.gpuThresholds.1 <= 99) &&
      (cl.memUtilThresh.Some? ==> 1 <= s.memThresholds.0 <= s.memThresholds.1 <= 99)
  {
    var s := ParseArguments(cl, gpuDefault, memDefault).value;
    if cl.gpuUtilThresh.Some? {
      PairInRange(cl.gpuUtilThresh.value, s.gpuThresholds);
    }
    if cl.memUtilThresh.Some? {
      PairInRange(cl.memUtilThresh.value, s.memThresholds);
    }
  }

  lemma PairInRange(p: Thresholds, r: Thresholds)
    requires 1 <= p.0 <= 99 && 1 <= p.1 <= 99
    requires multiset{r.0, r.1} == multiset{p.0, p.1}
    ensures 1 <= r.0 <= 99 && 1 <= r.1 <= 99
  {
    assert r.0 in multiset{p.0, p.1};
    assert r.1 in multiset{p.0, p.1};
  }

  /** Sorting a pair twice changes nothing, and the order in which the two
      values were typed does not matter. */
  lemma SortedPairCanonical(a: int, b: int)
    ensures SortedPair((a, b)) == SortedPair((b, a))
    ensures SortedPair(SortedPair((a, b))) == SortedPair((a, b))
  {
  }

  /** Equal thresholds are accepted and stored as they are, although the help
      text asks for `th1 < th2`. */
  lemma EqualThresholdsAccepted(cl: CommandLine, gpuDefault: Thresholds, memDefault: Thresholds, t: int)
    requires 1 <= t <= 99
    requires cl.gpuUtilThresh == Some((t, t)) && ValidThresholdArgument(cl.memUtilThresh)
    requires cl.only.None? || cl.only.value != []
    ensures ParseArguments(cl, gpuDefault, memDefault).Some?
    ensures ParseArguments(cl, gpuDefault, memDefault).value.gpuThresholds == (t, t)
  {
  }

  /** A bare `--monitor` selects `auto`. */
  lemma BareMonitorIsAuto(cl: CommandLine, gpuDefault: Thresholds, memDefault: Thresholds)
    requires cl.monitor.Bare? && ValidCommandLine(cl)
    ensures ParseArguments(cl, gpuDefault, memDefault).value.options.monitor == Some(Auto)
  {
  }
}
