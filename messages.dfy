/** The error messages `main` collects before printing them to stderr. */
module Messages {
  import opened Wrappers

  // Each message is written as its leading word and the rest: the leading
  // word is what tells the messages apart.
  const ErrorTag := "ERROR: "
  const TerminalRequired := ErrorTag + "You " + "must run monitor mode from a terminal."
  const OneFunctionNotFound := ErrorTag + "A " + "FunctionNotFound error occurred while calling:"
  const SomeFunctionsNotFound := ErrorTag + "Some " + "FunctionNotFound errors occurred while calling:"
  const CompatibilityAdvice :=
    "Please " + "verify whether the `nvidia-ml-py` package is compatible with your NVIDIA driver version."

  const QueryPrefix := "    nvmlQuery('"
  const QuerySuffix := "', *args, **kwargs)"

  /** The line reporting one unknown NVML function: the function's name,
      as `repr` quotes it, inside a `nvmlQuery(...)` call. */
  function QueryLine(name: string): (line: string)
    ensures |line| == |QueryPrefix| + |name| + |QuerySuffix|
    ensures line[..|QueryPrefix|] == QueryPrefix && line[|line| - |QuerySuffix|..] == QuerySuffix
    ensures line[|QueryPrefix|..|line| - |QuerySuffix|] == name
  {
    QueryPrefix + name + QuerySuffix
  }

  /** The function name a query line reports, or None for any other line. */
  function QueriedName(line: string): (r: Option<string>)
    ensures r.Some? ==> QueryLine(r.value) == line
  {
    if |line| >= |QueryPrefix| + |QuerySuffix|
       && line[..|QueryPrefix|] == QueryPrefix
       && line[|line| - |QuerySuffix|..] == QuerySuffix
    then
      var name := line[|QueryPrefix|..|line| - |QuerySuffix|];
      assert line == line[..|QueryPrefix|] + name + line[|line| - |QuerySuffix|..];
      Some(name)
    else None
  }

  lemma QueriedNameOfQueryLine(name: string)
    ensures QueriedName(QueryLine(name)) == Some(name)
  {
    var line := QueryLine(name);
    assert line[..|QueryPrefix|] == QueryPrefix;
    assert line[|line| - |QuerySuffix|..] == QuerySuffix;
    assert line[|QueryPrefix|..|line| - |QuerySuffix|] == name;
  }

  /** `map('    nvmlQuery({.__name__!r}, *args, **kwargs)'.format, names)`. */
  function QueryLines(names: seq<string>): (lines: seq<string>)
    ensures |lines| == |names|
    ensures forall i :: 0 <= i < |names| ==> lines[i] == QueryLine(names[i])
  {
    if names == [] then [] else [QueryLine(names[0])] + QueryLines(names[1..])
  }

  /** The messages for the functions NVML did not provide: nothing when there
      are none; otherwise a header (singular for exactly one function, plural
      for more), one query line per function in order, and the advice to
      check the `nvidia-ml-py` version. */
  function UnknownFunctionMessages(names: seq<string>): (m: seq<string>)
    ensures names == [] <==> m == []
    ensures names != [] ==> (|m| == |names| + 2
      && m[0] == (if |names| == 1 then OneFunctionNotFound else SomeFunctionsNotFound)
      && m[1..|m| - 1] == QueryLines(names)
      && m[|m| - 1] == CompatibilityAdvice)
  {
    if names == [] then []
    else
      var header := if |names| == 1 then OneFunctionNotFound else SomeFunctionsNotFound;
      [header] + QueryLines(names) + [CompatibilityAdvice]
  }

  /** The names reported by the query lines of a list of messages. */
  function ReportedNames(lines: seq<string>): seq<string> {
    if lines == [] then []
    else
      var rest := ReportedNames(lines[1..]);
      match QueriedName(lines[0])
      case Some(name) => [name] + rest
      case None => rest
  }

  lemma {:induction false} ReportedNamesOfQueryLines(names: seq<string>)
    ensures ReportedNames(QueryLines(names)) == names
  {
    if names != [] {
      QueriedNameOfQueryLine(names[0]);
      var lines := QueryLines(names);
      assert lines[1..] == QueryLines(names[1..]);
      ReportedNamesOfQueryLines(names[1..]);
    }
  }

  lemma {:induction false} ReportedNamesAppend(a: seq<string>, b: seq<string>)
    ensures ReportedNames(a + b) == ReportedNames(a) + ReportedNames(b)
  {
    if a != [] {
      assert (a + b)[1..] == a[1..] + b;
      ReportedNamesAppend(a[1..], b);
    } else {
      assert a + b == b;
    }
  }

  /** The messages lose nothing: the unknown functions can be read back from
      them, every one and in their order. */
  lemma UnknownFunctionsRecoverable(names: seq<string>)
    ensures ReportedNames(UnknownFunctionMessages(names)) == names
  {
    if names != [] {
      var header := if |names| == 1 then OneFunctionNotFound else SomeFunctionsNotFound;
      ReportedNamesAppend([header] + QueryLines(names), [CompatibilityAdvice]);
      ReportedNamesAppend([header], QueryLines(names));
      ReportedNamesOfQueryLines(names);
      assert OneFunctionNotFound[0] == 'E' && SomeFunctionsNotFound[0] == 'E';
      assert CompatibilityAdvice[0] == 'P';
      NotAQueryLine(header);
      NotAQueryLine(CompatibilityAdvice);
      assert ReportedNames([header]) == [];
      assert ReportedNames([CompatibilityAdvice]) == [];
    }
  }

  /** A line that does not start with a space is not a query line. */
  lemma NotAQueryLine(line: string)
    requires line == [] || line[0] != ' '
    ensures QueriedName(line).None?
  {
    assert QueryPrefix[0] == ' ';
    if |line| >= |QueryPrefix| {
      assert line[..|QueryPrefix|][0] == line[0];
    }
  }

  /** The terminal error is never among the unknown-function messages, so it
      appears in the collected messages only when it was recorded itself. */
  lemma TerminalRequiredNotAmongUnknownFunctionMessages(names: seq<string>)
    ensures TerminalRequired !in UnknownFunctionMessages(names)
  {
    var m := UnknownFunctionMessages(names);
    forall i | 0 <= i < |m| ensures m[i] != TerminalRequired {
      if 0 < i < |m| - 1 {
        assert m[i] == m[1..|m| - 1][i - 1] == QueryLine(names[i - 1]);
        assert m[i][0] == ' ';
      } else if i == 0 {
        assert m[i] == OneFunctionNotFound || m[i] == SomeFunctionsNotFound;
        assert TerminalRequired[7] == 'Y' && OneFunctionNotFound[7] == 'A' && SomeFunctionsNotFound[7] == 'S';
      } else {
        assert m[i] == CompatibilityAdvice;
        assert TerminalRequired[0] == 'E' && CompatibilityAdvice[0] == 'P';
      }
    }
  }

  /** Prefixing the unknown-function messages with the terminal error (or
      not) puts exactly one (or no) terminal error in the result. */
  lemma TerminalRequiredRecordedOnce(recorded: bool, names: seq<string>)
    ensures var m := (if recorded then [TerminalRequired] else []) + UnknownFunctionMessages(names);
      multiset(m)[TerminalRequired] == if recorded then 1 else 0
  {
    TerminalRequiredNotAmongUnknownFunctionMessages(names);
    var u := UnknownFunctionMessages(names);
    assert multiset(u)[TerminalRequired] == 0;
    var head: seq<string> := if recorded then [TerminalRequired] else [];
    assert multiset(head + u) == multiset(head) + multiset(u);
  }
}
