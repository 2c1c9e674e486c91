/** Which device indices `main` shows: the `--only` list, else the indices
    named in `CUDA_VISIBLE_DEVICES` when `--only-visible` is set, else every
    device; always intersected with `range(device_count)` and sorted. */
module VisibleDevices {
  import opened Wrappers
  import opened Text

  // ---------------------------------------------------------------------------
  // Parsing CUDA_VISIBLE_DEVICES
  // ---------------------------------------------------------------------------

  /** `map(str.strip, parts)`. */
  function StripEach(parts: seq<string>): (tokens: seq<string>)
    ensures |tokens| == |parts|
    ensures forall i :: 0 <= i < |parts| ==> tokens[i] == Strip(parts[i])
  {
    if parts == [] then [] else [Strip(parts[0])] + StripEach(parts[1..])
  }

  /** The stripped comma-separated tokens of the variable's value: one per
      piece between commas (at least one), none holding a comma or
      surrounding whitespace. */
  function Tokens(value: string): (tokens: seq<string>)
    ensures |tokens| >= 1
    ensures forall i :: 0 <= i < |tokens| ==> ',' !in tokens[i] && Trimmed(tokens[i])
  {
    var parts := Split(value, ',');
    var tokens := StripEach(parts);
    forall i | 0 <= i < |tokens| ensures ',' !in tokens[i] && Trimmed(tokens[i]) {
      StripKeepsOut(parts[i], ',');
    }
    tokens
  }

  /** `set(map(int, filter(str.isnumeric, tokens)))`: the values of the numeric
      tokens, or None when `int()` raises ValueError on one of them. Tokens
      that are not numeric (`-1`, a GPU UUID, the empty string) are skipped. */
  function NumericValues(tokens: seq<string>, maxStrDigits: nat): (r: Option<set<int>>)
    ensures r.None? <==>
      exists i :: 0 <= i < |tokens| && IsNumeric(tokens[i]) && ParseInt(tokens[i], maxStrDigits).None?
    ensures r.Some? ==> forall x: int :: x in r.value <==>
      exists i :: 0 <= i < |tokens| && IsNumeric(tokens[i]) && ParseInt(tokens[i], maxStrDigits) == Some(x)
  {
    if tokens == [] then Some({})
    else
      var rest := NumericValues(tokens[1..], maxStrDigits);
      if !IsNumeric(tokens[0]) then rest
      else match ParseInt(tokens[0], maxStrDigits)
        case None => None
        case Some(v) => if rest.None? then None else Some({v} + rest.value)
  }

  /** The device set named by the variable, or None where the source falls
      back to all devices: the variable is unset (`None.split` raises
      AttributeError) or `int()` raises ValueError on a numeric token. The
      indices it names are never negative. */
  function ParseCudaVisibleDevices(env: Option<string>, maxStrDigits: nat): (r: Option<set<int>>)
    ensures env.None? ==> r.None?
    ensures env.Some? ==> (r.None? <==>
      exists i :: 0 <= i < |Tokens(env.value)| &&
        IsNumeric(Tokens(env.value)[i]) && ParseInt(Tokens(env.value)[i], maxStrDigits).None?)
    ensures r.Some? ==> forall x :: x in r.value ==> 0 <= x
  {
    match env
    case None => None
    case Some(value) => NumericValues(Tokens(value), maxStrDigits)
  }

  // ---------------------------------------------------------------------------
  // Selection
  // ---------------------------------------------------------------------------

  /** `set(range(count))`. */
  function AllDevices(count: nat): (r: set<int>)
    ensures forall x: int :: x in r <==> 0 <= x < count
  {
    if count == 0 then {} else AllDevices(count - 1) + {count - 1}
  }

  /** The device set before it is intersected with the device range: the
      `--only` indices as given; else the indices the variable names; else,
      and whenever the variable cannot be used, every device. */
  function RequestedDevices(only: Option<seq<int>>, onlyVisible: bool, env: Option<string>,
                            count: nat, maxStrDigits: nat): (r: set<int>)
    ensures only.Some? ==> forall x :: x in r <==> x in only.value
    ensures only.None? ==> forall x :: x in r ==> 0 <= x
    ensures only.None? && (!onlyVisible || ParseCudaVisibleDevices(env, maxStrDigits).None?) ==>
      forall x :: x in r <==> 0 <= x < count
    ensures only.None? && onlyVisible && ParseCudaVisibleDevices(env, maxStrDigits).Some? ==>
      r == ParseCudaVisibleDevices(env, maxStrDigits).value
  {
    if only.Some? then set x | x in only.value
    else if onlyVisible then
      match ParseCudaVisibleDevices(env, maxStrDigits)
      case None => AllDevices(count)
      case Some(devices) => devices
    else AllDevices(count)
  }

  predicate StrictlyIncreasing(s: seq<int>) {
    forall i, j :: 0 <= i < j < |s| ==> s[i] < s[j]
  }

  /** `sorted(set(range(count)).intersection(requested))`: the members of
      `requested` that are valid device indices, in increasing order. */
  function SortedInRange(requested: set<int>, count: nat): (r: seq<nat>)
    ensures StrictlyIncreasing(r)
    ensures forall i :: 0 <= i < |r| ==> r[i] < count
    ensures forall x: int :: x in r <==> 0 <= x < count && x in requested
  {
    if count == 0 then []
    else SortedInRange(requested, count - 1) + (if count - 1 in requested then [count - 1] else [])
  }

  /** The `visible_devices` list that `main` hands to the UI: the requested
      indices that name a device, each once, in increasing order. */
  function SelectVisibleDevices(only: Option<seq<int>>, onlyVisible: bool, env: Option<string>,
                                count: nat, maxStrDigits: nat): (r: seq<nat>)
    ensures StrictlyIncreasing(r)
    ensures forall i :: 0 <= i < |r| ==> r[i] < count
    ensures forall x: int :: x in r <==>
      0 <= x < count && x in RequestedDevices(only, onlyVisible, env, count, maxStrDigits)
  {
    SortedInRange(RequestedDevices(only, onlyVisible, env, count, maxStrDigits), count)
  }

  // ---------------------------------------------------------------------------
  // Properties
  // ---------------------------------------------------------------------------

  /** A strictly increasing sequence is determined by its members, so
      SortedInRange is the one sorted, duplicate-free listing of its set. */
  lemma {:induction false} SortedUnique(a: seq<int>, b: seq<int>)
    requires StrictlyIncreasing(a) && StrictlyIncreasing(b)
    requires forall x :: x in a <==> x in b
    ensures a == b
  {
    assert a != [] ==> a[0] in a;
    assert b != [] ==> b[0] in b;
    if a != [] && b != [] {
      // both heads are the least member
      assert a[0] == b[0] by {
        assert a[0] in a && b[0] in b;
        assert a[0] in b && b[0] in a;
      }
      forall x ensures x in a[1..] <==> x in b[1..] {
        if x in a[1..] {
          assert x in a && x != a[0];
          assert x in b;
          var j :| 0 <= j < |b| && b[j] == x;
          assert b[1..][j - 1] == x;
        }
        if x in b[1..] {
          assert x in b && x != b[0];
          assert x in a;
          var i :| 0 <= i < |a| && a[i] == x;
          assert a[1..][i - 1] == x;
        }
      }
      SortedUnique(a[1..], b[1..]);
      assert a == [a[0]] + a[1..];
      assert b == [b[0]] + b[1..];
    }
  }

  /** The result is sorted, free of duplicates and within `range(count)`,
      whatever the options. */
  lemma SelectionWellFormed(only: Option<seq<int>>, onlyVisible: bool, env: Option<string>, count: nat, maxStrDigits: nat)
    ensures var r := SelectVisibleDevices(only, onlyVisible, env, count, maxStrDigits);
      StrictlyIncreasing(r) && (forall i :: 0 <= i < |r| ==> r[i] < count) && |r| <= count
  {
    SortedInRangeLength(RequestedDevices(only, onlyVisible, env, count, maxStrDigits), count);
  }

  lemma {:induction false} SortedInRangeLength(requested: set<int>, count: nat)
    ensures |SortedInRange(requested, count)| <= count
  {
    if count > 0 {
      SortedInRangeLength(requested, count - 1);
    }
  }

  /** `--only` wins over `--only-visible`: the result is exactly the distinct
      requested indices inside `range(count)`; negative and too-large indices
      are dropped, and neither `--only-visible` nor the variable matters. */
  lemma OnlyOverridesOnlyVisible(only: seq<int>, onlyVisible: bool, env: Option<string>, count: nat, maxStrDigits: nat)
    ensures SelectVisibleDevices(Some(only), onlyVisible, env, count, maxStrDigits)
         == SelectVisibleDevices(Some(only), false, None, count, 0)
    ensures forall x: int :: (x in SelectVisibleDevices(Some(only), onlyVisible, env, count, maxStrDigits)
         <==> x in only && 0 <= x < count)
  {
  }

  /** Every device, in index order. */
  function AllIndices(count: nat): (r: seq<nat>)
    ensures |r| == count && forall i :: 0 <= i < count ==> r[i] == i
  {
    seq(count, i requires 0 <= i => i)
  }

  /** Selecting from all devices lists `0, 1, ..., count - 1`. */
  lemma AllDevicesInOrder(count: nat)
    ensures SortedInRange(AllDevices(count), count) == AllIndices(count)
  {
    var a := SortedInRange(AllDevices(count), count);
    var b := AllIndices(count);
    forall x: int ensures x in a <==> x in b {
      if 0 <= x < count {
        assert b[x] == x;
      }
    }
    SortedUnique(a, b);
  }

  /** Without `--only`, every device is shown when `--only-visible` is not
      given, when the variable is unset, or when one of its numeric tokens is
      rejected by `int()` (the fallback of the exception handler). */
  lemma FallbackToAllDevices(onlyVisible: bool, env: Option<string>, count: nat, maxStrDigits: nat)
    requires !onlyVisible || env.None? ||
      exists i :: 0 <= i < |Tokens(env.value)| && IsNumeric(Tokens(env.value)[i])
        && ParseInt(Tokens(env.value)[i], maxStrDigits).None?
    ensures SelectVisibleDevices(None, onlyVisible, env, count, maxStrDigits) == AllIndices(count)
  {
    if onlyVisible && env.Some? {
      var tokens := Tokens(env.value);
      var i :| 0 <= i < |tokens| && IsNumeric(tokens[i]) && ParseInt(tokens[i], maxStrDigits).None?;
      assert NumericValues(tokens, maxStrDigits).None?;
    }
    AllDevicesInOrder(count);
  }

  /** With `--only-visible` and a variable whose numeric tokens are all
      integers, the result is exactly the valid indices those tokens name. */
  lemma SelectedFromEnvironment(value: string, count: nat, maxStrDigits: nat)
    requires ParseCudaVisibleDevices(Some(value), maxStrDigits).Some?
    ensures forall x: int :: x in SelectVisibleDevices(None, true, Some(value), count, maxStrDigits) <==>
      0 <= x < count &&
      exists i :: 0 <= i < |Tokens(value)| && IsNumeric(Tokens(value)[i])
        && ParseInt(Tokens(value)[i], maxStrDigits) == Some(x)
  {
    var named := NumericValues(Tokens(value), maxStrDigits).value;
    assert RequestedDevices(None, true, Some(value), count, maxStrDigits) == named;
  }

  /** A variable with no numeric token (in particular an empty one) selects
      no device at all; it does not fall back to all devices. */
  lemma NoNumericTokenSelectsNothing(value: string, count: nat, maxStrDigits: nat)
    requires forall i :: 0 <= i < |Tokens(value)| ==> !IsNumeric(Tokens(value)[i])
    ensures SelectVisibleDevices(None, true, Some(value), count, maxStrDigits) == []
  {
    var parsed := ParseCudaVisibleDevices(Some(value), maxStrDigits);
    assert parsed.Some?;
    assert parsed.value == {};
    NothingRequestedNothingSelected(count);
  }

  lemma {:induction false} NothingRequestedNothingSelected(count: nat)
    ensures SortedInRange({}, count) == []
  {
    if count > 0 {
      NothingRequestedNothingSelected(count - 1);
    }
  }

  /** Whitespace around a single decimal token does not change which device
      it names. */
  lemma PaddedTokenNamesSameDevice(lead: string, core: string, trail: string, maxStrDigits: nat)
    requires AllSpace(lead) && AllSpace(trail) && IsDecimal(core) && WithinDigitLimit(|core|, maxStrDigits)
    ensures ParseCudaVisibleDevices(Some(lead + core + trail), maxStrDigits) == Some({DecimalValue(core)})
  {
    var s := lead + core + trail;
    assert ',' !in lead && ',' !in core && ',' !in trail by {
      assert !IsSpace(',') && !IsDecimalChar(',');
    }
    assert ',' !in s;
    SplitWithoutSeparator(s, ',');
    StripPadded(lead, core, trail);
    assert Tokens(s) == [core];
    SingleDecimalToken(core, maxStrDigits);
  }

  lemma SingleDecimalToken(token: string, maxStrDigits: nat)
    requires IsDecimal(token) && WithinDigitLimit(|token|, maxStrDigits)
    ensures NumericValues([token], maxStrDigits) == Some({DecimalValue(token)})
  {
    assert [token][1..] == [];
    assert NumericValues([], maxStrDigits) == Some({});
    assert IsNumeric(token);
    assert ParseInt(token, maxStrDigits) == Some(DecimalValue(token));
    assert {DecimalValue(token)} + {} == {DecimalValue(token)};
  }

  /** A single decimal token with more digits than the interpreter's limit
      makes `int()` raise, so every device is shown. */
  lemma TooManyDigitsFallsBack(value: string, count: nat, maxStrDigits: nat)
    requires IsDecimal(value) && !WithinDigitLimit(|value|, maxStrDigits)
    ensures SelectVisibleDevices(None, true, Some(value), count, maxStrDigits) == AllIndices(count)
  {
    assert ',' !in value by {
      assert !IsDecimalChar(',');
    }
    SplitWithoutSeparator(value, ',');
    StripUnpadded(value);
    assert Tokens(value) == [value];
    assert IsNumeric(value) && ParseInt(value, maxStrDigits).None?;
    FallbackToAllDevices(true, Some(value), count, maxStrDigits);
  }
}
