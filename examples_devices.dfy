/** Worked examples of device selection on concrete values of
    `CUDA_VISIBLE_DEVICES`. */
module DeviceSelectionExamples {
  import opened Wrappers
  import opened Text
  import opened VisibleDevices

  /** `CUDA_VISIBLE_DEVICES="0,2"` shows devices 0 and 2 on a machine with at
      least three devices. The steps are separate lemmas: split, strip,
      parse, sort. */
  lemma ExampleTwoDevices(count: nat, maxStrDigits: nat)
    requires count >= 3
    ensures SelectVisibleDevices(None, true, Some("0,2"), count, maxStrDigits) == [0, 2]
  {
    ExampleTwoDevicesTokens();
    ExampleTwoDecimalTokens(maxStrDigits);
    assert ParseCudaVisibleDevices(Some("0,2"), maxStrDigits) == Some({0, 2});
    ExampleTwoDevicesSorted(count);
  }

  lemma ExampleTwoDevicesSorted(count: nat)
    requires count >= 3
    ensures SortedInRange({0, 2}, count) == [0, 2]
  {
    var r := SortedInRange({0, 2}, count);
    var expected: seq<int> := [0, 2];
    assert forall x :: x in r <==> x in expected;
    SortedUnique(r, expected);
  }

  lemma ExampleTwoDevicesTokens()
    ensures Tokens("0,2") == ["0", "2"]
  {
    assert "0,2" == "0" + [','] + "2";
    SplitAtSeparator("0", "2", ',');
    SplitWithoutSeparator("2", ',');
    ExampleTwoDevicesStripped();
  }

  lemma ExampleTwoDevicesStripped()
    ensures StripEach(["0", "2"]) == ["0", "2"]
  {
    assert "0"[0] == '0' && "2"[0] == '2';
    NothingToStrip(["0", "2"]);
  }

  lemma ExampleTwoDecimalTokens(maxStrDigits: nat)
    ensures NumericValues(["0", "2"], maxStrDigits) == Some({0, 2})
  {
    SingleDecimalToken("2", maxStrDigits);
    assert ["0", "2"][1..] == ["2"];
    assert IsNumeric("0") && DecimalValue("0") == 0 && DecimalValue("2") == 2;
    assert ParseInt("0", maxStrDigits) == Some(0);
    assert NumericValues(["0", "2"], maxStrDigits) == Some({0} + {2});
    assert {0} + {2} == {0, 2};
  }

  /** Tokens without whitespace at either end are left as they are. */
  lemma {:induction false} NothingToStrip(parts: seq<string>)
    requires forall i :: 0 <= i < |parts| ==> Trimmed(parts[i])
    ensures StripEach(parts) == parts
  {
    if parts != [] {
      StripUnpadded(parts[0]);
      NothingToStrip(parts[1..]);
      assert [parts[0]] + parts[1..] == parts;
    }
  }

  /** A token made of a superscript two passes `isnumeric()` but not `int()`,
      so every device is shown. */
  lemma ExampleNonDecimalNumericFallsBack(count: nat, maxStrDigits: nat)
    ensures SelectVisibleDevices(None, true, Some("\U{B2}"), count, maxStrDigits) == AllIndices(count)
  {
    var value := "\U{B2}";
    SplitWithoutSeparator(value, ',');
    StripUnpadded(value);
    assert Tokens(value) == [value];
    assert IsNumeric(value) && ParseInt(value, maxStrDigits).None?;
    FallbackToAllDevices(true, Some(value), count, maxStrDigits);
  }

  /** The value `"000...0"`: 4301 zeros, one more than the default limit. */
  function TooManyZeros(): (zeros: string)
    ensures |zeros| == DefaultMaxStrDigits + 1
    ensures forall i :: 0 <= i < |zeros| ==> zeros[i] == '0'
  {
    seq(DefaultMaxStrDigits + 1, _ => '0')
  }

  /** Under the default digit limit, a token of 4301 zeros makes `int()`
      raise, so every device is shown; without a limit it names device 0. */
  lemma ExampleTooManyZeros(count: nat)
    ensures SelectVisibleDevices(None, true, Some(TooManyZeros()), count, DefaultMaxStrDigits) == AllIndices(count)
    ensures count > 0 ==> SelectVisibleDevices(None, true, Some(TooManyZeros()), count, 0) == [0]
  {
    var zeros := TooManyZeros();
    assert IsDecimal(zeros);
    TooManyDigitsFallsBack(zeros, count, DefaultMaxStrDigits);
    if count > 0 {
      ZerosWithoutLimit(zeros, count);
    }
  }

  lemma ZerosWithoutLimit(zeros: string, count: nat)
    requires |zeros| > 0 && forall i :: 0 <= i < |zeros| ==> zeros[i] == '0'
    requires count > 0
    ensures SelectVisibleDevices(None, true, Some(zeros), count, 0) == [0]
  {
    ZerosDenoteZero(zeros);
    PaddedTokenNamesSameDevice([], zeros, [], 0);
    assert [] + zeros + [] == zeros;
    var r := SelectVisibleDevices(None, true, Some(zeros), count, 0);
    var expected: seq<int> := [0];
    assert forall x :: x in r <==> x in expected;
    SortedUnique(r, expected);
  }

  lemma {:induction false} ZerosDenoteZero(s: string)
    requires forall i :: 0 <= i < |s| ==> s[i] == '0'
    ensures DecimalValue(s) == 0
  {
    if s != [] {
      ZerosDenoteZero(s[..|s| - 1]);
    }
  }

  /** An empty `CUDA_VISIBLE_DEVICES` hides every device: `"".split(',')` is
      one empty piece, which `isnumeric()` rejects. */
  lemma ExampleEmptyVariable(count: nat, maxStrDigits: nat)
    ensures SelectVisibleDevices(None, true, Some(""), count, maxStrDigits) == []
  {
    assert Split("", ',') == [""];
    StripUnpadded("");
    assert Tokens("") == [""];
    assert [""][1..] == [];
    assert NumericValues([""], maxStrDigits) == Some({});
    NothingRequestedNothingSelected(count);
  }

  /** A GPU UUID and a negative index are skipped, not parsed: neither
      passes `isnumeric()`, so nothing raises and no device is named. The
      steps are the lemmas below: the split, the strip and the
      `isnumeric()` test. */
  lemma ExampleSkippedTokens(value: string, count: nat, maxStrDigits: nat)
    requires value == "GPU-a,-1"
    ensures SelectVisibleDevices(None, true, Some(value), count, maxStrDigits) == []
  {
    ExampleSkippedTokensSplit(value);
    NoNumericTokenSelectsNothing(value, count, maxStrDigits);
  }

  lemma ExampleSkippedTokensSplit(value: string)
    requires value == "GPU-a,-1"
    ensures Tokens(value) == ["GPU-a", "-1"]
    ensures !IsNumeric("GPU-a") && !IsNumeric("-1")
  {
    ExampleSkippedTokensPieces(value);
    ExampleSkippedTokensStripped();
    ExampleSkippedTokensNotNumeric();
  }

  lemma ExampleSkippedTokensNotNumeric()
    ensures !IsNumeric("GPU-a") && !IsNumeric("-1")
  {
    assert !IsNumericChar("GPU-a"[0]) && !IsNumericChar("-1"[0]);
  }

  lemma ExampleSkippedTokensPieces(value: string)
    requires value == "GPU-a,-1"
    ensures Split(value, ',') == ["GPU-a", "-1"]
  {
    assert value == "GPU-a" + [','] + "-1";
    SplitAtSeparator("GPU-a", "-1", ',');
    SplitWithoutSeparator("-1", ',');
  }

  lemma ExampleSkippedTokensStripped()
    ensures StripEach(["GPU-a", "-1"]) == ["GPU-a", "-1"]
  {
    assert "GPU-a"[0] == 'G' && "GPU-a"[4] == 'a' && "-1"[0] == '-' && "-1"[1] == '1';
    NothingToStrip(["GPU-a", "-1"]);
  }
}
