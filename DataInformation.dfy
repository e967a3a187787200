/** `data_information_calc`: counts of no-QC, valid, filled and invalid QC flags of one depth
    level inside a date window, each with the index of its last occurrence
    (SOURCE/obs_postpro/data_information_calc.py). Record times are whole seconds and the window
    bounds are optional, as in `Series.InCut`. */
module DataInformation {
  import opened Wrappers
  import opened Series
  import opened QualityCheckApplier

  /** The QC attributes the tool reads: the fill value when the QC data is masked, the flag
      listed as `no_qc_performed` (or `no_quality_control`) and the one listed as
      `missing_value`, each absent when the attribute or the meaning is missing. */
  datatype QcAttributes = QcAttributes(fill: Option<int>, noQc: Option<int>, missing: Option<int>)

  /** A truthy no-QC flag: one is given and it is not 0. */
  predicate NoQcFlag(attrs: QcAttributes, x: int) {
    attrs.noQc.Some? && attrs.noQc.value != 0 && x == attrs.noQc.value
  }

  /** Records holding the no-QC flag. The flag only counts when it is truthy: a no-QC flag of 0
      counts nothing, as if there were none. */
  function NoQcMask(qc: seq<int>, attrs: QcAttributes): (m: seq<bool>)
    ensures |m| == |qc|
    ensures forall j :: 0 <= j < |qc| ==> (m[j] <==> attrs.noQc.Some? && attrs.noQc.value != 0 && qc[j] == attrs.noQc.value)
  {
    seq(|qc|, j requires 0 <= j < |qc| => NoQcFlag(attrs, qc[j]))
  }

  /** The accepted values with every copy of a truthy no-QC flag deleted, in order. The flag
      read from `flag_values` is a numpy scalar, so comparing the list of accepted values with
      it broadcasts element by element, and `np.delete` drops each match. */
  function WithoutNoQc(valid: seq<int>, attrs: QcAttributes): (r: seq<int>)
    ensures |r| <= |valid|
    ensures forall x :: x in r <==> x in valid && !NoQcFlag(attrs, x)
    ensures (forall k :: 0 <= k < |valid| ==> !NoQcFlag(attrs, valid[k])) ==> r == valid
  {
    if valid == [] then []
    else
      var init := WithoutNoQc(valid[..|valid| - 1], attrs);
      var x := valid[|valid| - 1];
      assert valid == valid[..|valid| - 1] + [x];
      if NoQcFlag(attrs, x) then init else init + [x]
  }

  /** Records whose flag is the fill value or the `missing_value` flag. */
  function FilledMask(qc: seq<int>, attrs: QcAttributes): (m: seq<bool>)
    ensures |m| == |qc|
    ensures forall j :: 0 <= j < |qc| ==>
      (m[j] <==> (attrs.fill.Some? && qc[j] == attrs.fill.value) || (attrs.missing.Some? && qc[j] == attrs.missing.value))
  {
    seq(|qc|, j requires 0 <= j < |qc| =>
      (attrs.fill.Some? && qc[j] == attrs.fill.value) || (attrs.missing.Some? && qc[j] == attrs.missing.value))
  }

  /** The two loops over the accepted values: `valid_data_mask` OR-ed with `qc == v` and
      `invalid_data_mask` AND-ed with `qc != v`. */
  method ValidInvalidMasks(qc: seq<int>, valid: seq<int>) returns (validMask: array<bool>, invalidMask: array<bool>)
    ensures fresh(validMask) && fresh(invalidMask)
    ensures validMask.Length == |qc| && invalidMask.Length == |qc|
    ensures forall j :: 0 <= j < |qc| ==> (validMask[j] <==> qc[j] in valid)
    ensures forall j :: 0 <= j < |qc| ==> (invalidMask[j] <==> qc[j] !in valid)
  {
    validMask := new bool[|qc|](_ => false);
    invalidMask := new bool[|qc|](_ => true);
    for i := 0 to |valid|
      invariant validMask != invalidMask
      invariant validMask.Length == |qc| && invalidMask.Length == |qc|
      invariant forall m :: 0 <= m < |qc| ==> validMask[m] == (qc[m] in valid[..i])
      invariant forall m :: 0 <= m < |qc| ==> invalidMask[m] == (qc[m] !in valid[..i])
    {
      for j := 0 to |qc|
        invariant forall m :: 0 <= m < j ==> validMask[m] == (qc[m] in valid[..i + 1])
        invariant forall m :: j <= m < |qc| ==> validMask[m] == (qc[m] in valid[..i])
        invariant forall m :: 0 <= m < j ==> invalidMask[m] == (qc[m] !in valid[..i + 1])
        invariant forall m :: j <= m < |qc| ==> invalidMask[m] == (qc[m] !in valid[..i])
      {
        OneMoreValue(qc[j], valid, i);
        validMask[j] := validMask[j] || qc[j] == valid[i];
        invalidMask[j] := invalidMask[j] && qc[j] != valid[i];
      }
    }
    assert valid[..|valid|] == valid;
  }

  /** The invalid records: flag not accepted, not the fill value and not `missing_value`. */
  function InvalidMask(qc: seq<int>, valid: seq<int>, attrs: QcAttributes): (m: seq<bool>)
    ensures |m| == |qc|
    ensures forall j :: 0 <= j < |qc| ==> (m[j] <==> qc[j] !in valid && !FilledMask(qc, attrs)[j])
  {
    var filled := FilledMask(qc, attrs);
    seq(|qc|, j requires 0 <= j < |qc| => qc[j] !in valid && !filled[j])
  }

  /** `[total, no_qc_n, last_no_qc, valid_n, last_valid, filled_n, last_filled, invalid_n,
      last_invalid]` of a column of flags: each class counted, with its last index or -1. */
  function Report(qc: seq<int>, valid: seq<int>, attrs: QcAttributes): seq<int> {
    var noQc, accepted := NoQcMask(qc, attrs), Accepted(qc, valid);
    var filled, invalid := FilledMask(qc, attrs), InvalidMask(qc, valid, attrs);
    [|qc|, CountTrue(noQc), LastTrue(noQc), CountTrue(accepted), LastTrue(accepted),
     CountTrue(filled), LastTrue(filled), CountTrue(invalid), LastTrue(invalid)]
  }

  /** The whole computation over the flags of the records inside the window; an unreadable
      list of accepted values, or a window holding no record, gives nothing. A truthy no-QC
      flag is taken out of the accepted values before the records are classified. */
  method DataInformation(validQc: string, times: seq<int>, flags: seq<int>, attrs: QcAttributes,
                         first: Option<int>, last: Option<int>)
    returns (r: Result<seq<int>>)
    requires |flags| == |times|
    ensures r.Ok? <==> ParseValidQc(validQc).Ok? && CountTrue(CutMask(times, first, last)) > 0
    ensures r.Ok? ==>
      r.value == Report(Select(flags, CutMask(times, first, last)), WithoutNoQc(ParseValidQc(validQc).value, attrs), attrs)
  {
    var parsed := ParseValidQc(validQc);
    if parsed.Err? {
      return Err("Wrong valid qc values string");
    }
    var cut := CutMask(times, first, last);
    if CountTrue(cut) == 0 {
      return Err("no data in the selected period");
    }
    var out := Classify(Select(flags, cut), parsed.value, attrs);
    r := Ok(out);
  }

  /** The counts of one column, the output list being appended pair by pair. A truthy no-QC
      flag is first deleted from the accepted values. */
  method Classify(qc: seq<int>, given: seq<int>, attrs: QcAttributes) returns (out: seq<int>)
    ensures out == Report(qc, WithoutNoQc(given, attrs), attrs)
  {
    var valid := WithoutNoQc(given, attrs);
    var total := |qc|;
    out := [total];
    var noQc := NoQcMask(qc, attrs);
    var noQcN, noQcLast := CountTrue(noQc), LastTrue(noQc);
    out := out + [noQcN, noQcLast];
    assert out == [total, noQcN, noQcLast];
    var validMask, invalidMask := ValidInvalidMasks(qc, valid);
    var accepted := validMask[..];
    assert accepted == Accepted(qc, valid);
    var validN, validLast := CountTrue(accepted), LastTrue(accepted);
    out := out + [validN, validLast];
    assert out == [total, noQcN, noQcLast, validN, validLast];
    var filled := FilledMask(qc, attrs);
    ExcludeFilled(qc, valid, attrs, invalidMask);
    var invalid := invalidMask[..];
    assert invalid == InvalidMask(qc, valid, attrs);
    var filledN, filledLast := CountTrue(filled), LastTrue(filled);
    out := out + [filledN, filledLast];
    assert out == [total, noQcN, noQcLast, validN, validLast, filledN, filledLast];
    var invalidN, invalidLast := CountTrue(invalid), LastTrue(invalid);
    out := out + [invalidN, invalidLast];
    assert out == [total, noQcN, noQcLast, validN, validLast, filledN, filledLast, invalidN, invalidLast];
  }

  /** `invalid_data_mask` AND-ed with "not filled", in place. */
  method ExcludeFilled(qc: seq<int>, valid: seq<int>, attrs: QcAttributes, invalidMask: array<bool>)
    requires invalidMask.Length == |qc| && forall j :: 0 <= j < |qc| ==> (invalidMask[j] <==> qc[j] !in valid)
    modifies invalidMask
    ensures invalidMask[..] == InvalidMask(qc, valid, attrs)
  {
    var filled := FilledMask(qc, attrs);
    for j := 0 to |qc|
      invariant forall m :: 0 <= m < j ==> invalidMask[m] == InvalidMask(qc, valid, attrs)[m]
      invariant forall m :: j <= m < |qc| ==> (invalidMask[m] <==> qc[m] !in valid)
    {
      invalidMask[j] := invalidMask[j] && !filled[j];
    }
  }

  /** A record is never both valid and invalid, nor both filled and invalid, and every record
      is valid, filled or invalid. */
  lemma {:induction false} ClassesCoverDisjointly(qc: seq<int>, valid: seq<int>, attrs: QcAttributes, j: nat)
    requires j < |qc|
    ensures !(Accepted(qc, valid)[j] && InvalidMask(qc, valid, attrs)[j])
    ensures !(FilledMask(qc, attrs)[j] && InvalidMask(qc, valid, attrs)[j])
    ensures Accepted(qc, valid)[j] || FilledMask(qc, attrs)[j] || InvalidMask(qc, valid, attrs)[j]
  {
  }

  /** Under a truthy no-QC flag, a record carrying it is never counted valid, and it is
      counted invalid exactly when it is not filled. */
  lemma {:induction false} NoQcRecordNotValid(qc: seq<int>, given: seq<int>, attrs: QcAttributes, j: nat)
    requires j < |qc| && NoQcFlag(attrs, qc[j])
    ensures !Accepted(qc, WithoutNoQc(given, attrs))[j]
    ensures InvalidMask(qc, WithoutNoQc(given, attrs), attrs)[j] <==> !FilledMask(qc, attrs)[j]
  {
  }

  /** Flags [9, 1] with no-QC flag 9 and accepted values 1 and 9: one no-QC record at 0, one
      valid record at 1, none filled, and the no-QC record counted invalid. */
  lemma {:induction false} NoQcRemovedExample()
    ensures Report([9, 1], WithoutNoQc([1, 9], QcAttributes(None, Some(9), None)), QcAttributes(None, Some(9), None))
      == [2, 1, 0, 1, 1, 0, -1, 1, 0]
  {
    var attrs := QcAttributes(None, Some(9), None);
    assert [1, 9][..1] == [1];
    assert WithoutNoQc([1, 9], attrs) == [1];
    var qc := [9, 1];
    assert NoQcMask(qc, attrs) == [true, false];
    assert Accepted(qc, [1]) == [false, true];
    assert FilledMask(qc, attrs) == [false, false];
    assert InvalidMask(qc, [1], attrs) == [true, false];
    assert [true, false][..1] == [true];
    assert [false, true][..1] == [false];
    assert [false, false][..1] == [false];
  }

  /** A no-QC flag of 0 is never counted: its count is 0 and its last index -1. */
  lemma {:induction false} ZeroNoQcFlagIgnored(qc: seq<int>, attrs: QcAttributes)
    requires attrs.noQc == Some(0)
    ensures CountTrue(NoQcMask(qc, attrs)) == 0 && LastTrue(NoQcMask(qc, attrs)) == -1
  {
  }

  /** With a truthy no-QC flag, the no-QC records are exactly those holding it. */
  lemma {:induction false} NoQcCounted(qc: seq<int>, attrs: QcAttributes)
    requires attrs.noQc.Some? && attrs.noQc.value != 0
    ensures CountTrue(NoQcMask(qc, attrs)) == 0 <==> attrs.noQc.value !in qc
  {
    var m := NoQcMask(qc, attrs);
    if attrs.noQc.value in qc {
      var j :| 0 <= j < |qc| && qc[j] == attrs.noQc.value;
      assert m[j];
    }
  }
}
