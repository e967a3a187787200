/** `quality_check_applier`: masks every element of a variable whose QC flag is not one of the
    accepted values (SOURCE/obs_postpro/quality_check_applier.py). A variable is its elements
    in storage order, masked elements being `None`; its QC variable has either the same shape
    or one more trailing `iteration` dimension, in which case each element carries one flag
    per iteration. */
module QualityCheckApplier {
  import opened Wrappers
  import opened Strings

  /** The accepted flags, read from a string of integers separated by single spaces
      (`[int(v) for v in s.split(' ')]`); a piece that is not an integer, an empty piece from a
      doubled space included, is an error. */
  function ParseValidQc(s: string): Result<seq<int>> {
    ParsePieces(Split(s, ' '))
  }

  /** `int()` of every piece, the first failure being the error. */
  function ParsePieces(parts: seq<string>): (r: Result<seq<int>>)
    ensures r.Ok? <==> forall k :: 0 <= k < |parts| ==> ParseInt(parts[k]).Some?
    ensures r.Ok? ==> |r.value| == |parts| && forall k :: 0 <= k < |parts| ==> r.value[k] == ParseInt(parts[k]).value
  {
    if parts == [] then Ok([])
    else
      var init := ParsePieces(parts[..|parts| - 1]);
      var last := ParseInt(parts[|parts| - 1]);
      assert forall k :: 0 <= k < |parts| - 1 ==> parts[..|parts| - 1][k] == parts[k];
      if init.Err? then Err(init.reason)
      else if last.None? then Err("Wrong valid qc values string")
      else Ok(init.value + [last.value])
  }

  /** `' '.join(map(str, values))`, the form the history attribute records the flags in. */
  function FlagsText(values: seq<int>): (s: string)
  {
    Join(seq(|values|, k requires 0 <= k < |values| => IntToString(values[k])), ' ')
  }

  /** The decimal text of an integer holds no space. */
  lemma {:induction false} IntToStringHasNoSpace(n: int)
    ensures ' ' !in IntToString(n)
  {
    var digits := NatToString(if n < 0 then -n else n);
    assert forall j :: 0 <= j < |digits| ==> digits[j] != ' ';
    if n < 0 {
      assert IntToString(n) == "-" + digits;
    }
  }

  /** Reading back the flags as the history attribute writes them gives the same flags. */
  lemma {:induction false} ParseFlagsText(values: seq<int>)
    requires values != []
    ensures ParseValidQc(FlagsText(values)) == Ok(values)
  {
    var texts := seq(|values|, k requires 0 <= k < |values| => IntToString(values[k]));
    forall k | 0 <= k < |texts| ensures ' ' !in texts[k] {
      IntToStringHasNoSpace(values[k]);
    }
    SplitJoin(texts, ' ');
    assert Split(FlagsText(values), ' ') == texts;
    ParseTexts(values, texts);
  }

  lemma {:induction false} ParseTexts(values: seq<int>, texts: seq<string>)
    requires |texts| == |values| && forall k :: 0 <= k < |texts| ==> texts[k] == IntToString(values[k])
    ensures ParsePieces(texts) == Ok(values)
  {
    forall k | 0 <= k < |texts| ensures ParseInt(texts[k]) == Some(values[k]) {
      ParseIntOfIntToString(values[k]);
    }
    var r := ParsePieces(texts);
    assert r.Ok?;
    assert r.value == values;
  }

  /** How the QC variable lines up with the variable: element by element, or one flag per
      iteration along a trailing `iteration` dimension. */
  datatype Layout = SameShape | PerIteration

  /** The shape check: equal shapes, or the QC shape being the variable shape followed by an
      `iteration` dimension; anything else is the dimension mismatch error. */
  function QcLayout(varShape: seq<nat>, qcShape: seq<nat>, qcHasIteration: bool): (r: Result<Layout>)
    ensures r == Ok(SameShape) <==> varShape == qcShape
    ensures r == Ok(PerIteration) <==>
      varShape != qcShape && qcShape != [] && qcShape[..|qcShape| - 1] == varShape && qcHasIteration
  {
    if varShape == qcShape then Ok(SameShape)
    else if qcShape != [] && qcShape[..|qcShape| - 1] == varShape && qcHasIteration then Ok(PerIteration)
    else Err("Input variable and quality check variable dimensions mismatch")
  }

  /** The iteration slice `[..., iteration]` taken from `n` iterations, Python's negative
      indices counting from the end; out of range it falls back to slice 1, itself an
      `IndexError` when there are fewer than two iterations. */
  function IterationIndex(n: nat, iteration: int): (r: Result<nat>)
    ensures r.Ok? ==> r.value < n
    ensures -(n as int) <= iteration < n ==> r.Ok? && r.value % n == iteration % n
    ensures !(-(n as int) <= iteration < n) ==> (r.Ok? <==> n >= 2) && (r.Ok? ==> r.value == 1)
  {
    if 0 <= iteration < n then Ok(iteration)
    else if -(n as int) <= iteration < 0 then Ok(n + iteration)
    else if 1 < n then Ok(1)
    else Err("index out of range")
  }

  /** The default iteration -1 selects the last one. */
  lemma {:induction false} LastIterationByDefault(n: nat)
    requires n >= 1
    ensures IterationIndex(n, -1) == Ok(n - 1)
  {
  }

  /** The flag of every element in the chosen iteration. */
  function IterationFlags(flags: seq<seq<int>>, k: nat): (q: seq<int>)
    requires forall j :: 0 <= j < |flags| ==> k < |flags[j]|
    ensures |q| == |flags| && forall j :: 0 <= j < |flags| ==> q[j] == flags[j][k]
  {
    seq(|flags|, j requires 0 <= j < |flags| => flags[j][k])
  }

  /** The QC flags compared with the accepted values: the whole QC variable, or its slice at
      the chosen iteration. */
  function SelectFlags(layout: Layout, flags: seq<seq<int>>, n: nat, iteration: int): (r: Result<seq<int>>)
    requires layout == SameShape ==> forall j :: 0 <= j < |flags| ==> |flags[j]| == 1
    requires layout == PerIteration ==> forall j :: 0 <= j < |flags| ==> |flags[j]| == n
    ensures r.Ok? ==> |r.value| == |flags|
    ensures layout == SameShape ==> r.Ok? && forall j :: 0 <= j < |flags| ==> r.value[j] == flags[j][0]
    ensures layout == PerIteration ==> (r.Ok? <==> IterationIndex(n, iteration).Ok?)
  {
    if layout == SameShape then Ok(IterationFlags(flags, 0))
    else
      match IterationIndex(n, iteration)
      case Err(e) => Err(e)
      case Ok(k) => Ok(IterationFlags(flags, k))
  }

  /** Which flags are accepted: the reference the masking loop is proved against. */
  function Accepted(qc: seq<int>, valid: seq<int>): (a: seq<bool>)
    ensures |a| == |qc| && forall j :: 0 <= j < |qc| ==> (a[j] <==> qc[j] in valid)
  {
    seq(|qc|, j requires 0 <= j < |qc| => qc[j] in valid)
  }

  /** The flags equal to one of the first `i` accepted values. */
  function AcceptedSoFar(qc: seq<int>, valid: seq<int>, i: nat): seq<bool>
    requires i <= |valid|
  {
    seq(|qc|, j requires 0 <= j < |qc| => qc[j] in valid[..i])
  }

  /** `valid_data_mask`: starts all false and is OR-ed with `qc == v` for each accepted `v`. */
  method AcceptedMask(qc: seq<int>, valid: seq<int>) returns (mask: array<bool>)
    ensures mask[..] == Accepted(qc, valid)
  {
    mask := new bool[|qc|](_ => false);
    assert mask[..] == AcceptedSoFar(qc, valid, 0);
    for i := 0 to |valid|
      invariant mask[..] == AcceptedSoFar(qc, valid, i)
    {
      for j := 0 to |qc|
        invariant forall m :: 0 <= m < j ==> mask[m] == (qc[m] in valid[..i + 1])
        invariant forall m :: j <= m < |qc| ==> mask[m] == (qc[m] in valid[..i])
      {
        OneMoreValue(qc[j], valid, i);
        mask[j] := mask[j] || qc[j] == valid[i];
      }
    }
    assert valid[..|valid|] == valid;
  }

  lemma {:induction false} OneMoreValue(x: int, valid: seq<int>, i: nat)
    requires i < |valid|
    ensures (x in valid[..i + 1]) == ((x in valid[..i]) || x == valid[i])
  {
    assert valid[..i + 1] == valid[..i] + [valid[i]];
  }

  /** The masked variable: an element stays unmasked iff it was unmasked and its flag is
      accepted, and then it keeps its value. */
  function Masked(data: seq<Option<real>>, accepted: seq<bool>): (out: seq<Option<real>>)
    requires |data| == |accepted|
    ensures |out| == |data|
    ensures forall j :: 0 <= j < |data| ==> (out[j].Some? <==> data[j].Some? && accepted[j])
    ensures forall j :: 0 <= j < |data| && out[j].Some? ==> out[j] == data[j]
  {
    seq(|data|, j requires 0 <= j < |data| => if accepted[j] then data[j] else None)
  }

  /** `out_variable_data.mask[~valid_data_mask] = True`, in place. */
  method MaskRejected(data: array<Option<real>>, accepted: seq<bool>)
    requires data.Length == |accepted|
    modifies data
    ensures data[..] == Masked(old(data[..]), accepted)
  {
    ghost var before := data[..];
    for j := 0 to data.Length
      invariant forall m :: 0 <= m < j ==> data[m] == (if accepted[m] then before[m] else None)
      invariant forall m :: j <= m < data.Length ==> data[m] == before[m]
    {
      if !accepted[j] {
        data[j] := None;
      }
    }
  }

  /** How many flags each element of the variable has: one when the shapes agree, else the
      length of the trailing QC dimension. */
  function FlagsPerElement(varShape: seq<nat>, qcShape: seq<nat>): nat {
    if varShape == qcShape || qcShape == [] then 1 else qcShape[|qcShape| - 1]
  }

  /** Every element is masked. */
  predicate AllMasked(data: seq<Option<real>>) {
    forall j :: 0 <= j < |data| ==> data[j].None?
  }

  /** The whole tool on one variable: the accepted values are parsed, the shapes checked, the
      QC slice chosen and the rejected elements masked. Data that is all missing before or
      after masking gives no output. */
  method ApplyQualityCheck(validQc: string, data: seq<Option<real>>, varShape: seq<nat>, qcShape: seq<nat>,
                           qcHasIteration: bool, flags: seq<seq<int>>, iteration: int)
    returns (r: Result<seq<Option<real>>>)
    requires |flags| == |data|
    requires forall j :: 0 <= j < |flags| ==> |flags[j]| == FlagsPerElement(varShape, qcShape)
    ensures r.Ok? ==> ParseValidQc(validQc).Ok? && QcLayout(varShape, qcShape, qcHasIteration).Ok?
    ensures ParseValidQc(validQc).Err? || QcLayout(varShape, qcShape, qcHasIteration).Err? || AllMasked(data)
      ==> r.Err?
    ensures r.Ok? ==>
      var layout := QcLayout(varShape, qcShape, qcHasIteration).value;
      var qc := SelectFlags(layout, flags, FlagsPerElement(varShape, qcShape), iteration);
      qc.Ok? && r.value == Masked(data, Accepted(qc.value, ParseValidQc(validQc).value)) && !AllMasked(r.value)
    ensures ParseValidQc(validQc).Ok? && QcLayout(varShape, qcShape, qcHasIteration).Ok? && !AllMasked(data) ==>
      var layout := QcLayout(varShape, qcShape, qcHasIteration).value;
      var qc := SelectFlags(layout, flags, FlagsPerElement(varShape, qcShape), iteration);
      (qc.Ok? && !AllMasked(Masked(data, Accepted(qc.value, ParseValidQc(validQc).value)))) <==> r.Ok?
  {
    var valid := ParseValidQc(validQc);
    if valid.Err? {
      return Err("Wrong valid qc values string");
    }
    var layout := QcLayout(varShape, qcShape, qcHasIteration);
    if layout.Err? {
      return Err(layout.reason);
    }
    if AllMasked(data) {
      return Err("all data is missing in this variable");
    }
    var qc := SelectFlags(layout.value, flags, FlagsPerElement(varShape, qcShape), iteration);
    if qc.Err? {
      return Err(qc.reason);
    }
    var mask := AcceptedMask(qc.value, valid.value);
    var out := new Option<real>[|data|](j requires 0 <= j < |data| => data[j]);
    assert out[..] == data;
    MaskRejected(out, mask[..]);
    if AllMasked(out[..]) {
      return Err("all data is missing when applying this quality check");
    }
    r := Ok(out[..]);
  }

  /** Masking only adds masked elements and never alters a value it keeps. */
  lemma {:induction false} MaskOnlyGrows(data: seq<Option<real>>, accepted: seq<bool>)
    requires |data| == |accepted|
    ensures forall j :: 0 <= j < |data| && data[j].None? ==> Masked(data, accepted)[j].None?
    ensures forall j :: 0 <= j < |data| && accepted[j] ==> Masked(data, accepted)[j] == data[j]
  {
  }

  /** Applying the same check twice masks nothing more. */
  lemma {:induction false} MaskIdempotent(data: seq<Option<real>>, accepted: seq<bool>)
    requires |data| == |accepted|
    ensures Masked(Masked(data, accepted), accepted) == Masked(data, accepted)
  {
  }
}
