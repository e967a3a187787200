/** `insitu_tac_platforms_finder`: the files of the same platform around a position, matched by
    platform code, and the platform metadata they agree on
    (SOURCE/obs_postpro/insitu_tac_platforms_finder.py). */
module PlatformsFinder {
  import opened Wrappers
  import opened Strings

  // ---------------------------------------------------------------- longest common substring

  /** Length of the longest common suffix of `a[..i]` and `b[..j]`: the dynamic-programming
      table of `longest_common_substring`. */
  function CommonSuffix(a: string, b: string, i: nat, j: nat): nat
    requires i <= |a| && j <= |b|
  {
    if i == 0 || j == 0 || a[i - 1] != b[j - 1] then 0 else 1 + CommonSuffix(a, b, i - 1, j - 1)
  }

  /** The common suffix is a common substring ending at `i` in `a` and at `j` in `b`. */
  lemma {:induction false} CommonSuffixMatches(a: string, b: string, i: nat, j: nat)
    requires i <= |a| && j <= |b|
    ensures CommonSuffix(a, b, i, j) <= i && CommonSuffix(a, b, i, j) <= j
    ensures a[i - CommonSuffix(a, b, i, j)..i] == b[j - CommonSuffix(a, b, i, j)..j]
  {
    if !(i == 0 || j == 0 || a[i - 1] != b[j - 1]) {
      CommonSuffixMatches(a, b, i - 1, j - 1);
      var k := CommonSuffix(a, b, i - 1, j - 1);
      assert a[i - (k + 1)..i] == a[i - 1 - k..i - 1] + [a[i - 1]];
      assert b[j - (k + 1)..j] == b[j - 1 - k..j - 1] + [b[j - 1]];
    }
  }

  /** A common substring of length `k` ending at `i` and `j` makes the common suffix at least `k`. */
  lemma {:induction false} CommonSuffixAtLeast(a: string, b: string, i: nat, j: nat, k: nat)
    requires k <= i <= |a| && k <= j <= |b| && a[i - k..i] == b[j - k..j]
    ensures CommonSuffix(a, b, i, j) >= k
  {
    if k > 0 {
      assert a[i - 1] == a[i - k..i][k - 1] == b[j - k..j][k - 1] == b[j - 1];
      assert a[i - k..i - 1] == a[i - k..i][..k - 1];
      assert b[j - k..j - 1] == b[j - k..j][..k - 1];
      CommonSuffixAtLeast(a, b, i - 1, j - 1, k - 1);
    }
  }

  /** The table is filled up to row `i`, column `j`; row 0 and column 0 are zero. */
  ghost predicate TableUpTo(index: array2<nat>, a: string, b: string, i: nat, j: nat)
    requires index.Length0 == |a| + 1 && index.Length1 == |b| + 1
    reads index
  {
    forall p, q :: 0 <= p <= |a| && 0 <= q <= |b| && (p == 0 || q == 0 || p < i || (p == i && q < j)) ==>
      index[p, q] == CommonSuffix(a, b, p, q)
  }

  /** No entry filled so far exceeds `longest`. */
  ghost predicate AtMost(a: string, b: string, i: nat, j: nat, longest: nat) {
    forall p, q :: 0 <= p <= |a| && 0 <= q <= |b| && (p < i || (p == i && q < j)) ==>
      CommonSuffix(a, b, p, q) <= longest
  }

  /** Rows before `x` hold only common suffixes shorter than `longest`. */
  ghost predicate ShorterBefore(a: string, b: string, x: nat, longest: nat) {
    forall p, q :: 0 <= p < x && p <= |a| && 0 <= q <= |b| ==> CommonSuffix(a, b, p, q) < longest
  }

  /** The best (length, end row) after scanning columns 1..`j` of row `i`, starting from `acc`:
      a cell replaces the best one only when strictly longer. */
  function BestInRow(a: string, b: string, i: nat, j: nat, acc: (nat, nat)): (r: (nat, nat))
    requires 1 <= i <= |a| && j <= |b| && acc.0 <= acc.1 <= i
    ensures r.0 <= r.1 <= i
  {
    if j == 0 then acc
    else
      var best := BestInRow(a, b, i, j - 1, acc);
      CommonSuffixMatches(a, b, i, j);
      if CommonSuffix(a, b, i, j) > best.0 then (CommonSuffix(a, b, i, j), i) else best
  }

  /** The best (length, end row) after scanning rows 1..`i`. */
  function BestAfterRow(a: string, b: string, i: nat): (r: (nat, nat))
    requires i <= |a|
    ensures r.0 <= r.1 <= i
  {
    if i == 0 then (0, 0) else BestInRow(a, b, i, |b|, BestAfterRow(a, b, i - 1))
  }

  /** The substring `longest_common_substring` returns. */
  function Lcs(a: string, b: string): (r: string)
    ensures |r| <= |a|
  {
    var best := BestAfterRow(a, b, |a|);
    Ending(a, best.1, best.0)
  }

  /** `r` ends at `e` in `a`, and no occurrence in `a` of a common substring as long ends
      before `e`. */
  predicate EndsFirst(a: string, b: string, r: string, e: int) {
    |r| <= e <= |a| && r == Ending(a, e, |r|) &&
    forall e' :: |r| <= e' < e ==> !IsSubstring(Ending(a, e', |r|), b)
  }

  /** `longest_common_substring`: a longest common substring of `a` and `b`; among the longest,
      the one ending first in `a` (the table is scanned row by row and only a strictly longer
      suffix replaces the best one). */
  method LongestCommonSubstring(a: string, b: string) returns (r: string)
    ensures r == Lcs(a, b)
    ensures IsSubstring(r, a) && IsSubstring(r, b)
    ensures forall t :: IsSubstring(t, a) && IsSubstring(t, b) ==> |t| <= |r|
    ensures exists e :: EndsFirst(a, b, r, e)
    ensures (forall c :: c in a ==> c !in b) ==> r == ""
    ensures a == b ==> r == a
  {
    var index := new nat[|a| + 1, |b| + 1]((_, _) => 0);
    var longest: nat, x: nat := 0, 0;
    ghost var y: nat := 0;
    for i := 1 to |a| + 1
      invariant TableUpTo(index, a, b, i, 0)
      invariant (longest, x) == BestAfterRow(a, b, i - 1)
      invariant AtMost(a, b, i, 0, longest)
      invariant x < i && y <= |b| && longest == CommonSuffix(a, b, x, y)
      invariant ShorterBefore(a, b, x, longest)
    {
      longest, x, y := FillRow(index, a, b, i, longest, x, y);
    }
    assert (longest, x) == BestAfterRow(a, b, |a|);
    LcsCommon(a, b, x, y);
    r := Ending(a, x, longest);
    LcsLongest(a, b, longest);
    LcsEndsFirst(a, b, x, longest);
    CommonFirstChar(a, b, r);
    if a == b {
      SelfLongest(a, r);
    }
  }

  /** One row of the table, `for character_2 in ...`. */
  method FillRow(index: array2<nat>, a: string, b: string, i: nat, longest0: nat, x0: nat, ghost y0: nat)
    returns (longest: nat, x: nat, ghost y: nat)
    requires 1 <= i <= |a| && index.Length0 == |a| + 1 && index.Length1 == |b| + 1
    requires TableUpTo(index, a, b, i, 0) && (longest0, x0) == BestAfterRow(a, b, i - 1)
    requires AtMost(a, b, i, 0, longest0) && x0 < i && y0 <= |b| && longest0 == CommonSuffix(a, b, x0, y0)
    requires ShorterBefore(a, b, x0, longest0)
    modifies index
    ensures TableUpTo(index, a, b, i + 1, 0) && (longest, x) == BestAfterRow(a, b, i)
    ensures AtMost(a, b, i + 1, 0, longest) && x <= i && y <= |b| && longest == CommonSuffix(a, b, x, y)
    ensures ShorterBefore(a, b, x, longest)
  {
    longest, x, y := longest0, x0, y0;
    for j := 1 to |b| + 1
      invariant TableUpTo(index, a, b, i, j)
      invariant (longest, x) == BestInRow(a, b, i, j - 1, BestAfterRow(a, b, i - 1))
      invariant AtMost(a, b, i, j, longest)
      invariant x <= i && y <= |b| && longest == CommonSuffix(a, b, x, y)
      invariant ShorterBefore(a, b, x, longest)
    {
      ghost var before := longest;
      if a[i - 1] == b[j - 1] {
        index[i, j] := index[i - 1, j - 1] + 1;
        if index[i, j] > longest {
          longest, x, y := index[i, j], i, j;
        }
      } else {
        index[i, j] := 0;
      }
      assert index[i, j] == CommonSuffix(a, b, i, j);
      AtMostStep(a, b, i, j, before, longest);
    }
  }

  /** A cell no longer than `longest` extends the bound to the next column. */
  lemma {:induction false} AtMostStep(a: string, b: string, i: nat, j: nat, before: nat, longest: nat)
    requires i <= |a| && j <= |b| && AtMost(a, b, i, j, before) && before <= longest
    requires CommonSuffix(a, b, i, j) <= longest
    ensures AtMost(a, b, i, j + 1, longest)
  {
  }

  /** The best suffix of the scan is a common substring. */
  lemma {:induction false} LcsCommon(a: string, b: string, x: nat, y: nat)
    requires x <= |a| && y <= |b|
    ensures CommonSuffix(a, b, x, y) <= x
    ensures var r := Ending(a, x, CommonSuffix(a, b, x, y)); IsSubstring(r, a) && IsSubstring(r, b)
  {
    CommonSuffixMatches(a, b, x, y);
    var k := CommonSuffix(a, b, x, y);
    assert Ending(a, x, k) == Ending(b, y, k);
  }

  /** No common substring is longer than the longest common suffix. */
  lemma {:induction false} LcsLongest(a: string, b: string, longest: nat)
    requires AtMost(a, b, |a| + 1, 0, longest)
    ensures forall t :: IsSubstring(t, a) && IsSubstring(t, b) ==> |t| <= longest
  {
    forall t | IsSubstring(t, a) && IsSubstring(t, b) ensures |t| <= longest {
      var p :| |t| <= p <= |a| && t == Ending(a, p, |t|);
      var q :| |t| <= q <= |b| && t == Ending(b, q, |t|);
      CommonSuffixAtLeast(a, b, p, q, |t|);
    }
  }

  /** No common substring of the best length ends in `a` before the best row. */
  lemma {:induction false} LcsEndsFirst(a: string, b: string, x: nat, longest: nat)
    requires longest <= x <= |a| && ShorterBefore(a, b, x, longest)
    ensures EndsFirst(a, b, Ending(a, x, longest), x)
  {
    forall e' | longest <= e' < x ensures !IsSubstring(Ending(a, e', longest), b) {
      if IsSubstring(Ending(a, e', longest), b) {
        var q :| longest <= q <= |b| && Ending(a, e', longest) == Ending(b, q, longest);
        CommonSuffixAtLeast(a, b, e', q, longest);
      }
    }
  }

  /** The first character of a non-empty common substring is shared by both strings. */
  lemma {:induction false} CommonFirstChar(a: string, b: string, r: string)
    requires IsSubstring(r, a) && IsSubstring(r, b)
    ensures |r| > 0 ==> r[0] in a && r[0] in b
  {
    if |r| > 0 {
      var p :| |r| <= p <= |a| && r == Ending(a, p, |r|);
      var q :| |r| <= q <= |b| && r == Ending(b, q, |r|);
      assert r[0] == a[p - |r|] && r[0] == b[q - |r|];
    }
  }

  /** A longest common substring of a string with itself is the string. */
  lemma {:induction false} SelfLongest(a: string, r: string)
    requires IsSubstring(r, a)
    requires forall t :: IsSubstring(t, a) && IsSubstring(t, a) ==> |t| <= |r|
    ensures r == a
  {
    assert Ending(a, |a|, |a|) == a[0..|a|] == a;
    assert IsSubstring(a, a);
    assert |a| <= |r|;
    var p :| |r| <= p <= |a| && r == Ending(a, p, |r|);
    assert p == |a| == |r|;
  }

  // ---------------------------------------------------------------- string intersection

  /** `string_intersection`: the characters of the shorter string (the second one on a tie)
      that occur in the longer one, in order. */
  method StringIntersection(s1: string, s2: string) returns (out: string)
    ensures var (short, long) := if |s1| >= |s2| then (s2, s1) else (s1, s2);
      out == KeepIn(short, long) && IsSubsequence(out, short) && forall c :: c in out <==> c in short && c in long
  {
    var short, long := if |s1| >= |s2| then s2 else s1, if |s1| >= |s2| then s1 else s2;
    out := "";
    for k := 0 to |short|
      invariant out == KeepIn(short[..k], long)
    {
      assert short[..k + 1][..k] == short[..k];
      if short[k] in long {
        out := out + [short[k]];
      }
    }
    assert short[..|short|] == short;
    KeepInSubsequence(short, long);
  }

  // ---------------------------------------------------------------- the search

  /** Platform metadata as the finder reports it. */
  datatype Platform = Platform(code: string, name: string, wmo: string, kind: string, organization: string, link: string)

  /** The attributes and summary statistics read from one file: absent global attributes are
      `None`; `start` and `end` are its first and last times in seconds, the means and variances
      those of its longitude and latitude, rounded to 3 decimals. */
  datatype FileInfo = FileInfo(
    path: string, code: string, name: Option<string>, wmo: Option<string>, source: Option<string>,
    institution: Option<string>, references: Option<string>, standardNames: seq<string>,
    start: int, end: int, lonMean: real, lonVariance: real, latMean: real, latVariance: real)

  /** A single blank stands for an absent attribute. */
  function NotBlank(s: string): string {
    if s == " " then "" else s
  }

  /** The metadata of one file: the name as found, blank WMO, institution and references made
      empty, an empty or blank source made `undefined`, commas removed from the institution. */
  function Metadata(f: FileInfo): (p: Platform)
    ensures p.kind != "" && p.kind != " " && p.wmo != " " && p.organization != " " && p.link != " "
    ensures ',' !in p.organization
  {
    var kind := f.source.GetOr("");
    var organization := NotBlank(Without(f.institution.GetOr(""), ','));
    WithoutChars(f.institution.GetOr(""), ',');
    Platform(f.code, f.name.GetOr(""), NotBlank(f.wmo.GetOr("")),
             if kind == "" || kind == " " then "undefined" else kind, organization, NotBlank(f.references.GetOr("")))
  }

  /** Mean within 0.09 degrees of the searched position and variance below 1 degree, in both
      longitude and latitude. */
  predicate Horizontal(f: FileInfo, lonMean: real, latMean: real) {
    -0.09 < f.lonMean - lonMean < 0.09 && f.lonVariance < 1.0 &&
    -0.09 < f.latMean - latMean < 0.09 && f.latVariance < 1.0
  }

  /** `platform_code_condition` for a file after the first: the longest common substring of
      the lowercased codes, without blanks, dashes and underscores, is longer than 2, or the
      codes are equal ignoring case. */
  predicate CodeMatches(code: string, current: string) {
    |Without(Without(Without(Lcs(Lower(code), Lower(current)), ' '), '-'), '_')| > 2 ||
    Lower(code) == Lower(current)
  }

  /** Codes equal up to case always match. */
  lemma {:induction false} EqualCodesMatch(code: string, current: string)
    requires Lower(code) == Lower(current)
    ensures CodeMatches(code, current)
  {
  }

  /** A code of at most two characters matches only a code equal to it up to case. */
  lemma {:induction false} ShortCodeMatchesOnlyItself(code: string, current: string)
    requires |code| <= 2
    ensures CodeMatches(code, current) <==> Lower(code) == Lower(current)
  {
    var lcs := Lcs(Lower(code), Lower(current));
    assert |Without(Without(Without(lcs, ' '), '-'), '_')| <= |lcs| <= 2;
  }

  /** An attribute value that a later file may replace whatever its end time. */
  predicate Unset(s: string) {
    s == "" || s == " " || s == "undefined" || s == "unknown"
  }

  /** The value kept for one metadata field when a later file is accepted. */
  function Refresh(current: string, candidate: string, later: bool): (r: string)
    ensures r == candidate || r == current
    ensures r == candidate <== Unset(current) || later
    ensures r == current <== !Unset(current) && !later
  {
    if Unset(current) || later then candidate else current
  }

  /** The metadata after a later file is accepted: the code follows the file ending later, the
      other fields also replace unset values. */
  function Update(current: Platform, candidate: Platform, later: bool): (p: Platform)
    ensures p.code == (if later then candidate.code else current.code)
  {
    Platform(if later then candidate.code else current.code, Refresh(current.name, candidate.name, later),
             Refresh(current.wmo, candidate.wmo, later), Refresh(current.kind, candidate.kind, later),
             Refresh(current.organization, candidate.organization, later), Refresh(current.link, candidate.link, later))
  }

  /** Some requested standard name is among the file's variables (`list_intersection`). */
  predicate Wanted(names: seq<string>, f: FileInfo) {
    exists k :: 0 <= k < |names| && names[k] in f.standardNames
  }

  /** The file lies in the date window: it does not end before the first date nor start after
      the last. */
  predicate InWindow(f: FileInfo, first: Option<int>, last: Option<int>) {
    !(first.Some? && f.end < first.value) && !(last.Some? && f.start > last.value)
  }

  /** The search parameters: the standard names, the position and the date window. */
  datatype Query = Query(names: seq<string>, lonMean: real, latMean: real, first: Option<int>, last: Option<int>)

  /** The loop state: `first_file`, `found_list`, the `out_*` metadata, `end_time` and
      `previous_end_time`. */
  datatype Search = Search(firstFile: bool, found: seq<string>, out: Platform, end: int, previousEnd: int)

  const Empty := Platform("", "", "", "", "", "")

  const Start := Search(true, [], Empty, 0, 0)

  /** One iteration of the loop over the files. `previous_end_time` takes the last `end_time` of
      a wanted file once a file has been accepted, before the date window is tested. While no
      file is accepted, the metadata are those of the file under test. */
  function Step(st: Search, f: FileInfo, q: Query): (r: Search)
    ensures |r.found| <= |st.found| + 1
    ensures r.found == st.found || r.found == st.found + [f.path]
  {
    if !Wanted(q.names, f) then st
    else
      var st1 := st.(previousEnd := if st.firstFile then st.previousEnd else st.end, end := f.end);
      if !InWindow(f, q.first, q.last) then st1
      else
        var meta := Metadata(f);
        var st2 := if st.firstFile then st1.(out := meta) else st1;
        var matches := st.firstFile || CodeMatches(f.code, st.out.code);
        if !(Horizontal(f, q.lonMean, q.latMean) && matches) then st2
        else if st.firstFile then st2.(found := st.found + [f.path], firstFile := false)
        else st2.(found := st.found + [f.path], out := Update(st.out, meta, f.end > st1.previousEnd))
  }

  /** The loop over the files, in order. */
  function Run(files: seq<FileInfo>, q: Query): Search {
    if files == [] then Start else Step(Run(files[..|files| - 1], q), files[|files| - 1], q)
  }

  /** The result: the found files and their metadata, or nothing with empty strings. */
  function Outcome(st: Search): (seq<string>, Platform) {
    if st.found == [] then ([], Empty) else (st.found, st.out)
  }

  /** The first file to be accepted is the first wanted file inside the window and around the
      position; it gives its metadata. */
  lemma {:induction false} FirstAccepted(st: Search, f: FileInfo, q: Query)
    requires st.firstFile
    ensures Step(st, f, q).found == st.found + [f.path] <==>
      Wanted(q.names, f) && InWindow(f, q.first, q.last) && Horizontal(f, q.lonMean, q.latMean)
    ensures Step(st, f, q).found != st.found ==> !Step(st, f, q).firstFile && Step(st, f, q).out == Metadata(f)
  {
  }

  /** After the first acceptance a file is accepted iff it is wanted, inside the window, around
      the position and its code matches the current one. */
  lemma {:induction false} LaterAccepted(st: Search, f: FileInfo, q: Query)
    requires !st.firstFile
    ensures Step(st, f, q).found == st.found + [f.path] <==>
      Wanted(q.names, f) && InWindow(f, q.first, q.last) && Horizontal(f, q.lonMean, q.latMean) &&
      CodeMatches(f.code, st.out.code)
    ensures !Step(st, f, q).firstFile
  {
  }

  /** A later file that does not end after the previous one keeps the code and every field
      already set. */
  lemma {:induction false} EarlierFileKeepsMetadata(st: Search, f: FileInfo, q: Query)
    requires !st.firstFile && Wanted(q.names, f) && f.end <= st.end
    ensures Step(st, f, q).out.code == st.out.code
    ensures !Unset(st.out.name) ==> Step(st, f, q).out.name == st.out.name
    ensures !Unset(st.out.kind) ==> Step(st, f, q).out.kind == st.out.kind
  {
  }

  /** Once a file is accepted the search never returns to its first-file state, and found files
      stay found. */
  lemma {:induction false} RunPrefix(files: seq<FileInfo>, q: Query, k: nat)
    requires k <= |files|
    ensures Run(files[..k], q).found <= Run(files, q).found
    ensures !Run(files[..k], q).firstFile ==> !Run(files, q).firstFile
    ensures Run(files, q).firstFile <==> Run(files, q).found == []
    decreases |files|
  {
    if files != [] {
      var init := files[..|files| - 1];
      if k < |files| {
        assert files[..k] == init[..k];
        RunPrefix(init, q, k);
      } else {
        assert files[..k] == files;
        RunPrefix(init, q, 0);
      }
    }
  }

  /** Some file with path `p` is wanted, inside the date window and around the position. */
  predicate Accepted(files: seq<FileInfo>, q: Query, p: string) {
    exists k :: 0 <= k < |files| && files[k].path == p && Eligible(files[k], q)
  }

  predicate Eligible(f: FileInfo, q: Query) {
    Wanted(q.names, f) && InWindow(f, q.first, q.last) && Horizontal(f, q.lonMean, q.latMean)
  }

  /** Every found file is wanted, inside the date window and around the position. */
  lemma {:induction false} FoundAreNearby(files: seq<FileInfo>, q: Query)
    ensures forall p :: p in Run(files, q).found ==> Accepted(files, q, p)
  {
    if files != [] {
      var init := files[..|files| - 1];
      FoundAreNearby(init, q);
      forall p | p in Run(files, q).found ensures Accepted(files, q, p) {
        if p !in Run(init, q).found {
          var k := |files| - 1;
          assert files[k].path == p;
        } else {
          var k :| 0 <= k < |init| && init[k].path == p && Eligible(init[k], q);
          assert files[k] == init[k];
        }
      }
    }
  }

  /** `platform_code_condition`: true for the first file, otherwise the code test. */
  method CodeCondition(firstFile: bool, code: string, current: string) returns (c: bool)
    ensures c == (firstFile || CodeMatches(code, current))
  {
    if firstFile {
      return true;
    }
    var common := LongestCommonSubstring(Lower(code), Lower(current));
    common := Without(Without(Without(common, ' '), '-'), '_');
    c := |common| > 2 || Lower(code) == Lower(current);
  }

  /** The body of the loop over the files, on the loop's variables. */
  method Visit(firstFile0: bool, found0: seq<string>, out0: Platform, endTime0: int, previousEnd0: int, f: FileInfo, q: Query)
    returns (firstFile: bool, found: seq<string>, out: Platform, endTime: int, previousEnd: int)
    ensures Search(firstFile, found, out, endTime, previousEnd) == Step(Search(firstFile0, found0, out0, endTime0, previousEnd0), f, q)
  {
    firstFile, found, out, endTime, previousEnd := firstFile0, found0, out0, endTime0, previousEnd0;
    if !Wanted(q.names, f) {
      return;
    }
    if !firstFile {
      previousEnd := endTime;
    }
    endTime := f.end;
    if !InWindow(f, q.first, q.last) {
      return;
    }
    var meta := Metadata(f);
    var codeCondition := CodeCondition(firstFile, f.code, out.code);
    if firstFile {
      out := meta;
    }
    if Horizontal(f, q.lonMean, q.latMean) && codeCondition {
      found := found + [f.path];
      if firstFile {
        firstFile := false;
      } else {
        out := Update(out, meta, endTime > previousEnd);
      }
    }
  }

  /** `insitu_tac_platforms_finder` over the files already read: a first date after the last
      date, or files without a list of standard names, are errors. */
  method FindPlatforms(files: seq<FileInfo>, names: Option<seq<string>>, lonMean: real, latMean: real,
                       first: Option<int>, last: Option<int>)
    returns (r: Result<(seq<string>, Platform)>)
    ensures r.Err? <==> (first.Some? && last.Some? && first.value > last.value) || (names.None? && files != [])
    ensures r.Ok? ==> r.value == Outcome(Run(files, Query(names.GetOr([]), lonMean, latMean, first, last)))
  {
    if first.Some? && last.Some? && first.value > last.value {
      return Err("selected first date is greater than last date");
    }
    if names.None? && files != [] {
      return Err("no standard names to look for");
    }
    var q := Query(names.GetOr([]), lonMean, latMean, first, last);
    var firstFile, found, out, endTime, previousEnd := true, [], Empty, 0, 0;
    for k := 0 to |files|
      invariant Search(firstFile, found, out, endTime, previousEnd) == Run(files[..k], q)
    {
      assert files[..k + 1][..k] == files[..k];
      firstFile, found, out, endTime, previousEnd := Visit(firstFile, found, out, endTime, previousEnd, files[k], q);
    }
    assert files[..|files|] == files;
    r := Ok(Outcome(Search(firstFile, found, out, endTime, previousEnd)));
  }
}
