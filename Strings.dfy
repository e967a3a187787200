/** The Python string operations the tools use on their arguments and table cells:
    `str.split(sep)`, `sep.join`, `int(...)` and `str(n)`. */
module Strings {
  import opened Wrappers

  predicate IsDigit(c: char) {
    '0' <= c <= '9'
  }

  /** Python's whitespace characters (`str.isspace()`), which `int()` and `str.strip()` skip:
      the ASCII controls tab to carriage return and file to unit separator, the space, next
      line, no-break space, the Ogham space mark, the en quad to hair spaces, the line and
      paragraph separators, the narrow no-break and medium mathematical spaces and the
      ideographic space. */
  predicate IsSpace(c: char) {
    ('\t' <= c <= '\r') || ('\U{001C}' <= c <= ' ') || c == '\U{0085}' || c == '\U{00A0}' ||
    c == '\U{1680}' || ('\U{2000}' <= c <= '\U{200A}') || c == '\U{2028}' || c == '\U{2029}' ||
    c == '\U{202F}' || c == '\U{205F}' || c == '\U{3000}'
  }

  predicate AllDigits(s: string) {
    forall j :: 0 <= j < |s| ==> IsDigit(s[j])
  }

  function DigitChar(d: nat): (c: char)
    requires d < 10
    ensures IsDigit(c)
  {
    ('0' as int + d) as char
  }

  function DigitValue(c: char): (d: nat)
    requires IsDigit(c)
    ensures d < 10 && DigitChar(d) == c
  {
    (c as int - '0' as int) as nat
  }

  lemma {:induction false} DigitCharValue(d: nat)
    requires d < 10
    ensures DigitValue(DigitChar(d)) == d
  {
  }

  /** The value of a string of decimal digits. */
  function DigitsValue(s: string): nat
    requires AllDigits(s)
  {
    if s == [] then 0 else DigitsValue(s[..|s| - 1]) * 10 + DigitValue(s[|s| - 1])
  }

  /** `str(n)` for a natural number: its decimal digits, without leading zeros. */
  function NatToString(n: nat): (s: string)
    ensures |s| >= 1 && AllDigits(s)
    ensures |s| > 1 ==> s[0] != '0'
  {
    if n < 10 then [DigitChar(n)] else NatToString(n / 10) + [DigitChar(n % 10)]
  }

  /** `str(n)`. */
  function IntToString(n: int): (s: string)
    ensures |s| >= 1
  {
    if n < 0 then "-" + NatToString(-n) else NatToString(n)
  }

  /** Reading the digits back gives the number. */
  lemma {:induction false} NatToStringValue(n: nat)
    ensures DigitsValue(NatToString(n)) == n
  {
    if n >= 10 {
      NatToStringValue(n / 10);
      var s := NatToString(n);
      assert s[..|s| - 1] == NatToString(n / 10);
    }
  }

  /** A leading zero does not change the value of a string of digits. */
  lemma {:induction false} LeadingZero(s: string)
    requires AllDigits(s)
    ensures AllDigits("0" + s) && DigitsValue("0" + s) == DigitsValue(s)
  {
    if s != [] {
      var init := s[..|s| - 1];
      LeadingZero(init);
      assert ("0" + s)[..|"0" + s| - 1] == "0" + init;
    }
  }

  /** `str(n)` has one digit below 10, two below 100 and three below 1000. */
  lemma {:induction false} NatToStringLength(n: nat)
    ensures n < 10 ==> |NatToString(n)| == 1
    ensures 10 <= n < 100 ==> |NatToString(n)| == 2
    ensures 100 <= n < 1000 ==> |NatToString(n)| == 3
  {
    if n >= 10 {
      NatToStringLength(n / 10);
    }
  }

  /** A non-empty sequence is its front followed by its last element. */
  lemma InitLast<T>(s: seq<T>)
    requires s != []
    ensures s[..|s| - 1] + [s[|s| - 1]] == s
  {
  }

  /** Drops leading and trailing whitespace (`str.strip()`). */
  function Strip(s: string): (r: string)
    ensures |r| <= |s|
    ensures r != [] ==> !IsSpace(r[0]) && !IsSpace(r[|r| - 1])
    decreases |s|
  {
    if s == [] then []
    else if IsSpace(s[0]) then Strip(s[1..])
    else if IsSpace(s[|s| - 1]) then Strip(s[..|s| - 1])
    else s
  }

  /** The digits of a decimal literal as `int()` reads them: a digit, then further digits,
      each of which may follow a single `_`. */
  predicate DigitGroups(s: string)
    decreases |s|
  {
    s != [] && IsDigit(s[0]) &&
    (|s| == 1 || (s[1] == '_' && |s| > 2 && DigitGroups(s[2..])) || (s[1] != '_' && DigitGroups(s[1..])))
  }

  /** A run of plain digits is one digit group. */
  lemma {:induction false} DigitsAreGroups(s: string)
    requires s != [] && AllDigits(s)
    ensures DigitGroups(s)
    decreases |s|
  {
    if |s| > 1 {
      DigitsAreGroups(s[1..]);
    }
  }

  /** The value of digit groups read left to right after the digits `acc` already read, each
      `_` being skipped. */
  function GroupsValue(acc: nat, s: string): nat
    requires DigitGroups(s)
    decreases |s|
  {
    var v := acc * 10 + DigitValue(s[0]);
    if |s| == 1 then v else if s[1] == '_' then GroupsValue(v, s[2..]) else GroupsValue(v, s[1..])
  }

  /** The value of the digits of a literal, `None` when they are not digit groups. */
  function ParseDigits(digits: string): (r: Option<nat>)
    ensures r.Some? <==> DigitGroups(digits)
  {
    if DigitGroups(digits) then Some(GroupsValue(0, digits)) else None
  }

  /** `int(s)` in base 10: surrounding whitespace, an optional sign, and digits in which a
      single `_` may separate two digits. Anything else is the `ValueError` case, `None`.
      Decimal digits outside ASCII are not read; see the README. */
  function ParseInt(s: string): (r: Option<int>)
  {
    var t := Strip(s);
    var signed := t != [] && (t[0] == '-' || t[0] == '+');
    var v := ParseDigits(if signed then t[1..] else t);
    if v.None? then None
    else
      var n: int := v.value;
      Some(if signed && t[0] == '-' then -n else n)
  }

  /** Reading one more digit after `p` is reading the digits `p + [c]`. */
  lemma {:induction false} DigitsValueSnoc(p: string, c: char)
    requires AllDigits(p) && IsDigit(c)
    ensures AllDigits(p + [c]) && DigitsValue(p + [c]) == DigitsValue(p) * 10 + DigitValue(c)
  {
    assert (p + [c])[..|p|] == p;
  }

  /** Reading plain digits `s` after the digits `p` is reading `p + s`. */
  lemma {:induction false} GroupsValuePlain(p: string, s: string)
    requires AllDigits(p) && s != [] && AllDigits(s)
    ensures DigitGroups(s) && AllDigits(p + s) && GroupsValue(DigitsValue(p), s) == DigitsValue(p + s)
    decreases |s|
  {
    DigitsAreGroups(s);
    var p' := p + [s[0]];
    assert AllDigits(p') && DigitsValue(p') == DigitsValue(p) * 10 + DigitValue(s[0]) by {
      DigitsValueSnoc(p, s[0]);
    }
    assert p' + s[1..] == p + s;
    if |s| > 1 {
      GroupsValuePlain(p', s[1..]);
    }
  }

  /** A run of plain digits is its own value. */
  lemma {:induction false} ParseDigitsPlain(s: string)
    requires s != [] && AllDigits(s)
    ensures ParseDigits(s) == Some(DigitsValue(s))
  {
    GroupsValuePlain([], s);
    assert [] + s == s;
  }

  /** A literal without surrounding whitespace or sign is read by its digits alone. */
  lemma {:induction false} ParseIntUnsigned(t: string)
    requires t != [] && IsDigit(t[0]) && IsDigit(t[|t| - 1])
    ensures ParseInt(t) == (var v := ParseDigits(t); if v.None? then None else Some(v.value as int))
  {
    StripKeeps(t);
  }

  /** Reading `a + "_" + b` after the digits `p`, for digit runs `a` and `b`, is reading the
      digits `p + a + b`: the `_` is skipped. */
  lemma {:induction false} GroupsValueJoined(p: string, a: string, b: string)
    requires AllDigits(p) && a != [] && b != [] && AllDigits(a) && AllDigits(b)
    ensures DigitGroups(a + "_" + b) && AllDigits(p + a + b)
    ensures GroupsValue(DigitsValue(p), a + "_" + b) == DigitsValue(p + a + b)
    decreases |a|
  {
    var s := a + "_" + b;
    var p' := p + [a[0]];
    var v := DigitsValue(p) * 10 + DigitValue(a[0]);
    assert AllDigits(p') && DigitsValue(p') == v by { DigitsValueSnoc(p, a[0]); }
    assert p' + a[1..] + b == p + a + b;
    if |a| == 1 {
      assert DigitGroups(s) && GroupsValue(DigitsValue(p), s) == GroupsValue(v, b) by {
        assert s[0] == a[0] && s[1] == '_' && s[2..] == b;
        DigitsAreGroups(b);
      }
      GroupsValuePlain(p', b);
      assert p' + b == p + a + b;
    } else {
      var rest := a[1..] + "_" + b;
      assert DigitGroups(rest) && GroupsValue(v, rest) == DigitsValue(p + a + b) by {
        GroupsValueJoined(p', a[1..], b);
      }
      assert s[0] == a[0] && s[1] == a[1] && s[1] != '_' && s[1..] == rest;
      assert DigitGroups(s);
      assert GroupsValue(DigitsValue(p), s) == GroupsValue(v, rest);
    }
  }

  /** `int()` reads a single `_` between two digit runs as nothing: `int('1_0') == 10`. */
  lemma {:induction false} ParseIntUnderscore(a: string, b: string)
    requires a != [] && b != [] && AllDigits(a) && AllDigits(b)
    ensures ParseInt(a + "_" + b) == ParseInt(a + b) == Some(DigitsValue(a + b))
  {
    var s := a + "_" + b;
    var u := a + b;
    assert ParseDigits(s) == Some(DigitsValue(u)) by {
      GroupsValueJoined([], a, b);
      assert [] + a + b == u;
    }
    assert ParseDigits(u) == Some(DigitsValue(u)) by {
      GroupsValuePlain(a, b);
      ParseDigitsPlain(u);
    }
    assert ParseInt(s) == Some(DigitsValue(u)) by {
      assert s[0] == a[0] && s[|s| - 1] == b[|b| - 1];
      ParseIntUnsigned(s);
    }
    assert ParseInt(u) == Some(DigitsValue(u)) by {
      assert u[0] == a[0] && u[|u| - 1] == b[|b| - 1];
      ParseIntUnsigned(u);
    }
  }

  /** `int('1_0') == 10`. */
  lemma ParseIntSeparatorExample()
    ensures ParseInt("1_0") == Some(10)
  {
    ParseIntUnderscore("1", "0");
    assert "1" + "_" + "0" == "1_0";
    var ten: string := "1" + "0";
    assert DigitsValue(ten) == 10 by {
      assert ten[..1] == "1" && ten[1] == '0';
      assert DigitsValue("1") == 1 by { assert "1"[..0] == []; }
    }
  }

  /** A doubled, leading or trailing `_` is a `ValueError`. */
  lemma ParseIntRefusedSeparators()
    ensures ParseInt("1__0") == None && ParseInt("_1") == None && ParseInt("1_") == None
  {
    var d: string := "1__0";
    assert !DigitGroups(d) by { assert d[1] == '_' && d[2..] == "_0"; }
    ParseIntUnsigned(d);
    StripKeeps("_1");
    StripKeeps("1_");
  }

  /** A no-break space around a literal is skipped like any whitespace: `int('\xa07\xa0') == 7`. */
  lemma ParseIntNoBreakSpace()
    ensures ParseInt("\U{00A0}7\U{00A0}") == Some(7)
  {
    var t: string := "\U{00A0}7\U{00A0}";
    var seven: string := "7";
    assert Strip(t) == seven by {
      assert IsSpace(t[0]) && t[1..] == seven + "\U{00A0}";
      assert Strip(t) == Strip(seven + "\U{00A0}");
      assert (seven + "\U{00A0}")[..1] == seven;
      StripKeeps(seven);
    }
    assert ParseDigits(seven) == Some(7) by {
      ParseDigitsPlain(seven);
      assert seven[..0] == [];
    }
  }

  /** A string that neither starts nor ends with whitespace is not stripped. */
  lemma {:induction false} StripKeeps(s: string)
    requires s != [] && !IsSpace(s[0]) && !IsSpace(s[|s| - 1])
    ensures Strip(s) == s
  {
  }

  /** `int(str(n)) == n`. */
  lemma {:induction false} ParseIntOfIntToString(n: int)
    ensures ParseInt(IntToString(n)) == Some(n)
  {
    var s := IntToString(n);
    var m: nat := if n < 0 then -n else n;
    var digits := NatToString(m);
    assert ParseDigits(digits) == Some(m) by {
      NatToStringValue(m);
      ParseDigitsPlain(digits);
    }
    assert digits[0] != '-' && digits[0] != '+';
    if n < 0 {
      assert s == "-" + digits && s[1..] == digits;
      StripKeeps(s);
    } else {
      assert s == digits;
      StripKeeps(s);
    }
  }

  /** A string that is not a decimal literal is refused. */
  lemma {:induction false} ParseIntRefuses(s: string)
    requires forall j :: 0 <= j < |s| ==> !IsDigit(s[j])
    ensures ParseInt(s) == None
  {
    var t := Strip(s);
    var i, j := StripIsInfix(s);
    var signed := t != [] && (t[0] == '-' || t[0] == '+');
    var digits := if signed then t[1..] else t;
    if digits != [] {
      if signed {
        assert digits[0] == s[i + 1];
      } else {
        assert digits[0] == s[i];
      }
      assert !IsDigit(digits[0]);
    }
  }

  /** What `Strip` keeps is the contiguous part `s[i..j]` of its input. */
  lemma {:induction false} StripIsInfix(s: string) returns (i: nat, j: nat)
    ensures i <= j <= |s| && Strip(s) == s[i..j]
    decreases |s|
  {
    if s == [] {
      i, j := 0, 0;
    } else if IsSpace(s[0]) {
      var i', j' := StripIsInfix(s[1..]);
      i, j := i' + 1, j' + 1;
      assert s[1..][i'..j'] == s[i..j];
    } else if IsSpace(s[|s| - 1]) {
      i, j := StripIsInfix(s[..|s| - 1]);
      assert s[..|s| - 1][i..j] == s[i..j];
    } else {
      i, j := 0, |s|;
    }
  }

  /** `a[e - k..e]`: the `k` characters of `a` ending at `e`. */
  function Ending(a: string, e: nat, k: nat): string
    requires k <= e <= |a|
  {
    a[e - k..e]
  }

  /** `t in s` on strings: `t` occurs in `s`. */
  predicate IsSubstring(t: string, s: string) {
    exists e :: |t| <= e <= |s| && t == Ending(s, e, |t|)
  }

  /** A string occurring in `s` brings its endings along. */
  lemma {:induction false} EndingOccurs(p: string, t: string, s: string)
    requires IsSubstring(p + t, s)
    ensures IsSubstring(t, s)
  {
    var e :| |p + t| <= e <= |s| && p + t == Ending(s, e, |p + t|);
    assert t == (p + t)[|p|..];
    assert t == Ending(s, e, |t|);
  }

  /** `t in s` again, scanning `s` from the front: cheaper to unfold than the existential. */
  predicate Contains(s: string, t: string)
    decreases |s|
  {
    (|t| <= |s| && s[..|t|] == t) || (s != [] && Contains(s[1..], t))
  }

  lemma {:induction false} ContainsIsSubstring(s: string, t: string)
    ensures Contains(s, t) <==> IsSubstring(t, s)
    decreases |s|
  {
    if s == [] {
      if IsSubstring(t, s) {
        var e :| |t| <= e <= |s| && t == Ending(s, e, |t|);
        assert t == [] && s[..0] == t;
      }
      if Contains(s, t) {
        assert t == Ending(s, 0, 0);
      }
    } else {
      ContainsIsSubstring(s[1..], t);
      if |t| <= |s| && s[..|t|] == t {
        assert t == Ending(s, |t|, |t|);
      }
      if IsSubstring(t, s[1..]) {
        SubstringOfTail(s, t);
      }
      if IsSubstring(t, s) {
        SubstringAtFrontOrTail(s, t);
      }
    }
  }

  lemma {:induction false} SubstringOfTail(s: string, t: string)
    requires s != [] && IsSubstring(t, s[1..])
    ensures IsSubstring(t, s)
  {
    var e :| |t| <= e <= |s[1..]| && t == Ending(s[1..], e, |t|);
    assert t == Ending(s, e + 1, |t|);
  }

  lemma {:induction false} SubstringAtFrontOrTail(s: string, t: string)
    requires s != [] && IsSubstring(t, s)
    ensures (|t| <= |s| && s[..|t|] == t) || IsSubstring(t, s[1..])
  {
    var e :| |t| <= e <= |s| && t == Ending(s, e, |t|);
    if e > |t| {
      assert t == Ending(s[1..], e - 1, |t|);
    } else {
      assert s[..|t|] == t;
    }
  }

  /** A string contained in `s` brings its endings along. */
  lemma {:induction false} ContainsEnding(s: string, p: string, t: string)
    requires Contains(s, p + t)
    ensures Contains(s, t)
  {
    ContainsIsSubstring(s, p + t);
    EndingOccurs(p, t, s);
    ContainsIsSubstring(s, t);
  }

  /** `s.split(sep)` for a one-character separator: the pieces between separators, empty pieces
      included, so there is always one more piece than separators. */
  function Split(s: string, sep: char): (parts: seq<string>)
    ensures |parts| >= 1
    ensures forall k :: 0 <= k < |parts| ==> sep !in parts[k]
  {
    if s == [] then [""]
    else
      var rest := Split(s[..|s| - 1], sep);
      if s[|s| - 1] == sep then rest + [""]
      else rest[..|rest| - 1] + [rest[|rest| - 1] + [s[|s| - 1]]]
  }

  /** `sep.join(parts)`. */
  function Join(parts: seq<string>, sep: char): string
  {
    if parts == [] then ""
    else if |parts| == 1 then parts[0]
    else Join(parts[..|parts| - 1], sep) + [sep] + parts[|parts| - 1]
  }

  /** Joining the pieces of a split with the same separator gives the string back. */
  lemma {:induction false} JoinSplit(s: string, sep: char)
    ensures Join(Split(s, sep), sep) == s
  {
    if s != [] {
      var init, c := s[..|s| - 1], s[|s| - 1];
      JoinSplit(init, sep);
      if c == sep {
        JoinSplitSeparator(init, sep);
      } else {
        JoinSplitCharacter(init, sep, c);
      }
      assert s == init + [c];
    }
  }

  lemma {:induction false} JoinSplitSeparator(init: string, sep: char)
    requires Join(Split(init, sep), sep) == init
    ensures Join(Split(init + [sep], sep), sep) == init + [sep]
  {
    var s := init + [sep];
    assert s[..|s| - 1] == init;
    var rest := Split(init, sep);
    assert Split(s, sep) == rest + [""];
    assert (rest + [""])[..|rest|] == rest;
  }

  lemma {:induction false} JoinSplitCharacter(init: string, sep: char, c: char)
    requires c != sep && Join(Split(init, sep), sep) == init
    ensures Join(Split(init + [c], sep), sep) == init + [c]
  {
    var s := init + [c];
    assert s[..|s| - 1] == init;
    var rest := Split(init, sep);
    assert Split(s, sep) == rest[..|rest| - 1] + [rest[|rest| - 1] + [c]];
    JoinLastGrows(rest, sep, c);
  }

  /** Extending the last piece extends the joined string by the same characters. */
  lemma {:induction false} JoinLastGrows(parts: seq<string>, sep: char, c: char)
    requires parts != []
    ensures Join(parts[..|parts| - 1] + [parts[|parts| - 1] + [c]], sep) == Join(parts, sep) + [c]
  {
    var grown := parts[..|parts| - 1] + [parts[|parts| - 1] + [c]];
    if |parts| > 1 {
      assert grown[..|grown| - 1] == parts[..|parts| - 1];
    }
  }

  /** Joining pieces that hold no separator and splitting again gives the pieces back. */
  lemma {:induction false} SplitJoin(parts: seq<string>, sep: char)
    requires parts != []
    requires forall k :: 0 <= k < |parts| ==> sep !in parts[k]
    ensures Split(Join(parts, sep), sep) == parts
    decreases parts
  {
    if |parts| == 1 {
      SplitNoSeparator(parts[0], sep);
    } else {
      var init := parts[..|parts| - 1];
      assert forall k :: 0 <= k < |init| ==> init[k] == parts[k];
      SplitJoin(init, sep);
      assert Join(parts, sep) == Join(init, sep) + [sep] + parts[|parts| - 1];
      SplitAppend(Join(init, sep), sep, parts[|parts| - 1]);
      InitLast(parts);
    }
  }

  /** A string without the separator is one piece. */
  lemma {:induction false} SplitNoSeparator(s: string, sep: char)
    requires sep !in s
    ensures Split(s, sep) == [s]
  {
    if s != [] {
      var init := s[..|s| - 1];
      assert sep !in init by {
        forall j | 0 <= j < |init| ensures init[j] != sep {
          assert init[j] == s[j];
        }
      }
      SplitNoSeparator(init, sep);
      InitLast(s);
    }
  }

  /** Appending a separator and a separator-free piece adds that piece. */
  lemma {:induction false} SplitAppend(s: string, sep: char, piece: string)
    requires sep !in piece
    ensures Split(s + [sep] + piece, sep) == Split(s, sep) + [piece]
    decreases |piece|
  {
    var t := s + [sep] + piece;
    if piece == [] {
      assert t[..|t| - 1] == s;
    } else {
      var init := piece[..|piece| - 1];
      assert sep !in init by {
        forall j | 0 <= j < |init| ensures init[j] != sep {
          assert init[j] == piece[j];
        }
      }
      SplitAppend(s, sep, init);
      assert t[..|t| - 1] == s + [sep] + init;
      InitLast(piece);
    }
  }

  /** `c.lower()` on ASCII letters. */
  function LowerChar(c: char): char {
    if 'A' <= c <= 'Z' then (c as int + 32) as char else c
  }

  /** `s.lower()` on ASCII letters. */
  function Lower(s: string): (r: string)
    ensures |r| == |s| && forall k :: 0 <= k < |s| ==> r[k] == LowerChar(s[k])
  {
    seq(|s|, k requires 0 <= k < |s| => LowerChar(s[k]))
  }

  /** `s.replace(c, '')`. */
  function Without(s: string, c: char): (r: string)
    ensures |r| <= |s|
  {
    if s == [] then ""
    else Without(s[..|s| - 1], c) + (if s[|s| - 1] == c then "" else [s[|s| - 1]])
  }

  /** Removing a character keeps every other character and drops every copy of it. */
  lemma {:induction false} WithoutChars(s: string, c: char)
    ensures forall x :: x in Without(s, c) <==> x in s && x != c
  {
    if s != [] {
      WithoutChars(s[..|s| - 1], c);
      assert s == s[..|s| - 1] + [s[|s| - 1]];
    }
  }

  /** `s.endswith(suffix)`. */
  predicate EndsWith(s: string, suffix: string) {
    |suffix| <= |s| && s[|s| - |suffix|..] == suffix
  }

  /** The characters of `s` that occur in `t`, in order. */
  function KeepIn(s: string, t: string): (r: string)
    ensures forall c :: c in r <==> c in s && c in t
  {
    if s == [] then ""
    else
      var init := KeepIn(s[..|s| - 1], t);
      assert s == s[..|s| - 1] + [s[|s| - 1]];
      init + (if s[|s| - 1] in t then [s[|s| - 1]] else "")
  }

  /** `u` is `s` with some characters left out. */
  predicate IsSubsequence(u: string, s: string) {
    if u == [] then true
    else if s == [] then false
    else if u[|u| - 1] == s[|s| - 1] then IsSubsequence(u[..|u| - 1], s[..|s| - 1])
    else IsSubsequence(u, s[..|s| - 1])
  }

  lemma {:induction false} KeepInSubsequence(s: string, t: string)
    ensures IsSubsequence(KeepIn(s, t), s)
  {
    if s != [] {
      KeepInSubsequence(s[..|s| - 1], t);
      var init := KeepIn(s[..|s| - 1], t);
      if s[|s| - 1] in t {
        assert KeepIn(s, t) == init + [s[|s| - 1]];
        assert (init + [s[|s| - 1]])[..|init|] == init;
      } else {
        assert KeepIn(s, t) == init;
        assert init != [] ==> init[|init| - 1] in init;
      }
    }
  }

  /** Dropping the last character of a subsequence keeps a subsequence. */
  lemma {:induction false} SubsequenceDropLast(u: string, s: string)
    requires u != [] && IsSubsequence(u, s)
    ensures IsSubsequence(u[..|u| - 1], s)
    decreases |s|, |u|
  {
    if u[|u| - 1] == s[|s| - 1] {
      SubsequenceOfLonger(u[..|u| - 1], s);
    } else {
      SubsequenceDropLast(u, s[..|s| - 1]);
      SubsequenceOfLonger(u[..|u| - 1], s);
    }
  }

  /** A subsequence of `s` without its last character is a subsequence of `s`. */
  lemma {:induction false} SubsequenceOfLonger(u: string, s: string)
    requires s != [] && IsSubsequence(u, s[..|s| - 1])
    ensures IsSubsequence(u, s)
    decreases |s|, |u|
  {
    if u != [] && u[|u| - 1] == s[|s| - 1] {
      SubsequenceDropLast(u, s[..|s| - 1]);
    }
  }

  /** A subsequence of a subsequence is a subsequence. */
  lemma {:induction false} SubsequenceTransitive(u: string, v: string, w: string)
    requires IsSubsequence(u, v) && IsSubsequence(v, w)
    ensures IsSubsequence(u, w)
    decreases |w|
  {
    if u != [] {
      var w' := w[..|w| - 1];
      if v[|v| - 1] == w[|w| - 1] {
        if u[|u| - 1] == v[|v| - 1] {
          SubsequenceTransitive(u[..|u| - 1], v[..|v| - 1], w');
        } else {
          SubsequenceTransitive(u, v[..|v| - 1], w');
        }
      } else {
        SubsequenceTransitive(u, v, w');
        if u[|u| - 1] == w[|w| - 1] {
          SubsequenceDropLast(u, w');
        }
      }
    }
  }

  /** Keeping the characters of `s` found in a string holding all of them keeps `s`. */
  lemma {:induction false} KeepInAll(s: string, t: string)
    requires forall c :: c in s ==> c in t
    ensures KeepIn(s, t) == s
  {
    if s != [] {
      var init := s[..|s| - 1];
      assert forall c :: c in init ==> c in s;
      KeepInAll(init, t);
      assert s[|s| - 1] in t;
      InitLast(s);
    }
  }
}
