/** The JavaScript string built-ins the core relies on, as ECMAScript defines them for ASCII text.
    Numbers are mathematical integers: `parseInt`'s rounding to a double is not modelled. */
module JsStrings {
  import opened Wrappers

  /** `String.prototype.startsWith`. */
  predicate StartsWith(s: string, prefix: string) {
    prefix <= s
  }

  /** `String.prototype.split` with a one-character separator: the pieces between separators,
      empty pieces included, so that there is always at least one. */
  function Split(s: string, sep: char): (parts: seq<string>)
    ensures |parts| >= 1
    ensures forall i :: 0 <= i < |parts| ==> sep !in parts[i]
  {
    if s == [] then [""]
    else
      var rest := Split(s[1..], sep);
      if s[0] == sep then [""] + rest
      else [[s[0]] + rest[0]] + rest[1..]
  }

  /** `Array.prototype.join`. */
  function Join(parts: seq<string>, sep: string): string {
    if parts == [] then ""
    else if |parts| == 1 then parts[0]
    else parts[0] + sep + Join(parts[1..], sep)
  }

  /** Splitting and joining again with the same separator gives back the original string. */
  lemma {:induction false} JoinSplit(s: string, sep: char)
    ensures Join(Split(s, sep), [sep]) == s
  {
    if s != [] {
      var rest := Split(s[1..], sep);
      JoinSplit(s[1..], sep);
      if s[0] == sep {
        assert Split(s, sep)[1..] == rest;
      } else if |rest| == 1 {
        assert s == [s[0]] + s[1..];
      } else {
        var parts := Split(s, sep);
        assert parts[1..] == rest[1..];
        assert Join(rest, [sep]) == rest[0] + [sep] + Join(rest[1..], [sep]);
        assert s == [s[0]] + s[1..];
      }
    }
  }

  /** Joining separator-free pieces and splitting again gives back the pieces. */
  lemma {:induction false} SplitJoin(parts: seq<string>, sep: char)
    requires |parts| >= 1
    requires forall i :: 0 <= i < |parts| ==> sep !in parts[i]
    ensures Split(Join(parts, [sep]), sep) == parts
  {
    if |parts| == 1 {
      SplitNoSeparator(parts[0], sep);
    } else {
      SplitJoin(parts[1..], sep);
      SplitAfterPiece(parts[0], sep, Join(parts[1..], [sep]));
      assert parts == [parts[0]] + parts[1..];
    }
  }

  lemma {:induction false} SplitNoSeparator(s: string, sep: char)
    requires sep !in s
    ensures Split(s, sep) == [s]
  {
    if s != [] {
      SplitNoSeparator(s[1..], sep);
      assert s[0] in s;
      assert s == [s[0]] + s[1..];
    }
  }

  lemma {:induction false} SplitAfterPiece(piece: string, sep: char, tail: string)
    requires sep !in piece
    ensures Split(piece + [sep] + tail, sep) == [piece] + Split(tail, sep)
  {
    if piece != [] {
      assert (piece + [sep] + tail)[1..] == piece[1..] + [sep] + tail;
      SplitAfterPiece(piece[1..], sep, tail);
      assert [piece[0]] + piece[1..] == piece;
    } else {
      assert ([sep] + tail)[1..] == tail;
    }
  }

  /** The piece after the last separator: `tokens[tokens.length - 1]` of `split(sep)`. */
  function LastSegment(s: string, sep: char): string {
    var parts := Split(s, sep);
    parts[|parts| - 1]
  }

  /** `r` ends `s`, and either is the whole of `s` or comes right after a separator. */
  predicate EndsAfterSeparator(s: string, r: string, sep: char) {
    |r| <= |s| && s[|s| - |r|..] == r && (|r| == |s| || s[|s| - |r| - 1] == sep)
  }

  /** The last segment is the longest separator-free suffix: it ends the string and is either the
      whole string or preceded by a separator. */
  lemma {:induction false} LastSegmentIsSuffix(s: string, sep: char)
    ensures sep !in LastSegment(s, sep) && EndsAfterSeparator(s, LastSegment(s, sep), sep)
  {
    if s != [] {
      var t := s[1..];
      assert s == [s[0]] + t;
      if sep !in s {
        SplitNoSeparator(s, sep);
      } else {
        LastSegmentIsSuffix(t, sep);
        var r := LastSegment(t, sep);
        if s[0] == sep {
          LastAfterSeparator(s, sep);
        } else {
          LastAfterPiece(s, sep);
          SeparatorBeforeSuffix(t, r, sep);
        }
        EndsAfterSeparatorCons(s[0], t, r, sep);
      }
    }
  }

  lemma EndsAfterSeparatorCons(c: char, t: string, r: string, sep: char)
    requires EndsAfterSeparator(t, r, sep)
    requires |r| < |t| || c == sep
    ensures EndsAfterSeparator([c] + t, r, sep)
  {
    var s := [c] + t;
    assert s[|s| - |r|..] == t[|t| - |r|..];
    if |r| < |t| {
      assert s[|s| - |r| - 1] == t[|t| - |r| - 1];
    }
  }

  /** A string holding the separator splits into at least two pieces. */
  lemma {:induction false} SplitSeveral(s: string, sep: char)
    requires sep in s
    ensures |Split(s, sep)| >= 2
  {
    if s[0] != sep {
      assert sep in s[1..] by {
        var k :| 0 <= k < |s| && s[k] == sep;
        assert s[1..][k - 1] == sep;
      }
      SplitSeveral(s[1..], sep);
    }
  }

  /** When the rest of the string holds a separator, the first character does not reach the
      last segment. */
  lemma LastAfterPiece(s: string, sep: char)
    requires s != [] && s[0] != sep && sep in s
    ensures sep in s[1..] && LastSegment(s, sep) == LastSegment(s[1..], sep)
  {
    var k :| 0 <= k < |s| && s[k] == sep;
    assert s[1..][k - 1] == sep;
    SplitSeveral(s[1..], sep);
  }

  /** A separator-free suffix of a string holding the separator is shorter than the string. */
  lemma SeparatorBeforeSuffix(t: string, r: string, sep: char)
    requires sep in t && sep !in r && |r| <= |t| && t[|t| - |r|..] == r
    ensures |r| < |t|
  {
    var k :| 0 <= k < |t| && t[k] == sep;
    forall j | |t| - |r| <= j < |t| ensures t[j] != sep {
      assert t[j] == r[j - (|t| - |r|)];
    }
  }

  /** After a leading separator, the last segment is that of the rest of the string. */
  lemma LastAfterSeparator(s: string, sep: char)
    requires s != [] && s[0] == sep
    ensures LastSegment(s, sep) == LastSegment(s[1..], sep)
  {
    var rest := Split(s[1..], sep);
    assert Split(s, sep) == [""] + rest;
  }

  /** `toLowerCase` on one character (ASCII letters). */
  function LowerChar(c: char): char {
    if 'A' <= c <= 'Z' then (c as int + 32) as char else c
  }

  /** `String.prototype.toLowerCase` for the ASCII range. */
  function ToLowerCase(s: string): (r: string)
    ensures |r| == |s|
    ensures forall i :: 0 <= i < |s| ==> r[i] == LowerChar(s[i])
  {
    if s == [] then [] else [LowerChar(s[0])] + ToLowerCase(s[1..])
  }

  /** Lower-casing twice is lower-casing once. */
  lemma ToLowerCaseIdempotent(s: string)
    ensures ToLowerCase(ToLowerCase(s)) == ToLowerCase(s)
  {
    var once := ToLowerCase(s);
    var twice := ToLowerCase(once);
    forall i | 0 <= i < |s| ensures twice[i] == once[i] {
      assert LowerChar(LowerChar(s[i])) == LowerChar(s[i]);
    }
  }

  /** A piece at the end of a lower-case string is lower case. */
  lemma LowerSuffix(lower: string, suffix: string)
    requires ToLowerCase(lower) == lower
    requires |suffix| <= |lower| && lower[|lower| - |suffix|..] == suffix
    ensures ToLowerCase(suffix) == suffix
  {
    var offset := |lower| - |suffix|;
    forall i | 0 <= i < |suffix| ensures ToLowerCase(suffix)[i] == suffix[i] {
      assert suffix[i] == lower[offset + i];
      assert ToLowerCase(lower)[offset + i] == LowerChar(lower[offset + i]);
    }
  }

  /** Every piece lower-cased. */
  function LowerEach(parts: seq<string>): (r: seq<string>)
    ensures |r| == |parts|
    ensures forall i :: 0 <= i < |parts| ==> r[i] == ToLowerCase(parts[i])
  {
    if parts == [] then [] else [ToLowerCase(parts[0])] + LowerEach(parts[1..])
  }

  /** Lower-casing commutes with splitting on a character that is not a letter. */
  lemma {:induction false} SplitLowerCase(s: string, sep: char)
    requires !('A' <= sep <= 'Z') && !('a' <= sep <= 'z')
    ensures Split(ToLowerCase(s), sep) == LowerEach(Split(s, sep))
  {
    if s != [] {
      var low := ToLowerCase(s);
      assert low[0] == LowerChar(s[0]) && low[1..] == ToLowerCase(s[1..]);
      SplitLowerCase(s[1..], sep);
      var rest := Split(s[1..], sep);
      var lrest := LowerEach(rest);
      assert Split(low[1..], sep) == lrest;
      assert LowerChar(s[0]) == sep <==> s[0] == sep;
      if s[0] != sep {
        var mine := [[s[0]] + rest[0]] + rest[1..];
        assert ToLowerCase([s[0]] + rest[0]) == [LowerChar(s[0])] + ToLowerCase(rest[0]);
        assert Split(low, sep) == [[LowerChar(s[0])] + lrest[0]] + lrest[1..];
        assert LowerEach(mine) == [[LowerChar(s[0])] + lrest[0]] + lrest[1..];
      } else {
        assert Split(low, sep) == [""] + lrest;
        assert LowerEach([""] + rest) == [""] + lrest;
      }
    }
  }

  // ---------------------------------------------------------------- parseInt

  /** `StrWhiteSpaceChar` of ECMAScript: white space and line terminators. */
  predicate IsJsWhiteSpace(c: char) {
    var n := c as int;
    n == 0x09 || n == 0x0A || n == 0x0B || n == 0x0C || n == 0x0D || n == 0x20 || n == 0xA0 ||
    n == 0x1680 || 0x2000 <= n <= 0x200A || n == 0x2028 || n == 0x2029 || n == 0x202F ||
    n == 0x205F || n == 0x3000 || n == 0xFEFF
  }

  function TrimStart(s: string): (r: string)
    ensures |r| == 0 || !IsJsWhiteSpace(r[0])
  {
    if s != [] && IsJsWhiteSpace(s[0]) then TrimStart(s[1..]) else s
  }

  /** Value of `c` as a digit in `radix` (10 or 16), or -1. */
  function DigitValue(c: char, radix: nat): int {
    var v :=
      if '0' <= c <= '9' then c as int - '0' as int
      else if 'a' <= c <= 'z' then c as int - 'a' as int + 10
      else if 'A' <= c <= 'Z' then c as int - 'A' as int + 10
      else -1;
    if 0 <= v < radix then v else -1
  }

  /** The longest prefix made of digits of `radix`. */
  function DigitPrefix(s: string, radix: nat): (r: string)
    ensures r <= s
    ensures forall i :: 0 <= i < |r| ==> DigitValue(r[i], radix) >= 0
  {
    if s != [] && DigitValue(s[0], radix) >= 0 then [s[0]] + DigitPrefix(s[1..], radix) else ""
  }

  /** The number the digits denote, most significant first. */
  function DigitsValue(d: string, radix: nat): int {
    if d == [] then 0
    else DigitsValue(d[..|d| - 1], radix) * radix + DigitValue(d[|d| - 1], radix)
  }

  /** Global `parseInt(s)` without a radix: skip leading white space, read an optional sign, switch
      to hexadecimal after `0x`/`0X`, and read the longest digit prefix; `None` stands for NaN. */
  function ParseInt(s: string): (r: Option<int>)
    ensures s != [] && (forall i :: 0 <= i < |s| ==> '0' <= s[i] <= '9') ==> r == Some(DigitsValue(s, 10))
    ensures s != [] && ('a' <= s[0] <= 'z' || 'A' <= s[0] <= 'Z') ==> r.None?
  {
    var t := TrimStart(s);
    var sign := if t != [] && t[0] == '-' then -1 else 1;
    var u := if t != [] && (t[0] == '-' || t[0] == '+') then t[1..] else t;
    var hex := |u| >= 2 && u[0] == '0' && (u[1] == 'x' || u[1] == 'X');
    var radix := if hex then 16 else 10;
    var digits := DigitPrefix(if hex then u[2..] else u, radix);
    assert s != [] && (forall i :: 0 <= i < |s| ==> '0' <= s[i] <= '9') ==>
      sign == 1 && !hex && digits == s by {
      if s != [] && forall i :: 0 <= i < |s| ==> '0' <= s[i] <= '9' {
        assert TrimStart(s) == s;
        assert u == s;
        DigitPrefixAll(s, 10);
      }
    }
    assert s != [] && ('a' <= s[0] <= 'z' || 'A' <= s[0] <= 'Z') ==> digits == [] by {
      if s != [] && ('a' <= s[0] <= 'z' || 'A' <= s[0] <= 'Z') {
        assert TrimStart(s) == s;
        assert u == s && !hex;
      }
    }
    if digits == [] then None else Some(sign * DigitsValue(digits, radix))
  }

  /** Decimal rendering of a natural number, most significant digit first. */
  function DecimalString(n: nat): (r: string)
    ensures |r| >= 1
    ensures forall i :: 0 <= i < |r| ==> '0' <= r[i] <= '9'
  {
    var d := ['0' + (n % 10) as char];
    if n < 10 then d else DecimalString(n / 10) + d
  }

  lemma {:induction false} DecimalValue(n: nat)
    ensures DigitsValue(DecimalString(n), 10) == n
  {
    var r := DecimalString(n);
    if n >= 10 {
      DecimalValue(n / 10);
      assert r[..|r| - 1] == DecimalString(n / 10);
    }
  }

  lemma {:induction false} DigitPrefixAll(s: string, radix: nat)
    requires forall i :: 0 <= i < |s| ==> DigitValue(s[i], radix) >= 0
    ensures DigitPrefix(s, radix) == s
  {
    if s != [] {
      DigitPrefixAll(s[1..], radix);
    }
  }

  /** `parseInt` reads back every decimal rendering of a natural number (exactly, since numbers
      here are integers rather than doubles). */
  lemma ParseIntDecimal(n: nat)
    ensures ParseInt(DecimalString(n)) == Some(n)
  {
    DecimalValue(n);
  }
}
