/** String operations the JavaScript code relies on, stated over `seq<char>`:
    ASCII case mapping (`toLowerCase`/`toUpperCase` restricted to ASCII), `trim`,
    `includes`, `padStart`, `Number.prototype.toString(radix)` on integers and
    `parseInt(s, radix)`. */
module Text {
  import opened Wrappers

  // ---------------------------------------------------------------- case

  predicate IsUpperAscii(c: char) { 'A' <= c <= 'Z' }
  predicate IsLowerAscii(c: char) { 'a' <= c <= 'z' }

  function LowerChar(c: char): (r: char)
    ensures !IsUpperAscii(r)
    ensures IsUpperAscii(c) ==> r as int == c as int + 32
    ensures !IsUpperAscii(c) ==> r == c
  {
    if IsUpperAscii(c) then (c as int + 32) as char else c
  }

  function UpperChar(c: char): (r: char)
    ensures !IsLowerAscii(r)
    ensures IsLowerAscii(c) ==> r as int == c as int - 32
    ensures !IsLowerAscii(c) ==> r == c
  {
    if IsLowerAscii(c) then (c as int - 32) as char else c
  }

  /** Upper-casing a character and then lower-casing it loses nothing the lower-casing keeps. */
  lemma LowerUpperChar(c: char)
    ensures LowerChar(UpperChar(c)) == LowerChar(c)
  {
  }

  /** `s.toLowerCase()` on the ASCII letters. */
  function Lower(s: string): (r: string)
    ensures |r| == |s|
    ensures forall i :: 0 <= i < |s| ==> r[i] == LowerChar(s[i])
  {
    if |s| == 0 then "" else [LowerChar(s[0])] + Lower(s[1..])
  }

  lemma LowerIdempotent(s: string)
    ensures Lower(Lower(s)) == Lower(s)
  {
  }

  // ---------------------------------------------------------------- whitespace and trim

  /** The characters `trim` and `parseInt` skip: JavaScript's WhiteSpace (tab, vertical
      tab, form feed, the byte order mark U+FEFF and every space separator of Unicode
      category Zs) and its LineTerminators (line feed, carriage return, U+2028, U+2029). */
  predicate IsSpace(c: char) {
    || c == ' ' || c == '\t' || c == '\n' || c == '\r' || c as int == 0x0B || c as int == 0x0C
    || c as int == 0xA0 || c as int == 0xFEFF || c as int == 0x1680
    || 0x2000 <= c as int <= 0x200A
    || c as int == 0x2028 || c as int == 0x2029 || c as int == 0x202F || c as int == 0x205F
    || c as int == 0x3000
  }

  function TrimStart(s: string): (r: string)
    ensures |r| <= |s|
    ensures |r| > 0 ==> !IsSpace(r[0])
    ensures forall i :: 0 <= i < |s| - |r| ==> IsSpace(s[i])
  {
    if |s| > 0 && IsSpace(s[0]) then TrimStart(s[1..]) else s
  }

  /** What `TrimStart` keeps is a suffix of its input. */
  lemma {:induction false} TrimStartSuffix(s: string)
    ensures TrimStart(s) == s[|s| - |TrimStart(s)|..]
  {
    if |s| > 0 && IsSpace(s[0]) {
      TrimStartSuffix(s[1..]);
    }
  }

  function TrimEnd(s: string): (r: string)
    ensures |r| <= |s| && r == s[..|r|]
    ensures |r| > 0 ==> !IsSpace(r[|r| - 1])
    ensures forall i :: |r| <= i < |s| ==> IsSpace(s[i])
  {
    if |s| > 0 && IsSpace(s[|s| - 1]) then TrimEnd(s[..|s| - 1]) else s
  }

  /** `s.trim()`: the block of `s` left after dropping white space at both ends. */
  function Trim(s: string): (r: string)
    ensures |r| > 0 ==> !IsSpace(r[0]) && !IsSpace(r[|r| - 1])
    ensures |s| - |TrimStart(s)| + |r| <= |s|
    ensures r == s[|s| - |TrimStart(s)|..|s| - |TrimStart(s)| + |r|]
    ensures forall k :: 0 <= k < |s| - |TrimStart(s)| ==> IsSpace(s[k])
    ensures forall k :: |s| - |TrimStart(s)| + |r| <= k < |s| ==> IsSpace(s[k])
  {
    var t := TrimStart(s);
    var r := TrimEnd(t);
    TrimFrame(s, t, r);
    r
  }

  lemma TrimFrame(s: string, t: string, r: string)
    requires t == TrimStart(s) && r == TrimEnd(t)
    ensures r == s[|s| - |t|..|s| - |t| + |r|]
    ensures forall k :: |s| - |t| + |r| <= k < |s| ==> IsSpace(s[k])
  {
    TrimStartSuffix(s);
    PrefixOfSuffix(s, t, r);
    SuffixSpaces(s, t, |r|);
  }

  lemma PrefixOfSuffix(s: string, t: string, r: string)
    requires |t| <= |s| && t == s[|s| - |t|..] && |r| <= |t| && r == t[..|r|]
    ensures r == s[|s| - |t|..|s| - |t| + |r|]
  {
  }

  /** White space at the end of a suffix is white space at the end of the whole. */
  lemma SuffixSpaces(s: string, t: string, n: nat)
    requires |t| <= |s| && t == s[|s| - |t|..] && n <= |t|
    requires forall k :: n <= k < |t| ==> IsSpace(t[k])
    ensures forall k :: |s| - |t| + n <= k < |s| ==> IsSpace(s[k])
  {
    forall k | |s| - |t| + n <= k < |s| ensures IsSpace(s[k]) {
      assert s[k] == t[k - (|s| - |t|)];
    }
  }

  /** A trimmed string is empty exactly when the input was all white space. */
  lemma TrimEmpty(s: string)
    ensures Trim(s) == "" <==> forall i :: 0 <= i < |s| ==> IsSpace(s[i])
  {
    var t := TrimStart(s);
    TrimStartSuffix(s);
    if |t| > 0 {
      assert t[0] == s[|s| - |t|];
      assert Trim(s) != "";
    } else {
      assert Trim(s) == "";
    }
  }

  /** A query of one no-break space is blank. */
  lemma NoBreakSpaceIsBlank()
    ensures Trim([0xA0 as char]) == ""
  {
    TrimEmpty([0xA0 as char]);
  }

  /** Lower-casing maps white space to white space and nothing else to it. */
  lemma LowerCharSpace(c: char)
    ensures IsSpace(LowerChar(c)) <==> IsSpace(c)
  {
  }

  lemma {:induction false} TrimStartLower(s: string)
    ensures TrimStart(Lower(s)) == Lower(TrimStart(s))
  {
    if |s| > 0 {
      LowerCharSpace(s[0]);
      assert Lower(s)[1..] == Lower(s[1..]);
      TrimStartLower(s[1..]);
    }
  }

  lemma {:induction false} TrimEndLower(s: string)
    ensures TrimEnd(Lower(s)) == Lower(TrimEnd(s))
  {
    if |s| > 0 {
      LowerCharSpace(s[|s| - 1]);
      assert Lower(s)[..|s| - 1] == Lower(s[..|s| - 1]);
      TrimEndLower(s[..|s| - 1]);
    }
  }

  /** Trimming and lower-casing commute: `s.toLowerCase().trim()` is `s.trim().toLowerCase()`. */
  lemma TrimLower(s: string)
    ensures Trim(Lower(s)) == Lower(Trim(s))
  {
    TrimStartLower(s);
    TrimEndLower(TrimStart(s));
  }

  // ---------------------------------------------------------------- substring search

  /** `s.includes(q)`: `q` occurs in `s` as a contiguous block (the empty string occurs everywhere). */
  predicate Includes(s: string, q: string): (r: bool)
    ensures |q| == 0 ==> r
    ensures q == s ==> r
    ensures r ==> |q| <= |s|
  {
    assert OccursAt(s, q, 0) <== |q| == 0 || q == s;
    exists i :: 0 <= i <= |s| - |q| && OccursAt(s, q, i)
  }

  predicate OccursAt(s: string, q: string, i: int) {
    0 <= i <= |s| - |q| && s[i..i + |q|] == q
  }

  /** `s.length` in JavaScript: the number of UTF-16 code units, two for each character
      outside the Basic Multilingual Plane. */
  function Utf16Length(s: string): (r: nat)
    ensures |s| <= r <= 2 * |s|
    ensures r == |s| <==> forall i :: 0 <= i < |s| ==> s[i] as int < 0x1_0000
  {
    if |s| == 0 then 0
    else
      var rest := Utf16Length(s[1..]);
      assert forall i :: 1 <= i < |s| ==> s[i] == s[1..][i - 1];
      (if s[0] as int < 0x1_0000 then 1 else 2) + rest
  }

  /** One character outside the Basic Multilingual Plane already has length 2. */
  lemma Utf16LengthAstral(c: char)
    requires c as int >= 0x1_0000
    ensures Utf16Length([c]) == 2
  {
    assert [c][1..] == "";
  }

  // ---------------------------------------------------------------- digits

  /** The value of `c` as a digit in base 36, as `parseInt` reads it. */
  function DigitValue(c: char): (r: Option<nat>)
    ensures r.Some? ==> r.value < 36
  {
    if '0' <= c <= '9' then Some(c as int - '0' as int)
    else if 'a' <= c <= 'z' then Some(c as int - 'a' as int + 10)
    else if 'A' <= c <= 'Z' then Some(c as int - 'A' as int + 10)
    else None
  }

  /** The lower-case digit `Number.prototype.toString` writes for `d`. */
  function DigitChar(d: nat): (c: char)
    requires d < 36
    ensures DigitValue(c) == Some(d)
    ensures !IsUpperAscii(c) && !IsSpace(c) && c != '-' && c != '+'
  {
    if d < 10 then ('0' as int + d) as char else ('a' as int + d - 10) as char
  }

  predicate IsDigitIn(c: char, radix: nat) {
    DigitValue(c).Some? && DigitValue(c).value < radix
  }

  /** The value of a string of digits, most significant first. */
  function DigitsValue(ds: string, radix: nat): (v: nat)
    requires forall i :: 0 <= i < |ds| ==> IsDigitIn(ds[i], radix)
  {
    if |ds| == 0 then 0
    else
      assert IsDigitIn(ds[|ds| - 1], radix);
      DigitsValue(ds[..|ds| - 1], radix) * radix + DigitValue(ds[|ds| - 1]).value
  }

  /** `n.toString(radix)` for a non-negative integer: no leading zeros. */
  function NatToString(n: nat, radix: nat): (r: string)
    requires 2 <= radix <= 36
    ensures |r| > 0
    ensures forall i :: 0 <= i < |r| ==> IsDigitIn(r[i], radix) && !IsUpperAscii(r[i])
    ensures r[0] == '0' <==> n == 0
    decreases n
  {
    if n < radix then [DigitChar(n)]
    else
      var q, d := n / radix, n % radix;
      assert 1 <= q < n && d < radix by {
        DivBounds(n, radix);
      }
      NatToString(q, radix) + [DigitChar(d)]
  }

  lemma DivBounds(n: nat, radix: nat)
    requires 2 <= radix <= n
    ensures 1 <= n / radix < n && n % radix < radix
    ensures n == (n / radix) * radix + n % radix
  {
  }

  /** Reading back the digits `toString` wrote gives the number. */
  lemma {:induction false} NatToStringValue(n: nat, radix: nat)
    requires 2 <= radix <= 36
    ensures DigitsValue(NatToString(n, radix), radix) == n
    decreases n
  {
    if n >= radix {
      var q, d := n / radix, n % radix;
      DivBounds(n, radix);
      var r := NatToString(n, radix);
      var prefix := NatToString(q, radix);
      assert r == prefix + [DigitChar(d)];
      assert r[..|r| - 1] == prefix;
      assert DigitValue(r[|r| - 1]) == Some(d);
      NatToStringValue(q, radix);
      assert DigitsValue(r, radix) == DigitsValue(prefix, radix) * radix + d;
    }
  }

  /** `String(i)` / `i.toString()` for an integer. */
  function IntToString(i: int): (r: string)
    ensures |r| > 0
    ensures r[0] == '-' <==> i < 0
    ensures forall k :: 0 <= k < |r| ==> r[k] == '-' || IsDigitIn(r[k], 10)
  {
    if i < 0 then "-" + NatToString(-i, 10) else NatToString(i, 10)
  }

  /** The longest prefix of `s` made of digits of base `radix`. */
  function DigitPrefix(s: string, radix: nat): (r: string)
    ensures |r| <= |s|
    ensures forall i :: 0 <= i < |r| ==> IsDigitIn(r[i], radix)
    ensures |r| < |s| ==> !IsDigitIn(s[|r|], radix)
  {
    if |s| > 0 && IsDigitIn(s[0], radix) then [s[0]] + DigitPrefix(s[1..], radix) else ""
  }

  /** The digits `DigitPrefix` reads are a prefix of its input. */
  lemma {:induction false} DigitPrefixIsPrefix(s: string, radix: nat)
    ensures DigitPrefix(s, radix) == s[..|DigitPrefix(s, radix)|]
  {
    if |s| > 0 && IsDigitIn(s[0], radix) {
      DigitPrefixIsPrefix(s[1..], radix);
    }
  }

  lemma {:induction false} DigitPrefixOfDigits(s: string, radix: nat)
    requires forall i :: 0 <= i < |s| ==> IsDigitIn(s[i], radix)
    ensures DigitPrefix(s, radix) == s
  {
    if |s| > 0 {
      DigitPrefixOfDigits(s[1..], radix);
    }
  }

  // ---------------------------------------------------------------- parseInt

  predicate HasHexPrefix(s: string) {
    |s| >= 2 && s[0] == '0' && (s[1] == 'x' || s[1] == 'X')
  }

  /** `parseInt(s, radix)`: skip leading white space, read an optional sign, drop a
      `0x` prefix when the radix is 16 or not given (in which case it selects base 16),
      then read the longest digit prefix; `None` is `NaN` (no digit at all). */
  function ParseInt(s: string, radix: Option<nat>): (r: Option<int>)
    requires radix.Some? ==> 2 <= radix.value <= 36
    // blank text, or text whose first non-blank character can start no number, is NaN
    ensures |TrimStart(s)| == 0 ==> r.None?
    ensures var t := TrimStart(s);
      |t| > 0 && t[0] != '-' && t[0] != '+' && !IsDigitIn(t[0], if radix.Some? then radix.value else 10)
      ==> r.None?
    // only a leading minus sign gives a negative number
    ensures r.Some? && r.value < 0 ==> TrimStart(s)[0] == '-'
    // without a sign or a `0x` prefix, the number is the value of the leading decimal digits
    ensures var t := TrimStart(s);
      radix.None? && |t| > 0 && IsDigitIn(t[0], 10) && !HasHexPrefix(t)
      ==> r == Some(DigitsValue(DigitPrefix(t, 10), 10))
  {
    var t := TrimStart(s);
    var negative := |t| > 0 && t[0] == '-';
    var unsigned := if |t| > 0 && (t[0] == '-' || t[0] == '+') then t[1..] else t;
    var stripPrefix := radix.None? || radix.value == 16;
    var hex := stripPrefix && HasHexPrefix(unsigned);
    var base: nat := if hex then 16 else if radix.Some? then radix.value else 10;
    var body := if hex then unsigned[2..] else unsigned;
    var ds := DigitPrefix(body, base);
    if |ds| == 0 then None
    else
      var v: int := DigitsValue(ds, base);
      Some(if negative then -v else v)
  }

  /** A non-empty string of decimal digits parses to its value, leading zeros and all. */
  lemma ParseIntOfDigits(p: string)
    requires |p| > 0 && forall i :: 0 <= i < |p| ==> IsDigitIn(p[i], 10)
    ensures ParseInt(p, None) == Some(DigitsValue(p, 10))
  {
    assert !IsSpace(p[0]) && p[0] != '-' && p[0] != '+';
    assert TrimStart(p) == p;
    assert |p| >= 2 ==> IsDigitIn(p[1], 10);
    assert !HasHexPrefix(p);
    DigitPrefixOfDigits(p, 10);
  }

  /** With an explicit radix, a non-empty string of digits of that radix parses to its value
      (in base 16 no `0x` prefix can start it, `x` not being a hexadecimal digit). */
  lemma ParseIntOfDigitsIn(p: string, radix: nat)
    requires 2 <= radix <= 36
    requires |p| > 0 && forall i :: 0 <= i < |p| ==> IsDigitIn(p[i], radix)
    ensures ParseInt(p, Some(radix)) == Some(DigitsValue(p, radix))
  {
    assert !IsSpace(p[0]) && p[0] != '-' && p[0] != '+';
    assert TrimStart(p) == p;
    assert |p| >= 2 ==> IsDigitIn(p[1], radix);
    assert radix == 16 ==> !HasHexPrefix(p);
    DigitPrefixOfDigits(p, radix);
  }

  /** `parseInt(String(i))` gives `i` back. */
  lemma ParseIntOfIntToString(i: int)
    ensures ParseInt(IntToString(i), None) == Some(i)
  {
    var s := IntToString(i);
    var m: nat := if i < 0 then -i else i;
    var digits := NatToString(m, 10);
    assert TrimStart(s) == s;
    var unsigned := if i < 0 then s[1..] else s;
    assert unsigned == digits;
    assert !HasHexPrefix(unsigned);
    DigitPrefixOfDigits(digits, 10);
    NatToStringValue(m, 10);
  }

  // ---------------------------------------------------------------- padding

  function Repeat(c: char, n: nat): (r: string)
    ensures |r| == n
    ensures forall i :: 0 <= i < n ==> r[i] == c
  {
    if n == 0 then "" else [c] + Repeat(c, n - 1)
  }

  /** `s.padStart(width, c)`: `c` repeated on the left up to `width`; a longer `s` is unchanged. */
  function PadStart(s: string, width: nat, c: char): (r: string)
    ensures |r| == if |s| >= width then |s| else width
    ensures r == Repeat(c, |r| - |s|) + s
  {
    if |s| >= width then s else Repeat(c, width - |s|) + s
  }

  /** Leading zeros do not change the value of a digit string. */
  lemma {:induction false} DigitsValueLeadingZeros(z: nat, ds: string, radix: nat)
    requires radix >= 2
    requires forall i :: 0 <= i < |ds| ==> IsDigitIn(ds[i], radix)
    ensures forall i :: 0 <= i < |Repeat('0', z) + ds| ==> IsDigitIn((Repeat('0', z) + ds)[i], radix)
    ensures DigitsValue(Repeat('0', z) + ds, radix) == DigitsValue(ds, radix)
    decreases |ds|, z
  {
    var s := Repeat('0', z) + ds;
    assert forall i :: 0 <= i < |s| ==> IsDigitIn(s[i], radix) by {
      forall i | 0 <= i < |s| ensures IsDigitIn(s[i], radix) {
        if i >= z { assert s[i] == ds[i - z]; }
      }
    }
    if |ds| > 0 {
      assert s[..|s| - 1] == Repeat('0', z) + ds[..|ds| - 1];
      DigitsValueLeadingZeros(z, ds[..|ds| - 1], radix);
    } else if z > 0 {
      assert s == Repeat('0', z - 1) + ['0'];
      assert s[..|s| - 1] == Repeat('0', z - 1) + "";
      DigitsValueLeadingZeros(z - 1, "", radix);
    }
  }
}
