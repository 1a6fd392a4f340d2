// The few string operations the source uses from JavaScript's String:
// toLowerCase, trim, includes, startsWith, split and a last-piece `pop`.

module Text {

  import opened Optional

  /** toLowerCase on one character; only the ASCII letters are folded in this model. */
  function LowerChar(c: char): char
  {
    if 'A' <= c <= 'Z' then (c as int + 32) as char else c
  }

  function Lower(s: string): (r: string)
    ensures |r| == |s|
    ensures forall i :: 0 <= i < |s| ==> r[i] == LowerChar(s[i])
  {
    if s == [] then [] else [LowerChar(s[0])] + Lower(s[1..])
  }

  /** The characters trim() removes, restricted to the ASCII ones. */
  predicate IsSpace(c: char)
  {
    c == ' ' || c == '\t' || c == '\n' || c == '\r' || c == '\U{0B}' || c == '\U{0C}'
  }

  function TrimStart(s: string): (r: string)
    ensures |r| <= |s| && r == s[|s| - |r|..]
    ensures r == [] || !IsSpace(r[0])
  {
    if s != [] && IsSpace(s[0]) then TrimStart(s[1..]) else s
  }

  function TrimEnd(s: string): (r: string)
    ensures |r| <= |s| && r == s[..|r|]
    ensures r == [] || !IsSpace(r[|r| - 1])
  {
    if s != [] && IsSpace(s[|s| - 1]) then TrimEnd(s[..|s| - 1]) else s
  }

  function Trim(s: string): string
  {
    TrimEnd(TrimStart(s))
  }

  /** A string with no space at either end is its own trim. */
  lemma TrimUnpadded(s: string)
    requires s == [] || (!IsSpace(s[0]) && !IsSpace(s[|s| - 1]))
    ensures Trim(s) == s
  {
  }

  /** String.prototype.includes */
  predicate Contains(s: string, sub: string)
    decreases |s|
  {
    sub <= s || (s != [] && Contains(s[1..], sub))
  }

  lemma {:induction false} ContainsSelf(s: string)
    ensures Contains(s, s)
  {
  }

  lemma {:induction false} ContainsEmpty(s: string)
    ensures Contains(s, "")
  {
  }

  /** A substring found at position i is contained. */
  lemma {:induction false} ContainsAt(s: string, sub: string, i: nat)
    requires i + |sub| <= |s| && s[i..i + |sub|] == sub
    ensures Contains(s, sub)
    decreases i
  {
    if i == 0 {
      assert sub <= s;
    } else {
      assert s[1..][i - 1..i - 1 + |sub|] == sub;
      ContainsAt(s[1..], sub, i - 1);
    }
  }

  /** A contained substring sits at some position. */
  lemma {:induction false} ContainsWitness(s: string, sub: string) returns (i: nat)
    requires Contains(s, sub)
    ensures i + |sub| <= |s| && s[i..i + |sub|] == sub
    decreases |s|
  {
    if sub <= s {
      i := 0;
    } else {
      var k := ContainsWitness(s[1..], sub);
      assert s[1..][k..k + |sub|] == s[k + 1..k + 1 + |sub|];
      i := k + 1;
    }
  }

  /** Containment is transitive: a text holding a longer query also holds its part. */
  lemma ContainsTransitive(a: string, b: string, c: string)
    requires Contains(a, b) && Contains(b, c)
    ensures Contains(a, c)
  {
    var i := ContainsWitness(a, b);
    var j := ContainsWitness(b, c);
    forall k | 0 <= k < |c| ensures a[i + j + k] == c[k] {
      assert c[k] == b[j + k] == a[i..i + |b|][j + k];
    }
    assert a[i + j..i + j + |c|] == c;
    ContainsAt(a, c, i + j);
  }

  /** Position of the first occurrence of a character (used by split). */
  function IndexOfChar(s: string, c: char): (i: nat)
    requires c in s
    ensures i < |s| && s[i] == c && c !in s[..i]
  {
    if s[0] == c then 0 else 1 + IndexOfChar(s[1..], c)
  }

  /** String.prototype.split with a one-character separator. */
  function Split(s: string, sep: char): (r: seq<string>)
    ensures |r| >= 1
    ensures forall k :: 0 <= k < |r| ==> sep !in r[k]
    decreases |s|
  {
    if sep !in s then [s]
    else
      var i := IndexOfChar(s, sep);
      [s[..i]] + Split(s[i + 1..], sep)
  }

  /** Array.prototype.join with a one-character separator. */
  function Join(parts: seq<string>, sep: char): string
    requires |parts| >= 1
  {
    if |parts| == 1 then parts[0] else parts[0] + [sep] + Join(parts[1..], sep)
  }

  lemma {:induction false} SplitJoin(s: string, sep: char)
    ensures Join(Split(s, sep), sep) == s
    decreases |s|
  {
    if sep in s {
      var i := IndexOfChar(s, sep);
      SplitJoin(s[i + 1..], sep);
      assert s == s[..i] + [sep] + s[i + 1..];
    }
  }

  lemma {:induction false} JoinSplit(parts: seq<string>, sep: char)
    requires |parts| >= 1
    requires forall k :: 0 <= k < |parts| ==> sep !in parts[k]
    ensures Split(Join(parts, sep), sep) == parts
    decreases |parts|
  {
    if |parts| > 1 {
      var s := Join(parts, sep);
      var rest := Join(parts[1..], sep);
      var n := |parts[0]|;
      assert s == parts[0] + [sep] + rest;
      assert s[n] == sep && s[..n] == parts[0] && s[n + 1..] == rest;
      assert sep !in parts[0];
      assert IndexOfChar(s, sep) == n;
      assert Split(s, sep) == [parts[0]] + Split(rest, sep);
      forall k | 0 <= k < |parts[1..]| ensures sep !in parts[1..][k] {
        assert parts[1..][k] == parts[k + 1];
      }
      JoinSplit(parts[1..], sep);
      assert parts == [parts[0]] + parts[1..];
    }
  }

  /** The last piece when s is split at every sep: the text after the last sep, or all of s. */
  function LastPiece(s: string, sep: char): (r: string)
    ensures sep !in r
    ensures |r| <= |s| && r == s[|s| - |r|..]
    ensures |r| < |s| ==> s[|s| - |r| - 1] == sep
    decreases |s|
  {
    if sep !in s then s
    else
      var i := IndexOfChar(s, sep);
      var t := s[i + 1..];
      var r := LastPiece(t, sep);
      assert |t| == |s| - i - 1;
      assert t[|t| - |r|..] == s[|s| - |r|..];
      assert |r| < |t| ==> t[|t| - |r| - 1] == s[|s| - |r| - 1];
      r
  }

  /** Position of the first occurrence of a non-empty substring, if any. */
  function IndexOf(s: string, sub: string): (r: Option<nat>)
    requires |sub| > 0
    ensures r.Some? ==> r.value + |sub| <= |s| && s[r.value..r.value + |sub|] == sub
    ensures r.None? <==> !Contains(s, sub)
    decreases |s|
  {
    if sub <= s then Some(0)
    else if s == [] then None
    else
      var t := s[1..];
      assert Contains(s, sub) == Contains(t, sub);
      match IndexOf(t, sub)
      case None => None
      case Some(i) =>
        assert t[i..i + |sub|] == s[i + 1..i + 1 + |sub|];
        Some(i + 1)
  }

  /** Text appended after the first occurrence does not move it. */
  lemma {:induction false} IndexOfAppend(a: string, b: string, sub: string, i: nat)
    requires |sub| > 0 && IndexOf(a, sub) == Some(i)
    ensures IndexOf(a + b, sub) == Some(i)
    decreases |a|
  {
    if !(sub <= a) {
      var ab := a + b;
      assert |sub| <= |a| && ab[..|sub|] == a[..|sub|];
      assert !(sub <= ab);
      assert IndexOf(a[1..], sub) == Some(i - 1);
      assert ab[1..] == a[1..] + b;
      IndexOfAppend(a[1..], b, sub, i - 1);
    }
  }

  /** A natural number in decimal, as String(n) writes it. */
  function NatText(n: nat): (s: string)
    ensures |s| >= 1 && forall i :: 0 <= i < |s| ==> '0' <= s[i] <= '9'
  {
    if n < 10 then [('0' as int + n) as char] else NatText(n / 10) + [('0' as int + n % 10) as char]
  }

  /** An integer in decimal, with a leading '-' when negative. */
  function IntText(n: int): string
  {
    if n < 0 then "-" + NatText(-n) else NatText(n)
  }

  /** The value of a digit in radix 10 or 16, or -1 when the character is not one. */
  function DigitValue(c: char, radix: nat): int
  {
    var v := if '0' <= c <= '9' then c as int - '0' as int
             else if 'a' <= c <= 'z' then c as int - 'a' as int + 10
             else if 'A' <= c <= 'Z' then c as int - 'A' as int + 10
             else 99;
    if v < radix then v else -1
  }

  /** The longest run of digits at the start of s. */
  function DigitRun(s: string, radix: nat): (r: string)
    ensures r <= s
    ensures forall i :: 0 <= i < |r| ==> DigitValue(r[i], radix) >= 0
    ensures |r| < |s| ==> DigitValue(s[|r|], radix) < 0
  {
    if s != [] && DigitValue(s[0], radix) >= 0 then [s[0]] + DigitRun(s[1..], radix) else []
  }

  /** Positional value of a run of digits. */
  function RunValue(s: string, radix: nat): int
  {
    if s == [] then 0 else RunValue(s[..|s| - 1], radix) * radix + DigitValue(s[|s| - 1], radix)
  }

  /** The unsigned part of parseInt: a "0x" prefix selects base 16; None when no digit follows. */
  function ParseUnsigned(u: string): (r: Option<nat>)
    ensures r.Some? ==> u != [] && DigitValue(u[0], 16) >= 0
  {
    var hex := |u| >= 2 && u[0] == '0' && (u[1] == 'x' || u[1] == 'X');
    var radix := if hex then 16 else 10;
    var digits := DigitRun(if hex then u[2..] else u, radix);
    if digits == [] then None
    else
      RunValueNonNegative(digits, radix);
      Some(RunValue(digits, radix))
  }

  lemma {:induction false} RunValueNonNegative(s: string, radix: nat)
    requires forall i :: 0 <= i < |s| ==> DigitValue(s[i], radix) >= 0
    ensures RunValue(s, radix) >= 0
  {
    if s != [] {
      var p := s[..|s| - 1];
      RunValueNonNegative(p, radix);
      var v := RunValue(p, radix);
      assert v * radix >= 0;
      assert DigitValue(s[|s| - 1], radix) >= 0;
    }
  }

  /**
   * parseInt(s) without a radix: leading white space, an optional sign, then
   * the unsigned part; None stands for NaN.
   */
  function ParseInt(s: string): (r: Option<int>)
    ensures r.Some? ==> exists i :: 0 <= i < |s| && DigitValue(s[i], 16) >= 0
  {
    var t := TrimStart(s);
    var signed := t != [] && (t[0] == '-' || t[0] == '+');
    var u := if signed then t[1..] else t;
    match ParseUnsigned(u)
    case None => None
    case Some(v) =>
      assert u[0] == s[|s| - |u|];
      var n: int := if signed && t[0] == '-' then -(v as int) else v;
      Some(n)
  }

  lemma {:induction false} DigitRunOfDigits(s: string)
    requires forall i :: 0 <= i < |s| ==> '0' <= s[i] <= '9'
    ensures DigitRun(s, 10) == s
  {
    if s != [] {
      DigitRunOfDigits(s[1..]);
    }
  }

  lemma {:induction false} RunValueOfNatText(n: nat)
    ensures RunValue(NatText(n), 10) == n
  {
    if n >= 10 {
      var s := NatText(n);
      assert s[..|s| - 1] == NatText(n / 10);
      RunValueOfNatText(n / 10);
    }
  }

  /** parseInt reads back what String(n) writes. */
  lemma ParseIntNatText(n: nat)
    ensures ParseInt(NatText(n)) == Some(n)
  {
    var s := NatText(n);
    assert '0' <= s[0] <= '9';
    assert TrimStart(s) == s;
    ParseUnsignedOfDigits(s);
    RunValueOfNatText(n);
    assert ParseUnsigned(s) == Some(n);
    assert !(s[0] == '-' || s[0] == '+');
  }

  lemma ParseUnsignedOfDigits(s: string)
    requires s != [] && forall i :: 0 <= i < |s| ==> '0' <= s[i] <= '9'
    ensures ParseUnsigned(s) == Some(RunValue(s, 10))
  {
    assert !(|s| >= 2 && s[0] == '0' && (s[1] == 'x' || s[1] == 'X')) by {
      if |s| >= 2 {
        assert '0' <= s[1] <= '9';
      }
    }
    DigitRunOfDigits(s);
    assert DigitRun(s, 10) != [];
  }

  /** A text holding no digit at all parses to NaN. */
  lemma ParseIntNoDigits(s: string)
    requires forall i :: 0 <= i < |s| ==> DigitValue(s[i], 16) < 0
    ensures ParseInt(s).None?
  {
  }
}
