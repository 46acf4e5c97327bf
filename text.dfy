/** The string operations the core applies: substring search (`includes`),
    ASCII lower-casing (`toLowerCase`), removal of code-fence tokens
    (`replace(/```json\n?/g, "")`), `trim`, number printing inside template
    strings and `join`. */
module Text {

  /** `t` occurs in `s` starting at index `i`. */
  predicate OccursAt(s: string, t: string, i: nat) {
    i + |t| <= |s| && s[i..i + |t|] == t
  }

  lemma OccursShift(s: string, t: string, i: nat)
    requires |s| > 0
    ensures OccursAt(s[1..], t, i) <==> OccursAt(s, t, i + 1)
  {
  }

  /** JavaScript's `s.includes(t)`: whether `t` is a substring of `s`. */
  function Contains(s: string, t: string): (r: bool)
    ensures r <==> exists i: nat :: OccursAt(s, t, i)
    decreases |s|
  {
    if t <= s then
      assert OccursAt(s, t, 0);
      true
    else if |s| == 0 then
      false
    else
      var r := Contains(s[1..], t);
      assert r ==> exists i: nat :: OccursAt(s, t, i) by {
        if r {
          var i: nat :| OccursAt(s[1..], t, i);
          OccursShift(s, t, i);
        }
      }
      assert (exists i: nat :: OccursAt(s, t, i)) ==> r by {
        if exists i: nat :: OccursAt(s, t, i) {
          var i: nat :| OccursAt(s, t, i);
          assert i != 0;
          OccursShift(s, t, i - 1);
        }
      }
      r
  }

  /** Lower-casing of one character; only ASCII letters change. */
  function LowerChar(c: char): char {
    if 'A' <= c <= 'Z' then (c as int + 32) as char else c
  }

  /** `toLowerCase`, restricted to ASCII. */
  function ToLower(s: string): string {
    seq(|s|, i requires 0 <= i < |s| => LowerChar(s[i]))
  }

  /** `s.toLowerCase().includes(t.toLowerCase())`. */
  function ContainsIgnoringCase(s: string, t: string): bool {
    Contains(ToLower(s), ToLower(t))
  }

  /** `s.replace(/<token>\n?/g, "")`: every left-to-right, non-overlapping
      occurrence of `token` is deleted together with one newline right after
      it, if there is one. Matching resumes after the deleted text, so the
      result may contain an occurrence that the deletion itself put together. */
  function RemoveToken(s: string, token: string): (r: string)
    requires |token| > 0
    ensures |r| <= |s|
    decreases |s|
  {
    if |s| == 0 then ""
    else if token <= s then
      var rest := s[|token|..];
      if |rest| > 0 && rest[0] == '\n' then RemoveToken(rest[1..], token) else RemoveToken(rest, token)
    else
      [s[0]] + RemoveToken(s[1..], token)
  }

  /** Text that does not hold the token's first character is left alone,
      and such a prefix passes through the deletion unchanged. */
  lemma {:induction false} RemoveTokenKeepsPrefix(a: string, b: string, token: string)
    requires |token| > 0 && token[0] !in a
    ensures RemoveToken(a + b, token) == a + RemoveToken(b, token)
  {
    if |a| > 0 {
      assert (a + b)[0] == a[0];
      assert !(token <= a + b);
      assert (a + b)[1..] == a[1..] + b;
      RemoveTokenKeepsPrefix(a[1..], b, token);
    } else {
      assert a + b == b;
    }
  }

  /** At an occurrence of the token the deletion takes the token and one
      following newline. */
  lemma RemoveTokenAtMatch(token: string, x: string)
    requires |token| > 0
    ensures RemoveToken(token + x, token)
         == if |x| > 0 && x[0] == '\n' then RemoveToken(x[1..], token) else RemoveToken(x, token)
  {
  }

  /** At an occurrence of the token after a prefix free of its first
      character, the prefix is kept and the token goes, with one newline
      right after it if there is one; the deletion then resumes. */
  lemma RemoveTokenAtOccurrence(a: string, token: string, x: string)
    requires |token| > 0 && token[0] !in a
    ensures RemoveToken(a + token + x, token)
         == a + (if |x| > 0 && x[0] == '\n' then RemoveToken(x[1..], token) else RemoveToken(x, token))
  {
    assert a + token + x == a + (token + x);
    RemoveTokenKeepsPrefix(a, token + x, token);
    RemoveTokenAtMatch(token, x);
  }

  /** A mismatch at index `i` rules out `tok` being a prefix of `s`. */
  lemma NotPrefixAt(tok: string, s: string, i: nat)
    requires i < |tok| && i < |s| && tok[i] != s[i]
    ensures !(tok <= s)
  {
  }

  /** Where the token does not start, the character is kept. */
  lemma RemoveTokenAtMismatch(c: char, x: string, token: string)
    requires |token| > 0 && !(token <= [c] + x)
    ensures RemoveToken([c] + x, token) == [c] + RemoveToken(x, token)
  {
  }

  lemma RemoveTokenIdentity(a: string, token: string)
    requires |token| > 0 && token[0] !in a
    ensures RemoveToken(a, token) == a
  {
  }

  /** The whitespace that JavaScript's `trim` removes, restricted to ASCII and
      the no-break space. */
  predicate IsWhitespace(c: char) {
    c == ' ' || c == '\t' || c == '\n' || c == '\r' || c == '\U{000B}' || c == '\U{000C}' || c == '\U{00A0}'
  }

  /** Drops leading whitespace: the result is a suffix of `s`, everything
      dropped is whitespace, and the result does not start with whitespace. */
  function TrimStart(s: string): (r: string)
    ensures |r| <= |s| && r == s[|s| - |r|..]
    ensures forall k :: 0 <= k < |s| - |r| ==> IsWhitespace(s[k])
    ensures |r| > 0 ==> !IsWhitespace(r[0])
  {
    if |s| > 0 && IsWhitespace(s[0]) then TrimStart(s[1..]) else s
  }

  /** Drops trailing whitespace: the result is a prefix of `s`, everything
      dropped is whitespace, and the result does not end with whitespace. */
  function TrimEnd(s: string): (r: string)
    ensures |r| <= |s| && r == s[..|r|]
    ensures forall k :: |r| <= k < |s| ==> IsWhitespace(s[k])
    ensures |r| > 0 ==> !IsWhitespace(r[|r| - 1])
  {
    if |s| > 0 && IsWhitespace(s[|s| - 1]) then TrimEnd(s[..|s| - 1]) else s
  }

  /** JavaScript's `trim`. */
  function Trim(s: string): (r: string)
    ensures |r| <= |s|
    ensures |r| > 0 ==> !IsWhitespace(r[0]) && !IsWhitespace(r[|r| - 1])
  {
    TrimEnd(TrimStart(s))
  }

  lemma {:induction false} TrimStartAppend(s: string, c: char)
    requires IsWhitespace(c)
    ensures TrimStart(s + [c]) == if TrimStart(s) == [] then [] else TrimStart(s) + [c]
  {
    if |s| == 0 {
      assert [c][1..] == [];
    } else if IsWhitespace(s[0]) {
      assert (s + [c])[1..] == s[1..] + [c];
      TrimStartAppend(s[1..], c);
    }
  }

  /** Trailing whitespace does not change what `trim` keeps. */
  lemma TrimDropsTrailingWhitespace(s: string, c: char)
    requires IsWhitespace(c)
    ensures Trim(s + [c]) == Trim(s)
  {
    TrimStartAppend(s, c);
    var t := TrimStart(s);
    if t != [] {
      assert (t + [c])[..|t + [c]| - 1] == t;
    }
  }

  function DigitChar(d: nat): (c: char)
    requires d < 10
    ensures '0' <= c <= '9' && c as int - '0' as int == d
  {
    (d + '0' as int) as char
  }

  predicate IsDigits(s: string) {
    forall k :: 0 <= k < |s| ==> '0' <= s[k] <= '9'
  }

  /** The decimal digits of `n`, as a template string prints a non-negative integer. */
  function NatToString(n: nat): (r: string)
    ensures |r| > 0 && IsDigits(r)
  {
    if n < 10 then [DigitChar(n)] else NatToString(n / 10) + [DigitChar(n % 10)]
  }

  /** The value of a string of decimal digits. */
  function ParseNat(s: string): nat
    requires IsDigits(s)
  {
    if |s| == 0 then 0 else 10 * ParseNat(s[..|s| - 1]) + (s[|s| - 1] as int - '0' as int)
  }

  /** Printing is inverted by parsing. */
  lemma {:induction false} ParseNatToString(n: nat)
    ensures ParseNat(NatToString(n)) == n
  {
    if n >= 10 {
      var s := NatToString(n);
      assert s[..|s| - 1] == NatToString(n / 10);
      ParseNatToString(n / 10);
    }
  }

  lemma NatToStringInjective(m: nat, n: nat)
    requires NatToString(m) == NatToString(n)
    ensures m == n
  {
    ParseNatToString(m);
    ParseNatToString(n);
  }

  /** An integer as a template string prints it. */
  function IntToString(i: int): (r: string)
    ensures ':' !in r
  {
    if i < 0 then "-" + NatToString(-i) else NatToString(i)
  }

  lemma IntToStringSign(i: int)
    ensures |IntToString(i)| > 0 && (IntToString(i)[0] == '-' <==> i < 0)
  {
  }

  /** Different integers print differently. */
  lemma IntToStringInjective(i: int, j: int)
    requires IntToString(i) == IntToString(j)
    ensures i == j
  {
    if i < 0 && j < 0 {
      assert NatToString(-i) == IntToString(i)[1..];
      NatToStringInjective(-i, -j);
    } else if i >= 0 && j >= 0 {
      NatToStringInjective(i, j);
    } else {
      IntToStringSign(i);
      IntToStringSign(j);
      assert false;
    }
  }

  /** `xs.join(sep)`. */
  function Join(xs: seq<string>, sep: string): string {
    if |xs| == 0 then "" else if |xs| == 1 then xs[0] else xs[0] + sep + Join(xs[1..], sep)
  }

  /** If `a + ":" + b == c + ":" + d` and neither `a` nor `c` holds a colon,
      the colon marks the same split on both sides. */
  lemma SplitAtColon(a: string, b: string, c: string, d: string)
    requires ':' !in a && ':' !in c
    requires a + ":" + b == c + ":" + d
    ensures a == c && b == d
  {
    var s := a + ":" + b;
    FirstColon(a, b);
    FirstColon(c, d);
    assert |a| == |c|;
    assert a == s[..|a|];
    assert c == s[..|c|];
    assert b == s[|a| + 1..];
    assert d == s[|c| + 1..];
  }

  lemma FirstColon(a: string, b: string)
    requires ':' !in a
    ensures (a + ":" + b)[|a|] == ':'
    ensures forall k :: 0 <= k < |a| ==> (a + ":" + b)[k] != ':'
  {
  }
}
