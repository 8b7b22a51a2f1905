/**
 * The Python string operations the governance engine relies on, stated over
 * `seq<char>`: `str.strip`, `str.lower`, `str.splitlines`, substring tests,
 * `str.startswith`/`endswith`, `sep.join`, `int(s)` and `str(n)`, and the
 * `\b(word)\b` regular-expression tests written as word-membership
 * predicates.
 */
module Text {
  import opened Base

  /** Python's `str.isspace` for a single character. */
  predicate IsSpace(c: char)
  {
    c == ' ' || c == '\t' || c == '\n' || c == '\r' || c == '\U{000B}' || c == '\U{000C}'
    || ('\U{001C}' <= c <= '\U{001F}') || c == '\U{0085}' || c == '\U{00A0}' || c == '\U{1680}'
    || ('\U{2000}' <= c <= '\U{200A}') || c == '\U{2028}' || c == '\U{2029}' || c == '\U{202F}'
    || c == '\U{205F}' || c == '\U{3000}'
  }

  /** The line boundaries recognised by Python's `str.splitlines`. */
  predicate IsLineBreak(c: char)
  {
    c == '\n' || c == '\r' || c == '\U{000B}' || c == '\U{000C}' || ('\U{001C}' <= c <= '\U{001E}')
    || c == '\U{0085}' || c == '\U{2028}' || c == '\U{2029}'
  }

  predicate IsBlank(s: string)
  {
    forall i :: 0 <= i < |s| ==> IsSpace(s[i])
  }

  predicate NoLineBreak(s: string)
  {
    forall i :: 0 <= i < |s| ==> !IsLineBreak(s[i])
  }

  /** `r` is `s[i..j]`, and everything `s` has outside `i..j` is whitespace. */
  predicate TrimOf(s: string, r: string, i: nat, j: nat)
  {
    i <= j <= |s| && r == s[i..j] && IsBlank(s[..i]) && IsBlank(s[j..])
  }

  /** Dropping a leading whitespace character moves a trim window one place. */
  lemma TrimOfTail(s: string, r: string, i: nat, j: nat)
    requires s != [] && IsSpace(s[0]) && TrimOf(s[1..], r, i, j)
    ensures TrimOf(s, r, i + 1, j + 1)
  {
    assert s[i + 1..j + 1] == s[1..][i..j];
    assert s[j + 1..] == s[1..][j..];
    forall k | 0 <= k < i + 1 ensures IsSpace(s[k]) {
      if k > 0 {
        assert s[k] == s[1..][..i][k - 1];
      }
    }
  }

  /** Dropping a trailing whitespace character keeps a trim window in place. */
  lemma TrimOfInit(s: string, r: string, i: nat, j: nat)
    requires s != [] && IsSpace(s[|s| - 1]) && TrimOf(s[..|s| - 1], r, i, j)
    ensures TrimOf(s, r, i, j)
  {
    assert s[i..j] == s[..|s| - 1][i..j];
    assert s[..i] == s[..|s| - 1][..i];
    forall k | j <= k < |s| ensures IsSpace(s[k]) {
      if k < |s| - 1 {
        assert s[k] == s[..|s| - 1][j..][k - j];
      }
    }
  }

  /**
   * `s.strip()`: leading and trailing whitespace removed, one character at a
   * time from whichever end still has some.
   */
  function Strip(s: string): (r: string)
    ensures |r| <= |s|
    ensures r == [] || (!IsSpace(r[0]) && !IsSpace(r[|r| - 1]))
    ensures r == [] <==> IsBlank(s)
  {
    if s == [] then []
    else if IsSpace(s[0]) then
      var r := Strip(s[1..]);
      assert IsBlank(s[1..]) ==> IsBlank(s) by {
        if IsBlank(s[1..]) {
          forall i | 0 < i < |s| ensures IsSpace(s[i]) {
            assert s[i] == s[1..][i - 1];
          }
        }
      }
      r
    else if IsSpace(s[|s| - 1]) then
      var r := Strip(s[..|s| - 1]);
      assert !IsBlank(s);
      assert !IsBlank(s[..|s| - 1]) by {
        assert s[..|s| - 1][0] == s[0];
      }
      r
    else
      s
  }

  /** `s.strip()` is `s` with whitespace removed at both ends and nothing else: a slice of `s` between blank margins. */
  lemma {:induction false} StripTrims(s: string)
    ensures exists i: nat, j: nat :: TrimOf(s, Strip(s), i, j)
  {
    if s == [] {
      assert Strip(s) == [];
      assert TrimOf(s, [], 0, 0);
    } else if IsSpace(s[0]) {
      StripTrims(s[1..]);
      var i: nat, j: nat :| TrimOf(s[1..], Strip(s[1..]), i, j);
      TrimOfTail(s, Strip(s[1..]), i, j);
      assert Strip(s) == Strip(s[1..]);
      assert TrimOf(s, Strip(s), i + 1, j + 1);
    } else if IsSpace(s[|s| - 1]) {
      StripTrims(s[..|s| - 1]);
      var i: nat, j: nat :| TrimOf(s[..|s| - 1], Strip(s[..|s| - 1]), i, j);
      TrimOfInit(s, Strip(s[..|s| - 1]), i, j);
      assert Strip(s) == Strip(s[..|s| - 1]);
      assert TrimOf(s, Strip(s), i, j);
    } else {
      assert Strip(s) == s;
      assert TrimOf(s, s, 0, |s|);
    }
  }

  /** A string that neither starts nor ends with whitespace is its own strip. */
  lemma StripClean(s: string)
    requires s == [] || (!IsSpace(s[0]) && !IsSpace(s[|s| - 1]))
    ensures Strip(s) == s
  {
  }

  /** Stripping twice is stripping once. */
  lemma StripIdempotent(s: string)
    ensures Strip(Strip(s)) == Strip(s)
  {
    var r := Strip(s);
    StripClean(r);
  }

  /** Stripping removes characters only at the ends, so it cannot introduce a line break. */
  lemma {:induction false} StripNoLineBreak(s: string)
    requires NoLineBreak(s)
    ensures NoLineBreak(Strip(s))
  {
    if s != [] && IsSpace(s[0]) {
      assert NoLineBreak(s[1..]) by {
        forall i | 0 <= i < |s[1..]| ensures !IsLineBreak(s[1..][i]) {
          assert s[1..][i] == s[i + 1];
        }
      }
      StripNoLineBreak(s[1..]);
    } else if s != [] && IsSpace(s[|s| - 1]) {
      var init := s[..|s| - 1];
      assert NoLineBreak(init) by {
        forall i | 0 <= i < |init| ensures !IsLineBreak(init[i]) {
          assert init[i] == s[i];
        }
      }
      StripNoLineBreak(init);
    }
  }

  /** `c.lower()` for ASCII letters. */
  function LowerChar(c: char): char
  {
    if 'A' <= c <= 'Z' then (c as int + 32) as char else c
  }

  /** `s.lower()` */
  function Lower(s: string): (r: string)
    ensures |r| == |s|
    ensures forall i :: 0 <= i < |s| ==> r[i] == LowerChar(s[i])
  {
    seq(|s|, i requires 0 <= i < |s| => LowerChar(s[i]))
  }

  predicate OccursAt(s: string, sub: string, i: nat)
  {
    i + |sub| <= |s| && s[i..i + |sub|] == sub
  }

  /** `sub in s` */
  predicate Contains(s: string, sub: string)
  {
    exists i: nat | i <= |s| - |sub| :: OccursAt(s, sub, i)
  }

  /** `s.startswith(p)` */
  predicate StartsWith(s: string, p: string)
  {
    |p| <= |s| && s[..|p|] == p
  }

  /** `s.endswith(p)` */
  predicate EndsWith(s: string, p: string)
  {
    |p| <= |s| && s[|s| - |p|..] == p
  }

  /** A character matched by `\w`. */
  predicate IsWordChar(c: char)
  {
    ('a' <= c <= 'z') || ('A' <= c <= 'Z') || ('0' <= c <= '9') || c == '_'
  }

  /** `w` occurs at `i` with a `\b` word boundary on both sides. */
  predicate WordAt(s: string, w: string, i: nat)
  {
    OccursAt(s, w, i)
    && (i == 0 || !IsWordChar(s[i - 1]))
    && (i + |w| == |s| || !IsWordChar(s[i + |w|]))
  }

  /** `re.search(r"\b" + w + r"\b", s)` for a keyword `w` that starts and ends with a word character. */
  predicate HasWord(s: string, w: string)
  {
    exists i: nat | i <= |s| - |w| :: WordAt(s, w, i)
  }

  /** `re.search(r"\b(w1|w2|...)\b", s)` */
  predicate HasAnyWord(s: string, ws: seq<string>)
  {
    exists k | 0 <= k < |ws| :: HasWord(s, ws[k])
  }

  /** `any(k in s for k in ks)` */
  predicate ContainsAny(s: string, ks: seq<string>)
  {
    exists k | 0 <= k < |ks| :: Contains(s, ks[k])
  }

  /** `sep.join(xs)` */
  function Join(sep: string, xs: seq<string>): string
  {
    if xs == [] then ""
    else if |xs| == 1 then xs[0]
    else xs[0] + sep + Join(sep, xs[1..])
  }

  /** Index of the first line boundary in `s`, or `|s|` when there is none. */
  function FirstBreak(s: string): (i: nat)
    ensures i <= |s|
    ensures i < |s| ==> IsLineBreak(s[i])
    ensures forall k :: 0 <= k < i ==> !IsLineBreak(s[k])
  {
    if s == [] then 0
    else if IsLineBreak(s[0]) then 0
    else 1 + FirstBreak(s[1..])
  }

  /** `s.splitlines()`: `\r\n` is one boundary and no empty line follows a final boundary. */
  function SplitLines(s: string): (r: seq<string>)
    ensures forall l :: l in r ==> NoLineBreak(l)
    decreases |s|
  {
    if s == [] then []
    else
      var i := FirstBreak(s);
      if i == |s| then [s]
      else
        var next := if s[i] == '\r' && i + 1 < |s| && s[i + 1] == '\n' then i + 2 else i + 1;
        [s[..i]] + SplitLines(s[next..])
  }

  /** A line that parse_lines keeps unchanged: not empty, stripped, and on one line. */
  predicate CleanLine(l: string)
  {
    l != [] && !IsSpace(l[0]) && !IsSpace(l[|l| - 1]) && NoLineBreak(l)
  }

  /**
   * `parse_lines` (main.py): split into lines, strip each line, drop the
   * empty ones.
   */
  function ParseLines(text: string): (r: seq<string>)
    ensures |r| <= |SplitLines(text)|
    ensures forall l :: l in r ==> CleanLine(l)
  {
    var lines := SplitLines(text);
    StripAllClean(lines);
    Filter((l: string) => l != [], StripAll(lines))
  }

  /** `[ln.strip() for ln in lines]` */
  function StripAll(lines: seq<string>): (r: seq<string>)
    ensures |r| == |lines|
    ensures forall i :: 0 <= i < |lines| ==> r[i] == Strip(lines[i])
  {
    seq(|lines|, i requires 0 <= i < |lines| => Strip(lines[i]))
  }

  lemma StripAllClean(lines: seq<string>)
    requires forall l :: l in lines ==> NoLineBreak(l)
    ensures forall l :: l in StripAll(lines) ==> l == [] || CleanLine(l)
  {
    forall i | 0 <= i < |lines| ensures StripAll(lines)[i] == [] || CleanLine(StripAll(lines)[i]) {
      assert lines[i] in lines;
      StripNoLineBreak(lines[i]);
    }
  }

  lemma {:induction false} SplitJoin(xs: seq<string>)
    requires forall l :: l in xs ==> l != [] && NoLineBreak(l)
    ensures SplitLines(Join("\n", xs)) == xs
  {
    if xs != [] {
      assert xs[0] in xs;
    }
    if |xs| == 1 {
      assert FirstBreak(xs[0]) == |xs[0]|;
    } else if |xs| > 1 {
      var s := Join("\n", xs);
      var rest := Join("\n", xs[1..]);
      assert s == xs[0] + ("\n" + rest);
      FirstBreakOfPrefix(xs[0], "\n" + rest);
      assert s[|xs[0]|] == '\n';
      assert s[..|xs[0]|] == xs[0];
      assert s[|xs[0]| + 1..] == rest;
      assert forall l :: l in xs[1..] ==> l in xs;
      SplitJoin(xs[1..]);
    }
  }

  lemma {:induction false} FirstBreakOfPrefix(a: string, b: string)
    requires NoLineBreak(a) && b != [] && IsLineBreak(b[0])
    ensures FirstBreak(a + b) == |a|
  {
    if a != [] {
      assert (a + b)[1..] == a[1..] + b;
      FirstBreakOfPrefix(a[1..], b);
    }
  }

  /**
   * Round trip behind the edit forms: lines joined with "\n" (as the edit
   * page renders facts, concepts, dependencies and task references) are read
   * back unchanged by parse_lines, provided each is a clean line.
   */
  lemma ParseJoinedLines(xs: seq<string>)
    requires forall l :: l in xs ==> CleanLine(l)
    ensures ParseLines(Join("\n", xs)) == xs
  {
    SplitJoin(xs);
    var lines := SplitLines(Join("\n", xs));
    forall i | 0 <= i < |lines| ensures StripAll(lines)[i] == xs[i] {
      assert xs[i] in xs;
      StripClean(xs[i]);
    }
    assert StripAll(lines) == xs;
    FilterAll((l: string) => l != [], xs);
  }

  predicate IsDigit(c: char)
  {
    '0' <= c <= '9'
  }

  function DigitChar(d: nat): (c: char)
    requires d < 10
    ensures IsDigit(c)
  {
    ('0' as int + d) as char
  }

  /** `str(n)` for a natural number. */
  function NatToString(n: nat): (r: string)
    ensures r != [] && forall i :: 0 <= i < |r| ==> IsDigit(r[i])
  {
    if n < 10 then [DigitChar(n)] else NatToString(n / 10) + [DigitChar(n % 10)]
  }

  /** `str(i)` for an integer. */
  function IntToString(i: int): (r: string)
    ensures r != [] && IsDigit(r[|r| - 1])
    ensures forall k :: 0 <= k < |r| ==> IsDigit(r[k]) || (k == 0 && r[k] == '-')
  {
    if i < 0 then "-" + NatToString(-i) else NatToString(i)
  }

  /** Digits with single underscores between them, as `int()` accepts. */
  predicate ValidDigits(s: string)
  {
    && s != []
    && IsDigit(s[0])
    && IsDigit(s[|s| - 1])
    && forall i :: 0 <= i < |s| ==>
         IsDigit(s[i]) || (s[i] == '_' && 0 < i < |s| - 1 && IsDigit(s[i - 1]) && IsDigit(s[i + 1]))
  }

  function DigitsValue(s: string): nat
  {
    if s == [] then 0
    else if IsDigit(s[|s| - 1]) then 10 * DigitsValue(s[..|s| - 1]) + (s[|s| - 1] as int - '0' as int)
    else DigitsValue(s[..|s| - 1])
  }

  /** `int(s)` on an already stripped string: an optional sign, then digits; None stands for ValueError. */
  function ParseInt(s: string): Option<int>
  {
    if s == [] then None
    else
      var sign, body := (if s[0] == '-' then -1 else 1), (if s[0] == '-' || s[0] == '+' then s[1..] else s);
      if ValidDigits(body) then Some(sign * DigitsValue(body)) else None
  }

  lemma {:induction false} DigitsOfNat(n: nat)
    ensures DigitsValue(NatToString(n)) == n
  {
    if n >= 10 {
      DigitsOfNat(n / 10);
      assert NatToString(n)[..|NatToString(n)| - 1] == NatToString(n / 10);
    }
  }

  lemma NatToStringValid(n: nat)
    ensures ValidDigits(NatToString(n))
  {
  }

  /** `int(str(i)) == i` */
  lemma ParseIntToString(i: int)
    ensures ParseInt(IntToString(i)) == Some(i)
  {
    var n := if i < 0 then -i else i;
    var d := NatToString(n);
    DigitsOfNat(n);
    NatToStringValid(n);
    assert DigitChar(0) != '-' && DigitChar(0) != '+';
    if i < 0 {
      var s := "-" + d;
      assert s[0] == '-' && s[1..] == d;
      assert ParseInt(s) == Some(-1 * DigitsValue(d));
    } else {
      assert d[0] != '-' && d[0] != '+';
      assert ParseInt(d) == Some(DigitsValue(d));
    }
  }
}
