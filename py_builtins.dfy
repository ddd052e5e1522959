/**
 * The two Python built-ins the `/adicionar` handler calls, on `string`s:
 * `str.split(" ")` with an explicit one-character separator and `int(x)` on a
 * string (base 10). `Str`, the decimal rendering of an integer, is not called
 * by the handler; it states the round trip `int(str(n)) == n`.
 */
module PyBuiltins {
  import opened Wrappers

  // ---------------------------------------------------------------------------
  // str.split(" ")
  // ---------------------------------------------------------------------------

  /**
   * `s.split(" ")`: the pieces of `s` between single space characters. Unlike
   * `split()` without an argument, every space separates, so two adjacent
   * spaces, or a space at either end, yield an empty piece; the result is
   * never empty (`"".split(" ") == [""]`).
   */
  function Split(s: string): (r: seq<string>)
    ensures |r| >= 1
  {
    if s == [] then [""] else Prepend(s[0], Split(s[1..]))
  }

  /** The pieces of `[c] + t`, from the pieces of `t`. */
  function Prepend(c: char, pieces: seq<string>): (r: seq<string>)
    requires |pieces| >= 1
    ensures |r| >= 1
  {
    if c == ' ' then [""] + pieces else [[c] + pieces[0]] + pieces[1..]
  }

  /**
   * What `split(" ")` returns: at least one piece, more than one exactly
   * when the text holds a space, no piece holding a space, and the pieces
   * joined by single spaces giving the text back.
   */
  lemma {:induction false} SplitShape(s: string)
    ensures |Split(s)| >= 1
    ensures |Split(s)| == 1 <==> ' ' !in s
    ensures forall i | 0 <= i < |Split(s)| :: ' ' !in Split(s)[i]
    ensures Join(Split(s)) == s
  {
    if s != [] {
      SplitShape(s[1..]);
      PrependShape(s[0], Split(s[1..]));
      assert s == [s[0]] + s[1..];
    }
  }

  /** How `Prepend` changes the number of pieces, their contents and their join. */
  lemma PrependShape(c: char, pieces: seq<string>)
    requires |pieces| >= 1
    ensures |Prepend(c, pieces)| == 1 <==> c != ' ' && |pieces| == 1
    ensures (forall i | 0 <= i < |pieces| :: ' ' !in pieces[i]) ==>
              forall i | 0 <= i < |Prepend(c, pieces)| :: ' ' !in Prepend(c, pieces)[i]
    ensures Join(Prepend(c, pieces)) == [c] + Join(pieces)
  {
    var r := Prepend(c, pieces);
    if c == ' ' {
      assert r[1..] == pieces;
      assert Join(r) == "" + " " + Join(pieces);
    } else if |pieces| == 1 {
      assert Join(r) == [c] + pieces[0];
    } else {
      assert r[1..] == pieces[1..];
      assert Join(pieces) == pieces[0] + " " + Join(pieces[1..]);
      assert Join(r) == [c] + pieces[0] + " " + Join(pieces[1..]);
    }
  }

  /** `" ".join(pieces)`: the pieces with one space between neighbours. */
  function Join(pieces: seq<string>): (r: string)
    ensures pieces != [] ==> pieces[0] <= r
  {
    if pieces == [] then ""
    else if |pieces| == 1 then pieces[0]
    else pieces[0] + " " + Join(pieces[1..])
  }

  /** A space inside a text splits it exactly there. */
  lemma {:induction false} SplitAround(a: string, b: string)
    ensures Split(a + " " + b) == Split(a) + Split(b)
  {
    if a == [] {
      assert a + " " + b == [' '] + b;
    } else {
      var t := a[1..] + " " + b;
      assert a + " " + b == [a[0]] + t;
      SplitAround(a[1..], b);
      PrependConcat(a[0], Split(a[1..]), Split(b));
    }
  }

  lemma PrependConcat(c: char, p: seq<string>, q: seq<string>)
    requires |p| >= 1
    ensures Prepend(c, p + q) == Prepend(c, p) + q
  {
    if c != ' ' {
      assert (p + q)[1..] == p[1..] + q;
    }
  }

  /** Splitting undoes joining pieces that hold no space. */
  lemma {:induction false} SplitJoin(pieces: seq<string>)
    requires |pieces| >= 1
    requires forall i | 0 <= i < |pieces| :: ' ' !in pieces[i]
    ensures Split(Join(pieces)) == pieces
  {
    if |pieces| == 1 {
      SplitShape(pieces[0]);
      var r := Split(pieces[0]);
      assert |r| == 1 && Join(r) == r[0];
    } else {
      SplitAround(pieces[0], Join(pieces[1..]));
      SplitJoin(pieces[0..1]);
      SplitJoin(pieces[1..]);
    }
  }

  // ---------------------------------------------------------------------------
  // int(x) for a string x, base 10
  // ---------------------------------------------------------------------------

  /**
   * The characters `int` skips before and after the number: the ASCII
   * white space of its C parser (space and U+0009 to U+000D) and the
   * non-ASCII characters Unicode classes as white space, which `int` maps
   * to spaces before parsing. U+001C to U+001F are white space for
   * `str.isspace` but are not skipped by `int`.
   */
  predicate IsIntSpace(c: char)
  {
    c in IntSpaces
  }

  const IntSpaces: set<char> := {
    ' ', '\t', '\n', '\U{000B}', '\U{000C}', '\r',
    '\U{0085}', '\U{00A0}', '\U{1680}',
    '\U{2000}', '\U{2001}', '\U{2002}', '\U{2003}', '\U{2004}', '\U{2005}',
    '\U{2006}', '\U{2007}', '\U{2008}', '\U{2009}', '\U{200A}',
    '\U{2028}', '\U{2029}', '\U{202F}', '\U{205F}', '\U{3000}'
  }

  predicate IsDigit(c: char)
  {
    '0' <= c <= '9'
  }

  /** Digits, signs and underscores are not white space. */
  lemma NumberCharIsNoSpace(c: char)
    requires IsDigit(c) || c == '+' || c == '-' || c == '_'
    ensures !IsIntSpace(c)
  {
  }

  function DigitValue(c: char): (d: nat)
    requires IsDigit(c)
    ensures d < 10
  {
    c as int - '0' as int
  }

  function DigitChar(d: nat): (c: char)
    requires d < 10
    ensures IsDigit(c) && DigitValue(c) == d
  {
    ('0' as int + d) as char
  }

  /** `s` without its leading `int` white space. */
  function TrimStart(s: string): string
  {
    if s != [] && IsIntSpace(s[0]) then TrimStart(s[1..]) else s
  }

  /** `s` without its trailing `int` white space. */
  function TrimEnd(s: string): string
  {
    if s != [] && IsIntSpace(s[|s| - 1]) then TrimEnd(s[..|s| - 1]) else s
  }

  /** `TrimStart` removes a prefix of `int` white space and stops at anything else. */
  lemma {:induction false} TrimStartShape(s: string)
    ensures |TrimStart(s)| <= |s| && TrimStart(s) == s[|s| - |TrimStart(s)|..]
    ensures forall i | 0 <= i < |s| - |TrimStart(s)| :: IsIntSpace(s[i])
    ensures TrimStart(s) != [] ==> !IsIntSpace(TrimStart(s)[0])
  {
    if s != [] && IsIntSpace(s[0]) {
      TrimStartShape(s[1..]);
    }
  }

  /** `TrimEnd` removes a suffix of `int` white space and stops at anything else. */
  lemma {:induction false} TrimEndShape(s: string)
    ensures TrimEnd(s) <= s
    ensures forall i | |TrimEnd(s)| <= i < |s| :: IsIntSpace(s[i])
    ensures TrimEnd(s) != [] ==> !IsIntSpace(s[|TrimEnd(s)| - 1])
  {
    if s != [] && IsIntSpace(s[|s| - 1]) {
      TrimEndShape(s[..|s| - 1]);
    }
  }

  /** `s` stripped of `int` white space at both ends. */
  function Strip(s: string): string
  {
    TrimEnd(TrimStart(s))
  }

  /**
   * The digit part `int` accepts in base 10: ASCII digits, where a single
   * underscore may separate two digits (`"1_000"`), but may not lead, trail
   * or follow another underscore.
   */
  predicate IsDigitGroups(s: string)
  {
    && |s| > 0
    && IsDigit(s[0])
    && IsDigit(s[|s| - 1])
    && (forall i | 0 <= i < |s| :: IsDigit(s[i]) || s[i] == '_')
    && (forall i | 0 <= i < |s| - 1 :: s[i] == '_' ==> IsDigit(s[i + 1]))
  }

  /** The decimal value of a run of digits and underscores; underscores add nothing. */
  function DigitsValue(s: string): nat
    requires forall i | 0 <= i < |s| :: IsDigit(s[i]) || s[i] == '_'
  {
    if s == [] then 0
    else if s[|s| - 1] == '_' then DigitsValue(s[..|s| - 1])
    else DigitsValue(s[..|s| - 1]) * 10 + DigitValue(s[|s| - 1])
  }

  /**
   * `int(x)` for a string `x`: `Some(n)` where Python returns `n`, `None`
   * where it raises `ValueError`. The number is an optional `+` or `-`
   * directly followed by digit groups, with `int` white space allowed
   * around it; leading zeros are allowed (`int("007") == 7`).
   */
  function Int(x: string): (r: Option<int>)
    ensures r.Some? ==> exists i | 0 <= i < |x| :: IsDigit(x[i])
  {
    var t := Strip(x);
    TrimStartShape(x);
    TrimEndShape(TrimStart(x));
    assert forall k | 0 <= k < |t| :: t[k] == x[|x| - |TrimStart(x)| + k];
    if |t| > 0 && (t[0] == '+' || t[0] == '-') then
      if IsDigitGroups(t[1..]) then
        var magnitude: int := DigitsValue(t[1..]);
        Some(if t[0] == '-' then -magnitude else magnitude)
      else None
    else if IsDigitGroups(t) then Some(DigitsValue(t))
    else None
  }

  /** An underscore between two digit groups changes nothing: `int("1_000") == int("1000")`. */
  lemma UnderscoreIgnored(a: string, b: string)
    requires IsDigitGroups(a) && IsDigitGroups(b)
    ensures IsDigitGroups(a + b) && IsDigitGroups(a + "_" + b)
    ensures Int(a + "_" + b) == Int(a + b) == Some(DigitsValue(a + b))
  {
    GroupsConcat(a, b);
    UnderscoreValue(a, b);
    IntOfGroups(a + b);
    IntOfGroups(a + "_" + b);
  }

  /** Unsigned digit groups without white space read as their value. */
  lemma IntOfGroups(x: string)
    requires IsDigitGroups(x)
    ensures Int(x) == Some(DigitsValue(x))
  {
    NumberCharIsNoSpace(x[0]);
    NumberCharIsNoSpace(x[|x| - 1]);
    assert TrimStart(x) == x;
    assert TrimEnd(x) == x;
  }

  /** Digits that do not start with `0` have a positive value. */
  lemma {:induction false} LeadingDigitPositive(s: string)
    requires |s| > 0 && '1' <= s[0] <= '9'
    requires forall i | 0 <= i < |s| :: IsDigit(s[i]) || s[i] == '_'
    ensures DigitsValue(s) > 0
  {
    if |s| > 1 {
      var front := s[..|s| - 1];
      assert front[0] == s[0];
      LeadingDigitPositive(front);
    }
  }

  /** A sign directly before digit groups gives the number that sign. */
  lemma IntOfSignedGroups(x: string)
    requires IsDigitGroups(x)
    ensures Int("-" + x) == Some(-(DigitsValue(x) as int))
    ensures Int("+" + x) == Some(DigitsValue(x))
  {
    NumberCharIsNoSpace('-');
    NumberCharIsNoSpace('+');
    NumberCharIsNoSpace(x[|x| - 1]);
    SignedStrip('-', x);
    SignedStrip('+', x);
  }

  lemma SignedStrip(sign: char, x: string)
    requires x != [] && !IsIntSpace(sign) && !IsIntSpace(x[|x| - 1])
    ensures Strip([sign] + x) == [sign] + x
  {
    var t := [sign] + x;
    assert TrimStart(t) == t;
    assert t[|t| - 1] == x[|x| - 1];
  }

  /** Two digit groups side by side, or with one underscore between, are digit groups. */
  lemma GroupsConcat(a: string, b: string)
    requires IsDigitGroups(a) && IsDigitGroups(b)
    ensures IsDigitGroups(a + b) && IsDigitGroups(a + "_" + b)
  {
    var x, y := a + "_" + b, a + b;
    assert x[0] == a[0] && y[0] == a[0];
    assert x[|x| - 1] == b[|b| - 1] && y[|y| - 1] == b[|b| - 1];
    forall i | 0 <= i < |x| ensures IsDigit(x[i]) || x[i] == '_' {
      if i < |a| { assert x[i] == a[i]; } else if i > |a| { assert x[i] == b[i - |a| - 1]; }
    }
    forall i | 0 <= i < |y| ensures IsDigit(y[i]) || y[i] == '_' {
      if i < |a| { assert y[i] == a[i]; } else { assert y[i] == b[i - |a|]; }
    }
    forall i | 0 <= i < |x| - 1 && x[i] == '_' ensures IsDigit(x[i + 1]) {
      if i < |a| - 1 {
        assert x[i] == a[i] && x[i + 1] == a[i + 1];
      } else if i == |a| {
        assert x[i + 1] == b[0];
      } else if i > |a| {
        assert x[i] == b[i - |a| - 1] && x[i + 1] == b[i - |a|];
      }
    }
    forall i | 0 <= i < |y| - 1 && y[i] == '_' ensures IsDigit(y[i + 1]) {
      if i < |a| - 1 {
        assert y[i] == a[i] && y[i + 1] == a[i + 1];
      } else if i >= |a| {
        assert y[i] == b[i - |a|] && y[i + 1] == b[i - |a| + 1];
      }
    }
  }

  lemma {:induction false} UnderscoreValue(a: string, b: string)
    requires forall i | 0 <= i < |a| :: IsDigit(a[i]) || a[i] == '_'
    requires forall i | 0 <= i < |b| :: IsDigit(b[i]) || b[i] == '_'
    ensures forall i | 0 <= i < |a + "_" + b| :: IsDigit((a + "_" + b)[i]) || (a + "_" + b)[i] == '_'
    ensures forall i | 0 <= i < |a + b| :: IsDigit((a + b)[i]) || (a + b)[i] == '_'
    ensures DigitsValue(a + "_" + b) == DigitsValue(a + b)
  {
    var x, y := a + "_" + b, a + b;
    assert forall i | 0 <= i < |x| :: IsDigit(x[i]) || x[i] == '_' by {
      forall i | 0 <= i < |x| ensures IsDigit(x[i]) || x[i] == '_' {
        if i < |a| { assert x[i] == a[i]; } else if i > |a| { assert x[i] == b[i - |a| - 1]; }
      }
    }
    assert forall i | 0 <= i < |y| :: IsDigit(y[i]) || y[i] == '_' by {
      forall i | 0 <= i < |y| ensures IsDigit(y[i]) || y[i] == '_' {
        if i < |a| { assert y[i] == a[i]; } else { assert y[i] == b[i - |a|]; }
      }
    }
    if b == [] {
      assert x[..|x| - 1] == a && y == a;
    } else {
      var b' := b[..|b| - 1];
      assert x[..|x| - 1] == a + "_" + b' && y[..|y| - 1] == a + b';
      assert x[|x| - 1] == b[|b| - 1] == y[|y| - 1];
      UnderscoreValue(a, b');
    }
  }

  /** White space after the number is skipped: `int("5\n") == int("5")`. */
  lemma TrailingSpaceIgnored(x: string, c: char)
    requires IsIntSpace(c)
    ensures Int(x + [c]) == Int(x)
  {
    TrimStartAppend(x, c);
    var t := TrimStart(x);
    if t != [] {
      assert (t + [c])[..|t|] == t;
    }
  }

  /** Trimming the front of `x + [c]` trims the front of `x`, unless all of `x` goes. */
  lemma {:induction false} TrimStartAppend(x: string, c: char)
    ensures TrimStart(x + [c]) == if TrimStart(x) == [] then TrimStart([c]) else TrimStart(x) + [c]
  {
    if x != [] {
      assert (x + [c])[0] == x[0] && (x + [c])[1..] == x[1..] + [c];
      if IsIntSpace(x[0]) {
        TrimStartAppend(x[1..], c);
      }
    } else {
      assert x + [c] == [c];
    }
  }

  /** A character that is no digit, underscore, sign or `int` white space. */
  predicate IsForeign(c: char)
  {
    !IsDigit(c) && c != '_' && c != '+' && c != '-' && !IsIntSpace(c)
  }

  /** Trimming white space keeps every other character. */
  lemma {:induction false} StripKeeps(s: string, i: nat)
    requires i < |s| && !IsIntSpace(s[i])
    ensures s[i] in Strip(s)
  {
    var front := |s| - |TrimStart(s)|;
    TrimStartShape(s);
    TrimStartKeeps(s, i);
    var t := TrimStart(s);
    assert t[i - front] == s[i];
    TrimEndShape(t);
    TrimEndKeeps(t, i - front);
    assert TrimEnd(t)[i - front] == s[i];
  }

  lemma {:induction false} TrimStartKeeps(s: string, i: nat)
    requires i < |s| && !IsIntSpace(s[i])
    ensures |s| - |TrimStart(s)| <= i
  {
    if s != [] && IsIntSpace(s[0]) {
      TrimStartKeeps(s[1..], i - 1);
    }
  }

  lemma {:induction false} TrimEndKeeps(s: string, i: nat)
    requires i < |s| && !IsIntSpace(s[i])
    ensures i < |TrimEnd(s)|
  {
    if s != [] && IsIntSpace(s[|s| - 1]) {
      TrimEndKeeps(s[..|s| - 1], i);
    }
  }

  /** One character that cannot be part of a number makes `int` raise. */
  lemma ForeignCharRaises(x: string, i: nat)
    requires i < |x| && IsForeign(x[i])
    ensures Int(x) == None
  {
    StripKeeps(x, i);
    var t := Strip(x);
    var k :| 0 <= k < |t| && t[k] == x[i];
    if |t| > 0 && (t[0] == '+' || t[0] == '-') {
      assert k != 0;
      assert t[1..][k - 1] == x[i];
    }
  }

  // ---------------------------------------------------------------------------
  // str(n) for an integer n
  // ---------------------------------------------------------------------------

  /** The decimal digits of `n`, most significant first, without leading zeros. */
  function NatDigits(n: nat): (s: string)
    ensures |s| > 0
    ensures forall i | 0 <= i < |s| :: IsDigit(s[i])
    ensures s[0] == '0' ==> n == 0
  {
    if n < 10 then [DigitChar(n)] else NatDigits(n / 10) + [DigitChar(n % 10)]
  }

  /** `str(n)`: an optional minus sign and the digits of `|n|`. */
  function Str(n: int): string
  {
    if n < 0 then "-" + NatDigits(-n) else NatDigits(n)
  }

  lemma {:induction false} NatDigitsValue(n: nat)
    ensures DigitsValue(NatDigits(n)) == n
  {
    var s := NatDigits(n);
    if n >= 10 {
      assert s[..|s| - 1] == NatDigits(n / 10);
      NatDigitsValue(n / 10);
    }
  }

  /** `int` reads back what `str` writes: `int(str(n)) == n` for every integer. */
  lemma IntStr(n: int)
    ensures Int(Str(n)) == Some(n)
  {
    var s := Str(n);
    var digits := NatDigits(if n < 0 then -n else n);
    NatDigitsValue(if n < 0 then -n else n);
    NumberCharIsNoSpace(s[0]);
    NumberCharIsNoSpace(s[|s| - 1]);
    assert TrimStart(s) == s;
    assert TrimEnd(s) == s;
    if n < 0 {
      assert s[1..] == digits;
    }
  }
}
