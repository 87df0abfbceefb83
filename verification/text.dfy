/** The Python string primitives the tracker is built from: `str.strip`,
    `str.lower`, `str.isdigit`, the `s[:-2]` slice that removes a scan
    suffix, `str.split(",")` / `",".join(...)`, and the substring test
    `a in b`. Strings are sequences of characters. */
module Text {

  /** The characters Python's `str.isspace()` accepts, which are exactly the
      ones the argument-less `str.strip()` removes. */
  predicate IsSpace(c: char) {
    c == ' ' || ('\t' <= c <= '\r') || ('\U{1c}' <= c <= '\U{1f}')
    || c == '\U{85}' || c == '\U{a0}' || c == '\U{1680}'
    || ('\U{2000}' <= c <= '\U{200a}') || c == '\U{2028}' || c == '\U{2029}'
    || c == '\U{202f}' || c == '\U{205f}' || c == '\U{3000}'
  }

  predicate IsDigit(c: char) {
    '0' <= c <= '9'
  }

  predicate IsUpper(c: char) {
    'A' <= c <= 'Z'
  }

  /** Python `s.isdigit()` on ASCII text: non-empty and all digits. */
  predicate IsDigits(s: string) {
    |s| > 0 && forall i :: 0 <= i < |s| ==> IsDigit(s[i])
  }

  /** Python `s.lower()` restricted to the ASCII letters; for the equality
      tests against "exit t" this gives the same verdict as Python's full
      case mapping, since no other character lowers to one of those letters. */
  function Lower(s: string): (r: string)
    ensures |r| == |s|
  {
    seq(|s|, i requires 0 <= i < |s| => if IsUpper(s[i]) then s[i] - 'A' + 'a' else s[i])
  }

  predicate EndsWith(s: string, suffix: string) {
    |suffix| <= |s| && s[|s| - |suffix|..] == suffix
  }

  /** Python `s[:-2]`: everything but the last two characters, and the empty
      string when there are fewer than two. */
  function DropLast2(s: string): (r: string)
    ensures |s| >= 2 ==> s == r + s[|s| - 2..]
    ensures |s| < 2 ==> r == ""
  {
    if |s| >= 2 then s[..|s| - 2] else ""
  }

  // ---------------------------------------------------------------------
  // Stripping

  /** Removes the leading characters satisfying `drop`. */
  function TrimLeft(s: string, drop: char -> bool): (r: string)
    ensures |r| <= |s| && r == s[|s| - |r|..]
    ensures forall i :: 0 <= i < |s| - |r| ==> drop(s[i])
    ensures |r| > 0 ==> !drop(r[0])
    decreases |s|
  {
    if |s| > 0 && drop(s[0]) then
      var r := TrimLeft(s[1..], drop);
      assert s[1..][|s| - 1 - |r|..] == s[|s| - |r|..];
      r
    else s
  }

  /** Removes the trailing characters satisfying `drop`. */
  function TrimRight(s: string, drop: char -> bool): (r: string)
    ensures |r| <= |s| && r == s[..|r|]
    ensures forall i :: |r| <= i < |s| ==> drop(s[i])
    ensures |r| > 0 ==> !drop(r[|r| - 1])
    decreases |s|
  {
    if |s| > 0 && drop(s[|s| - 1]) then TrimRight(s[..|s| - 1], drop) else s
  }

  /** Python `s.strip(chars)` with the character set given as a predicate. */
  function StripWhere(s: string, drop: char -> bool): (r: string)
    ensures |r| > 0 ==> !drop(r[0]) && !drop(r[|r| - 1])
    ensures forall i :: 0 <= i < |r| ==> r[i] in s
  {
    var l := TrimLeft(s, drop);
    var r := TrimRight(l, drop);
    forall i | 0 <= i < |r|
      ensures r[i] in s
    {
      assert r[i] == l[i];
      assert l[i] == s[|s| - |l| + i];
    }
    r
  }

  /** Python `s.strip()`. */
  function Strip(s: string): (r: string)
    ensures NoEdgeSpace(r)
    ensures forall i :: 0 <= i < |r| ==> r[i] in s
  {
    StripWhere(s, IsSpace)
  }

  /** Python `s.strip(chars)`: removes any of the characters of `chars` from
      both ends (a character set, not a suffix). */
  function StripChars(s: string, chars: string): (r: string) {
    StripWhere(s, OneOf(chars))
  }

  /** Membership in a character set, as a predicate. */
  function OneOf(chars: string): (p: char -> bool) {
    c => c in chars
  }

  /** Text whose first and last characters are kept, followed by characters
      that are all in the set, strips back to itself. */
  lemma StripCharsTail(s: string, t: string, chars: string)
    requires |s| > 0 && s[0] !in chars && s[|s| - 1] !in chars
    requires forall i :: 0 <= i < |t| ==> t[i] in chars
    ensures StripChars(s + t, chars) == s
  {
    var u := s + t;
    assert TrimLeft(u, OneOf(chars)) == u;
    TrimRightTail(s, t, OneOf(chars));
  }

  lemma {:induction false} TrimRightTail(s: string, t: string, drop: char -> bool)
    requires |s| > 0 && !drop(s[|s| - 1])
    requires forall i :: 0 <= i < |t| ==> drop(t[i])
    ensures TrimRight(s + t, drop) == s
    decreases |t|
  {
    if |t| == 0 {
      assert s + t == s;
    } else {
      var u := s + t;
      assert u[..|u| - 1] == s + t[..|t| - 1];
      TrimRightTail(s, t[..|t| - 1], drop);
    }
  }

  /** Python `s.lstrip(" ").rstrip(" ")`: spaces only, not other white space. */
  function StripSpaces(s: string): (r: string)
    ensures |r| > 0 ==> r[0] != ' ' && r[|r| - 1] != ' '
  {
    StripWhere(s, c => c == ' ')
  }

  predicate NoEdgeSpace(s: string) {
    |s| > 0 ==> !IsSpace(s[0]) && !IsSpace(s[|s| - 1])
  }

  /** Stripping text that has no white space at either end changes nothing,
      so in particular `Strip` is idempotent. */
  lemma StripFixed(s: string)
    requires NoEdgeSpace(s)
    ensures Strip(s) == s
  {
    assert TrimLeft(s, IsSpace) == s;
  }

  lemma StripIdempotent(s: string)
    ensures Strip(Strip(s)) == Strip(s)
  {
    StripFixed(Strip(s));
  }

  /** A line terminator added after the text is stripped away with it. */
  lemma StripNewline(s: string)
    ensures Strip(s + "\n") == Strip(s)
  {
    var t := s + "\n";
    var l := TrimLeft(s, IsSpace);
    var lt := TrimLeft(t, IsSpace);
    if |l| == 0 {
      assert forall i :: 0 <= i < |s| ==> IsSpace(t[i]);
      TrimLeftAllDropped(t, IsSpace);
    } else {
      TrimLeftAppend(s, "\n", IsSpace);
      assert lt == l + "\n";
      TrimRightNewline(l);
    }
  }

  lemma TrimLeftAllDropped(s: string, drop: char -> bool)
    requires forall i :: 0 <= i < |s| ==> drop(s[i])
    ensures TrimLeft(s, drop) == ""
  {
    if |s| > 0 {
      TrimLeftAllDropped(s[1..], drop);
    }
  }

  lemma {:induction false} TrimLeftAppend(s: string, t: string, drop: char -> bool)
    requires |TrimLeft(s, drop)| > 0
    ensures TrimLeft(s + t, drop) == TrimLeft(s, drop) + t
    decreases |s|
  {
    if |s| > 0 && drop(s[0]) {
      assert (s + t)[1..] == s[1..] + t;
      TrimLeftAppend(s[1..], t, drop);
    }
  }

  lemma TrimRightNewline(l: string)
    requires |l| > 0 && !IsSpace(l[0])
    ensures TrimRight(TrimLeft(l + "\n", IsSpace), IsSpace) == TrimRight(l, IsSpace)
  {
    var t := l + "\n";
    assert TrimLeft(t, IsSpace) == t;
    assert t[..|t| - 1] == l;
  }

  /** Python `[x.strip() for x in xs]`. */
  function MapStrip(xs: seq<string>): (r: seq<string>)
    ensures |r| == |xs|
  {
    seq(|xs|, i requires 0 <= i < |xs| => Strip(xs[i]))
  }

  // ---------------------------------------------------------------------
  // Split and join

  /** Python `s.split(sep)` for a one-character separator: always at least
      one piece, and no piece contains the separator. */
  function Split(s: string, sep: char): (r: seq<string>)
    ensures |r| >= 1
    ensures forall i :: 0 <= i < |r| ==> sep !in r[i]
    decreases |s|
  {
    if |s| == 0 then [""]
    else
      var rest := Split(s[1..], sep);
      if s[0] == sep then [""] + rest
      else [[s[0]] + rest[0]] + rest[1..]
  }

  /** Python `sep.join(xs)`. */
  function Join(xs: seq<string>, sep: char): (r: string)
    decreases |xs|
  {
    if |xs| == 0 then ""
    else if |xs| == 1 then xs[0]
    else xs[0] + [sep] + Join(xs[1..], sep)
  }

  /** Joining the pieces of a split gives back the text. */
  lemma {:induction false} JoinSplit(s: string, sep: char)
    ensures Join(Split(s, sep), sep) == s
    decreases |s|
  {
    if |s| > 0 {
      var rest := Split(s[1..], sep);
      JoinSplit(s[1..], sep);
      if s[0] == sep {
        assert ([""] + rest)[1..] == rest;
      } else {
        var r := [[s[0]] + rest[0]] + rest[1..];
        if |rest| > 1 {
          assert r[1..] == rest[1..];
        }
      }
    }
  }

  /** The last piece of a join follows the last separator. */
  lemma {:induction false} JoinLast(xs: seq<string>, sep: char)
    requires |xs| >= 2
    ensures Join(xs, sep) == Join(xs[..|xs| - 1], sep) + [sep] + xs[|xs| - 1]
    decreases |xs|
  {
    if |xs| > 2 {
      JoinLast(xs[1..], sep);
      assert xs[1..][..|xs| - 2] == xs[..|xs| - 1][1..];
    }
  }

  /** Splitting distributes over a separator placed between two texts. */
  lemma {:induction false} SplitAppend(a: string, b: string, sep: char)
    ensures Split(a + [sep] + b, sep) == Split(a, sep) + Split(b, sep)
    decreases |a|
  {
    var s := a + [sep] + b;
    if |a| == 0 {
      assert s[1..] == b;
    } else {
      var c, t := a[0], a[1..] + [sep] + b;
      assert s[0] == c && s[1..] == t;
      SplitAppend(a[1..], b, sep);
      SplitStep(s, t, sep);
      SplitStep(a, a[1..], sep);
      var x, y := Split(a[1..], sep), Split(b, sep);
      assert Split(t, sep) == x + y;
      if c != sep {
        GlueFirst([c], x, y);
      }
    }
  }

  /** Gluing text onto the first piece commutes with appending more pieces. */
  lemma GlueFirst(h: string, x: seq<string>, y: seq<string>)
    requires |x| > 0
    ensures [h + (x + y)[0]] + (x + y)[1..] == ([h + x[0]] + x[1..]) + y
  {
    assert (x + y)[1..] == x[1..] + y;
  }

  /** One step of `Split`, over a text named apart from its tail. */
  lemma SplitStep(s: string, t: string, sep: char)
    requires |s| > 0 && s[1..] == t
    ensures Split(s, sep) ==
      if s[0] == sep then [""] + Split(t, sep)
      else [[s[0]] + Split(t, sep)[0]] + Split(t, sep)[1..]
  {
  }

  lemma {:induction false} SplitNoSep(a: string, sep: char)
    requires sep !in a
    ensures Split(a, sep) == [a]
    decreases |a|
  {
    if |a| > 0 {
      SplitNoSep(a[1..], sep);
      assert [a[0]] + a[1..] == a;
    }
  }

  /** Splitting a join gives back the pieces, provided no piece contains the
      separator. */
  lemma {:induction false} SplitJoin(xs: seq<string>, sep: char)
    requires |xs| >= 1
    requires forall i :: 0 <= i < |xs| ==> sep !in xs[i]
    ensures Split(Join(xs, sep), sep) == xs
    decreases |xs|
  {
    if |xs| == 1 {
      SplitNoSep(xs[0], sep);
    } else {
      SplitJoin(xs[1..], sep);
      SplitAppend(xs[0], Join(xs[1..], sep), sep);
      SplitNoSep(xs[0], sep);
      assert [xs[0]] + xs[1..] == xs;
    }
  }

  /** The join of stripped pieces has no white space at either end, so
      stripping it again is the identity. */
  lemma {:induction false} JoinNoEdgeSpace(xs: seq<string>, sep: char)
    requires !IsSpace(sep)
    requires forall i :: 0 <= i < |xs| ==> NoEdgeSpace(xs[i])
    ensures NoEdgeSpace(Join(xs, sep))
    decreases |xs|
  {
    if |xs| > 1 {
      JoinNoEdgeSpace(xs[1..], sep);
    }
  }

  lemma MapStripNoSep(xs: seq<string>, sep: char)
    requires forall i :: 0 <= i < |xs| ==> sep !in xs[i]
    ensures forall i :: 0 <= i < |xs| ==> sep !in MapStrip(xs)[i]
  {
  }

  // ---------------------------------------------------------------------
  // Substring test

  /** Python `pat in text`. */
  predicate Contains(text: string, pat: string)
    decreases |text|
  {
    pat <= text || (|text| > 0 && Contains(text[1..], pat))
  }

  predicate OccursAt(text: string, pat: string, i: int) {
    0 <= i && i + |pat| <= |text| && text[i..i + |pat|] == pat
  }

  /** `Contains` is the substring relation: the pattern occurs at some
      offset, in both directions. */
  lemma {:induction false} ContainsIff(text: string, pat: string)
    ensures Contains(text, pat) <==> exists i :: OccursAt(text, pat, i)
    decreases |text|
  {
    if pat <= text {
      assert OccursAt(text, pat, 0);
    } else if |text| == 0 {
    } else {
      ContainsIff(text[1..], pat);
      if exists i :: OccursAt(text[1..], pat, i) {
        var i :| OccursAt(text[1..], pat, i);
        OccursShift(text, pat, i + 1);
      }
      assert !OccursAt(text, pat, 0);
      if exists i :: OccursAt(text, pat, i) {
        var i :| OccursAt(text, pat, i);
        OccursShift(text, pat, i);
      }
    }
  }

  /** An occurrence past the first character of a text is an occurrence one
      place earlier in the text's tail. */
  lemma OccursShift(text: string, pat: string, i: int)
    requires 0 < i && |text| > 0
    ensures OccursAt(text, pat, i) <==> OccursAt(text[1..], pat, i - 1)
  {
    if i + |pat| <= |text| {
      assert text[1..][i - 1..i - 1 + |pat|] == text[i..i + |pat|];
    }
  }

  /** Text placed anywhere in a larger text is contained in it. */
  lemma ContainsInfix(a: string, pat: string, b: string)
    ensures Contains(a + pat + b, pat)
  {
    var t := a + pat + b;
    assert t[|a|..|a| + |pat|] == pat;
    assert OccursAt(t, pat, |a|);
    ContainsIff(t, pat);
  }
}
