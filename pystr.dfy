/** The three Python 2 `unicode` string operations the timestamp repair
    relies on: `split(sep)`, `split()` with no argument, and `zfill(width)`. */
module PyStr {

  /** `unicode.isspace()` of Python 2.7, whose character database is
      Unicode 5.2 (so U+180E still counts as a space). */
  predicate IsSpace(c: char) {
    || ('\t' <= c <= '\r')
    || ('\U{1C}' <= c <= ' ')
    || c == '\U{85}' || c == '\U{A0}' || c == '\U{1680}' || c == '\U{180E}'
    || ('\U{2000}' <= c <= '\U{200A}')
    || c == '\U{2028}' || c == '\U{2029}' || c == '\U{202F}' || c == '\U{205F}'
    || c == '\U{3000}'
  }

  predicate NoSpace(s: string) {
    forall i :: 0 <= i < |s| ==> !IsSpace(s[i])
  }

  /** `sep.join(parts)` for a one-character separator. */
  function Join(parts: seq<string>, sep: char): string
  {
    if |parts| == 0 then ""
    else if |parts| == 1 then parts[0]
    else parts[0] + [sep] + Join(parts[1..], sep)
  }

  lemma Join3(a: string, b: string, c: string, sep: char)
    ensures Join([a, b, c], sep) == a + [sep] + b + [sep] + c
  {
    assert [a, b, c][1..] == [b, c];
    assert [b, c][1..] == [c];
    assert Join([b, c], sep) == b + [sep] + c;
    assert Join([a, b, c], sep) == a + [sep] + (b + [sep] + c);
  }

  /** A character that is neither the separator nor in any piece is not in the joined string. */
  lemma {:induction false} JoinAvoids(parts: seq<string>, sep: char, c: char)
    requires c != sep
    requires forall i :: 0 <= i < |parts| ==> c !in parts[i]
    ensures c !in Join(parts, sep)
    decreases |parts|
  {
    if |parts| > 1 {
      JoinAvoids(parts[1..], sep, c);
    }
  }

  /** `s.split(sep)`: every occurrence of `sep` cuts, empty pieces are kept,
      so there is always at least one piece. */
  function Split(s: string, sep: char): (parts: seq<string>)
    ensures |parts| >= 1
    ensures forall i :: 0 <= i < |parts| ==> sep !in parts[i]
    ensures Join(parts, sep) == s
    decreases |s|
  {
    if |s| == 0 then [""]
    else
      var rest := Split(s[1..], sep);
      if s[0] == sep then
        assert s == [sep] + s[1..];
        [""] + rest
      else
        var parts := [[s[0]] + rest[0]] + rest[1..];
        assert parts[1..] == rest[1..];
        assert |rest| > 1 ==> Join(rest, sep) == rest[0] + [sep] + Join(rest[1..], sep);
        assert s == [s[0]] + s[1..];
        parts
  }

  /** A piece free of the separator is glued onto the first piece of what follows. */
  lemma {:induction false} SplitPrefix(x: string, y: string, sep: char)
    requires sep !in x
    ensures Split(x + y, sep) == [x + Split(y, sep)[0]] + Split(y, sep)[1..]
    decreases |x|
  {
    if |x| > 0 {
      SplitPrefix(x[1..], y, sep);
      assert (x + y)[1..] == x[1..] + y;
      assert (x + y)[0] == x[0];
      assert [x[0]] + (x[1..] + Split(y, sep)[0]) == x + Split(y, sep)[0];
    } else {
      var parts := Split(y, sep);
      assert x + y == y && x + parts[0] == parts[0];
      assert parts == [parts[0]] + parts[1..];
    }
  }

  /** Splitting undoes joining when no piece holds the separator. */
  lemma {:induction false} SplitJoin(parts: seq<string>, sep: char)
    requires |parts| >= 1
    requires forall i :: 0 <= i < |parts| ==> sep !in parts[i]
    ensures Split(Join(parts, sep), sep) == parts
    decreases |parts|
  {
    if |parts| == 1 {
      SplitPrefix(parts[0], "", sep);
      assert parts[0] + "" == parts[0];
    } else {
      var rest := parts[1..];
      SplitJoin(rest, sep);
      var tail := [sep] + Join(rest, sep);
      assert Join(parts, sep) == parts[0] + tail;
      assert tail[1..] == Join(rest, sep);
      assert Split(tail, sep) == [""] + rest;
      SplitPrefix(parts[0], tail, sep);
      assert parts[0] + "" == parts[0];
      assert parts == [parts[0]] + rest;
    }
  }

  /** Length of the run of non-space characters at the start of `s`. */
  function TokenLength(s: string): (n: nat)
    ensures n <= |s|
    ensures forall i :: 0 <= i < n ==> !IsSpace(s[i])
    ensures n < |s| ==> IsSpace(s[n])
  {
    if |s| == 0 || IsSpace(s[0]) then 0 else 1 + TokenLength(s[1..])
  }

  /** `s.split()`: the maximal runs of non-space characters, in order;
      leading, trailing and repeated spaces produce no empty tokens. */
  function SplitWhitespace(s: string): (tokens: seq<string>)
    ensures forall i :: 0 <= i < |tokens| ==> tokens[i] != "" && NoSpace(tokens[i])
    decreases |s|
  {
    if |s| == 0 then []
    else if IsSpace(s[0]) then SplitWhitespace(s[1..])
    else
      var n := TokenLength(s);
      [s[..n]] + SplitWhitespace(s[n..])
  }

  lemma {:induction false} TokenLengthPrefix(x: string, y: string)
    requires NoSpace(x)
    requires y == [] || IsSpace(y[0])
    ensures TokenLength(x + y) == |x|
    decreases |x|
  {
    if |x| > 0 {
      assert (x + y)[1..] == x[1..] + y;
      TokenLengthPrefix(x[1..], y);
    } else {
      assert x + y == y;
    }
  }

  /** Splitting on whitespace undoes joining non-empty, space-free tokens
      with single spaces. */
  lemma {:induction false} SplitWhitespaceJoin(tokens: seq<string>)
    requires forall i :: 0 <= i < |tokens| ==> tokens[i] != "" && NoSpace(tokens[i])
    ensures SplitWhitespace(Join(tokens, ' ')) == tokens
    decreases |tokens|
  {
    if |tokens| == 1 {
      var x := tokens[0];
      TokenLengthPrefix(x, "");
      assert x + "" == x;
      assert x[..|x|] == x && x[|x|..] == "";
    } else if |tokens| > 1 {
      var x, rest := tokens[0], tokens[1..];
      var tail := [' '] + Join(rest, ' ');
      var s := x + tail;
      assert Join(tokens, ' ') == s;
      TokenLengthPrefix(x, tail);
      assert s[..|x|] == x && s[|x|..] == tail;
      assert !IsSpace(s[0]);
      assert SplitWhitespace(tail) == SplitWhitespace(Join(rest, ' ')) by {
        assert tail[1..] == Join(rest, ' ');
      }
      SplitWhitespaceJoin(rest);
      assert tokens == [x] + rest;
    }
  }

  /** A run made only of whitespace. */
  predicate AllSpace(s: string) {
    forall i :: 0 <= i < |s| ==> IsSpace(s[i])
  }

  /** `gaps[0] + tokens[0] + gaps[1] + ... + tokens[n-1] + gaps[n]`. */
  function Weave(gaps: seq<string>, tokens: seq<string>): string
    requires |gaps| == |tokens| + 1
    decreases |tokens|
  {
    if tokens == [] then gaps[0] else gaps[0] + tokens[0] + Weave(gaps[1..], tokens[1..])
  }

  /** `s` is `tokens` woven between the runs `gaps`: every run all-space,
      every run between two tokens non-empty, and the first run non-empty
      when `s` starts with whitespace. */
  predicate Woven(s: string, gaps: seq<string>, tokens: seq<string>) {
    && |gaps| == |tokens| + 1
    && (forall i :: 0 <= i < |gaps| ==> AllSpace(gaps[i]))
    && (forall i :: 0 < i < |gaps| - 1 ==> gaps[i] != "")
    && (s != "" && IsSpace(s[0]) ==> gaps[0] != "")
    && Weave(gaps, tokens) == s
  }

  /** Every string is its whitespace tokens woven between whitespace runs,
      the runs between two tokens being non-empty (and the first run too
      when the string starts with whitespace): the tokens are exactly the
      maximal non-space runs. */
  lemma {:induction false} SplitWhitespaceGaps(s: string) returns (gaps: seq<string>)
    ensures |gaps| == |SplitWhitespace(s)| + 1
    ensures forall i :: 0 <= i < |gaps| ==> AllSpace(gaps[i])
    ensures forall i :: 0 < i < |gaps| - 1 ==> gaps[i] != ""
    ensures s != "" && IsSpace(s[0]) ==> gaps[0] != ""
    ensures Weave(gaps, SplitWhitespace(s)) == s
    decreases |s|
  {
    if |s| == 0 {
      gaps := [""];
    } else if IsSpace(s[0]) {
      var rest := s[1..];
      var g := SplitWhitespaceGaps(rest);
      assert Woven(rest, g, SplitWhitespace(rest));
      assert SplitWhitespace(s) == SplitWhitespace(rest);
      assert s == [s[0]] + rest;
      gaps := [[s[0]] + g[0]] + g[1..];
      WovenSpace(s[0], rest, g, SplitWhitespace(rest));
    } else {
      var n := TokenLength(s);
      var x, rest := s[..n], s[n..];
      var g := SplitWhitespaceGaps(rest);
      assert Woven(rest, g, SplitWhitespace(rest));
      assert SplitWhitespace(s) == [x] + SplitWhitespace(rest);
      assert s == x + rest;
      gaps := [""] + g;
      WovenToken(x, rest, g, SplitWhitespace(rest));
    }
  }

  /** A leading whitespace character joins the first run. */
  lemma WovenSpace(c: char, rest: string, g: seq<string>, tokens: seq<string>)
    requires IsSpace(c) && Woven(rest, g, tokens)
    ensures Woven([c] + rest, [[c] + g[0]] + g[1..], tokens)
  {
    var gaps := [[c] + g[0]] + g[1..];
    assert AllSpace(gaps[0]) by {
      assert forall j :: 1 <= j < |gaps[0]| ==> gaps[0][j] == g[0][j - 1];
    }
    assert forall i :: 1 <= i < |gaps| ==> gaps[i] == g[i];
    assert Weave(gaps, tokens) == [c] + Weave(g, tokens) by {
      assert gaps[1..] == g[1..];
    }
  }

  /** A leading token comes after an empty first run; the run after it is
      non-empty whenever another token follows. */
  lemma WovenToken(x: string, rest: string, g: seq<string>, tokens: seq<string>)
    requires x != "" && !IsSpace(x[0]) && Woven(rest, g, tokens)
    requires rest == "" || IsSpace(rest[0])
    requires tokens != [] ==> rest != ""
    ensures Woven(x + rest, [""] + g, [x] + tokens)
  {
    var gaps := [""] + g;
    assert forall i :: 1 <= i < |gaps| ==> gaps[i] == g[i - 1];
    assert Weave(gaps, [x] + tokens) == x + Weave(g, tokens) by {
      assert gaps[1..] == g;
      assert ([x] + tokens)[1..] == tokens;
    }
  }

  predicate IsSign(c: char) { c == '+' || c == '-' }

  predicate IsDigit(c: char) { '0' <= c <= '9' }

  /** Every character is a decimal digit. */
  predicate AllDigits(s: string) {
    forall i :: 0 <= i < |s| ==> IsDigit(s[i])
  }

  /** Every character is in the ASCII range, so the ASCII codec encodes
      the string. */
  predicate IsAsciiText(s: string) {
    forall i :: 0 <= i < |s| ==> s[i] as int < 0x80
  }

  function Zeros(n: nat): (z: string)
    ensures |z| == n
    ensures forall i :: 0 <= i < n ==> z[i] == '0'
  {
    seq(n, _ => '0')
  }

  /** `s.zfill(width)`: pads with '0' on the left up to `width` characters,
      after a leading sign if there is one; a string already `width` long or
      longer comes back unchanged. */
  function ZFill(s: string, width: nat): (r: string)
    ensures |s| >= width ==> r == s
    ensures |s| < width ==> |r| == width
    ensures |s| < width && (s == "" || !IsSign(s[0])) ==>
              r[width - |s|..] == s && forall i :: 0 <= i < width - |s| ==> r[i] == '0'
    ensures |s| < width && s != "" && IsSign(s[0]) ==>
              r[0] == s[0] && r[width - |s| + 1..] == s[1..] &&
              forall i :: 1 <= i <= width - |s| ==> r[i] == '0'
  {
    if |s| >= width then s
    else if s != "" && IsSign(s[0]) then [s[0]] + Zeros(width - |s|) + s[1..]
    else Zeros(width - |s|) + s
  }

  /** Padding twice is padding once. */
  lemma ZFillIdempotent(s: string, width: nat)
    ensures ZFill(ZFill(s, width), width) == ZFill(s, width)
  {
  }
}
