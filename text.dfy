/**
 * The few pieces of Rust's `str` API that the parsers rely on, written over
 * `string` (a sequence of Unicode scalar values): whitespace, `trim`,
 * `split_whitespace`, `split`, `lines`, `contains`, `starts_with`,
 * integer parsing with `from_str_radix`, ASCII lower-casing and `join`.
 * Together with two search helpers over sequences (first and last element
 * satisfying a predicate), which the discovery heuristics are built from.
 */
module Text {
  import opened Wrappers

  // ------------------------------------------------------------------
  // Searching sequences
  // ------------------------------------------------------------------

  /** Index of the first element satisfying `p`, or `|xs|` if none does. */
  function FirstMatch<T>(xs: seq<T>, p: T -> bool): (k: nat)
    ensures k <= |xs|
    ensures forall j :: 0 <= j < k ==> !p(xs[j])
    ensures k < |xs| ==> p(xs[k])
    decreases |xs|
  {
    if xs == [] then 0
    else if p(xs[0]) then 0
    else 1 + FirstMatch(xs[1..], p)
  }

  /** Index of the last element satisfying `p`, or `|xs|` if none does. */
  function LastMatch<T>(xs: seq<T>, p: T -> bool): (k: nat)
    ensures k <= |xs|
    ensures k < |xs| ==> p(xs[k]) && forall j :: k < j < |xs| ==> !p(xs[j])
    ensures k == |xs| ==> forall j :: 0 <= j < |xs| ==> !p(xs[j])
    decreases |xs|
  {
    if xs == [] then 0
    else if p(xs[|xs| - 1]) then |xs| - 1
    else
      var k := LastMatch(xs[..|xs| - 1], p);
      if k == |xs| - 1 then |xs| else k
  }

  /** Searching a longer sequence from the front finds the same element, if the shorter one has it. */
  lemma {:induction false} FirstMatchSnoc<T>(xs: seq<T>, x: T, p: T -> bool)
    ensures FirstMatch(xs + [x], p) == if FirstMatch(xs, p) < |xs| then FirstMatch(xs, p) else if p(x) then |xs| else |xs| + 1
    decreases |xs|
  {
    if xs == [] {
      assert [x][1..] == [];
    } else {
      FirstMatchSnoc(xs[1..], x, p);
      assert (xs + [x])[1..] == xs[1..] + [x];
    }
  }

  /**
   * The values `f` yields for the elements of `xs`, in order, skipping the
   * elements for which it yields nothing (Rust's `filter_map`).
   */
  function FilterMap<A, B>(xs: seq<A>, f: A -> Option<B>): (ys: seq<B>)
    ensures |ys| <= |xs|
    decreases |xs|
  {
    if xs == [] then []
    else
      FilterMap(xs[..|xs| - 1], f)
      + match f(xs[|xs| - 1])
        case Some(y) => [y]
        case None => []
  }

  lemma {:induction false} FilterMapAppend<A, B>(xs: seq<A>, ys: seq<A>, f: A -> Option<B>)
    ensures FilterMap(xs + ys, f) == FilterMap(xs, f) + FilterMap(ys, f)
    decreases |ys|
  {
    if ys != [] {
      assert (xs + ys)[..|xs + ys| - 1] == xs + ys[..|ys| - 1];
      FilterMapAppend(xs, ys[..|ys| - 1], f);
      assert (xs + ys)[|xs + ys| - 1] == ys[|ys| - 1];
    } else {
      assert xs + ys == xs;
    }
  }

  /** One element yields what `f` gives for it, if anything. */
  lemma FilterMapSingleton<A, B>(x: A, f: A -> Option<B>)
    ensures FilterMap([x], f) == match f(x) case Some(y) => [y] case None => []
  {
    assert [x][..0] == [];
  }

  // ------------------------------------------------------------------
  // Whitespace, trimming and tokens
  // ------------------------------------------------------------------

  /** Rust's `char::is_whitespace`: the Unicode White_Space property. */
  predicate IsWhitespace(c: char) {
    || ('\t' <= c <= '\r')
    || c == ' '
    || c == '\U{85}'
    || c == '\U{A0}'
    || c == '\U{1680}'
    || ('\U{2000}' <= c <= '\U{200A}')
    || c == '\U{2028}'
    || c == '\U{2029}'
    || c == '\U{202F}'
    || c == '\U{205F}'
    || c == '\U{3000}'
  }

  predicate AllWhitespace(s: string) {
    forall i :: 0 <= i < |s| ==> IsWhitespace(s[i])
  }

  predicate NoWhitespace(s: string) {
    forall i :: 0 <= i < |s| ==> !IsWhitespace(s[i])
  }

  /** Number of whitespace characters at the front of `s`. */
  function LeadingWhitespace(s: string): (k: nat)
    ensures k <= |s|
    ensures AllWhitespace(s[..k])
    ensures k < |s| ==> !IsWhitespace(s[k])
    decreases |s|
  {
    if s == [] || !IsWhitespace(s[0]) then 0
    else
      var k := 1 + LeadingWhitespace(s[1..]);
      assert forall i :: 1 <= i < k ==> s[..k][i] == s[1..][..k - 1][i - 1];
      k
  }

  /** Number of whitespace characters at the back of `s`. */
  function TrailingWhitespace(s: string): (k: nat)
    ensures k <= |s|
    ensures AllWhitespace(s[|s| - k..])
    ensures k < |s| ==> !IsWhitespace(s[|s| - 1 - k])
    decreases |s|
  {
    if s == [] || !IsWhitespace(s[|s| - 1]) then 0
    else
      var k := 1 + TrailingWhitespace(s[..|s| - 1]);
      assert forall i :: |s| - k <= i < |s| - 1 ==> s[i] == s[..|s| - 1][i];
      k
  }

  /** `str::trim`: `s` without its leading and trailing whitespace. */
  function Trim(s: string): (r: string)
    ensures r == [] <==> AllWhitespace(s)
    ensures r != [] ==> !IsWhitespace(r[0]) && !IsWhitespace(r[|r| - 1])
  {
    var a := LeadingWhitespace(s);
    var t := s[a..];
    var b := TrailingWhitespace(t);
    assert AllWhitespace(s) ==> a == |s|;
    assert a == |s| ==> AllWhitespace(s) by {
      if a == |s| { assert s[..a] == s; }
    }
    t[..|t| - b]
  }

  /** Length of the run of non-whitespace characters at the front of `s`. */
  function TokenLength(s: string): (k: nat)
    ensures k <= |s|
    ensures NoWhitespace(s[..k])
    ensures k < |s| ==> IsWhitespace(s[k])
    ensures s != [] && !IsWhitespace(s[0]) ==> k > 0
    decreases |s|
  {
    if s == [] || IsWhitespace(s[0]) then 0
    else
      var k := 1 + TokenLength(s[1..]);
      assert forall i :: 1 <= i < k ==> s[..k][i] == s[1..][..k - 1][i - 1];
      k
  }

  /** `str::split_whitespace`: the maximal runs of non-whitespace characters, in order. */
  function Words(s: string): (ws: seq<string>)
    ensures forall i :: 0 <= i < |ws| ==> ws[i] != [] && NoWhitespace(ws[i])
    ensures s != [] && !IsWhitespace(s[0]) ==> ws != [] && ws[0] == s[..TokenLength(s)]
    decreases |s|
  {
    if s == [] then []
    else if IsWhitespace(s[0]) then Words(s[1..])
    else
      var k := TokenLength(s);
      [s[..k]] + Words(s[k..])
  }

  /** A run of whitespace contributes no token. */
  lemma {:induction false} WordsSkip(s: string, i: nat, j: nat)
    requires i <= j <= |s|
    requires AllWhitespace(s[i..j])
    ensures Words(s[i..]) == Words(s[j..])
    decreases j - i
  {
    if i < j {
      assert s[i..j][0] == s[i];
      assert s[i..][1..] == s[i + 1..];
      WordsSkip(s, i + 1, j);
    }
  }

  /** A maximal run of non-whitespace characters is the next token. */
  lemma WordsToken(s: string, i: nat, j: nat)
    requires i < j <= |s|
    requires NoWhitespace(s[i..j])
    requires j == |s| || IsWhitespace(s[j])
    ensures Words(s[i..]) == [s[i..j]] + Words(s[j..])
  {
    var t := s[i..];
    assert t[0] == s[i..j][0];
    var k := TokenLength(t);
    assert forall m :: 0 <= m < j - i ==> t[m] == s[i..j][m];
    assert j < |s| ==> t[j - i] == s[j];
    assert k == j - i;
    assert t[..k] == s[i..j];
    assert t[k..] == s[j..];
  }

  /** Whitespace in front of a string adds no token. */
  lemma WordsBlankPrefix(w: string, rest: string)
    requires AllWhitespace(w)
    ensures Words(w + rest) == Words(rest)
  {
    assert (w + rest)[0..|w|] == w;
    WordsSkip(w + rest, 0, |w|);
    assert (w + rest)[|w|..] == rest;
    assert (w + rest)[0..] == w + rest;
  }

  /** A token in front of whitespace (or of nothing) is the first token. */
  lemma WordsTokenPrefix(w: string, rest: string)
    requires w != [] && NoWhitespace(w)
    requires rest == [] || IsWhitespace(rest[0])
    ensures Words(w + rest) == [w] + Words(rest)
  {
    assert (w + rest)[0..|w|] == w;
    WordsToken(w + rest, 0, |w|);
    assert (w + rest)[|w|..] == rest;
    assert (w + rest)[0..] == w + rest;
  }

  /** Whitespace after a string adds no token. */
  lemma {:induction false} WordsBlankSuffix(s: string, w: string)
    requires AllWhitespace(w)
    ensures Words(s + w) == Words(s)
    decreases |s|, 1
  {
    if s == [] {
      assert s + w == w;
      WordsOfBlank(w);
    } else if IsWhitespace(s[0]) {
      WordsBlankSuffix(s[1..], w);
      assert (s + w)[0] == s[0] && (s + w)[1..] == s[1..] + w;
      assert Words(s + w) == Words(s[1..] + w);
    } else {
      WordsBlankSuffixToken(s, w);
    }
  }

  /** The case of `WordsBlankSuffix` where `s` starts with a token. */
  lemma {:induction false} WordsBlankSuffixToken(s: string, w: string)
    requires AllWhitespace(w) && s != [] && !IsWhitespace(s[0])
    ensures Words(s + w) == Words(s)
    decreases |s|, 0
  {
    var k := TokenLength(s);
    var tok := s[..k];
    assert s == tok + s[k..];
    assert s + w == tok + (s[k..] + w);
    if k == |s| {
      assert tok == s && tok + [] == s;
      WordsTokenPrefix(tok, []);
      WordsTokenPrefix(tok, w);
      WordsOfBlank(w);
    } else {
      WordsBlankSuffix(s[k..], w);
      WordsTokenPrefix(tok, s[k..] + w);
    }
  }

  /** Trimming does not change the tokens (`trim` before `split_whitespace` is harmless). */
  lemma WordsTrim(s: string)
    ensures Words(Trim(s)) == Words(s)
  {
    var t := s[LeadingWhitespace(s)..];
    WordsDropLeading(s);
    WordsDropTrailing(t);
  }

  lemma WordsDropLeading(s: string)
    ensures Words(s[LeadingWhitespace(s)..]) == Words(s)
  {
    var a := LeadingWhitespace(s);
    assert s == s[..a] + s[a..];
    WordsBlankPrefix(s[..a], s[a..]);
  }

  lemma WordsDropTrailing(t: string)
    ensures Words(t[..|t| - TrailingWhitespace(t)]) == Words(t)
  {
    var n := |t| - TrailingWhitespace(t);
    assert t == t[..n] + t[n..];
    WordsBlankSuffix(t[..n], t[n..]);
  }

  /** A blank string has no tokens. */
  lemma WordsOfBlank(s: string)
    requires AllWhitespace(s)
    ensures Words(s) == []
  {
    WordsBlankPrefix(s, []);
    assert s + [] == s;
  }

  /** `n` spaces. */
  function Spaces(n: nat): (r: string)
    ensures |r| == n && AllWhitespace(r)
  {
    seq(n, _ => ' ')
  }

  /** Tokens laid out in a row, `gaps[i]` spaces before `tokens[i]`. */
  function Spaced(gaps: seq<nat>, tokens: seq<string>): string
    requires |gaps| == |tokens|
    decreases |tokens|
  {
    if tokens == [] then [] else Spaces(gaps[0]) + tokens[0] + Spaced(gaps[1..], tokens[1..])
  }

  /** Laying tokens out in a row and splitting at whitespace gives the tokens back. */
  lemma {:induction false} WordsSpaced(gaps: seq<nat>, tokens: seq<string>)
    requires |gaps| == |tokens|
    requires forall i :: 0 <= i < |tokens| ==> tokens[i] != [] && NoWhitespace(tokens[i])
    requires forall i :: 1 <= i < |gaps| ==> gaps[i] > 0
    ensures Words(Spaced(gaps, tokens)) == tokens
    decreases |tokens|
  {
    if tokens != [] {
      var rest := Spaced(gaps[1..], tokens[1..]);
      WordsSpaced(gaps[1..], tokens[1..]);
      SpacedHead(gaps[1..], tokens[1..]);
      WordsTokenPrefix(tokens[0], rest);
      WordsBlankPrefix(Spaces(gaps[0]), tokens[0] + rest);
      assert Spaced(gaps, tokens) == Spaces(gaps[0]) + (tokens[0] + rest);
      assert [tokens[0]] + tokens[1..] == tokens;
    }
  }

  /** A row whose first gap is not empty starts with whitespace. */
  lemma SpacedHead(gaps: seq<nat>, tokens: seq<string>)
    requires |gaps| == |tokens|
    requires |gaps| > 0 ==> gaps[0] > 0
    ensures Spaced(gaps, tokens) == [] || IsWhitespace(Spaced(gaps, tokens)[0])
  {
    if tokens != [] {
      assert Spaced(gaps, tokens) == Spaces(gaps[0]) + (tokens[0] + Spaced(gaps[1..], tokens[1..]));
      assert Spaced(gaps, tokens)[0] == Spaces(gaps[0])[0];
    }
  }

  /** `str::trim_end_matches(c)`: `s` without any trailing copies of `c`. */
  function TrimEndMatches(s: string, c: char): (r: string)
    ensures r <= s
    ensures r == [] || r[|r| - 1] != c
    ensures forall i :: |r| <= i < |s| ==> s[i] == c
    decreases |s|
  {
    if s != [] && s[|s| - 1] == c then TrimEndMatches(s[..|s| - 1], c) else s
  }

  /** One trailing `c` after a string not ending in `c` is all that is trimmed. */
  lemma TrimEndMatchesOne(w: string, c: char)
    requires w == [] || w[|w| - 1] != c
    ensures TrimEndMatches(w + [c], c) == w
  {
    assert (w + [c])[..|w|] == w;
  }

  // ------------------------------------------------------------------
  // Splitting
  // ------------------------------------------------------------------

  /**
   * `str::split` on a set of separator characters: the pieces between
   * separators, empty pieces included, so there is always one more piece
   * than there are separators.
   */
  function SplitAny(s: string, seps: set<char>): (parts: seq<string>)
    ensures |parts| >= 1
    ensures forall i, j :: 0 <= i < |parts| && 0 <= j < |parts[i]| ==> parts[i][j] !in seps
    decreases |s|
  {
    if s == [] then [[]]
    else if s[0] in seps then [[]] + SplitAny(s[1..], seps)
    else
      var rest := SplitAny(s[1..], seps);
      [[s[0]] + rest[0]] + rest[1..]
  }

  /** `str::split(c)` for one separator character. */
  function Split(s: string, sep: char): (parts: seq<string>)
    ensures |parts| >= 1
  {
    SplitAny(s, {sep})
  }

  /** Splitting a string that holds no separator gives the string itself. */
  lemma {:induction false} SplitNoSeparator(s: string, sep: char)
    requires sep !in s
    ensures Split(s, sep) == [s]
    decreases |s|
  {
    if s != [] {
      SplitNoSeparator(s[1..], sep);
      assert [s[0]] + s[1..] == s;
    }
  }

  /** The first separator ends the first piece; the rest is split on its own. */
  lemma {:induction false} SplitAtSeparator(a: string, b: string, sep: char)
    requires sep !in a
    ensures Split(a + [sep] + b, sep) == [a] + Split(b, sep)
    decreases |a|
  {
    if a == [] {
      assert a + [sep] + b == [sep] + b;
      assert ([sep] + b)[1..] == b;
    } else {
      SplitAtSeparator(a[1..], b, sep);
      assert (a + [sep] + b)[1..] == a[1..] + [sep] + b;
      assert [a[0]] + a[1..] == a;
    }
  }

  /** Joining pieces free of the separator and splitting again gives the pieces back. */
  lemma {:induction false} SplitJoin(parts: seq<string>, sep: char)
    requires |parts| >= 1
    requires forall i :: 0 <= i < |parts| ==> sep !in parts[i]
    ensures Split(Join(parts, [sep]), sep) == parts
    decreases |parts|
  {
    if |parts| == 1 {
      SplitNoSeparator(parts[0], sep);
    } else {
      SplitJoin(parts[1..], sep);
      SplitAtSeparator(parts[0], Join(parts[1..], [sep]), sep);
      assert [parts[0]] + parts[1..] == parts;
    }
  }

  /** Index of the first `c` in `s`, or `|s|` if there is none. */
  function IndexOf(s: string, c: char): (k: nat)
    ensures k <= |s|
    ensures c !in s[..k]
    ensures k < |s| ==> s[k] == c
    decreases |s|
  {
    if s == [] || s[0] == c then 0
    else
      var k := 1 + IndexOf(s[1..], c);
      assert s[..k] == [s[0]] + s[1..][..k - 1];
      k
  }

  /** Drops one carriage return at the end of a line. */
  function StripCarriageReturn(line: string): string {
    if line != [] && line[|line| - 1] == '\r' then line[..|line| - 1] else line
  }

  /**
   * `str::lines`: pieces ended by `\n` or `\r\n`; the last line needs no
   * terminator, and a final terminator does not start an empty line.
   */
  function Lines(s: string): (ls: seq<string>)
    ensures ls == [] <==> s == []
    decreases |s|
  {
    if s == [] then []
    else
      var k := IndexOf(s, '\n');
      if k == |s| then [s]
      else [StripCarriageReturn(s[..k])] + Lines(s[k + 1..])
  }

  /**
   * `lines` undoes joining with `\n`: pieces without a line feed, none but
   * the last ending in a carriage return, and a non-empty last piece.
   */
  lemma {:induction false} LinesJoin(ls: seq<string>)
    requires ls != [] && ls[|ls| - 1] != []
    requires forall i :: 0 <= i < |ls| ==> '\n' !in ls[i]
    requires forall i :: 0 <= i < |ls| - 1 ==> ls[i] == [] || ls[i][|ls[i]| - 1] != '\r'
    ensures Lines(Join(ls, "\n")) == ls
    decreases |ls|
  {
    var s := Join(ls, "\n");
    if |ls| == 1 {
      assert s == ls[0];
      assert IndexOf(s, '\n') == |s|;
    } else {
      var rest := ls[1..];
      var t := Join(rest, "\n");
      assert s == ls[0] + "\n" + t;
      var n := |ls[0]|;
      assert s[n] == '\n';
      assert s[..n] == ls[0];
      var k := IndexOf(s, '\n');
      assert forall m :: 0 <= m < n ==> s[m] == ls[0][m];
      assert k == n;
      assert s[k + 1..] == t;
      assert StripCarriageReturn(ls[0]) == ls[0];
      assert forall i :: 0 <= i < |rest| ==> rest[i] == ls[i + 1];
      LinesJoin(rest);
      assert [ls[0]] + rest == ls;
    }
  }

  // ------------------------------------------------------------------
  // Substrings and prefixes
  // ------------------------------------------------------------------

  /** `str::contains` for a string pattern. */
  predicate Contains(s: string, pat: string)
    decreases |s|
  {
    pat <= s || (s != [] && Contains(s[1..], pat))
  }

  /** A pattern holding a character that `s` lacks does not occur in `s`. */
  lemma {:induction false} NotContains(s: string, pat: string, c: char)
    requires c in pat && c !in s
    ensures !Contains(s, pat)
    decreases |s|
  {
    if s != [] {
      NotContains(s[1..], pat, c);
    }
  }

  /** `str::strip_prefix` */
  function StripPrefix(s: string, prefix: string): (r: Option<string>)
    ensures r.Some? <==> prefix <= s
    ensures r.Some? ==> prefix + r.value == s
  {
    if prefix <= s then Some(s[|prefix|..]) else None
  }

  // ------------------------------------------------------------------
  // Case
  // ------------------------------------------------------------------

  function AsciiLowerChar(c: char): char {
    if 'A' <= c <= 'Z' then (c as int + 32) as char else c
  }

  /** `str::to_lowercase`, restricted to the ASCII letters. */
  function AsciiLower(s: string): (r: string)
    ensures |r| == |s|
    ensures forall i :: 0 <= i < |s| ==> r[i] == AsciiLowerChar(s[i])
  {
    seq(|s|, i requires 0 <= i < |s| => AsciiLowerChar(s[i]))
  }

  // ------------------------------------------------------------------
  // Numbers
  // ------------------------------------------------------------------

  /** The value of one digit in base `radix` (10 or 16; hex digits in either case). */
  function DigitValue(c: char, radix: nat): (r: Option<nat>)
    ensures r.Some? ==> r.value < radix
  {
    if '0' <= c <= '9' && (c as int - '0' as int) < radix then Some(c as int - '0' as int)
    else if radix == 16 && 'a' <= c <= 'f' then Some(c as int - 'a' as int + 10)
    else if radix == 16 && 'A' <= c <= 'F' then Some(c as int - 'A' as int + 10)
    else None
  }

  /**
   * The digit loop of `from_str_radix`: each digit multiplies the value so
   * far by the radix and adds itself; a character that is not a digit, or
   * a value reaching `bound` (a checked multiply or add failing), is an error.
   */
  function Accumulate(s: string, radix: nat, bound: nat, acc: nat): (r: Option<nat>)
    requires acc < bound
    ensures r.Some? ==> r.value < bound
    ensures r.Some? && s != [] ==> DigitValue(s[0], radix).Some?
    decreases |s|
  {
    if s == [] then Some(acc)
    else
      match DigitValue(s[0], radix)
      case None => None
      case Some(d) => if acc * radix + d >= bound then None else Accumulate(s[1..], radix, bound, acc * radix + d)
  }

  /**
   * `from_str_radix` of an unsigned Rust integer type whose values are below
   * `bound`: an optional `+`, at least one digit, and no overflow.
   */
  function ParseUnsigned(s: string, radix: nat, bound: nat): (r: Option<nat>)
    ensures r.Some? ==> r.value < bound
    ensures r.Some? ==> s != [] && (s[0] == '+' || DigitValue(s[0], radix).Some?)
  {
    var digits := if s != [] && s[0] == '+' then s[1..] else s;
    if digits == [] || bound == 0 then None else Accumulate(digits, radix, bound, 0)
  }

  /** One more digit at the end: the value so far times the radix, plus the digit, if that still fits. */
  lemma {:induction false} AccumulateSnoc(s: string, c: char, radix: nat, bound: nat, acc: nat)
    requires acc < bound
    ensures Accumulate(s + [c], radix, bound, acc)
         == match Accumulate(s, radix, bound, acc)
            case None => None
            case Some(v) =>
              match DigitValue(c, radix)
              case None => None
              case Some(d) => if v * radix + d >= bound then None else Some(v * radix + d)
    decreases |s|
  {
    if s == [] {
      assert [] + [c] == [c];
      assert [c][1..] == [];
    } else {
      assert (s + [c])[0] == s[0];
      assert (s + [c])[1..] == s[1..] + [c];
      match DigitValue(s[0], radix)
      case None =>
      case Some(d) =>
        if acc * radix + d < bound {
          AccumulateSnoc(s[1..], c, radix, bound, acc * radix + d);
        }
    }
  }

  /** The decimal digit of `d`. */
  function DecimalDigit(d: nat): (c: char)
    requires d < 10
    ensures DigitValue(c, 10) == Some(d)
  {
    ('0' as int + d) as char
  }

  /** `n.to_string()`: `n` in decimal, without leading zeros. */
  function Decimal(n: nat): (s: string)
    ensures s != [] && DigitValue(s[0], 10).Some?
    decreases n
  {
    if n < 10 then [DecimalDigit(n)] else Decimal(n / 10) + [DecimalDigit(n % 10)]
  }

  /** Parsing a number written in decimal gives the number back, whenever it fits. */
  lemma {:induction false} DecimalRoundTrip(n: nat, bound: nat)
    requires n < bound
    ensures ParseUnsigned(Decimal(n), 10, bound) == Some(n)
    decreases n
  {
    var s := Decimal(n);
    assert s[0] != '+';
    if n < 10 {
      assert s == [DecimalDigit(n)];
      assert DigitValue(s[0], 10) == Some(n);
      assert s[1..] == [];
      assert Accumulate(s, 10, bound, 0) == Accumulate([], 10, bound, n);
    } else {
      DecimalRoundTrip(n / 10, bound);
      var p := Decimal(n / 10);
      assert p[0] != '+';
      AccumulateSnoc(p, DecimalDigit(n % 10), 10, bound, 0);
    }
  }

  // ------------------------------------------------------------------
  // Joining
  // ------------------------------------------------------------------

  /** `[String]::join(sep)` */
  function Join(parts: seq<string>, sep: string): string
    decreases |parts|
  {
    if parts == [] then []
    else if |parts| == 1 then parts[0]
    else parts[0] + sep + Join(parts[1..], sep)
  }
}
