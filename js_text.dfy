/** The JavaScript string built-ins that `dedent` is assembled from:
    the `\s` character class, the pattern `^\s*`, `trim`, `split("\n")`,
    `join("\n")`, `" ".repeat(n)` and `startsWith`. */
module JsText {

  /** A character matched by `\s` and removed by `String.prototype.trim`:
      the WhiteSpace and LineTerminator code points of ECMAScript
      (tab, vertical tab, form feed, space, no-break space, byte order
      mark, the Space_Separator category, LF, CR, LS and PS). */
  predicate IsWs(c: char) {
    c == '\t' || c == '\n' || c == '\U{B}' || c == '\U{C}' || c == '\r'
    || c == ' ' || c == '\U{A0}' || c == '\U{1680}'
    || ('\U{2000}' <= c <= '\U{200A}')
    || c == '\U{2028}' || c == '\U{2029}' || c == '\U{202F}'
    || c == '\U{205F}' || c == '\U{3000}' || c == '\U{FEFF}'
  }

  /** Every character of `s` is whitespace. */
  predicate AllWs(s: string) {
    forall i :: 0 <= i < |s| ==> IsWs(s[i])
  }

  lemma {:induction false} AllWsConcat(a: string, b: string)
    ensures AllWs(a + b) <==> AllWs(a) && AllWs(b)
  {
    if AllWs(a) && AllWs(b) {
      forall i | 0 <= i < |a + b| ensures IsWs((a + b)[i]) {
        if i >= |a| { assert (a + b)[i] == b[i - |a|]; }
      }
    }
    if AllWs(a + b) {
      forall i | 0 <= i < |a| ensures IsWs(a[i]) {
        assert (a + b)[i] == a[i];
      }
      forall i | 0 <= i < |b| ensures IsWs(b[i]) {
        assert (a + b)[|a| + i] == b[i];
      }
    }
  }

  /** Length of the match of the pattern `^\s*`: the number of leading whitespace
      characters, which is the whole string when it is all whitespace. */
  function LeadingWs(s: string): (n: nat)
    ensures n <= |s|
    ensures AllWs(s[..n])
    ensures n < |s| ==> !IsWs(s[n])
  {
    if s == [] || !IsWs(s[0]) then 0
    else
      var k := LeadingWs(s[1..]);
      assert s[..1 + k] == [s[0]] + s[1..][..k];
      1 + k
  }

  /** `String.prototype.trimStart`: `s` without its leading whitespace. */
  function TrimStart(s: string): (r: string)
    ensures |r| <= |s| && r == s[|s| - |r|..]
    ensures AllWs(s[..|s| - |r|])
    ensures r != [] ==> !IsWs(r[0])
  {
    if s != [] && IsWs(s[0]) then
      var t := s[1..];
      var r := TrimStart(t);
      assert s[..|s| - |r|] == [s[0]] + t[..|t| - |r|];
      AllWsConcat([s[0]], t[..|t| - |r|]);
      r
    else s
  }

  /** `String.prototype.trimEnd`: `s` without its trailing whitespace. */
  function TrimEnd(s: string): (r: string)
    ensures |r| <= |s| && r == s[..|r|]
    ensures AllWs(s[|r|..])
    ensures r != [] ==> !IsWs(r[|r| - 1])
  {
    if s != [] && IsWs(s[|s| - 1]) then
      var init := s[..|s| - 1];
      var r := TrimEnd(init);
      assert s[|r|..] == init[|r|..] + [s[|s| - 1]];
      r
    else s
  }

  /** `String.prototype.trim`: `s` with its leading and its trailing
      whitespace removed, the rest kept verbatim. The result is empty
      exactly for an all-whitespace string and otherwise starts and ends
      with a non-whitespace character. */
  function Trim(s: string): (r: string)
    ensures r == [] <==> AllWs(s)
    ensures r != [] ==> !IsWs(r[0]) && !IsWs(r[|r| - 1])
  {
    var t := TrimStart(s);
    var r := TrimEnd(t);
    assert r == [] ==> AllWs(s) by {
      if r == [] {
        assert s == s[..|s| - |t|] + t;
        assert t == t[|r|..];
        AllWsConcat(s[..|s| - |t|], t);
      }
    }
    assert r != [] ==> r[0] == t[0];
    r
  }

  /** Leading whitespace in front of non-whitespace (or nothing) is exactly
      what `trimStart` removes. */
  lemma {:induction false} TrimStartOfPrefix(a: string, m: string)
    requires AllWs(a) && (m == [] || !IsWs(m[0]))
    ensures TrimStart(a + m) == m
  {
    if a == [] {
      assert a + m == m;
    } else {
      assert (a + m)[0] == a[0] && (a + m)[1..] == a[1..] + m;
      TrimStartOfPrefix(a[1..], m);
    }
  }

  lemma {:induction false} TrimEndOfSuffix(m: string, b: string)
    requires AllWs(b) && (m == [] || !IsWs(m[|m| - 1]))
    ensures TrimEnd(m + b) == m
  {
    if b == [] {
      assert m + b == m;
    } else {
      var s := m + b;
      assert s[|s| - 1] == b[|b| - 1] && s[..|s| - 1] == m + b[..|b| - 1];
      TrimEndOfSuffix(m, b[..|b| - 1]);
    }
  }

  /** Trim removes exactly the surrounding whitespace: text without
      surrounding whitespace is recovered from any whitespace around it. */
  lemma {:induction false} TrimSurrounded(a: string, m: string, b: string)
    requires AllWs(a) && AllWs(b)
    requires m == [] || (!IsWs(m[0]) && !IsWs(m[|m| - 1]))
    ensures Trim(a + m + b) == m
  {
    if m == [] {
      AllWsConcat(a, b);
      assert a + m + b == a + b;
    } else {
      assert a + m + b == a + (m + b);
      TrimStartOfPrefix(a, m + b);
      TrimEndOfSuffix(m, b);
    }
  }

  /** A string without surrounding whitespace is its own trim. */
  lemma {:induction false} TrimOfTrimmed(s: string)
    requires s == [] || (!IsWs(s[0]) && !IsWs(s[|s| - 1]))
    ensures Trim(s) == s
  {
    assert [] + s + [] == s;
    TrimSurrounded([], s, []);
  }

  /** Trimming twice is trimming once. */
  lemma {:induction false} TrimIdempotent(s: string)
    ensures Trim(Trim(s)) == Trim(s)
  {
    TrimOfTrimmed(Trim(s));
  }

  /** `"".split("\n")` is `[""]`, every separator adds one more piece,
      and no piece holds a separator. */
  function Split(s: string): (r: seq<string>)
    ensures |r| >= 1
    ensures forall i :: 0 <= i < |r| ==> '\n' !in r[i]
  {
    if s == [] then [[]]
    else
      var rest := Split(s[1..]);
      if s[0] == '\n' then [[]] + rest
      else [[s[0]] + rest[0]] + rest[1..]
  }

  /** `lines.join("\n")`: the lines with one separator between neighbours. */
  function Join(lines: seq<string>): (r: string)
    ensures |lines| == 0 ==> r == ""
    ensures |lines| == 1 ==> r == lines[0]
  {
    if |lines| == 0 then []
    else if |lines| == 1 then lines[0]
    else lines[0] + "\n" + Join(lines[1..])
  }

  /** A join starts with the first line, ends with the last line, and has
      a separator right after the first line when there is a second. */
  lemma {:induction false} JoinEnds(lines: seq<string>)
    requires |lines| > 0
    ensures StartsWith(Join(lines), lines[0])
    ensures EndsWith(Join(lines), lines[|lines| - 1])
    ensures |lines| > 1 ==> |lines[0]| < |Join(lines)| && Join(lines)[|lines[0]|] == '\n'
  {
    if |lines| > 1 {
      var rest := Join(lines[1..]);
      JoinEnds(lines[1..]);
      var r := lines[0] + "\n" + rest;
      assert Join(lines) == r;
      assert r[..|lines[0]|] == lines[0];
      assert r[|r| - |rest|..] == rest;
    }
  }

  /** Joining the pieces of a split gives back the string. */
  lemma {:induction false} JoinSplit(s: string)
    ensures Join(Split(s)) == s
  {
    if s != [] {
      var rest := Split(s[1..]);
      JoinSplit(s[1..]);
      if s[0] == '\n' {
        assert Split(s) == [[]] + rest;
        assert ([[]] + rest)[1..] == rest;
      } else {
        var r := [[s[0]] + rest[0]] + rest[1..];
        assert Split(s) == r;
        if |rest| > 1 {
          assert r[1..] == rest[1..];
          assert Join(rest) == rest[0] + "\n" + Join(rest[1..]);
        }
      }
    }
  }

  /** A string without a separator splits to itself, and a separator
      after it starts the next piece. */
  lemma {:induction false} SplitAfterLine(w: string, t: string)
    requires '\n' !in w
    ensures Split(w) == [w]
    ensures Split(w + "\n" + t) == [w] + Split(t)
  {
    if w != [] {
      SplitAfterLine(w[1..], t);
      assert w[0] != '\n' && [w[0]] + w[1..] == w;
      assert (w + "\n" + t)[1..] == w[1..] + "\n" + t;
    } else {
      assert w + "\n" + t == "\n" + t;
      assert ("\n" + t)[1..] == t;
    }
  }

  /** Splitting the join of separator-free lines gives back the lines. */
  lemma {:induction false} SplitJoin(lines: seq<string>)
    requires |lines| >= 1
    requires forall i :: 0 <= i < |lines| ==> '\n' !in lines[i]
    ensures Split(Join(lines)) == lines
  {
    if |lines| == 1 {
      SplitAfterLine(lines[0], []);
    } else {
      var rest := lines[1..];
      assert forall i :: 0 <= i < |rest| ==> rest[i] == lines[i + 1];
      SplitJoin(rest);
      SplitAfterLine(lines[0], Join(rest));
      assert Join(lines) == lines[0] + "\n" + Join(rest);
      assert [lines[0]] + rest == lines;
    }
  }

  /** The join is all whitespace exactly when every line is (the
      separator itself being whitespace). */
  lemma {:induction false} AllWsJoin(lines: seq<string>)
    ensures AllWs(Join(lines)) <==> forall i :: 0 <= i < |lines| ==> AllWs(lines[i])
  {
    if |lines| > 1 {
      AllWsJoin(lines[1..]);
      AllWsConcat(lines[0] + "\n", Join(lines[1..]));
      AllWsConcat(lines[0], "\n");
      forall i | 0 <= i < |lines[1..]| ensures lines[1..][i] == lines[i + 1] { }
    }
  }

  /** `" ".repeat(n)`. */
  function Spaces(n: nat): (r: string)
    ensures |r| == n
    ensures forall i :: 0 <= i < n ==> r[i] == ' '
  {
    seq(n, _ => ' ')
  }

  /** `s.startsWith(prefix)`: the first `|prefix|` characters of `s` are
      those of `prefix`. */
  predicate StartsWith(s: string, prefix: string)
    ensures StartsWith(s, prefix) <==> |prefix| <= |s| && s[..|prefix|] == prefix
  {
    prefix <= s
  }

  /** `s.endsWith(suffix)`. */
  predicate EndsWith(s: string, suffix: string) {
    |suffix| <= |s| && s[|s| - |suffix|..] == suffix
  }
}
