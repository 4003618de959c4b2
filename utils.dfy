/** The `dedent` template tag: it assembles a template literal, removes the
    indentation that its non-blank lines share, and trims the result. */
module Utils {
  import opened Wrappers
  import opened JsText

  // ---------------------------------------------------------------------
  // Template assembly
  // ---------------------------------------------------------------------

  /** `values[i] ?? ""`: the i-th interpolated value, empty when it is
      nullish or when there is no value at that position. */
  function ValueText(values: seq<Option<string>>, i: nat): (r: string)
    ensures i < |values| && values[i].Some? ==> r == values[i].value
    ensures i >= |values| || values[i].None? ==> r == ""
  {
    if i < |values| then values[i].GetOr("") else ""
  }

  /** The left fold over the template pieces: after piece i comes value i.
      The fold starts from "" and only ever appends, so the text begins
      with the first piece and every partial fold is a prefix of it. */
  function Assemble(pieces: seq<string>, values: seq<Option<string>>): (r: string)
    ensures pieces == [] ==> r == ""
    ensures pieces != [] ==> pieces[0] <= r
    ensures forall k :: 0 <= k <= |pieces| ==> Assemble(pieces[..k], values) <= r
  {
    if pieces == [] then ""
    else
      var n := |pieces| - 1;
      var init := pieces[..n];
      var r := Assemble(init, values) + pieces[n] + ValueText(values, n);
      assert pieces[..|pieces|] == pieces;
      assert forall k :: 0 <= k <= n ==> pieces[..k] == init[..k];
      assert n > 0 ==> init[0] == pieces[0];
      r
  }

  /** Reference reading of the assembled text, from the front: piece k,
      value k, piece k + 1, value k + 1, and so on to the last piece. */
  function Chunks(pieces: seq<string>, values: seq<Option<string>>, k: nat): string
    requires k <= |pieces|
    decreases |pieces| - k
  {
    if k == |pieces| then ""
    else pieces[k] + ValueText(values, k) + Chunks(pieces, values, k + 1)
  }

  lemma {:induction false} AssemblePrefix(pieces: seq<string>, values: seq<Option<string>>, k: nat)
    requires k <= |pieces|
    ensures Assemble(pieces[..k], values) + Chunks(pieces, values, k) == Chunks(pieces, values, 0)
  {
    if k > 0 {
      AssemblePrefix(pieces, values, k - 1);
      assert pieces[..k][..k - 1] == pieces[..k - 1];
    }
  }

  /** The fold produces s0 + v0 + s1 + v1 + ... read from the front. */
  lemma {:induction false} AssembleIsChunks(pieces: seq<string>, values: seq<Option<string>>)
    ensures Assemble(pieces, values) == Chunks(pieces, values, 0)
  {
    AssemblePrefix(pieces, values, |pieces|);
    assert pieces[..|pieces|] == pieces;
  }

  /** In a template call there is one value fewer than pieces, so the
      last piece is followed by nothing. */
  lemma {:induction false} TemplateEndsWithPiece(pieces: seq<string>, values: seq<Option<string>>)
    requires |pieces| == |values| + 1
    ensures Assemble(pieces, values) == Assemble(pieces[..|values|], values) + pieces[|values|]
  {
  }

  /** A template without interpolations is its one piece. */
  lemma {:induction false} AssembleSingle(s: string)
    ensures Assemble([s], []) == s
  {
    assert [s][..0] == [];
  }

  // ---------------------------------------------------------------------
  // Lines and their indentation
  // ---------------------------------------------------------------------

  /** `line.trim() === ""`: a line is blank exactly when it is empty or
      whitespace only. */
  predicate IsBlank(line: string)
    ensures IsBlank(line) <==> AllWs(line)
  {
    Trim(line) == ""
  }

  /** `lines.filter((line) => line.trim() !== "")`. */
  function NonBlank(lines: seq<string>): (r: seq<string>)
    ensures |r| <= |lines|
    ensures forall l :: l in r <==> l in lines && !AllWs(l)
  {
    if lines == [] then []
    else
      assert lines == [lines[0]] + lines[1..];
      (if IsBlank(lines[0]) then [] else [lines[0]]) + NonBlank(lines[1..])
  }

  /** `Math.min` over the lengths of the `^\s*` matches of a non-empty
      list of lines: the least leading-whitespace width, which some line
      has. */
  function IndentSize(lines: seq<string>): (n: nat)
    requires |lines| > 0
    ensures forall l :: l in lines ==> n <= LeadingWs(l)
    ensures exists l :: l in lines && n == LeadingWs(l)
  {
    if |lines| == 1 then LeadingWs(lines[0])
    else
      assert lines == [lines[0]] + lines[1..];
      var m := IndentSize(lines[1..]);
      if LeadingWs(lines[0]) <= m then LeadingWs(lines[0]) else m
  }

  /** The line starts with `n` literal spaces. */
  predicate HasSpaceIndent(line: string, n: nat) {
    n <= |line| && forall k :: 0 <= k < n ==> line[k] == ' '
  }

  /** `line.startsWith(" ".repeat(n)) ? line.slice(n) : line`. */
  function StripLine(line: string, n: nat): (r: string)
    ensures HasSpaceIndent(line, n) ==> line == Spaces(n) + r
    ensures !HasSpaceIndent(line, n) ==> r == line
  {
    assert HasSpaceIndent(line, n) <==> StartsWith(line, Spaces(n)) by {
      if HasSpaceIndent(line, n) { assert line[..n] == Spaces(n); }
    }
    if StartsWith(line, Spaces(n)) then line[n..] else line
  }

  /** `lines.map(...)` with `StripLine`: one output line per input line. */
  function StripAll(lines: seq<string>, n: nat): (r: seq<string>)
    ensures |r| == |lines|
    ensures forall i :: 0 <= i < |lines| ==> r[i] == StripLine(lines[i], n)
  {
    seq(|lines|, i requires 0 <= i < |lines| => StripLine(lines[i], n))
  }

  /** Indentation beyond the common space prefix survives: a stripped line
      is the rest of the original after exactly `n` characters, and its own
      leading whitespace is `n` narrower. */
  lemma {:induction false} StripKeepsDeeperIndent(line: string, n: nat)
    requires HasSpaceIndent(line, n)
    ensures StripLine(line, n) == line[n..]
    ensures LeadingWs(StripLine(line, n)) == LeadingWs(line) - n
  {
    var r := StripLine(line, n);
    assert line == Spaces(n) + r;
    LeadingWsAfterSpaces(n, r);
  }

  lemma {:induction false} LeadingWsAfterSpaces(n: nat, r: string)
    ensures LeadingWs(Spaces(n) + r) == n + LeadingWs(r)
  {
    if n > 0 {
      LeadingWsAfterSpaces(n - 1, r);
      var x := Spaces(n) + r;
      assert x[0] == ' ' && x[1..] == Spaces(n - 1) + r;
      assert LeadingWs(x) == 1 + LeadingWs(x[1..]);
    } else {
      assert Spaces(n) + r == r;
    }
  }

  /** Stripping spaces never empties a line of its non-blank content. */
  lemma {:induction false} StripKeepsContent(line: string, n: nat)
    requires !AllWs(line)
    ensures !AllWs(StripLine(line, n))
  {
    if HasSpaceIndent(line, n) {
      AllWsConcat(Spaces(n), StripLine(line, n));
    }
  }

  /** A zero indent leaves every line as it is. */
  lemma {:induction false} StripAllZero(lines: seq<string>)
    ensures StripAll(lines, 0) == lines
  {
    forall i | 0 <= i < |lines| ensures StripAll(lines, 0)[i] == lines[i] {
      assert HasSpaceIndent(lines[i], 0);
      assert Spaces(0) + StripLine(lines[i], 0) == StripLine(lines[i], 0);
    }
  }

  // ---------------------------------------------------------------------
  // dedent
  // ---------------------------------------------------------------------

  /** Everything after assembly: split on "\n", measure the indent of the
      non-blank lines, strip it, join and trim. The result never begins or
      ends with whitespace. */
  function DedentText(raw: string): (r: string)
    ensures r == [] || (!IsWs(r[0]) && !IsWs(r[|r| - 1]))
  {
    var lines := Split(raw);
    var nonBlank := NonBlank(lines);
    if |nonBlank| == 0 then ""
    else Trim(Join(StripAll(lines, IndentSize(nonBlank))))
  }

  /** `dedent(strings, ...values)`. */
  function Dedent(pieces: seq<string>, values: seq<Option<string>>): (r: string)
    ensures r == [] || (!IsWs(r[0]) && !IsWs(r[|r| - 1]))
  {
    DedentText(Assemble(pieces, values))
  }

  /** When every line is empty or whitespace only, the result is empty. */
  lemma {:induction false} DedentAllBlank(raw: string)
    requires forall i :: 0 <= i < |Split(raw)| ==> AllWs(Split(raw)[i])
    ensures DedentText(raw) == ""
  {
    var lines := Split(raw);
    if |NonBlank(lines)| > 0 {
      assert NonBlank(lines)[0] in NonBlank(lines);
    }
  }

  /** The assembled text is whitespace only exactly when each of its
      lines is. */
  lemma {:induction false} AllWsIffLinesAllWs(raw: string)
    ensures AllWs(raw) <==> forall i :: 0 <= i < |Split(raw)| ==> AllWs(Split(raw)[i])
  {
    JoinSplit(raw);
    AllWsJoin(Split(raw));
  }

  /** Stripping keeps a line with content, so the joined stripped lines
      are not whitespace only. */
  lemma {:induction false} StrippedNotAllWs(lines: seq<string>, l: string, n: nat)
    requires l in lines && !AllWs(l)
    ensures !AllWs(Join(StripAll(lines, n)))
  {
    var i :| 0 <= i < |lines| && lines[i] == l;
    var out := StripAll(lines, n);
    StripKeepsContent(l, n);
    assert out[i] == StripLine(l, n);
    AllWsJoin(out);
  }

  /** A text with a non-blank line is not whitespace only, and neither is
      its dedent. */
  lemma {:induction false} DedentOfContent(raw: string, l: string)
    requires l in Split(raw) && !AllWs(l)
    ensures !AllWs(raw) && DedentText(raw) != []
  {
    var lines := Split(raw);
    var i :| 0 <= i < |lines| && lines[i] == l;
    assert !AllWs(raw) by {
      AllWsIffLinesAllWs(raw);
      assert !AllWs(lines[i]);
    }
    var nonBlank := NonBlank(lines);
    assert l in nonBlank;
    var n := IndentSize(nonBlank);
    assert DedentText(raw) == Trim(Join(StripAll(lines, n)));
    StrippedNotAllWs(lines, l, n);
  }

  /** The result is empty exactly when the assembled text is whitespace
      only. */
  lemma {:induction false} DedentEmptyIff(raw: string)
    ensures DedentText(raw) == [] <==> AllWs(raw)
  {
    var lines := Split(raw);
    var nonBlank := NonBlank(lines);
    if |nonBlank| > 0 {
      var l := nonBlank[0];
      assert l in lines && !AllWs(l) by {
        assert l in nonBlank;
      }
      DedentOfContent(raw, l);
    } else {
      assert DedentText(raw) == [];
      assert AllWs(raw) by {
        forall j | 0 <= j < |lines| ensures AllWs(lines[j]) {
          assert lines[j] in lines;
        }
        AllWsIffLinesAllWs(raw);
      }
    }
  }

  /** The stripped width is the least leading-whitespace width over the
      non-blank lines: no non-blank line has less, one has exactly that. */
  lemma {:induction false} DedentIndentIsMinimum(raw: string, l: string)
    requires l in Split(raw) && !AllWs(l)
    ensures |NonBlank(Split(raw))| > 0
    ensures IndentSize(NonBlank(Split(raw))) <= LeadingWs(l)
    ensures exists m :: m in Split(raw) && !AllWs(m)
              && IndentSize(NonBlank(Split(raw))) == LeadingWs(m)
  {
    assert l in NonBlank(Split(raw));
  }

  /** With a non-blank line that starts in the first column nothing is
      stripped, and dedent is a plain trim of the text. */
  lemma {:induction false} DedentUnindented(raw: string, l: string)
    requires l in Split(raw) && !AllWs(l) && LeadingWs(l) == 0
    ensures DedentText(raw) == Trim(raw)
  {
    var lines := Split(raw);
    assert l in NonBlank(lines);
    assert IndentSize(NonBlank(lines)) == 0;
    StripAllZero(lines);
    JoinSplit(raw);
  }

  lemma {:induction false} SplitFirstChar(s: string)
    requires s != [] && s[0] != '\n'
    ensures Split(s)[0] != [] && Split(s)[0][0] == s[0]
  {
  }

  /** A text without surrounding whitespace is its own dedent: its first
      line is non-blank and starts in the first column, so nothing is
      stripped and the final trim removes nothing. */
  lemma {:induction false} DedentTextOfTrimmed(t: string)
    requires t == [] || (!IsWs(t[0]) && !IsWs(t[|t| - 1]))
    ensures DedentText(t) == t
  {
    if t == [] {
      assert Split(t) == [[]];
      assert NonBlank(Split(t)) == [];
    } else {
      SplitFirstChar(t);
      var l := Split(t)[0];
      assert l in Split(t);
      assert !AllWs(l);
      assert LeadingWs(l) == 0;
      DedentUnindented(t, l);
      TrimOfTrimmed(t);
    }
  }

  /** Dedenting the output of dedent, as a template of one piece, gives
      it back unchanged. */
  lemma {:induction false} DedentIdempotent(pieces: seq<string>, values: seq<Option<string>>)
    ensures Dedent([Dedent(pieces, values)], []) == Dedent(pieces, values)
  {
    var t := Dedent(pieces, values);
    AssembleSingle(t);
    DedentTextOfTrimmed(t);
  }

  lemma {:induction false} NoNewlineInSpaces(n: nat)
    ensures '\n' !in Spaces(n)
  {
  }

  /** The line structure of the template shape below. */
  function TabShapeLines(n: nat, m: nat, head: string, field: string): seq<string>
  {
    ["", Spaces(n) + head, Spaces(n) + ("\t" + field), Spaces(m)]
  }

  lemma {:induction false} TabShapeSplit(n: nat, m: nat, head: string, field: string)
    requires '\n' !in head && '\n' !in field
    ensures Split("\n" + Spaces(n) + head + "\n" + Spaces(n) + "\t" + field + "\n" + Spaces(m))
         == TabShapeLines(n, m, head, field)
  {
    var l1 := Spaces(n) + head;
    var l2 := Spaces(n) + ("\t" + field);
    var t2 := l2 + "\n" + Spaces(m);
    var t1 := l1 + "\n" + t2;
    assert "\n" + Spaces(n) + head == "\n" + l1;
    assert "\n" + l1 + "\n" + Spaces(n) + "\t" + field == "\n" + l1 + "\n" + l2;
    assert "\n" + l1 + "\n" + l2 + "\n" + Spaces(m) == [] + "\n" + t1;
    NoNewlineInSpaces(n);
    NoNewlineInSpaces(m);
    SplitAfterLine(l2, Spaces(m));
    SplitAfterLine(Spaces(m), []);
    SplitAfterLine(l1, t2);
    SplitAfterLine([], t1);
  }

  /** A line of width `n` that no other line undercuts fixes the indent. */
  lemma {:induction false} IndentSizeIs(lines: seq<string>, l: string, n: nat)
    requires l in lines && LeadingWs(l) == n
    requires forall x :: x in lines ==> n <= LeadingWs(x)
    ensures IndentSize(lines) == n
  {
  }

  lemma {:induction false} TabShapeIndent(n: nat, m: nat, head: string, field: string)
    requires head != [] && !IsWs(head[0])
    requires field != [] && !IsWs(field[|field| - 1])
    ensures |NonBlank(TabShapeLines(n, m, head, field))| > 0
    ensures IndentSize(NonBlank(TabShapeLines(n, m, head, field))) == n
  {
    var lines := TabShapeLines(n, m, head, field);
    var nonBlank := NonBlank(lines);
    var l1 := lines[1];
    assert l1 in nonBlank by {
      assert l1 in lines;
      assert l1[n] == head[0];
    }
    assert AllWs(lines[0]) && AllWs(lines[3]) by {
      AllWsSpaces(m);
    }
    assert LeadingWs(l1) == n by {
      LeadingWsAfterSpaces(n, head);
    }
    assert n <= LeadingWs(lines[2]) by {
      LeadingWsAfterSpaces(n, "\t" + field);
    }
    forall x | x in nonBlank ensures n <= LeadingWs(x) {
      assert x in lines && !AllWs(x);
      assert x == lines[1] || x == lines[2];
    }
    IndentSizeIs(nonBlank, l1, n);
  }

  /** The closing line, stripped or not, stays whitespace only. */
  lemma {:induction false} StripSpacesLine(m: nat, n: nat)
    ensures AllWs(StripLine(Spaces(m), n))
  {
    AllWsSpaces(m);
    if HasSpaceIndent(Spaces(m), n) {
      AllWsConcat(Spaces(n), StripLine(Spaces(m), n));
    }
  }

  lemma {:induction false} TabShapeStrip(n: nat, m: nat, head: string, field: string)
    ensures StripAll(TabShapeLines(n, m, head, field), n)
         == ["", head, "\t" + field, StripLine(Spaces(m), n)]
  {
    var lines := TabShapeLines(n, m, head, field);
    var out := StripAll(lines, n);
    assert out[0] == "" by {
      assert lines[0] == "";
    }
    assert out[1] == head by {
      StripKeepsDeeperIndent(lines[1], n);
      assert lines[1][n..] == head;
    }
    assert out[2] == "\t" + field by {
      StripKeepsDeeperIndent(lines[2], n);
      assert lines[2][n..] == "\t" + field;
    }
  }

  lemma {:induction false} AllWsSpaces(n: nat)
    ensures AllWs(Spaces(n))
  {
  }

  lemma {:induction false} TabShapeDedentText(n: nat, m: nat, head: string, field: string)
    requires head != [] && !IsWs(head[0]) && '\n' !in head
    requires field != [] && !IsWs(field[|field| - 1]) && '\n' !in field
    ensures DedentText("\n" + Spaces(n) + head + "\n" + Spaces(n) + "\t" + field + "\n" + Spaces(m))
         == Trim(Join(["", head, "\t" + field, StripLine(Spaces(m), n)]))
  {
    TabShapeSplit(n, m, head, field);
    TabShapeIndent(n, m, head, field);
    TabShapeStrip(n, m, head, field);
  }

  lemma {:induction false} JoinFour(a: string, b: string, c: string, d: string)
    ensures Join([a, b, c, d]) == a + "\n" + (b + "\n" + c) + ("\n" + d)
  {
    assert [c, d][1..] == [d];
    assert Join([c, d]) == c + "\n" + d;
    assert [b, c, d][1..] == [c, d];
    assert Join([b, c, d]) == b + "\n" + (c + "\n" + d);
    assert [a, b, c, d][1..] == [b, c, d];
    assert Join([a, b, c, d]) == a + "\n" + (b + "\n" + (c + "\n" + d));
  }

  lemma {:induction false} TabShapeTrim(head: string, field: string, tail: string)
    requires head != [] && !IsWs(head[0])
    requires field != [] && !IsWs(field[|field| - 1])
    requires AllWs(tail)
    ensures Trim(Join(["", head, "\t" + field, tail])) == head + "\n\t" + field
  {
    var body := head + "\n\t" + field;
    assert Join(["", head, "\t" + field, tail]) == "\n" + body + ("\n" + tail) by {
      JoinFour("", head, "\t" + field, tail);
      assert head + "\n" + ("\t" + field) == body;
      assert "" + "\n" == "\n";
    }
    assert Trim("\n" + body + ("\n" + tail)) == body by {
      assert AllWs("\n" + tail) by {
        AllWsConcat("\n", tail);
      }
      assert body[0] == head[0] && body[|body| - 1] == field[|field| - 1];
      TrimSurrounded("\n", body, "\n" + tail);
    }
  }

  /** The shape of a template indented with spaces whose body lines are
      nested with a tab: a line break after the opening backtick, a header
      line and a field line behind `n` common spaces, the field line with a
      tab after them, and a closing line of `m` spaces. The common spaces go,
      the tab stays. */
  lemma {:induction false} DedentKeepsTabAfterCommonSpaces(n: nat, m: nat, head: string, field: string)
    requires head != [] && !IsWs(head[0]) && '\n' !in head
    requires field != [] && !IsWs(field[|field| - 1]) && '\n' !in field
    ensures Dedent(["\n" + Spaces(n) + head + "\n" + Spaces(n) + "\t" + field + "\n" + Spaces(m)], [])
         == head + "\n\t" + field
  {
    AssembleSingle("\n" + Spaces(n) + head + "\n" + Spaces(n) + "\t" + field + "\n" + Spaces(m));
    TabShapeDedentText(n, m, head, field);
    StripSpacesLine(m, n);
    TabShapeTrim(head, field, StripLine(Spaces(m), n));
  }
}
