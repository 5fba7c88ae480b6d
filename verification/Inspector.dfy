/** The number-preserving JSON formatter of the inspector. It rewrites the whitespace
    outside string literals and never touches another character. */
module Inspector {

  // Where the scanner is: bracket depth, inside a string literal, after a backslash.
  datatype Scan = Scan(depth: nat, quoted: bool, escaped: bool)

  const START: Scan := Scan(0, false, false)

  // Unicode White_Space, as the standard library's character test defines it.
  predicate IsWhitespace(c: char) {
    || '\U{0009}' <= c <= '\U{000D}' || c == ' ' || c == '\U{0085}' || c == '\U{00A0}'
    || c == '\U{1680}' || '\U{2000}' <= c <= '\U{200A}' || c == '\U{2028}' || c == '\U{2029}'
    || c == '\U{202F}' || c == '\U{205F}' || c == '\U{3000}'
  }

  // The 25 code points with that property.
  lemma WhitespaceExactly(c: char)
    ensures IsWhitespace(c) <==>
              (c as int) in {9, 10, 11, 12, 13, 32, 133, 160, 5760,
                             8192, 8193, 8194, 8195, 8196, 8197, 8198, 8199, 8200, 8201, 8202,
                             8232, 8233, 8239, 8287, 12288}
  {}

  predicate IsOpener(c: char) {
    c == '{' || c == '['
  }

  predicate IsCloser(c: char) {
    c == '}' || c == ']'
  }

  function Dec(depth: nat): nat {
    if depth == 0 then 0 else depth - 1
  }

  function Indent(depth: nat): string {
    if depth == 0 then "" else "  " + Indent(depth - 1)
  }

  function Next(st: Scan, c: char): Scan {
    if st.quoted then
      if st.escaped then st.(escaped := false)
      else if c == '\\' then st.(escaped := true)
      else if c == '\"' then st.(quoted := false)
      else st
    else if c == '\"' then st.(quoted := true)
    else if IsOpener(c) then st.(depth := st.depth + 1)
    else if IsCloser(c) then st.(depth := Dec(st.depth))
    else st
  }

  // The text written for one character.
  function Piece(st: Scan, c: char): string {
    if st.quoted then [c]
    else if IsOpener(c) then [c] + "\n" + Indent(st.depth + 1)
    else if IsCloser(c) then "\n" + Indent(Dec(st.depth)) + [c]
    else if c == ',' then [c] + "\n" + Indent(st.depth)
    else if c == ':' then ": "
    else if IsWhitespace(c) then ""
    else [c]
  }

  function Format(s: string, st: Scan): string {
    if s == [] then [] else Piece(st, s[0]) + Format(s[1..], Next(st, s[0]))
  }

  // The scanner after a whole text.
  function After(s: string, st: Scan): Scan {
    if s == [] then st else After(s[1..], Next(st, s[0]))
  }

  // The text without the whitespace outside string literals.
  function Solid(s: string, st: Scan): string {
    if s == [] then []
    else (if !st.quoted && IsWhitespace(s[0]) then [] else [s[0]]) + Solid(s[1..], Next(st, s[0]))
  }

  // Which text is solid depends on the quoting state alone.
  predicate SameQuoting(a: Scan, b: Scan) {
    a.quoted == b.quoted && a.escaped == b.escaped
  }

  lemma {:induction false} SolidIgnoresDepth(s: string, a: Scan, b: Scan)
    requires SameQuoting(a, b)
    ensures Solid(s, a) == Solid(s, b)
    decreases |s|
  {
    if s == [] {
    } else {
      SolidIgnoresDepth(s[1..], Next(a, s[0]), Next(b, s[0]));
    }
  }

  lemma {:induction false} SolidConcat(a: string, b: string, st: Scan)
    ensures Solid(a + b, st) == Solid(a, st) + Solid(b, After(a, st))
    decreases |a|
  {
    if a == [] {
      assert a + b == b;
    } else {
      assert (a + b)[1..] == a[1..] + b;
      SolidConcat(a[1..], b, Next(st, a[0]));
    }
  }

  lemma {:induction false} IndentIsBlank(depth: nat, st: Scan)
    requires !st.quoted
    ensures Solid(Indent(depth), st) == [] && After(Indent(depth), st) == st
  {
    if depth == 0 {
    } else {
      IndentIsBlank(depth - 1, st);
      var s := Indent(depth);
      assert s[1..] == " " + Indent(depth - 1);
      assert s[1..][1..] == Indent(depth - 1);
    }
  }

  // A line break with its indentation is blank and does not move the scanner.
  lemma LineBreakIsBlank(depth: nat, st: Scan)
    requires !st.quoted
    ensures Solid("\n" + Indent(depth), st) == [] && After("\n" + Indent(depth), st) == st
  {
    IndentIsBlank(depth, st);
    assert ("\n" + Indent(depth))[1..] == Indent(depth);
  }

  lemma {:induction false} AfterConcat(a: string, b: string, st: Scan)
    ensures After(a + b, st) == After(b, After(a, st))
    decreases |a|
  {
    if a == [] {
      assert a + b == b;
    } else {
      assert (a + b)[1..] == a[1..] + b;
      AfterConcat(a[1..], b, Next(st, a[0]));
    }
  }

  lemma Nothing(st: Scan)
    ensures After("", st) == st && Solid("", st) == ""
  {}

  lemma One(c: char, st: Scan)
    ensures After([c], st) == Next(st, c)
    ensures Solid([c], st) == if !st.quoted && IsWhitespace(c) then [] else [c]
  {
    assert [c][1..] == [];
  }

  // What is written for a character is that character, if it is solid, in the same state.
  lemma PieceSolid(st: Scan, c: char)
    ensures Solid(Piece(st, c), st) == Solid([c], st)
    ensures SameQuoting(After(Piece(st, c), st), Next(st, c))
  {
    One(c, st);
    Nothing(st);
    hide Solid, After, Indent;
    if !st.quoted {
      if IsOpener(c) {
        var line := "\n" + Indent(st.depth + 1);
        LineBreakIsBlank(st.depth + 1, Next(st, c));
        SolidConcat([c], line, st);
        AfterConcat([c], line, st);
        assert Piece(st, c) == [c] + line;
      } else if IsCloser(c) {
        var line := "\n" + Indent(Dec(st.depth));
        LineBreakIsBlank(Dec(st.depth), st);
        SolidConcat(line, [c], st);
        AfterConcat(line, [c], st);
      } else if c == ',' {
        var line := "\n" + Indent(st.depth);
        LineBreakIsBlank(st.depth, st);
        SolidConcat([c], line, st);
        AfterConcat([c], line, st);
        assert Piece(st, c) == [c] + line;
      } else if c == ':' {
        One(' ', st);
        assert ":" == [c];
        SolidConcat(":", " ", st);
        AfterConcat(":", " ", st);
        assert ": " == ":" + " ";
      }
    }
  }

  // Formatting keeps every solid character: each literal, digit and escape, in order.
  lemma {:induction false} FormatKeepsSolid(s: string, st: Scan)
    ensures Solid(Format(s, st), st) == Solid(s, st)
    decreases |s|
  {
    if s == [] {
    } else {
      var piece, more, next := Piece(st, s[0]), Format(s[1..], Next(st, s[0])), Next(st, s[0]);
      SolidConcat(piece, more, st);
      PieceSolid(st, s[0]);
      SolidIgnoresDepth(more, After(piece, st), next);
      FormatKeepsSolid(s[1..], next);
      One(s[0], st);
    }
  }

  // Formatting depends on the solid text alone.
  lemma {:induction false} FormatOfSolid(s: string, st: Scan)
    ensures Format(Solid(s, st), st) == Format(s, st)
    decreases |s|
  {
    if s == [] {
    } else {
      FormatOfSolid(s[1..], Next(st, s[0]));
      if st.quoted || !IsWhitespace(s[0]) {
        assert Solid(s, st)[1..] == Solid(s[1..], Next(st, s[0]));
      } else {
        assert Piece(st, s[0]) == "" && Next(st, s[0]) == st;
        assert Solid(s, st) == Solid(s[1..], st) && Format(s, st) == Format(s[1..], st);
      }
    }
  }

  // Two texts format alike exactly when their solid texts are the same.
  lemma FormatIsCanonical(s: string, t: string)
    ensures Format(s, START) == Format(t, START) <==> Solid(s, START) == Solid(t, START)
  {
    FormatKeepsSolid(s, START);
    FormatKeepsSolid(t, START);
    FormatOfSolid(s, START);
    FormatOfSolid(t, START);
  }

  // A formatted text is left as it is.
  lemma FormatIdempotent(s: string)
    ensures Format(Format(s, START), START) == Format(s, START)
  {
    FormatKeepsSolid(s, START);
    FormatIsCanonical(Format(s, START), s);
  }

  lemma {:induction false} FormatSnoc(s: string, c: char, st: Scan)
    ensures Format(s + [c], st) == Format(s, st) + Piece(After(s, st), c)
    ensures After(s + [c], st) == Next(After(s, st), c)
    decreases |s|
  {
    if s == [] {
      assert s + [c] == [c] && [c][1..] == [];
    } else {
      assert (s + [c])[1..] == s[1..] + [c];
      FormatSnoc(s[1..], c, Next(st, s[0]));
    }
  }

  function Blanks(n: nat): string {
    seq(n, _ => ' ')
  }

  lemma {:induction false} IndentIs(depth: nat)
    ensures Indent(depth) == Blanks(2 * depth)
  {
    if depth == 0 {
    } else {
      IndentIs(depth - 1);
    }
  }

  // The number of backslashes that end the text.
  function Backslashes(s: string): nat {
    if s == [] || s[|s| - 1] != '\\' then 0 else 1 + Backslashes(s[..|s| - 1])
  }

  // A character in a literal is escaped exactly if an odd number of backslashes stands before it.
  lemma {:induction false} EscapedExactly(s: string)
    ensures After(s, START).escaped <==> After(s, START).quoted && Backslashes(s) % 2 == 1
    decreases |s|
  {
    if s == [] {
    } else {
      var before, c := s[..|s| - 1], s[|s| - 1];
      assert s == before + [c];
      EscapedExactly(before);
      FormatSnoc(before, c, START);
      EscapedStep(After(before, START), c, Backslashes(before));
      hide After, Next, Format;
    }
  }

  lemma EscapedStep(st: Scan, c: char, backslashes: nat)
    requires st.escaped <==> st.quoted && backslashes % 2 == 1
    ensures var after := Next(st, c);
            after.escaped <==> after.quoted && (if c == '\\' then 1 + backslashes else 0) % 2 == 1
  {}

  // A quotation mark begins a literal or, unless it is escaped, ends one, and nothing else does.
  lemma QuotedExactly(s: string, c: char)
    ensures After(s + [c], START).quoted ==
              if c == '\"' && !(After(s, START).quoted && Backslashes(s) % 2 == 1)
              then !After(s, START).quoted else After(s, START).quoted
  {
    FormatSnoc(s, c, START);
    EscapedExactly(s);
  }

  // What each character adds to the text written so far: inside a literal itself; outside, a
  // bracket that opens and a comma end their line, a bracket that closes begins one, each line is
  // indented by two blanks for every bracket that is open then, a colon is followed by one blank,
  // whitespace adds nothing and anything else itself.
  lemma Layout(s: string, i: nat)
    requires i < |s|
    ensures var st := After(s[..i], START);
            var before, c := Format(s[..i], START), s[i];
            Format(s[..i + 1], START) == before +
              if st.quoted then [c]
              else if c == '{' || c == '[' then [c] + "\n" + Blanks(2 * (st.depth + 1))
              else if c == '}' || c == ']' then "\n" + Blanks(if st.depth == 0 then 0 else 2 * (st.depth - 1)) + [c]
              else if c == ',' then [c] + "\n" + Blanks(2 * st.depth)
              else if c == ':' then [c] + " "
              else if IsWhitespace(c) then "" else [c]
  {
    assert s[..i + 1] == s[..i] + [s[i]];
    FormatSnoc(s[..i], s[i], START);
    var st := After(s[..i], START);
    IndentIs(st.depth);
    IndentIs(st.depth + 1);
    IndentIs(Dec(st.depth));
    assert s[i] == ':' ==> ": " == [s[i]] + " ";
    hide Format, After, Indent;
  }

  // Brackets that opened outside literals, less those that closed.
  function OpenBrackets(s: string, st: Scan): int {
    if s == [] then 0
    else (if st.quoted then 0
          else if s[0] == '{' || s[0] == '[' then 1
          else if s[0] == '}' || s[0] == ']' then -1 else 0)
         + OpenBrackets(s[1..], Next(st, s[0]))
  }

  // The scanner's depth is the number of open brackets, unless more closed than opened before.
  lemma {:induction false} DepthCounts(s: string, st: Scan)
    requires forall i | 0 <= i <= |s| :: st.depth + OpenBrackets(s[..i], st) >= 0
    ensures After(s, st).depth == st.depth + OpenBrackets(s, st)
    decreases |s|
  {
    if s == [] {
    } else {
      var next := Next(st, s[0]);
      FirstBracket(s, st, 1);
      forall i | 0 <= i <= |s[1..]| ensures next.depth + OpenBrackets(s[1..][..i], next) >= 0 {
        FirstBracket(s, st, i + 1);
        assert s[..i + 1][1..] == s[1..][..i];
      }
      DepthCounts(s[1..], next);
    }
  }

  lemma FirstBracket(s: string, st: Scan, i: nat)
    requires 0 < i <= |s|
    ensures OpenBrackets(s[..i], st) == OpenBrackets(s[..1], st) + OpenBrackets(s[..i][1..], Next(st, s[0]))
    ensures st.depth + OpenBrackets(s[..1], st) >= 0 ==>
              Next(st, s[0]).depth == st.depth + OpenBrackets(s[..1], st)
  {
    assert s[..1][1..] == [] && s[..i][0] == s[0];
  }

  method PrettyPreservingNumbers(input: string) returns (out: string)
    ensures out == Format(input, START)
    ensures Solid(out, START) == Solid(input, START)
  {
    out := "";
    var depth: nat := 0;
    var quoted, escaped := false, false;
    for i := 0 to |input|
      invariant Scan(depth, quoted, escaped) == After(input[..i], START)
      invariant out == Format(input[..i], START)
    {
      hide Format, After, Indent;
      var c := input[i];
      ghost var st := After(input[..i], START);
      assert input[..i + 1] == input[..i] + [c];
      FormatSnoc(input[..i], c, START);
      if quoted {
        out := out + [c];
        if escaped {
          escaped := false;
        } else if c == '\\' {
          escaped := true;
        } else if c == '\"' {
          quoted := false;
        }
      } else if c == '\"' {
        quoted := true;
        out := out + [c];
      } else if c == '{' || c == '[' {
        depth := depth + 1;
        out := out + ([c] + "\n" + Indent(depth));
      } else if c == '}' || c == ']' {
        depth := if depth > 0 then depth - 1 else 0;
        out := out + ("\n" + Indent(depth) + [c]);
      } else if c == ',' {
        out := out + ([c] + "\n" + Indent(depth));
      } else if c == ':' {
        out := out + ": ";
      } else if IsWhitespace(c) {
        assert out + "" == out;
      } else {
        out := out + [c];
      }
    }
    assert input[..|input|] == input;
    FormatKeepsSolid(input, START);
  }
}
