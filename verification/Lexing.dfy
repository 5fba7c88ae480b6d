/** The formatter on lists of tokens: string literals, single structural characters, and bare
    tokens such as numbers and names, which end at whitespace and at the other two. */
module Lexing {
  import opened Inspector

  // A character that is not blank, and whether it starts a token.
  datatype Mark = Mark(c: char, first: bool)

  // Outside string literals: neither blank nor structural.
  predicate IsBare(c: char) {
    !IsWhitespace(c) && c != '\"' && c != ',' && c != ':' && !IsOpener(c) && !IsCloser(c)
  }

  // `bare`: the text before ends in a bare token that a bare character would continue.
  function Marks(s: string, st: Scan, bare: bool): seq<Mark> {
    if s == [] then []
    else if !st.quoted && IsWhitespace(s[0]) then Marks(s[1..], Next(st, s[0]), false)
    else
      [Mark(s[0], StartsToken(st, s[0], bare))] + Marks(s[1..], Next(st, s[0]), !st.quoted && IsBare(s[0]))
  }

  predicate StartsToken(st: Scan, c: char, bare: bool) {
    !st.quoted && !(IsBare(c) && bare)
  }

  // The characters of each token together.
  function Group(marks: seq<Mark>): (tokens: seq<string>)
    ensures tokens == [] <==> marks == []
  {
    if marks == [] then []
    else
      var rest := Group(marks[1..]);
      if rest == [] || marks[1].first then [[marks[0].c]] + rest else [[marks[0].c] + rest[0]] + rest[1..]
  }

  // The tokens of a text.
  function Lex(s: string): seq<string> {
    Group(Marks(s, START, false))
  }

  // ---------- Tokens determine their marks ----------

  function Plain(text: string): seq<Mark> {
    if text == [] then [] else [Mark(text[0], false)] + Plain(text[1..])
  }

  function Spell(token: string): seq<Mark> {
    if token == [] then [] else [Mark(token[0], true)] + Plain(token[1..])
  }

  function Ungroup(tokens: seq<string>): seq<Mark> {
    if tokens == [] then [] else Spell(tokens[0]) + Ungroup(tokens[1..])
  }

  lemma {:induction false} UngroupGroup(marks: seq<Mark>)
    requires marks != []
    ensures Ungroup(Group(marks)) == marks[0 := Mark(marks[0].c, true)] && Group(marks)[0] != ""
    decreases |marks|
  {
    var c, more := marks[0].c, marks[1..];
    if more == [] {
      assert Group(marks) == [[c]] && [[c]][1..] == [];
    } else {
      UngroupGroup(more);
      var rest := Group(more);
      assert Group(marks) == if more[0].first then [[c]] + rest else [[c] + rest[0]] + rest[1..];
      hide Group;
      if more[0].first {
        assert ([[c]] + rest)[1..] == rest;
      } else {
        Lengthened(c, rest, more);
      }
    }
  }

  // One character in front of the first token.
  lemma Lengthened(c: char, rest: seq<string>, more: seq<Mark>)
    requires rest != [] && rest[0] != "" && more != [] && !more[0].first
    requires Ungroup(rest) == more[0 := Mark(more[0].c, true)]
    ensures Ungroup([[c] + rest[0]] + rest[1..]) == [Mark(c, true)] + more
  {
    var token := [c] + rest[0];
    var longer := [token] + rest[1..];
    var a, plain, others := rest[0][0], Plain(rest[0][1..]), Ungroup(rest[1..]);
    assert longer[1..] == rest[1..] && token[1..] == rest[0];
    assert Ungroup(longer) == Spell(token) + others && Ungroup(rest) == Spell(rest[0]) + others;
    assert Spell(token) == [Mark(c, true)] + ([Mark(a, false)] + plain);
    hide Ungroup, Spell, Plain;
    Glue(c, a, plain, others, more);
  }

  lemma Glue(c: char, a: char, plain: seq<Mark>, others: seq<Mark>, more: seq<Mark>)
    requires more != [] && !more[0].first
    requires ([Mark(a, true)] + plain) + others == more[0 := Mark(more[0].c, true)]
    ensures ([Mark(c, true)] + ([Mark(a, false)] + plain)) + others == [Mark(c, true)] + more
  {
    var whole := ([Mark(a, true)] + plain) + others;
    assert whole[0] == Mark(a, true) && whole[1..] == plain + others == more[1..];
    assert more == [Mark(a, false)] + more[1..];
  }

  lemma GroupInjective(a: seq<Mark>, b: seq<Mark>)
    requires a == [] || a[0].first
    requires b == [] || b[0].first
    ensures Group(a) == Group(b) <==> a == b
  {
    if a == [] || b == [] {
    } else {
      UngroupGroup(a);
      UngroupGroup(b);
      hide Group, Ungroup;
      assert a[0 := Mark(a[0].c, true)] == a && b[0 := Mark(b[0].c, true)] == b;
    }
  }

  // ---------- What formatting keeps ----------

  // The marks when blanks do not end a bare token.
  function Joined(s: string, st: Scan, bare: bool): seq<Mark> {
    if s == [] then []
    else if !st.quoted && IsWhitespace(s[0]) then Joined(s[1..], Next(st, s[0]), bare)
    else
      [Mark(s[0], StartsToken(st, s[0], bare))] + Joined(s[1..], Next(st, s[0]), !st.quoted && IsBare(s[0]))
  }

  // Two bare tokens with nothing but blanks between them; `gap`: blanks came after the last one.
  predicate HasBarePair(s: string, st: Scan, bare: bool, gap: bool) {
    s != [] &&
    if !st.quoted && IsWhitespace(s[0]) then HasBarePair(s[1..], Next(st, s[0]), bare, true)
    else
      || (!st.quoted && IsBare(s[0]) && bare && gap)
      || HasBarePair(s[1..], Next(st, s[0]), !st.quoted && IsBare(s[0]), false)
  }

  lemma {:induction false} JoinedExactly(s: string, st: Scan, bare: bool, gap: bool)
    ensures Marks(s, st, bare && !gap) == Joined(s, st, bare) <==> !HasBarePair(s, st, bare, gap)
    decreases |s|
  {
    if s == [] {
    } else if !st.quoted && IsWhitespace(s[0]) {
      JoinedExactly(s[1..], Next(st, s[0]), bare, true);
    } else {
      JoinedExactly(s[1..], Next(st, s[0]), !st.quoted && IsBare(s[0]), false);
      assert Marks(s, st, bare && !gap)[1..] == Marks(s[1..], Next(st, s[0]), !st.quoted && IsBare(s[0]));
      assert Joined(s, st, bare)[1..] == Joined(s[1..], Next(st, s[0]), !st.quoted && IsBare(s[0]));
    }
  }

  function BareAfter(s: string, st: Scan, bare: bool): bool {
    if s == [] then bare else BareAfter(s[1..], Next(st, s[0]), !st.quoted && IsBare(s[0]))
  }

  lemma {:induction false} MarksIgnoreDepth(s: string, a: Scan, b: Scan, bare: bool)
    requires SameQuoting(a, b)
    ensures Marks(s, a, bare) == Marks(s, b, bare)
    decreases |s|
  {
    if s == [] {
    } else if !a.quoted && IsWhitespace(s[0]) {
      MarksIgnoreDepth(s[1..], Next(a, s[0]), Next(b, s[0]), false);
    } else {
      MarksIgnoreDepth(s[1..], Next(a, s[0]), Next(b, s[0]), !a.quoted && IsBare(s[0]));
    }
  }

  lemma {:induction false} MarksConcat(a: string, b: string, st: Scan, bare: bool)
    ensures Marks(a + b, st, bare) == Marks(a, st, bare) + Marks(b, After(a, st), BareAfter(a, st, bare))
    decreases |a|
  {
    if a == [] {
      assert a + b == b;
    } else {
      assert (a + b)[1..] == a[1..] + b;
      MarksConcat(a[1..], b, Next(st, a[0]), !st.quoted && IsBare(a[0]));
    }
  }

  // Blanks leave no mark, end a bare token and do not move the scanner.
  lemma {:induction false} BlanksLeaveNoMark(s: string, st: Scan, bare: bool)
    requires !st.quoted && forall i | 0 <= i < |s| :: IsWhitespace(s[i])
    ensures Marks(s, st, bare) == [] && After(s, st) == st && BareAfter(s, st, bare) == (s == [] && bare)
    decreases |s|
  {
    if s == [] {
    } else {
      assert IsWhitespace(s[0]);
      BlanksLeaveNoMark(s[1..], st, false);
    }
  }

  lemma {:induction false} IndentBlank(depth: nat)
    ensures forall i | 0 <= i < |Indent(depth)| :: IsWhitespace(Indent(depth)[i])
  {
    if depth == 0 {
    } else {
      IndentBlank(depth - 1);
    }
  }

  lemma OneMark(c: char, st: Scan, bare: bool)
    requires st.quoted || !IsWhitespace(c)
    ensures Marks([c], st, bare) == [Mark(c, StartsToken(st, c, bare))]
    ensures After([c], st) == Next(st, c) && BareAfter([c], st, bare) == (!st.quoted && IsBare(c))
  {
    assert [c][1..] == [];
  }

  // What is written for a character carries the mark of that character and leaves the scanner
  // and the bare token as that character does.
  lemma PieceMarks(st: Scan, c: char, bare: bool)
    ensures Marks(Piece(st, c), st, bare)
         == if !st.quoted && IsWhitespace(c) then [] else [Mark(c, StartsToken(st, c, bare))]
    ensures BareAfter(Piece(st, c), st, bare)
         == if !st.quoted && IsWhitespace(c) then bare else !st.quoted && IsBare(c)
    ensures SameQuoting(After(Piece(st, c), st), Next(st, c))
  {
    if !st.quoted && IsWhitespace(c) {
    } else {
      OneMark(c, st, bare);
      if !st.quoted && (IsOpener(c) || c == ',' || c == ':') {
        Behind(st, c, bare);
      } else if !st.quoted && IsCloser(c) {
        InFront(st, c, bare);
      }
    }
  }

  lemma Behind(st: Scan, c: char, bare: bool)
    requires !st.quoted && (IsOpener(c) || c == ',' || c == ':')
    ensures Marks(Piece(st, c), st, bare) == [Mark(c, true)] && !BareAfter(Piece(st, c), st, bare)
    ensures SameQuoting(After(Piece(st, c), st), Next(st, c))
  {
    var blanks := if c == ':' then " " else "\n" + Indent(if IsOpener(c) then st.depth + 1 else st.depth);
    assert Piece(st, c) == [c] + blanks;
    IndentBlank(if IsOpener(c) then st.depth + 1 else st.depth);
    OneMark(c, st, bare);
    hide Marks, BareAfter, After, Indent;
    BlanksLeaveNoMark(blanks, Next(st, c), false);
    MarksConcat([c], blanks, st, bare);
    BareConcat([c], blanks, st, bare);
    AfterConcat([c], blanks, st);
  }

  lemma InFront(st: Scan, c: char, bare: bool)
    requires !st.quoted && IsCloser(c)
    ensures Marks(Piece(st, c), st, bare) == [Mark(c, true)] && !BareAfter(Piece(st, c), st, bare)
    ensures SameQuoting(After(Piece(st, c), st), Next(st, c))
  {
    var blanks := "\n" + Indent(Dec(st.depth));
    assert Piece(st, c) == blanks + [c];
    IndentBlank(Dec(st.depth));
    hide Marks, BareAfter, After, Indent;
    BlanksLeaveNoMark(blanks, st, bare);
    OneMark(c, st, false);
    MarksConcat(blanks, [c], st, bare);
    BareConcat(blanks, [c], st, bare);
    AfterConcat(blanks, [c], st);
  }

  lemma {:induction false} BareConcat(a: string, b: string, st: Scan, bare: bool)
    ensures BareAfter(a + b, st, bare) == BareAfter(b, After(a, st), BareAfter(a, st, bare))
    decreases |a|
  {
    if a == [] {
      assert a + b == b;
    } else {
      assert (a + b)[1..] == a[1..] + b;
      BareConcat(a[1..], b, Next(st, a[0]), !st.quoted && IsBare(a[0]));
    }
  }

  lemma {:induction false} FormatMarks(s: string, st: Scan, bare: bool)
    ensures Marks(Format(s, st), st, bare) == Joined(s, st, bare)
    decreases |s|
  {
    if s == [] {
    } else {
      var piece, st' := Piece(st, s[0]), Next(st, s[0]);
      var rest := Format(s[1..], st');
      assert Format(s, st) == piece + rest;
      PieceMarks(st, s[0], bare);
      FormatMarks(s[1..], st', BareAfter(piece, st, bare));
      hide Marks, Format, Piece;
      MarksConcat(piece, rest, st, bare);
      MarksIgnoreDepth(rest, After(piece, st), st', BareAfter(piece, st, bare));
    }
  }

  lemma {:induction false} FirstMarks(s: string, st: Scan)
    requires !st.quoted
    ensures Marks(s, st, false) == [] || Marks(s, st, false)[0].first
    ensures Joined(s, st, false) == [] || Joined(s, st, false)[0].first
    decreases |s|
  {
    if s == [] {
    } else if IsWhitespace(s[0]) {
      FirstMarks(s[1..], Next(st, s[0]));
    }
  }

  // The formatter keeps the list of tokens if and only if no two bare tokens stand with nothing
  // but blanks between them; those it joins into one.
  lemma FormatKeepsTokensExactly(s: string)
    ensures Lex(Format(s, START)) == Lex(s) <==> !HasBarePair(s, START, false, false)
  {
    FormatMarks(s, START, false);
    JoinedExactly(s, START, false, false);
    FirstMarks(s, START);
    GroupInjective(Marks(s, START, false), Joined(s, START, false));
  }

  // Such a pair is two numbers, and the formatter makes one number of them.
  lemma BarePairExample()
    ensures HasBarePair("1 2", START, false, false) && Format("1 2", START) == "12"
  {
    var s := "1 2";
    assert s[1..] == " 2" && " 2"[1..] == "2" && "2"[1..] == "";
    assert Format("2", START) == "2" && Format(" 2", START) == "2";
    assert HasBarePair("2", START, true, true) && HasBarePair(" 2", START, true, false);
  }
}
