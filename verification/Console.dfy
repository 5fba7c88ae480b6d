/** The bounded console buffer of one compile or edit operation. */
module Console {
  import opened Wrappers

  const MAX_LINES: nat := 2000

  datatype Stream = Stdout | Stderr | Info

  datatype Line = Line(stream: Stream, text: string)

  // The pieces between the line feeds.
  function Split(text: string): (pieces: seq<string>)
    ensures pieces != []
  {
    if text == [] then [""]
    else
      var rest := Split(text[1..]);
      if text[0] == '\n' then [""] + rest else [[text[0]] + rest[0]] + rest[1..]
  }

  function Join(pieces: seq<string>): string
    requires pieces != []
  {
    if |pieces| == 1 then pieces[0] else pieces[0] + "\n" + Join(pieces[1..])
  }

  function TrimEnd(text: string): string {
    if text != [] && text[|text| - 1] == '\r' then TrimEnd(text[..|text| - 1]) else text
  }

  function Lines(stream: Stream, text: string): seq<Line> {
    var pieces := Split(text);
    seq(|pieces|, i requires 0 <= i < |pieces| => Line(stream, TrimEnd(pieces[i])))
  }

  function Header(title: string): string {
    "\U{2500}\U{2500} " + title + " \U{2500}\U{2500}"
  }

  function Last<T>(s: seq<T>, n: nat): (t: seq<T>)
    ensures |t| == if |s| <= n then |s| else n
  {
    if |s| <= n then s else s[|s| - n..]
  }

  // Splitting loses nothing and leaves no line feed behind.
  lemma {:induction false} SplitExactly(text: string)
    ensures Join(Split(text)) == text
    ensures forall i | 0 <= i < |Split(text)| :: '\n' !in Split(text)[i]
  {
    if text == [] {
    } else {
      SplitExactly(text[1..]);
      var rest := Split(text[1..]);
      if text[0] == '\n' {
        assert ([""] + rest)[1..] == rest;
        assert text == "\n" + text[1..];
      } else {
        var pieces := [[text[0]] + rest[0]] + rest[1..];
        assert pieces[1..] == rest[1..];
        assert text == [text[0]] + text[1..];
        if |rest| > 1 {
          assert [text[0]] + (rest[0] + "\n" + Join(rest[1..])) == ([text[0]] + rest[0]) + "\n" + Join(rest[1..]);
        }
      }
    }
  }

  // Only carriage returns at the end go.
  lemma {:induction false} TrimsExactly(text: string)
    ensures |TrimEnd(text)| <= |text| && TrimEnd(text) == text[..|TrimEnd(text)|]
    ensures forall i | |TrimEnd(text)| <= i < |text| :: text[i] == '\r'
    ensures TrimEnd(text) == [] || TrimEnd(text)[|TrimEnd(text)| - 1] != '\r'
  {
    if text == [] || text[|text| - 1] != '\r' {
    } else {
      TrimsExactly(text[..|text| - 1]);
    }
  }

  // A text becomes a line of its stream for every piece, without the carriage returns at its end.
  lemma LinesExactly(stream: Stream, text: string, i: nat)
    ensures |Lines(stream, text)| == |Split(text)|
    ensures i < |Split(text)| ==>
              && Lines(stream, text)[i].stream == stream
              && var line, piece := Lines(stream, text)[i].text, Split(text)[i];
                 && |line| <= |piece| && line == piece[..|line|]
                 && (forall k | |line| <= k < |piece| :: piece[k] == '\r')
                 && (line == [] || line[|line| - 1] != '\r')
  {
    if i < |Split(text)| {
      TrimsExactly(Split(text)[i]);
    }
  }

  lemma LastOfLast<T>(s: seq<T>, n: nat, m: nat)
    requires n <= m
    ensures Last(Last(s, m), n) == Last(s, n)
  {}

  // A bounded buffer grows by appending and dropping one from the front.
  lemma LastGrows<T>(s: seq<T>, x: T, n: nat)
    requires n > 0
    ensures Last(s + [x], n) == if |Last(s, n)| < n then Last(s, n) + [x] else Last(s, n)[1..] + [x]
  {}

  class CompileConsole {
    var lines: seq<Line>
    var dropped: nat
    var closed: Option<string>
    ghost var pushed: seq<Line>

    // The buffer is the end of everything ever pushed; dropped and kept make up the whole.
    ghost predicate Valid()
      reads this
    {
      lines == Last(pushed, 2000) && dropped + |lines| == |pushed|
    }

    constructor (title: string)
      ensures Valid() && closed == None && pushed == Lines(Info, "\U{2500}\U{2500} " + title + " \U{2500}\U{2500}")
    {
      lines, dropped, closed, pushed := [], 0, None, [];
      new;
      Push(Info, Header(title));
    }

    method Push(stream: Stream, text: string)
      requires Valid()
      modifies `lines, `dropped, `pushed
      ensures Valid() && pushed == old(pushed) + Lines(stream, text)
    {
      var pieces := Split(text);
      for i := 0 to |pieces|
        invariant Valid() && pushed == old(pushed) + Lines(stream, text)[..i]
      {
        hide Last;
        Append(Line(stream, TrimEnd(pieces[i])));
        assert Lines(stream, text)[..i + 1] == Lines(stream, text)[..i] + [Lines(stream, text)[i]];
      }
      assert Lines(stream, text)[..|pieces|] == Lines(stream, text);
    }

    // One line more; past the bound the oldest one goes and is counted.
    method Append(line: Line)
      requires Valid()
      modifies `lines, `dropped, `pushed
      ensures Valid() && pushed == old(pushed) + [line]
    {
      LastGrows(pushed, line, MAX_LINES);
      pushed := pushed + [line];
      lines := lines + [line];
      if |lines| > MAX_LINES {
        lines := lines[1..];
        dropped := dropped + 1;
      }
    }

    // The first close wins: a second one changes nothing.
    method Close(note: string)
      requires Valid()
      modifies this
      ensures Valid()
      ensures old(closed).Some? ==> closed == old(closed) && pushed == old(pushed) && lines == old(lines)
      ensures old(closed).None? ==> closed == Some(note) && pushed == old(pushed) + Lines(Info, note)
    {
      if closed.Some? {
        return;
      }
      Push(Info, note);
      closed := Some(note);
    }

    // The last lines of the buffer are the last lines ever pushed.
    method Tail(n: nat) returns (tail: seq<Line>)
      requires Valid() && n <= MAX_LINES
      ensures tail == Last(pushed, n)
    {
      LastOfLast(pushed, n, MAX_LINES);
      tail := Last(lines, n);
    }
  }

  // ---------- Two closes at once ----------

  // A close looks and sets in two separate sections.
  datatype Closer = Looking | Noting(note: string) | Finished

  datatype Closing = Closing(closed: Option<string>, closers: map<nat, Closer>)

  datatype Step = Look(closer: nat, note: string) | Settle(closer: nat)

  predicate Enabled(s: Closing, step: Step) {
    step.closer in s.closers
    && match step
       case Look(c, _) => s.closers[c].Looking?
       case Settle(c) => s.closers[c].Noting?
  }

  function After(s: Closing, step: Step): Closing
    requires Enabled(s, step)
  {
    match step
    case Look(c, note) => s.(closers := s.closers[c := if s.closed.Some? then Finished else Noting(note)])
    case Settle(c) => Closing(Some(s.closers[c].note), s.closers[c := Finished])
  }

  predicate Possible(s: Closing, steps: seq<Step>)
    decreases |steps|
  {
    steps == [] || (Enabled(s, steps[0]) && Possible(After(s, steps[0]), steps[1..]))
  }

  function Final(s: Closing, steps: seq<Step>): Closing
    requires Possible(s, steps)
    decreases |steps|
  {
    if steps == [] then s else Final(After(s, steps[0]), steps[1..])
  }

  // Every close that looked before and has not settled yet carries the settled note.
  ghost predicate AgreesOnNote(s: Closing) {
    forall c | c in s.closers && s.closers[c].Noting? :: Some(s.closers[c].note) == s.closed
  }

  lemma {:induction false} NoteStays(s: Closing, steps: seq<Step>)
    requires s.closed.Some? && AgreesOnNote(s) && Possible(s, steps)
    ensures Final(s, steps).closed == s.closed
    decreases |steps|
  {
    if steps == [] {
    } else {
      assert AgreesOnNote(After(s, steps[0]));
      NoteStays(After(s, steps[0]), steps[1..]);
    }
  }

  lemma OneStep(s: Closing, step: Step)
    requires Enabled(s, step)
    ensures Possible(s, [step]) && Final(s, [step]) == After(s, step)
  {
    var rest := [step][1..];
    assert rest == [];
    assert Possible(After(s, step), rest) && Final(After(s, step), rest) == After(s, step);
  }

  // A settled note stays over every further run exactly when no close that had looked before
  // is still to settle another one.
  lemma NoteStaysExactly(s: Closing)
    requires s.closed.Some?
    ensures (forall steps: seq<Step> | Possible(s, steps) :: Final(s, steps).closed == s.closed) <==> AgreesOnNote(s)
  {
    if AgreesOnNote(s) {
      forall steps: seq<Step> | Possible(s, steps) ensures Final(s, steps).closed == s.closed {
        NoteStays(s, steps);
      }
    } else {
      var c :| c in s.closers && s.closers[c].Noting? && Some(s.closers[c].note) != s.closed;
      OneStep(s, Settle(c));
      var steps := [Settle(c)];
      assert Possible(s, steps) && Final(s, steps).closed != s.closed;
    }
  }

  lemma {:induction false} FinishedIsOver(s: Closing, steps: seq<Step>, j: nat)
    requires Possible(s, steps) && j < |steps|
    ensures steps[j].closer in s.closers && !s.closers[steps[j].closer].Finished?
    decreases j
  {
    if j > 0 {
      FinishedIsOver(After(s, steps[0]), steps[1..], j - 1);
    }
  }

  // A close settles its note at most once, and is over then.
  lemma {:induction false} SettlesOnce(s: Closing, steps: seq<Step>, i: nat, j: nat)
    requires Possible(s, steps) && i < j < |steps| && steps[i].Settle?
    ensures steps[j].closer != steps[i].closer
    decreases i
  {
    if i == 0 {
      FinishedIsOver(After(s, steps[0]), steps[1..], j - 1);
    } else {
      SettlesOnce(After(s, steps[0]), steps[1..], i - 1, j - 1);
    }
  }

  lemma {:induction false} LooksFirst(s: Closing, steps: seq<Step>, j: nat)
    requires Possible(s, steps) && j < |steps| && steps[j].Look?
    ensures steps[j].closer in s.closers && s.closers[steps[j].closer].Looking?
    decreases j
  {
    if j > 0 {
      LooksFirst(After(s, steps[0]), steps[1..], j - 1);
    }
  }

  // And it looks once.
  lemma {:induction false} LooksOnce(s: Closing, steps: seq<Step>, i: nat, j: nat)
    requires Possible(s, steps) && i < j < |steps| && steps[j].Look?
    ensures steps[i].closer != steps[j].closer
    decreases i
  {
    if i == 0 {
      LooksFirst(After(s, steps[0]), steps[1..], j - 1);
    } else {
      LooksOnce(After(s, steps[0]), steps[1..], i - 1, j - 1);
    }
  }

  // Two closes that look before either settles: the second note replaces the first.
  lemma SecondCloseCanWin(first: string, second: string)
    ensures var s := Closing(None, map[0 := Looking, 1 := Looking]);
            var s1 := After(s, Look(0, first));
            && Enabled(s1, Look(1, second))
            && var s2 := After(s1, Look(1, second));
            && Enabled(s2, Settle(0))
            && After(s2, Settle(0)).closed == Some(first)
            && Enabled(After(s2, Settle(0)), Settle(1))
            && After(After(s2, Settle(0)), Settle(1)).closed == Some(second)
  {}
}
