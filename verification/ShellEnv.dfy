/** Reading and parsing the environment a login shell prints between two markers. */
module ShellEnv {
  import opened Bytes
  import opened Utf8
  import opened Wrappers

  const NUL: Byte := 0
  const LF: Byte := 10
  const CR: Byte := 13
  const EQUALS: Byte := 61

  type Var = (seq<Byte>, seq<Byte>)

  datatype ParseError = NoEnvironment | Incomplete | Empty

  // ---------- Searching ----------

  predicate OccursAt(haystack: seq<Byte>, needle: seq<Byte>, i: int) {
    0 <= i && i + |needle| <= |haystack| && haystack[i..i + |needle|] == needle
  }

  ghost predicate Contains(haystack: seq<Byte>, needle: seq<Byte>) {
    exists i :: OccursAt(haystack, needle, i)
  }

  // The first window equal to the needle. An empty needle panics in the source.
  function FindBytes(haystack: seq<Byte>, needle: seq<Byte>): (r: Option<nat>)
    requires needle != []
    ensures r.Some? ==> OccursAt(haystack, needle, r.value)
    ensures r.Some? ==> forall j | 0 <= j < r.value :: !OccursAt(haystack, needle, j)
    ensures r.None? ==> !Contains(haystack, needle)
  {
    FindFrom(haystack, needle, 0)
  }

  function FindFrom(haystack: seq<Byte>, needle: seq<Byte>, from: nat): (r: Option<nat>)
    requires needle != []
    requires forall j | 0 <= j < from :: !OccursAt(haystack, needle, j)
    ensures r.Some? ==> OccursAt(haystack, needle, r.value)
    ensures r.Some? ==> forall j | 0 <= j < r.value :: !OccursAt(haystack, needle, j)
    ensures r.None? ==> forall j :: !OccursAt(haystack, needle, j)
    decreases |haystack| - from
  {
    if from + |needle| > |haystack| then None
    else if OccursAt(haystack, needle, from) then Some(from)
    else FindFrom(haystack, needle, from + 1)
  }

  // The number of windows equal to the needle, overlapping ones included.
  function Occurrences(haystack: seq<Byte>, needle: seq<Byte>): nat
    requires needle != []
  {
    if |haystack| < |needle| then 0
    else (if OccursAt(haystack, needle, 0) then 1 else 0) + Occurrences(haystack[1..], needle)
  }

  // ---------- Parsing ----------

  // Pieces between delimiters; always at least one.
  function Split(s: seq<Byte>, delimiter: Byte): (r: seq<seq<Byte>>)
    ensures |r| > 0
  {
    if s == [] then [[]]
    else
      var rest := Split(s[1..], delimiter);
      if s[0] == delimiter then [[]] + rest else [[s[0]] + rest[0]] + rest[1..]
  }

  function LeadingBreaks(s: seq<Byte>): (n: nat)
    ensures n <= |s|
  {
    if s != [] && (s[0] == CR || s[0] == LF) then 1 + LeadingBreaks(s[1..]) else 0
  }

  function IndexOf(s: seq<Byte>, b: Byte): (r: Option<nat>)
    ensures r.Some? ==> r.value < |s| && s[r.value] == b && b !in s[..r.value]
    ensures r.None? ==> b !in s
  {
    if s == [] then None
    else if s[0] == b then Some(0)
    else
      match IndexOf(s[1..], b)
      case None => None
      case Some(i) =>
        assert s[..i + 1] == [s[0]] + s[1..][..i];
        Some(i + 1)
  }

  // Text that is not UTF-8, has no '=' or starts with it is skipped.
  function ParseEntry(entry: seq<Byte>): Option<Var> {
    if !ValidUtf8(entry) then None
    else
      match IndexOf(entry, EQUALS)
      case None => None
      case Some(i) => if i == 0 then None else Some((entry[..i], entry[i + 1..]))
  }

  function ParseEntries(entries: seq<seq<Byte>>): seq<Var> {
    if entries == [] then []
    else
      (match ParseEntry(entries[0])
       case None => []
       case Some(v) => [v]) + ParseEntries(entries[1..])
  }

  function Variables(block: seq<Byte>): seq<Var> {
    ParseEntries(Split(block[LeadingBreaks(block)..], if NUL in block then NUL else LF))
  }

  function ParseBlock(block: seq<Byte>): Result<seq<Var>, ParseError> {
    if Variables(block) == [] then Err(Empty) else Ok(Variables(block))
  }

  function Parse(output: seq<Byte>, marker: seq<Byte>): Result<seq<Var>, ParseError>
    requires marker != []
  {
    match FindBytes(output, marker)
    case None => Err(NoEnvironment)
    case Some(i) =>
      var rest := output[i + |marker|..];
      match FindBytes(rest, marker)
      case None => Err(Incomplete)
      case Some(end) => ParseBlock(rest[..end])
  }

  // An entry is a variable exactly if it is well-formed text with a name, which is not empty and
  // holds no '=', before its value.
  lemma ParseEntryExactly(entry: seq<Byte>, v: Var)
    ensures ParseEntry(entry) == Some(v) <==>
              ValidUtf8(entry) && v.0 != [] && '=' as Byte !in v.0 && entry == v.0 + ['=' as Byte] + v.1
  {
    if EQUALS in entry {
      var i := IndexOf(entry, EQUALS).value;
      assert entry == entry[..i] + [EQUALS] + entry[i + 1..];
    }
    if EQUALS !in v.0 && entry == v.0 + [EQUALS] + v.1 {
      IndexOfFirst(v.0, v.1, EQUALS);
      assert entry[..|v.0|] == v.0 && entry[|v.0| + 1..] == v.1;
    }
  }

  // Entries are parsed one by one, in order.
  lemma {:induction false} ParseEntriesConcat(a: seq<seq<Byte>>, b: seq<seq<Byte>>)
    ensures ParseEntries(a + b) == ParseEntries(a) + ParseEntries(b)
    decreases |a|
  {
    if a == [] {
      assert a + b == b;
    } else {
      assert (a + b)[1..] == a[1..] + b;
      ParseEntriesConcat(a[1..], b);
    }
  }

  // The first occurrence.
  ghost predicate IsFirst(output: seq<Byte>, marker: seq<Byte>, i: nat) {
    OccursAt(output, marker, i) && forall j | 0 <= j < i :: !OccursAt(output, marker, j)
  }

  lemma FindsExactly(output: seq<Byte>, marker: seq<Byte>, i: nat)
    requires marker != []
    ensures FindBytes(output, marker) == Some(i) <==> IsFirst(output, marker, i)
    ensures FindBytes(output, marker) == None <==> !Contains(output, marker)
  {}

  // A parse fails exactly for one of three reasons: there is no marker, there is no second one
  // after it, or no entry between the two is a variable.
  lemma ParseFailsExactly(output: seq<Byte>, marker: seq<Byte>)
    requires marker != []
    ensures Parse(output, marker) == Err(NoEnvironment) <==> !Contains(output, marker)
    ensures forall i: nat | IsFirst(output, marker, i) ::
              var rest := output[i + |marker|..];
              && (Parse(output, marker) == Err(Incomplete) <==> !Contains(rest, marker))
              && forall end: nat | IsFirst(rest, marker, end) ::
                   Parse(output, marker) ==
                     if Variables(rest[..end]) == [] then Err(Empty) else Ok(Variables(rest[..end]))
  {
    FindsExactly(output, marker, 0);
    forall i: nat | IsFirst(output, marker, i)
      ensures var rest := output[i + |marker|..];
              && (Parse(output, marker) == Err(Incomplete) <==> !Contains(rest, marker))
              && forall end: nat | IsFirst(rest, marker, end) ::
                   Parse(output, marker) ==
                     if Variables(rest[..end]) == [] then Err(Empty) else Ok(Variables(rest[..end]))
    {
      FindsExactly(output, marker, i);
      FindsExactly(output[i + |marker|..], marker, 0);
      forall end: nat | IsFirst(output[i + |marker|..], marker, end)
        ensures FindBytes(output[i + |marker|..], marker) == Some(end)
      {
        FindsExactly(output[i + |marker|..], marker, end);
      }
      hide FindBytes, IsFirst, Contains, Variables;
    }
  }

  // ---------- What the shell prints is what is parsed ----------

  function Entry(v: Var): seq<Byte> {
    v.0 + [EQUALS] + v.1
  }

  // Entries, each closed by the delimiter, as `env -0` (NUL) or `env` (line feed) prints them.
  function Encode(vars: seq<Var>, delimiter: Byte): seq<Byte> {
    if vars == [] then [] else Entry(vars[0]) + [delimiter] + Encode(vars[1..], delimiter)
  }

  predicate GoodVar(v: Var, delimiter: Byte) {
    && v.0 != [] && ValidUtf8(v.0) && ValidUtf8(v.1)
    && EQUALS !in v.0
    && NUL !in Entry(v) && delimiter !in Entry(v)
  }

  predicate AllGood(vars: seq<Var>, delimiter: Byte) {
    forall i | 0 <= i < |vars| :: GoodVar(vars[i], delimiter)
  }

  // No proper suffix of the marker is a prefix of it, so its occurrences never overlap.
  ghost predicate Unbordered(marker: seq<Byte>) {
    forall k | 0 < k < |marker| :: marker[k..] != marker[..|marker| - k]
  }

  // The simple condition the generated markers meet.
  lemma UniqueFirstByte(marker: seq<Byte>)
    requires marker != [] && marker[0] !in marker[1..]
    ensures Unbordered(marker)
  {
    forall k | 0 < k < |marker|
      ensures marker[k..] != marker[..|marker| - k]
    {
      assert marker[1..][k - 1] == marker[k];
      assert marker[k..][0] != marker[..|marker| - k][0];
    }
  }

  lemma SliceOfSlice(s: seq<Byte>, from: nat, to: nat, i: nat, j: nat)
    requires from <= to <= |s| && i <= j <= to - from
    ensures s[from..to][i..j] == s[from + i..from + j]
  {
    var part := s[from..to];
    forall k | 0 <= k < j - i
      ensures part[i..j][k] == s[from + i..from + j][k]
    {
      assert part[i..j][k] == part[i + k];
    }
  }

  // Two overlapping occurrences make a border.
  lemma OverlapIsBorder(s: seq<Byte>, marker: seq<Byte>, i: int, k: nat)
    requires OccursAt(s, marker, i) && OccursAt(s, marker, i + k) && k <= |marker|
    ensures marker[k..] == marker[..|marker| - k]
  {
    var n := |marker|;
    SliceOfSlice(s, i, i + n, k, n);
    SliceOfSlice(s, i + k, i + k + n, 0, n - k);
  }

  // Two occurrences of an unbordered marker do not overlap.
  lemma OccurrencesApart(s: seq<Byte>, marker: seq<Byte>, i: int, j: int)
    requires Unbordered(marker)
    requires OccursAt(s, marker, i) && OccursAt(s, marker, j) && i < j
    ensures i + |marker| <= j
  {
    if j - i < |marker| {
      OverlapIsBorder(s, marker, i, j - i);
    }
  }

  lemma OccursInPart(s: seq<Byte>, marker: seq<Byte>, from: nat, to: nat, i: int)
    requires from <= to <= |s| && 0 <= i
    requires from + i + |marker| <= to
    ensures OccursAt(s[from..to], marker, i) <==> OccursAt(s, marker, from + i)
  {
    SliceOfSlice(s, from, to, i, i + |marker|);
  }

  // An unbordered marker is found right after text that is free of it.
  lemma FindAfterNoise(noise: seq<Byte>, marker: seq<Byte>, tail: seq<Byte>)
    requires marker != [] && Unbordered(marker)
    requires !Contains(noise, marker)
    ensures FindBytes(noise + marker + tail, marker) == Some(|noise|)
  {
    var s := noise + marker + tail;
    assert s[|noise|..|noise| + |marker|] == marker;
    assert OccursAt(s, marker, |noise|) && s[0..|noise|] == noise;
    forall j | 0 <= j < |noise|
      ensures !OccursAt(s, marker, j)
    {
      if OccursAt(s, marker, j) {
        OccurrencesApart(s, marker, j, |noise|);
        OccursInPart(s, marker, 0, |noise|, j);
      }
    }
    var i := FindBytes(s, marker).value;
    assert i <= |noise|;
  }

  lemma {:induction false} SplitAtDelimiter(head: seq<Byte>, delimiter: Byte, rest: seq<Byte>)
    requires delimiter !in head
    ensures Split(head + [delimiter] + rest, delimiter) == [head] + Split(rest, delimiter)
    decreases |head|
  {
    var s := head + [delimiter] + rest;
    if head == [] {
      assert s[1..] == rest;
    } else {
      assert s[1..] == head[1..] + [delimiter] + rest;
      SplitAtDelimiter(head[1..], delimiter, rest);
      assert head == [head[0]] + head[1..];
    }
  }

  lemma {:induction false} IndexOfFirst(head: seq<Byte>, tail: seq<Byte>, b: Byte)
    requires b !in head
    ensures IndexOf(head + [b] + tail, b) == Some(|head|)
  {
    if head == [] {
    } else {
      assert (head + [b] + tail)[1..] == head[1..] + [b] + tail;
      IndexOfFirst(head[1..], tail, b);
    }
  }

  lemma ParseGoodEntry(v: Var, delimiter: Byte)
    requires GoodVar(v, delimiter)
    ensures ParseEntry(Entry(v)) == Some(v)
  {
    var e := Entry(v);
    assert ValidUtf8([EQUALS]) by {
      assert CharLength([EQUALS]) == 1 && [EQUALS][1..] == [];
    }
    ValidUtf8Concat(v.0, [EQUALS]);
    ValidUtf8Concat(v.0 + [EQUALS], v.1);
    IndexOfFirst(v.0, v.1, EQUALS);
    assert e[..|v.0|] == v.0 && e[|v.0| + 1..] == v.1;
  }

  lemma {:induction false} ParseEncoded(vars: seq<Var>, delimiter: Byte)
    requires AllGood(vars, delimiter)
    ensures ParseEntries(Split(Encode(vars, delimiter), delimiter)) == vars
  {
    if vars == [] {
      var pieces := Split([], delimiter);
      assert pieces[0] == [] && pieces[1..] == [];
    } else {
      var rest := Encode(vars[1..], delimiter);
      SplitAtDelimiter(Entry(vars[0]), delimiter, rest);
      ParseGoodEntry(vars[0], delimiter);
      ParseEncoded(vars[1..], delimiter);
      assert ([Entry(vars[0])] + Split(rest, delimiter))[1..] == Split(rest, delimiter);
    }
  }

  lemma {:induction false} NulInEncoded(vars: seq<Var>, delimiter: Byte)
    requires AllGood(vars, delimiter)
    ensures NUL in Encode(vars, delimiter) <==> vars != [] && delimiter == NUL
  {
    if vars == [] {
    } else {
      NulInEncoded(vars[1..], delimiter);
      var head := Entry(vars[0]);
      var list := Encode(vars, delimiter);
      assert list[|head|] == delimiter;
      assert GoodVar(vars[0], delimiter);
    }
  }

  lemma FirstPrinted(vars: seq<Var>, delimiter: Byte)
    requires vars != [] && vars[0].0 != []
    ensures var list := Encode(vars, delimiter); list != [] && list[0] == vars[0].0[0]
  {
    assert Entry(vars[0])[0] == vars[0].0[0];
  }

  // Parsing noise, a marker line, the printed list, a marker and anything else returns the list.
  lemma ParseRoundTrip(noise: seq<Byte>, marker: seq<Byte>, vars: seq<Var>, delimiter: Byte, tail: seq<Byte>)
    requires marker != [] && Unbordered(marker)
    requires delimiter == 0 || delimiter == '\n' as Byte
    requires vars != [] && AllGood(vars, delimiter) && vars[0].0 != []
    requires vars[0].0[0] != '\r' as Byte && vars[0].0[0] != '\n' as Byte
    requires !Contains(noise, marker) && !Contains(['\n' as Byte] + Encode(vars, delimiter), marker)
    ensures Parse(noise + marker + (['\n' as Byte] + Encode(vars, delimiter)) + marker + tail, marker) == Ok(vars)
  {
    var list := Encode(vars, delimiter);
    var block := [LF] + list;
    var output := noise + marker + block + marker + tail;
    assert output == noise + marker + (block + marker + tail);
    FindAfterNoise(noise, marker, block + marker + tail);
    assert output[|noise| + |marker|..] == block + marker + tail;
    FindAfterNoise(block, marker, tail);
    assert (block + marker + tail)[..|block|] == block;
    FirstPrinted(vars, delimiter);
    assert block[1..] == list;
    assert LeadingBreaks(list) == 0;
    NulInEncoded(vars, delimiter);
    ParseEncoded(vars, delimiter);
  }

  // ---------- Stopping at the second marker ----------

  // What one read of the shell's output returns; no bytes mean the end.
  datatype Read = Data(bytes: seq<Byte>) | Interrupted | Failed

  datatype ReadError = ReadFailed

  // Reading until the output holds the marker twice, the end, or an error.
  function Capture(events: seq<Read>, output: seq<Byte>, marker: seq<Byte>): Result<seq<Byte>, ReadError>
    requires marker != []
    decreases |events|
  {
    if events == [] || events[0] == Data([]) then Ok(output)
    else
      match events[0]
      case Failed => Err(ReadFailed)
      case Interrupted => Capture(events[1..], output, marker)
      case Data(bytes) =>
        if Occurrences(output + bytes, marker) >= 2 then Ok(output + bytes)
        else Capture(events[1..], output + bytes, marker)
  }

  // Reading to the end.
  function ReadAll(events: seq<Read>, output: seq<Byte>): Result<seq<Byte>, ReadError>
    decreases |events|
  {
    if events == [] || events[0] == Data([]) then Ok(output)
    else
      match events[0]
      case Failed => Err(ReadFailed)
      case Interrupted => ReadAll(events[1..], output)
      case Data(bytes) => ReadAll(events[1..], output + bytes)
  }

  method CaptureOutput(events: seq<Read>, marker: seq<Byte>) returns (result: Result<seq<Byte>, ReadError>)
    requires marker != []
    ensures result == Capture(events, [], marker)
  {
    var output := [];
    var next := 0;
    while next < |events| && events[next] != Data([])
      invariant 0 <= next <= |events|
      invariant Capture(events[next..], output, marker) == Capture(events, [], marker)
    {
      assert events[next..][1..] == events[next + 1..];
      match events[next] {
        case Interrupted =>
        case Failed => return Err(ReadFailed);
        case Data(bytes) =>
          output := output + bytes;
          if Occurrences(output, marker) >= 2 {
            return Ok(output);
          }
      }
      next := next + 1;
    }
    return Ok(output);
  }

  lemma {:induction false} ReadAllExtends(events: seq<Read>, output: seq<Byte>)
    requires ReadAll(events, output).Ok?
    ensures output <= ReadAll(events, output).value
    decreases |events|
  {
    if events == [] || events[0] == Data([]) {
    } else {
      match events[0] {
        case Interrupted => ReadAllExtends(events[1..], output);
        case Data(bytes) => ReadAllExtends(events[1..], output + bytes);
      }
    }
  }

  // A stopped read is a prefix of the whole output that holds the marker twice.
  lemma {:induction false} CapturePrefix(events: seq<Read>, output: seq<Byte>, marker: seq<Byte>)
    requires marker != []
    requires ReadAll(events, output).Ok?
    ensures Capture(events, output, marker).Ok?
    ensures var part := Capture(events, output, marker).value;
            part <= ReadAll(events, output).value
            && (part == ReadAll(events, output).value || Occurrences(part, marker) >= 2)
    decreases |events|
  {
    if events == [] || events[0] == Data([]) {
    } else {
      match events[0] {
        case Interrupted => CapturePrefix(events[1..], output, marker);
        case Data(bytes) =>
          ReadAllExtends(events[1..], output + bytes);
          if Occurrences(output + bytes, marker) < 2 {
            CapturePrefix(events[1..], output + bytes, marker);
          }
      }
    }
  }

  lemma OccursLater(s: seq<Byte>, marker: seq<Byte>, i: int)
    requires s != [] && OccursAt(s[1..], marker, i)
    ensures OccursAt(s, marker, i + 1)
  {
    OccursInPart(s, marker, 1, |s|, i);
  }

  lemma {:induction false} CountedOccurrence(s: seq<Byte>, marker: seq<Byte>) returns (i: nat)
    requires marker != [] && Occurrences(s, marker) >= 1
    ensures OccursAt(s, marker, i)
    ensures Occurrences(s, marker) >= 2 ==> exists j :: i < j && OccursAt(s, marker, j)
    decreases |s|
  {
    assert s != [] && Occurrences(s, marker) == (if OccursAt(s, marker, 0) then 1 else 0) + Occurrences(s[1..], marker);
    assert s[1..|s|] == s[1..];
    hide Occurrences, OccursAt;
    if OccursAt(s, marker, 0) {
      i := 0;
      if Occurrences(s, marker) >= 2 {
        var j := CountedOccurrence(s[1..], marker);
        OccursLater(s, marker, j);
        assert 0 < j + 1 && OccursAt(s, marker, j + 1);
      }
    } else {
      var i' := CountedOccurrence(s[1..], marker);
      OccursLater(s, marker, i');
      i := i' + 1;
      if Occurrences(s, marker) >= 2 {
        var j :| i' < j && OccursAt(s[1..], marker, j);
        OccursLater(s, marker, j);
        assert i < j + 1 && OccursAt(s, marker, j + 1);
      }
    }
  }

  // Once a prefix holds the marker, the first occurrence is settled.
  lemma FindInPrefix(part: seq<Byte>, full: seq<Byte>, marker: seq<Byte>)
    requires marker != [] && part <= full
    requires Contains(part, marker)
    ensures FindBytes(part, marker).Some?
    ensures FindBytes(full, marker) == FindBytes(part, marker)
  {
    var i := FindBytes(part, marker).value;
    assert part == full[0..|part|];
    OccursInPart(full, marker, 0, |part|, i);
    var k := FindBytes(full, marker).value;
    if k < i {
      OccursInPart(full, marker, 0, |part|, k);
    }
  }

  // Two occurrences of an unbordered marker settle the result of parsing.
  lemma ParseSettled(part: seq<Byte>, full: seq<Byte>, marker: seq<Byte>)
    requires marker != [] && Unbordered(marker)
    requires part <= full && Occurrences(part, marker) >= 2
    ensures Parse(part, marker) == Parse(full, marker)
  {
    hide FindBytes, Occurrences, ParseBlock;
    var n := |marker|;
    var a := CountedOccurrence(part, marker);
    var b :| a < b && OccursAt(part, marker, b);
    FindInPrefix(part, full, marker);
    var i := FindBytes(part, marker).value;
    assert i <= a < b;
    OccurrencesApart(part, marker, i, b);
    SecondSettled(part, full, marker, i + n, b);
  }

  // Behind the first marker, the second one is found at the same place in every longer output.
  lemma SecondSettled(part: seq<Byte>, full: seq<Byte>, marker: seq<Byte>, from: nat, b: nat)
    requires part <= full && marker != [] && from <= b && OccursAt(part, marker, b)
    ensures from <= |part| <= |full|
    ensures var end := FindBytes(part[from..], marker);
            end.Some? && end == FindBytes(full[from..], marker)
            && part[from..][..end.value] == full[from..][..end.value]
  {
    hide FindBytes;
    var rest, restFull := part[from..], full[from..];
    OccursInPart(part, marker, from, |part|, b - from);
    assert OccursAt(rest, marker, b - from);
    assert rest <= restFull;
    FindInPrefix(rest, restFull, marker);
    var end := FindBytes(rest, marker).value;
    assert rest[..end] == restFull[..end];
  }

  // Stopping early never changes the parsed result.
  ghost predicate StopIsSafe(marker: seq<Byte>)
    requires marker != []
  {
    forall events: seq<Read> | ReadAll(events, []).Ok? ::
      && Capture(events, [], marker).Ok?
      && Parse(Capture(events, [], marker).value, marker) == Parse(ReadAll(events, []).value, marker)
  }

  // The reads after which an overlapping marker stops the capture too early.
  lemma OverlapReads(marker: seq<Byte>, part: seq<Byte>)
    requires marker != [] && part != []
    requires Occurrences(part, marker) >= 2
    ensures var events := [Data(part), Data(marker)];
            Capture(events, [], marker) == Ok(part) && ReadAll(events, []) == Ok(part + marker)
  {
    hide Occurrences;
    var events := [Data(part), Data(marker)];
    assert events[1..] == [Data(marker)] && events[1..][1..] == [];
    assert [] + part == part;
    assert ReadAll(events, []) == ReadAll(events[1..], part);
    assert ReadAll(events[1..], part) == ReadAll(events[1..][1..], part + marker);
  }

  // A marker that overlaps itself can be counted twice before its second copy is complete.
  lemma OverlapStopsEarly(marker: seq<Byte>, k: nat)
    requires 0 < k < |marker| && marker[k..] == marker[..|marker| - k]
    ensures !StopIsSafe(marker)
  {
    var n := |marker|;
    var part := marker + marker[n - k..];
    assert part[0..n] == marker;
    assert part[k..k + n] == marker[k..] + marker[n - k..];
    CountAtLeast(part, marker, 0, k);
    OverlapReads(marker, part);
    OverlapParses(marker, part, k);
    var events := [Data(part), Data(marker)];
    assert ReadAll(events, []).Ok?;
  }

  lemma OverlapParses(marker: seq<Byte>, part: seq<Byte>, k: nat)
    requires 0 < k < |marker| && part == marker + marker[|marker| - k..]
    ensures Parse(part, marker) == Err(Incomplete)
    ensures Parse(part + marker, marker) != Err(Incomplete)
  {
    var n := |marker|;
    var full := part + marker;
    assert OccursAt(part, marker, 0);
    FindInPrefix(part, full, marker);
    assert FindBytes(part, marker) == Some(0) == FindBytes(full, marker);
    assert full[n..][k..k + n] == marker;
    assert OccursAt(full[n..], marker, k);
  }

  lemma {:induction false} CountAtLeast(s: seq<Byte>, marker: seq<Byte>, i: nat, j: nat)
    requires marker != [] && OccursAt(s, marker, j) && i <= j && OccursAt(s, marker, i)
    ensures Occurrences(s, marker) >= if i < j then 2 else 1
    decreases |s|
  {
    if j == 0 {
    } else {
      assert |s| >= |marker|
          && Occurrences(s, marker) == (if OccursAt(s, marker, 0) then 1 else 0) + Occurrences(s[1..], marker);
      OccursInPart(s, marker, 1, |s|, j - 1);
      assert s[1..|s|] == s[1..];
      if i > 0 {
        OccursInPart(s, marker, 1, |s|, i - 1);
        hide Occurrences, OccursAt;
        CountAtLeast(s[1..], marker, i - 1, j - 1);
      } else {
        CountAtLeast(s[1..], marker, j - 1, j - 1);
      }
    }
  }

  // The early stop gives the answer of reading to the end exactly for unbordered markers.
  lemma EarlyStop(marker: seq<Byte>)
    requires marker != []
    ensures StopIsSafe(marker) <==> Unbordered(marker)
  {
    if Unbordered(marker) {
      forall events: seq<Read> | ReadAll(events, []).Ok?
        ensures Capture(events, [], marker).Ok?
        ensures Parse(Capture(events, [], marker).value, marker) == Parse(ReadAll(events, []).value, marker)
      {
        CapturePrefix(events, [], marker);
        var part, full := Capture(events, [], marker).value, ReadAll(events, []).value;
        if part != full {
          ParseSettled(part, full, marker);
        }
      }
    } else {
      var k :| 0 < k < |marker| && marker[k..] == marker[..|marker| - k];
      OverlapStopsEarly(marker, k);
    }
  }
}
