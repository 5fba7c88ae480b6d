/** Merging a login shell's variables into the inherited environment, with Unix rules for
    variable names, search-path separators and path equality. */
module PathMerge {
  import opened Wrappers

  type Var = (string, string)

  const IMPORTED: seq<string> := [
    "NODE_EXTRA_CA_CERTS", "SSL_CERT_FILE", "SSL_CERT_DIR", "REQUESTS_CA_BUNDLE", "CURL_CA_BUNDLE",
    "HTTP_PROXY", "HTTPS_PROXY", "NO_PROXY", "ALL_PROXY", "http_proxy", "https_proxy", "no_proxy", "all_proxy",
    "LANG", "LC_ALL", "LC_CTYPE",
    "JAVA_HOME", "GOPATH", "GOROOT", "CARGO_HOME", "RUSTUP_HOME", "DOTNET_ROOT", "NVM_DIR", "NVM_BIN",
    "VOLTA_HOME", "PNPM_HOME", "BUN_INSTALL", "PYENV_ROOT", "ASDF_DIR", "ASDF_DATA_DIR", "MISE_DATA_DIR"]

  const PATH: string := "PATH"

  // ---------- Variables ----------

  function Lookup(vars: seq<Var>, wanted: string): Option<string> {
    if vars == [] then None
    else if vars[0].0 == wanted then Some(vars[0].1)
    else Lookup(vars[1..], wanted)
  }

  function AsciiUpper(s: string): string {
    if s == [] then []
    else [if 'a' <= s[0] <= 'z' then (s[0] as int - 32) as char else s[0]] + AsciiUpper(s[1..])
  }

  predicate EndsWith(s: string, suffix: string) {
    |suffix| <= |s| && s[|s| - |suffix|..] == suffix
  }

  predicate IsProxyVar(key: string) {
    EndsWith(AsciiUpper(key), "_PROXY")
  }

  // The text after the first "://", or all of it.
  function AfterScheme(url: string, from: nat): string
    decreases |url| - from
  {
    if from + 3 > |url| then url
    else if url[from..from + 3] == "://" then url[from + 3..]
    else AfterScheme(url, from + 1)
  }

  // The text before the first path, query or fragment mark.
  function Authority(s: string): string {
    if s == [] || s[0] == '/' || s[0] == '?' || s[0] == '#' then [] else [s[0]] + Authority(s[1..])
  }

  predicate ProxyHasCredentials(value: string) {
    '@' in Authority(AfterScheme(value, 0))
  }

  predicate Importable(v: Var) {
    v.0 in IMPORTED && !(IsProxyVar(v.0) && ProxyHasCredentials(v.1))
  }

  // The same letter of ASCII, in upper or lower case.
  predicate IsCaseOf(c: char, upper: char) {
    c == upper || ('A' <= upper <= 'Z' && c as int == upper as int + 32)
  }

  lemma {:induction false} UpperExactly(s: string, i: nat, upper: char)
    ensures |AsciiUpper(s)| == |s|
    ensures i < |s| && !('a' <= upper <= 'z') ==> (AsciiUpper(s)[i] == upper <==> IsCaseOf(s[i], upper))
  {
    if s == [] {
    } else {
      UpperExactly(s[1..], if i == 0 then 0 else i - 1, upper);
    }
  }

  // A proxy variable is one whose name ends in _PROXY in any case.
  lemma ProxyVarExactly(key: string)
    ensures IsProxyVar(key) <==>
              && |key| >= 6
              && var name := key[|key| - 6..];
                 && name[0] == '_' && (name[1] == 'P' || name[1] == 'p') && (name[2] == 'R' || name[2] == 'r')
                 && (name[3] == 'O' || name[3] == 'o') && (name[4] == 'X' || name[4] == 'x')
                 && (name[5] == 'Y' || name[5] == 'y')
  {
    UpperExactly(key, 0, '_');
    if |key| >= 6 {
      var at := |key| - 6;
      UpperExactly(key, at, '_');
      UpperExactly(key, at + 1, 'P');
      UpperExactly(key, at + 2, 'R');
      UpperExactly(key, at + 3, 'O');
      UpperExactly(key, at + 4, 'X');
      UpperExactly(key, at + 5, 'Y');
      SixLetters(AsciiUpper(key)[at..]);
      hide AsciiUpper;
    }
  }

  lemma SixLetters(s: string)
    requires |s| == 6
    ensures s == "_PROXY" <==>
              s[0] == '_' && s[1] == 'P' && s[2] == 'R' && s[3] == 'O' && s[4] == 'X' && s[5] == 'Y'
  {}

  predicate OccursAt(s: string, text: string, at: nat) {
    at + |text| <= |s| && s[at..at + |text|] == text
  }

  // The first place where the text occurs.
  ghost predicate IsFirst(s: string, text: string, at: nat) {
    OccursAt(s, text, at) && forall k: nat | k < at :: !OccursAt(s, text, k)
  }

  lemma {:induction false} AfterSchemeExactly(url: string, from: nat)
    requires forall k: nat | k < from :: !OccursAt(url, "://", k)
    ensures (forall k: nat :: !OccursAt(url, "://", k)) ==> AfterScheme(url, from) == url
    ensures forall at: nat | IsFirst(url, "://", at) :: AfterScheme(url, from) == url[at + 3..]
    decreases |url| - from
  {
    if from + 3 > |url| {
    } else if OccursAt(url, "://", from) {
      assert IsFirst(url, "://", from);
    } else {
      AfterSchemeExactly(url, from + 1);
    }
  }

  // A mark that ends the authority of an address.
  predicate EndsAuthority(c: char) {
    c == '/' || c == '?' || c == '#'
  }

  lemma {:induction false} AuthorityExactly(s: string)
    ensures |Authority(s)| <= |s| && Authority(s) == s[..|Authority(s)|]
    ensures forall i | 0 <= i < |Authority(s)| :: !EndsAuthority(s[i])
    ensures |Authority(s)| < |s| ==> EndsAuthority(s[|Authority(s)|])
  {
    if s == [] || EndsAuthority(s[0]) {
    } else {
      AuthorityExactly(s[1..]);
    }
  }

  // A proxy address carries credentials exactly if an at-sign comes before the first path, query
  // or fragment mark of what follows its scheme.
  lemma CredentialsExactly(value: string, address: string)
    requires address == value || exists at: nat :: IsFirst(value, "://", at) && address == value[at + 3..]
    requires address == value ==> forall at: nat :: !IsFirst(value, "://", at)
    ensures ProxyHasCredentials(value) <==>
              exists i | 0 <= i < |address| :: address[i] == '@' && forall k | 0 <= k < i :: !EndsAuthority(address[k])
  {
    AfterSchemeExactly(value, 0);
    if k: nat :| OccursAt(value, "://", k) {
      FirstOf(value, "://", k);
    }
    assert AfterScheme(value, 0) == address;
    AuthorityExactly(address);
    var authority := Authority(address);
    if i :| 0 <= i < |address| && address[i] == '@' && forall k | 0 <= k < i :: !EndsAuthority(address[k]) {
      assert i < |authority| && authority[i] == '@';
    }
  }

  lemma {:induction false} FirstOf(s: string, text: string, k: nat)
    requires OccursAt(s, text, k)
    ensures exists at: nat :: IsFirst(s, text, at)
    decreases k
  {
    if IsFirst(s, text, k) {
    } else {
      var earlier: nat :| earlier < k && OccursAt(s, text, earlier);
      FirstOf(s, text, earlier);
    }
  }

  // So an imported variable is refused only if it is one of eight and its address does that.
  lemma RefusedProxies(v: Var)
    requires v.0 in IMPORTED && !Importable(v)
    ensures v.0 in ["HTTP_PROXY", "HTTPS_PROXY", "NO_PROXY", "ALL_PROXY",
                    "http_proxy", "https_proxy", "no_proxy", "all_proxy"]
    ensures ProxyHasCredentials(v.1)
  {
    ProxyVarExactly(v.0);
    LastLetters();
    EightProxies();
    hide AsciiUpper, ProxyHasCredentials;
    var i :| 0 <= i < |IMPORTED| && IMPORTED[i] == v.0;
    assert 5 <= i <= 12;
  }

  lemma EightProxies()
    ensures forall i | 5 <= i <= 12 ::
              IMPORTED[i] in ["HTTP_PROXY", "HTTPS_PROXY", "NO_PROXY", "ALL_PROXY",
                              "http_proxy", "https_proxy", "no_proxy", "all_proxy"]
  {
    assert IMPORTED[5] == "HTTP_PROXY" && IMPORTED[6] == "HTTPS_PROXY";
    assert IMPORTED[7] == "NO_PROXY" && IMPORTED[8] == "ALL_PROXY";
    assert IMPORTED[9] == "http_proxy" && IMPORTED[10] == "https_proxy";
    assert IMPORTED[11] == "no_proxy" && IMPORTED[12] == "all_proxy";
  }

  lemma LastLetters()
    ensures forall i | 0 <= i < |IMPORTED| ::
              |IMPORTED[i]| > 0 && (IMPORTED[i][|IMPORTED[i]| - 1] in ['Y', 'y'] ==> 5 <= i <= 12)
  {}

  // The shell's importable variables that the process does not have.
  function Missing(inherited: seq<Var>, shell: seq<Var>): seq<Var> {
    if shell == [] then []
    else
      (if Importable(shell[0]) && Lookup(inherited, shell[0].0).None? then [shell[0]] else [])
      + Missing(inherited, shell[1..])
  }

  // ---------- Search paths ----------

  function Split(s: string, separator: char): (r: seq<string>)
    ensures |r| > 0
    ensures forall i | 0 <= i < |r| :: separator !in r[i]
  {
    if s == [] then [""]
    else
      var rest := Split(s[1..], separator);
      if s[0] == separator then [""] + rest else [[s[0]] + rest[0]] + rest[1..]
  }

  function Join(dirs: seq<string>): string {
    if dirs == [] then ""
    else if |dirs| == 1 then dirs[0]
    else dirs[0] + ":" + Join(dirs[1..])
  }

  // Joining fails when an entry holds the separator.
  function JoinPaths(dirs: seq<string>): Option<string> {
    if exists i :: 0 <= i < |dirs| && ':' in dirs[i] then None else Some(Join(dirs))
  }

  // What path equality compares: empty and "." components do not count,
  // except a leading "." of a relative path.
  datatype PathKey = PathKey(rooted: bool, components: seq<string>)

  function Components(pieces: seq<string>): seq<string> {
    if pieces == [] then []
    else (if pieces[0] == "" || pieces[0] == "." then [] else [pieces[0]]) + Components(pieces[1..])
  }

  function KeyOf(dir: string): PathKey {
    var pieces := Split(dir, '/');
    var rooted := dir != "" && dir[0] == '/';
    PathKey(rooted, (if !rooted && pieces[0] == "." then ["."] else []) + Components(pieces))
  }

  lemma {:induction false} SplitJoined(a: string, b: string, separator: char)
    ensures Split(a + [separator] + b, separator) == Split(a, separator) + Split(b, separator)
    decreases |a|
  {
    var s := a + [separator] + b;
    if a == [] {
      assert s[1..] == b;
    } else {
      assert s[1..] == a[1..] + [separator] + b;
      SplitJoined(a[1..], b, separator);
    }
  }

  lemma {:induction false} ComponentsConcat(a: seq<string>, b: seq<string>)
    ensures Components(a + b) == Components(a) + Components(b)
  {
    if a == [] {
      assert a + b == b;
    } else {
      assert (a + b)[1..] == a[1..] + b;
      ComponentsConcat(a[1..], b);
    }
  }

  ghost function KeyOfPieces(rooted: bool, pieces: seq<string>): PathKey
    requires pieces != []
  {
    PathKey(rooted, (if !rooted && pieces[0] == "." then ["."] else []) + Components(pieces))
  }

  // A path in two parts has the pieces of both, and the first part decides whether it is rooted.
  lemma KeyOfParts(a: string, b: string)
    ensures KeyOf(a + "/" + b) == KeyOfPieces(a == "" || a[0] == '/', Split(a, '/') + Split(b, '/'))
  {
    SplitJoined(a, b, '/');
    hide Split, Components;
    assert a + "/" + b == a + ['/'] + b;
  }

  lemma IgnoredPiece(rooted: bool, a: seq<string>, ignored: string, b: seq<string>)
    requires a != [] && (ignored == "" || ignored == ".")
    ensures KeyOfPieces(rooted, a + ([ignored] + b)) == KeyOfPieces(rooted, a + b)
  {
    assert ([ignored] + b)[1..] == b;
    assert Components([ignored] + b) == Components(b);
    hide Components;
    ComponentsConcat(a, [ignored] + b);
    ComponentsConcat(a, b);
  }

  lemma SplitLeading(b: string)
    ensures Split("/" + b, '/') == [""] + Split(b, '/')
    ensures Split("./" + b, '/') == ["."] + Split(b, '/')
  {
    SplitWhole("", '/');
    SplitWhole(".", '/');
    hide Split;
    SplitJoined("", b, '/');
    SplitJoined(".", b, '/');
    assert "/" + b == "" + ['/'] + b && "./" + b == "." + ['/'] + b;
  }

  // Paths are equal whatever separators are doubled or trail and whatever "." stands in between.
  lemma EqualPaths(a: string, b: string)
    ensures KeyOf(a + "/" + ("/" + b)) == KeyOf(a + "/" + b)
    ensures KeyOf(a + "/" + ("./" + b)) == KeyOf(a + "/" + b)
    ensures a != "" ==> KeyOf(a + "/") == KeyOf(a)
  {
    SplitLeading(b);
    SplitWhole("", '/');
    hide Split, KeyOfPieces;
    KeyOfParts(a, b);
    KeyOfParts(a, "/" + b);
    KeyOfParts(a, "./" + b);
    IgnoredPiece(a == "" || a[0] == '/', Split(a, '/'), "", Split(b, '/'));
    IgnoredPiece(a == "" || a[0] == '/', Split(a, '/'), ".", Split(b, '/'));
    hide KeyOf;
    TrailingSlash(a);
  }

  lemma TrailingSlash(a: string)
    ensures a != "" ==> KeyOf(a + "/") == KeyOf(a)
  {
    SplitWhole("", '/');
    hide Split;
    KeyOfParts(a, "");
    IgnoredPiece(a == "" || a[0] == '/', Split(a, '/'), "", []);
    assert a + "/" + "" == a + "/" && Split(a, '/') + ([""] + []) == Split(a, '/') + [""];
    assert Split(a, '/') + [] == Split(a, '/');
  }

  function JoinSlash(parts: seq<string>): string {
    if parts == [] then ""
    else if |parts| == 1 then parts[0]
    else parts[0] + "/" + JoinSlash(parts[1..])
  }

  predicate IsComponent(part: string) {
    part != "" && part != "." && '/' !in part
  }

  lemma {:induction false} SplitWhole(s: string, separator: char)
    requires separator !in s
    ensures Split(s, separator) == [s]
  {
    if s == [] {
    } else {
      SplitWhole(s[1..], separator);
      assert s == [s[0]] + s[1..];
    }
  }

  lemma {:induction false} SplitSlashes(parts: seq<string>)
    requires parts != [] && forall i | 0 <= i < |parts| :: IsComponent(parts[i])
    ensures Split(JoinSlash(parts), '/') == parts && Components(parts) == parts
    decreases |parts|
  {
    SplitWhole(parts[0], '/');
    if |parts| == 1 {
      assert parts == [parts[0]] + parts[1..] && Components(parts[1..]) == [];
    } else {
      SplitSlashes(parts[1..]);
      SplitJoined(parts[0], JoinSlash(parts[1..]), '/');
      assert parts[0] + "/" + JoinSlash(parts[1..]) == parts[0] + ['/'] + JoinSlash(parts[1..]);
    }
  }

  // Apart from that they are equal only if they are the same, relative, rooted or after "./".
  lemma DifferentPaths(parts: seq<string>)
    requires parts != [] && forall i | 0 <= i < |parts| :: IsComponent(parts[i])
    ensures KeyOf(JoinSlash(parts)) == PathKey(false, parts)
    ensures KeyOf("/" + JoinSlash(parts)) == PathKey(true, parts)
    ensures KeyOf("./" + JoinSlash(parts)) == PathKey(false, ["."] + parts)
  {
    SplitSlashes(parts);
    JoinStarts(parts);
    hide JoinSlash, Split, Components;
    RootedKey(JoinSlash(parts));
    DottedKey(JoinSlash(parts));
  }

  lemma RootedKey(path: string)
    ensures KeyOf("/" + path) == PathKey(true, Components(Split(path, '/')))
  {
    SplitLeading(path);
    hide Split;
    IgnoredFirst(Split(path, '/'));
    hide Components;
  }

  lemma DottedKey(path: string)
    ensures KeyOf("./" + path) == PathKey(false, ["."] + Components(Split(path, '/')))
  {
    SplitLeading(path);
    hide Split;
    IgnoredFirst(Split(path, '/'));
    hide Components;
    assert ("./" + path)[0] == '.';
  }

  lemma JoinStarts(parts: seq<string>)
    requires parts != [] && IsComponent(parts[0])
    ensures JoinSlash(parts) != "" && JoinSlash(parts)[0] != '/'
  {
    assert JoinSlash(parts)[0] == parts[0][0];
  }

  lemma IgnoredFirst(parts: seq<string>)
    ensures Components([""] + parts) == Components(parts) == Components(["."] + parts)
  {
    assert ([""] + parts)[1..] == parts && (["."] + parts)[1..] == parts;
  }

  predicate HasPath(dirs: seq<string>, dir: string) {
    exists i :: 0 <= i < |dirs| && KeyOf(dirs[i]) == KeyOf(dir)
  }

  // Appends the entries that are neither empty nor already there.
  function Dedup(dirs: seq<string>, more: seq<string>): seq<string>
    decreases |more|
  {
    if more == [] then dirs
    else Dedup(if more[0] != "" && !HasPath(dirs, more[0]) then dirs + [more[0]] else dirs, more[1..])
  }

  function Entries(inheritedPath: string, shellPath: string, shellPathFirst: bool): seq<string> {
    if shellPathFirst then Split(shellPath, ':') + Split(inheritedPath, ':')
    else Split(inheritedPath, ':') + Split(shellPath, ':')
  }

  function ValueOr(o: Option<string>, default: string): string {
    match o case None => default case Some(v) => v
  }

  function PathUpdate(inheritedPath: Option<string>, shellPath: string, shellPathFirst: bool): seq<Var> {
    match JoinPaths(Dedup([], Entries(ValueOr(inheritedPath, ""), shellPath, shellPathFirst)))
    case None => []
    case Some(merged) => if inheritedPath == Some(merged) then [] else [(PATH, merged)]
  }

  function Merge(inherited: seq<Var>, shell: seq<Var>, shellPathFirst: bool): seq<Var> {
    Missing(inherited, shell)
    + match Lookup(shell, PATH)
      case None => []
      case Some(shellPath) => PathUpdate(Lookup(inherited, PATH), shellPath, shellPathFirst)
  }

  method MergeShellEnv(inherited: seq<Var>, shell: seq<Var>, shellPathFirst: bool) returns (updates: seq<Var>)
    ensures updates == Merge(inherited, shell, shellPathFirst)
  {
    updates := Missing(inherited, shell);
    var shellPath := Lookup(shell, PATH);
    if shellPath.Some? {
      var inheritedPath := Lookup(inherited, PATH);
      var entries := Entries(ValueOr(inheritedPath, ""), shellPath.value, shellPathFirst);
      var dirs: seq<string> := [];
      for i := 0 to |entries|
        invariant Dedup(dirs, entries[i..]) == Dedup([], entries)
      {
        assert entries[i..][1..] == entries[i + 1..];
        if entries[i] != "" && !HasPath(dirs, entries[i]) {
          dirs := dirs + [entries[i]];
        }
      }
      assert entries[|entries|..] == [];
      var merged := JoinPaths(dirs);
      if merged.Some? && inheritedPath != merged {
        updates := updates + [(PATH, merged.value)];
      }
    }
  }

  // ---------- Applying updates ----------

  // Setting a variable replaces its value or adds it.
  function Set(vars: seq<Var>, v: Var): seq<Var> {
    if vars == [] then [v]
    else if vars[0].0 == v.0 then [v] + vars[1..]
    else [vars[0]] + Set(vars[1..], v)
  }

  function Apply(vars: seq<Var>, updates: seq<Var>): seq<Var>
    decreases |updates|
  {
    if updates == [] then vars else Apply(Set(vars, updates[0]), updates[1..])
  }

  lemma {:induction false} LookupSet(vars: seq<Var>, v: Var, key: string)
    ensures Lookup(Set(vars, v), key) == if key == v.0 then Some(v.1) else Lookup(vars, key)
  {
    if vars != [] && vars[0].0 != v.0 {
      LookupSet(vars[1..], v, key);
      assert Set(vars, v)[1..] == Set(vars[1..], v);
    } else if vars != [] {
      assert Set(vars, v)[1..] == vars[1..];
    }
  }

  lemma {:induction false} ApplyConcat(vars: seq<Var>, a: seq<Var>, b: seq<Var>)
    ensures Apply(vars, a + b) == Apply(Apply(vars, a), b)
    decreases |a|
  {
    if a == [] {
      assert a + b == b;
    } else {
      assert (a + b)[1..] == a[1..] + b;
      ApplyConcat(Set(vars, a[0]), a[1..], b);
    }
  }

  lemma PathIsNotImported()
    ensures PATH !in IMPORTED
  {}

  lemma {:induction false} NothingMissing(inherited: seq<Var>, shell: seq<Var>)
    requires forall i | 0 <= i < |shell| :: Importable(shell[i]) ==> Lookup(inherited, shell[i].0).Some?
    ensures Missing(inherited, shell) == []
    decreases |shell|
  {
    if shell == [] {
    } else {
      assert Importable(shell[0]) ==> Lookup(inherited, shell[0].0).Some?;
      hide Importable, Lookup;
      forall i | 0 <= i < |shell[1..]|
        ensures Importable(shell[1..][i]) ==> Lookup(inherited, shell[1..][i].0).Some?
      {
        assert shell[1..][i] == shell[i + 1];
      }
      NothingMissing(inherited, shell[1..]);
    }
  }

  // ---------- The merged search path ----------

  // No entry is empty, no two entries are equal as paths.
  ghost predicate Distinct(dirs: seq<string>) {
    && (forall i | 0 <= i < |dirs| :: dirs[i] != "")
    && forall i, j | 0 <= i < j < |dirs| :: KeyOf(dirs[i]) != KeyOf(dirs[j])
  }

  // A nonempty entry equal to the directory as a path.
  predicate Seen(entries: seq<string>, dir: string) {
    exists i :: 0 <= i < |entries| && entries[i] != "" && KeyOf(entries[i]) == KeyOf(dir)
  }

  // The nonempty entries that are the first of their kind, in order.
  function FirstOccurrences(entries: seq<string>): seq<string> {
    if entries == [] then []
    else
      var n := |entries| - 1;
      FirstOccurrences(entries[..n])
      + if entries[n] != "" && !Seen(entries[..n], entries[n]) then [entries[n]] else []
  }

  lemma {:induction false} DedupConcat(dirs: seq<string>, a: seq<string>, b: seq<string>)
    ensures Dedup(dirs, a + b) == Dedup(Dedup(dirs, a), b)
    decreases |a|
  {
    hide HasPath;
    if a == [] {
      assert a + b == b;
    } else {
      assert (a + b)[1..] == a[1..] + b;
      DedupConcat(if a[0] != "" && !HasPath(dirs, a[0]) then dirs + [a[0]] else dirs, a[1..], b);
    }
  }

  lemma DedupOne(dirs: seq<string>, dir: string)
    ensures Dedup(dirs, [dir]) == if dir != "" && !HasPath(dirs, dir) then dirs + [dir] else dirs
  {
    assert [dir][1..] == [];
  }

  lemma HasPathConcat(a: seq<string>, b: seq<string>, dir: string)
    ensures HasPath(a + b, dir) <==> HasPath(a, dir) || HasPath(b, dir)
  {
    hide KeyOf;
    if HasPath(a, dir) {
      var i :| 0 <= i < |a| && KeyOf(a[i]) == KeyOf(dir);
      assert (a + b)[i] == a[i];
    }
    if HasPath(b, dir) {
      var i :| 0 <= i < |b| && KeyOf(b[i]) == KeyOf(dir);
      assert (a + b)[|a| + i] == b[i];
    }
  }

  lemma SeenConcat(a: seq<string>, b: seq<string>, dir: string)
    ensures Seen(a + b, dir) <==> Seen(a, dir) || Seen(b, dir)
  {
    hide KeyOf;
    if Seen(a, dir) {
      var i :| 0 <= i < |a| && a[i] != "" && KeyOf(a[i]) == KeyOf(dir);
      assert (a + b)[i] == a[i];
    }
    if Seen(b, dir) {
      var i :| 0 <= i < |b| && b[i] != "" && KeyOf(b[i]) == KeyOf(dir);
      assert (a + b)[|a| + i] == b[i];
    }
  }

  lemma SeenOne(entry: string, dir: string)
    ensures Seen([entry], dir) <==> entry != "" && KeyOf(entry) == KeyOf(dir)
  {
    hide KeyOf;
    assert [entry][0] == entry;
  }

  lemma HasPathOne(entry: string, dir: string)
    ensures HasPath([entry], dir) <==> KeyOf(entry) == KeyOf(dir)
  {
    hide KeyOf;
    assert [entry][0] == entry;
  }

  // Exactly the nonempty entries are represented afterwards.
  lemma {:induction false} DedupKeepsKinds(dirs: seq<string>, more: seq<string>, dir: string)
    ensures HasPath(Dedup(dirs, more), dir) <==> HasPath(dirs, dir) || Seen(more, dir)
    decreases |more|
  {
    hide KeyOf, HasPath, Seen;
    if more == [] {
      SeenNone(dir);
    } else {
      var added := more[0] != "" && !HasPath(dirs, more[0]);
      DedupKeepsKinds(if added then dirs + [more[0]] else dirs, more[1..], dir);
      HasPathConcat(dirs, [more[0]], dir);
      HasPathOne(more[0], dir);
      assert more == [more[0]] + more[1..];
      SeenConcat([more[0]], more[1..], dir);
      SeenOne(more[0], dir);
      if more[0] != "" && HasPath(dirs, more[0]) && KeyOf(more[0]) == KeyOf(dir) {
        SameKind(dirs, more[0], dir);
      }
    }
  }

  lemma SeenNone(dir: string)
    ensures !Seen([], dir)
  {}

  lemma SameKind(dirs: seq<string>, a: string, b: string)
    requires HasPath(dirs, a) && KeyOf(a) == KeyOf(b)
    ensures HasPath(dirs, b)
  {}

  // Removing duplicates leaves the first occurrences, in order.
  lemma {:induction false} DedupIsFirstOccurrences(entries: seq<string>)
    ensures Dedup([], entries) == FirstOccurrences(entries)
    decreases |entries|
  {
    hide HasPath, Seen;
    if entries == [] {
    } else {
      var n := |entries| - 1;
      var before := entries[..n];
      DedupIsFirstOccurrences(before);
      assert before + [entries[n]] == entries;
      DedupConcat([], before, [entries[n]]);
      DedupOne(Dedup([], before), entries[n]);
      DedupKeepsKinds([], before, entries[n]);
      HasPathNone(entries[n]);
    }
  }

  lemma HasPathNone(dir: string)
    ensures !HasPath([], dir)
  {}

  lemma {:induction false} DedupDistinct(dirs: seq<string>, more: seq<string>)
    requires Distinct(dirs)
    ensures Distinct(Dedup(dirs, more))
    ensures dirs <= Dedup(dirs, more)
    decreases |more|
  {
    hide KeyOf;
    if more == [] {
    } else {
      DedupDistinct(if more[0] != "" && !HasPath(dirs, more[0]) then dirs + [more[0]] else dirs, more[1..]);
    }
  }

  // Entries that are all represented add nothing.
  lemma {:induction false} DedupAbsorbs(dirs: seq<string>, more: seq<string>)
    requires forall i | 0 <= i < |more| :: more[i] != "" ==> HasPath(dirs, more[i])
    ensures Dedup(dirs, more) == dirs
    decreases |more|
  {
    hide HasPath;
    if more == [] {
    } else {
      DedupAbsorbs(dirs, more[1..]);
    }
  }

  // New distinct entries are all added.
  lemma {:induction false} DedupAdds(dirs: seq<string>, more: seq<string>)
    requires Distinct(dirs + more)
    ensures Dedup(dirs, more) == dirs + more
    decreases |more|
  {
    hide KeyOf;
    if more == [] {
      assert dirs + more == dirs;
    } else {
      assert (dirs + more)[|dirs|] == more[0];
      assert forall i | 0 <= i < |dirs| :: (dirs + more)[i] == dirs[i];
      assert !HasPath(dirs, more[0]);
      assert (dirs + [more[0]]) + more[1..] == dirs + more;
      DedupAdds(dirs + [more[0]], more[1..]);
    }
  }

  lemma HasItself(dirs: seq<string>, i: nat)
    requires i < |dirs|
    ensures HasPath(dirs, dirs[i])
  {}

  lemma SeenItself(entries: seq<string>, i: nat)
    requires i < |entries| && entries[i] != ""
    ensures Seen(entries, entries[i])
  {}

  // Merging the merged list again changes nothing, whichever list comes first.
  lemma DedupStableFirst(s: seq<string>, inherited: seq<string>)
    ensures var merged := Dedup([], s + inherited);
            Dedup([], s + merged) == merged
  {
    hide HasPath;
    var merged := Dedup([], s + inherited);
    var own := Dedup([], s);
    DedupConcat([], s, inherited);
    DedupDistinct([], s);
    DedupDistinct(own, inherited);
    var added := merged[|own|..];
    assert merged == own + added;
    forall i | 0 <= i < |own|
      ensures HasPath(own, own[i])
    {
      HasItself(own, i);
    }
    DedupConcat([], s, merged);
    DedupConcat(own, own, added);
    DedupAbsorbs(own, own);
    DedupAdds(own, added);
  }

  lemma DedupStableSecond(s: seq<string>, inherited: seq<string>)
    ensures var merged := Dedup([], inherited + s);
            Dedup([], merged + s) == merged
  {
    hide HasPath, Seen;
    var merged := Dedup([], inherited + s);
    DedupDistinct([], inherited + s);
    DedupConcat([], inherited, s);
    assert [] + merged == merged;
    DedupAdds([], merged);
    forall i | 0 <= i < |s|
      ensures s[i] != "" ==> HasPath(merged, s[i])
    {
      DedupKeepsKinds(Dedup([], inherited), s, s[i]);
      if s[i] != "" {
        SeenItself(s, i);
      }
    }
    DedupConcat([], merged, s);
    DedupAbsorbs(merged, s);
  }

  lemma {:induction false} DedupKeepsText(dirs: seq<string>, more: seq<string>)
    requires forall i | 0 <= i < |dirs| :: ':' !in dirs[i]
    requires forall i | 0 <= i < |more| :: ':' !in more[i]
    ensures forall i | 0 <= i < |Dedup(dirs, more)| :: ':' !in Dedup(dirs, more)[i]
    decreases |more|
  {
    hide HasPath;
    if more == [] {
    } else {
      DedupKeepsText(if more[0] != "" && !HasPath(dirs, more[0]) then dirs + [more[0]] else dirs, more[1..]);
    }
  }

  lemma {:induction false} SplitAtSeparator(head: string, rest: string)
    requires ':' !in head
    ensures Split(head + ":" + rest, ':') == [head] + Split(rest, ':')
    ensures Split(head, ':') == [head]
    decreases |head|
  {
    var s := head + ":" + rest;
    if head == "" {
      assert s[1..] == rest;
    } else {
      assert s[1..] == head[1..] + ":" + rest;
      SplitAtSeparator(head[1..], rest);
      assert head == [head[0]] + head[1..];
    }
  }

  lemma {:induction false} SplitJoin(dirs: seq<string>)
    requires dirs != [] && forall i | 0 <= i < |dirs| :: ':' !in dirs[i]
    ensures Split(Join(dirs), ':') == dirs
    decreases |dirs|
  {
    SplitAtSeparator(dirs[0], "");
    if |dirs| <= 1 {
    } else {
      SplitAtSeparator(dirs[0], Join(dirs[1..]));
      SplitJoin(dirs[1..]);
    }
  }

  // The merged value reads back as the merged entries, with no entry standing for an empty list.
  lemma MergedEntries(inheritedPath: string, shellPath: string, shellPathFirst: bool)
    ensures var dirs := Dedup([], Entries(inheritedPath, shellPath, shellPathFirst));
            && JoinPaths(dirs) == Some(Join(dirs))
            && Split(Join(dirs), ':') == if dirs == [] then [""] else dirs
  {
    var entries := Entries(inheritedPath, shellPath, shellPathFirst);
    DedupKeepsText([], entries);
    var dirs := Dedup([], entries);
    if dirs != [] {
      SplitJoin(dirs);
    }
  }

  // The value of the last entry with the key.
  function LastValue(vars: seq<Var>, key: string): Option<string> {
    if vars == [] then None
    else
      match LastValue(vars[1..], key)
      case Some(value) => Some(value)
      case None => if vars[0].0 == key then Some(vars[0].1) else None
  }

  // The value of the last importable entry with the key.
  function LastImportable(shell: seq<Var>, key: string): Option<string> {
    if shell == [] then None
    else
      match LastImportable(shell[1..], key)
      case Some(value) => Some(value)
      case None => if shell[0].0 == key && Importable(shell[0]) then Some(shell[0].1) else None
  }

  lemma LastImportableExactly(shell: seq<Var>, key: string)
    ensures match LastImportable(shell, key)
            case Some(value) => Importable((key, value)) && (key, value) in shell
            case None => forall v | v in shell :: v.0 == key ==> !Importable(v)
  {
    hide Importable;
    if LastImportable(shell, key).Some? {
      var i := ImportableIndex(shell, key);
      assert shell[i] == (key, LastImportable(shell, key).value);
    } else {
      forall i | 0 <= i < |shell| ensures shell[i].0 == key ==> !Importable(shell[i]) {
        NoneImportable(shell, key, i);
      }
    }
  }

  lemma {:induction false} ImportableIndex(shell: seq<Var>, key: string) returns (i: nat)
    requires LastImportable(shell, key).Some?
    ensures i < |shell| && shell[i].0 == key && Importable(shell[i]) && LastImportable(shell, key) == Some(shell[i].1)
    decreases |shell|
  {
    hide Importable;
    if LastImportable(shell[1..], key).Some? {
      i := ImportableIndex(shell[1..], key);
      i := i + 1;
    } else {
      i := 0;
    }
  }

  lemma {:induction false} NoneImportable(shell: seq<Var>, key: string, i: nat)
    requires LastImportable(shell, key) == None && i < |shell|
    ensures shell[i].0 == key ==> !Importable(shell[i])
    decreases |shell|
  {
    hide Importable;
    if i == 0 {
    } else {
      NoneImportable(shell[1..], key, i - 1);
    }
  }

  // The last update of a variable is the one that stays.
  lemma {:induction false} LookupApplied(vars: seq<Var>, updates: seq<Var>, key: string)
    ensures Lookup(Apply(vars, updates), key)
         == match LastValue(updates, key) case Some(value) => Some(value) case None => Lookup(vars, key)
    decreases |updates|
  {
    if updates == [] {
    } else {
      LookupSet(vars, updates[0], key);
      LookupApplied(Set(vars, updates[0]), updates[1..], key);
    }
  }

  lemma {:induction false} LastConcat(a: seq<Var>, b: seq<Var>, key: string)
    ensures LastValue(a + b, key) == if LastValue(b, key).Some? then LastValue(b, key) else LastValue(a, key)
    decreases |a|
  {
    if a == [] {
      assert a + b == b;
    } else {
      assert (a + b)[1..] == a[1..] + b;
      LastConcat(a[1..], b, key);
    }
  }

  lemma {:induction false} MissingLast(inherited: seq<Var>, shell: seq<Var>, key: string)
    ensures LastValue(Missing(inherited, shell), key)
         == if Lookup(inherited, key).None? then LastImportable(shell, key) else None
    decreases |shell|
  {
    if shell == [] {
    } else {
      hide Importable, Lookup;
      MissingLast(inherited, shell[1..], key);
      var rest := Missing(inherited, shell[1..]);
      var here := if Importable(shell[0]) && Lookup(inherited, shell[0].0).None? then [shell[0]] else [];
      LastConcat(here, rest, key);
    }
  }

  lemma PathNotMissing(inherited: seq<Var>, shell: seq<Var>)
    ensures LastValue(Missing(inherited, shell), PATH) == None
  {
    PathIsNotImported();
    MissingLast(inherited, shell, PATH);
    LastImportableExactly(shell, PATH);
  }

  // The search path of the process after the merge is applied, and what it holds.
  lemma MergedPath(inherited: seq<Var>, shell: seq<Var>, shellPathFirst: bool)
    requires Lookup(shell, "PATH").Some?
    ensures var entries := Entries(ValueOr(Lookup(inherited, "PATH"), ""), Lookup(shell, "PATH").value, shellPathFirst);
            var merged := Lookup(Apply(inherited, Merge(inherited, shell, shellPathFirst)), "PATH");
            && merged.Some?
            && merged.value == Join(FirstOccurrences(entries))
            && Split(merged.value, ':') == (if FirstOccurrences(entries) == [] then [""] else FirstOccurrences(entries))
            && Distinct(FirstOccurrences(entries))
            && forall dir :: HasPath(FirstOccurrences(entries), dir) <==> Seen(entries, dir)
  {
    hide HasPath, Seen, Distinct, Importable, Merge, Apply, Join, Split, Lookup;
    var entries := Entries(ValueOr(Lookup(inherited, PATH), ""), Lookup(shell, PATH).value, shellPathFirst);
    MergedEntries(ValueOr(Lookup(inherited, PATH), ""), Lookup(shell, PATH).value, shellPathFirst);
    DedupIsFirstOccurrences(entries);
    NoDuplicates(entries);
    MergedValue(inherited, shell, shellPathFirst);
    forall dir
      ensures HasPath(FirstOccurrences(entries), dir) <==> Seen(entries, dir)
    {
      DedupKeepsKinds([], entries, dir);
      HasPathNone(dir);
    }
  }

  lemma MergedValue(inherited: seq<Var>, shell: seq<Var>, shellPathFirst: bool)
    requires Lookup(shell, PATH).Some?
    ensures var entries := Entries(ValueOr(Lookup(inherited, PATH), ""), Lookup(shell, PATH).value, shellPathFirst);
            Lookup(Apply(inherited, Merge(inherited, shell, shellPathFirst)), PATH) == Some(Join(Dedup([], entries)))
  {
    hide HasPath, Importable;
    var inheritedPath, shellPath := Lookup(inherited, PATH), Lookup(shell, PATH).value;
    MergedEntries(ValueOr(inheritedPath, ""), shellPath, shellPathFirst);
    var missing := Missing(inherited, shell);
    var update := PathUpdate(inheritedPath, shellPath, shellPathFirst);
    PathNotMissing(inherited, shell);
    ApplyConcat(inherited, missing, update);
    LookupApplied(inherited, missing, PATH);
    var before := Apply(inherited, missing);
    if update == [] {
      assert Apply(before, update) == before;
    } else {
      assert update[1..] == [];
      LookupSet(before, update[0], PATH);
    }
  }

  lemma NoDuplicates(entries: seq<string>)
    ensures Distinct(Dedup([], entries))
  {
    DedupDistinct([], entries);
  }

  // Every variable but the search path afterwards: the inherited value where there is one, and
  // otherwise the shell's last importable one.
  lemma ImportedExactly(inherited: seq<Var>, shell: seq<Var>, shellPathFirst: bool, key: string)
    requires key != "PATH"
    ensures Lookup(Apply(inherited, Merge(inherited, shell, shellPathFirst)), key)
         == if Lookup(inherited, key).Some? then Lookup(inherited, key) else LastImportable(shell, key)
  {
    hide Importable, Dedup, Entries, JoinPaths, Lookup, Missing, LastImportable;
    var updates := Merge(inherited, shell, shellPathFirst);
    var missing := Missing(inherited, shell);
    var path := updates[|missing|..];
    assert updates == missing + path;
    assert path == [] || path[1..] == [];
    assert LastValue(path, key) == None;
    LastConcat(missing, path, key);
    MissingLast(inherited, shell, key);
    LookupApplied(inherited, updates, key);
  }

  // No inherited variable except the search path changes.
  lemma InheritedKept(inherited: seq<Var>, shell: seq<Var>, shellPathFirst: bool, key: string)
    requires key != PATH && Lookup(inherited, key).Some?
    ensures Lookup(Apply(inherited, Merge(inherited, shell, shellPathFirst)), key) == Lookup(inherited, key)
  {
    ImportedExactly(inherited, shell, shellPathFirst, key);
  }

  // A variable that appears has the value of one the shell has, on the list, and no proxy with
  // credentials.
  lemma OnlyImportableAppears(inherited: seq<Var>, shell: seq<Var>, shellPathFirst: bool, key: string)
    requires key != PATH && Lookup(inherited, key).None?
    requires Lookup(Apply(inherited, Merge(inherited, shell, shellPathFirst)), key).Some?
    ensures exists v :: v in shell && v.0 == key && Importable(v)
              && Lookup(Apply(inherited, Merge(inherited, shell, shellPathFirst)), key) == Some(v.1)
  {
    hide Merge, Importable;
    ImportedExactly(inherited, shell, shellPathFirst, key);
    LastImportableExactly(shell, key);
    var v := (key, LastImportable(shell, key).value);
    assert v in shell;
  }

  // Every importable variable of the shell is there afterwards, with the inherited value or
  // that of an importable entry; the shell's last one wins.
  lemma ImportablePresent(inherited: seq<Var>, shell: seq<Var>, shellPathFirst: bool, i: nat)
    requires i < |shell| && Importable(shell[i])
    ensures var after := Lookup(Apply(inherited, Merge(inherited, shell, shellPathFirst)), shell[i].0);
            && after.Some?
            && (Lookup(inherited, shell[i].0).Some? ==> after == Lookup(inherited, shell[i].0))
            && (Lookup(inherited, shell[i].0).None? ==>
                 && (shell[i].0, after.value) in shell && Importable((shell[i].0, after.value))
                 && (LastImportable(shell[i + 1..], shell[i].0).None? ==> after.value == shell[i].1))
  {
    PathIsNotImported();
    LastImportableExactly(shell, shell[i].0);
    LastFrom(shell, i);
    assert shell[i] in shell;
    hide Merge, LastImportable;
    ImportedExactly(inherited, shell, shellPathFirst, shell[i].0);
  }

  lemma {:induction false} LastFrom(shell: seq<Var>, i: nat)
    requires i < |shell| && Importable(shell[i])
    ensures LastImportable(shell[i + 1..], shell[i].0).None? ==> LastImportable(shell, shell[i].0) == Some(shell[i].1)
    decreases i
  {
    hide Importable;
    if i == 0 {
    } else {
      var rest := shell[1..];
      assert rest[i - 1 + 1..] == shell[i + 1..] && rest[i - 1] == shell[i];
      LastFrom(rest, i - 1);
      assert LastImportable(rest, shell[i].0).Some? ==>
        LastImportable(shell, shell[i].0) == LastImportable(rest, shell[i].0);
    }
  }

  lemma AllEmpty(entries: seq<string>)
    requires Dedup([], entries) == []
    ensures forall i | 0 <= i < |entries| :: entries[i] == ""
  {
    forall i | 0 <= i < |entries|
      ensures entries[i] == ""
    {
      if entries[i] != "" {
        DedupKeepsKinds([], entries, entries[i]);
        SeenItself(entries, i);
        HasPathNone(entries[i]);
      }
    }
  }

  // Merging the shell's path into the merged path gives the merged path.
  lemma PathStable(inheritedPath: string, shellPath: string, shellPathFirst: bool)
    ensures var dirs := Dedup([], Entries(inheritedPath, shellPath, shellPathFirst));
            Dedup([], Entries(Join(dirs), shellPath, shellPathFirst)) == dirs
  {
    hide HasPath;
    var s, i := Split(shellPath, ':'), Split(inheritedPath, ':');
    var entries := Entries(inheritedPath, shellPath, shellPathFirst);
    var dirs := Dedup([], entries);
    MergedEntries(inheritedPath, shellPath, shellPathFirst);
    if dirs == [] {
      AllEmpty(entries);
      assert forall k | 0 <= k < |s| :: s[k] == entries[if shellPathFirst then k else |i| + k];
      DedupAbsorbs([], Entries(Join(dirs), shellPath, shellPathFirst));
    } else if shellPathFirst {
      DedupStableFirst(s, i);
    } else {
      DedupStableSecond(s, i);
    }
  }

  // Applying the updates and merging again yields no updates, in either order.
  lemma MergeIdempotent(inherited: seq<Var>, shell: seq<Var>, shellPathFirst: bool)
    ensures Merge(Apply(inherited, Merge(inherited, shell, shellPathFirst)), shell, shellPathFirst) == []
  {
    hide Importable, HasPath, Seen, Distinct, FirstOccurrences;
    var after := Apply(inherited, Merge(inherited, shell, shellPathFirst));
    forall i | 0 <= i < |shell|
      ensures Importable(shell[i]) ==> Lookup(after, shell[i].0).Some?
    {
      if Importable(shell[i]) {
        ImportablePresent(inherited, shell, shellPathFirst, i);
      }
    }
    NothingMissing(after, shell);
    var shellPath := Lookup(shell, PATH);
    if shellPath.Some? {
      var inheritedPath := ValueOr(Lookup(inherited, PATH), "");
      MergedPath(inherited, shell, shellPathFirst);
      DedupIsFirstOccurrences(Entries(inheritedPath, shellPath.value, shellPathFirst));
      PathStable(inheritedPath, shellPath.value, shellPathFirst);
      MergedEntries(Lookup(after, PATH).value, shellPath.value, shellPathFirst);
    }
  }
}
