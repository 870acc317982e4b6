/**
 Settings: a cached table when a database is open, and otherwise a text file of key=value lines that
 is read line by line and rewritten as a whole.
 */
module Settings {
  import opened Options
  import opened OrderedMap

  // ------------------------------------------------------------ text

  /** The position of the first `c`, or the length when there is none. */
  function IndexOf(s: string, c: char): (n: nat)
    ensures n <= |s|
    ensures n < |s| ==> s[n] == c
    ensures c !in s[..n]
  {
    if s == "" || s[0] == c then 0
    else
      assert s[..1 + IndexOf(s[1..], c)] == [s[0]] + s[1..][..IndexOf(s[1..], c)];
      1 + IndexOf(s[1..], c)
  }

  lemma {:induction false} IndexAt(a: string, c: char, b: string)
    requires c !in a
    ensures IndexOf(a + [c] + b, c) == |a|
  {
    if a != "" {
      assert (a + [c] + b)[1..] == a[1..] + [c] + b;
      IndexAt(a[1..], c, b);
    }
  }

  lemma {:induction false} NoIndex(a: string, c: char)
    requires c !in a
    ensures IndexOf(a, c) == |a|
  {
  }

  /** What is left after the first line. */
  function AfterLine(s: string): (r: string)
    ensures s != "" ==> |r| < |s|
  {
    var n := IndexOf(s, '\n');
    if n < |s| then s[n + 1..] else ""
  }

  /** The lines `getline` yields: a last line needs no newline, an empty rest is no line. */
  function Lines(s: string): seq<string>
    decreases |s|
  {
    if s == "" then []
    else [s[..IndexOf(s, '\n')]] + Lines(AfterLine(s))
  }

  /** Lexicographic order, as `std::string` compares. */
  predicate Before(a: string, b: string) {
    if b == "" then false
    else if a == "" then true
    else if a[0] == b[0] then Before(a[1..], b[1..])
    else a[0] < b[0]
  }

  lemma {:induction false} BeforeAsymmetric(a: string, b: string)
    ensures Before(a, b) ==> !Before(b, a)
  {
    if a != "" && b != "" && a[0] == b[0] { BeforeAsymmetric(a[1..], b[1..]); }
  }

  lemma {:induction false} BeforeTransitive(a: string, b: string, c: string)
    requires Before(a, b) && Before(b, c)
    ensures Before(a, c)
  {
    if a != "" && a[0] == b[0] && b[0] == c[0] { BeforeTransitive(a[1..], b[1..], c[1..]); }
  }

  lemma {:induction false} BeforeTotal(a: string, b: string)
    requires a != b
    ensures Before(a, b) || Before(b, a)
  {
    if a != "" && b != "" && a[0] == b[0] {
      assert a == [a[0]] + a[1..] && b == [b[0]] + b[1..];
      BeforeTotal(a[1..], b[1..]);
    }
  }

  /** At position `n` the strings first differ, `a` being the smaller, or `a` ends there and `b` goes on. */
  ghost predicate SmallerAt(a: string, b: string, n: nat) {
    n <= |a| && n < |b| && a[..n] == b[..n] && (n == |a| || a[n] < b[n])
  }

  lemma {:induction false} SmallerIsBefore(a: string, b: string, n: nat)
    requires SmallerAt(a, b, n)
    ensures Before(a, b)
  {
    if n > 0 {
      assert a[0] == a[..n][0] == b[..n][0] == b[0];
      assert a[1..][..n - 1] == a[..n][1..] && b[1..][..n - 1] == b[..n][1..];
      SmallerIsBefore(a[1..], b[1..], n - 1);
    }
  }

  lemma {:induction false} BeforeIsSmaller(a: string, b: string) returns (n: nat)
    requires Before(a, b)
    ensures SmallerAt(a, b, n)
  {
    if a != "" && a[0] == b[0] {
      var m := BeforeIsSmaller(a[1..], b[1..]);
      n := m + 1;
      assert a[..n] == [a[0]] + a[1..][..m] && b[..n] == [b[0]] + b[1..][..m];
    } else {
      n := 0;
    }
  }

  /** The order of keys is that of a dictionary: the first difference decides, and a prefix comes first. */
  lemma {:induction false} BeforeIff(a: string, b: string)
    ensures Before(a, b) <==> exists n: nat :: SmallerAt(a, b, n)
  {
    if Before(a, b) { var n := BeforeIsSmaller(a, b); }
    if n: nat :| SmallerAt(a, b, n) { SmallerIsBefore(a, b, n); }
  }

  const Lexicographic: (string, string) -> bool := (a, b) => Before(a, b)

  lemma LexicographicIsOrder()
    ensures StrictOrder(Lexicographic)
  {
    forall a, b ensures Lexicographic(a, b) ==> !Lexicographic(b, a) { BeforeAsymmetric(a, b); }
    forall a, b, c | Lexicographic(a, b) && Lexicographic(b, c) ensures Lexicographic(a, c) {
      BeforeTransitive(a, b, c);
    }
    forall a, b | a != b ensures Lexicographic(a, b) || Lexicographic(b, a) { BeforeTotal(a, b); }
  }

  // ------------------------------------------------------------ the file, as a specification

  type Bindings = seq<Entry<string, string>>

  predicate Matches(line: string, key: string) {
    |line| > |key| + 1 && line[..|key| + 1] == key + "="
  }

  function AfterKey(line: string, key: string): string
    requires Matches(line, key)
  {
    line[|key| + 1..]
  }

  function FirstMatch(ls: seq<string>, key: string): string {
    if ls == [] then ""
    else if Matches(ls[0], key) then AfterKey(ls[0], key)
    else FirstMatch(ls[1..], key)
  }

  /** Reading: the rest of the first line that begins with `key=` and has a value. */
  function Read(file: Option<string>, key: string): string {
    match file
    case None => ""
    case Some(text) => FirstMatch(Lines(text), key)
  }

  function AddLine(m: Bindings, line: string): Bindings {
    var eq := IndexOf(line, '=');
    if eq < |line| then Put(m, line[..eq], line[eq + 1..], Lexicographic) else m
  }

  /** Rewriting starts from a map in which the last line for a key wins. */
  function Parsed(ls: seq<string>): Bindings {
    if ls == [] then [] else AddLine(Parsed(ls[..|ls| - 1]), ls[|ls| - 1])
  }

  function LineOf(e: Entry<string, string>): string {
    e.key + "=" + e.value
  }

  function Render(m: Bindings): string {
    if m == [] then "" else LineOf(m[0]) + "\n" + Render(m[1..])
  }

  function Contents(file: Option<string>): Bindings {
    match file
    case None => []
    case Some(text) => Parsed(Lines(text))
  }

  function Written(file: Option<string>, key: string, value: string): string {
    Render(Put(Contents(file), key, value, Lexicographic))
  }

  function Lookup(m: Bindings, key: string): string {
    match Find(m, key)
    case None => ""
    case Some(v) => v
  }

  // ------------------------------------------------------------ the file, as a program

  lemma {:induction false} FirstMatchStep(rest: string, key: string)
    requires rest != ""
    ensures var line := rest[..IndexOf(rest, '\n')];
            FirstMatch(Lines(rest), key) ==
              if Matches(line, key) then AfterKey(line, key) else FirstMatch(Lines(AfterLine(rest)), key)
  {
    assert Lines(rest)[1..] == Lines(AfterLine(rest));
  }

  lemma NothingParsed()
    ensures Parsed([]) == [] && Lines("") == []
    ensures forall key :: FirstMatch([], key) == ""
  {
  }

  lemma {:induction false} OneLine(done: seq<string>, rest: string)
    requires rest != ""
    ensures done + Lines(rest) == done + [rest[..IndexOf(rest, '\n')]] + Lines(AfterLine(rest))
  {
  }

  lemma RenderStep(m: Bindings, i: nat, out: string)
    requires i < |m|
    ensures out + Render(m[i..]) == out + (m[i].key + "=" + m[i].value + "\n") + Render(m[i + 1..])
  {
    assert m[i..][1..] == m[i + 1..];
  }

  lemma RenderEnd(m: Bindings, out: string)
    ensures out + Render(m[|m|..]) == out
  {
  }

  lemma {:induction false} ParsedStep(done: seq<string>, line: string)
    ensures Parsed(done + [line]) == AddLine(Parsed(done), line)
  {
    assert (done + [line])[..|done|] == done;
  }

  class SettingsFile {
    var content: Option<string>

    constructor (content: Option<string>)
      ensures this.content == content
    {
      this.content := content;
    }

    method ReadSetting(key: string) returns (value: string)
      ensures value == Read(content, key)
    {
      hide FirstMatch, Lines, IndexOf, Matches;
      if content.None? { return ""; }
      var rest := content.value;
      while rest != ""
        invariant FirstMatch(Lines(rest), key) == Read(content, key)
        decreases |rest|
      {
        var n := IndexOf(rest, '\n');
        var line := rest[..n];
        FirstMatchStep(rest, key);
        if Matches(line, key) { return AfterKey(line, key); }
        rest := if n < |rest| then rest[n + 1..] else "";
      }
      NothingParsed();
      return "";
    }

    method WriteSetting(key: string, value: string)
      modifies this
      ensures content == Some(Written(old(content), key, value))
    {
      hide Parsed, Lines, Put, Render, IndexOf;
      var m: Bindings := [];
      if content.Some? {
        var rest := content.value;
        ghost var done: seq<string> := [];
        NothingParsed();
        while rest != ""
          invariant unchanged(this)
          invariant done + Lines(rest) == Lines(content.value) && m == Parsed(done)
          decreases |rest|
        {
          var n := IndexOf(rest, '\n');
          var line := rest[..n];
          ParsedStep(done, line);
          OneLine(done, rest);
          done := done + [line];
          rest := if n < |rest| then rest[n + 1..] else "";
          var eq := IndexOf(line, '=');
          if eq < |line| { m := Put(m, line[..eq], line[eq + 1..], Lexicographic); }
        }
        assert done == Lines(content.value);
      }
      m := Put(m, key, value, Lexicographic);
      var out := "";
      for i := 0 to |m|
        invariant unchanged(this) && out + Render(m[i..]) == Render(m)
      {
        RenderStep(m, i, out);
        out := out + (m[i].key + "=" + m[i].value + "\n");
      }
      RenderEnd(m, out);
      content := Some(out);
    }
  }

  // ------------------------------------------------------------ what the writer produces

  predicate GoodKey(k: string) {
    '=' !in k && '\n' !in k
  }

  predicate GoodValue(v: string) {
    '\n' !in v
  }

  ghost predicate Good(m: Bindings) {
    Sorted(m, Lexicographic) && forall i :: 0 <= i < |m| ==> GoodKey(m[i].key) && GoodValue(m[i].value)
  }

  lemma {:induction false} LinesHaveNoNewline(s: string)
    ensures forall i :: 0 <= i < |Lines(s)| ==> '\n' !in Lines(s)[i]
    decreases |s|
  {
    if s != "" {
      var n := IndexOf(s, '\n');
      if n < |s| { LinesHaveNoNewline(s[n + 1..]); }
    }
  }

  lemma {:induction false} PutIsGood(m: Bindings, k: string, v: string)
    requires Good(m) && GoodKey(k) && GoodValue(v)
    ensures Good(Put(m, k, v, Lexicographic))
  {
    LexicographicIsOrder();
    PutSorts(m, k, v, Lexicographic);
    PutKeys(m, k, v, Lexicographic);
    var p := Put(m, k, v, Lexicographic);
    forall i | 0 <= i < |p| ensures GoodKey(p[i].key) && GoodValue(p[i].value) {
      assert p[i] in p;
    }
  }

  lemma {:induction false} ParsedIsGood(ls: seq<string>)
    requires forall i :: 0 <= i < |ls| ==> '\n' !in ls[i]
    ensures Good(Parsed(ls))
  {
    if ls != [] {
      ParsedIsGood(ls[..|ls| - 1]);
      var line := ls[|ls| - 1];
      var eq := IndexOf(line, '=');
      if eq < |line| { PutIsGood(Parsed(ls[..|ls| - 1]), line[..eq], line[eq + 1..]); }
    }
  }

  lemma ContentsAreGood(file: Option<string>)
    ensures Good(Contents(file))
  {
    if file.Some? {
      LinesHaveNoNewline(file.value);
      ParsedIsGood(Lines(file.value));
    }
  }

  function EntryLines(m: Bindings): (ls: seq<string>)
    ensures |ls| == |m|
  {
    seq(|m|, i requires 0 <= i < |m| => LineOf(m[i]))
  }

  lemma {:induction false} FirstLine(line: string, rest: string)
    requires '\n' !in line
    ensures Lines(line + ['\n'] + rest) == [line] + Lines(rest)
  {
    var s := line + ['\n'] + rest;
    IndexAt(line, '\n', rest);
    assert s[..|line|] == line && s[|line| + 1..] == rest;
  }

  lemma {:induction false} RenderedLines(m: Bindings)
    requires forall i :: 0 <= i < |m| ==> '\n' !in m[i].key && GoodValue(m[i].value)
    ensures Lines(Render(m)) == EntryLines(m)
  {
    hide Lines;
    if m == [] {
      NothingParsed();
    } else {
      var line := LineOf(m[0]);
      NoNewlineInEntry(m[0]);
      RenderedLines(m[1..]);
      FirstLine(line, Render(m[1..]));
      assert Render(m) == line + ['\n'] + Render(m[1..]);
      EntryLinesStep(m);
    }
  }

  lemma NoNewlineInEntry(e: Entry<string, string>)
    requires '\n' !in e.key && GoodValue(e.value)
    ensures '\n' !in LineOf(e)
  {
  }

  lemma EntryLinesStep(m: Bindings)
    requires m != []
    ensures EntryLines(m) == [LineOf(m[0])] + EntryLines(m[1..])
  {
  }

  /** Only the line of the key itself begins with `key=`. */
  lemma MatchIsOwnLine(e: Entry<string, string>, key: string)
    requires '=' !in e.key && '=' !in key
    ensures Matches(LineOf(e), key) <==> e.key == key && e.value != ""
    ensures e.key == key && e.value != "" ==> AfterKey(LineOf(e), key) == e.value
  {
    var line := LineOf(e);
    assert line == e.key + ['='] + e.value;
    IndexAt(e.key, '=', e.value);
    if Matches(line, key) {
      assert line == line[..|key| + 1] + line[|key| + 1..];
      assert line == key + ['='] + line[|key| + 1..];
      IndexAt(key, '=', line[|key| + 1..]);
      assert line[..|key|] == key && line[..|e.key|] == e.key;
    }
    if e.key == key && e.value != "" { assert line[..|key| + 1] == key + "="; }
  }

  lemma {:induction false} PutAtEnd(m: Bindings, e: Entry<string, string>)
    requires Sorted(m + [e], Lexicographic)
    ensures Put(m, e.key, e.value, Lexicographic) == m + [e]
  {
    if m != [] {
      LexicographicIsOrder();
      assert Lexicographic((m + [e])[0].key, (m + [e])[|m|].key);
      assert m + [e] == [m[0]] + (m[1..] + [e]);
      forall i, j | 0 <= i < j < |m[1..] + [e]| ensures Lexicographic((m[1..] + [e])[i].key, (m[1..] + [e])[j].key) {
        assert (m[1..] + [e])[i] == (m + [e])[i + 1] && (m[1..] + [e])[j] == (m + [e])[j + 1];
      }
      PutAtEnd(m[1..], e);
    }
  }

  lemma GoodPrefix(m: Bindings, n: nat)
    requires Good(m) && n < |m|
    ensures Good(m[..n]) && Sorted(m[..n] + [m[n]], Lexicographic) && GoodKey(m[n].key)
  {
  }

  lemma {:induction false} AddEntryLine(m: Bindings, e: Entry<string, string>)
    requires GoodKey(e.key)
    ensures AddLine(m, LineOf(e)) == Put(m, e.key, e.value, Lexicographic)
  {
    var line := LineOf(e);
    assert line == e.key + ['='] + e.value;
    IndexAt(e.key, '=', e.value);
    assert line[..|e.key|] == e.key && line[|e.key| + 1..] == e.value;
  }

  lemma EntryLinesEnd(m: Bindings)
    requires m != []
    ensures EntryLines(m) == EntryLines(m[..|m| - 1]) + [LineOf(m[|m| - 1])]
  {
  }

  /** Parsing what was rendered gives the same bindings. */
  lemma {:induction false} ParsedRendering(m: Bindings)
    requires Good(m)
    ensures Parsed(EntryLines(m)) == m
  {
    if m != [] {
      var n := |m| - 1;
      var e := m[n];
      GoodPrefix(m, n);
      ParsedRendering(m[..n]);
      hide Put, Parsed, Good, Sorted, AddLine, EntryLines, LineOf;
      EntryLinesEnd(m);
      ParsedStep(EntryLines(m[..n]), LineOf(e));
      AddEntryLine(m[..n], e);
      assert m[..n] + [e] == m;
      PutAtEnd(m[..n], e);
    }
  }

  /** What the last line for a key says; unlike reading, this accepts a line without a value. */
  function LastLine(ls: seq<string>, key: string): string {
    if ls == [] then ""
    else
      var line := ls[|ls| - 1];
      var eq := IndexOf(line, '=');
      if eq < |line| && line[..eq] == key then line[eq + 1..] else LastLine(ls[..|ls| - 1], key)
  }

  lemma {:induction false} LookupIsLastLine(ls: seq<string>, q: string)
    requires forall i :: 0 <= i < |ls| ==> '\n' !in ls[i]
    ensures Lookup(Parsed(ls), q) == LastLine(ls, q)
  {
    if ls != [] {
      var before, line := ls[..|ls| - 1], ls[|ls| - 1];
      LookupIsLastLine(before, q);
      ParsedIsGood(before);
      LexicographicIsOrder();
      var eq := IndexOf(line, '=');
      if eq < |line| { FindAfterPut(Parsed(before), line[..eq], line[eq + 1..], Lexicographic, q); }
    }
  }

  lemma {:induction false} MatchHasNoNewline(ls: seq<string>, key: string)
    requires forall i :: 0 <= i < |ls| ==> '\n' !in ls[i]
    ensures '\n' !in FirstMatch(ls, key)
  {
    if ls != [] { MatchHasNoNewline(ls[1..], key); }
  }

  lemma MatchContainsKey(line: string, key: string, c: char)
    requires Matches(line, key) && c in key
    ensures c in line
  {
    var i :| 0 <= i < |key| && key[i] == c;
    assert line[i] == line[..|key| + 1][i];
  }

  lemma {:induction false} NoMatchForNewline(ls: seq<string>, key: string)
    requires '\n' in key && forall i :: 0 <= i < |ls| ==> '\n' !in ls[i]
    ensures FirstMatch(ls, key) == ""
  {
    hide Matches;
    if ls != [] {
      NoMatchForNewline(ls[1..], key);
      if Matches(ls[0], key) { MatchContainsKey(ls[0], key, '\n'); }
    }
  }

  /** A key with '=' is cut at its first one when the file is parsed. */
  function Head(key: string): string {
    key[..IndexOf(key, '=')]
  }

  lemma {:induction false} PrefixIsBefore(a: string, b: string)
    requires b != ""
    ensures Before(a, a + b)
  {
    if a != "" {
      assert (a + b)[1..] == a[1..] + b;
      PrefixIsBefore(a[1..], b);
    }
  }

  lemma HeadIsBefore(key: string)
    requires '=' in key
    ensures '=' !in Head(key) && Lexicographic(Head(key), key) && Head(key) != key
  {
    var n := IndexOf(key, '=');
    assert key[..|key|] == key;
    PrefixIsBefore(key[..n], key[n..]);
    assert key[..n] + key[n..] == key;
  }

  lemma SameHead(a: string, x: string, b: string, y: string)
    requires '=' !in a && '=' !in b && a + ['='] + x == b + ['='] + y
    ensures a == b
  {
    var line := a + ['='] + x;
    IndexAt(a, '=', x);
    IndexAt(b, '=', y);
    assert line[..|a|] == a && line[..|b|] == b;
  }

  lemma SplitAtHead(key: string)
    requires '=' in key
    ensures |Head(key)| < |key| && key == Head(key) + ['='] + key[|Head(key)| + 1..]
  {
    assert key[..|key|] == key;
  }

  /** Of the lines whose own key has no '=', only that of the head can begin with a key that has one. */
  lemma MatchIsHeadLine(e: Entry<string, string>, key: string)
    requires '=' !in e.key && '=' in key && Matches(LineOf(e), key)
    ensures e.key == Head(key)
  {
    var line, h := LineOf(e), Head(key);
    HeadIsBefore(key);
    SplitAtHead(key);
    hide Head, Before;
    assert line == e.key + ['='] + e.value;
    var tail := "=" + line[|key| + 1..];
    assert line == key + tail;
    assert line == h + ['='] + (key[|h| + 1..] + tail);
    SameHead(e.key, e.value, h, key[|h| + 1..] + tail);
  }

  /** The line of a key with '=' itself. */
  lemma OwnLine(key: string, v: string)
    ensures Matches(LineOf(Entry(key, v)), key) <==> v != ""
    ensures v != "" ==> AfterKey(LineOf(Entry(key, v)), key) == v
  {
    var line := LineOf(Entry(key, v));
    assert line[..|key| + 1] == key + "=";
    assert line[|key| + 1..] == v;
  }

  lemma HeadOfPlain(key: string)
    requires '=' !in key
    ensures Head(key) == key
  {
    NoIndex(key, '=');
    assert key[..|key|] == key;
  }

  // ------------------------------------------------------------ what any write does to any reading

  /** What the lines of one entry say of a key; a newline in the entry makes several lines of it. */
  function Saying(e: Entry<string, string>, q: string): string {
    FirstMatch(Lines(LineOf(e) + "\n"), q)
  }

  /** What the remaining lines of the old file say of a key: its entry is the one filed under its head, and
      the written key replaces its own. */
  function Kept(m: Bindings, key: string, q: string): string {
    if Head(q) == key then ""
    else match Find(m, Head(q))
      case None => ""
      case Some(v) => Saying(Entry(Head(q), v), q)
  }

  /** The first of the two that says something, in the order of the entries. */
  function Effective(m: Bindings, key: string, value: string, q: string): string {
    var own, kept := Saying(Entry(key, value), q), Kept(m, key, q);
    if own == "" || (kept != "" && Before(Head(q), key)) then kept else own
  }

  function Scan(m: Bindings, q: string): string {
    if m == [] then "" else if Saying(m[0], q) != "" then Saying(m[0], q) else Scan(m[1..], q)
  }

  lemma {:induction false} FirstMatchConcat(a: seq<string>, b: seq<string>, q: string)
    ensures FirstMatch(a + b, q) == if FirstMatch(a, q) != "" then FirstMatch(a, q) else FirstMatch(b, q)
  {
    if a == [] {
      assert a + b == b;
    } else {
      assert (a + b)[1..] == a[1..] + b;
      FirstMatchConcat(a[1..], b, q);
    }
  }

  /** Text that ends with a newline is split on its own. */
  lemma {:induction false} LinesConcat(a: string, b: string)
    ensures Lines(a + "\n" + b) == Lines(a + "\n") + Lines(b)
    decreases |a|
  {
    hide Lines;
    var n := IndexOf(a, '\n');
    NothingParsed();
    if n == |a| {
      assert a[..n] == a;
      FirstLine(a, b);
      FirstLine(a, "");
      assert a + ['\n'] + b == a + "\n" + b && a + ['\n'] + "" == a + "\n";
    } else {
      var line, rest := a[..n], a[n + 1..];
      assert a == line + ['\n'] + rest;
      LinesConcat(rest, b);
      FirstLine(line, rest + "\n" + b);
      FirstLine(line, rest + "\n");
      assert line + ['\n'] + (rest + "\n" + b) == a + "\n" + b;
      assert line + ['\n'] + (rest + "\n") == a + "\n";
    }
  }

  lemma {:induction false} ReadRendered(m: Bindings, q: string)
    ensures FirstMatch(Lines(Render(m)), q) == Scan(m, q)
  {
    hide Lines, FirstMatch;
    if m == [] {
      NothingParsed();
    } else {
      var line, rest := LineOf(m[0]), Render(m[1..]);
      ReadRendered(m[1..], q);
      LinesConcat(line, rest);
      FirstMatchConcat(Lines(line + "\n"), Lines(rest), q);
    }
  }

  lemma OneSaying(e: Entry<string, string>, q: string)
    requires '\n' !in e.key && GoodValue(e.value)
    ensures Saying(e, q) == if Matches(LineOf(e), q) then AfterKey(LineOf(e), q) else ""
  {
    hide LineOf, Lines;
    NoNewlineInEntry(e);
    FirstLine(LineOf(e), "");
    NothingParsed();
    assert LineOf(e) + ['\n'] + "" == LineOf(e) + "\n";
    assert [LineOf(e)] + [] == [LineOf(e)];
    OneMatch(LineOf(e), q);
  }

  lemma {:induction false} OneMatch(line: string, q: string)
    ensures FirstMatch([line], q) == if Matches(line, q) then AfterKey(line, q) else ""
  {
    assert [line][1..] == [];
  }

  /** An entry whose key has no '=' speaks only of keys with that head. */
  lemma SpeaksOfHead(e: Entry<string, string>, q: string)
    requires GoodKey(e.key) && GoodValue(e.value) && Saying(e, q) != ""
    ensures e.key == Head(q)
  {
    hide Saying, Matches, Head;
    OneSaying(e, q);
    if '=' in q {
      MatchIsHeadLine(e, q);
    } else {
      MatchIsOwnLine(e, q);
      HeadOfPlain(q);
    }
  }

  lemma GoodTail(m: Bindings)
    requires Good(m) && m != []
    ensures Good(m[1..]) && GoodKey(m[0].key) && GoodValue(m[0].value)
    ensures forall k :: k == m[0].key || Lexicographic(k, m[0].key) ==> Find(m[1..], k) == None
  {
    LexicographicIsOrder();
    forall k | k == m[0].key || Lexicographic(k, m[0].key) ensures Find(m[1..], k) == None {
      forall i | 0 <= i < |m[1..]| ensures m[1..][i].key != k {
        assert Lexicographic(m[0].key, m[i + 1].key);
      }
      AbsentBelow(m[1..], k);
    }
  }

  /** The bindings of a parsed file speak of a key with one voice. */
  lemma {:induction false} ScanIsKept(m: Bindings, key: string, q: string)
    requires Good(m)
    ensures Find(m, key) == None || Head(q) != key ==> Scan(m, q) == Kept(m, key, q)
  {
    hide Saying, Head, Good, Lexicographic;
    if m != [] {
      GoodTail(m);
      ScanIsKept(m[1..], key, q);
      if Saying(m[0], q) != "" { SpeaksOfHead(m[0], q); }
      if m[0].key == Head(q) { assert m[0] == Entry(Head(q), m[0].value); }
    }
  }

  lemma {:induction false} KeptIsLater(m: Bindings, key: string, q: string)
    requires Good(m) && (m == [] || m[0].key == key || Lexicographic(key, m[0].key))
    ensures Before(Head(q), key) ==> Kept(m, key, q) == ""
  {
    hide Saying, Head, Before;
    LexicographicIsOrder();
    if m != [] && Lexicographic(Head(q), key) {
      GoodTail(m);
      assert Lexicographic(Head(q), m[0].key) && Head(q) != m[0].key;
    }
  }

  lemma {:induction false} ScanOfPut(m: Bindings, key: string, value: string, q: string)
    requires Good(m)
    ensures Scan(Put(m, key, value, Lexicographic), q) == Effective(m, key, value, q)
  {
    hide Saying, Head, Good, Before;
    var own := Entry(key, value);
    if m == [] {
      assert [own][1..] == [];
    } else {
      GoodTail(m);
      var p := Put(m, key, value, Lexicographic);
      if m[0].key == key {
        assert p[1..] == m[1..];
        KeptIsLater(m, key, q);
        ScanIsKept(m[1..], key, q);
      } else if Lexicographic(key, m[0].key) {
        assert p[1..] == m;
        KeptIsLater(m, key, q);
        AbsentFrom(m, key);
        ScanIsKept(m, key, q);
      } else {
        assert p[1..] == Put(m[1..], key, value, Lexicographic);
        ScanOfPut(m[1..], key, value, q);
        LexicographicIsOrder();
        if Saying(m[0], q) != "" { SpeaksOfHead(m[0], q); }
        if m[0].key == Head(q) { assert m[0] == Entry(Head(q), m[0].value); }
      }
    }
  }

  lemma {:induction false} AbsentFrom(m: Bindings, k: string)
    requires Good(m) && m != [] && Lexicographic(k, m[0].key)
    ensures Find(m, k) == None
  {
    LexicographicIsOrder();
    GoodTail(m);
  }

  /** What any write makes of any reading, whatever the file, the key, the value and the key read. */
  lemma ReadAfterWrite(file: Option<string>, key: string, value: string, q: string)
    ensures Read(Some(Written(file, key, value)), q) == Effective(Contents(file), key, value, q)
  {
    hide Lines, Effective, Scan, Render, Put;
    ContentsAreGood(file);
    ReadRendered(Put(Contents(file), key, value, Lexicographic), q);
    ScanOfPut(Contents(file), key, value, q);
  }

  /** The old file's voice on a key without '=' is its last line for that key. */
  lemma KeptIsLookup(m: Bindings, key: string, q: string)
    requires Good(m) && '=' !in q && q != key
    ensures Kept(m, key, q) == Lookup(m, q)
  {
    HeadOfPlain(q);
    if Find(m, q).Some? {
      FoundIsGood(m, q);
      var e := Entry(q, Find(m, q).value);
      OneSaying(e, q);
      MatchIsOwnLine(e, q);
    }
  }

  lemma {:induction false} FoundIsGood(m: Bindings, q: string)
    requires Good(m) && Find(m, q).Some?
    ensures GoodKey(q) && GoodValue(Find(m, q).value)
  {
    GoodTail(m);
    if m[0].key != q { FoundIsGood(m[1..], q); }
  }

  /** A plain write: the written key reads as written, the empty value included, and every other key as
      its last line in the old file says. */
  lemma PlainWrite(file: Option<string>, key: string, value: string, q: string)
    requires GoodKey(key) && GoodValue(value) && '=' !in q
    ensures Read(Some(Written(file, key, value)), q) == if q == key then value else Lookup(Contents(file), q)
  {
    hide Saying, Head, Before, Written, Read, Matches, LineOf;
    var own := Entry(key, value);
    ReadAfterWrite(file, key, value, q);
    ContentsAreGood(file);
    OneSaying(own, q);
    MatchIsOwnLine(own, q);
    HeadOfPlain(q);
    if q != key { KeptIsLookup(Contents(file), key, q); }
  }

  /** A file that one plain write produced holds one line per key: reading it is looking up its contents. */
  lemma PlainFilesAreMaps(file: Option<string>, key: string, value: string, q: string)
    requires GoodKey(key) && GoodValue(value) && '=' !in q
    ensures var written := Some(Written(file, key, value));
            Read(written, q) == Lookup(Contents(written), q)
  {
    var m := Put(Contents(file), key, value, Lexicographic);
    PlainWrite(file, key, value, q);
    ContentsAreGood(file);
    PutIsGood(Contents(file), key, value);
    RenderedLines(m);
    ParsedRendering(m);
    LexicographicIsOrder();
    FindAfterPut(Contents(file), key, value, Lexicographic, q);
  }

  /** Exactly when reading a file that any write produced is looking up its contents, which a plain write
      guarantees: the first line for the key that has a value agrees with the last one. */
  lemma {:induction false} WriterFilesAreMaps(file: Option<string>, key: string, value: string, q: string)
    requires '=' !in q
    ensures var text := Written(file, key, value);
            && (Read(Some(text), q) == Lookup(Contents(Some(text)), q) <==>
                FirstMatch(Lines(text), q) == LastLine(Lines(text), q))
            && (GoodKey(key) && GoodValue(value) ==> Read(Some(text), q) == Lookup(Contents(Some(text)), q))
  {
    hide Lines, FirstMatch, LastLine, Lookup, Written;
    var text := Written(file, key, value);
    LinesHaveNoNewline(text);
    LookupIsLastLine(Lines(text), q);
    if GoodKey(key) && GoodValue(value) { PlainFilesAreMaps(file, key, value, q); }
  }

  /** Exactly when any further write to such a file leaves the reading of another key alone: the written
      line says nothing of that key, or the same, or comes after a line that does. */
  lemma {:induction false} WriteLeavesOthersAloneIff(file: Option<string>, k0: string, v0: string, key: string,
                                                     value: string, q: string)
    requires GoodKey(k0) && GoodValue(v0) && '=' !in q && q != key
    ensures var before := Some(Written(file, k0, v0));
            var own := Saying(Entry(key, value), q);
            Read(Some(Written(before, key, value)), q) == Read(before, q) <==>
            own == "" || own == Read(before, q) || (Read(before, q) != "" && Before(q, key))
  {
    hide Saying, Written, Read, Before, Lookup, Contents;
    var before := Some(Written(file, k0, v0));
    ReadAfterWrite(before, key, value, q);
    PlainFilesAreMaps(file, k0, v0, q);
    ContentsAreGood(before);
    KeptIsLookup(Contents(before), key, q);
    HeadOfPlain(q);
  }

  /** A plain write to such a file says nothing of any other key. */
  lemma WriteLeavesOthersAlone(file: Option<string>, k0: string, v0: string, key: string, value: string, q: string)
    requires GoodKey(k0) && GoodValue(v0) && GoodKey(key) && GoodValue(value) && '=' !in q
    ensures var before := Some(Written(file, k0, v0));
            Read(Some(Written(before, key, value)), q) == if q == key then value else Read(before, q)
  {
    hide Written, Read, Lookup, Contents;
    PlainFilesAreMaps(file, k0, v0, q);
    PlainWrite(Some(Written(file, k0, v0)), key, value, q);
  }

  /** On any file, whoever wrote it, exactly when any write leaves the reading of another key alone. */
  lemma {:induction false} WriteKeepsReadingIff(text: string, key: string, value: string, q: string)
    requires '=' !in q && q != key
    ensures var own, first, last := Saying(Entry(key, value), q), FirstMatch(Lines(text), q), LastLine(Lines(text), q);
            Read(Some(Written(Some(text), key, value)), q) == Read(Some(text), q) <==>
            first == if own == "" || (last != "" && Before(q, key)) then last else own
  {
    hide Saying, Written, Before, Lookup, Lines, FirstMatch;
    ReadAfterWrite(Some(text), key, value, q);
    LinesHaveNoNewline(text);
    LookupIsLastLine(Lines(text), q);
    ContentsAreGood(Some(text));
    KeptIsLookup(Contents(Some(text)), key, q);
    HeadOfPlain(q);
  }

  /** What a key without a newline reads as after a write of a value without one. */
  lemma PlainReading(file: Option<string>, key: string, value: string)
    requires '\n' !in key && GoodValue(value)
    ensures Read(Some(Written(file, key, value)), key) ==
              var older := Kept(Contents(file), key, key);
              if older != "" then older else value
  {
    hide Saying, Written, Read, Before, Head, Matches, AfterKey, LineOf;
    ReadAfterWrite(file, key, value, key);
    OneSaying(Entry(key, value), key);
    OwnLine(key, value);
    if '=' in key { HeadIsBefore(key); } else { HeadOfPlain(key); }
  }

  /** Exactly when a setting is read back as written, for every key, value and file.  A key with a newline
      is never found; a value with one is cut; and a key with '=' reads as an older line for its head says,
      when there is one that begins like it. */
  lemma ReadsBackIff(file: Option<string>, key: string, value: string)
    ensures Read(Some(Written(file, key, value)), key) == value <==>
            if '\n' in key then value == ""
            else GoodValue(value) && Kept(Contents(file), key, key) in {"", value}
  {
    hide Lines, FirstMatch, Written, Kept;
    var text := Written(file, key, value);
    LinesHaveNoNewline(text);
    MatchHasNoNewline(Lines(text), key);
    if '\n' in key {
      NoMatchForNewline(Lines(text), key);
    } else if GoodValue(value) {
      PlainReading(file, key, value);
    }
  }

  lemma OneBinding(e: Entry<string, string>)
    requires GoodKey(e.key) && GoodValue(e.value)
    ensures Contents(Some(LineOf(e) + ['\n'] + "")) == [e]
  {
    FirstLine(LineOf(e), "");
    NothingParsed();
    ParsedStep([], LineOf(e));
    AddEntryLine([], e);
    hide Lines, Parsed;
    assert [LineOf(e)] + [] == [] + [LineOf(e)];
  }

  /** In a file that has a line for a key with '=', what is written to that key is never read. */
  lemma StaleKey(h: string, k: string, older: string, value: string)
    requires GoodKey(h) && '\n' !in k && GoodValue(older) && GoodValue(value) && older != ""
    ensures var key, file := h + ['='] + k, Some(h + ['='] + k + ['='] + older + ['\n']);
            Read(Some(Written(file, key, value)), key) == older
  {
    var key, e := h + ['='] + k, Entry(h, k + ['='] + older);
    var file := Some(h + ['='] + k + ['='] + older + ['\n']);
    var line := LineOf(e);
    IndexAt(h, '=', k);
    assert Head(key) == h;
    assert line == key + ['='] + older;
    assert line[..|key| + 1] == key + "=" && line[|key| + 1..] == older;
    assert line == h + ['='] + k + ['='] + older;
    hide Read, Written, Head, LineOf;
    assert file.value == line + ['\n'] + "";
    OneSaying(e, key);
    OneBinding(e);
    PlainReading(file, key, value);
  }

  lemma StaleExample()
    ensures Read(Some(Written(Some("a=b=old\n"), "a=b", "new")), "a=b") == "old"
  {
    hide Read, Written;
    StaleKey("a", "b", "old", "new");
    assert "a" + ['='] + "b" == "a=b";
    assert "a" + ['='] + "b" + ['='] + "old" + ['\n'] == "a=b=old\n";
  }

  lemma NoFileContents()
    ensures Contents(None) == []
  {
  }

  /** Writing a key with '=' to no file sets another key. */
  lemma EqualsSetsAnother()
    ensures Read(Some(Written(None, "a=b", "v")), "a") == "b=v"
  {
    hide Read, Written, Saying, Before;
    var e := Entry("a=b", "v");
    ReadAfterWrite(None, "a=b", "v", "a");
    NoFileContents();
    OneSaying(e, "a");
    HeadOfPlain("a");
    assert LineOf(e) == "a=b=v";
    assert Matches("a=b=v", "a") && AfterKey("a=b=v", "a") == "b=v";
  }

  /** Writing a value with a newline to no file sets another key. */
  lemma NewlineSetsAnother()
    ensures Read(Some(Written(None, "a", "1\nb=2")), "b") == "2"
  {
    hide Read, Written, Before, Lines;
    var e := Entry("a", "1\nb=2");
    ReadAfterWrite(None, "a", "1\nb=2", "b");
    NoFileContents();
    HeadOfPlain("b");
    assert LineOf(e) + "\n" == "a=1" + ['\n'] + ("b=2" + ['\n'] + "");
    TwoLines("a=1", "b=2");
    assert Saying(e, "b") == FirstMatch(["a=1", "b=2"], "b");
    assert "a=1"[..2] == "a=" && "b=2"[..2] == "b=" == "b" + "=" && "b=2"[2..] == "2";
    assert "a="[0] != "b="[0];
    assert !Matches("a=1", "b") && Matches("b=2", "b") && AfterKey("b=2", "b") == "2";
    assert ["a=1", "b=2"][1..] == ["b=2"];
  }

  lemma {:induction false} TwoLines(a: string, b: string)
    requires '\n' !in a && '\n' !in b
    ensures Lines(a + ['\n'] + (b + ['\n'] + "")) == [a, b]
  {
    FirstLine(a, b + ['\n'] + "");
    FirstLine(b, "");
    NothingParsed();
    hide Lines;
    assert [a] + ([b] + []) == [a, b];
  }

  lemma TwoBindings(key: string, v: string, w: string)
    requires GoodKey(key)
    ensures Parsed([LineOf(Entry(key, v)), LineOf(Entry(key, w))]) == [Entry(key, w)]
  {
    var one, two := Entry(key, v), Entry(key, w);
    var m: Bindings := [one];
    AddEntryLine([], one);
    AddEntryLine(m, two);
    NothingParsed();
    ParsedStep([], LineOf(one));
    ParsedStep([LineOf(one)], LineOf(two));
    hide Parsed, LineOf, AddLine;
    assert [] + [LineOf(one)] == [LineOf(one)];
    assert [LineOf(one)] + [LineOf(two)] == [LineOf(one), LineOf(two)];
  }

  /** A hand-edited file with two lines for a key: writing another key changes what that key reads as. */
  lemma DuplicateLinesFlip()
    ensures var file := Some("a=1\na=2\n");
            Read(file, "a") == "1" && Read(Some(Written(file, "b", "3")), "a") == "2"
  {
    var one, two := Entry("a", "1"), Entry("a", "2");
    assert LineOf(one) == "a=1" && LineOf(two) == "a=2";
    assert "a=1\na=2\n" == "a=1" + ['\n'] + ("a=2" + ['\n'] + "");
    TwoLines("a=1", "a=2");
    TwoBindings("a", "1", "2");
    MatchIsOwnLine(one, "a");
    PlainWrite(Some("a=1\na=2\n"), "b", "3", "a");
    hide Lines, Parsed, LineOf, Matches, AfterKey, Written;
  }

  /** A line without a value is passed over when reading. */
  lemma EmptyValueIsPassedOver()
    ensures Read(Some("a=\na=1\n"), "a") == "1"
  {
    assert "a=\na=1\n" == "a=" + ['\n'] + ("a=1" + ['\n'] + "");
    TwoLines("a=", "a=1");
    assert "a=1"[..2] == "a=" == "a" + "=" && "a=1"[2..] == "1";
    assert ["a=", "a=1"][1..] == ["a=1"];
    hide Lines;
  }

  /** The file is written in the order of its keys. */
  lemma KeysAreInOrder()
    ensures Written(Some("b=1\n"), "a", "2") == "a=2\nb=1\n"
  {
    var one := Entry("b", "1");
    assert LineOf(one) + ['\n'] + "" == "b=1\n";
    OneBinding(one);
    SmallerIsBefore("a", "b", 0);
    hide Contents, Before;
    assert Put([one], "a", "2", Lexicographic) == [Entry("a", "2")] + [one];
    var m: Bindings := [Entry("a", "2"), one];
    assert m == [Entry("a", "2")] + [one] && m[1..] == [one] && [one][1..] == [];
    assert Render([one]) == "b=1\n";
    assert LineOf(m[0]) + "\n" == "a=2\n";
    assert "a=2\n" + "b=1\n" == "a=2\nb=1\n";
  }
}
