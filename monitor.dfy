/**
  The command interpreter of the JOS kernel monitor (kern/monitor.c): the
  tokenizer and dispatcher runcmd and the hexadecimal parser xtoi. The
  page-table update of the setm command is in module SetmBits.

  A C string is an array of chars read up to its first NUL. Pointers into
  the command buffer are indices; a NULL entry of argv is None. The chars of
  the monitor are C `char`s: 8-bit and signed, as on i386.
 */
module Monitor {
  import opened Wrappers

  /** The bytes runcmd treats as separators. */
  const WHITESPACE: string := "\t\r\n "
  /** Size of runcmd's argv array, terminating null included. */
  const MAXARGS: nat := 16

  predicate IsSpace(c: char)
  {
    c in WHITESPACE
  }

  /** s holds a NUL at index i or later. */
  predicate HasNulFrom(s: seq<char>, i: nat)
  {
    exists j :: i <= j < |s| && s[j] == '\0'
  }

  /** The index of the first NUL at or after i. */
  function FirstNulFrom(s: seq<char>, i: nat): (n: nat)
    requires HasNulFrom(s, i)
    ensures i <= n < |s| && s[n] == '\0'
    ensures forall j :: i <= j < n ==> s[j] != '\0'
    decreases |s| - i
  {
    if s[i] == '\0' then i
    else
      assert HasNulFrom(s, i + 1) by {
        var j :| i <= j < |s| && s[j] == '\0';
        assert j != i;
      }
      FirstNulFrom(s, i + 1)
  }

  /** The C string a buffer holds: everything before its first NUL. */
  function LineOf(s: seq<char>): (line: string)
    requires HasNulFrom(s, 0)
    ensures line == s[..FirstNulFrom(s, 0)] && '\0' !in line
  {
    s[..FirstNulFrom(s, 0)]
  }

  // ---------------------------------------------------------------------
  // Tokens of a line

  /** A token: the characters of a line from start up to, not including, end. */
  datatype Span = Span(start: nat, end: nat)

  /** The first index at or after i that ends the run of separators there. */
  function SkipSpace(line: string, i: nat): (r: nat)
    requires i <= |line|
    ensures i <= r <= |line|
    ensures forall p :: i <= p < r ==> IsSpace(line[p])
    ensures r < |line| ==> !IsSpace(line[r])
    decreases |line| - i
  {
    if i == |line| || !IsSpace(line[i]) then i else SkipSpace(line, i + 1)
  }

  /** The first index at or after i that ends the run of non-separators there. */
  function SkipWord(line: string, i: nat): (r: nat)
    requires i <= |line|
    ensures i <= r <= |line|
    ensures forall p :: i <= p < r ==> !IsSpace(line[p])
    ensures r < |line| ==> IsSpace(line[r])
    decreases |line| - i
  {
    if i == |line| || IsSpace(line[i]) then i else SkipWord(line, i + 1)
  }

  /** The tokens of line from index i on, left to right. */
  function SpansFrom(line: string, i: nat): (spans: seq<Span>)
    requires i <= |line|
    ensures forall t :: 0 <= t < |spans| ==> i <= spans[t].start < spans[t].end <= |line|
    decreases |line| - i
  {
    var j := SkipSpace(line, i);
    if j == |line| then []
    else
      var k := SkipWord(line, j);
      [Span(j, k)] + SpansFrom(line, k)
  }

  /** The tokens of a line. */
  function Spans(line: string): seq<Span>
  {
    SpansFrom(line, 0)
  }

  /** A maximal run of non-separators of the line. */
  predicate IsToken(line: string, sp: Span)
  {
    && sp.start < sp.end <= |line|
    && (forall p :: sp.start <= p < sp.end ==> !IsSpace(line[p]))
    && (sp.start == 0 || IsSpace(line[sp.start - 1]))
    && (sp.end == |line| || IsSpace(line[sp.end]))
  }

  /** Index i is not inside a token. */
  predicate AtBoundary(line: string, i: nat)
    requires i <= |line|
  {
    i == 0 || i == |line| || IsSpace(line[i - 1]) || IsSpace(line[i])
  }

  /** Every span found from a boundary is a maximal run of non-separators. */
  lemma {:induction false} SpansAreTokens(line: string, i: nat)
    requires i <= |line| && AtBoundary(line, i)
    ensures forall t :: 0 <= t < |SpansFrom(line, i)| ==> IsToken(line, SpansFrom(line, i)[t])
    decreases |line| - i
  {
    var j := SkipSpace(line, i);
    if j < |line| {
      var k := SkipWord(line, j);
      SpansAreTokens(line, k);
      var spans := SpansFrom(line, i);
      assert spans == [Span(j, k)] + SpansFrom(line, k);
      forall t | 0 <= t < |spans|
        ensures IsToken(line, spans[t])
      {
        if t > 0 {
          assert spans[t] == SpansFrom(line, k)[t - 1];
        }
      }
    }
  }

  /** Every maximal run of non-separators at or after a boundary is found. */
  lemma {:induction false} TokensAreSpans(line: string, i: nat, sp: Span)
    requires i <= |line| && AtBoundary(line, i)
    requires IsToken(line, sp) && i <= sp.start
    ensures sp in SpansFrom(line, i)
    decreases |line| - i
  {
    var j := SkipSpace(line, i);
    // The token's first char is not a separator, so the skip stops at or before it.
    assert !IsSpace(line[sp.start]);
    assert j <= sp.start;
    var k := SkipWord(line, j);
    assert k > j by {
      assert !IsSpace(line[j]);
    }
    if sp.start == j {
      // Both runs stop at the first separator after j.
      assert k < |line| ==> IsSpace(line[k]);
      assert sp.end < |line| ==> IsSpace(line[sp.end]);
      assert sp.end == k;
    } else {
      // The char before the token is a separator, so the word ends before it.
      assert IsSpace(line[sp.start - 1]);
      assert k < sp.start;
      TokensAreSpans(line, k, sp);
      assert SpansFrom(line, i) == [Span(j, k)] + SpansFrom(line, k);
    }
  }

  /** The tokens come left to right, each ending before the next begins. */
  lemma {:induction false} SpansOrdered(line: string, i: nat)
    requires i <= |line|
    ensures forall t, u :: 0 <= t < u < |SpansFrom(line, i)| ==> SpansFrom(line, i)[t].end < SpansFrom(line, i)[u].start
    decreases |line| - i
  {
    var j := SkipSpace(line, i);
    if j < |line| {
      var k := SkipWord(line, j);
      var rest := SpansFrom(line, k);
      var spans := SpansFrom(line, i);
      assert spans == [Span(j, k)] + rest;
      SpansOrdered(line, k);
      SpansAreTokens(line, k);
      forall t, u | 0 <= t < u < |spans|
        ensures spans[t].end < spans[u].start
      {
        assert spans[u] == rest[u - 1];
        if t == 0 {
          // The later token starts at a non-separator, and the char at k is one.
          assert IsToken(line, rest[u - 1]);
          assert !IsSpace(line[rest[u - 1].start]);
          assert k < |line| ==> IsSpace(line[k]);
        } else {
          assert spans[t] == rest[t - 1];
        }
      }
    }
  }

  /** The tokens runcmd looks for are exactly the maximal runs of
      non-separators of the line, and they come left to right. */
  lemma SpansAreExactlyTokens(line: string)
    ensures forall sp :: sp in Spans(line) <==> IsToken(line, sp)
    ensures forall t, u :: 0 <= t < u < |Spans(line)| ==> Spans(line)[t].end < Spans(line)[u].start
  {
    SpansOrdered(line, 0);
    SpansAreTokens(line, 0);
    forall sp | IsToken(line, sp)
      ensures sp in Spans(line)
    {
      TokensAreSpans(line, 0, sp);
    }
  }

  /** The text of each token. */
  function Words(line: string): (words: seq<string>)
    ensures |words| == |Spans(line)|
    ensures forall t :: 0 <= t < |words| ==> words[t] == line[Spans(line)[t].start..Spans(line)[t].end]
  {
    var spans := Spans(line);
    seq(|spans|, t requires 0 <= t < |spans| => line[spans[t].start..spans[t].end])
  }

  /** Every argument string is non-empty and holds no separator. */
  lemma WordsAreNonEmptyRuns(line: string)
    ensures forall t :: 0 <= t < |Words(line)| ==>
              |Words(line)[t]| > 0 && forall c :: c in Words(line)[t] ==> !IsSpace(c)
  {
    var words := Words(line);
    SpansAreTokens(line, 0);
    forall t | 0 <= t < |words|
      ensures |words[t]| > 0 && forall c :: c in words[t] ==> !IsSpace(c)
    {
      var sp := Spans(line)[t];
      assert IsToken(line, sp);
      forall c | c in words[t]
        ensures !IsSpace(c)
      {
        var p :| 0 <= p < |words[t]| && words[t][p] == c;
        assert c == line[sp.start + p];
      }
    }
  }

  // ---------------------------------------------------------------------
  // NUL-terminating the tokens in place

  /** t is s with every separator before index upto overwritten by NUL. */
  predicate BlankedTo(t: seq<char>, s: seq<char>, upto: nat)
  {
    |t| == |s| && forall j :: 0 <= j < |s| ==> t[j] == (if j < upto && IsSpace(s[j]) then '\0' else s[j])
  }

  /** The C string that starts at index a of t. */
  function CStringAt(t: seq<char>, a: nat): string
    decreases |t| - a
  {
    if a >= |t| || t[a] == '\0' then [] else [t[a]] + CStringAt(t, a + 1)
  }

  /** Once the separators of a buffer are overwritten by NUL, every token of
      its line reads back as a C string starting at the token. */
  lemma TokenIsCString(t: seq<char>, s: seq<char>, sp: Span)
    requires HasNulFrom(s, 0) && BlankedTo(t, s, FirstNulFrom(s, 0))
    requires IsToken(LineOf(s), sp)
    ensures CStringAt(t, sp.start) == LineOf(s)[sp.start..sp.end]
  {
    TokenSuffixIsCString(t, s, sp, sp.start);
    assert LineOf(s)[sp.start..sp.end] == s[sp.start..sp.end];
  }

  lemma {:induction false} TokenSuffixIsCString(t: seq<char>, s: seq<char>, sp: Span, a: nat)
    requires HasNulFrom(s, 0) && BlankedTo(t, s, FirstNulFrom(s, 0))
    requires IsToken(LineOf(s), sp) && sp.start <= a <= sp.end
    ensures CStringAt(t, a) == s[a..sp.end]
    decreases sp.end - a
  {
    if a < sp.end {
      TokenSuffixIsCString(t, s, sp, a + 1);
      assert s[a..sp.end] == [s[a]] + s[a + 1..sp.end];
    }
  }

  // ---------------------------------------------------------------------
  // runcmd

  /** An entry of the command table. The handler receives argc and the
      argument strings, and its result is runcmd's result. */
  datatype Command = Command(name: string, desc: string, func: (nat, seq<string>) -> int)

  /** The monitor's command table, given the handlers of its six commands. */
  function MonitorCommands(help: (nat, seq<string>) -> int, kerninfo: (nat, seq<string>) -> int,
                           backtrace: (nat, seq<string>) -> int, showmappings: (nat, seq<string>) -> int,
                           setm: (nat, seq<string>) -> int, showvm: (nat, seq<string>) -> int): seq<Command>
  {
    [Command("help", "Display this list of commands", help),
     Command("kerninfo", "Display information about the kernel", kerninfo),
     Command("backtrace", "Display function call stacks", backtrace),
     Command("showmappings", "showmappings", showmappings),
     Command("setm", "setm", setm),
     Command("showvm", "showvm", showvm)]
  }

  /** The index of the first entry of the table named `name`, looking from i. */
  function LookupFrom(table: seq<Command>, name: string, i: nat): (r: Option<nat>)
    requires i <= |table|
    ensures r.Some? ==> i <= r.value < |table| && table[r.value].name == name
    ensures forall d :: i <= d < |table| && (r.None? || d < r.value) ==> table[d].name != name
    decreases |table| - i
  {
    if i == |table| then None
    else if table[i].name == name then Some(i)
    else LookupFrom(table, name, i + 1)
  }

  /** The index of the first entry of the table named `name`. */
  function Lookup(table: seq<Command>, name: string): Option<nat>
  {
    LookupFrom(table, name, 0)
  }

  /** The six command names differ, so looking a name of the table up finds
      that command. */
  lemma MonitorCommandsReachable(help: (nat, seq<string>) -> int, kerninfo: (nat, seq<string>) -> int,
                                 backtrace: (nat, seq<string>) -> int, showmappings: (nat, seq<string>) -> int,
                                 setm: (nat, seq<string>) -> int, showvm: (nat, seq<string>) -> int)
    ensures var table := MonitorCommands(help, kerninfo, backtrace, showmappings, setm, showvm);
            forall c :: 0 <= c < |table| ==> Lookup(table, table[c].name) == Some(c)
  {
    var table := MonitorCommands(help, kerninfo, backtrace, showmappings, setm, showvm);
    forall c | 0 <= c < |table|
      ensures Lookup(table, table[c].name) == Some(c)
    {
      forall d | 0 <= d < c
        ensures table[d].name != table[c].name
      {
        // Names of equal length start with different letters.
        assert table[d].name[0] != table[c].name[0] || |table[d].name| != |table[c].name|;
      }
    }
  }

  /** The tokens of the C string in a buffer. */
  function ArgSpans(s: seq<char>): seq<Span>
    requires HasNulFrom(s, 0)
  {
    Spans(LineOf(s))
  }

  /** The gobbling loop of runcmd: overwrite the separators from index i on
      with NUL, stopping at the next token or at the end of the string. */
  method BlankSpaces(buf: array<char>, i: nat, ghost s: seq<char>) returns (j: nat)
    requires HasNulFrom(s, 0) && i <= FirstNulFrom(s, 0)
    requires BlankedTo(buf[..], s, i)
    modifies buf
    ensures j == SkipSpace(LineOf(s), i)
    ensures BlankedTo(buf[..], s, j)
    ensures j <= FirstNulFrom(s, 0) && (buf[j] == '\0' <==> j == FirstNulFrom(s, 0))
  {
    ghost var n := FirstNulFrom(s, 0);
    ghost var line := LineOf(s);
    j := i;
    while buf[j] != '\0' && IsSpace(buf[j])
      invariant i <= j <= n
      invariant BlankedTo(buf[..], s, j)
      invariant SkipSpace(line, j) == SkipSpace(line, i)
      decreases n - j
    {
      buf[j] := '\0';
      j := j + 1;
    }
  }

  /** The scanning loop of runcmd: step over the token at index i. The
      token's chars are no separators, so the blanked prefix grows to its end. */
  method SkipArg(buf: array<char>, i: nat, ghost s: seq<char>) returns (j: nat)
    requires HasNulFrom(s, 0) && i <= FirstNulFrom(s, 0)
    requires BlankedTo(buf[..], s, i)
    ensures j == SkipWord(LineOf(s), i)
    ensures BlankedTo(buf[..], s, j)
  {
    ghost var n := FirstNulFrom(s, 0);
    ghost var line := LineOf(s);
    j := i;
    while buf[j] != '\0' && !IsSpace(buf[j])
      invariant i <= j <= n
      invariant BlankedTo(buf[..], s, j)
      invariant SkipWord(line, j) == SkipWord(line, i)
      decreases n - j
    {
      j := j + 1;
    }
  }

  /** The tokens from index i on: none when only separators are left, else
      the run at the first non-separator followed by the tokens after it. */
  lemma SpansFromStep(line: string, i: nat)
    requires i <= |line|
    ensures SkipSpace(line, i) == |line| ==> SpansFrom(line, i) == []
    ensures SkipSpace(line, i) < |line| ==>
              SpansFrom(line, i) == [Span(SkipSpace(line, i), SkipWord(line, SkipSpace(line, i)))]
                                    + SpansFrom(line, SkipWord(line, SkipSpace(line, i)))
  {
  }

  /** Dropping the head of a suffix of a sequence. */
  lemma DropHead<T>(q: seq<T>, a: nat, x: T, rest: seq<T>)
    requires a <= |q| && q[a..] == [x] + rest
    ensures a < |q| && q[a] == x && q[a + 1..] == rest
  {
    assert q[a..][0] == x;
    assert q[a + 1..] == q[a..][1..];
  }

  /** One round of runcmd's parsing loop, at index i with argc tokens
      stored: overwrite the separators with NUL; at the end of the string
      report the end; at a token, report a full argv when 15 are stored,
      and otherwise store the token's start and step past it. */
  method ParseRound(buf: array<char>, argv: array<Option<nat>>, argc: nat, i: nat, ghost s: seq<char>)
      returns (argc': nat, i': nat, end: bool, full: bool)
    requires argv.Length == MAXARGS && HasNulFrom(s, 0) && i <= FirstNulFrom(s, 0) && argc < MAXARGS
    requires BlankedTo(buf[..], s, i)
    requires argc <= |ArgSpans(s)| && ArgSpans(s)[argc..] == SpansFrom(LineOf(s), i)
    requires forall t :: 0 <= t < argc ==> argv[t] == Some(ArgSpans(s)[t].start)
    modifies buf, argv
    ensures i' <= FirstNulFrom(s, 0) && BlankedTo(buf[..], s, i')
    ensures argc' < MAXARGS && argc' <= |ArgSpans(s)|
    ensures forall t :: 0 <= t < argc' ==> argv[t] == Some(ArgSpans(s)[t].start)
    ensures end ==> !full && argc' == |ArgSpans(s)| && i' == FirstNulFrom(s, 0)
    ensures full ==> argc' == MAXARGS - 1 && argc' < |ArgSpans(s)| && ArgSpans(s)[argc'].start == i'
    ensures !end && !full ==> i < i' && ArgSpans(s)[argc'..] == SpansFrom(LineOf(s), i')
  {
    ghost var line := LineOf(s);
    ghost var spans := ArgSpans(s);
    SpansFromStep(line, i);
    i' := BlankSpaces(buf, i, s);
    argc' := argc;
    if buf[i'] == '\0' {
      return argc', i', true, false;
    }
    ghost var k := SkipWord(line, i');
    DropHead(spans, argc, Span(i', k), SpansFrom(line, k));
    if argc == MAXARGS - 1 {
      return argc', i', false, true;
    }
    argv[argc] := Some(i');
    argc' := argc + 1;
    i' := SkipArg(buf, i', s);
    end, full := false, false;
  }

  /** The argument-splitting loop of runcmd: store a pointer to each token of
      buf in argv and overwrite the separators in front of it with NUL. It
      stops at the end of the string (ok, with argv NULL-terminated) or at a
      16th token, which does not fit (not ok). */
  method ParseArgs(buf: array<char>, argv: array<Option<nat>>) returns (argc: nat, ok: bool)
    requires argv.Length == MAXARGS && HasNulFrom(buf[..], 0)
    modifies buf, argv
    ensures ok <==> |ArgSpans(old(buf[..]))| < MAXARGS
    ensures argc <= |ArgSpans(old(buf[..]))| && argc < MAXARGS
    ensures forall t :: 0 <= t < argc ==> argv[t] == Some(ArgSpans(old(buf[..]))[t].start)
    ensures ok ==> && argc == |ArgSpans(old(buf[..]))| && argv[argc] == None
                   && BlankedTo(buf[..], old(buf[..]), FirstNulFrom(old(buf[..]), 0))
    ensures !ok ==> && argc == MAXARGS - 1
                    && BlankedTo(buf[..], old(buf[..]), ArgSpans(old(buf[..]))[MAXARGS - 1].start)
  {
    ghost var s := buf[..];
    ghost var n := FirstNulFrom(s, 0);
    ghost var spans := ArgSpans(s);
    argc := 0;
    argv[argc] := None;
    var i := 0;
    while true
      invariant i <= n && argc < MAXARGS
      invariant BlankedTo(buf[..], s, i)
      invariant argc <= |spans| && spans[argc..] == SpansFrom(LineOf(s), i)
      invariant forall t :: 0 <= t < argc ==> argv[t] == Some(spans[t].start)
      decreases n - i
    {
      var end, full;
      argc, i, end, full := ParseRound(buf, argv, argc, i, s);
      if end {
        break;
      }
      if full {
        // Too many arguments.
        ok := false;
        return;
      }
    }
    argv[argc] := None;
    ok := true;
  }

  /** The argument strings a handler receives: the C strings argv points at. */
  function ArgStrings(t: seq<char>, argv: seq<Option<nat>>): (args: seq<string>)
    ensures |args| == |argv|
  {
    seq(|argv|, a requires 0 <= a < |argv| => if argv[a].Some? then CStringAt(t, argv[a].value) else [])
  }

  /** runcmd: split buf into arguments in place and invoke the command named
      by the first, returning its result; invoked tells which table entry
      ran, if any. */
  method RunCmd(buf: array<char>, table: seq<Command>) returns (r: int, invoked: Option<nat>)
    requires HasNulFrom(buf[..], 0)
    modifies buf
    ensures |ArgSpans(old(buf[..]))| >= MAXARGS ==>
              && r == 0 && invoked == None
              && BlankedTo(buf[..], old(buf[..]), ArgSpans(old(buf[..]))[MAXARGS - 1].start)
    ensures |ArgSpans(old(buf[..]))| < MAXARGS ==>
              BlankedTo(buf[..], old(buf[..]), FirstNulFrom(old(buf[..]), 0))
    ensures |ArgSpans(old(buf[..]))| == 0 ==> r == 0 && invoked == None
    ensures 0 < |ArgSpans(old(buf[..]))| < MAXARGS ==>
              var words := Words(LineOf(old(buf[..])));
              && invoked == Lookup(table, words[0])
              && (invoked.None? ==> r == 0)
              && (invoked.Some? ==> r == table[invoked.value].func(|words|, words))
  {
    var argv := new Option<nat>[MAXARGS](_ => None);
    ghost var s := buf[..];
    var argc, ok := ParseArgs(buf, argv);
    if !ok {
      // Too many arguments.
      return 0, None;
    }
    if argc == 0 {
      return 0, None;
    }
    var args := ArgStrings(buf[..], argv[..argc]);
    ghost var words := Words(LineOf(s));
    forall a | 0 <= a < argc
      ensures args[a] == words[a]
    {
      SpansAreTokens(LineOf(s), 0);
      TokenIsCString(buf[..], s, ArgSpans(s)[a]);
    }
    assert args == words;
    var c := 0;
    while c < |table|
      invariant c <= |table|
      invariant forall d :: 0 <= d < c ==> table[d].name != args[0]
    {
      if args[0] == table[c].name {
        return table[c].func(argc, args), Some(c);
      }
      c := c + 1;
    }
    // Unknown command.
    return 0, None;
  }

  // ---------------------------------------------------------------------
  // xtoi

  /** A 32-bit unsigned value. */
  type Word = x: int | 0 <= x < 0x1_0000_0000

  /** A C char: 8 bits. */
  predicate IsByte(c: char)
  {
    (c as int) < 256
  }

  /** The value of a signed 8-bit char. */
  function SignedValue(c: char): int
    requires IsByte(c)
  {
    if (c as int) < 128 then c as int else c as int - 256
  }

  /** What xtoi writes back over a char: a char at or above 'a' is moved
      down so that 'a'..'f' land just above '9'. */
  function Rewritten(c: char): (d: char)
    requires IsByte(c)
    ensures IsByte(d)
    ensures 'a' <= c <= 'f' ==> (d as int) - ('0' as int) == (c as int) - ('a' as int) + 10
    ensures SignedValue(c) < 'a' as int ==> d == c
  {
    if SignedValue(c) >= 'a' as int then (c as int - 'a' as int + '0' as int + 10) as char else c
  }

  /** The value xtoi accumulates over the digits s: each step multiplies by
      16 and adds the rewritten char minus '0', modulo 2^32. */
  function XtoiValue(s: seq<char>): Word
    requires forall j :: 0 <= j < |s| ==> IsByte(s[j])
  {
    if s == [] then 0
    else (XtoiValue(s[..|s| - 1]) * 16 + SignedValue(Rewritten(s[|s| - 1])) - '0' as int) % 0x1_0000_0000
  }

  /** Extending the digits by one char is one step of the fold. */
  lemma XtoiValueStep(d: seq<char>, k: nat)
    requires k < |d| && forall j :: 0 <= j < |d| ==> IsByte(d[j])
    ensures XtoiValue(d[..k + 1]) == (XtoiValue(d[..k]) * 16 + SignedValue(Rewritten(d[k])) - '0' as int) % 0x1_0000_0000
  {
    assert d[..k + 1][..k] == d[..k];
  }

  /** xtoi: the number written after the first two chars (the "0x") of the C
      string at index start; letters are rewritten in place as they are read. */
  method Xtoi(buf: array<char>, start: nat) returns (res: Word)
    requires HasNulFrom(buf[..], start + 2)
    requires forall j :: 0 <= j < buf.Length ==> IsByte(buf[j])
    modifies buf
    ensures var n := FirstNulFrom(old(buf[..]), start + 2);
            && res == XtoiValue(old(buf[..])[start + 2..n])
            && forall j :: 0 <= j < buf.Length ==>
                 buf[j] == (if start + 2 <= j < n then Rewritten(old(buf[j])) else old(buf[j]))
  {
    ghost var s := buf[..];
    ghost var n := FirstNulFrom(s, start + 2);
    ghost var digits := s[start + 2..n];
    res := 0;
    var i := start + 2;
    while buf[i] != '\0'
      invariant start + 2 <= i <= n
      invariant res == XtoiValue(digits[..i - start - 2])
      invariant forall j :: 0 <= j < buf.Length ==>
                  buf[j] == (if start + 2 <= j < i then Rewritten(s[j]) else s[j])
      decreases n - i
    {
      var d := RewriteDigit(buf, i);
      XtoiValueStep(digits, i - start - 2);
      res := (res * 16 + d - '0' as int) % 0x1_0000_0000;
      i := i + 1;
    }
    assert digits[..i - start - 2] == digits;
  }

  /** One step of xtoi's loop: the char at i is rewritten in place, and its
      signed value after the rewrite is returned. */
  method RewriteDigit(buf: array<char>, i: nat) returns (d: int)
    requires i < buf.Length && IsByte(buf[i])
    modifies buf
    ensures buf[i] == Rewritten(old(buf[i]))
    ensures forall j :: 0 <= j < buf.Length && j != i ==> buf[j] == old(buf[j])
    ensures d == SignedValue(Rewritten(old(buf[i])))
  {
    if SignedValue(buf[i]) >= 'a' as int {
      buf[i] := (buf[i] as int - 'a' as int + '0' as int + 10) as char;
    }
    d := SignedValue(buf[i]);
  }

  /** xtoi does not recognise upper-case digits: a letter 'A'..'F' is left
      as it is and read as its distance from '0', 17..22, wherever it
      stands in the digits. */
  lemma XtoiUpperCase(s: seq<char>, c: char)
    requires forall j :: 0 <= j < |s| ==> IsByte(s[j])
    requires 'A' <= c <= 'F'
    ensures Rewritten(c) == c
    ensures 17 <= c as int - '0' as int <= 22
    ensures XtoiValue(s + [c]) == (XtoiValue(s) * 16 + c as int - '0' as int) % 0x1_0000_0000
  {
    assert (s + [c])[..|s|] == s;
  }

  /** The value of a lower-case hexadecimal digit. */
  function HexDigit(c: char): nat
  {
    if '0' as int <= c as int <= '9' as int then c as int - '0' as int
    else if 'a' as int <= c as int <= 'f' as int then c as int - 'a' as int + 10
    else 0
  }

  /** A digit or a lower-case letter a-f. */
  predicate IsHexDigit(c: char)
  {
    '0' as int <= c as int <= '9' as int || 'a' as int <= c as int <= 'f' as int
  }

  /** The base-16 value of a string of digits. */
  function HexValue(s: seq<char>): nat
  {
    if s == [] then 0 else HexValue(s[..|s| - 1]) * 16 + HexDigit(s[|s| - 1])
  }

  /** Reducing before a multiply-add modulo 2^32 gives the same result. */
  lemma ModMulAdd(h: int, d: int)
    ensures ((h % 0x1_0000_0000) * 16 + d) % 0x1_0000_0000 == (h * 16 + d) % 0x1_0000_0000
  {
    var m := 0x1_0000_0000;
    var q := h / m;
    assert h * 16 + d == (h % m) * 16 + d + (q * 16) * m;
  }

  /** On lower-case hexadecimal digits, xtoi computes their base-16 value
      modulo 2^32. */
  lemma {:induction false} XtoiIsHex(s: seq<char>)
    requires forall j :: 0 <= j < |s| ==> IsHexDigit(s[j])
    ensures forall j :: 0 <= j < |s| ==> IsByte(s[j])
    ensures XtoiValue(s) == HexValue(s) % 0x1_0000_0000
  {
    if s != [] {
      var p := s[..|s| - 1];
      XtoiIsHex(p);
      ModMulAdd(HexValue(p), HexDigit(s[|s| - 1]));
    }
  }
}
