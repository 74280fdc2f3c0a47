/** `cplr_command_internal`: splitting a command line in two passes over `strtok_r`. */
module Tokeniser {
  import opened Text
  import opened Lists

  predicate IsDelimiter(c: char) {
    c == ' ' || c == '\t' || c == '\r' || c == '\n'
  }

  /** `strspn` */
  function Leading(s: string): (k: nat)
    ensures k <= |s| && (k < |s| ==> !IsDelimiter(s[k])) && forall i :: 0 <= i < k ==> IsDelimiter(s[i])
  {
    if s == "" || !IsDelimiter(s[0]) then 0 else 1 + Leading(s[1..])
  }

  /** `strcspn` */
  function Run(s: string): (k: nat)
    ensures k <= |s| && (k < |s| ==> IsDelimiter(s[k])) && forall i :: 0 <= i < k ==> !IsDelimiter(s[i])
  {
    if s == "" || IsDelimiter(s[0]) then 0 else 1 + Run(s[1..])
  }

  /** The maximal delimiter-free runs of a line, in order. */
  function Fields(s: string): seq<string>
    decreases |s|
  {
    var t := s[Leading(s)..];
    if t == "" then []
    else
      assert Run(t) > 0;
      [t[..Run(t)]] + Fields(t[Run(t)..])
  }

  /** What the terminated buffer still holds from a position on. */
  ghost function Rest(buf: array<char>, at: nat): string
    requires at < buf.Length
    reads buf
  {
    buf[at..buf.Length - 1]
  }

  ghost predicate Terminated(buf: array<char>, at: nat)
    reads buf
  {
    at < buf.Length && buf[buf.Length - 1] == '\0' && forall i :: at <= i < buf.Length - 1 ==> buf[i] != '\0'
  }

  lemma {:induction false} FieldsFrom(s: string, k: nat)
    requires k <= |s| && (forall i :: 0 <= i < k ==> IsDelimiter(s[i])) && (k < |s| ==> !IsDelimiter(s[k]))
    ensures Leading(s) == k
  {
    if k > 0 {
      FieldsFrom(s[1..], k - 1);
    }
  }

  lemma {:induction false} RunFrom(s: string, k: nat)
    requires k <= |s| && (forall i :: 0 <= i < k ==> !IsDelimiter(s[i])) && (k < |s| ==> IsDelimiter(s[k]))
    ensures Run(s) == k
  {
    if k > 0 {
      RunFrom(s[1..], k - 1);
    }
  }

  // ---- fields are what stands between delimiters ---------------------------------------------------------

  predicate Blank(s: string) {
    forall i :: 0 <= i < |s| ==> IsDelimiter(s[i])
  }

  predicate IsToken(s: string) {
    s != "" && forall i :: 0 <= i < |s| ==> !IsDelimiter(s[i])
  }

  /** A token and the delimiters in front of it. */
  datatype Chunk = Chunk(lead: string, token: string)

  function Spaced(chunks: seq<Chunk>, tail: string): string {
    if chunks == [] then tail else chunks[0].lead + chunks[0].token + Spaced(chunks[1..], tail)
  }

  function Written(chunks: seq<Chunk>): seq<string> {
    if chunks == [] then [] else [chunks[0].token] + Written(chunks[1..])
  }

  /** Tokens are separated; delimiters in front of the first and behind the last are optional. */
  predicate WellSpaced(chunks: seq<Chunk>, tail: string) {
    Blank(tail) && forall i :: 0 <= i < |chunks| ==>
      Blank(chunks[i].lead) && IsToken(chunks[i].token) && (i > 0 ==> chunks[i].lead != "")
  }

  lemma SpacedStart(chunks: seq<Chunk>, tail: string)
    requires WellSpaced(chunks, tail) && (chunks != [] ==> chunks[0].lead != "")
    ensures Spaced(chunks, tail) != "" ==> IsDelimiter(Spaced(chunks, tail)[0])
  {
  }

  lemma FieldsFront(lead: string, token: string, rest: string)
    requires Blank(lead) && IsToken(token) && (rest != "" ==> IsDelimiter(rest[0]))
    ensures Fields(lead + token + rest) == [token] + Fields(rest)
  {
    hide Fields, Leading, Run;
    var s := lead + token + rest;
    FieldsFrom(s, |lead|);
    var t := s[|lead|..];
    assert t == token + rest;
    RunFrom(t, |token|);
    assert t[..|token|] == token && t[|token|..] == rest;
    FieldsStep(s);
  }

  /** Whatever tokens are written, with whatever delimiters between them, are the fields of the line. */
  lemma {:induction false} FieldsOfSpaced(chunks: seq<Chunk>, tail: string)
    requires WellSpaced(chunks, tail)
    ensures Fields(Spaced(chunks, tail)) == Written(chunks)
  {
    if chunks == [] {
      FieldsFrom(tail, |tail|);
    } else {
      hide Fields, Blank, IsToken;
      var more := chunks[1..];
      assert WellSpaced(more, tail) && (more != [] ==> more[0].lead != "");
      SpacedStart(more, tail);
      FieldsOfSpaced(more, tail);
      FieldsFront(chunks[0].lead, chunks[0].token, Spaced(more, tail));
    }
  }

  /** A delimiter behind a token is as good as none. */
  lemma FieldsSkip(s: string)
    requires s != "" && IsDelimiter(s[0])
    ensures Fields(s) == Fields(s[1..])
  {
    var k := Leading(s[1..]);
    assert s[1..][k..] == s[k + 1..];
  }

  method Span(buf: array<char>, at: nat) returns (from: nat)
    requires Terminated(buf, at)
    ensures at <= from < buf.Length && from == at + Leading(Rest(buf, at))
  {
    from := at;
    while buf[from] != '\0' && IsDelimiter(buf[from])
      invariant at <= from < buf.Length && forall i :: at <= i < from ==> IsDelimiter(buf[i])
      decreases buf.Length - from
    {
      from := from + 1;
    }
    FieldsFrom(Rest(buf, at), from - at);
  }

  method SpanToken(buf: array<char>, from: nat) returns (to: nat)
    requires Terminated(buf, from)
    ensures from <= to < buf.Length && to == from + Run(Rest(buf, from))
  {
    to := from;
    while buf[to] != '\0' && !IsDelimiter(buf[to])
      invariant from <= to < buf.Length && forall i :: from <= i < to ==> !IsDelimiter(buf[i])
      decreases buf.Length - to
    {
      to := to + 1;
    }
    RunFrom(Rest(buf, from), to - from);
  }

  /** One token off the front of a line. */
  lemma FieldsStep(s: string)
    ensures var t := s[Leading(s)..];
      (t != "" ==> !IsDelimiter(t[0])) &&
      Fields(s) == if t == "" then [] else [t[..Run(t)]] + Fields(t[Run(t)..])
  {
  }

  /** Cutting a token off ends it with a terminator and leaves the text behind it alone. */
  method CutToken(buf: array<char>, to: nat) returns (next: nat)
    requires Terminated(buf, to) && (Rest(buf, to) != "" ==> IsDelimiter(Rest(buf, to)[0]))
    modifies buf
    ensures to <= next && Terminated(buf, next) && Fields(Rest(buf, next)) == Fields(old(Rest(buf, to)))
    ensures forall i :: 0 <= i < to ==> buf[i] == old(buf[i])
  {
    ghost var u := Rest(buf, to);
    if buf[to] == '\0' {
      next := to;
    } else {
      FieldsSkip(u);
      buf[to] := '\0';
      next := to + 1;
      assert Rest(buf, next) == u[1..];
    }
  }

  /** `strtok_r`: the next token is cut off in place; the cursor moves behind it. */
  method StrTok(buf: array<char>, at: nat) returns (found: bool, from: nat, to: nat, next: nat)
    requires Terminated(buf, at)
    modifies buf
    ensures Terminated(buf, next) && at <= next && found == (Fields(old(Rest(buf, at))) != [])
    ensures found ==> at <= from < to <= next && to < buf.Length && buf[from..to] == Fields(old(Rest(buf, at)))[0]
    ensures found ==> Fields(Rest(buf, next)) == Fields(old(Rest(buf, at)))[1..]
  {
    hide Fields, Leading, Run, IsDelimiter;
    ghost var s := Rest(buf, at);
    FieldsStep(s);
    from := Span(buf, at);
    assert Rest(buf, from) == s[Leading(s)..];
    AtTerminator(buf, from);
    if buf[from] == '\0' {
      found, to, next := false, from, from;
      return;
    }
    found := true;
    to, next := TakeToken(buf, from);
  }

  lemma AtTerminator(buf: array<char>, at: nat)
    requires Terminated(buf, at)
    ensures buf[at] == '\0' <==> Rest(buf, at) == ""
  {
  }

  /** The end of the token that starts at the cursor, and the cursor behind it. */
  method TakeToken(buf: array<char>, from: nat) returns (to: nat, next: nat)
    requires Terminated(buf, from) && Rest(buf, from) != "" && !IsDelimiter(Rest(buf, from)[0])
    modifies buf
    ensures from < to <= next && to < buf.Length && Terminated(buf, next)
    ensures var t := old(Rest(buf, from)); buf[from..to] == t[..Run(t)] && Fields(Rest(buf, next)) == Fields(t[Run(t)..])
  {
    hide Fields;
    ghost var t := Rest(buf, from);
    to := SpanToken(buf, from);
    ghost var token := buf[from..to];
    assert token == t[..to - from] && Rest(buf, to) == t[to - from..];
    next := CutToken(buf, to);
    assert buf[from..to] == token;
  }

  /** `strdup` of the line into a writable buffer. */
  method LineCopy(mem: Ledger, line: string) returns (buf: array<char>)
    requires forall i :: 0 <= i < |line| ==> line[i] != '\0'
    modifies mem
    ensures fresh(buf) && Terminated(buf, 0) && Rest(buf, 0) == line
    ensures mem.live == old(mem.live) + {buf} && mem.freed == old(mem.freed)
  {
    buf := new char[|line| + 1](i => if 0 <= i < |line| then line[i] else '\0');
    mem.Track(buf);
  }

  /** How many copies of a line one pass loses, and both together. */
  function LostByPass(line: string): nat {
    if Fields(line) == [] then 0 else 1
  }

  function LostByBoth(line: string): nat {
    LostByPass(line) + LostByPass(line)
  }

  /** The counting pass. The copy of the line is given back only when it holds no token at all. */
  method CountTokens(mem: Ledger, line: string) returns (argc: nat, ghost lost: set<object>)
    requires forall i :: 0 <= i < |line| ==> line[i] != '\0'
    modifies mem
    ensures argc == |Fields(line)| && fresh(lost) && |lost| == LostByPass(line)
    ensures mem.live == old(mem.live) + lost
  {
    var tokline := LineCopy(mem, line);
    lost := {tokline};
    argc := 0;
    var found, from, to, next := StrTok(tokline, 0);
    while found
      invariant found ==> Terminated(tokline, next) && argc + 1 + |Fields(Rest(tokline, next))| == |Fields(line)|
      invariant !found ==> argc == |Fields(line)|
      invariant mem.live == old(mem.live) + {tokline} && fresh(tokline)
      decreases |Fields(line)| - argc, found
    {
      argc := argc + 1;
      found, from, to, next := StrTok(tokline, next);
    }
    if argc == 0 {
      mem.Release(tokline);
      lost := {};
    }
  }

  /** The first |copies| slots of the vector hold the tokens; the rest is still empty. */
  ghost predicate Filled(argv: array<CString?>, copies: seq<CString>, tokens: seq<string>)
    reads argv
  {
    |copies| <= |tokens| && argv.Length == |tokens| + 1 &&
    (forall i :: 0 <= i < |copies| ==> argv[i] == copies[i] && copies[i].text == tokens[i]) &&
    (forall i :: |copies| <= i < argv.Length ==> argv[i] == null) &&
    forall i, j :: 0 <= i < j < |copies| ==> copies[i] != copies[j]
  }

  ghost function SetOf(copies: seq<CString>): set<object> {
    set c <- copies :: c
  }

  lemma SetOfSnoc(cs: seq<CString>, s: CString)
    ensures SetOf(cs + [s]) == SetOf(cs) + {s}
  {
    forall c: object | c in SetOf(cs) + {s} ensures c in SetOf(cs + [s]) {
      var d := c as CString;
      if d == s {
        assert (cs + [s])[|cs|] == s;
      } else {
        assert d in cs;
        var i :| 0 <= i < |cs| && cs[i] == d;
        assert (cs + [s])[i] == d;
      }
      assert d in cs + [s];
    }
  }

  /** The next slot takes a copy of the next token. */
  method StoreToken(mem: Ledger, argv: array<CString?>, argn: nat, text: string,
                    ghost copies: seq<CString>, ghost tokens: seq<string>) returns (ghost s: CString)
    requires Filled(argv, copies, tokens) && argn == |copies| < |tokens| && text == tokens[argn]
    modifies mem, argv
    ensures Filled(argv, copies + [s], tokens) && SetOf(copies + [s]) == SetOf(copies) + {s}
    ensures fresh(s) && mem.live == old(mem.live) + {s}
  {
    hide SetOf;
    InSetOf(copies);
    var copy := StrDup(mem, text);
    s := copy;
    SetOfSnoc(copies, s);
    argv[argn] := copy;
  }

  lemma InSetOf(copies: seq<CString>)
    ensures forall c <- copies :: c in SetOf(copies)
  {
  }

  lemma FirstSlot(argv: array<CString?>, copies: seq<CString>, tokens: seq<string>)
    requires Filled(argv, copies, tokens)
    ensures copies != [] ==> argv.Length > 0 && argv[0] != null && argv[0].text == tokens[0]
  {
  }

  lemma NoneFilled(argv: array<CString?>, tokens: seq<string>)
    requires argv.Length == |tokens| + 1 && forall i :: 0 <= i < argv.Length ==> argv[i] == null
    ensures Filled(argv, [], tokens) && SetOf([]) == {}
  {
  }

  /** The n-th token has just been found, or there are no more than n. */
  ghost predicate Upcoming(buf: array<char>, found: bool, from: nat, to: nat, next: nat, tokens: seq<string>, n: nat)
    reads buf
  {
    if found then
      Terminated(buf, next) && from < to < buf.Length && n < |tokens| && buf[from..to] == tokens[n] &&
      Fields(Rest(buf, next)) == tokens[n + 1..]
    else n == |tokens|
  }

  method NextToken(buf: array<char>, at: nat, ghost tokens: seq<string>, ghost n: nat)
    returns (found: bool, from: nat, to: nat, next: nat)
    requires Terminated(buf, at) && n <= |tokens| && Fields(Rest(buf, at)) == tokens[n..]
    modifies buf
    ensures Upcoming(buf, found, from, to, next, tokens, n)
  {
    hide Fields, Rest, Terminated;
    found, from, to, next := StrTok(buf, at);
    assert found ==> tokens[n..][0] == tokens[n] && tokens[n..][1..] == tokens[n + 1..];
  }

  lemma Found(buf: array<char>, found: bool, from: nat, to: nat, next: nat, tokens: seq<string>, n: nat)
    requires Upcoming(buf, found, from, to, next, tokens, n)
    ensures found ==> Terminated(buf, next) && from < to < buf.Length && n < |tokens| && buf[from..to] == tokens[n]
    ensures found ==> Fields(Rest(buf, next)) == tokens[n + 1..]
    ensures !found ==> n == |tokens|
  {
    hide Fields, Rest, Terminated;
  }

  /** The splitting pass: exactly as many slots are filled as were counted, and the terminating NULL stays. */
  method SplitTokens(mem: Ledger, line: string, argc: nat)
    returns (argv: array<CString?>, ghost copies: seq<CString>, ghost lost: set<object>)
    requires (forall i :: 0 <= i < |line| ==> line[i] != '\0') && argc == |Fields(line)|
    modifies mem
    ensures Filled(argv, copies, Fields(line)) && |copies| == argc
    ensures fresh(argv) && fresh(lost) && fresh(SetOf(copies)) && |lost| == LostByPass(line)
    ensures argv !in lost + SetOf(copies) && lost !! SetOf(copies)
    ensures mem.live == old(mem.live) + lost + {argv} + SetOf(copies)
  {
    hide Fields, Upcoming, Rest, SetOf, Filled;
    ghost var tokens := Fields(line);
    var tokline := LineCopy(mem, line);
    lost, copies := {tokline}, [];
    argv := new CString?[argc + 1](_ => null);
    mem.Track(argv);
    var argn := 0;
    NoneFilled(argv, tokens);
    assert tokens[0..] == tokens;
    var found, from, to, next := NextToken(tokline, 0, tokens, 0);
    Found(tokline, found, from, to, next, tokens, argn);
    while found
      invariant 0 <= from && 0 <= to && 0 <= next && argn <= argc
      invariant argn == |copies| && Filled(argv, copies, tokens) && Upcoming(tokline, found, from, to, next, tokens, argn)
      invariant fresh(tokline) && fresh(argv) && fresh(SetOf(copies))
      invariant argv !in SetOf(copies) && tokline !in SetOf(copies)
      invariant mem.live == old(mem.live) + {tokline} + {argv} + SetOf(copies)
      decreases argc - argn, found
    {
      Found(tokline, found, from, to, next, tokens, argn);
      ghost var s := StoreToken(mem, argv, argn, tokline[from..to], copies, tokens);
      copies := copies + [s];
      argn := argn + 1;
      found, from, to, next := NextToken(tokline, next, tokens, argn);
    }
    Found(tokline, found, from, to, next, tokens, argn);
    if argc == 0 {
      mem.Release(tokline);
      lost := {};
    }
  }

  /** The clean-up loop: each copy is released once. */
  method FreeTokens(mem: Ledger, argv: array<CString?>, argc: nat, ghost copies: seq<CString>, ghost tokens: seq<string>)
    requires Filled(argv, copies, tokens) && |copies| == argc && {argv} + SetOf(copies) <= mem.live && argv !in SetOf(copies)
    modifies mem
    ensures mem.live == old(mem.live) - {argv} - SetOf(copies)
  {
    var argn := 0;
    while argn < argc
      invariant argn <= argc && mem.live == old(mem.live) - SetOf(copies[..argn])
    {
      assert argv[argn] == copies[argn] && copies[argn] in copies && copies[argn] !in copies[..argn];
      mem.Release(argv[argn]);
      SetOfSnoc(copies[..argn], copies[argn]);
      assert copies[..argn + 1] == copies[..argn] + [copies[argn]];
      argn := argn + 1;
    }
    assert copies[..argn] == copies;
    mem.Release(argv);
  }

  /** The tokeniser around a command: both passes agree, every copied token is given back, and the two
      copies of the line are lost exactly when the line holds a token. */
  method CommandName(mem: Ledger, line: string) returns (cmd: Option<string>, ghost lost: set<object>)
    requires forall i :: 0 <= i < |line| ==> line[i] != '\0'
    modifies mem
    ensures cmd == if Fields(line) == [] then None else Some(Fields(line)[0])
    ensures fresh(lost) && |lost| == LostByBoth(line) && mem.live == old(mem.live) + lost && lost !! old(mem.live)
  {
    hide Fields, SetOf, LostByPass, Filled;
    var argc;
    ghost var lost1, lost2, copies;
    var argv;
    ghost var live := mem.live;
    argc, lost1 := CountTokens(mem, line);
    argv, copies, lost2 := SplitTokens(mem, line, argc);
    FirstSlot(argv, copies, Fields(line));
    cmd := if argc == 0 then None else Some(argv[0].text);
    ghost var held := {argv} + SetOf(copies);
    FreeTokens(mem, argv, argc, copies, Fields(line));
    lost := lost1 + lost2;
    LostTogether(live, lost1, lost2, held, mem.live);
  }

  /** What the two passes lost is all that is left of them. */
  lemma LostTogether(live: set<object>, lost1: set<object>, lost2: set<object>, held: set<object>, now: set<object>)
    requires lost1 !! live && lost2 !! live + lost1 && held !! live + lost1 + lost2
    requires now == live + lost1 + lost2 + held - held
    ensures now == live + (lost1 + lost2) && |lost1 + lost2| == |lost1| + |lost2| && lost1 + lost2 !! live
  {
  }
}
