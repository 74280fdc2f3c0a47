/** `cplr_pkgconfig_add`: the flags of a package are read character by character onto the piles. */
module Package {
  import opened Text
  import opened Lists
  import opened Piles
  import opened Compiler

  // ---- the grammar, on words ---------------------------------------------------------------------

  predicate IsSpace(c: char) {
    c == ' ' || '\t' <= c <= '\r'
  }

  predicate IsGraph(c: char) {
    '!' <= c <= '~'
  }

  /** A maximal run of graphic characters and the character that stops it, if the text goes on. */
  datatype Token = Token(word: string, stop: Option<char>)

  /** The length of the graphic run at the start of a text. */
  function GraphRun(s: string): (k: nat)
    ensures k <= |s|
  {
    if s == "" || !IsGraph(s[0]) then 0 else 1 + GraphRun(s[1..])
  }

  lemma {:induction false} GraphRunIsMaximal(s: string)
    ensures forall c <- s[..GraphRun(s)] :: IsGraph(c)
    ensures GraphRun(s) < |s| ==> !IsGraph(s[GraphRun(s)])
  {
    hide IsGraph;
    if s != "" && IsGraph(s[0]) {
      GraphRunIsMaximal(s[1..]);
      assert s[..GraphRun(s)] == [s[0]] + s[1..][..GraphRun(s[1..])];
    }
  }

  function Tokens(s: string): seq<Token> {
    var k := GraphRun(s);
    if k == |s| then [Token(s, None)] else [Token(s[..k], Some(s[k]))] + Tokens(s[k + 1..])
  }

  /** One `l_append_str_owned`. */
  datatype Push = Push(pile: nat, text: string)

  /** What a text amounts to: appends in order, `-pthread` requests, and whether it was accepted. */
  datatype Parsed = Parsed(pushes: seq<Push>, pthreads: nat, ok: bool)

  const PTHREAD := "-pthread"

  predicate StartsPthread(w: string) {
    |w| >= 8 && w[..8] == PTHREAD
  }

  function StripPthread(w: string): (r: (string, nat))
    ensures |r.0| <= |w|
  {
    if StartsPthread(w) then var r := StripPthread(w[8..]); (r.0, r.1 + 1) else (w, 0)
  }

  predicate TakesArgument(c: char) {
    c == 'D' || c == 'I' || c == 'L' || c == 'l'
  }

  function PushFor(c: char, arg: string): Push
    requires TakesArgument(c)
  {
    if c == 'D' then Push(DEFS, "-D" + arg)
    else if c == 'I' then Push(INCDIRS, arg)
    else if c == 'L' then Push(LIBDIRS, arg)
    else Push(LIBS, arg)
  }

  /** A word is any number of `-pthread`, then nothing, a flag with its argument, or an option that
      is skipped; a flag that ends the whole text is dropped. */
  function Word(t: Token): Parsed {
    var (w, n) := StripPthread(t.word);
    if w == "" then Parsed([], n, t.stop == None || IsSpace(t.stop.value))
    else if w[0] != '-' then Parsed([], n, false)
    else if |w| > 1 && TakesArgument(w[1]) && (|w| > 2 || t.stop.Some?) then Parsed([PushFor(w[1], w[2..])], n, true)
    else Parsed([], n, true)
  }

  function Then(a: Parsed, b: Parsed): Parsed {
    if a.ok then Parsed(a.pushes + b.pushes, a.pthreads + b.pthreads, b.ok) else a
  }

  const DONE := Parsed([], 0, true)

  function ParseTokens(ts: seq<Token>): Parsed {
    if ts == [] then DONE else Then(Word(ts[0]), ParseTokens(ts[1..]))
  }

  function Parse(s: string): Parsed {
    ParseTokens(Tokens(s))
  }

  // ---- how the grammar unfolds from the left -------------------------------------------------------

  lemma ParseWord(w: string, rest: string)
    requires (forall c <- w :: IsGraph(c)) && (rest != "" ==> !IsGraph(rest[0]))
    ensures rest == "" ==> Parse(w + rest) == Word(Token(w, None))
    ensures rest != "" ==> Parse(w + rest) == Then(Word(Token(w, Some(rest[0]))), Parse(rest[1..]))
  {
    hide Word, IsGraph;
    GraphRunOf(w, rest);
    var s := w + rest;
    if rest == "" {
      var t := Token(w, None);
      assert s == w && Tokens(s) == [t];
      assert [t][1..] == [] && ParseTokens([t]) == Then(Word(t), DONE);
      assert Word(t).pushes + [] == Word(t).pushes;
    } else {
      assert s[..|w|] == w && s[|w|] == rest[0] && s[|w| + 1..] == rest[1..];
      var t := Token(w, Some(rest[0]));
      assert ([t] + Tokens(rest[1..]))[1..] == Tokens(rest[1..]);
    }
  }

  lemma {:induction false} GraphRunOf(w: string, rest: string)
    requires (forall c <- w :: IsGraph(c)) && (rest != "" ==> !IsGraph(rest[0]))
    ensures GraphRun(w + rest) == |w|
  {
    if w == "" {
      assert w + rest == rest;
    } else {
      assert w[0] in w && (w + rest)[1..] == w[1..] + rest;
      GraphRunOf(w[1..], rest);
    }
  }

  lemma NotPthread(w: string, i: nat)
    requires i < |w| && i < 8 && w[i] != PTHREAD[i]
    ensures StripPthread(w) == (w, 0)
  {
    assert |w| >= 8 ==> w[..8][i] == w[i];
  }

  lemma WordEmpty(stop: Option<char>)
    ensures Word(Token("", stop)) == Parsed([], 0, stop == None || IsSpace(stop.value))
  {
    assert StripPthread("") == ("", 0);
  }

  lemma WordInvalid(w: string, stop: Option<char>)
    requires w != "" && w[0] != '-'
    ensures Word(Token(w, stop)) == Parsed([], 0, false)
  {
    NotPthread(w, 0);
  }

  lemma WordPthread(w: string, stop: Option<char>)
    ensures Word(Token(PTHREAD + w, stop)) == OneMore(Word(Token(w, stop)))
  {
    assert (PTHREAD + w)[..8] == PTHREAD && (PTHREAD + w)[8..] == w;
  }

  lemma WordFlag(c: char, arg: string, stop: Option<char>)
    requires TakesArgument(c)
    ensures Word(Token("-" + [c] + arg, stop)) ==
      if arg == "" && stop == None then DONE else Parsed([PushFor(c, arg)], 0, true)
  {
    var h := "-" + [c] + arg;
    assert h[1] == c && h[2..] == arg;
    NotPthread(h, 1);
  }

  lemma WordSkip(w: string, stop: Option<char>)
    requires !StartsPthread("-" + w) && (w == "" || !TakesArgument(w[0]))
    ensures Word(Token("-" + w, stop)) == DONE
  {
    assert w != "" ==> ("-" + w)[1] == w[0];
  }

  lemma ThenDone(p: Parsed)
    ensures Then(DONE, p) == p
  {
    assert [] + p.pushes == p.pushes;
  }

  /** The character that stops the graphic run of a text. */
  function Stop(s: string): Option<char> {
    var k := GraphRun(s); if k == |s| then None else Some(s[k])
  }

  /** What is left of a text when its graphic run and the character behind it are consumed. */
  function Beyond(s: string): Parsed {
    var k := GraphRun(s); if k == |s| then DONE else Parse(s[k + 1..])
  }

  /** A graphic prefix joins the graphic run of the text behind it. */
  lemma ParseRun(h: string, s: string)
    requires forall c <- h :: IsGraph(c)
    ensures Parse(h + s) == Then(Word(Token(h + s[..GraphRun(s)], Stop(s))), Beyond(s))
  {
    hide Word, Parse, IsGraph;
    GraphRunIsMaximal(s);
    var k := GraphRun(s);
    var w, rest := s[..k], s[k..];
    assert h + s == (h + w) + rest;
    ParseWord(h + w, rest);
    if k == |s| {
      var p := Word(Token(h + w, None));
      assert p.pushes + [] == p.pushes;
    } else {
      assert rest[1..] == s[k + 1..];
    }
  }

  /** White space before a word is skipped. */
  lemma ParseSpace(s: string)
    requires s != "" && IsSpace(s[0])
    ensures Parse(s) == Parse(s[1..])
  {
    hide Word, Parse;
    ParseRun("", s);
    WordEmpty(Some(s[0]));
    assert "" + s == s && "" + s[..0] == "";
    ThenDone(Parse(s[1..]));
  }

  /** Anything else that does not start an option ends the parse. */
  lemma ParseInvalid(s: string)
    requires s != "" && s[0] != '-' && !IsSpace(s[0])
    ensures Parse(s) == Parsed([], 0, false)
  {
    hide Word, Parse;
    var w := s[..GraphRun(s)];
    assert "" + s == s && "" + w == w;
    GraphRunIsMaximal(s);
    ParseRun("", s);
    if w == "" {
      WordEmpty(Stop(s));
    } else {
      WordInvalid(w, Stop(s));
    }
  }

  function OneMore(p: Parsed): Parsed {
    Parsed(p.pushes, p.pthreads + 1, p.ok)
  }

  lemma PthreadIsGraphic()
    ensures forall c <- PTHREAD :: IsGraph(c)
  {
  }

  lemma ThenOneMore(a: Parsed, b: Parsed)
    ensures Then(OneMore(a), b) == OneMore(Then(a, b))
  {
  }

  /** `-pthread` may be followed by anything. */
  lemma ParsePthread(s: string)
    ensures Parse(PTHREAD + s) == OneMore(Parse(s))
  {
    hide *;
    var w := s[..GraphRun(s)];
    PthreadIsGraphic();
    ParseRun("", s);
    ParseRun(PTHREAD, s);
    assert "" + s == s && "" + w == w;
    WordPthread(w, Stop(s));
    ThenOneMore(Word(Token(w, Stop(s))), Beyond(s));
  }

  /** An option that takes no argument here is skipped with all that is attached to it. */
  lemma ParseSkip(s: string)
    requires !StartsPthread("-" + s) && (s == "" || !TakesArgument(s[0]))
    ensures Parse("-" + s) == Beyond(s)
  {
    var w := s[..GraphRun(s)];
    assert !StartsPthread("-" + w) by {
      assert |w| >= 7 ==> ("-" + w)[..8] == ("-" + s)[..8];
    }
    hide Word, Parse, Beyond, StartsPthread;
    ParseRun("-", s);
    WordSkip(w, Stop(s));
    ThenDone(Beyond(s));
  }

  lemma AtEnd(s: string)
    ensures s == "" <==> s[..GraphRun(s)] == "" && Stop(s) == None
    ensures s == "" ==> Then(DONE, Beyond(s)) == DONE
  {
    hide Parse, IsGraph, GraphRun;
    NoRun("");
    if s != "" && GraphRun(s) == |s| {
      assert s[..GraphRun(s)] == s;
    }
  }

  lemma NoRun(s: string)
    requires s == ""
    ensures GraphRun(s) == 0
  {
  }

  /** A flag takes the graphic run behind it, unless the text ends before one can start. */
  lemma ParseFlag(c: char, s: string)
    requires TakesArgument(c)
    ensures Parse("-" + [c] + s) ==
      if s == "" then DONE else Then(Parsed([PushFor(c, s[..GraphRun(s)])], 0, true), Beyond(s))
  {
    assert forall x <- "-" + [c] :: IsGraph(x);
    hide Word, Parse, PushFor, Beyond, Stop, IsGraph, GraphRun, Then, TakesArgument;
    ParseRun("-" + [c], s);
    WordFlag(c, s[..GraphRun(s)], Stop(s));
    AtEnd(s);
  }

  lemma ParseEnd()
    ensures Parse("") == DONE && Parse("-") == DONE
  {
    hide Word, Parse, Then, IsGraph;
    ParseRun("", "");
    ParseSkip("") by { NotPthreadAlone(); }
    WordEmpty(None);
    ThenDone(DONE);
    assert "" + "" == "" && "-" + "" == "-" && ""[..0] == "";
  }

  lemma NotPthreadAlone()
    ensures !StartsPthread("-" + "")
  {
  }

  // ---- the character machine --------------------------------------------------------------------------

  function PushAll(v: View, ps: seq<Push>): View {
    if ps == [] then v
    else
      var u := PushAll(v, ps[..|ps| - 1]);
      var p := ps[|ps| - 1];
      if p.pile < COUNT then Pushed(u, p.pile, p.text) else u
  }

  /** The text behind the cursor together with what the modes remember of the text before it. */
  function Pending(dash: bool, opt: char, s: string): string {
    if opt != '\0' then "-" + [opt] + s else if dash then "-" + s else s
  }

  /** The characters of a C string: none of them is the terminator. */
  predicate CText(s: string) {
    forall i :: 0 <= i < |s| ==> s[i] != '\0'
  }

  /** A NUL-terminated buffer; the cursor must not have passed the terminator. */
  function CharAt(s: string, o: nat): char
    requires o <= |s|
  {
    if o < |s| then s[o] else '\0'
  }

  /** The loop test `*o++`, seen from the cursor before it. */
  predicate GoesOn(s: string, e: nat)
    requires e <= |s|
  {
    CharAt(s, e) != '\0'
  }

  /** `while(*o && isgraph(*o)) o++` */
  method SkipGraph(s: string, o: nat) returns (e: nat)
    requires o <= |s| && CText(s)
    ensures e == o + GraphRun(s[o..]) && e <= |s|
  {
    e := o;
    while CharAt(s, e) != '\0' && IsGraph(CharAt(s, e))
      invariant o <= e <= |s| && o + GraphRun(s[o..]) == e + GraphRun(s[e..])
      decreases |s| - e
    {
      assert s[e..][1..] == s[e + 1..];
      e := e + 1;
    }
  }

  lemma ThenAssociates(a: Parsed, b: Parsed, c: Parsed)
    ensures Then(Then(a, b), c) == Then(a, Then(b, c))
  {
    assert (a.pushes + b.pushes) + c.pushes == a.pushes + (b.pushes + c.pushes);
  }

  lemma PushAllOne(v: View, ps: seq<Push>, p: Push)
    requires p.pile < COUNT
    ensures PushAll(v, ps + [p]) == Pushed(PushAll(v, ps), p.pile, p.text)
  {
    assert (ps + [p])[..|ps|] == ps;
  }

  /** The request for threads, as often as it was made. */
  function Threads(n: nat): seq<Call> {
    seq(n, i => SetOptions(PTHREAD))
  }

  /** `if(opt)`: the graphic run at the cursor is copied and appended by option letter. */
  method TakeArgument(mem: Ledger, ps: PileSet, s: string, o: nat, opt: char) returns (e: nat)
    requires ps.Backed(mem) && o < |s| && CText(s) && TakesArgument(opt)
    modifies ps.Repr(), mem
    ensures e == o + GraphRun(s[o..]) && e <= |s|
    ensures ps.Backed(mem)
    ensures var p := PushFor(opt, s[o..][..GraphRun(s[o..])]);
            p.pile < COUNT && |old(ps.view)| == COUNT && ps.view == Pushed(old(ps.view), p.pile, p.text)
    ensures old(ps.Cells()) <= ps.Cells() && fresh(ps.Repr() - old(ps.Repr()))
    ensures mem.live - ps.Cells() == old(mem.live - ps.Cells()) && mem.freed == old(mem.freed)
  {
    assert |ps.view| == COUNT;
    hide PileSet.Backed, PileSet.Valid, PileSet.Cells, PileSet.Repr;
    e := SkipGraph(s, o);
    var arg := s[o..e];
    assert arg == s[o..][..GraphRun(s[o..])];
    if opt == 'D' || opt == 'U' {
      ps.Push(mem, DEFS, "-" + [opt] + arg);
      assert "-" + ['D'] + arg == "-D" + arg;
    } else if opt == 'I' {
      ps.Push(mem, INCDIRS, arg);
    } else if opt == 'L' {
      ps.Push(mem, LIBDIRS, arg);
    } else {
      ps.Push(mem, LIBS, arg);
    }
  }

  /** What the state of the machine still promises for the whole text. */
  ghost predicate Promises(s: string, got: Parsed, dash: bool, opt: char, o: nat, go: bool) {
    got.ok && (opt != '\0' ==> TakesArgument(opt)) &&
    if go then o <= |s| && Parse(s) == Then(got, Parse(Pending(dash, opt, s[o..]))) else Parse(s) == got
  }

  /** The text fails after what was accepted so far. */
  ghost predicate Rejects(s: string, got: Parsed) {
    Parse(s) == Parsed(got.pushes, got.pthreads, false)
  }

  lemma PromisedStart(s: string)
    ensures Promises(s, DONE, false, '\0', 0, true)
  {
    assert s[0..] == s;
    ThenDone(Parse(s));
  }

  lemma PendingEnd(dash: bool, opt: char)
    requires opt != '\0' ==> TakesArgument(opt)
    ensures Parse(Pending(dash, opt, "")) == DONE
  {
    hide Parse;
    ParseEnd();
    if opt != '\0' {
      ParseFlag(opt, "");
    }
    assert "-" + "" == "-";
  }

  lemma PromisedEnd(s: string, got: Parsed, dash: bool, opt: char)
    requires Promises(s, got, dash, opt, |s|, true)
    ensures Parse(s) == got
  {
    hide Parse, Pending, TakesArgument;
    assert s[|s|..] == "";
    PendingEnd(dash, opt);
    assert got.pushes + [] == got.pushes;
  }

  /** The rest of a text behind a consumed graphic run, as the loop test finds it. */
  lemma PromisedBeyond(s: string, got: Parsed, o: nat)
    requires got.ok && o <= |s| && Parse(s) == Then(got, Beyond(s[o..]))
    ensures var e := o + GraphRun(s[o..]); Promises(s, got, false, '\0', e + 1, e < |s|)
  {
    hide Parse, GraphRun, IsGraph;
    var t := s[o..];
    var k := GraphRun(t);
    if k < |t| {
      assert t[k + 1..] == s[o + k + 1..];
      assert Beyond(t) == Parse(s[o + k + 1..]);
    } else {
      assert Beyond(t) == DONE && got.pushes + [] == got.pushes;
    }
  }

  lemma PromisedArgument(s: string, got: Parsed, dash: bool, opt: char, o: nat)
    requires Promises(s, got, dash, opt, o, true) && opt != '\0' && o < |s|
    ensures var t := s[o..];
      var gotNow := Then(got, Parsed([PushFor(opt, t[..GraphRun(t)])], 0, true));
      Promises(s, gotNow, false, '\0', o + GraphRun(t) + 1, o + GraphRun(t) < |s|)
  {
    hide Parse, GraphRun, Beyond, PushFor;
    var t := s[o..];
    var p := Parsed([PushFor(opt, t[..GraphRun(t)])], 0, true);
    ParseFlag(opt, t);
    ThenAssociates(got, p, Beyond(t));
    PromisedBeyond(s, Then(got, p), o);
  }

  lemma PromisedSkip(s: string, got: Parsed, o: nat)
    requires Promises(s, got, true, '\0', o, true) && o < |s|
    requires !TakesArgument(s[o]) && !("pthread" <= s[o..])
    ensures var e := o + GraphRun(s[o..]); Promises(s, got, false, '\0', e + 1, e < |s|)
  {
    var t := s[o..];
    assert !StartsPthread("-" + t) by {
      assert |t| >= 7 ==> ("-" + t)[..8][1..] == t[..7];
      assert PTHREAD[1..] == "pthread";
    }
    hide Parse, GraphRun, Beyond, StartsPthread;
    ParseSkip(t);
    PromisedBeyond(s, got, o);
  }

  lemma PthreadPrefix(t: string)
    requires "pthread" <= t
    ensures "-" + t == PTHREAD + t[7..]
  {
    assert t == "pthread" + t[7..];
  }

  lemma PromisedPthread(s: string, got: Parsed, o: nat)
    requires Promises(s, got, true, '\0', o, true) && "pthread" <= s[o..]
    ensures o + 7 <= |s| && Promises(s, OneMore(got), false, '\0', o + 7, true)
  {
    var t := s[o..];
    PthreadPrefix(t);
    assert t[7..] == s[o + 7..];
    hide Parse;
    ParsePthread(t[7..]);
  }

  lemma PromisedLetter(s: string, got: Parsed, o: nat)
    requires Promises(s, got, true, '\0', o, true) && o < |s| && TakesArgument(s[o])
    ensures Promises(s, got, false, s[o], o + 1, true)
  {
    hide Parse;
    assert "-" + s[o..] == "-" + [s[o]] + s[o + 1..];
  }

  lemma PromisedBase(s: string, got: Parsed, o: nat)
    requires Promises(s, got, false, '\0', o, true) && o < |s|
    ensures s[o] == '-' ==> Promises(s, got, true, '\0', o + 1, true)
    ensures s[o] != '-' && IsSpace(s[o]) ==> Promises(s, got, false, '\0', o + 1, true)
    ensures s[o] != '-' && !IsSpace(s[o]) ==> Parse(s) == Parsed(got.pushes, got.pthreads, false)
  {
    hide Parse;
    var t := s[o..];
    assert t[1..] == s[o + 1..];
    if s[o] == '-' {
      assert t == "-" + t[1..];
    } else if IsSpace(s[o]) {
      ParseSpace(t);
    } else {
      ParseInvalid(t);
      assert got.pushes + [] == got.pushes;
    }
  }

  lemma ThreadsOne(n: nat)
    ensures Threads(n + 1) == Threads(n) + [SetOptions(PTHREAD)]
  {
  }

  /** `else if(dash)`: the letter behind a dash. The white-space loop behind an option letter starts on the
      letter itself and never moves, so it is not spelled out. */
  method TakeLetter(ghost mem: Ledger, ghost ps: PileSet, tcc: TCC, args: string, o: nat,
                    ghost calls: seq<Call>, ghost got: Parsed)
    returns (opt: char, oNow: nat, go: bool, ghost gotNow: Parsed)
    requires CText(args) && o < |args| && Promises(args, got, true, '\0', o, true)
    requires tcc.calls == calls + Threads(got.pthreads) && ps.Backed(mem) && tcc !in ps.Repr()
    modifies tcc`calls
    ensures ps.Backed(mem) && ps.Repr() == old(ps.Repr()) && ps.Cells() == old(ps.Cells())
    ensures tcc.calls == calls + Threads(gotNow.pthreads) && gotNow.pushes == got.pushes
    ensures o < oNow <= |args| + 1 && Promises(args, gotNow, false, opt, oNow, go)
  {
    hide Parse, GraphRun, Promises, Threads, CText;
    var e := o;
    opt, gotNow := '\0', got;
    var n := CharAt(args, o);
    if n == 'D' || n == 'I' || n == 'L' || n == 'l' {
      PromisedLetter(args, got, o);
      opt := n;
    } else if n == 'p' && "pthread" <= args[o..] {
      PromisedPthread(args, got, o);
      ThreadsOne(got.pthreads);
      tcc.calls := tcc.calls + [SetOptions(PTHREAD)];
      gotNow := OneMore(got);
      e := e + 6;
    } else {
      PromisedSkip(args, got, o);
      e := SkipGraph(args, o);
    }
    CharAtEnd(args, e);
    oNow, go := e + 1, GoesOn(args, e);
  }

  /** `else`: between words only a dash or white space may stand. */
  method TakeBase(ghost mem: Ledger, ghost ps: PileSet, args: string, o: nat, ghost got: Parsed)
    returns (dash: bool, oNow: nat, go: bool, failed: bool)
    requires CText(args) && o < |args| && Promises(args, got, false, '\0', o, true) && ps.Backed(mem)
    ensures ps.Backed(mem)
    ensures failed ==> Rejects(args, got)
    ensures !failed ==> Promises(args, got, dash, '\0', oNow, go)
    ensures oNow == o + 1
  {
    dash, failed := false, false;
    PromisedBase(args, got, o);
    CharAtEnd(args, o);
    oNow, go := o + 1, GoesOn(args, o);
    hide Parse, Promises;
    if CharAt(args, o) == '-' {
      dash := true;
    } else if !IsSpace(CharAt(args, o)) {
      failed := true;
    }
  }

  /** `if(opt)`, with what it adds to the outcome. */
  method AdvanceArgument(mem: Ledger, ps: PileSet, args: string, dash: bool, opt: char, o: nat, ghost v: View, ghost got: Parsed)
    returns (oNow: nat, go: bool, ghost gotNow: Parsed)
    requires ps.Backed(mem) && CText(args) && o < |args| && opt != '\0'
    requires Promises(args, got, dash, opt, o, true) && ps.view == PushAll(v, got.pushes)
    modifies ps.Repr(), mem
    ensures ps.Backed(mem) && ps.view == PushAll(v, gotNow.pushes) && gotNow.pthreads == got.pthreads
    ensures o < oNow <= |args| + 1 && Promises(args, gotNow, false, '\0', oNow, go)
    ensures old(ps.Cells()) <= ps.Cells() && fresh(ps.Repr() - old(ps.Repr()))
    ensures mem.live - ps.Cells() == old(mem.live - ps.Cells()) && mem.freed == old(mem.freed)
  {
    hide *;
    PromisesInRange(args, got, dash, opt, o);
    ghost var p := PushFor(opt, args[o..][..GraphRun(args[o..])]);
    PromisedArgument(args, got, dash, opt, o);
    var e := TakeArgument(mem, ps, args, o, opt);
    GotArgument(v, got, p);
    gotNow := Then(got, Parsed([p], 0, true));
    CharAtEnd(args, e);
    oNow, go := e + 1, GoesOn(args, e);
  }

  lemma GotArgument(v: View, got: Parsed, p: Push)
    requires got.ok && p.pile < COUNT
    ensures var gotNow := Then(got, Parsed([p], 0, true));
      gotNow.pthreads == got.pthreads && PushAll(v, gotNow.pushes) == Pushed(PushAll(v, got.pushes), p.pile, p.text)
  {
    PushAllOne(v, got.pushes, p);
  }

  /** The body of the loop of `cplr_pkgconfig_add`, up to and including its test `*o++`. */
  method Advance(mem: Ledger, ps: PileSet, tcc: TCC, args: string, dash: bool, opt: char, o: nat,
                 ghost v: View, ghost calls: seq<Call>, ghost got: Parsed)
    returns (dashNow: bool, optNow: char, oNow: nat, go: bool, failed: bool, ghost gotNow: Parsed)
    requires ps.Backed(mem) && tcc !in ps.Repr() && CText(args) && o < |args|
    requires Promises(args, got, dash, opt, o, true)
    requires ps.view == PushAll(v, got.pushes) && tcc.calls == calls + Threads(got.pthreads)
    modifies ps.Repr(), mem, tcc`calls
    ensures ps.Backed(mem) && ps.view == PushAll(v, gotNow.pushes) && tcc.calls == calls + Threads(gotNow.pthreads)
    ensures failed ==> Rejects(args, gotNow)
    ensures !failed ==> Promises(args, gotNow, dashNow, optNow, oNow, go)
    ensures o < oNow && oNow <= |args| + 1
    ensures old(ps.Cells()) <= ps.Cells() && fresh(ps.Repr() - old(ps.Repr()))
    ensures mem.live - ps.Cells() == old(mem.live - ps.Cells()) && mem.freed == old(mem.freed)
  {
    hide *;
    failed, gotNow, dashNow, optNow := false, got, false, '\0';
    if opt != '\0' {
      oNow, go, gotNow := AdvanceArgument(mem, ps, args, dash, opt, o, v, got);
    } else if dash {
      optNow, oNow, go, gotNow := TakeLetter(mem, ps, tcc, args, o, calls, got);
    } else {
      dashNow, oNow, go, failed := TakeBase(mem, ps, args, o, got);
    }
  }

  lemma CharAtEnd(s: string, e: nat)
    requires CText(s) && e <= |s|
    ensures GoesOn(s, e) <==> e < |s|
  {
  }

  /** `cplr_pkgconfig_add`: the machine accepts, appends and requests exactly what the grammar says. */
  method PkgconfigAdd(mem: Ledger, ps: PileSet, tcc: TCC, args: string) returns (ret: int)
    requires ps.Backed(mem) && tcc !in ps.Repr() && CText(args)
    modifies ps.Repr(), mem, tcc`calls
    ensures ps.Backed(mem) && |old(ps.view)| == COUNT && ps.view == PushAll(old(ps.view), Parse(args).pushes)
    ensures tcc.calls == old(tcc.calls) + Threads(Parse(args).pthreads)
    ensures ret == if Parse(args).ok then 0 else 1
    ensures old(ps.Cells()) <= ps.Cells() && fresh(ps.Repr() - old(ps.Repr()))
    ensures mem.live - ps.Cells() == old(mem.live - ps.Cells()) && mem.freed == old(mem.freed)
  {
    assert |ps.view| == COUNT && tcc as object != ps && tcc as object != mem;
    hide Parse, Promises, PushAll, Threads, GoesOn, CText, PileSet.Backed, PileSet.Valid, PileSet.Cells, PileSet.Repr;
    var dash, opt, o, go := false, '\0', 0, true;
    ghost var got := DONE;
    PromisedStart(args);
    GotNothing(ps.view, tcc.calls);
    while go
      invariant Promises(args, got, dash, opt, o, go) && o <= |args| + 1
      invariant ps.Backed(mem) && tcc !in ps.Repr()
      invariant ps.view == PushAll(old(ps.view), got.pushes)
      invariant tcc.calls == old(tcc.calls) + Threads(got.pthreads)
      invariant old(ps.Cells()) <= ps.Cells() && fresh(ps.Repr() - old(ps.Repr()))
      invariant mem.live - ps.Cells() == old(mem.live - ps.Cells()) && mem.freed == old(mem.freed)
      decreases |args| + 1 - o
    {
      PromisesInRange(args, got, dash, opt, o);
      CharAtEnd(args, o);
      if !GoesOn(args, o) {
        PromisedEnd(args, got, dash, opt);
        break;
      }
      var failed;
      ghost var repr := ps.Repr();
      label advancing:
      dash, opt, o, go, failed, got := Advance(mem, ps, tcc, args, dash, opt, o, old(ps.view), old(tcc.calls), got);
      forall x: object | x in ps.Repr() && x !in old(ps.Repr()) ensures fresh(x) {
        if x !in repr {
          assert x in ps.Repr() - repr && !old@advancing(allocated(x));
        }
      }
      if failed {
        RejectsKnows(args, got);
        return 1;
      }
    }
    if !go {
      PromisesDone(args, got, dash, opt, o);
    }
    ret := 0;
  }

  lemma PromisesInRange(s: string, got: Parsed, dash: bool, opt: char, o: nat)
    requires Promises(s, got, dash, opt, o, true)
    ensures o <= |s| && got.ok && (opt != '\0' ==> TakesArgument(opt))
  {
  }

  lemma GotNothing(v: View, calls: seq<Call>)
    ensures PushAll(v, DONE.pushes) == v && calls + Threads(DONE.pthreads) == calls
  {
  }

  lemma RejectsKnows(s: string, got: Parsed)
    requires Rejects(s, got)
    ensures Parse(s) == Parsed(got.pushes, got.pthreads, false)
  {
  }

  lemma PromisesDone(s: string, got: Parsed, dash: bool, opt: char, o: nat)
    requires Promises(s, got, dash, opt, o, false)
    ensures Parse(s) == got && got.ok
  {
  }

  // ---- printing and parsing back ------------------------------------------------------------------------

  datatype PkgFlag = Argument(letter: char, text: string) | Pthread

  /** A flag and the white space in front of it. */
  datatype Piece = Piece(lead: string, flag: PkgFlag)

  predicate Blank(s: string) {
    forall c <- s :: IsSpace(c)
  }

  predicate Graphic(s: string) {
    forall c <- s :: IsGraph(c)
  }

  predicate WellFormed(f: PkgFlag) {
    f.Argument? ==> TakesArgument(f.letter) && f.text != "" && Graphic(f.text)
  }

  /** Flags are separated by white space, which may be missing behind `-pthread` and in front. */
  predicate Separated(ps: seq<Piece>) {
    forall i :: 0 <= i < |ps| ==>
      WellFormed(ps[i].flag) && Blank(ps[i].lead) && (i > 0 && ps[i - 1].flag.Argument? ==> ps[i].lead != "")
  }

  function Show(f: PkgFlag): string {
    match f
    case Argument(c, t) => "-" + [c] + t
    case Pthread => PTHREAD
  }

  function Print(ps: seq<Piece>, tail: string): string {
    if ps == [] then tail else ps[0].lead + (Show(ps[0].flag) + Print(ps[1..], tail))
  }

  /** What the printed flags ask for. */
  function Asked(ps: seq<Piece>): Parsed {
    if ps == [] then DONE
    else
      var rest := Asked(ps[1..]);
      match ps[0].flag
      case Argument(c, t) => Parsed((if TakesArgument(c) then [PushFor(c, t)] else []) + rest.pushes, rest.pthreads, rest.ok)
      case Pthread => OneMore(rest)
  }

  lemma {:induction false} ParseBlank(lead: string, s: string)
    requires Blank(lead)
    ensures Parse(lead + s) == Parse(s)
  {
    hide Parse;
    if lead == "" {
      assert lead + s == s;
    } else {
      assert lead[0] in lead && (lead + s)[1..] == lead[1..] + s;
      ParseSpace(lead + s);
      ParseBlank(lead[1..], s);
    }
  }

  /** A flag whose argument ends the text or is followed by white space. */
  lemma ParseShown(c: char, t: string, s: string)
    requires TakesArgument(c) && t != "" && Graphic(t) && (s != "" ==> IsSpace(s[0]))
    ensures Parse("-" + [c] + t + s) == Then(Parsed([PushFor(c, t)], 0, true), Parse(s))
  {
    hide Parse, PushFor, Then;
    assert "-" + [c] + t + s == "-" + [c] + (t + s);
    GraphRunOf(t, s);
    assert (t + s)[..|t|] == t && (t + s)[|t|..] == s;
    ParseFlag(c, t + s);
    if s == "" {
      ParseEnd();
    } else {
      assert (t + s)[|t| + 1..] == s[1..];
      ParseSpace(s);
    }
  }

  lemma PrintStarts(ps: seq<Piece>, tail: string)
    requires Separated(ps) && Blank(tail) && (ps != [] ==> ps[0].lead != "")
    ensures var s := Print(ps, tail); s != "" ==> IsSpace(s[0])
  {
    if ps != [] {
      assert ps[0].lead[0] in ps[0].lead;
    }
  }

  /** Printing any list of flags and parsing it back asks for exactly those flags, in order. */
  lemma {:induction false} ParsePrinted(ps: seq<Piece>, tail: string)
    requires Separated(ps) && Blank(tail)
    ensures Parse(Print(ps, tail)) == Asked(ps) && Asked(ps).ok
  {
    hide Parse, PushFor, Graphic, Blank;
    if ps == [] {
      ParseEnd();
      ParseBlank(tail, "");
      assert tail + "" == tail;
    } else {
      var rest := Print(ps[1..], tail);
      SeparatedTail(ps);
      ParsePrinted(ps[1..], tail);
      ParseBlank(ps[0].lead, Show(ps[0].flag) + rest);
      match ps[0].flag {
        case Argument(c, t) =>
          PrintStarts(ps[1..], tail);
          ParseShown(c, t, rest);
        case Pthread =>
          ParsePthread(rest);
      }
    }
  }

  lemma SeparatedTail(ps: seq<Piece>)
    requires ps != [] && Separated(ps)
    ensures Separated(ps[1..]) && WellFormed(ps[0].flag) && Blank(ps[0].lead)
    ensures ps[0].flag.Argument? && |ps| > 1 ==> ps[1..][0].lead != ""
  {
  }

  // ---- what the accepted language leaves out --------------------------------------------------------------

  /** White space behind an option letter, of whatever kind and length: the option takes an empty argument,
      and whatever follows is parsed by itself. */
  lemma SpacedArgument(c: char, ws: string, s: string)
    requires TakesArgument(c) && Blank(ws) && ws != ""
    ensures Parse("-" + [c] + ws + s) == Then(Parsed([PushFor(c, "")], 0, true), Parse(s))
  {
    hide Parse, PushFor, Then, Blank;
    BlankStart(ws);
    assert "-" + [c] + ws + s == "-" + [c] + (ws + s);
    ParseFlag(c, ws + s);
    assert (ws + s)[..0] == "" && (ws + s)[1..] == ws[1..] + s;
    BlankTail(ws);
    ParseBlank(ws[1..], s);
  }

  lemma BlankStart(ws: string)
    requires Blank(ws) && ws != ""
    ensures IsSpace(ws[0])
  {
    assert ws[0] in ws;
  }

  lemma BlankTail(ws: string)
    requires Blank(ws) && ws != ""
    ensures Blank(ws[1..])
  {
  }

  /** An option gets the argument behind it if and only if no white space stands between. Otherwise the
      argument is refused, unless it looks like an option itself and is accepted as one. */
  lemma ArgumentTaken(c: char, ws: string, arg: string)
    requires TakesArgument(c) && Blank(ws) && Graphic(arg) && arg != ""
    ensures var r := Parse("-" + [c] + ws + arg);
      (r == Parsed([PushFor(c, arg)], 0, true) <==> ws == "") &&
      (ws != "" ==> (r.ok <==> arg[0] == '-' && Parse(arg).ok) && r.pushes == [PushFor(c, "")] + Parse(arg).pushes)
  {
    hide Parse, PushFor, Blank;
    if ws == "" {
      assert "-" + [c] + ws + arg == "-" + [c] + arg + "";
      ParseShown(c, arg, "");
      ParseEnd();
    } else {
      SpacedArgument(c, ws, arg);
      PushForDiffers(c, arg);
      var r := Parse("-" + [c] + ws + arg);
      assert r.pushes[0] == PushFor(c, "") != PushFor(c, arg) == [PushFor(c, arg)][0];
      GraphicStart(arg);
      if arg[0] != '-' {
        ParseInvalid(arg);
      }
    }
  }

  lemma PushForDiffers(c: char, arg: string)
    requires TakesArgument(c) && arg != ""
    ensures |PushFor(c, "").text| != |PushFor(c, arg).text|
  {
  }

  lemma GraphicStart(arg: string)
    requires Graphic(arg) && arg != ""
    ensures !IsSpace(arg[0])
  {
    assert arg[0] in arg;
  }

  /** An unknown option in the place of an argument is skipped: the package is accepted with an empty one. */
  lemma SpacedOptionAccepted(c: char, ws: string, opt: string)
    requires TakesArgument(c) && Blank(ws) && ws != "" && Graphic(opt)
    requires !StartsPthread("-" + opt) && (opt == "" || !TakesArgument(opt[0]))
    ensures Parse("-" + [c] + ws + ("-" + opt)) == Parsed([PushFor(c, "")], 0, true)
  {
    hide Parse, PushFor, Blank;
    SpacedArgument(c, ws, "-" + opt);
    ParseSkip(opt);
    GraphRunOf(opt, "");
    assert opt + "" == opt;
  }

  /** A push of a package: graphic text, behind the restored `-D` when it is a definition. */
  predicate IsFlagText(p: Push) {
    Graphic(p.text) && (p.pile == DEFS ==> |p.text| > 1 && p.text[..2] == "-D")
  }

  lemma {:induction false} TokensAreGraphic(s: string)
    ensures forall t <- Tokens(s) :: Graphic(t.word)
    decreases |s|
  {
    hide IsGraph;
    var k := GraphRun(s);
    GraphRunIsMaximal(s);
    if k == |s| {
      assert s[..k] == s;
    } else {
      TokensAreGraphic(s[k + 1..]);
    }
  }

  lemma WordIsGraphic(t: Token)
    requires Graphic(t.word)
    ensures forall p <- Word(t).pushes :: IsFlagText(p)
  {
    StrippedIsGraphic(t.word);
  }

  lemma {:induction false} PushesAreGraphic(ts: seq<Token>)
    requires forall t <- ts :: Graphic(t.word)
    ensures forall p <- ParseTokens(ts).pushes :: IsFlagText(p)
  {
    hide Graphic, IsFlagText, Word;
    if ts != [] {
      assert ts[0] in ts && forall t <- ts[1..] :: t in ts;
      WordIsGraphic(ts[0]);
      PushesAreGraphic(ts[1..]);
    }
  }

  /** Whatever a package answers, every text appended for it is graphic. */
  lemma AppendsAreGraphic(s: string)
    ensures forall p <- Parse(s).pushes :: Graphic(p.text) && (p.pile == DEFS ==> |p.text| > 1 && p.text[..2] == "-D")
  {
    TokensAreGraphic(s);
    PushesAreGraphic(Tokens(s));
    hide Tokens, ParseTokens, Graphic;
  }

  lemma {:induction false} StrippedIsGraphic(w: string)
    requires Graphic(w)
    ensures Graphic(StripPthread(w).0)
    decreases |w|
  {
    if StartsPthread(w) {
      StrippedIsGraphic(w[8..]);
    }
  }
}
