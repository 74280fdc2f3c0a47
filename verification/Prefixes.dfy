/** What a typed line does, by its first character. */
module Prefixes {
  import opened Text
  import opened Piles
  import Package
  import Tokeniser
  import opened Emitter
  import opened Program
  import opened Generate
  import opened Flat
  import opened SessionForm
  import opened Listing

  // ---- what is skipped ------------------------------------------------------------------------------------

  /** White space and control characters of the C locale. */
  predicate IsInitial(c: char) {
    c as int < 32 || c == ' ' || c as int == 127
  }

  predicate Initial(s: string) {
    forall c <- s :: IsInitial(c)
  }

  /** A line without the white space and the control characters in front of it. */
  lemma {:induction false} Trimmed(ws: string, t: string)
    requires Initial(ws) && (t != "" ==> !IsInitial(t[0]))
    ensures TrimLine(ws + t) == t
  {
    if ws == "" {
      assert ws + t == t;
    } else {
      assert ws[0] in ws && (ws + t)[1..] == ws[1..] + t;
      Trimmed(ws[1..], t);
    }
  }

  /** The classes of characters that the piler tells apart. */
  lemma Characters(c: char)
    ensures Skipped(c) <==> c as int <= 32 || c as int == 127
    ensures Tokeniser.IsDelimiter(c) <==> c in " \t\r\n"
    ensures Package.IsSpace(c) <==> c in " \t\n\U{0b}\U{0c}\r"
    ensures Package.IsGraph(c) <==> 33 <= c as int <= 126
  {
  }

  // ---- one line ---------------------------------------------------------------------------------------------

  /** The state with one more text on a pile, and nothing else changed. */
  function Piled(s: State, k: nat, t: string): State
    requires k < COUNT
  {
    s.(view := s.view[k := s.view[k] + [t]])
  }

  /** A declaration, a definition, something to do before or after, or a statement to be run later: the
      text behind the prefix goes onto one pile, and nothing else happens. */
  lemma PiledByPrefix(s: State, ws: string, t: string, env: Env, at: nat)
    requires Initial(ws)
    ensures Command(s, ws + ("@" + t), env, at) == (Piled(s, TLDS, t), 0)
    ensures Command(s, ws + ("^" + t), env, at) == (Piled(s, TLFS, t), 0)
    ensures Command(s, ws + ("<" + t), env, at) == (Piled(s, BEFS, t), 0)
    ensures Command(s, ws + (">" + t), env, at) == (Piled(s, AFTS, t), 0)
    ensures t != "" ==> Command(s, ws + ("." + t), env, at) == (Piled(s, STMS, t), 0)
  {
    hide TrimLine, Run, Internally;
    Trimmed(ws, "@" + t);
    Trimmed(ws, "^" + t);
    Trimmed(ws, "<" + t);
    Trimmed(ws, ">" + t);
    Trimmed(ws, "." + t);
    assert ("@" + t)[1..] == t && ("^" + t)[1..] == t && ("<" + t)[1..] == t;
    assert (">" + t)[1..] == t && ("." + t)[1..] == t;
  }

  /** Nothing at all, help and shell commands leave the session as it is. */
  lemma IgnoredLines(s: State, ws: string, t: string, env: Env, at: nat)
    requires Initial(ws)
    ensures Command(s, ws, env, at) == (s, 0)
    ensures Command(s, ws + ("?" + t), env, at) == (s, 0)
    ensures Command(s, ws + ("!" + t), env, at) == (s, 0)
  {
    hide TrimLine, Run, Internally;
    Trimmed(ws, "");
    assert ws + "" == ws;
    Trimmed(ws, "?" + t);
    Trimmed(ws, "!" + t);
  }

  predicate IsPrefix(c: char) {
    c in "?!\\@^<>."
  }

  /** Any other text is a statement and is run at once; a lone dot runs what is piled up. Whatever comes
      of it, the line itself succeeds. */
  lemma RunLines(s: State, ws: string, t: string, env: Env, at: nat)
    requires Initial(ws)
    ensures t != "" && !IsInitial(t[0]) && !IsPrefix(t[0]) ==>
      Command(s, ws + t, env, at) == (Run(Piled(s, STMS, t), env, at).0, 0)
    ensures Command(s, ws + ".", env, at) == (Run(s, env, at).0, 0)
  {
    hide TrimLine, Run, Internally;
    if t != "" && !IsInitial(t[0]) {
      Trimmed(ws, t);
    }
    Trimmed(ws, ".");
    assert "."[1..] == "";
  }

  // ---- commands behind a backslash ----------------------------------------------------------------------------

  predicate Delimiters(s: string) {
    forall c <- s :: c in " \t\r\n"
  }

  predicate OneWord(s: string) {
    s != "" && forall c <- s :: c !in " \t\r\n"
  }

  /** A word with delimiters around it, and anything behind them, is the first field of its line. */
  lemma FirstWord(lead: string, word: string, rest: string)
    requires Delimiters(lead) && OneWord(word) && (rest != "" ==> rest[0] in " \t\r\n")
    ensures var f := Tokeniser.Fields(lead + word + rest); f != [] && f[0] == word
  {
    Tokeniser.FieldsFront(lead, word, rest) by {
      forall i | 0 <= i < |lead| ensures Tokeniser.IsDelimiter(lead[i]) {
        assert lead[i] in lead;
      }
      forall i | 0 <= i < |word| ensures !Tokeniser.IsDelimiter(word[i]) {
        assert word[i] in word;
      }
    }
  }

  lemma {:induction false} NoWord(s: string)
    requires Delimiters(s)
    ensures Tokeniser.Fields(s) == []
  {
    if s != "" {
      assert s[0] in s;
      Tokeniser.FieldsSkip(s);
      NoWord(s[1..]);
    }
  }

  /** What the commands do to a session: one quits, one dumps the unmarked program, five look around, and
      an unknown or missing one is a failure unless there is somebody to talk to. */
  lemma CommandByWord(s: State, ws: string, lead: string, word: string, rest: string, env: Env, at: nat)
    requires Initial(ws) && Delimiters(lead) && OneWord(word) && (rest != "" ==> rest[0] in " \t\r\n")
    ensures var line, v := ws + ("\\" + (lead + word + rest)), s.view;
      Command(s, line, env, at) ==
        if word == "q" then (s, 1)
        else if word == "d" then
          var text := ProgramText(false, v[DEFSYS], v[SYSS], v[INCS], v[TLDS], v[TLFS], v[BEFS], v[STMS], v[AFTS]);
          (s.(flag := s.flag + {Generated}, log := s.log + [Event(at, |s.tables| - 1, DidDump(text))]), 0)
        else if word in {"l", "y", "o", "s", "?"} then (s, 0)
        else (s, if Interactive in s.flag then 0 else 1)
  {
    hide TrimLine, Run, ProgramText, Bare, Plan, Tokeniser.Fields, Tokeniser.Leading, Tokeniser.Run;
    FirstWord(lead, word, rest);
    PrintedText(PilesOf(s.view));
    Trimmed(ws, "\\" + (lead + word + rest));
    assert ("\\" + (lead + word + rest))[1..] == lead + word + rest;
  }

  lemma MissingCommand(s: State, ws: string, lead: string, env: Env, at: nat)
    requires Initial(ws) && Delimiters(lead)
    ensures Command(s, ws + ("\\" + lead), env, at) == (s, if Interactive in s.flag then 0 else 1)
  {
    hide TrimLine, Run, Bare, Plan, Tokeniser.Fields;
    NoWord(lead);
    Trimmed(ws, "\\" + lead);
    assert ("\\" + lead)[1..] == lead;
  }

  /** A command line that holds a word loses two copies of itself, any other line none. */
  lemma LostCopies(ws: string, lead: string, word: string, rest: string, t: string)
    requires Initial(ws) && Delimiters(lead) && OneWord(word) && (rest != "" ==> rest[0] in " \t\r\n")
    ensures Leak(ws + ("\\" + (lead + word + rest))) == 2 && Leak(ws + ("\\" + lead)) == 0 && Leak(ws) == 0
    ensures t != "" && !IsInitial(t[0]) && t[0] != '\\' ==> Leak(ws + t) == 0
  {
    hide TrimLine, Tokeniser.Fields, Tokeniser.Leading, Tokeniser.Run;
    FirstWord(lead, word, rest);
    NoWord(lead);
    Trimmed(ws, "\\" + (lead + word + rest));
    Trimmed(ws, "\\" + lead);
    Trimmed(ws, "");
    if t != "" && !IsInitial(t[0]) {
      Trimmed(ws, t);
    }
    assert ws + "" == ws;
    assert ("\\" + (lead + word + rest))[1..] == lead + word + rest && ("\\" + lead)[1..] == lead;
  }

  // ---- one turn ---------------------------------------------------------------------------------------------

  /** A new context behind a loaded one: the five volatile piles are empty, no phase has been entered, no
      name is known, and there is no output file. */
  function NextContext(s: State): State {
    State(s.view[SRCS := []][TLFS := []][STMS := []][BEFS := []][AFTS := []],
      s.flag - {Prepared, Compiled, Loaded, Executed, Finished}, false, s.tables + [{}], s.log)
  }

  lemma ChainedContext(s: State)
    ensures Chain(s) == NextContext(s)
  {
    KeptByClearing(s.view);
  }

  /** A line that follows a load is handled in a new context, even when it is empty. */
  lemma TurnByLine(s: State, line: string, env: Env, at: nat)
    ensures var s1 := if Loaded in s.flag then NextContext(s) else s;
      Turn(s, line, env, at) == if line == "" then (s1, 0) else Command(s1, line, env, at)
  {
    hide Command, Chain, NextContext;
    ChainedContext(s);
  }

  // ---- a session, by the first characters of its lines --------------------------------------------------------

  /** A line without what is skipped at its start. */
  function Stripped(line: string): string {
    if line != "" && IsInitial(line[0]) then Stripped(line[1..]) else line
  }

  lemma {:induction false} StrippedIsTrimmed(line: string)
    ensures TrimLine(line) == Stripped(line)
  {
    if line != "" && IsInitial(line[0]) {
      StrippedIsTrimmed(line[1..]);
    }
  }

  /** The text of a line that starts with the given character. */
  function Behind(c: char, line: string): seq<string> {
    var t := Stripped(line);
    if t != "" && t[0] == c then [t[1..]] else []
  }

  /** The statement of a line: a text without prefix, or what stands behind a dot. */
  function Statement(line: string): seq<string> {
    var t := Stripped(line);
    if t == "" || t == "." || t[0] in "?!\\@^<>" then []
    else if t[0] == '.' then [t[1..]]
    else [t]
  }

  /** What some lines typed behind a prefix, in order. */
  function Typed(c: char, lines: seq<string>): seq<string> {
    if lines == [] then [] else Typed(c, lines[..|lines| - 1]) + Behind(c, lines[|lines| - 1])
  }

  function Statements(lines: seq<string>): seq<string> {
    if lines == [] then [] else Statements(lines[..|lines| - 1]) + Statement(lines[|lines| - 1])
  }

  lemma ItemByPrefix(line: string)
    ensures Item(line, TLDS) == Behind('@', line) && Item(line, TLFS) == Behind('^', line)
    ensures Item(line, BEFS) == Behind('<', line) && Item(line, AFTS) == Behind('>', line)
    ensures Item(line, STMS) == Statement(line)
  {
    hide Stripped, TrimLine;
    StrippedIsTrimmed(line);
  }

  lemma {:induction false} ItemsByPrefix(lines: seq<string>)
    ensures Items(TLDS, lines) == Typed('@', lines) && Items(TLFS, lines) == Typed('^', lines)
    ensures Items(BEFS, lines) == Typed('<', lines) && Items(AFTS, lines) == Typed('>', lines)
    ensures Items(STMS, lines) == Statements(lines)
  {
    hide Item, Behind, Statement;
    if lines != [] {
      ItemsByPrefix(lines[..|lines| - 1]);
      ItemByPrefix(lines[|lines| - 1]);
    }
  }

  /** What the command line has put on a volatile pile counts until the first load. */
  function Given(load: Option<nat>, items: seq<string>): seq<string> {
    if load == None then items else []
  }

  /** The lines that have been typed since the latest load. */
  function Recent(load: Option<nat>, lines: seq<string>): seq<string>
    requires load.Some? ==> load.value <= |lines|
  {
    if load == None then lines else lines[load.value..]
  }

  /** The text that a context prints: the includes that it was started with, all declarations, and what has
      been typed since the latest load. */
  function TextAfter(marks: bool, base: View, lines: seq<string>, load: Option<nat>): string
    requires load.Some? ==> load.value <= |lines|
  {
    var recent := Recent(load, lines);
    ProgramText(marks, base[DEFSYS], base[SYSS], base[INCS], base[TLDS] + Typed('@', lines),
      Given(load, base[TLFS]) + Typed('^', recent), Given(load, base[BEFS]) + Typed('<', recent),
      Given(load, base[STMS]) + Statements(recent), Given(load, base[AFTS]) + Typed('>', recent))
  }

  lemma WantedText(base: View, lines: seq<string>, load: Option<nat>)
    requires load.Some? ==> load.value <= |lines|
    ensures Printed(Wanted(base, lines, load)) == TextAfter(true, base, lines, load)
    ensures Bare(Plan(Wanted(base, lines, load))) == TextAfter(false, base, lines, load)
  {
    hide Items, Typed, Statements, ProgramText, Printed, Plan, Bare, PileAfter;
    PrintedText(Wanted(base, lines, load));
    ItemsByPrefix(lines);
    ItemsByPrefix(Recent(load, lines));
    VolatileAfter(base, lines, load, TLFS);
    VolatileAfter(base, lines, load, BEFS);
    VolatileAfter(base, lines, load, STMS);
    VolatileAfter(base, lines, load, AFTS);
  }

  lemma VolatileAfter(base: View, lines: seq<string>, load: Option<nat>, k: nat)
    requires (load.Some? ==> load.value <= |lines|) && k < COUNT && Volatile(k)
    ensures PileAfter(base, lines, load, k) == Given(load, base[k]) + Items(k, Recent(load, lines))
  {
    hide Items;
    assert load.Some? ==> [] + Items(k, Recent(load, lines)) == Items(k, Recent(load, lines));
  }

  /** Over every session, whatever the world answers: each generated program and each dump is, letter by
      letter, the text of the lines typed so far. */
  lemma EveryProgramText(s: State, lines: seq<string>, env: nat -> Env, j: nat)
    requires Fresh(s) && j < |Session(s, lines, env).state.log|
    ensures var log := Session(s, lines, env).state.log; var e, load := log[j], LoadTime(log[..j]);
      e.at <= |lines| && (load.Some? ==> load.value <= e.at) &&
      (e.what.DidGenerate? ==> e.what.code == TextAfter(true, s.view, lines[..e.at], load)) &&
      (e.what.DidDump? ==> e.what.text == TextAfter(false, s.view, lines[..e.at], load))
  {
    hide Session, TextAfter, Printed, Plan, Bare, Wanted, Fresh;
    EveryProgramIsTold(s, lines, env);
    var log := Session(s, lines, env).state.log;
    assert Tells(s.view, lines, log[..j], log[j]);
    WantedText(s.view, lines[..log[j].at], LoadTime(log[..j]));
  }
}
