/** Which flag of a package goes onto which pile. */
module PackageFlags {
  import opened Text
  import opened Piles
  import opened Compiler
  import opened Package
  import opened Flat
  import opened SessionForm

  /** The text of a list of flags. */
  function FlagsText(ps: seq<Piece>, tail: string): string {
    if ps == [] then tail
    else
      var f := ps[0].flag;
      ps[0].lead + ((if f.Pthread? then "-pthread" else "-" + [f.letter] + f.text) + FlagsText(ps[1..], tail))
  }

  predicate WhiteSpace(s: string) {
    forall c <- s :: c in " \t\n\U{0b}\U{0c}\r"
  }

  /** Letters and arguments as a package writes them, with white space behind every argument. */
  predicate Usual(ps: seq<Piece>) {
    forall i :: 0 <= i < |ps| ==>
      WhiteSpace(ps[i].lead) && (i > 0 && ps[i - 1].flag.Argument? ==> ps[i].lead != "") &&
      (ps[i].flag.Argument? ==>
        ps[i].flag.letter in "DILl" && ps[i].flag.text != "" && forall c <- ps[i].flag.text :: '!' <= c <= '~')
  }

  lemma UsualIsSeparated(ps: seq<Piece>, tail: string)
    requires Usual(ps) && WhiteSpace(tail)
    ensures Separated(ps) && Blank(tail)
  {
  }

  lemma {:induction false} FlagsPrinted(ps: seq<Piece>, tail: string)
    ensures FlagsText(ps, tail) == Print(ps, tail)
  {
    if ps != [] {
      FlagsPrinted(ps[1..], tail);
    }
  }

  /** The arguments of one letter, in order. */
  function Arguments(c: char, ps: seq<Piece>): seq<string> {
    if ps == [] then []
    else (if ps[0].flag.Argument? && ps[0].flag.letter == c then [ps[0].flag.text] else []) + Arguments(c, ps[1..])
  }

  function Defines(ps: seq<Piece>): seq<string> {
    if ps == [] then []
    else (if ps[0].flag.Argument? && ps[0].flag.letter == 'D' then ["-D" + ps[0].flag.text] else []) + Defines(ps[1..])
  }

  function ThreadFlags(ps: seq<Piece>): seq<Call> {
    if ps == [] then [] else (if ps[0].flag.Pthread? then [SetOptions("-pthread")] else []) + ThreadFlags(ps[1..])
  }

  /** What some flags put on a pile. */
  function Added(k: nat, ps: seq<Piece>): seq<string> {
    if k == DEFS then Defines(ps)
    else if k == INCDIRS then Arguments('I', ps)
    else if k == LIBDIRS then Arguments('L', ps)
    else if k == LIBS then Arguments('l', ps)
    else []
  }

  /** The piles behind some flags: four of them grow, the others stay. */
  function WithFlags(v: View, ps: seq<Piece>): View {
    seq(16, k requires 0 <= k < 16 => v[k] + Added(k, ps))
  }

  lemma {:induction false} FlagsAsked(v: View, ps: seq<Piece>)
    requires Usual(ps)
    ensures PushAll(v, Asked(ps).pushes) == WithFlags(v, ps) && Threads(Asked(ps).pthreads) == ThreadFlags(ps)
    decreases |ps|
  {
    hide WithFlags, PushAll, Threads;
    NothingPushed(v);
    if ps == [] {
      NoFlags(v);
    } else {
      var rest := Asked(ps[1..]);
      UsualTail(ps);
      match ps[0].flag {
        case Argument(c, t) =>
          var p := PushFor(c, t);
          var u := Pushed(v, p.pile, p.text);
          OnePush(v, p);
          PushAllAppend(v, [p], rest.pushes);
          FlagsAsked(u, ps[1..]);
          FirstFlag(v, ps);
        case Pthread =>
          FlagsAsked(v, ps[1..]);
          FirstThread(v, ps);
          ThreadsFront(rest.pthreads);
      }
    }
  }

  lemma UsualTail(ps: seq<Piece>)
    requires ps != [] && Usual(ps)
    ensures Usual(ps[1..]) && (ps[0].flag.Argument? ==> ps[0].flag.letter in "DILl" && TakesArgument(ps[0].flag.letter))
  {
  }

  lemma NoFlags(v: View)
    ensures WithFlags(v, []) == v && Threads(0) == []
  {
    assert forall k :: 0 <= k < 16 ==> v[k] + [] == v[k];
  }

  lemma OnePush(v: View, p: Push)
    requires p.pile < COUNT
    ensures PushAll(v, [p]) == Pushed(v, p.pile, p.text)
  {
    assert [p][..0] == [];
  }

  /** The four letters and their piles. */
  lemma LetterPile(c: char, text: string)
    requires c in "DILl"
    ensures TakesArgument(c)
    ensures PushFor(c, text) == if c == 'D' then Push(DEFS, "-D" + text) else if c == 'I' then Push(INCDIRS, text)
      else if c == 'L' then Push(LIBDIRS, text) else Push(LIBS, text)
  {
  }

  lemma AddedFront(k: nat, ps: seq<Piece>)
    requires ps != [] && ps[0].flag.Argument? && ps[0].flag.letter in "DILl"
    ensures var p := PushFor(ps[0].flag.letter, ps[0].flag.text);
      p.pile < COUNT && Added(k, ps) == (if k == p.pile then [p.text] else []) + Added(k, ps[1..])
  {
    hide PushFor;
    LetterPile(ps[0].flag.letter, ps[0].flag.text);
  }

  lemma FirstFlag(v: View, ps: seq<Piece>)
    requires ps != [] && ps[0].flag.Argument? && ps[0].flag.letter in "DILl"
    ensures var p := PushFor(ps[0].flag.letter, ps[0].flag.text);
      p.pile < COUNT && WithFlags(Pushed(v, p.pile, p.text), ps[1..]) == WithFlags(v, ps)
  {
    hide PushFor, Added;
    var p := PushFor(ps[0].flag.letter, ps[0].flag.text);
    AddedFront(0, ps);
    forall k: nat | k < 16 ensures Pushed(v, p.pile, p.text)[k] + Added(k, ps[1..]) == v[k] + Added(k, ps) {
      AddedFront(k, ps);
    }
  }

  lemma FirstThread(v: View, ps: seq<Piece>)
    requires ps != [] && ps[0].flag.Pthread?
    ensures WithFlags(v, ps[1..]) == WithFlags(v, ps)
  {
    forall k: nat | k < 16 ensures Added(k, ps[1..]) == Added(k, ps) {
    }
  }

  lemma ThreadsFront(n: nat)
    ensures Threads(n + 1) == [SetOptions("-pthread")] + Threads(n)
  {
  }

  /** Every usual list of flags is accepted: definitions go onto their pile with their option restored,
      include directories, library directories and libraries each onto theirs, in order; threads are asked
      for as often as they are named; and no other pile changes. */
  lemma PilesByFlag(v: View, ps: seq<Piece>, tail: string)
    requires Usual(ps) && WhiteSpace(tail)
    ensures var r := Parse(FlagsText(ps, tail));
      r.ok && PushAll(v, r.pushes) == WithFlags(v, ps) && Threads(r.pthreads) == ThreadFlags(ps)
  {
    hide Parse, Print, FlagsText, WithFlags, PushAll, Threads, ThreadFlags, Usual, WhiteSpace, Asked;
    UsualIsSeparated(ps, tail);
    FlagsPrinted(ps, tail);
    ParsePrinted(ps, tail);
    FlagsAsked(v, ps);
  }

  // ---- a list of packages -------------------------------------------------------------------------------------------

  /** A text without NUL is kept whole, and any other up to its first. */
  lemma {:induction false} KeptToNul(s: string, t: string)
    requires '\0' !in s
    ensures CPrefix(s) == s && CPrefix(s + "\0" + t) == s
  {
    if s == "" {
      assert "" + "\0" + t == "\0" + t;
    } else {
      assert s[0] in s && (s + "\0" + t)[1..] == s[1..] + "\0" + t;
      KeptToNul(s[1..], t);
      assert [s[0]] + s[1..] == s;
    }
  }

  lemma {:induction false} NoNul(ps: seq<Piece>, tail: string)
    requires Usual(ps) && WhiteSpace(tail)
    ensures '\0' !in FlagsText(ps, tail)
  {
    hide Usual;
    if ps == [] {
      assert forall c <- tail :: c in " \t\n\U{0b}\U{0c}\r";
    } else {
      UsualTail(ps);
      FirstNoNul(ps);
      NoNul(ps[1..], tail);
    }
  }

  lemma FirstNoNul(ps: seq<Piece>)
    requires ps != [] && Usual(ps)
    ensures '\0' !in ps[0].lead && (ps[0].flag.Argument? ==> ps[0].flag.letter != '\0' && '\0' !in ps[0].flag.text)
  {
    assert WhiteSpace(ps[0].lead);
    assert forall c <- ps[0].lead :: c in " \t\n\U{0b}\U{0c}\r";
  }

  /** A package, as it answers. */
  datatype Answer = Answer(flags: seq<Piece>, tail: string)

  /** What some packages put on a pile. */
  function AddedBy(k: nat, answers: seq<Answer>): seq<string> {
    if answers == [] then [] else Added(k, answers[0].flags) + AddedBy(k, answers[1..])
  }

  /** What the compiler is told of some packages. */
  function ToldOf(answers: seq<Answer>): seq<Call> {
    if answers == [] then []
    else
      var a := answers[0];
      [SetOptions(FlagsText(a.flags, a.tail))] + ThreadFlags(a.flags) + ToldOf(answers[1..])
  }

  ghost predicate Answers(names: seq<string>, answers: seq<Answer>, env: Env) {
    |names| == |answers| && forall i :: 0 <= i < |names| ==>
      Usual(answers[i].flags) && WhiteSpace(answers[i].tail) &&
      env.package(names[i]) == Some(FlagsText(answers[i].flags, answers[i].tail))
  }

  /** Packages that answer with usual flags are all taken: their flags end up on the four piles, in order, and
      the compiler is told each answer whole. */
  lemma {:induction false} PackagesByFlag(v: View, names: seq<string>, answers: seq<Answer>, env: Env)
    requires Answers(names, answers, env)
    ensures var p := Packages(v, names, env);
      p.ok && p.calls == ToldOf(answers) && forall k :: 0 <= k < COUNT ==> p.view[k] == v[k] + AddedBy(k, answers)
    decreases names
  {
    hide Parse, PushAll, Threads, ThreadFlags, FlagsText, Usual, WhiteSpace, Added;
    if names == [] {
      assert forall k :: 0 <= k < COUNT ==> v[k] + [] == v[k];
    } else {
      var a, text := answers[0], FlagsText(answers[0].flags, answers[0].tail);
      NoNul(a.flags, a.tail);
      KeptToNul(text, "");
      PilesByFlag(v, a.flags, a.tail);
      var u := WithFlags(v, a.flags);
      assert forall i :: 0 <= i < |names[1..]| ==> names[1..][i] == names[i + 1] && answers[1..][i] == answers[i + 1];
      PackagesByFlag(u, names[1..], answers[1..], env);
      assert forall k :: 0 <= k < COUNT ==>
        v[k] + Added(k, a.flags) + AddedBy(k, answers[1..]) == v[k] + (Added(k, a.flags) + AddedBy(k, answers[1..]));
    }
  }
}
