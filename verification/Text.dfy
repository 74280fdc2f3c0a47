/** Text as the generator prints it: physical lines, decimal numbers and a few sequence helpers. */
module Text {

  datatype Option<+T> = None | Some(value: T) {
    function GetOr(default: T): T {
      if Some? then value else default
    }
  }

  /** The text ends with a complete physical line (or holds no line at all). */
  predicate Terminated(t: string) {
    t == "" || t[|t| - 1] == '\n'
  }

  predicate OneLine(l: string) {
    '\n' !in l
  }

  /** The physical lines of a text, without their newline characters. */
  function Lines(t: string): (ls: seq<string>)
    ensures ls == [] <==> t == ""
  {
    if t == "" then []
    else if t[0] == '\n' then [""] + Lines(t[1..])
    else
      var rest := Lines(t[1..]);
      if rest == [] then [[t[0]]] else [[t[0]] + rest[0]] + rest[1..]
  }

  function Unlines(ls: seq<string>): string {
    if ls == [] then "" else ls[0] + "\n" + Unlines(ls[1..])
  }

  /** Lines with one more character in front of them. */
  function Front(c: char, ls: seq<string>): seq<string> {
    if c == '\n' then [""] + ls
    else if ls == [] then [[c]]
    else [[c] + ls[0]] + ls[1..]
  }

  lemma LinesFront(t: string)
    requires t != ""
    ensures Lines(t) == Front(t[0], Lines(t[1..]))
  {
  }

  lemma FrontAppend(c: char, ls: seq<string>, more: seq<string>)
    requires c == '\n' || ls != []
    ensures Front(c, ls + more) == Front(c, ls) + more
  {
    if c != '\n' {
      assert (ls + more)[1..] == ls[1..] + more;
    }
  }

  lemma {:induction false} LinesAppend(a: string, b: string)
    requires Terminated(a)
    ensures Lines(a + b) == Lines(a) + Lines(b)
  {
    hide Lines, Front;
    if a == "" {
      assert a + b == b && [] + Lines(b) == Lines(b);
    } else {
      assert (a + b)[1..] == a[1..] + b;
      LinesAppend(a[1..], b);
      LinesFront(a);
      LinesFront(a + b);
      FrontAppend(a[0], Lines(a[1..]), Lines(b));
    }
  }

  lemma {:induction false} UnlinesLines(t: string)
    requires Terminated(t)
    ensures Unlines(Lines(t)) == t
  {
    if t != "" {
      UnlinesLines(t[1..]);
    }
  }

  lemma {:induction false} LinesAreLines(t: string)
    ensures forall l <- Lines(t) :: OneLine(l)
  {
    if t != "" {
      var rest := Lines(t[1..]);
      LinesAreLines(t[1..]);
      assert t[0] != '\n' && rest != [] ==> rest[0] in rest;
      assert forall l <- rest[if rest == [] then 0 else 1..] :: l in rest;
    }
  }

  /** A single line followed by its newline. */
  lemma {:induction false} LinesOfLine(l: string)
    requires OneLine(l)
    ensures Lines(l + "\n") == [l]
  {
    if l == "" {
      assert Lines("\n") == [""] + Lines("\n"[1..]);
    } else {
      assert (l + "\n")[1..] == l[1..] + "\n";
      LinesOfLine(l[1..]);
      assert l[0] in l;
      assert [l[0]] + l[1..] == l;
    }
  }

  lemma LineTerminated(l: string)
    ensures Terminated(l + "\n")
  {
  }

  lemma LinesOfTwo(a: string, b: string)
    requires OneLine(a) && OneLine(b)
    ensures Lines(a + "\n" + b + "\n") == [a, b]
  {
    hide Lines, OneLine;
    LinesOfLine(a);
    LinesOfLine(b);
    assert a + "\n" + b + "\n" == (a + "\n") + (b + "\n");
    LinesAppend(a + "\n", b + "\n");
    assert [a] + [b] == [a, b];
  }

  lemma {:induction false} LinesUnlines(ls: seq<string>)
    requires forall l <- ls :: OneLine(l)
    ensures Terminated(Unlines(ls))
    ensures Lines(Unlines(ls)) == ls
  {
    if ls != [] {
      LinesUnlines(ls[1..]);
      LinesOfLine(ls[0]);
      LinesAppend(ls[0] + "\n", Unlines(ls[1..]));
    }
  }

  /** The last line of a text whose last visible character is `c`. */
  lemma {:induction false} LastLineEndsWith(t: string, c: char)
    requires |t| >= 2 && t[|t| - 2..] == [c, '\n'] && c != '\n'
    ensures var ls := Lines(t); ls != [] && ls[|ls| - 1] != "" && ls[|ls| - 1][|ls[|ls| - 1]| - 1] == c
  {
    if |t| == 2 {
      assert t == [c] + "\n";
      LinesOfLine([c]);
    } else {
      assert t[1..][|t[1..]| - 2..] == t[|t| - 2..];
      LastLineEndsWith(t[1..], c);
      LastLineKept(t);
    }
  }

  /** A character in front does not change how the last line ends. */
  lemma LastLineKept(t: string)
    requires t != "" && Lines(t[1..]) != [] && Lines(t[1..])[|Lines(t[1..])| - 1] != ""
    ensures var ls, tail := Lines(t), Lines(t[1..]);
      ls != [] && ls[|ls| - 1] != "" &&
      ls[|ls| - 1][|ls[|ls| - 1]| - 1] == tail[|tail| - 1][|tail[|tail| - 1]| - 1]
  {
    hide Lines;
    LinesStep(t);
  }

  lemma LinesStep(t: string)
    requires t != "" && Lines(t[1..]) != []
    ensures var tail := Lines(t[1..]);
      Lines(t) == if t[0] == '\n' then [""] + tail else [[t[0]] + tail[0]] + tail[1..]
  {
  }

  // ---- decimal numbers --------------------------------------------------------------------

  predicate IsDigit(c: char) {
    '0' <= c <= '9'
  }

  function Digit(n: nat): (c: char)
    requires n < 10
    ensures IsDigit(c) && DigitValue(c) == n
  {
    '0' + n as char
  }

  /** The decimal form that `%d` prints. */
  function Dec(n: nat): (s: string)
    ensures s != "" && forall c <- s :: IsDigit(c)
  {
    if n < 10 then [Digit(n)] else Dec(n / 10) + [Digit(n % 10)]
  }

  function DigitValue(c: char): (n: nat)
    requires IsDigit(c)
    ensures n < 10 && c == '0' + n as char
  {
    c as int - '0' as int
  }

  function Value(s: string): nat
    requires forall c <- s :: IsDigit(c)
  {
    if s == "" then 0
    else
      assert s[|s| - 1] in s;
      10 * Value(s[..|s| - 1]) + DigitValue(s[|s| - 1])
  }

  lemma {:induction false} ValueOfDec(n: nat)
    ensures Value(Dec(n)) == n
  {
    if n >= 10 {
      ValueOfDec(n / 10);
      assert Dec(n)[..|Dec(n)| - 1] == Dec(n / 10);
    } else {
      assert Dec(n)[..0] == "";
    }
  }

  // ---- sequences --------------------------------------------------------------------------

  function Reverse<T>(s: seq<T>): (r: seq<T>)
    ensures |r| == |s| && forall k :: 0 <= k < |s| ==> r[k] == s[|s| - 1 - k]
  {
    seq(|s|, k requires 0 <= k < |s| => s[|s| - 1 - k])
  }

  function Flatten(parts: seq<string>): string {
    if parts == [] then "" else parts[0] + Flatten(parts[1..])
  }

  /** Equal-length heads of equal concatenations are equal. */
  lemma SplitEqual<T>(a: seq<T>, b: seq<T>, c: seq<T>, d: seq<T>)
    requires |a| == |c|
    ensures a + b == c + d <==> a == c && b == d
  {
    if a + b == c + d {
      assert a == (a + b)[..|a|] && c == (c + d)[..|c|];
      assert b == (a + b)[|a|..] && d == (c + d)[|c|..];
    }
  }
}
