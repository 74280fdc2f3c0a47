/** A whole session without contexts: one table of texts, the phase flags, and a log of what happened.
    What the chained contexts of `cplr_interact` do is proved against these functions. */
module Flat {
  import opened Text
  import opened Piles
  import opened Package
  import opened Compiler
  import opened Tokeniser
  import opened Emitter
  import opened Program
  import opened Generate

  datatype Flag = NoRun | Interactive | Fork | Generated | Prepared | Compiled | Loaded | Executed | Finished

  /** The flags that `cplr_chain` clears; GENERATED is not among them. */
  const PHASES: set<Flag> := {Prepared, Compiled, Loaded, Executed, Finished}

  /** What the world answers during one run: package queries, compiler calls, compilation, execution. */
  datatype Env = Env(
    package: string -> Option<string>, accepts: (seq<Call>, Call) -> bool,
    compiles: bool, defines: set<string>, writes: bool, result: int)

  datatype What =
    | DidPrepare(calls: seq<Call>, ok: bool)
    | DidGenerate(code: string)
    | DidDump(text: string)
    | DidCompile
    | DidLoad
    | DidExecute

  /** What happened while the `at`-th line was handled, in the context of index `ctx`. */
  datatype Event = Event(at: nat, ctx: nat, what: What)

  datatype Condition = State(view: View, flag: set<Flag>, out: bool, tables: seq<set<string>>, log: seq<Event>) {
    /** The index of the current context. */
    function Index(): nat
      requires tables != []
    {
      |tables| - 1
    }

    function Logged(at: nat, what: What): Condition
      requires tables != []
    {
      this.(log := log + [Event(at, Index(), what)])
    }
  }

  /** There is always a current context. */
  type State = s: Condition | s.tables != [] witness State(NOTHING, {}, false, [{}], [])

  // ---- preparation ------------------------------------------------------------------------------------

  /** What `strdup` keeps of a buffer. */
  function CPrefix(s: string): (r: string)
    ensures CText(r)
  {
    if s == "" || s[0] == '\0' then "" else [s[0]] + CPrefix(s[1..])
  }

  datatype Prep = Prep(view: View, calls: seq<Call>, ok: bool)

  /** The package loop: each output is given to the compiler whole and then parsed onto the piles. */
  function Packages(v: View, names: seq<string>, env: Env): Prep
    decreases names
  {
    if names == [] then Prep(v, [], true)
    else match env.package(names[0])
      case None => Prep(v, [], false)
      case Some(s) =>
        var p := Parse(CPrefix(s));
        var here := Prep(PushAll(v, p.pushes), [SetOptions(CPrefix(s))] + Threads(p.pthreads), p.ok);
        if !p.ok then here
        else
          var rest := Packages(here.view, names[1..], env);
          Prep(rest.view, here.calls + rest.calls, rest.ok)
  }

  /** Calls whose refusal ends the preparation. What the compiler makes of a call may depend on the calls
      before it. */
  function Offer(before: seq<Call>, calls: seq<Call>, env: Env): (r: (seq<Call>, bool))
    ensures r.0 <= calls && (r.1 ==> r.0 == calls)
    decreases calls
  {
    if calls == [] then ([], true)
    else if !env.accepts(before, calls[0]) then (calls[..1], false)
    else
      var r := Offer(before + [calls[0]], calls[1..], env);
      ([calls[0]] + r.0, r.1)
  }

  function Calls(f: string -> Call, texts: seq<string>): seq<Call> {
    seq(|texts|, i requires 0 <= i < |texts| => f(texts[i]))
  }

  function Options(v: View): seq<Call> {
    Calls(s => SetOptions(s), v[DEFDEF]) + Calls(s => SetOptions(s), v[DEFS])
  }

  function Paths(v: View): seq<Call> {
    Calls(s => AddSysInclude(s), v[SYSDIRS]) + (Calls(s => AddInclude(s), v[INCDIRS]) + [AddInclude(".")]) +
    (Calls(s => AddLibraryPath(s), v[LIBDIRS]) + [AddLibraryPath(".")]) +
    Calls(s => AddLibrary(s), v[LIBS]) + Calls(s => AddFile(s), v[SRCS])
  }

  /** `cplr_tcc_prepare` */
  function Prepare(v: View, out: bool, env: Env): Prep {
    if !env.accepts([], SetOutput(!out)) then Prep(v, [SetOutput(!out)], false)
    else
      var p := Packages(v, v[PKGS], env);
      var calls := [SetOutput(!out), SetOptions("-Wall")] + p.calls;
      if !p.ok then Prep(p.view, calls, false)
      else
        var o := Offer(calls + Options(p.view), Paths(p.view), env);
        Prep(p.view, calls + Options(p.view) + o.0, o.1)
  }

  // ---- one run -------------------------------------------------------------------------------------------

  /** The names that `cplr_tcc_redefsym_cb` carries over. */
  predicate Passes(name: string) {
    !("_" <= name) && name != "main" && name != "exit" && name != "atexit" && name != "on_exit" &&
    !("tcc_" <= name) && !(|name| >= 4 && name[|name| - 4..] == "@plt")
  }

  function Carried(names: set<string>): set<string> {
    set n <- names | Passes(n)
  }

  /** `cplr_execute` */
  function Execute(s: State, env: Env, at: nat): (State, int)
  {
    if NoRun in s.flag then (s, 0)
    else
      var s1 := s.(flag := s.flag + {Executed}).Logged(at, DidExecute);
      (if Fork in s.flag then s1 else s1.(flag := s1.flag + {Finished}), env.result)
  }

  /** `cplr_tcc_compile` */
  function Compile(s: State, env: Env, at: nat): (State, int)
  {
    var i := s.Index();
    var own := s.tables[i] + env.defines;
    if !env.compiles then (s.(tables := s.tables[i := own]), 1)
    else
      var names := own + if i > 0 then Carried(s.tables[i - 1]) else {};
      var s1 := s.(tables := s.tables[i := names], flag := s.flag + {Compiled}).Logged(at, DidCompile);
      if !s.out then (s1.(flag := s1.flag + {Loaded}).Logged(at, DidLoad), 0)
      else (s1, if env.writes then 0 else 1)
  }

  /** `cplr_run` behind the preparation. */
  function Build(s: State, env: Env, at: nat): (State, int)
  {
    if Compiled in s.flag then Execute(s, env, at)
    else
      var s1 := s.(flag := s.flag + {Generated}).Logged(at, DidGenerate(Printed(PilesOf(s.view))));
      var (s2, bad) := Compile(s1, env, at);
      if bad != 0 then (s2, 1) else Execute(s2, env, at)
  }

  /** `cplr_run`: PREPARED is set even when the preparation fails. */
  function Run(s: State, env: Env, at: nat): (State, int)
  {
    if Prepared in s.flag then Build(s, env, at)
    else
      var p := Prepare(s.view, s.out, env);
      var s1 := s.(view := p.view, flag := s.flag + {Prepared}).Logged(at, DidPrepare(p.calls, p.ok));
      if p.ok then Build(s1, env, at) else (s1, 1)
  }

  // ---- one line --------------------------------------------------------------------------------------------

  /** `cplr_chain` */
  function Chain(s: State): State {
    State(Kept(s.view), s.flag - PHASES, false, s.tables + [{}], s.log)
  }

  /** `isspace(c) || iscntrl(c)` */
  predicate Skipped(c: char) {
    c <= ' ' || c == '\U{7f}'
  }

  function TrimLine(line: string): string {
    if line != "" && Skipped(line[0]) then TrimLine(line[1..]) else line
  }

  datatype Input = Nothing | Inner(rest: string) | Add(pile: nat, text: string) | AddAndRun(text: string) | JustRun

  /** The prefix of a trimmed line decides. */
  function Classify(line: string): (i: Input)
    ensures i.Add? ==> i.pile < COUNT
  {
    if line == "" || line[0] == '?' || line[0] == '!' then Nothing
    else if line[0] == '\\' then Inner(line[1..])
    else if line[0] == '@' then Add(TLDS, line[1..])
    else if line[0] == '^' then Add(TLFS, line[1..])
    else if line[0] == '<' then Add(BEFS, line[1..])
    else if line[0] == '>' then Add(AFTS, line[1..])
    else if line[0] == '.' then (if line[1..] != "" then Add(STMS, line[1..]) else JustRun)
    else AddAndRun(line)
  }

  const KNOWN: set<string> := {"l", "y", "d", "o", "s", "?", "q"}

  /** `cplr_command_internal`: only a dump and the command to quit matter to the session. */
  function Internally(s: State, rest: string, at: nat): (State, int)
  {
    var f := Fields(rest);
    if f == [] || f[0] !in KNOWN then (s, if Interactive in s.flag then 0 else 1)
    else if f[0] == "d" then
      (s.(flag := s.flag + {Generated}).Logged(at, DidDump(Bare(Plan(PilesOf(s.view))))), 0)
    else (s, if f[0] == "q" then 1 else 0)
  }

  /** `cplr_command` */
  function Command(s: State, line: string, env: Env, at: nat): (State, int)
  {
    match Classify(TrimLine(line))
    case Nothing => (s, 0)
    case Inner(rest) => Internally(s, rest, at)
    case Add(k, t) => (s.(view := Pushed(s.view, k, t)), 0)
    case AddAndRun(t) => (Run(s.(view := Pushed(s.view, STMS, t)), env, at).0, 0)
    case JustRun => (Run(s, env, at).0, 0)
  }

  /** One turn of the loop of `cplr_interact`. */
  function Turn(s: State, line: string, env: Env, at: nat): (State, int)
  {
    var s1 := if Loaded in s.flag then Chain(s) else s;
    if line == "" then (s1, 0) else Command(s1, line, env, at)
  }

  // ---- a whole session ---------------------------------------------------------------------------------------

  datatype Progress = Progress(state: State, ret: int)

  /** The loop over the lines read so far: it ends with the first reply that is not zero. Line number i
      is handled at time i + 1; time 0 belongs to the run of the command line. */
  function Interact(s: State, lines: seq<string>, env: nat -> Env): Progress
  {
    if lines == [] then Progress(s, 0)
    else
      var n := |lines|;
      var p := Interact(s, lines[..n - 1], env);
      if p.ret != 0 then p
      else
        var (sNow, ret) := Turn(p.state, lines[n - 1], env(n), n);
        Progress(sNow, ret)
  }

  /** The context that option parsing leaves behind: no phase has been entered, and an output file
      comes with NORUN. */
  predicate Fresh(s: State) {
    s.flag !! PHASES && (s.out ==> NoRun in s.flag) && s.tables == [{}] && s.log == []
  }

  /** `cplr_empty` */
  predicate Empty(v: View) {
    v[SRCS] == [] && v[TLFS] == [] && v[STMS] == [] && v[BEFS] == [] && v[AFTS] == []
  }

  /** `main`: what the command line piled up is run first. */
  function Begin(s: State, env: nat -> Env): Progress
  {
    if Empty(s.view) then Progress(s, 0)
    else
      var (sNow, ret) := Run(s, env(0), 0);
      Progress(sNow, ret)
  }

  /** `main` behind the options: a command line that fails, or that asks for no dialogue, is all. */
  function Session(s: State, lines: seq<string>, env: nat -> Env): Progress
  {
    var b := Begin(s, env);
    if b.ret != 0 || Interactive !in s.flag then b else Interact(b.state, lines, env)
  }

  /** How many copies of a line the tokeniser loses. */
  function Leak(line: string): nat {
    match Classify(TrimLine(line))
    case Inner(rest) => LostByBoth(rest)
    case _ => 0
  }

  /** The same over the lines that the loop handles. */
  function Leaked(s: State, lines: seq<string>, env: nat -> Env): nat
  {
    if lines == [] then 0
    else
      var n := |lines| - 1;
      Leaked(s, lines[..n], env) + if Interact(s, lines[..n], env).ret != 0 then 0 else Leak(lines[n])
  }

  function SessionLeak(s: State, lines: seq<string>, env: nat -> Env): nat
  {
    var b := Begin(s, env);
    if b.ret != 0 || Interactive !in s.flag then 0 else Leaked(b.state, lines, env)
  }

  /** What `main` returns: 1 when there was nothing to do at all, and the loop takes one off its last reply. */
  function ExitCode(s: State, lines: seq<string>, env: nat -> Env): int
  {
    var b := Begin(s, env);
    if b.ret != 0 then b.ret
    else if Interactive in s.flag then
      var r := Interact(b.state, lines, env).ret;
      if r >= 1 then r - 1 else r
    else if Empty(s.view) then 1 else 0
  }
}
