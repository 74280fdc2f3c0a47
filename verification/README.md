# Verification model of cplr

cplr piles up fragments of C in linked lists, prints them as one C program with `#line` markers,
compiles that program in memory and runs it, and starts a fresh chained context for the next
interactive line. This project models everything around the compiler and proves what the piler
promises. The compiler, the package tool and the operating system answer through a parameter
(`Flat.Env`), and every theorem holds for all their answers.

## Layout

| file | what it models |
|---|---|
| Text.dfy | physical lines, decimal numbers, sequence helpers |
| LineControl.dfy | how a compiler attributes lines: line splicing, comment removal and line control, sections 5.1.1.2 and 6.10.4 of ISO/IEC 9899:2011 |
| Emitter.dfy | `cplr_emit`: which markers are left out, and why that loses nothing |
| Reading.dfy | exactly when what the emitter prints is read as it was meant |
| Program.dfy | the calls one generation makes and the program they print |
| Positions.dfy | exactly when a whole program is read as it was meant, all lines being kept |
| Conditionals.dfy | the same with conditional inclusion, section 6.10.1 of ISO/IEC 9899:2011, for any values of the conditions |
| Listing.dfy | the printed program and the dump letter by letter, and the order of the pieces |
| Decode.dfy | a decoder of printed programs: the round trip |
| Dumps.dfy | the dump stream against the code stream |
| Lists.dfy | owning doubly linked lists on the heap, values with ownership bits, the allocator ledger |
| Piles.dfy | the sixteen lists of a context, each accounting for its own allocations |
| Package.dfy | the pkg-config flag parser: the character machine, its grammar, and a printer |
| PackageFlags.dfy | which flag of a package goes onto which pile |
| Stream.dfy | the stream callbacks and the loop that passes a dump on |
| Tokeniser.dfy | the two passes over a command line |
| Generate.dfy | the generation state of a context and its loops |
| Compiler.dfy | the compiler as a log of calls and a table of names |
| Preparing.dfy | the order in which the piles reach the compiler |
| Flat.dfy | a session without contexts: the specification of everything below |
| Handover.dfy | what a preparation tells the compiler, in which order, and how far a failing one gets |
| Names.dfy | the names that are not carried from one context to the next |
| Symbols.dfy | where the names that a context knows come from |
| FlatLaws.dfy | phases in order and once, how far a run gets, symbols stay visible, for every session |
| Histories.dfy | the order of phases in every context, and programs behind a refused preparation |
| SessionForm.dfy | every generated program in terms of the typed lines alone |
| Prefixes.dfy | what a line does by its first character, and every program as the text of the typed lines |
| Outcomes.dfy | how a run, a dialogue and the whole program end |
| Meanings.dfy | where the lines of every program of a session are placed, and what can be read back from it |
| StablePiles.dfy | what packages add to the stable piles over a session |
| Contexts.dfy | a context on the heap: clone, chain, free, prepare, compile, execute, run |
| Commands.dfy | what a typed line does |
| Interactor.dfy | the chain of contexts, the loop, the teardown and `main` |

## How the parts meet

The heap is proved against the flat form: `Interactor.WholeProgram` runs the chain of cloned contexts
and ends with the history and exit code of `Flat.Session`, while every record, compiler, node and
owned string is back with the allocator. `SessionForm.EveryProgramIsTold` turns that history into a
closed form over the typed lines. What a generated text means is a matter of `Positions`, `Conditionals`
and `Decode`: when its lines are placed where they belong, and when the piles can be read back from it.
`Meanings.EveryProgramMeans` joins the two: it says this of every program that a session generates.

The functions of the flat form are themselves held to laws that spell out what a user sees and do not
mention them: `Prefixes.EveryProgramText` gives each program letter by letter from the first characters of
the typed lines, `Handover` gives the calls that the compiler gets pile by pile, `PackageFlags` the pile of
each flag, `Symbols` the origin of every name, and `Outcomes` the replies and the exit code.

Ownership is kept in a `Ledger`: an allocation enters `live`, and `Release` demands that what is given
back is live, so nothing can be given back twice. Each operation states which part of `live` it
changes and leaves everything else in place.

## What the proofs brought to light

- An argument that white space separates from its option letter (`-I dir`) is not taken, although the
  code sets out to skip the white space: the skipping loop starts at the letter and never moves
  (source/cplr_package.c:103). `Package.ArgumentTaken` says exactly when an argument is taken, and what
  happens otherwise: the option takes an empty argument and the word behind it is parsed by itself, so
  the package fails, unless the word looks like an option and is accepted as one.
- A line that holds a token leaks both of its copies in the tokeniser, because the cursor variable is
  NULL when it is released (source/cplr_command.c:79-90). `Tokeniser.CommandName` states the number, and
  `Interactor.WholeProgram` what that adds up to over a session.
- An item that brings a line directive of its own makes two different configurations print the same
  program (`Decode.SmuggledMarker`); without such items printing is injective, and the round trip holds
  if and only if there are none (`Decode.RoundTrip`).
- An item that leaves a comment open swallows the marker of the next item of its section, which is then
  read in the wrong place (`Positions.OpenItemMisplaces`). As the last of its section it does no harm,
  because the banner behind it closes the comment (`Positions.OpenLastItem`).
  `Positions.PositionsFaithful` is the exact condition for whole programs, for a reader without
  conditional inclusion.
- An item that leaves an `#if` open can make the compiler skip the markers behind it, although the program
  is faithful for a reader that keeps every line (`Conditionals.OpenGroupMisplaces`); no banner repairs
  that. `Conditionals.AlwaysFaithfulExactly` says when a program that is faithful otherwise stays so
  whatever its conditions are, and `Meanings.TameSession` gives a rule for what may be typed.
- A preparation that fails still sets PREPARED, so a later line compiles with whatever the compiler was
  told before the failure. `Histories.RefusedPreparation` says exactly when that happens, and
  `Histories.RefusedThenLoaded` shows two lines with which it does.
- A program that is asked to do nothing at all exits with 1 (`Flat.ExitCode`).

## Model

| member | source | states |
|---|---|---|
| `LineControl.ReadMarker` | source/cplr_generate.c:49-50 | a marker line is a directive that moves the reader to its file and line and is not itself a program line, for every number and every plain file name |
| `LineControl.OpenCommentHidesMarker` | source/cplr_generate.c:49-58 | directly behind text that leaves a comment open a marker is read as text and counting goes on in the old file |
| `LineControl.BannerReads` | source/cplr_generate.c:81-83 | a banner closes an open comment, and completes a line directive exactly when the text in front of the comment is one |
| `Emitter.SuppressionLossless` | source/cplr_generate.c:37-47 | for every sequence of readable calls and every remembered state, reading the stream without the suppressed markers gives the intended positions if and only if every suppressed marker would have named the line reached anyway |
| `Emitter.MarkerWhenNeeded` | source/cplr_generate.c:37-47 | behind a fragment of one line: between internal lines a marker is left out exactly when it would name the position that counting has reached anyway, between items exactly when the file stays the same, and never when the kind changes or no file is remembered |
| `Reading.ReadExact` | source/cplr_generate.c:30-79 | for every sequence of calls whose texts end in a line that ends neither in a quote nor in a backslash, and in which a marker behind a fragment names another file than the open one, the stream is read as intended if and only if the suppressed markers would have named the line reached anyway, no line directive is complete within a call, and no comment is open where a marker stands |
| `Reading.NeverCatchesUp` | source/cplr_generate.c:49-64 | a reader that has lost a line to a directive never gives the intended reading again, whatever follows |
| `Emitter.EraseCode` | source/cplr_generate.c:55-65 | striking all line directives out of the code stream leaves the unmarked stream if and only if no text brings a directive of its own; the line counts agree under the same condition |
| `Emitter.DumpIsShorterByMarkers` | source/cplr_generate.c:55-65 | the two streams differ in length by the inserted markers exactly |
| `Program.FileNameInjective` | source/cplr_generate.c:112-118 | two items of one section never share a pseudo-file |
| `Program.StemOfFileName` | source/cplr_generate.c:112-118 | the section name can be read back from a pseudo-file name |
| `Program.SectionAlternates` | source/cplr_generate.c:97-122 | in a section every item gets a marker, whatever was printed before under other names |
| `Program.PairAligned` | source/cplr_generate.c:184-187 | leaving out the marker of the second of two adjacent internal lines is lossless, wherever the first one starts |
| `Program.PlanPrints` | source/cplr_generate.c:153-205 | whatever an earlier generation left in the emitter, the calls of a generation print the program with one marker per item and internal piece, and the markers left out are not missed; so generation is repeatable and depends on the piles only |
| `Listing.PrintedText` | source/cplr_generate.c:153-205 | the program and the dump of any piles, letter by letter: titles, markers, literal section names, prefixes and endings, in the order of the source, declarations twice, what is to be done afterwards in reverse |
| `Listing.PiecesByName` | source/cplr_generate.c:97-122 | the pieces under each literal section name are exactly the items of its pile, each at line 1 of a file of its own numbered from 0, or down to 1 in reverse, with literal prefix and ending |
| `Listing.InternalPieces` | source/cplr_generate.c:185-202 | the internal pieces are the two lines that open `main`, at 186, and the two that close it, at 201 |
| `Listing.PiecesInOrder` | source/cplr_generate.c:158-202 | no piece stands in front of one that belongs before it, in the order defsysinclude, sysinclude, include, declarations, definition, toplevel, opening, before, statements, after, closing; and there are no other pieces |
| `Positions.PositionsFaithful` | source/cplr_generate.c:153-205 | for all piles, the reading of the program without conditional inclusion is the intended attribution of every physical line if and only if no item completes a line directive and no item but the last of its section leaves a comment open |
| `Positions.EveryLinePlaced` | source/cplr_generate.c:97-122 | then, for a reader without conditional inclusion, the k-th physical line of every printed fragment is read at line k of its own pseudo-file, internal lines at their own numbers |
| `Positions.OpenItemMisplaces` | source/cplr_generate.c:180-183 | a definition that opens a comment and does not close it, with any others behind it, makes the reading differ |
| `Positions.OpenLastItem` | source/cplr_generate.c:180-185 | in the place of the last definition of a legible program the same definition leaves every line where it belongs if and only if no line directive stands in front of its comment |
| `Conditionals.SameReading` | source/cplr_generate.c:49-58 | for any lines and any values of the conditions, conditional inclusion makes no difference to the reading if and only if no line directive stands in a skipped group |
| `Conditionals.KeptFaithful` | source/cplr_generate.c:153-205 | with conditional inclusion, a legible program is read as it was meant if and only if every fragment begins in a kept group; and where no directive is skipped, a program is read so if and only if it is legible |
| `Conditionals.AlwaysFaithfulExactly` | source/cplr_generate.c:153-205 | a legible program is read as it was meant for all values of its conditions if and only if no fragment begins in an open group |
| `Conditionals.TameIsAlwaysFaithful` | source/cplr_generate.c:97-122 | items that bring no line directive and close their comments and their groups are read as meant for all values of the conditions |
| `Conditionals.OpenGroupMisplaces` | source/cplr_generate.c:180-183 | a legible program whose first definition opens a group and does not close it, with others behind it, is misread for some values of the conditions |
| `Decode.SegmentsOfProgram` | source/cplr_generate.c:153-205 | cutting a program at its markers gives back its pieces in order |
| `Decode.RoundTrip` | source/cplr_generate.c:153-205 | the decoder recovers all piles from the program if and only if no item brings a line directive |
| `Decode.RecoveredIsDirectiveFree` | source/cplr_generate.c:97-122 | whatever text is decoded, the piles that come out are free of line directives |
| `Decode.PrintingIsInjective` | source/cplr_generate.c:153-205 | two different configurations of such items never print the same program |
| `Decode.SmuggledMarker` | source/cplr_generate.c:192-195 | with a line directive inside an item, two different statement piles do print the same program |
| `Dumps.DumpErasesMarkers` | source/cplr_generate.c:55-65 | the program without its line directives is the level-1 dump if and only if no item brings one |
| `Dumps.DumpLength` | source/cplr_generate.c:55-65 | the program is longer than the level-1 dump by its markers, from any emitter state |
| `Lists.OwnedBitKeepsType` | source/cext_value.c:38-40 | setting the ownership bit keeps the string type and the pointer flag |
| `Lists.CloneValue` | source/cext_value.c:36-46 | a cloned string, owned or static, is an owned fresh copy of equal text |
| `Lists.Node.ClearValue` | source/cext_value.c:25-32 | an owned string is released, a static one is not, and the value is zeroed |
| `Lists.List.Append` | source/cext_list.c:74-89 | links, owner, first, last and count stay consistent; contents and owned cells grow by the node |
| `Lists.List.AppendStrOwned` | source/cext_list.c:99-103 | the list takes the string over and allocates one node |
| `Lists.List.AppendStrStatic` | source/cext_list.c:106-110 | the list shows the string without owning it |
| `Lists.List.Clone` | source/cext_list.c:42-71 | equal contents in nodes and strings that are all fresh; the original is not touched |
| `Lists.List.Clear` | source/cext_list.c:25-39 | the list is empty and exactly its own nodes and owned strings are released |
| `Lists.List.Listing` | include/cext/list.h:85-89 | the forward walk visits the contents in order, the backward walk in exact reverse |
| `Piles.UnionUpdate` | source/cplr_state.c:43-58 | replacing the allocations of one pile replaces exactly its share of the whole |
| `Piles.PileSet.PushOwned` | source/cext_list.c:99-103 | one pile grows by the text, the other fifteen and everything outside stay as they are |
| `Piles.PileSet.PushStatic` | source/cext_list.c:106-110 | the same for a borrowed text, which is not accounted |
| `Piles.PileSet.ClearPile` | source/cext_list.c:25-39 | one pile is emptied and only its cells go back |
| `Piles.PileSet.ClearVolatile` | source/cplr_state.c:120-125 | the five volatile piles are emptied, the others kept |
| `Piles.PileSet.ClearAll` | source/cplr_state.c:43-58 | all sixteen piles are emptied and every cell they accounted for goes back |
| `Piles.PileSet.Clone` | source/cplr_state.c:74-89 | all sixteen piles are equal and share no memory with the original |
| `Package.GraphRunIsMaximal` | source/cplr_package.c:66 | an argument is the longest graphic run at the cursor |
| `Package.ParseFlag` | source/cplr_package.c:98-104 | D, I, L and l take the graphic run behind them, empty before white space, and are dropped at the very end |
| `Package.ParsePthread` | source/cplr_package.c:105-112 | `-pthread` may be followed directly by anything |
| `Package.ParseSkip` | source/cplr_package.c:114-116 | any other option is skipped up to white space without failing |
| `Package.ParseSpace` | source/cplr_package.c:123-124 | white space between flags means nothing |
| `Package.ParseInvalid` | source/cplr_package.c:125-127 | anything else fails the package |
| `Package.ParseEnd` | source/cplr_package.c:60-63 | the end, and a dash at the end, succeed |
| `Package.PkgconfigAdd` | source/cplr_package.c:55-132 | on every NUL-free text the character machine makes the appends of the grammar in order, asks for threads as often, and succeeds exactly when the grammar does; it ends and its cursor stays inside the buffer |
| `Package.ParsePrinted` | source/cplr_package.c:64-130 | parsing what the printer writes, with any non-empty white space between flags, succeeds and appends exactly the arguments in order |
| `PackageFlags.PilesByFlag` | source/cplr_package.c:68-88 | for every list of flags separated by white space: `-D` grows the definitions with its option restored, `-I` the include directories, `-L` the library directories, `-l` the libraries, in order; `-pthread` is passed on each time; no other pile changes |
| `PackageFlags.PackagesByFlag` | source/cplr_prepare.c:88-94 | the same over any list of packages that answer so: all are taken, and the compiler is told each answer whole in front of its requests for threads |
| `PackageFlags.KeptToNul` | source/cplr_package.c:24-53 | an answer without NUL is used whole, any other up to its first NUL |
| `Package.SpacedArgument` | source/cplr_package.c:98-104 | any white space behind an option letter: the option takes an empty argument and the rest is parsed by itself |
| `Package.ArgumentTaken` | source/cplr_package.c:64-104 | for any white space and any graphic argument, the argument is taken if and only if no white space stands in front of it; otherwise the parse succeeds if and only if the argument looks like an option and parses |
| `Package.SpacedOptionAccepted` | source/cplr_package.c:98-119 | an unknown option in the place of the argument is skipped and the empty argument accepted |
| `Package.AppendsAreGraphic` | source/cplr_package.c:64-95 | whatever a package answers, every text appended for it is graphic, and starts with `-D` when it is a definition |
| `Stream.StreamWrite` | source/cplr_generate.c:208-219 | one write appends its text to the buffer |
| `Stream.WriteChunks` | source/cplr_generate.c:208-234 | however the text is cut, the buffer ends up as the whole |
| `Stream.PassOn` | source/cplr_generate.c:289-304 | the filter receives the whole buffer in order, eight bytes at a time |
| `Tokeniser.StrTok` | source/cplr_command.c:80 | the next maximal delimiter-free run is cut off in place and the rest of the line keeps its fields |
| `Tokeniser.FieldsOfSpaced` | source/cplr_command.c:80-105 | whatever tokens are written with whatever delimiters between, before and behind them, they are the fields of the line, in order |
| `Tokeniser.CountTokens` | source/cplr_command.c:77-90 | the first pass counts the fields of the line; its copy is given back only when there is none |
| `Tokeniser.SplitTokens` | source/cplr_command.c:92-105 | the second pass fills exactly as many slots, in order, and the terminating NULL stays |
| `Tokeniser.FreeTokens` | source/cplr_command.c:133-140 | each copied token and the vector are given back once |
| `Tokeniser.CommandName` | source/cplr_command.c:62-140 | the command is the first field; what stays allocated is two copies of the line when there is a field, and nothing otherwise |
| `Generate.Generator.EmitCall` | source/cplr_generate.c:30-79 | one call extends both streams as the emitter function says and remembers state, line and file unless it is a comment |
| `Generate.Generator.GenerateSection` | source/cplr_generate.c:97-122 | a banner and then the items of the list in one direction or the other |
| `Generate.Generator.GenerateCode` | source/cplr_generate.c:153-205 | the calls are those of the plan of the piles |
| `Generate.Generator.Generate` | source/cplr_generate.c:328-353 | the code buffer is the program of the piles for any state left behind, the dump its unmarked form or the program itself by level, and the previous file is forgotten |
| `Preparing.TellAll` | source/cplr_prepare.c:96-104 | every item is told in order |
| `Preparing.AskAll` | source/cplr_prepare.c:106-112 | items are offered in order up to the first refusal |
| `Preparing.OfferAppend` | source/cplr_prepare.c:106-153 | offering two lists in a row stops in the first or goes on to the second |
| `Preparing.PkgconfigPrepare` | source/cplr_package.c:24-53 | a found package is told whole and then parsed onto the piles |
| `Preparing.PackageLoop` | source/cplr_prepare.c:88-94 | packages in order up to the first failure |
| `Preparing.AskPaths` | source/cplr_prepare.c:106-153 | include paths, library paths, libraries and files in this order, with the current directory behind each kind of path |
| `Preparing.TccPrepare` | source/cplr_prepare.c:53-160 | the compiler's log, the piles and the outcome are those of `Flat.Prepare` |
| `Handover.HandedOver` | source/cplr_prepare.c:76-152 | for every successful preparation: the options are `-Wall`, each package's answer and thread requests, the default definitions and then the definitions; the system include paths, include paths and ".", library paths and ".", libraries and files are exactly those piles, in order, by calls of their own kind |
| `Handover.HandedOverInOrder` | source/cplr_prepare.c:76-152 | the one output type comes first and follows from the output file; then options, system include paths, include paths, library paths, libraries, files |
| `Handover.HandedOverUntil` | source/cplr_prepare.c:76-152 | a preparation fails exactly when its last call was refused or a package was missing or not understood; all refusable calls before were taken; and what was handed over is the beginning of what a willing compiler gets |
| `Handover.FilesOfSession` | source/cplr_prepare.c:146-152 | over every session the source files are handed over, all and in order, by each successful preparation of the first context and by no other |
| `FlatLaws.RunKeepsOptions` | source/cplr_run.c:4-48 | a run changes no flag but those of its phases and GENERATED |
| `FlatLaws.PhasesInOrderAndOnce` | source/cplr_run.c:4-48 | over every session the newest context's flags FINISHED, EXECUTED, COMPILED, PREPARED imply each other in this order, LOADED means compiled without an output file, and every context passes each phase at most once |
| `Histories.EveryContextInOrder` | source/cplr_run.c:4-48 | over every session, in every context nothing is compiled before it is prepared nor loaded or executed before it is compiled, the newest context's flags say exactly which phases it entered, and all others have been loaded |
| `Histories.RefusedPreparation` | source/cplr_prepare.c:177-178 | at every reachable state a run generates a program behind a refused preparation if and only if PREPARED is set, nothing is compiled and the context's one preparation was refused |
| `Histories.RefusedThenLoaded` | source/cplr_run.c:8-13 | with a package that is never found the first statement is refused and the second is compiled and loaded |
| `Outcomes.RunOutcome` | source/cplr_run.c:4-48 | a run executes exactly when everything in front of it succeeds and running is asked for; its reply is then the program's result, and otherwise 0 exactly when all that is asked for has succeeded |
| `Outcomes.FirstRun` | source/cplr_main.c:75-81 | the command line is run exactly when it leaves a source file, a definition, a statement or something to do before or after |
| `Outcomes.DialogueEnds` | source/cplr_interact.c:46-52 | a dialogue replies 1 exactly when some line quits, whatever else is typed |
| `Outcomes.ExitCodes` | source/cplr_main.c:75-104 | the exit code is that of the command line's run if there is one; otherwise 0 behind a dialogue and 1 without |
| `Outcomes.OneShot` | source/cplr_main.c:75-81 | with a statement on the command line and everything in front of it succeeding, the exit code is the program's result |
| `FlatLaws.RunSane` | source/cplr_run.c:4-48 | a run keeps the order of phases and enters none twice |
| `FlatLaws.RunReaches` | source/cplr_run.c:4-48 | a run generates exactly when its preparation is behind it and nothing is compiled yet, loads exactly when the program compiles to memory as well, and its steps follow in order, with an output file or without |
| `FlatLaws.CarriedThrough` | source/cplr_compile.c:67-73 | what the direct predecessor carries over includes what all earlier contexts would |
| `Names.ReservedStays` | source/cplr_compile.c:28-51 | the filter passes exactly the names that do not begin with `_` or `tcc_`, do not end in `@plt`, and are not main, exit, atexit or on_exit |
| `Symbols.NamesOfSession` | source/cplr_compile.c:60-84 | over every session: a name without one of these forms stays known in every later loaded context; a context knows all that its successful compilations defined; and every name it knows was defined by a compilation of its own or is a name of the context before it without one of these forms |
| `SessionForm.PrepareKeeps` | source/cplr_prepare.c:88-94 | packages never touch a printed pile |
| `SessionForm.LogLoad` | source/cplr_interact.c:33-36 | from a load on the volatile piles count from zero |
| `Prefixes.Trimmed` | source/cplr_command.c:149-150 | exactly the control characters and blanks in front of a line are dropped |
| `Prefixes.PiledByPrefix` | source/cplr_command.c:176-200 | for every text: behind `@` it goes onto the declarations, `^` the definitions, `<` before, `>` after, `.` the statements, and nothing else changes |
| `Prefixes.IgnoredLines` | source/cplr_command.c:152-176 | an empty line, `?` and `!` change nothing |
| `Prefixes.RunLines` | source/cplr_command.c:195-214 | any other text becomes a statement and is run, a lone dot runs what is piled up, and the reply is 0 whatever comes of it |
| `Prefixes.CommandByWord` | source/cplr_command.c:49-144 | by the first word behind a backslash, whatever blanks surround it: `q` replies 1, `d` logs the unmarked program, the five others change nothing, an unknown one replies 0 in a dialogue and 1 otherwise |
| `Prefixes.MissingCommand` | source/cplr_command.c:110-117 | a backslash without a word is an unknown command |
| `Prefixes.LostCopies` | source/cplr_command.c:79-108 | a backslash line with a word loses two copies of itself, every other line none |
| `Prefixes.ChainedContext` | source/cplr_state.c:101-129 | a new context keeps eleven piles and empties five, keeps all flags but five, and has no output file and no names |
| `Prefixes.TurnByLine` | source/cplr_interact.c:32-43 | a line behind a load is handled in a new context, even an empty one, which does nothing more |
| `Prefixes.EveryProgramText` | source/cplr_interact.c:25-67 | over every session each generated program and each dump is, letter by letter, the program of the fixed includes, all texts typed behind `@`, and the texts typed behind `^`, `<`, `>` and as statements since the latest load |
| `SessionForm.EveryProgramIsTold` | source/cplr_interact.c:25-67 | over every session each generated program and dump is that of the piles in closed form: what is fixed, all declarations, and the volatile items since the latest load; spelled out by `Prefixes.EveryProgramText` |
| `Meanings.EveryProgramMeans` | source/cplr_interact.c:25-67 | over every session each generated program is read as meant (without conditional inclusion) if and only if the lines so far leave legible piles, it decodes to these piles if and only if they bring no line directive, and a legible one is read as meant for all values of its conditions if and only if no fragment begins in an open group |
| `Meanings.EveryDumpMeans` | source/cplr_command.c:308-314 | over every session a dump is the program of the same piles without its line directives if and only if the items bring none |
| `Meanings.SameProgramSamePiles` | source/cplr_interact.c:25-67 | equal programs, in whatever sessions they were generated, come from equal piles when these bring no line directive |
| `Meanings.TameSession` | source/cplr_interact.c:25-67 | a session that starts from and is fed with items that keep to themselves generates only programs read as meant, for all values of the conditions and all answers of the world |
| `StablePiles.PrepareSteady` | source/cplr_prepare.c:88-144 | one more preparation adds one more copy of the packages' flags and hands over the same set of settings |
| `StablePiles.CopiesAlike` | source/cplr_package.c:68-88 | copies after the first change no pile as a set |
| `StablePiles.PackagesAccumulate` | source/cplr_prepare.c:88-144 | after n preparations each stable pile is the user's items and n copies of the packages' flags, and all successful preparations of a session hand the compiler the same settings |
| `Contexts.RedefineSymbol` | source/cplr_compile.c:28-58 | a name is defined exactly when it passes the filter |
| `Contexts.RedefineSymbols` | source/cplr_compile.c:68-73 | all names of the previous compiler that pass are defined, in whatever order they are listed |
| `Contexts.Context.constructor` | source/cplr_state.c:24-33 | a zeroed context that is first of its own chain, its emitter untouched and its buffers absent |
| `Contexts.Context.Clone` | source/cplr_state.c:62-91 | equal flags and piles, fresh memory apart from everything that exists, no output, compiler or buffers |
| `Contexts.Context.Chain` | source/cplr_state.c:101-129 | the links, the next index, the same first, the phase flags cleared except GENERATED, the stable piles only |
| `Contexts.Context.Free` | source/cplr_state.c:35-60 | the record, its compiler and every cell of the sixteen piles are given back, and nothing else |
| `Contexts.Context.Prepare` | source/cplr_prepare.c:162-182 | PREPARED is set whatever happened; log, piles and outcome as in the flat form |
| `Contexts.Context.Compile` | source/cplr_compile.c:60-84 | flags, names and outcome as in the flat form, with the predecessor's names read from the heap |
| `Contexts.Context.Execute` | source/cplr_execute.c:35-109 | EXECUTED, and FINISHED unless forking, and the program's own result |
| `Contexts.Context.Generate` | source/cplr_generate.c:328-353 | the code buffer holds the program of the context's piles, the dump buffer what its level asks for, and GENERATED is set |
| `Contexts.Context.Build` | source/cplr_run.c:15-42 | the program that is compiled is that of the current piles, and the rest is as in the flat form |
| `Contexts.Context.Run` | source/cplr_run.c:4-48 | a run on the heap is `Flat.Run`, and its memory changes stay within the context |
| `Contexts.Context.FindSyms` | source/cplr_symbols.c:22-34 | the newest loaded context is found in at most two steps, and nothing only when no context has been loaded |
| `Commands.WalkForward` | source/cplr_command.c:351-373 | the walk along the chain visits every context once in creation order |
| `Commands.CmdList` | source/cplr_command.c:316-324 | exactly the contexts with something volatile are listed, each once, in creation order |
| `Commands.IsEmpty` | source/cplr_state.c:93-99 | the counters are zero exactly when the five volatile piles are empty |
| `Commands.SkipInitial` | source/cplr_command.c:149-150 | leading white space and control characters are dropped and no more |
| `Commands.CmdDump` | source/cplr_command.c:308-314 | the dump is the unmarked program of the current piles and the dump level is restored |
| `Commands.CommandInternal` | source/cplr_command.c:62-144 | the first token selects the command; reply and effect as in the flat form |
| `Commands.Command` | source/cplr_command.c:146-215 | a line on the heap is `Flat.Command`: which pile, whether a run, and a failed run is no failure |
| `Interactor.LiveFollows` | source/cplr_interact.c:33-36 | every context but the newest is loaded and has a compiler, so the newest can copy its names |
| `Interactor.ChainOn` | source/cplr_interact.c:33-36 | chaining seals the loaded context, keeps the line acyclic and indexed, and is `Flat.Chain` |
| `Interactor.Turn` | source/cplr_interact.c:32-55 | one turn on the heap is `Flat.Turn` and keeps the whole chain well formed and apart |
| `Interactor.InteractStops` | source/cplr_interact.c:46-52 | the first reply that is not zero decides the session |
| `Interactor.Loop` | source/cplr_interact.c:32-55 | after any lines the chain is live, the flags of every context in it are in order, and history and reply are those of the flat session |
| `Interactor.AllOrdered` | source/cplr_interact.c:33-36 | in every chain that a session builds, FINISHED, EXECUTED, COMPILED, PREPARED imply each other in this order in every context |
| `Interactor.Teardown` | source/cplr_interact.c:59-64 | the walk back ends, frees every context but the base once, and leaves the base intact |
| `Interactor.Interact` | source/cplr_interact.c:25-67 | history and reply of the flat session; of all memory only the base's remains |
| `Interactor.Start` | source/cplr_main.c:42-43 | a new context is a chain of its own with nothing on its piles and no phase entered |
| `Interactor.RunFirst` | source/cplr_main.c:75-81 | what the command line piled up is run first, if anything |
| `Interactor.WholeProgram` | source/cplr_main.c:75-104 | history and exit code of the flat session; every context, compiler, node and owned string has been given back; the tokeniser has lost two copies of each handled internal line that holds a token |

## Left out

- libtcc itself: what compiles, which names a program defines, what the compiler accepts and what a program returns are parameters (`Flat.Env`). `tcc_new` is taken to succeed, as the code goes on after reporting that it did not.
- A program that ends the whole process while it runs, and `fork` and `waitpid`: only the flags and the result of `cplr_execute` are modelled.
- Within one run a package answers the same each time it is asked for; the compiler may answer the same call differently by what it was told before.
- pkg-config processes, their read buffers and the verbosity-guarded messages; the buffer of a package's options is not in the ledger, so its leak on a failed parse is not stated.
- Option parsing and default tables: a session starts with any flags and any texts on its piles that have entered no phase, and an output file comes with NORUN (source/cplr_optparse.c:287-290).
- readline, history, `system`, help texts and what `\l`, `\o`, `\s` and `\y` print: their walks are modelled, their output is not.
- The `optf` and `optm` piles, which are neither cloned nor freed, the CC backend, and `cplr_generate_labeled`, which nothing calls.
- Scalar value setters and getters, cloning of raw pointers, and `l_append_str`: no pile uses them.
- Allocation failure, and counters beyond the range of `int` and `size_t`: counts are unbounded. The 64 bytes for a pseudo-file name are never exhausted by the section names with a counter of machine width.
- The output buffers of a generation are values; the byte-wise stream callbacks are modelled beside them in Stream.dfy, and the non-GNU stream branch is not modelled.
- A context embeds its sixteen list heads; here they are sixteen list objects in one `PileSet`, and cloning requires the new heads to be distinct from the old ones.
- Loops over a pile read its contents up front with the walk of `Lists.List.Listing`; the code follows the nodes while it works, which is the same because no loop changes the pile it walks.
- The tokeniser keeps a ledger of its own in a session, so its lost line copies are counted there and not in the account of the contexts.
- `LineControl.ReadMarker`: the reader knows splices, comments, quotes and both spellings of `#`, but not trigraphs, directives whose operands come from macros, a `#line` with further tokens behind its operands (the item `#line 9 "x"` is printed as `#line 9 "x";`, which is not a form of section 6.10.4 although compilers honour it), the `# 1 "file"` form that some compilers add, or text inside included files.
- `Positions.PositionsFaithful`: the reader keeps every line, so an item that leaves an `#if` open is read as if nothing were skipped; `Conditionals` adds conditional inclusion (section 6.10.1 of ISO/IEC 9899:2011).
- `Positions.EveryLinePlaced`: the same reader.
- `Conditionals.KeptFaithful`: of a program in which some line directive is skipped while an item brings another, it says nothing. The values of the conditions are arbitrary, so conditions that a compiler evaluates alike may have different values here.
- `Reading.ReadExact`: calls whose text ends in a quote or a backslash, and a marker behind a fragment that repeats the open file, are outside it; `cplr_generate_code` makes no such call.
- Locale: `isspace`, `isgraph` and `iscntrl` are those of the C locale, and a character is one byte of it.
- The verbosity and target fields, the program's argument vector, and `tccerr`.
