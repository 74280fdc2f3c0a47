/** The compiler as the piler sees it: a log of what it was told and a table of names. */
module Compiler {

  datatype Call =
    | SetOutput(memory: bool)
    | SetOptions(text: string)
    | AddSysInclude(path: string)
    | AddInclude(path: string)
    | AddLibraryPath(path: string)
    | AddLibrary(name: string)
    | AddFile(path: string)

  class TCC {
    var calls: seq<Call>
    var names: set<string>

    constructor ()
      ensures calls == [] && names == {}
    {
      calls, names := [], {};
    }

    method Tell(c: Call)
      modifies this`calls
      ensures calls == old(calls) + [c]
    {
      calls := calls + [c];
    }

    method Define(more: set<string>)
      modifies this`names
      ensures names == old(names) + more
    {
      names := names + more;
    }
  }
}
