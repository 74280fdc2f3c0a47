/** Which names are carried over from one context to the next. */
module Names {
  import opened Flat

  /** The names that stay behind when a new context takes over: built-ins and linkage stubs. */
  ghost predicate Reserved(name: string) {
    name in {"main", "exit", "atexit", "on_exit"} ||
    (exists t: string :: name == "_" + t) || (exists t: string :: name == "tcc_" + t) ||
    exists t: string :: name == t + "@plt"
  }

  lemma ReservedStays(name: string)
    ensures Passes(name) <==> !Reserved(name)
  {
    if "_" <= name {
      assert name == "_" + name[1..];
    }
    if "tcc_" <= name {
      assert name == "tcc_" + name[4..];
    }
    if |name| >= 4 && name[|name| - 4..] == "@plt" {
      assert name == name[..|name| - 4] + "@plt";
    }
  }
}
