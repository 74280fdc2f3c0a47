/** The memory streams of the generator: callbacks that append chunks to a NUL-terminated buffer, and the
    loop that passes a finished buffer on. */
module Stream {
  import opened Text

  predicate NulFree(s: string) {
    forall i :: 0 <= i < |s| ==> s[i] != '\0'
  }

  /** A buffer that holds a text, its terminator, and nothing that matters behind it. */
  ghost predicate Holds(buf: array<char>, text: string)
    reads buf
  {
    |text| < buf.Length && buf[..|text|] == text && buf[|text|] == '\0' && NulFree(text)
  }

  /** `strlen` */
  method StrLen(buf: array<char>, ghost text: string) returns (n: nat)
    requires Holds(buf, text)
    ensures n == |text|
  {
    assert forall i :: 0 <= i < |text| ==> buf[i] == buf[..|text|][i];
    n := 0;
    while buf[n] != '\0'
      invariant n <= |text|
      decreases |text| - n
    {
      assert n < |text|;
      n := n + 1;
    }
  }

  /** `code_stream_write` and `dump_stream_write`: reallocate, copy behind the old text, terminate. */
  method StreamWrite(buf: array<char>, ghost text: string, chunk: string) returns (grown: array<char>)
    requires Holds(buf, text) && NulFree(chunk)
    ensures fresh(grown) && Holds(grown, text + chunk)
  {
    var ol := StrLen(buf, text);
    var size := |chunk|;
    grown := new char[ol + size + 1];
    for i := 0 to ol
      invariant grown[..i] == text[..i]
    {
      assert buf[i] == buf[..|text|][i];
      grown[i] := buf[i];
    }
    for i := 0 to size
      invariant grown[..ol] == text && grown[ol..ol + i] == chunk[..i]
    {
      grown[ol + i] := chunk[i];
    }
    grown[ol + size] := '\0';
    assert grown[..ol + size] == grown[..ol] + grown[ol..ol + size];
    assert chunk[..size] == chunk;
  }

  /** However the stdio layer splits what is printed, the buffer ends up holding all of it. */
  method WriteChunks(chunks: seq<string>) returns (buf: array<char>)
    requires forall c <- chunks :: NulFree(c)
    ensures Holds(buf, Flatten(chunks))
  {
    buf := new char[1](_ => '\0');
    ghost var text := "";
    var i := 0;
    while i < |chunks|
      invariant i <= |chunks| && Holds(buf, text) && text + Flatten(chunks[i..]) == Flatten(chunks)
    {
      assert chunks[i..][1..] == chunks[i + 1..];
      buf := StreamWrite(buf, text, chunks[i]);
      text := text + chunks[i];
      i := i + 1;
    }
    assert text + Flatten(chunks[i..]) == text;
  }

  lemma SameSlice(s: string, text: string, i: nat, j: nat)
    requires |text| <= |s| && s[..|text|] == text && i <= j <= |text|
    ensures s[i..j] == text[i..j]
  {
    assert s[..|text|][i..j] == s[i..j];
  }

  /** The dump loop: steps of at most the size of a pointer, each written in full, reach the filter as
      the whole buffer in order. */
  method PassOn(buf: array<char>, ghost text: string) returns (out: string)
    requires Holds(buf, text)
    ensures out == text
  {
    var total := StrLen(buf, text);
    out := "";
    var done := 0;
    while done < total
      invariant done <= total && out == text[..done]
    {
      var step := total - done;
      if step > 8 {
        step := 8;
      }
      SameSlice(buf[..], text, done, done + step);
      assert buf[done..done + step] == buf[..][done..done + step];
      out := out + buf[done..done + step];
      done := done + step;
    }
  }
}
