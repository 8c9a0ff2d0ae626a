/** Splitting a byte stream into lines, whatever chunks it arrives in. */
module Lines {
  type Byte = b: int | 0 <= b < 256
  type Bytes = seq<Byte>

  const NEWLINE: Byte := 10

  function Concat(pieces: seq<Bytes>): Bytes {
    if pieces == [] then [] else pieces[0] + Concat(pieces[1..])
  }

  /** `bytes.find(b"\n")` */
  function Find(bytes: Bytes): (index: int)
    ensures -1 <= index < |bytes|
    ensures index >= 0 ==> bytes[index] == NEWLINE
    ensures forall i :: 0 <= i < (if index < 0 then |bytes| else index) ==> bytes[i] != NEWLINE
  {
    if bytes == [] then -1
    else if bytes[0] == NEWLINE then 0
    else
      var rest := Find(bytes[1..]);
      if rest < 0 then -1 else rest + 1
  }

  /** A non-empty piece whose only newline, if any, is its last byte. */
  predicate IsLine(line: Bytes) {
    line != [] && forall i :: 0 <= i < |line| - 1 ==> line[i] != NEWLINE
  }

  /** Every line but possibly the last is terminated. */
  predicate AreLines(lines: seq<Bytes>) {
    && (forall k :: 0 <= k < |lines| ==> IsLine(lines[k]))
    && forall k :: 0 <= k < |lines| - 1 ==> lines[k][|lines[k]| - 1] == NEWLINE
  }

  /** The lines of a byte string. */
  ghost function LinesOf(bytes: Bytes): seq<Bytes>
    decreases |bytes|
  {
    var newline := Find(bytes);
    if bytes == [] then []
    else if newline < 0 then [bytes]
    else [bytes[..newline + 1]] + LinesOf(bytes[newline + 1..])
  }

  lemma FindInPrefix(pending: Bytes, rest: Bytes)
    requires Find(pending) >= 0
    ensures Find(pending + rest) == Find(pending)
  {
    var i := Find(pending);
    assert (pending + rest)[i] == NEWLINE;
    assert forall j :: 0 <= j < i ==> (pending + rest)[j] == pending[j];
  }

  lemma {:induction false} LinesOfAreLines(bytes: Bytes)
    ensures AreLines(LinesOf(bytes)) && Concat(LinesOf(bytes)) == bytes
    decreases |bytes|
  {
    var newline := Find(bytes);
    if bytes != [] && newline >= 0 {
      var line, rest := bytes[..newline + 1], bytes[newline + 1..];
      LinesOfAreLines(rest);
      assert bytes == line + rest;
      assert LinesOf(bytes) == [line] + LinesOf(rest);
      hide LinesOf, AreLines, Concat, Find;
      OneMoreLine(line, LinesOf(rest));
    } else if bytes != [] {
      assert Concat([bytes]) == bytes + Concat([]);
    }
  }

  lemma OneMoreLine(line: Bytes, lines: seq<Bytes>)
    requires IsLine(line) && line[|line| - 1] == NEWLINE && AreLines(lines)
    ensures AreLines([line] + lines) && Concat([line] + lines) == line + Concat(lines)
  {
    assert ([line] + lines)[1..] == lines;
  }

  /** A terminated line in front of some bytes is the first of their lines. */
  lemma FirstLine(line: Bytes, rest: Bytes)
    requires IsLine(line) && line[|line| - 1] == NEWLINE
    ensures LinesOf(line + rest) == [line] + LinesOf(rest)
  {
    assert Find(line) == |line| - 1;
    FindInPrefix(line, rest);
    var bytes := line + rest;
    assert bytes[..|line|] == line && bytes[|line|..] == rest;
  }

  /** Any division of a byte string into lines is the division into its lines. */
  lemma {:induction false} LinesAreUnique(lines: seq<Bytes>)
    requires AreLines(lines)
    ensures lines == LinesOf(Concat(lines))
  {
    if lines != [] {
      var first, rest := lines[0], Concat(lines[1..]);
      assert lines == [first] + lines[1..];
      if first[|first| - 1] == NEWLINE {
        LinesAreUnique(lines[1..]);
        hide LinesOf, Concat;
        FirstLine(first, rest);
      } else {
        assert |lines| == 1 && lines[1..] == [];
        assert first + [] == first;
        assert Find(first) < 0;
      }
    }
  }

  /** The lines yielded so far, and the lines of what is still to come, are the lines of the whole. */
  ghost predicate Yielded(lines: seq<Bytes>, rest: Bytes, whole: Bytes) {
    lines + LinesOf(rest) == LinesOf(whole)
  }

  lemma TakeLine(lines: seq<Bytes>, line: Bytes, after: Bytes, whole: Bytes)
    requires IsLine(line) && line[|line| - 1] == NEWLINE
    requires Yielded(lines, line + after, whole)
    ensures Yielded(lines + [line], after, whole)
  {
    FirstLine(line, after);
    hide LinesOf, IsLine;
    assert lines + ([line] + LinesOf(after)) == (lines + [line]) + LinesOf(after);
  }

  lemma CutLine(pending: Bytes, rest: Bytes)
    requires Find(pending) >= 0
    ensures var line, after := pending[..Find(pending) + 1], pending[Find(pending) + 1..];
      IsLine(line) && line[|line| - 1] == NEWLINE && pending + rest == line + (after + rest)
  {
    assert pending == pending[..Find(pending) + 1] + pending[Find(pending) + 1..];
  }

  lemma TakeChunk(pending: Bytes, chunks: seq<Bytes>, k: nat)
    requires k < |chunks|
    ensures pending + Concat(chunks[k..]) == (pending + chunks[k]) + Concat(chunks[k + 1..])
  {
    assert chunks[k..][1..] == chunks[k + 1..];
  }

  lemma NothingYielded(chunks: seq<Bytes>)
    ensures Find([]) < 0 && Yielded([], [] + Concat(chunks[0..]), Concat(chunks))
  {
    assert chunks[0..] == chunks && [] + Concat(chunks) == Concat(chunks);
  }

  lemma LastLine(lines: seq<Bytes>, pending: Bytes, chunks: seq<Bytes>)
    requires Find(pending) < 0 && Yielded(lines, pending + Concat(chunks[|chunks|..]), Concat(chunks))
    ensures pending != [] ==> lines + [pending] == LinesOf(Concat(chunks))
    ensures pending == [] ==> lines == LinesOf(Concat(chunks))
  {
    assert pending + [] == pending;
  }

  /** `iter_response_lines`: the yielded lines depend on the bytes alone, not on how they were chunked. */
  method IterResponseLines(chunks: seq<Bytes>) returns (lines: seq<Bytes>)
    ensures lines == LinesOf(Concat(chunks))
  {
    lines := [];
    var pending: Bytes := [];
    var k := 0;
    ghost var whole := Concat(chunks);
    NothingYielded(chunks);
    hide LinesOf, Yielded, Concat, Find, IsLine;
    while k < |chunks|
      invariant 0 <= k <= |chunks|
      invariant Find(pending) < 0
      invariant Yielded(lines, pending + Concat(chunks[k..]), whole)
    {
      ghost var rest := Concat(chunks[k + 1..]);
      TakeChunk(pending, chunks, k);
      pending := pending + chunks[k];
      var newline := Find(pending);
      while newline >= 0
        invariant newline == Find(pending)
        invariant Yielded(lines, pending + rest, whole)
        decreases |pending|
      {
        var line := pending[..newline + 1];
        CutLine(pending, rest);
        TakeLine(lines, line, pending[newline + 1..] + rest, whole);
        pending := pending[newline + 1..];
        lines := lines + [line];
        newline := Find(pending);
      }
      k := k + 1;
    }
    LastLine(lines, pending, chunks);
    if pending != [] {
      lines := lines + [pending];
    }
  }
}
