/** The read loop: chunks arrive from the serial reader one at a time, each
    non-empty chunk is handed to the letter translation, and the loop ends
    at the first end-of-stream signal. The page's display and the spoken
    letters are the loop's observable outputs. */
module SerialRead {
  import opened Letters
  import opened BrailleInput

  /** One result of reading from the decoded serial stream: a chunk of text,
      or the signal that the stream has ended. */
  datatype ReadResult = Chunk(value: string) | Done

  datatype Option<T> = None | Some(value: T)

  /** The read loop over a finite run of read results: empty chunks are
      skipped, every other chunk is handled in order, and nothing after the
      first end-of-stream signal is looked at. */
  function ReadSerialData(page: Page, results: seq<ReadResult>): (final: Page)
    ensures |page.spoken| <= |final.spoken| <= |page.spoken| + |results|
    ensures final.spoken[..|page.spoken|] == page.spoken
    ensures forall i :: |page.spoken| <= i < |final.spoken| ==>
      |final.spoken[i]| == 1 && IsUpper(final.spoken[i][0])
    ensures final.display == page.display || final.display == ""
      || (|final.display| == 1 && IsUpper(final.display[0]))
    decreases |results|
  {
    if results == [] then page
    else match results[0]
      case Done => page
      case Chunk(v) =>
        var next := if v != "" then HandleBrailleInput(page, v) else page;
        ReadSerialData(next, results[1..])
  }

  /** The chunks read before the stream ends, empty ones included: the
      longest prefix of the results that holds no end-of-stream signal. */
  function Delivered(results: seq<ReadResult>): (chunks: seq<string>)
    ensures |chunks| <= |results|
    ensures forall i :: 0 <= i < |chunks| ==> results[i] == Chunk(chunks[i])
    ensures |chunks| < |results| ==> results[|chunks|] == Done
    decreases |results|
  {
    if results == [] then []
    else match results[0]
      case Done => []
      case Chunk(v) => [v] + Delivered(results[1..])
  }

  /** The letters a run of chunks should have spoken, in arrival order: the
      non-empty translations. */
  function Spoken(chunks: seq<string>): (letters: seq<string>)
    ensures |letters| <= |chunks|
    ensures forall i :: 0 <= i < |letters| ==> |letters[i]| == 1 && IsUpper(letters[i][0])
    decreases |chunks|
  {
    if chunks == [] then []
    else
      var letter := Translate(chunks[|chunks| - 1]);
      Spoken(chunks[..|chunks| - 1]) + (if letter != "" then [letter] else [])
  }

  /** The last non-empty chunk of a run, if there is one. */
  function LastNonEmpty(chunks: seq<string>): (last: Option<string>)
    ensures last.None? <==> forall i :: 0 <= i < |chunks| ==> chunks[i] == ""
    ensures last.Some? ==> (last.value != "" &&
      exists i :: 0 <= i < |chunks| && chunks[i] == last.value &&
        forall j :: i < j < |chunks| ==> chunks[j] == "")
    decreases |chunks|
  {
    if chunks == [] then None
    else if chunks[|chunks| - 1] != "" then Some(chunks[|chunks| - 1])
    else LastNonEmpty(chunks[..|chunks| - 1])
  }

  /** The display after a run of chunks: the translation of the last
      non-empty chunk, or the display from before when there was none. */
  function FinalDisplay(initial: string, chunks: seq<string>): string {
    match LastNonEmpty(chunks)
    case None => initial
    case Some(c) => Translate(c)
  }

  lemma {:induction false} SpokenCons(c: string, rest: seq<string>)
    ensures Spoken([c] + rest) == Spoken([c]) + Spoken(rest)
    decreases |rest|
  {
    if rest != [] {
      var init := rest[..|rest| - 1];
      assert ([c] + rest)[..|[c] + rest| - 1] == [c] + init;
      SpokenCons(c, init);
    } else {
      assert [c] + rest == [c];
    }
  }

  lemma {:induction false} LastNonEmptyCons(c: string, rest: seq<string>)
    ensures LastNonEmpty([c] + rest) ==
      if LastNonEmpty(rest).Some? then LastNonEmpty(rest)
      else if c != "" then Some(c) else None
    decreases |rest|
  {
    if rest != [] {
      var init := rest[..|rest| - 1];
      assert ([c] + rest)[..|[c] + rest| - 1] == [c] + init;
      LastNonEmptyCons(c, init);
    } else {
      assert [c] + rest == [c];
    }
  }

  /** After the loop, the spoken list has grown by exactly the non-empty
      translations of the delivered chunks, in arrival order. */
  lemma {:induction false} ReadSerialDataSpoken(page: Page, results: seq<ReadResult>)
    ensures ReadSerialData(page, results).spoken == page.spoken + Spoken(Delivered(results))
    decreases |results|
  {
    if results != [] && results[0].Chunk? {
      var v := results[0].value;
      var next := if v != "" then HandleBrailleInput(page, v) else page;
      var rest := Delivered(results[1..]);
      ReadSerialDataSpoken(next, results[1..]);
      assert Delivered(results) == [v] + rest;
      SpokenCons(v, rest);
      StepSpoken(page, v);
    }
  }

  /** One step of the loop speaks exactly what `Spoken` assigns to its chunk. */
  lemma StepSpoken(page: Page, v: string)
    ensures (if v != "" then HandleBrailleInput(page, v) else page).spoken == page.spoken + Spoken([v])
  {
    assert [v][..0] == [];
  }

  /** After the loop, the display is the translation of the last non-empty
      delivered chunk, or unchanged when no non-empty chunk was delivered. */
  lemma {:induction false} ReadSerialDataDisplay(page: Page, results: seq<ReadResult>)
    ensures ReadSerialData(page, results).display == FinalDisplay(page.display, Delivered(results))
    decreases |results|
  {
    if results != [] && results[0].Chunk? {
      var v := results[0].value;
      var next := if v != "" then HandleBrailleInput(page, v) else page;
      var rest := Delivered(results[1..]);
      ReadSerialDataDisplay(next, results[1..]);
      assert Delivered(results) == [v] + rest;
      LastNonEmptyCons(v, rest);
      assert [v][..0] == [];
    }
  }

  /** Reads after the first end-of-stream signal have no effect. */
  lemma {:induction false} DoneStops(page: Page, before: seq<ReadResult>, after: seq<ReadResult>)
    ensures ReadSerialData(page, before + [Done] + after) == ReadSerialData(page, before)
    decreases |before|
  {
    if before == [] {
      assert (before + [Done] + after)[0] == Done;
    } else {
      assert (before + [Done] + after)[0] == before[0];
      assert (before + [Done] + after)[1..] == before[1..] + [Done] + after;
      if before[0].Chunk? {
        var v := before[0].value;
        var next := if v != "" then HandleBrailleInput(page, v) else page;
        DoneStops(next, before[1..], after);
      }
    }
  }

  /** An empty chunk changes neither the display nor the speech: the loop
      behaves as if it had never arrived. */
  lemma {:induction false} EmptyChunkSkipped(page: Page, before: seq<ReadResult>, after: seq<ReadResult>)
    ensures ReadSerialData(page, before + [Chunk("")] + after) == ReadSerialData(page, before + after)
    decreases |before|
  {
    if before == [] {
      assert (before + [Chunk("")] + after)[1..] == after;
      assert before + after == after;
    } else {
      assert (before + [Chunk("")] + after)[0] == before[0];
      assert (before + [Chunk("")] + after)[1..] == before[1..] + [Chunk("")] + after;
      assert (before + after)[0] == before[0];
      assert (before + after)[1..] == before[1..] + after;
      if before[0].Chunk? {
        var v := before[0].value;
        var next := if v != "" then HandleBrailleInput(page, v) else page;
        EmptyChunkSkipped(next, before[1..], after);
      }
    }
  }

  /** A short session: a letter, a chunk carrying a line ending, an empty
      chunk, another letter, the end of the stream, and a late chunk. */
  lemma ReadSerialDataExample()
    ensures ReadSerialData(Page("", []),
      [Chunk("h"), Chunk("i\r\n"), Chunk(""), Chunk("i"), Done, Chunk("x")])
      == Page("I", ["H", "I"])
  {
    var rs := [Chunk("h"), Chunk("i\r\n"), Chunk(""), Chunk("i"), Done, Chunk("x")];
    assert Translate("h") == "H" && Translate("i") == "I";
    assert Translate("i\r\n") == "";
    var p1 := HandleBrailleInput(Page("", []), "h");
    assert p1 == Page("H", ["H"]);
    var p2 := HandleBrailleInput(p1, "i\r\n");
    assert p2 == Page("", ["H"]);
    var p3 := HandleBrailleInput(p2, "i");
    assert p3 == Page("I", ["H", "I"]);
    assert rs[1..] == [Chunk("i\r\n"), Chunk(""), Chunk("i"), Done, Chunk("x")];
    assert rs[2..] == [Chunk(""), Chunk("i"), Done, Chunk("x")];
    assert rs[3..] == [Chunk("i"), Done, Chunk("x")];
    assert rs[4..] == [Done, Chunk("x")];
    assert ReadSerialData(p3, rs[4..]) == p3;
    assert ReadSerialData(p2, rs[3..]) == p3;
    assert ReadSerialData(p2, rs[2..]) == p3;
    assert ReadSerialData(p1, rs[1..]) == p3;
  }
}
