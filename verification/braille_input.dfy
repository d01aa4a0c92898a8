/** The translation of one chunk received from the serial reader into the
    letter that is shown on the page and spoken aloud. */
module BrailleInput {
  import opened Letters

  /** A chunk the translation accepts: exactly one lower-case letter, with
      nothing before or after it. */
  predicate IsLetterSignal(data: string) {
    |data| == 1 && IsLower(data[0])
  }

  /** The letter shown for a chunk: the upper-case letter when the chunk is
      exactly one lower-case letter, otherwise the empty string. The chunk is
      compared for exact equality, one branch per letter, in alphabet order;
      there is no trimming and no case folding. */
  function Translate(data: string): (r: string)
    ensures r == "" || (|r| == 1 && IsUpper(r[0]))
    ensures r != "" <==> IsLetterSignal(data)
    ensures IsLetterSignal(data) ==> r == [ToUpper(data[0])]
    ensures r != "" ==> [ToLower(r[0])] == data
  {
    if data == "a" then "A"
    else if data == "b" then "B"
    else if data == "c" then "C"
    else if data == "d" then "D"
    else if data == "e" then "E"
    else if data == "f" then "F"
    else if data == "g" then "G"
    else if data == "h" then "H"
    else if data == "i" then "I"
    else if data == "j" then "J"
    else if data == "k" then "K"
    else if data == "l" then "L"
    else if data == "m" then "M"
    else if data == "n" then "N"
    else if data == "o" then "O"
    else if data == "p" then "P"
    else if data == "q" then "Q"
    else if data == "r" then "R"
    else if data == "s" then "S"
    else if data == "t" then "T"
    else if data == "u" then "U"
    else if data == "v" then "V"
    else if data == "w" then "W"
    else if data == "x" then "X"
    else if data == "y" then "Y"
    else if data == "z" then "Z"
    else ""
  }

  /** Each of the 26 letters is translated to its own upper-case letter. */
  lemma TranslateAlphabet()
    ensures forall i :: 0 <= i < 26 ==>
      Translate([LowerAlphabet[i]]) == [UpperAlphabet[i]]
  {
    AlphabetsAgree();
  }

  /** Two accepted chunks with the same translation are the same chunk. */
  lemma TranslateInjective(a: string, b: string)
    requires Translate(a) != ""
    requires Translate(a) == Translate(b)
    ensures a == b
  {
  }

  /** Chunks that differ from a letter only by case, surrounding white space,
      a line ending or extra characters are all rejected. */
  lemma TranslateRejectsNearMisses()
    ensures Translate("") == ""
    ensures Translate("A") == ""
    ensures Translate("Z") == ""
    ensures Translate("ab") == ""
    ensures Translate("a\r\n") == ""
    ensures Translate("a\n") == ""
    ensures Translate(" a") == ""
    ensures Translate("a ") == ""
    ensures Translate("1") == ""
  {
  }

  /** What the page shows and what has been spoken so far. */
  datatype Page = Page(display: string, spoken: seq<string>)

  /** Handling one chunk: the display is overwritten with the translation
      (cleared when the chunk is not a letter), and the translated letter is
      spoken once, only when the chunk is a letter. */
  function HandleBrailleInput(page: Page, data: string): (next: Page)
    ensures IsLetterSignal(data) ==>
      next.display == [ToUpper(data[0])] && next.spoken == page.spoken + [next.display]
    ensures !IsLetterSignal(data) ==>
      next.display == "" && next.spoken == page.spoken
  {
    var letter := Translate(data);
    var spoken := if letter != "" then page.spoken + [letter] else page.spoken;
    Page(letter, spoken)
  }

  /** Nothing of the previous display survives a call: the new display
      depends on the chunk alone. */
  lemma DisplayOverwritten(p1: Page, p2: Page, data: string)
    ensures HandleBrailleInput(p1, data).display == HandleBrailleInput(p2, data).display
  {
  }

  /** What is spoken by a call is exactly what it displays, and speech
      happens at most once per call. */
  lemma SpokenMatchesDisplay(page: Page, data: string)
    ensures var next := HandleBrailleInput(page, data);
      |page.spoken| <= |next.spoken| <= |page.spoken| + 1
      && next.spoken[..|page.spoken|] == page.spoken
      && (|next.spoken| == |page.spoken| + 1 <==> next.display != "")
      && (next.display != "" ==> next.spoken[|page.spoken|] == next.display)
  {
  }
}
