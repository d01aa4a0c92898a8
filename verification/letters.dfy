/** The 26-letter Latin alphabet the fold sensor signals, and the case
    mapping between its lower-case (input) and upper-case (display) forms.
    This is the reference the letter translation is measured against. */
module Letters {

  /** The letters the device may send, in alphabet order. */
  const LowerAlphabet: string := "abcdefghijklmnopqrstuvwxyz"

  /** The letters shown and spoken, in the same order. */
  const UpperAlphabet: string := "ABCDEFGHIJKLMNOPQRSTUVWXYZ"

  predicate IsLower(c: char) {
    'a' <= c <= 'z'
  }

  predicate IsUpper(c: char) {
    'A' <= c <= 'Z'
  }

  /** The upper-case form of a lower-case letter: the letter at the same
      position of the alphabet. */
  function ToUpper(c: char): (u: char)
    requires IsLower(c)
    ensures IsUpper(u)
    ensures u as int - 'A' as int == c as int - 'a' as int
  {
    (c as int - 'a' as int + 'A' as int) as char
  }

  /** The lower-case form of an upper-case letter. */
  function ToLower(u: char): (c: char)
    requires IsUpper(u)
    ensures IsLower(c)
    ensures c as int - 'a' as int == u as int - 'A' as int
  {
    (u as int - 'A' as int + 'a' as int) as char
  }

  /** The two alphabet constants list the same letters in the two cases. */
  lemma AlphabetsAgree()
    ensures |LowerAlphabet| == |UpperAlphabet| == 26
    ensures forall i :: 0 <= i < 26 ==>
      IsLower(LowerAlphabet[i]) && ToUpper(LowerAlphabet[i]) == UpperAlphabet[i]
  {
  }
}
