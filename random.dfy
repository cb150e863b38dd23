/**
 * `genRandomText` of index.js: `len` characters, each picked from a fixed
 * 34-character alphabet (digits and lower-case letters without `l` and `o`).
 * The `i`-th `Math.floor(Math.random() * possible.length)` is `draw(i)`, any
 * index of the alphabet.
 */
module Random {

  const Possible: string := "0123456789abcdefghijkmnpqrstuvwxyz"

  /** The alphabet holds only digits and lower-case letters, so neither `;` nor `=`. */
  lemma AlphabetRange()
    ensures forall c :: c in Possible ==> ('0' <= c <= '9') || ('a' <= c <= 'z')
    ensures ';' !in Possible && '=' !in Possible
  {
    forall i | 0 <= i < |Possible|
      ensures ('0' <= Possible[i] <= '9') || ('a' <= Possible[i] <= 'z')
    {
    }
  }

  /** An index into `Possible`. */
  type Draw = i: int | 0 <= i < 34

  /** The text produced from the draws `draw(0), …, draw(len - 1)`. */
  function RandomText(len: nat, draw: nat -> Draw): (text: string)
    ensures |text| == len
    ensures forall c :: c in text ==> c in Possible
  {
    seq(len, i requires 0 <= i => Possible[draw(i)])
  }

  method GenRandomText(len: nat, draw: nat -> Draw) returns (text: string)
    ensures text == RandomText(len, draw)
  {
    text := "";
    var i := 0;
    while i < len
      invariant 0 <= i <= len
      invariant text == RandomText(i, draw)
    {
      text := text + [Possible[draw(i)]];
      i := i + 1;
    }
  }

  /** The first position of `c` in `s`. */
  function IndexOf(s: string, c: char): (i: nat)
    requires c in s
    ensures i < |s| && s[i] == c
  {
    if s[0] == c then 0 else 1 + IndexOf(s[1..], c)
  }

  /**
   * Every text of length `len` over the alphabet is produced by some draws:
   * a state or session key ranges over all `34^len` such texts.
   */
  lemma RandomTextCovers(t: string)
    requires forall c :: c in t ==> c in Possible
    ensures exists draw: nat -> Draw :: RandomText(|t|, draw) == t
  {
    var draw: nat -> Draw := (i: nat) => if i < |t| then IndexOf(Possible, t[i]) else 0;
    assert RandomText(|t|, draw) == t;
  }
}
