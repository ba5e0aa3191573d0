/**
 * `generateRandomId`: eleven characters drawn from the 52 ASCII letters. `Math.random` is not part of
 * the model: its eleven draws, reals in [0, 1), are passed in.
 */
module RandomId {

  /** The `chars` string: the upper-case letters, then the lower-case ones. */
  const Letters: string := UpperCase + LowerCase
  const UpperCase: string := "ABCDEFGHIJKLMNOPQRSTUVWXYZ"
  const LowerCase: string := "abcdefghijklmnopqrstuvwxyz"
  const IdLength := 11

  predicate IsAsciiLetter(c: char)
  {
    'A' <= c <= 'Z' || 'a' <= c <= 'z'
  }

  /** `Math.floor(draw * chars.length)`: always an index into `Letters`. */
  function Pick(draw: real): (k: nat)
    requires 0.0 <= draw < 1.0
    ensures k < |Letters|
  {
    (draw * 52.0).Floor
  }

  /** Every character of `Letters` is an ASCII letter. */
  lemma LettersAreAsciiLetters(k: nat)
    requires k < |Letters|
    ensures IsAsciiLetter(Letters[k])
  {
    if k < |UpperCase| {
      assert Letters[k] == UpperCase[k];
    } else {
      assert Letters[k] == LowerCase[k - |UpperCase|];
    }
  }

  predicate ValidDraws(draws: seq<real>)
  {
    |draws| == IdLength && forall i :: 0 <= i < |draws| ==> 0.0 <= draws[i] < 1.0
  }

  method GenerateRandomId(draws: seq<real>) returns (id: string)
    requires ValidDraws(draws)
    ensures |id| == IdLength
    ensures forall i :: 0 <= i < |id| ==> IsAsciiLetter(id[i])
    ensures forall i :: 0 <= i < |id| ==> id[i] == Letters[Pick(draws[i])]
  {
    id := "";
    for i := 0 to IdLength
      invariant |id| == i
      invariant forall j :: 0 <= j < i ==> IsAsciiLetter(id[j]) && id[j] == Letters[Pick(draws[j])]
    {
      var k := Pick(draws[i]);
      LettersAreAsciiLetters(k);
      id := id + [Letters[k]];
    }
  }
}
