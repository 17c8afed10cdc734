/**
 * RandomString: the nonce generator. The platform's pseudo-random number generator
 * is modelled as an oracle: the k-th draw of a `Random` is `draw(k)`, and
 * `Next(n)` reduces it into `[0, n)`.
 */
module RandomString {
  import opened Text

  /** The alphabet nonces are drawn from: 50 ASCII letters, without 'V' and 'v'. */
  const CHARS: string := "ABCDEFGHIJKLMNOPQRSTUWXYZabcdefghijklmnopqrstuwxyz"

  /** An ASCII letter other than 'V' and 'v'. */
  predicate InAlphabet(c: char)
  {
    (IsAsciiUpper(c) || IsAsciiLower(c)) && c != 'V' && c != 'v'
  }

  lemma CharsAlphabet()
    ensures |CHARS| == 50
    ensures forall i :: 0 <= i < |CHARS| ==> InAlphabet(CHARS[i])
  {
    CapitalHalf();
    SmallHalf();
  }

  /** The first 25 letters: 'A' to 'U', then 'W' to 'Z'. */
  lemma CapitalHalf()
    ensures |CHARS| == 50
    ensures forall i :: 0 <= i < 25 ==> InAlphabet(CHARS[i])
  {
    var capitals := "ABCDEFGHIJKLMNOPQRSTUWXYZ";
    assert CHARS[..25] == capitals;
    assert forall i :: 0 <= i < 21 ==> 'A' <= capitals[i] <= 'U';
    assert forall i :: 21 <= i < 25 ==> 'W' <= capitals[i] <= 'Z';
    forall i | 0 <= i < 25 ensures InAlphabet(CHARS[i]) {
      assert CHARS[i] == capitals[i];
    }
  }

  /** The last 25 letters: 'a' to 'u', then 'w' to 'z'. */
  lemma SmallHalf()
    ensures forall i :: 25 <= i < 50 ==> InAlphabet(CHARS[i])
  {
    assert forall i :: 25 <= i < 46 ==> 'a' <= CHARS[i] <= 'u';
    assert forall i :: 46 <= i < 50 ==> 'w' <= CHARS[i] <= 'z';
  }

  /** `System.Random`, as the sequence of its draws. */
  class Random {
    const draw: nat -> nat
    var calls: nat

    constructor (draw: nat -> nat)
      ensures this.draw == draw && calls == 0
    {
      this.draw := draw;
      calls := 0;
    }

    /** `Next(maxValue)`: the next draw, in `[0, maxValue)`. */
    method Next(maxValue: nat) returns (r: nat)
      requires maxValue > 0
      modifies this
      ensures r < maxValue
      ensures r == draw(old(calls)) % maxValue
      ensures calls == old(calls) + 1
    {
      r := draw(calls) % maxValue;
      calls := calls + 1;
    }
  }

  /** The string that `length` draws, starting with draw number `start`, select from `CHARS`. */
  function RandomText(draw: nat -> nat, start: nat, length: nat): (r: string)
    ensures |r| == length
    ensures forall i :: 0 <= i < length ==> r[i] in CHARS
  {
    seq(length, i requires 0 <= i < length => CHARS[draw(start + i) % |CHARS|])
  }

  /** Consecutive calls read consecutive draws: two strings are one longer string, split. */
  lemma RandomTextSplit(draw: nat -> nat, start: nat, m: nat, n: nat)
    ensures RandomText(draw, start, m + n) == RandomText(draw, start, m) + RandomText(draw, start + m, n)
  {
    var whole := RandomText(draw, start, m + n);
    var parts := RandomText(draw, start, m) + RandomText(draw, start + m, n);
    forall i | 0 <= i < m + n ensures whole[i] == parts[i] {
      if i >= m {
        assert parts[i] == RandomText(draw, start + m, n)[i - m];
      }
    }
  }

  /** Every character is a letter other than 'V' and 'v'. */
  lemma RandomTextLetters(draw: nat -> nat, start: nat, length: nat)
    ensures forall i :: 0 <= i < length ==>
      var c := RandomText(draw, start, length)[i];
      (IsAsciiUpper(c) || IsAsciiLower(c)) && c != 'V' && c != 'v'
  {
    CharsAlphabet();
    var r := RandomText(draw, start, length);
    forall i | 0 <= i < length ensures (IsAsciiUpper(r[i]) || IsAsciiLower(r[i])) && r[i] != 'V' && r[i] != 'v' {
      var k := draw(start + i) % |CHARS|;
      assert r[i] == CHARS[k];
      assert InAlphabet(CHARS[k]);
    }
  }

  /** `RandomStringImpl`. */
  class RandomStringImpl {
    const random: Random

    constructor (random: Random)
      ensures this.random == random
    {
      this.random := random;
    }

    /** `NextRandomString(length)`: fills a buffer of `length` characters, one draw each. */
    method NextRandomString(length: nat) returns (r: string)
      modifies random
      ensures r == RandomText(random.draw, old(random.calls), length)
      ensures random.calls == old(random.calls) + length
    {
      var buff := new char[length];
      for i := 0 to length
        invariant random.calls == old(random.calls) + i
        invariant forall j :: 0 <= j < i ==> buff[j] == RandomText(random.draw, old(random.calls), length)[j]
      {
        var k := random.Next(|CHARS|);
        buff[i] := CHARS[k];
      }
      r := buff[..];
    }
  }
}
