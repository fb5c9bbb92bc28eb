/**
 * The secure random helpers of functions/crypto.ts: an unbiased bounded integer
 * drawn by rejection sampling over single random bytes, the 128-character PKCE
 * code verifier built from it, and the "plain" challenge-to-verifier mapping.
 *
 * The platform's `crypto.getRandomValues` is replaced by a finite stream of bytes:
 * every draw consumes bytes from the front of the stream. A draw that runs off
 * the end of the stream yields `None`; the source would keep drawing.
 */
module Crypto {
  import opened Wrappers
  import opened Sequences

  /** One cell of a `Uint8Array`. */
  type Byte = b: int | 0 <= b < 256

  /** `max_range`: the number of distinct byte values. */
  const MaxRange: int := 256

  const Upper: string := "ABCDEFGHIJKLMNOPQRSTUVWXYZ"
  const Lower: string := "abcdefghijklmnopqrstuvwxyz"
  const Digits: string := "0123456789"

  /** `possible`: the alphabet the verifier characters are picked from (62 characters). */
  const Possible: string := Upper + Lower + Digits

  /** The length of every generated verifier. */
  const TokenLength: nat := 128

  /**
   * `Math.floor(max_range / range) * range`: bytes at or above this bound are
   * redrawn. It is the largest multiple of `range` that does not exceed 256.
   */
  function Limit(range: int): (l: int)
    requires range >= 1
    ensures 0 <= l <= MaxRange && MaxRange - l < range
  {
    (MaxRange / range) * range
  }

  /** A drawn byte is kept, rather than redrawn, exactly when it is below the limit. */
  predicate Accepted(b: Byte, range: int)
    requires range >= 1
  {
    b < Limit(range)
  }

  /** How many bytes of the stream, from position `from` on, would be kept by a draw for `range`. */
  function AcceptedFrom(stream: seq<Byte>, from: nat, range: int): nat
    requires range >= 1 && from <= |stream|
    decreases |stream| - from
  {
    if from == |stream| then 0
    else (if Accepted(stream[from], range) then 1 else 0) + AcceptedFrom(stream, from + 1, range)
  }

  /** A drawn integer together with the stream position the next draw starts from. */
  datatype Drawn = Drawn(value: nat, next: nat)

  /**
   * `getRandomInteger(range)`, drawing from position `from` of the stream: take the
   * next byte; if it is not below `Limit(range)`, discard it and draw again (the
   * recursive call), otherwise return it modulo `range`. The result is the first
   * accepted byte reduced modulo `range`; every byte before it was rejected, and
   * exactly one accepted byte is consumed. With no accepted byte left, no value results.
   */
  function GetRandomInteger(stream: seq<Byte>, from: nat, range: int): (r: Option<Drawn>)
    requires range >= 1 && from <= |stream|
    ensures r.None? <==> AcceptedFrom(stream, from, range) == 0
    ensures r.None? <==> forall i :: from <= i < |stream| ==> !Accepted(stream[i], range)
    ensures r.Some? ==>
      && from < r.value.next <= |stream|
      && Accepted(stream[r.value.next - 1], range)
      && r.value.value == stream[r.value.next - 1] % range
      && r.value.value < range
      && (forall i :: from <= i < r.value.next - 1 ==> !Accepted(stream[i], range))
      && AcceptedFrom(stream, r.value.next, range) == AcceptedFrom(stream, from, range) - 1
    decreases |stream| - from
  {
    if from == |stream| then None
    else if stream[from] >= Limit(range) then GetRandomInteger(stream, from + 1, range)
    else Some(Drawn(stream[from] % range, from + 1))
  }

  /** The text drawn so far together with the stream position the next draw starts from. */
  datatype Drawing = Drawing(text: string, next: nat)

  /**
   * The first `n` characters of the verifier loop over `alphabet`: character `i` is
   * `alphabet.charAt(getRandomInteger(range))`, drawn from where character `i - 1` stopped.
   * It succeeds exactly when the stream holds at least `n` accepted bytes, consumes
   * exactly `n` of them, and picks every character among the first `range` of `alphabet`.
   */
  function DrawString(stream: seq<Byte>, n: nat, alphabet: string, range: int): (r: Option<Drawing>)
    requires 1 <= range <= |alphabet|
    ensures r.Some? <==> AcceptedFrom(stream, 0, range) >= n
    ensures r.Some? ==>
      && |r.value.text| == n
      && r.value.next <= |stream|
      && AcceptedFrom(stream, r.value.next, range) == AcceptedFrom(stream, 0, range) - n
      && (forall k :: 0 <= k < n ==> r.value.text[k] in alphabet[..range])
  {
    if n == 0 then Some(Drawing("", 0))
    else
      match DrawString(stream, n - 1, alphabet, range)
      case None => None
      case Some(d) =>
        match GetRandomInteger(stream, d.next, range)
        case None => None
        case Some(x) => Some(Drawing(d.text + [alphabet[x.value]], x.next))
  }

  /** The text of a drawing, if the drawing succeeded. */
  function TextOf(d: Option<Drawing>): Option<string>
  {
    match d
    case None => None
    case Some(x) => Some(x.text)
  }

  /**
   * `generateRandomString()`: 128 times, append `possible.charAt(getRandomInteger(possible.length - 1))`.
   * The bound passed is 61, not 62, so the last character of the alphabet, '9', is never drawn.
   */
  method GenerateRandomString(stream: seq<Byte>) returns (text: Option<string>)
    ensures text == TextOf(DrawString(stream, TokenLength, Possible, |Possible| - 1))
    ensures text.Some? <==> AcceptedFrom(stream, 0, |Possible| - 1) >= TokenLength
    ensures text.Some? ==> |text.value| == TokenLength && '9' !in text.value
  {
    var range := |Possible| - 1;
    assert range == 61;
    var s := "";
    var next: nat := 0;
    var i := 0;
    while i < TokenLength
      invariant 0 <= i <= TokenLength && next <= |stream|
      invariant DrawString(stream, i, Possible, range) == Some(Drawing(s, next))
    {
      var x := GetRandomInteger(stream, next, range);
      if x.None? {
        DrawExhausted(stream, i, TokenLength, Possible, range);
        return None;
      }
      DrawStep(stream, i, Possible, range);
      s := s + [Possible[x.value.value]];
      next := x.value.next;
      i := i + 1;
    }
    NineNeverDrawn(stream);
    text := Some(s);
  }

  /** Character `n + 1` is drawn from where the first `n` stopped. */
  lemma DrawStep(stream: seq<Byte>, n: nat, alphabet: string, range: int)
    requires 1 <= range <= |alphabet|
    requires DrawString(stream, n, alphabet, range).Some?
    requires GetRandomInteger(stream, DrawString(stream, n, alphabet, range).value.next, range).Some?
    ensures
      var d := DrawString(stream, n, alphabet, range).value;
      var x := GetRandomInteger(stream, d.next, range).value;
      DrawString(stream, n + 1, alphabet, range) == Some(Drawing(d.text + [alphabet[x.value]], x.next))
  {
  }

  /** When no accepted byte follows the first `n` characters, no longer drawing succeeds. */
  lemma DrawExhausted(stream: seq<Byte>, n: nat, m: nat, alphabet: string, range: int)
    requires 1 <= range <= |alphabet| && n < m
    requires DrawString(stream, n, alphabet, range).Some?
    requires GetRandomInteger(stream, DrawString(stream, n, alphabet, range).value.next, range).None?
    ensures DrawString(stream, m, alphabet, range).None?
  {
  }

  /**
   * The as-written bound: whatever the random bytes, a verifier drawn with bound
   * `|Possible| - 1` never contains '9', although '9' belongs to the alphabet.
   */
  lemma NineNeverDrawn(stream: seq<Byte>)
    ensures '9' in Possible
    ensures DrawString(stream, TokenLength, Possible, |Possible| - 1).Some? ==>
      '9' !in DrawString(stream, TokenLength, Possible, |Possible| - 1).value.text
  {
    assert '9' !in Upper && '9' !in Lower && '9' !in Digits[..9] && Digits[9] == '9';
    assert Possible[..61] == Upper + Lower + Digits[..9];
  }

  /** The evidently intended generator: the bound is the full alphabet length, 62. */
  function GenerateRandomStringFixed(stream: seq<Byte>): (text: Option<string>)
    ensures text.Some? <==> AcceptedFrom(stream, 0, |Possible|) >= TokenLength
    ensures text.Some? ==> |text.value| == TokenLength && forall c :: c in text.value ==> c in Possible
  {
    TextOf(DrawString(stream, TokenLength, Possible, |Possible|))
  }

  /**
   * Over a stream of copies of the byte `k`, with `k < range`, the first `n` characters
   * drawn are `n` copies of `alphabet[k]`.
   */
  lemma {:induction false} DrawRepeated(k: Byte, m: nat, n: nat, alphabet: string, range: int)
    requires k < range <= |alphabet| && range <= MaxRange && n <= m
    ensures DrawString(Repeat(k, m), n, alphabet, range) == Some(Drawing(Repeat(alphabet[k], n), n))
  {
    if n > 0 {
      DrawRepeated(k, m, n - 1, alphabet, range);
      DrawRepeatedStep(k, m, n, alphabet, range);
    }
  }

  /** The step of `DrawRepeated`: one more copy of `alphabet[k]`, from one more byte. */
  lemma DrawRepeatedStep(k: Byte, m: nat, n: nat, alphabet: string, range: int)
    requires k < range <= |alphabet| && range <= MaxRange && 0 < n <= m
    requires DrawString(Repeat(k, m), n - 1, alphabet, range) == Some(Drawing(Repeat(alphabet[k], n - 1), n - 1))
    ensures DrawString(Repeat(k, m), n, alphabet, range) == Some(Drawing(Repeat(alphabet[k], n), n))
  {
    DrawRepeatedByte(k, m, n - 1, range);
    DrawStepAt(Repeat(k, m), n - 1, alphabet, range, Repeat(alphabet[k], n - 1), n - 1, k, n);
  }

  /** Over a stream of copies of a byte `k < range`, a draw takes the next byte, which is its own residue. */
  lemma DrawRepeatedByte(k: Byte, m: nat, from: nat, range: int)
    requires k < range <= MaxRange && from < m
    ensures GetRandomInteger(Repeat(k, m), from, range) == Some(Drawn(k, from + 1))
  {
    assert Limit(range) >= range by {
      assert MaxRange / range >= 1;
    }
    DivModOfShift(0, k, range);
    assert Repeat(k, m)[from] == k;
  }

  /** `DrawStep` for known values of the first `n` characters and of the next draw. */
  lemma DrawStepAt(stream: seq<Byte>, n: nat, alphabet: string, range: int, text: string, next: nat, v: nat, after: nat)
    requires 1 <= range <= |alphabet|
    requires DrawString(stream, n, alphabet, range) == Some(Drawing(text, next))
    requires next <= |stream| && GetRandomInteger(stream, next, range) == Some(Drawn(v, after))
    ensures v < |alphabet|
    ensures DrawString(stream, n + 1, alphabet, range) == Some(Drawing(text + [alphabet[v]], after))
  {
  }

  /** With the corrected bound, every character of the alphabet can occur in a verifier. */
  lemma FixedDrawsEveryCharacter(c: char)
    requires c in Possible
    ensures exists stream: seq<Byte> ::
      GenerateRandomStringFixed(stream).Some? && c in GenerateRandomStringFixed(stream).value
  {
    var k: Byte :| 0 <= k < |Possible| && Possible[k] == c;
    DrawRepeated(k, TokenLength, TokenLength, Possible, |Possible|);
    var stream := Repeat(k, TokenLength);
    assert Repeat(Possible[k], TokenLength)[0] == c;
    assert GenerateRandomStringFixed(stream).Some? && c in GenerateRandomStringFixed(stream).value;
  }

  /**
   * `generateCodeVerifier`: with the "plain" method of section 4.2 of RFC 7636
   * the verifier is the challenge itself.
   */
  function GenerateCodeVerifier(challenge: string): (verifier: string)
    ensures verifier == challenge
  {
    challenge
  }

  /** The residues `v, v + range, ..., v + (n - 1) * range`. */
  function Residues(range: int, v: int, n: nat): set<int>
  {
    if n == 0 then {} else Residues(range, v, n - 1) + {(n - 1) * range + v}
  }

  /** Euclidean division of `q * range + r` with `0 <= r < range` gives quotient `q`, remainder `r`. */
  lemma DivModOfShift(q: int, r: int, range: int)
    requires range >= 1 && 0 <= r < range
    ensures (q * range + r) % range == r && (q * range + r) / range == q
  {
    var x := q * range + r;
    var k := x / range - q;
    assert x == range * (x / range) + x % range;
    assert range * k == r - x % range;
  }

  /** Below `(q + 1) * range`, a number with remainder `v` is below `q * range` or is `q * range + v`. */
  lemma LastBlock(q: int, x: int, v: int, range: int)
    requires range >= 1 && 0 <= v < range
    requires x < q * range + range && x % range == v
    ensures x < q * range || x == q * range + v
  {
    if x >= q * range {
      DivModOfShift(q, x - q * range, range);
    }
  }

  /** Every member of `Residues(range, v, n)` is below `n * range` and has remainder `v`. */
  lemma {:induction false} ResiduesSound(range: int, v: int, n: nat)
    requires range >= 1 && 0 <= v < range
    ensures forall x :: x in Residues(range, v, n) ==> 0 <= x < n * range && x % range == v
  {
    if n > 0 {
      ResiduesSound(range, v, n - 1);
      DivModOfShift(n - 1, v, range);
      assert n * range == (n - 1) * range + range;
      assert (n - 1) * range >= 0;
    }
  }

  /** Every number below `n * range` with remainder `v` is a member of `Residues(range, v, n)`. */
  lemma {:induction false} ResiduesComplete(range: int, v: int, n: nat)
    requires range >= 1 && 0 <= v < range
    ensures forall x :: 0 <= x < n * range && x % range == v ==> x in Residues(range, v, n)
  {
    if n > 0 {
      ResiduesComplete(range, v, n - 1);
      assert n * range == (n - 1) * range + range;
      forall x | 0 <= x < n * range && x % range == v
        ensures x in Residues(range, v, n)
      {
        LastBlock(n - 1, x, v, range);
      }
    }
  }

  /** `Residues(range, v, n)` has exactly `n` members. */
  lemma {:induction false} ResiduesCount(range: int, v: int, n: nat)
    requires range >= 1 && 0 <= v < range
    ensures |Residues(range, v, n)| == n
  {
    if n > 0 {
      ResiduesCount(range, v, n - 1);
      ResiduesSound(range, v, n - 1);
      assert (n - 1) * range + v !in Residues(range, v, n - 1);
    }
  }

  /**
   * No modulo bias: for `1 <= range <= 256`, every residue below `range` is the image
   * of exactly `floor(256 / range)` accepted bytes, so an accepted byte is uniform
   * over `[0, range)` when the bytes are.
   */
  lemma NoModuloBias(range: int, v: int)
    requires 1 <= range <= MaxRange && 0 <= v < range
    ensures |set b: int | 0 <= b < MaxRange && b < Limit(range) && b % range == v| == MaxRange / range
  {
    var q := MaxRange / range;
    var accepted := set b: int | 0 <= b < MaxRange && b < Limit(range) && b % range == v;
    var residues := Residues(range, v, q);
    assert Limit(range) == q * range <= MaxRange;
    ResiduesSound(range, v, q);
    ResiduesComplete(range, v, q);
    ResiduesCount(range, v, q);
    forall x | x in residues ensures x in accepted {}
    forall x | x in accepted ensures x in residues {}
    assert accepted == residues;
  }
}
