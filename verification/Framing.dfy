/**
 Length-framed byte layouts: fixed-width big-endian integers and length-prefixed strings.
 Each frame can be read back off the front of any continuation, which is what makes the
 signed preimages injective.
 */
module Framing {
  import opened Text

  function Pow256(w: nat): (r: nat)
    ensures r >= 1
  {
    if w == 0 then 1 else 256 * Pow256(w - 1)
  }

  /** `binary.BigEndian.PutUint*`: the low `w` bytes of n, most significant first. */
  function BigEndian(w: nat, n: nat): (s: string)
    ensures |s| == w && IsBytes(s)
  {
    if w == 0 then "" else BigEndian(w - 1, n / 256) + [(n % 256) as char]
  }

  /** `binary.BigEndian.Uint*`. */
  function FromBigEndian(s: string): (n: nat)
    requires IsBytes(s)
  {
    if s == "" then 0 else 256 * FromBigEndian(s[..|s| - 1]) + s[|s| - 1] as int
  }

  lemma {:induction false} BigEndianRoundTrip(w: nat, n: nat)
    requires n < Pow256(w)
    ensures FromBigEndian(BigEndian(w, n)) == n
  {
    if w > 0 {
      var s := BigEndian(w, n);
      assert s[..|s| - 1] == BigEndian(w - 1, n / 256);
      BigEndianRoundTrip(w - 1, n / 256);
    }
  }

  lemma {:induction false} FromBigEndianRoundTrip(s: string)
    requires IsBytes(s)
    ensures FromBigEndian(s) < Pow256(|s|) && BigEndian(|s|, FromBigEndian(s)) == s
  {
    if s != "" {
      var init, last := s[..|s| - 1], s[|s| - 1] as int;
      FromBigEndianRoundTrip(init);
      ByteSplit(FromBigEndian(init), last);
      assert s == init + [s[|s| - 1]];
    }
  }

  lemma {:induction false} ByteSplit(high: nat, low: nat)
    requires low < 256
    ensures (256 * high + low) / 256 == high && (256 * high + low) % 256 == low
  {
  }

  lemma {:induction false} Associative(a: string, b: string, c: string)
    ensures (a + b) + c == a + (b + c)
  {
  }

  /** `writeLP16` (w = 2) and `writeLP32` / `writeLP32String` (w = 4). */
  function LengthPrefixed(w: nat, value: string): (s: string)
    ensures |s| == w + |value|
  {
    BigEndian(w, |value|) + value
  }

  /** Consecutive length-prefixed strings. */
  function Frames(w: nat, values: seq<string>): string {
    if values == [] then "" else LengthPrefixed(w, values[0]) + Frames(w, values[1..])
  }

  ghost predicate Framable(w: nat, values: seq<string>) {
    forall i | 0 <= i < |values| :: |values[i]| < Pow256(w)
  }

  // ---------- reading ----------

  /** A field read off the front of some bytes, and what is left of them. */
  datatype Parsed<T> = Got(value: T, rest: string) | Bad

  /** A big-endian integer of w bytes. */
  function ReadInteger(w: nat, s: string): (r: Parsed<nat>)
    ensures r.Got? ==> r.value < Pow256(w)
  {
    if |s| < w || !IsBytes(s[..w]) then Bad
    else
      FromBigEndianRoundTrip(s[..w]);
      Got(FromBigEndian(s[..w]), s[w..])
  }

  lemma {:induction false} IntegerRead(w: nat, n: nat, rest: string)
    requires n < Pow256(w)
    ensures ReadInteger(w, BigEndian(w, n) + rest) == Got(n, rest)
  {
    var s := BigEndian(w, n) + rest;
    assert s[..w] == BigEndian(w, n) && s[w..] == rest;
    BigEndianRoundTrip(w, n);
  }

  /** A number of bytes as they are. */
  function ReadBytes(n: nat, s: string): Parsed<string> {
    if |s| < n then Bad else Got(s[..n], s[n..])
  }

  lemma {:induction false} BytesRead(value: string, rest: string)
    ensures ReadBytes(|value|, value + rest) == Got(value, rest)
  {
    assert (value + rest)[..|value|] == value && (value + rest)[|value|..] == rest;
  }

  /** A text behind its length of w bytes. */
  function ReadText(w: nat, s: string): Parsed<string> {
    var n := ReadInteger(w, s);
    if n.Bad? || n.value > |n.rest| then Bad else Got(n.rest[..n.value], n.rest[n.value..])
  }

  lemma {:induction false} TextRead(w: nat, value: string, rest: string)
    requires |value| < Pow256(w)
    ensures ReadText(w, LengthPrefixed(w, value) + rest) == Got(value, rest)
  {
    Associative(BigEndian(w, |value|), value, rest);
    IntegerRead(w, |value|, value + rest);
    assert (value + rest)[..|value|] == value && (value + rest)[|value|..] == rest;
  }

  /** Some texts, one after another. */
  function ReadTexts(w: nat, count: nat, s: string): (r: Parsed<seq<string>>)
    ensures r.Got? ==> |r.value| == count
  {
    if count == 0 then Got([], s)
    else
      var first := ReadText(w, s);
      if first.Bad? then Bad
      else
        var others := ReadTexts(w, count - 1, first.rest);
        if others.Bad? then Bad else Got([first.value] + others.value, others.rest)
  }

  lemma {:induction false} TextsRead(w: nat, values: seq<string>, rest: string)
    requires Framable(w, values)
    ensures ReadTexts(w, |values|, Frames(w, values) + rest) == Got(values, rest)
  {
    if values == [] {
      assert Frames(w, values) + rest == rest;
    } else {
      Associative(LengthPrefixed(w, values[0]), Frames(w, values[1..]), rest);
      TextRead(w, values[0], Frames(w, values[1..]) + rest);
      TextsRead(w, values[1..], rest);
      assert values == [values[0]] + values[1..];
    }
  }

  lemma {:induction false} PowerOfBytes()
    ensures Pow256(2) == 0x1_0000 && Pow256(4) == 0x1_0000_0000 && Pow256(8) == TWO64
  {
    assert Pow256(3) == 0x100_0000;
    assert Pow256(5) == 0x100_0000_0000;
    assert Pow256(6) == 0x1_0000_0000_0000;
    assert Pow256(7) == 0x100_0000_0000_0000;
  }
}
