/**
 Byte strings as the Go code sees them: a Go `string` or `[]byte` is a Dafny
 `string` with one character per byte.  This module holds the byte order, sorting,
 the identifier and digest syntax, and lower-case hexadecimal.
 */
module Text {

  datatype Option<+T> = None | Some(value: T)

  /** A call that returns `(value, nil)` or an error; the error text is not modelled. */
  datatype Result<+T> = Ok(value: T) | Err

  const TWO64: int := 0x1_0000_0000_0000_0000

  // ---------- byte order ----------

  /** `bytes.Compare` and the order of Go strings. */
  function Compare(a: string, b: string): (r: int)
    ensures -1 <= r <= 1
  {
    if a == "" then (if b == "" then 0 else -1)
    else if b == "" then 1
    else if a[0] < b[0] then -1
    else if a[0] > b[0] then 1
    else Compare(a[1..], b[1..])
  }

  predicate Less(a: string, b: string) {
    Compare(a, b) < 0
  }

  lemma {:induction false} CompareZero(a: string, b: string)
    ensures Compare(a, b) == 0 <==> a == b
  {
    if a != "" && b != "" && a[0] == b[0] {
      CompareZero(a[1..], b[1..]);
      assert a == [a[0]] + a[1..] && b == [b[0]] + b[1..];
    }
  }

  lemma {:induction false} CompareFlip(a: string, b: string)
    ensures Compare(b, a) == -Compare(a, b)
  {
    if a != "" && b != "" && a[0] == b[0] {
      CompareFlip(a[1..], b[1..]);
    }
  }

  lemma {:induction false} LessTransitive(a: string, b: string, c: string)
    requires Less(a, b) && Less(b, c)
    ensures Less(a, c)
  {
    if a != "" && a[0] == b[0] && b[0] == c[0] {
      LessTransitive(a[1..], b[1..], c[1..]);
    }
  }

  // ---------- sorting ----------

  /** No element is below its predecessor: `sort.Strings` output. */
  ghost predicate Sorted(s: seq<string>) {
    forall i, j :: 0 <= i < j < |s| ==> !Less(s[j], s[i])
  }

  /** Sorted without repetition, the shape every set-valued field must have. */
  ghost predicate StrictlySorted(s: seq<string>) {
    forall i, j :: 0 <= i < j < |s| ==> Less(s[i], s[j])
  }

  ghost predicate Distinct<T>(s: seq<T>) {
    forall i, j :: 0 <= i < j < |s| ==> s[i] != s[j]
  }

  function Insert(x: string, s: seq<string>): (r: seq<string>)
    ensures multiset(r) == multiset(s) + multiset{x} && |r| == |s| + 1
  {
    if s == [] then [x]
    else if Less(s[0], x) then
      assert s == [s[0]] + s[1..];
      [s[0]] + Insert(x, s[1..])
    else [x] + s
  }

  /** `sort.Strings`. */
  function Sort(s: seq<string>): (r: seq<string>)
    ensures multiset(r) == multiset(s) && |r| == |s|
  {
    if s == [] then []
    else
      assert s == [s[0]] + s[1..];
      Insert(s[0], Sort(s[1..]))
  }

  lemma {:induction false} NotLessTransitive(a: string, b: string, c: string)
    requires !Less(b, a) && !Less(c, b)
    ensures !Less(c, a)
  {
    CompareFlip(a, b);
    CompareFlip(b, c);
    CompareFlip(a, c);
    CompareZero(a, b);
    CompareZero(b, c);
    if Less(a, b) && Less(b, c) {
      LessTransitive(a, b, c);
    }
  }

  lemma {:induction false} InsertSorted(x: string, s: seq<string>)
    requires Sorted(s)
    ensures Sorted(Insert(x, s))
  {
    if s == [] {
    } else if Less(s[0], x) {
      var rest := Insert(x, s[1..]);
      InsertSorted(x, s[1..]);
      forall j | 0 <= j < |rest|
        ensures !Less(rest[j], s[0])
      {
        assert rest[j] in multiset(rest);
        assert rest[j] == x || rest[j] in s[1..];
        CompareFlip(s[0], x);
      }
    } else {
      forall j | 0 <= j < |s|
        ensures !Less(s[j], x)
      {
        CompareFlip(s[0], s[0]);
        NotLessTransitive(x, s[0], s[j]);
      }
    }
  }

  lemma {:induction false} SortSorted(s: seq<string>)
    ensures Sorted(Sort(s))
  {
    if s != [] {
      SortSorted(s[1..]);
      InsertSorted(s[0], Sort(s[1..]));
    }
  }

  /** The first element of a sorted sequence is a lower bound of its contents. */
  lemma {:induction false} SortedHead(a: seq<string>, x: string)
    requires Sorted(a) && x in multiset(a)
    ensures a != [] && !Less(x, a[0])
  {
    var i :| 0 <= i < |a| && a[i] == x;
    CompareZero(x, x);
  }

  /** A sorted arrangement is determined by its contents. */
  lemma {:induction false} SortedUnique(a: seq<string>, b: seq<string>)
    requires Sorted(a) && Sorted(b) && multiset(a) == multiset(b)
    ensures a == b
  {
    if a == [] || b == [] {
      assert |multiset(a)| == |a| && |multiset(b)| == |b|;
    } else {
      assert a[0] in multiset(a) && b[0] in multiset(b);
      SortedHead(a, b[0]);
      SortedHead(b, a[0]);
      CompareFlip(a[0], b[0]);
      CompareZero(a[0], b[0]);
      SortedTail(a);
      SortedTail(b);
      SortedUnique(a[1..], b[1..]);
    }
  }

  lemma {:induction false} SortedTail(a: seq<string>)
    requires a != [] && Sorted(a)
    ensures a == [a[0]] + a[1..] && Sorted(a[1..])
    ensures multiset(a[1..]) == multiset(a) - multiset{a[0]}
  {
    assert a == [a[0]] + a[1..];
  }

  /** Sorting forgets the order in which elements arrived. */
  lemma {:induction false} SortPermutation(a: seq<string>, b: seq<string>)
    requires multiset(a) == multiset(b)
    ensures Sort(a) == Sort(b)
  {
    SortSorted(a);
    SortSorted(b);
    SortedUnique(Sort(a), Sort(b));
  }

  lemma {:induction false} DistinctMultiset<T>(s: seq<T>)
    ensures Distinct(s) <==> forall x | x in multiset(s) :: multiset(s)[x] == 1
  {
    if s != [] {
      var init, last := s[..|s| - 1], s[|s| - 1];
      assert s == init + [last];
      DistinctMultiset(init);
      if Distinct(s) {
        assert last !in init;
        assert forall x | x in multiset(s) :: x != last ==> x in multiset(init);
      }
      if forall x | x in multiset(s) :: multiset(s)[x] == 1 {
        forall x | x in multiset(init)
          ensures multiset(init)[x] == 1
        {
          assert x in multiset(s);
        }
        assert last in multiset(s);
        assert last !in multiset(init);
        forall i, j | 0 <= i < j < |s|
          ensures s[i] != s[j]
        {
          assert s[i] in multiset(init);
        }
      }
    }
  }

  function Without<T>(s: seq<T>, k: nat): seq<T>
    requires k < |s|
  {
    s[..k] + s[k + 1..]
  }

  lemma {:induction false} WithoutMultiset<T>(s: seq<T>, k: nat)
    requires k < |s|
    ensures multiset(Without(s, k)) == multiset(s) - multiset{s[k]}
  {
    assert s == s[..k] + [s[k]] + s[k + 1..];
  }

  ghost predicate NeighboursDiffer(s: seq<string>) {
    forall i | 0 < i < |s| :: s[i - 1] != s[i]
  }

  /** Equal neighbours after sorting are exactly the repetitions. */
  lemma {:induction false} AdjacentDuplicates(s: seq<string>)
    ensures Distinct(s) <==> NeighboursDiffer(Sort(s))
  {
    DistinctMultiset(s);
    DistinctMultiset(Sort(s));
    SortSorted(s);
    SortedNeighbours(Sort(s));
  }

  lemma {:induction false} SortedNeighbours(s: seq<string>)
    requires Sorted(s)
    ensures Distinct(s) <==> NeighboursDiffer(s)
  {
    if NeighboursDiffer(s) {
      forall i | 0 < i < |s|
        ensures Less(s[i - 1], s[i])
      {
        CompareFlip(s[i - 1], s[i]);
        CompareZero(s[i - 1], s[i]);
      }
      NeighboursStrict(s);
    }
  }

  // ---------- identifiers ----------

  predicate Continuation(c: char) {
    0x80 <= c as int < 0xC0
  }

  /** Bytes taken by the well-formed UTF-8 sequence at the front of `s`; 0 when there is none. */
  function RuneWidth(s: string): (w: nat)
    ensures w <= |s| && w <= 4
  {
    if s == "" then 0
    else
      var c := s[0] as int;
      if c < 0x80 then 1
      else if 0xC2 <= c < 0xE0 && |s| >= 2 && Continuation(s[1]) then 2
      else if 0xE0 <= c < 0xF0 && |s| >= 3 && Continuation(s[1]) && Continuation(s[2])
              && (c == 0xE0 ==> s[1] as int >= 0xA0) && (c == 0xED ==> s[1] as int < 0xA0) then 3
      else if 0xF0 <= c < 0xF5 && |s| >= 4 && Continuation(s[1]) && Continuation(s[2]) && Continuation(s[3])
              && (c == 0xF0 ==> s[1] as int >= 0x90) && (c == 0xF4 ==> s[1] as int < 0x90) then 4
      else 0
  }

  /** `utf8.ValidString`. */
  predicate ValidUtf8(s: string)
    decreases |s|
  {
    s == "" || (RuneWidth(s) > 0 && ValidUtf8(s[RuneWidth(s)..]))
  }

  /** The UTF-8 encodings of the runes `strings.TrimSpace` removes. */
  predicate IsSpace(r: string) {
    if |r| == 1 then 9 <= r[0] as int <= 13 || r[0] == ' '
    else if |r| == 2 then r[0] as int == 0xC2 && r[1] as int in {0x85, 0xA0}
    else if |r| == 3 then
      var a, b, c := r[0] as int, r[1] as int, r[2] as int;
      || (a == 0xE1 && b == 0x9A && c == 0x80)
      || (a == 0xE2 && b == 0x80 && (0x80 <= c <= 0x8A || c in {0xA8, 0xA9, 0xAF}))
      || (a == 0xE2 && b == 0x81 && c == 0x9F)
      || (a == 0xE3 && b == 0x80 && c == 0x80)
    else false
  }

  /** `strings.TrimSpace(s) == s`, for well-formed UTF-8. */
  predicate Trimmed(s: string) {
    forall w | 1 <= w <= 3 && w <= |s| :: !IsSpace(s[..w]) && !IsSpace(s[|s| - w..])
  }

  predicate BoundedIdentifier(value: string, maximum: nat) {
    && 1 <= |value| <= maximum
    && ValidUtf8(value)
    && Trimmed(value)
    && forall i | 0 <= i < |value| :: value[i] != '\0' && value[i] != '\r' && value[i] != '\n'
  }

  lemma {:induction false} LetterTrimmed(c: char)
    requires 'a' <= c <= 'z'
    ensures Trimmed([c])
  {
    var s := [c];
    assert !IsSpace(s);
    forall w | 1 <= w <= 3 && w <= |s|
      ensures !IsSpace(s[..w]) && !IsSpace(s[|s| - w..])
    {
      assert s[..w] == s && s[|s| - w..] == s;
    }
  }

  lemma {:induction false} LetterUtf8(c: char)
    requires 'a' <= c <= 'z'
    ensures ValidUtf8([c])
  {
    assert RuneWidth([c]) == 1;
    assert [c][1..] == "";
  }

  /** One letter is an identifier and a token. */
  lemma {:induction false} LetterIdentifies(c: char, maximum: nat)
    requires 'a' <= c <= 'z' && maximum >= 1
    ensures BoundedIdentifier([c], maximum) && Token([c], maximum)
  {
    LetterTrimmed(c);
    LetterUtf8(c);
  }

  /** `operationToken`: non-empty bounded UTF-8 without NUL. */
  predicate Token(value: string, maximum: nat) {
    1 <= |value| <= maximum && ValidUtf8(value) && NoNul(value)
  }

  predicate NoNul(value: string) {
    forall i | 0 <= i < |value| :: value[i] != '\0'
  }

  predicate LowerTokenChar(c: char, first: bool) {
    'a' <= c <= 'z' || (!first && ('0' <= c <= '9' || c == '.' || c == '_' || c == '-'))
  }

  predicate CanonicalLowerToken(value: string) {
    1 <= |value| <= 128 && forall i | 0 <= i < |value| :: LowerTokenChar(value[i], i == 0)
  }

  /** `validateSortedStrings`. */
  predicate SortedIdentifiers(values: seq<string>, maximumItems: nat, maximumBytes: nat) {
    && |values| <= maximumItems
    && (forall i | 0 <= i < |values| :: BoundedIdentifier(values[i], maximumBytes))
    && (forall i | 0 < i < |values| :: Less(values[i - 1], values[i]))
  }

  /** Comparing neighbours is enough: the order is transitive. */
  lemma {:induction false} NeighboursStrict(s: seq<string>)
    requires forall i | 0 < i < |s| :: Less(s[i - 1], s[i])
    ensures StrictlySorted(s) && Distinct(s)
  {
    if |s| > 1 {
      var init := s[..|s| - 1];
      NeighboursStrict(init);
      forall i | 0 <= i < |s| - 1
        ensures Less(s[i], s[|s| - 1])
      {
        if i < |s| - 2 {
          assert init[i] == s[i] && init[|s| - 2] == s[|s| - 2];
          LessTransitive(s[i], s[|s| - 2], s[|s| - 1]);
        }
      }
      forall i, j | 0 <= i < j < |s|
        ensures Less(s[i], s[j])
      {
        if j < |s| - 1 { assert Less(init[i], init[j]); }
      }
    }
    forall i, j | 0 <= i < j < |s|
      ensures s[i] != s[j]
    {
      CompareZero(s[i], s[j]);
    }
  }

  // ---------- hexadecimal and digests ----------

  predicate LowerHex(c: char) {
    '0' <= c <= '9' || 'a' <= c <= 'f'
  }

  predicate IsBytes(s: string) {
    forall i | 0 <= i < |s| :: s[i] as int < 256
  }

  function HexChar(n: nat): (c: char)
    requires n < 16
    ensures LowerHex(c)
  {
    if n < 10 then ('0' as int + n) as char else ('a' as int + n - 10) as char
  }

  /** One hexadecimal digit, either case, as `hex.DecodeString` accepts it. */
  function HexValue(c: char): (r: Option<nat>)
    ensures r.Some? ==> r.value < 16
    ensures LowerHex(c) ==> r.Some? && HexChar(r.value) == c
  {
    if '0' <= c <= '9' then Some(c as int - '0' as int)
    else if 'a' <= c <= 'f' then Some(c as int - 'a' as int + 10)
    else if 'A' <= c <= 'F' then Some(c as int - 'A' as int + 10)
    else None
  }

  /** `hex.EncodeToString`. */
  function HexEncode(s: string): (r: string)
    ensures |r| == 2 * |s|
    ensures forall i | 0 <= i < |r| :: LowerHex(r[i])
  {
    if s == "" then ""
    else [HexChar(s[0] as int / 16 % 16), HexChar(s[0] as int % 16)] + HexEncode(s[1..])
  }

  /** `hex.DecodeString`. */
  function HexDecode(s: string): (r: Option<string>)
    ensures r.Some? ==> 2 * |r.value| == |s| && IsBytes(r.value)
  {
    if s == "" then Some("")
    else if |s| == 1 || HexValue(s[0]).None? || HexValue(s[1]).None? then None
    else
      var rest := HexDecode(s[2..]);
      if rest.None? then None
      else Some([(16 * HexValue(s[0]).value + HexValue(s[1]).value) as char] + rest.value)
  }

  lemma {:induction false} HexByte(v: nat)
    requires v < 256
    ensures HexValue(HexChar(v / 16 % 16)) == Some(v / 16 % 16) && HexValue(HexChar(v % 16)) == Some(v % 16)
    ensures 16 * (v / 16 % 16) + v % 16 == v
  {
  }

  lemma {:induction false} HexRoundTrip(s: string)
    requires IsBytes(s)
    ensures HexDecode(HexEncode(s)) == Some(s)
  {
    if s != "" {
      HexRoundTrip(s[1..]);
      HexByte(s[0] as int);
      var e := HexEncode(s);
      assert e[2..] == HexEncode(s[1..]);
      assert s == [s[0]] + s[1..];
    }
  }

  lemma {:induction false} NibbleSplit(high: nat, low: nat)
    requires high < 16 && low < 16
    ensures (16 * high + low) / 16 % 16 == high && (16 * high + low) % 16 == low
  {
  }

  /** Lower-case hexadecimal has one spelling per byte string. */
  lemma {:induction false} HexCanonical(s: string)
    requires |s| % 2 == 0 && forall i | 0 <= i < |s| :: LowerHex(s[i])
    ensures HexDecode(s).Some? && HexEncode(HexDecode(s).value) == s
  {
    if s != "" {
      var tail := s[2..];
      HexCanonical(tail);
      var d := HexDecode(s).value;
      assert d[1..] == HexDecode(tail).value;
      NibbleSplit(HexValue(s[0]).value, HexValue(s[1]).value);
      assert HexEncode(d) == [s[0], s[1]] + HexEncode(d[1..]);
      assert s == [s[0], s[1]] + tail;
    }
  }

  const SHA_PREFIX := "sha256:"

  /** `canonicalDigestPattern`: "sha256:" and 64 lower-case hexadecimal digits. */
  predicate IsDigest(value: string) {
    |value| == 71 && value[..7] == SHA_PREFIX && forall i | 7 <= i < 71 :: LowerHex(value[i])
  }

  /** A digest of one repeated digit. */
  function UniformDigest(c: char): (s: string)
    requires LowerHex(c)
    ensures IsDigest(s) && s[7] == c
  {
    SHA_PREFIX + seq(64, _ => c)
  }

  /** `digest32`: the same, in either case. */
  predicate IsDigest32(value: string) {
    |value| == 71 && value[..7] == SHA_PREFIX && HexDecode(value[7..]).Some?
  }

  function DigestText(hash: string): (r: string)
    ensures |hash| == 32 ==> IsDigest(r)
  {
    SHA_PREFIX + HexEncode(hash)
  }

  lemma {:induction false} DigestTextInjective(a: string, b: string)
    requires IsBytes(a) && IsBytes(b) && DigestText(a) == DigestText(b)
    ensures a == b
  {
    HexRoundTrip(a);
    HexRoundTrip(b);
    assert DigestText(a)[7..] == HexEncode(a) && DigestText(b)[7..] == HexEncode(b);
  }

  /** The stricter form is an instance of the laxer one. */
  lemma {:induction false} DigestIsDigest32(value: string)
    requires IsDigest(value)
    ensures IsDigest32(value)
  {
    HexCanonical(value[7..]);
  }

  /** `validateSortedDigests`. */
  predicate SortedDigests(values: seq<string>, maximum: nat) {
    && |values| <= maximum
    && (forall i | 0 <= i < |values| :: IsDigest(values[i]))
    && (forall i | 0 < i < |values| :: Less(values[i - 1], values[i]))
  }

  // ---------- hashing ----------

  /** A hash function in the role of SHA-256: 32 bytes out, nothing else assumed. */
  ghost predicate IsHash(h: string -> string) {
    forall m :: |h(m)| == 32 && IsBytes(h(m))
  }

  /** No two of the given messages collide.  The set is always the messages one computation hashes. */
  ghost predicate CollisionFree(h: string -> string, messages: set<string>) {
    forall a, b :: a in messages && b in messages && h(a) == h(b) ==> a == b
  }
}
