/**
 Economic ledger cuts: entries of debit and credit lines over several assets.  The validator
 keeps one pair of running decimal texts per asset; the lemmas say which sums they denote.
 */
module Ledger {
  import opened Text
  import opened Decimal

  datatype Line = Line(account: string, side: string, assetProfile: string, assetInstance: string, amount: string)

  datatype SourceRef = SourceRef(networkId: string, actorAgentId: string, operationId: string, envelopeDigest: string)

  datatype Entry = Entry(
    entryId: string, bookId: string, entityId: string, policyDigest: string, basis: string, effectiveAt: nat,
    postingAt: nat, groupId: string, reversesEntryId: string, source: SourceRef, lines: seq<Line>)

  predicate ValidHeader(e: Entry) {
    && IsDigest32(e.entryId) && Token(e.bookId, 256) && Token(e.entityId, 256) && IsDigest32(e.policyDigest)
    && CanonicalLowerToken(e.basis) && e.effectiveAt != 0 && e.postingAt >= e.effectiveAt
    && IsDigest32(e.groupId) && IsDigest32(e.reversesEntryId) && 2 <= |e.lines| <= 64
    && Token(e.source.networkId, 256) && Token(e.source.actorAgentId, 256) && Token(e.source.operationId, 256)
    && IsDigest32(e.source.envelopeDigest)
  }

  predicate ValidLine(line: Line) {
    && CanonicalLowerToken(line.account) && (line.side == "debit" || line.side == "credit")
    && Token(line.assetProfile, 256) && Token(line.assetInstance, 256)
    && CanonicalUnsigned(line.amount) && line.amount != "0"
  }

  predicate ValidLines(lines: seq<Line>) { forall i | 0 <= i < |lines| :: ValidLine(lines[i]) }

  function Key(profile: string, instance: string): string { profile + "\0" + instance }

  /** `addCanonicalUnsigned`: empty reads as zero, and unreadable operands give the empty text. */
  function AddText(left: string, right: string): string {
    var a := ParseInt(if left == "" then "0" else left);
    var b := ParseInt(if right == "" then "0" else right);
    if a.None? || b.None? then "" else IntText(a.value + b.value)
  }

  // ---------- the independent reading: sums of integers per asset ----------

  function Units(line: Line): nat { if AllDigits(line.amount) then Number(line.amount) else 0 }

  /** The sum on one side over the lines of one asset. */
  function SideSum(lines: seq<Line>, side: string, profile: string, instance: string): nat {
    if lines == [] then 0
    else
      var line := lines[|lines| - 1];
      SideSum(lines[..|lines| - 1], side, profile, instance)
      + (if line.side == side && line.assetProfile == profile && line.assetInstance == instance then Units(line) else 0)
  }

  ghost predicate Balanced(lines: seq<Line>) {
    forall profile, instance ::
      SideSum(lines, "debit", profile, instance) == SideSum(lines, "credit", profile, instance)
  }

  ghost predicate ValidEntry(e: Entry) { ValidHeader(e) && ValidLines(e.lines) && Balanced(e.lines) }

  // ---------- the running texts ----------

  /** How the validator spells a running sum: no text at all until the first posting. */
  function Spelled(n: nat): string { if n == 0 then "" else NatText(n) }

  lemma {:induction false} SpelledInjective(a: nat, b: nat)
    ensures Spelled(a) == Spelled(b) <==> a == b
  {
    NumberOfText(a);
    NumberOfText(b);
  }

  lemma {:induction false} AddSpelled(n: nat, line: Line)
    requires ValidLine(line)
    ensures Units(line) > 0 && AddText(Spelled(n), line.amount) == Spelled(n + Units(line))
  {
    CanonicalIsPlain(line.amount);
    TextOfNumber(line.amount);
    NumberOfText(0);
    NumberOfText(n);
    SingleDigit('0');
  }

  ghost predicate FirstNulAt(k: string, n: nat) {
    n < |k| && k[n] == '\0' && forall x | 0 <= x < n :: k[x] != '\0'
  }

  lemma {:induction false} FirstNul(p: string, i: string)
    requires NoNul(p)
    ensures FirstNulAt(Key(p, i), |p|)
    ensures Key(p, i)[..|p|] == p && Key(p, i)[|p| + 1..] == i
  {
  }

  /** Tokens hold no NUL, so the joined key names one asset. */
  lemma {:induction false} KeyInjective(p: string, i: string, q: string, j: string)
    requires NoNul(p) && NoNul(q) && Key(p, i) == Key(q, j)
    ensures p == q && i == j
  {
    FirstNul(p, i);
    FirstNul(q, j);
  }

  type Balances = map<string, (string, string)>

  function Pair(b: Balances, key: string): (string, string) { if key in b then b[key] else ("", "") }

  /** The running texts of an asset are its two sums. */
  ghost predicate Tracks(b: Balances, lines: seq<Line>, profile: string, instance: string) {
    Pair(b, Key(profile, instance)) ==
      (Spelled(SideSum(lines, "debit", profile, instance)), Spelled(SideSum(lines, "credit", profile, instance)))
  }

  ghost predicate TracksAll(b: Balances, lines: seq<Line>) {
    forall profile, instance | NoNul(profile) :: Tracks(b, lines, profile, instance)
  }

  ghost predicate KeysFromLines(b: Balances, lines: seq<Line>) {
    forall key | key in b :: exists i :: 0 <= i < |lines| && key == Key(lines[i].assetProfile, lines[i].assetInstance)
  }

  function Post(b: Balances, line: Line): Balances {
    var key := Key(line.assetProfile, line.assetInstance);
    var pair := Pair(b, key);
    b[key := if line.side == "debit" then (AddText(pair.0, line.amount), pair.1)
      else (pair.0, AddText(pair.1, line.amount))]
  }

  lemma {:induction false} PostTracks(b: Balances, lines: seq<Line>, line: Line, profile: string, instance: string)
    requires ValidLine(line) && TracksAll(b, lines) && NoNul(profile)
    ensures Tracks(Post(b, line), lines + [line], profile, instance)
  {
    assert (lines + [line])[..|lines|] == lines;
    assert Tracks(b, lines, profile, instance);
    if Key(line.assetProfile, line.assetInstance) == Key(profile, instance) {
      KeyInjective(line.assetProfile, line.assetInstance, profile, instance);
      AddSpelled(SideSum(lines, line.side, profile, instance), line);
    }
  }

  lemma {:induction false} PostTracksAll(b: Balances, lines: seq<Line>, line: Line)
    requires ValidLine(line) && TracksAll(b, lines)
    ensures TracksAll(Post(b, line), lines + [line])
  {
    forall profile, instance | NoNul(profile)
      ensures Tracks(Post(b, line), lines + [line], profile, instance)
    {
      PostTracks(b, lines, line, profile, instance);
    }
  }

  lemma {:induction false} PostKeys(b: Balances, lines: seq<Line>, line: Line)
    requires KeysFromLines(b, lines)
    ensures KeysFromLines(Post(b, line), lines + [line])
  {
    forall key | key in Post(b, line)
      ensures exists i :: 0 <= i < |lines + [line]| &&
                          key == Key((lines + [line])[i].assetProfile, (lines + [line])[i].assetInstance)
    {
      if key in b {
        var i :| 0 <= i < |lines| && key == Key(lines[i].assetProfile, lines[i].assetInstance);
        assert (lines + [line])[i] == lines[i];
      } else {
        assert (lines + [line])[|lines|] == line;
      }
    }
  }

  /** A fold from the left. */
  function Folded<A, B>(post: (B, A) -> B, start: B, xs: seq<A>): B {
    if xs == [] then start else post(Folded(post, start, xs[..|xs| - 1]), xs[|xs| - 1])
  }

  method FoldWhile<A, B>(valid: A -> bool, post: (B, A) -> B, start: B, xs: seq<A>) returns (r: Option<B>)
    ensures r.Some? <==> forall i | 0 <= i < |xs| :: valid(xs[i])
    ensures r.Some? ==> r.value == Folded(post, start, xs)
  {
    var b := start;
    for i := 0 to |xs|
      invariant forall k | 0 <= k < i :: valid(xs[k])
      invariant b == Folded(post, start, xs[..i])
    {
      if !valid(xs[i]) {
        return None;
      }
      assert xs[..i + 1][..i] == xs[..i];
      b := post(b, xs[i]);
    }
    assert xs[..|xs|] == xs;
    return Some(b);
  }

  /** The running texts after some lines. */
  function PostAll(lines: seq<Line>): Balances { Folded(Post, map[], lines) }

  lemma {:induction false} PostAllTracks(lines: seq<Line>)
    requires ValidLines(lines)
    ensures TracksAll(PostAll(lines), lines)
  {
    if lines != [] {
      var init := lines[..|lines| - 1];
      PostAllTracks(init);
      PostTracksAll(PostAll(init), init, lines[|lines| - 1]);
      assert lines == init + [lines[|lines| - 1]];
    }
  }

  lemma {:induction false} PostAllKeys(lines: seq<Line>)
    ensures KeysFromLines(PostAll(lines), lines)
  {
    if lines != [] {
      var init := lines[..|lines| - 1];
      PostAllKeys(init);
      PostKeys(PostAll(init), init, lines[|lines| - 1]);
      assert lines == init + [lines[|lines| - 1]];
    }
  }

  /** The loop over lines: None at the first invalid one, otherwise running texts that spell the sums. */
  method PostLines(lines: seq<Line>) returns (b: Option<Balances>)
    ensures b.Some? <==> ValidLines(lines)
    ensures b.Some? ==> TracksAll(b.value, lines) && KeysFromLines(b.value, lines)
  {
    b := FoldWhile(ValidLine, Post, map[], lines);
    if b.Some? {
      PostAllTracks(lines);
      PostAllKeys(lines);
    }
  }

  /** The loop over the running texts, in whatever order the map yields them. */
  method AllEven(b: Balances) returns (ok: bool)
    ensures ok <==> forall key | key in b :: b[key].0 == b[key].1
  {
    var keys := b.Keys;
    while keys != {}
      invariant keys <= b.Keys
      invariant forall key | key in b && key !in keys :: b[key].0 == b[key].1
      decreases |keys|
    {
      var key :| key in keys;
      if b[key].0 != b[key].1 {
        return false;
      }
      keys := keys - {key};
    }
    return true;
  }

  lemma {:induction false} UnmentionedAsset(lines: seq<Line>, side: string, profile: string, instance: string)
    requires forall i | 0 <= i < |lines| :: lines[i].assetProfile != profile || lines[i].assetInstance != instance
    ensures SideSum(lines, side, profile, instance) == 0
  {
    if lines != [] {
      UnmentionedAsset(lines[..|lines| - 1], side, profile, instance);
    }
  }

  /** Comparing the texts pair by pair is exactly comparing the sums asset by asset. */
  lemma {:induction false} EvenIffBalanced(b: Balances, lines: seq<Line>)
    requires ValidLines(lines) && TracksAll(b, lines) && KeysFromLines(b, lines)
    ensures (forall key | key in b :: b[key].0 == b[key].1) <==> Balanced(lines)
  {
    if forall key | key in b :: b[key].0 == b[key].1 {
      forall profile, instance
        ensures SideSum(lines, "debit", profile, instance) == SideSum(lines, "credit", profile, instance)
      {
        EvenAsset(b, lines, profile, instance);
      }
    }
    if Balanced(lines) {
      forall key | key in b
        ensures b[key].0 == b[key].1
      {
        var i :| 0 <= i < |lines| && key == Key(lines[i].assetProfile, lines[i].assetInstance);
        assert ValidLine(lines[i]);
        assert Tracks(b, lines, lines[i].assetProfile, lines[i].assetInstance);
      }
    }
  }

  lemma {:induction false} EvenAsset(b: Balances, lines: seq<Line>, profile: string, instance: string)
    requires ValidLines(lines) && TracksAll(b, lines)
    requires forall key | key in b :: b[key].0 == b[key].1
    ensures SideSum(lines, "debit", profile, instance) == SideSum(lines, "credit", profile, instance)
  {
    if i :| 0 <= i < |lines| && lines[i].assetProfile == profile && lines[i].assetInstance == instance {
      assert ValidLine(lines[i]);
      assert Tracks(b, lines, profile, instance);
      SpelledInjective(SideSum(lines, "debit", profile, instance), SideSum(lines, "credit", profile, instance));
    } else {
      UnmentionedAsset(lines, "debit", profile, instance);
      UnmentionedAsset(lines, "credit", profile, instance);
    }
  }

  /** One entry: accepted exactly when well-formed and balanced in every asset. */
  method ValidateEntry(e: Entry) returns (ok: bool)
    ensures ok <==> ValidEntry(e)
  {
    if !ValidHeader(e) {
      return false;
    }
    var b := PostLines(e.lines);
    if b.None? {
      return false;
    }
    EvenIffBalanced(b.value, e.lines);
    ok := AllEven(b.value);
  }

  // ---------- the whole cut ----------

  type Encoder = Entry -> Result<string>

  predicate Follows(encode: Encoder, a: Entry, b: Entry) {
    encode(a).Ok? && encode(b).Ok? && Less(encode(a).value, encode(b).value)
  }

  ghost predicate Ordered(encode: Encoder, entries: seq<Entry>) {
    forall i | 0 < i < |entries| :: Follows(encode, entries[i - 1], entries[i])
  }

  ghost predicate ValidCut(encode: Encoder, entries: seq<Entry>) {
    && |entries| <= 256
    && (forall i | 0 <= i < |entries| :: Accepted(encode, entries[i]))
    && Ordered(encode, entries)
  }

  /** One turn of the loop: the entry's encoding if it is valid and comes after the previous one. */
  method NextEncoding(encode: Encoder, previous: Option<string>, e: Entry) returns (r: Option<string>)
    ensures r.Some? <==> Continues(encode, previous, e)
    ensures r.Some? ==> encode(e) == Ok(r.value)
  {
    var valid := ValidateEntry(e);
    if !valid {
      return None;
    }
    var canonical := encode(e);
    if canonical.Err? || (previous.Some? && !Less(previous.value, canonical.value)) {
      return None;
    }
    return Some(canonical.value);
  }

  ghost predicate Accepted(encode: Encoder, e: Entry) { ValidEntry(e) && encode(e).Ok? }

  /** The elements before position k pass, each one after the one before it. */
  ghost predicate PassUpTo<T>(accepted: T -> bool, follows: (T, T) -> bool, xs: seq<T>, k: nat)
    requires k <= |xs|
  {
    k == 0 || (PassUpTo(accepted, follows, xs, k - 1) && accepted(xs[k - 1])
               && (k == 1 || follows(xs[k - 2], xs[k - 1])))
  }

  lemma {:induction false} PassStops<T>(accepted: T -> bool, follows: (T, T) -> bool, xs: seq<T>, k: nat, n: nat)
    requires k <= n <= |xs| && PassUpTo(accepted, follows, xs, n)
    ensures PassUpTo(accepted, follows, xs, k)
    decreases n
  {
    if k < n { PassStops(accepted, follows, xs, k, n - 1); }
  }

  lemma {:induction false} PassExact<T>(accepted: T -> bool, follows: (T, T) -> bool, xs: seq<T>, k: nat)
    requires k <= |xs|
    ensures PassUpTo(accepted, follows, xs, k) <==>
            (forall i | 0 <= i < k :: accepted(xs[i])) && forall i | 0 < i < k :: follows(xs[i - 1], xs[i])
  {
    if k > 0 { PassExact(accepted, follows, xs, k - 1); }
  }

  ghost function Accepting(encode: Encoder): Entry -> bool { (e: Entry) => Accepted(encode, e) }

  ghost function Following(encode: Encoder): (Entry, Entry) -> bool { (a: Entry, b: Entry) => Follows(encode, a, b) }

  ghost predicate CutUpTo(encode: Encoder, entries: seq<Entry>, k: nat)
    requires k <= |entries|
  {
    PassUpTo(Accepting(encode), Following(encode), entries, k)
  }

  ghost predicate Predecessor(encode: Encoder, entries: seq<Entry>, k: nat, previous: Option<string>)
    requires k <= |entries|
  {
    if k == 0 then previous == None else previous.Some? && encode(entries[k - 1]) == Ok(previous.value)
  }

  /** The loop of `validateCanonicalOutcomeSlice`. */
  method AllFollow(encode: Encoder, entries: seq<Entry>) returns (ok: bool)
    ensures ok <==> CutUpTo(encode, entries, |entries|)
  {
    var previous: Option<string> := None;
    for k := 0 to |entries|
      invariant CutUpTo(encode, entries, k) && Predecessor(encode, entries, k, previous)
    {
      var next := NextEncoding(encode, previous, entries[k]);
      CutStep(encode, entries, k, previous);
      if next.None? {
        if CutUpTo(encode, entries, |entries|) {
          PassStops(Accepting(encode), Following(encode), entries, k + 1, |entries|);
        }
        return false;
      }
      previous := next;
    }
    return true;
  }

  ghost predicate Continues(encode: Encoder, previous: Option<string>, e: Entry) {
    Accepted(encode, e) && (previous.Some? ==> Less(previous.value, encode(e).value))
  }

  lemma {:induction false} CutStep(encode: Encoder, entries: seq<Entry>, k: nat, previous: Option<string>)
    requires k < |entries| && CutUpTo(encode, entries, k) && Predecessor(encode, entries, k, previous)
    ensures CutUpTo(encode, entries, k + 1) <==> Continues(encode, previous, entries[k])
  {
    assert Accepting(encode)(entries[k]) == Accepted(encode, entries[k]);
    if k > 0 {
      assert Following(encode)(entries[k - 1], entries[k]) == Follows(encode, entries[k - 1], entries[k]);
    }
  }

  /** `ValidateEconomicLedgerEntriesV1`, with the strictly increasing encodings of `validateCanonicalOutcomeSlice`. */
  method ValidateEconomicLedgerEntries(encode: Encoder, entries: seq<Entry>) returns (ok: bool)
    ensures ok <==> ValidCut(encode, entries)
  {
    if |entries| > 256 {
      return false;
    }
    CutExact(encode, entries);
    ok := AllFollow(encode, entries);
  }

  lemma {:induction false} CutExact(encode: Encoder, entries: seq<Entry>)
    requires |entries| <= 256
    ensures CutUpTo(encode, entries, |entries|) <==> ValidCut(encode, entries)
  {
    PassExact(Accepting(encode), Following(encode), entries, |entries|);
  }

  function AllLines(entries: seq<Entry>): seq<Line> {
    if entries == [] then [] else AllLines(entries[..|entries| - 1]) + entries[|entries| - 1].lines
  }

  lemma {:induction false} SideSumConcat(a: seq<Line>, b: seq<Line>, side: string, profile: string, instance: string)
    ensures SideSum(a + b, side, profile, instance)
         == SideSum(a, side, profile, instance) + SideSum(b, side, profile, instance)
  {
    if b == [] {
      assert a + b == a;
    } else {
      assert (a + b)[..|a + b| - 1] == a + b[..|b| - 1];
      SideSumConcat(a, b[..|b| - 1], side, profile, instance);
    }
  }

  /** Double entry over any collection of accepted entries: every asset's debits equal its credits. */
  lemma {:induction false} LedgerConserves(entries: seq<Entry>)
    requires forall i | 0 <= i < |entries| :: ValidEntry(entries[i])
    ensures Balanced(AllLines(entries))
  {
    if entries != [] {
      var init, last := entries[..|entries| - 1], entries[|entries| - 1].lines;
      LedgerConserves(init);
      assert Balanced(last);
      forall profile, instance
        ensures SideSum(AllLines(entries), "debit", profile, instance)
            == SideSum(AllLines(entries), "credit", profile, instance)
      {
        SideSumConcat(AllLines(init), last, "debit", profile, instance);
        SideSumConcat(AllLines(init), last, "credit", profile, instance);
      }
    }
  }

  lemma {:induction false} CutIncreasing(encode: Encoder, entries: seq<Entry>, i: nat, j: nat)
    requires Ordered(encode, entries) && i < j < |entries|
    ensures Follows(encode, entries[i], entries[j])
    decreases j
  {
    assert Follows(encode, entries[j - 1], entries[j]);
    if i < j - 1 {
      CutIncreasing(encode, entries, i, j - 1);
      LessTransitive(encode(entries[i]).value, encode(entries[j - 1]).value, encode(entries[j]).value);
    }
  }

  /** No entry is posted twice in one cut. */
  lemma {:induction false} CutDistinct(encode: Encoder, entries: seq<Entry>)
    requires Ordered(encode, entries)
    ensures Distinct(entries)
  {
    forall i, j | 0 <= i < j < |entries|
      ensures entries[i] != entries[j]
    {
      CutIncreasing(encode, entries, i, j);
      CompareZero(encode(entries[i]).value, encode(entries[j]).value);
    }
  }

  /** A set of entries has one accepted order: two accepted cuts of the same entries are the same cut. */
  lemma {:induction false} CutUnique(encode: Encoder, a: seq<Entry>, b: seq<Entry>)
    requires Ordered(encode, a) && Ordered(encode, b) && multiset(a) == multiset(b)
    ensures a == b
    decreases |a|
  {
    if a == [] {
      assert |multiset(b)| == 0;
    } else {
      assert |multiset(a)| == |a| && |multiset(b)| == |b|;
      CutHead(encode, a, b);
      TailMultiset(a);
      TailMultiset(b);
      CutTail(encode, a);
      CutTail(encode, b);
      CutUnique(encode, a[1..], b[1..]);
    }
  }

  lemma {:induction false} TailMultiset(a: seq<Entry>)
    requires a != []
    ensures a == [a[0]] + a[1..] && multiset(a[1..]) == multiset(a) - multiset{a[0]}
  {
    assert a == [a[0]] + a[1..];
  }

  lemma {:induction false} CutTail(encode: Encoder, a: seq<Entry>)
    requires Ordered(encode, a) && a != []
    ensures Ordered(encode, a[1..])
  {
    forall i | 0 < i < |a[1..]|
      ensures Follows(encode, a[1..][i - 1], a[1..][i])
    {
      assert Follows(encode, a[i], a[i + 1]);
    }
  }

  lemma {:induction false} CutHead(encode: Encoder, a: seq<Entry>, b: seq<Entry>)
    requires Ordered(encode, a) && Ordered(encode, b) && multiset(a) == multiset(b) && a != [] && b != []
    ensures a[0] == b[0]
  {
    assert a[0] in multiset(b) && b[0] in multiset(a);
    var j :| 0 <= j < |b| && b[j] == a[0];
    var i :| 0 <= i < |a| && a[i] == b[0];
    if i > 0 && j > 0 {
      CutIncreasing(encode, a, 0, i);
      CutIncreasing(encode, b, 0, j);
      CompareFlip(encode(a[0]).value, encode(b[0]).value);
      assert false;
    }
  }
}
