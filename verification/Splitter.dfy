/** `splitWithWrap`: cuts a text into wrapped chunks of at most `maxLen` runes, preferring
    to cut behind a separator.  A string is a sequence of runes. */
module Splitter {

  predicate IsSeparator(r: char) {
    r == ' ' || r == '\U{3001}' || r == '\U{FF0C}' || r == '\U{3002}'
  }

  function Flatten(pieces: seq<string>): string {
    if pieces == [] then "" else pieces[0] + Flatten(pieces[1..])
  }

  function WrapAll(pieces: seq<string>, prefix: string, suffix: string): seq<string> {
    seq(|pieces|, k requires 0 <= k < |pieces| => prefix + pieces[k] + suffix)
  }

  /** The scan of one window of `c` runes, from position `j` down to the middle. */
  function ScanBack(rest: string, c: nat, j: int): nat
    requires 0 < c < |rest| && j < c
    decreases j
  {
    if j <= c / 2 then c else if IsSeparator(rest[j]) then j + 1 else ScanBack(rest, c, j - 1)
  }

  function Pieces(rest: string, c: nat): (pieces: seq<string>)
    requires 0 < c && rest != []
    ensures forall k :: 0 <= k < |pieces| ==> 0 < |pieces[k]| <= c
    decreases |rest|
  {
    if |rest| <= c then [rest]
    else
      ScanBackGood(rest, c, c - 1);
      var cut := ScanBack(rest, c, c - 1);
      [rest[..cut]] + Pieces(rest[cut..], c)
  }

  /** What `splitWithWrap` returns. */
  function Chunks(text: string, prefix: string, suffix: string, maxLen: int): seq<string> {
    var c := maxLen - |prefix| - |suffix|;
    if !Splits(text, prefix, suffix, maxLen) then [prefix + text + suffix]
    else WrapAll(Pieces(text, c), prefix, suffix)
  }

  predicate Splits(text: string, prefix: string, suffix: string, maxLen: int) {
    0 < maxLen < |prefix + text + suffix| && maxLen > |prefix| + |suffix|
  }

  // ---- What a correct cut is, without reference to the scan ------------------------------

  /** A first piece of `len` runes of a longer text is cut greedily: it ends behind the last
      separator of the second half of its window, or fills the window when that half has none. */
  ghost predicate GoodCut(rest: string, c: nat, len: nat)
    requires 0 < c < |rest|
  {
    || (c / 2 < len - 1 < c && IsSeparator(rest[len - 1]) && forall j :: len <= j < c ==> !IsSeparator(rest[j]))
    || (len == c && forall j :: c / 2 < j < c ==> !IsSeparator(rest[j]))
  }

  ghost predicate Greedy(pieces: seq<string>, c: nat)
    requires 0 < c
  {
    && pieces != []
    && 0 < |pieces[|pieces| - 1]| <= c
    && forall k :: 0 <= k < |pieces| - 1 ==>
         |Flatten(pieces[k..])| > c && GoodCut(Flatten(pieces[k..]), c, |pieces[k]|)
  }

  lemma {:induction false} ScanBackGood(rest: string, c: nat, j: int)
    requires 0 < c < |rest| && j < c && c / 2 <= j
    requires forall k :: j < k < c ==> !IsSeparator(rest[k])
    ensures GoodCut(rest, c, ScanBack(rest, c, j))
    decreases j
  {
    if c / 2 < j && !IsSeparator(rest[j]) {
      ScanBackGood(rest, c, j - 1);
    }
  }

  /** The cut is greedy at every piece, and the pieces join to the text. */
  lemma {:induction false} PiecesGreedy(rest: string, c: nat)
    requires 0 < c && rest != []
    ensures Flatten(Pieces(rest, c)) == rest && Greedy(Pieces(rest, c), c)
    decreases |rest|
  {
    if |rest| > c {
      ScanBackGood(rest, c, c - 1);
      var cut := ScanBack(rest, c, c - 1);
      PiecesGreedy(rest[cut..], c);
      assert rest == rest[..cut] + rest[cut..];
      GreedyCons(rest[..cut], Pieces(rest[cut..], c), c);
    } else {
      FlattenOne([rest]);
    }
  }

  lemma GreedyCons(piece: string, pieces: seq<string>, c: nat)
    requires 0 < c < |piece + Flatten(pieces)| && Greedy(pieces, c)
    requires GoodCut(piece + Flatten(pieces), c, |piece|)
    ensures Flatten([piece] + pieces) == piece + Flatten(pieces) && Greedy([piece] + pieces, c)
  {
    var all := [piece] + pieces;
    assert all[1..] == pieces && all[0..] == all;
    forall k | 0 <= k < |all| - 1
      ensures |Flatten(all[k..])| > c && GoodCut(Flatten(all[k..]), c, |all[k]|)
    {
      if k > 0 { assert all[k..] == pieces[k - 1..]; }
    }
  }

  /** The greedy cut determines the pieces: the declarative description has one solution. */
  lemma {:induction false} GreedyUnique(a: seq<string>, b: seq<string>, c: nat)
    requires 0 < c && Greedy(a, c) && Greedy(b, c) && Flatten(a) == Flatten(b)
    ensures a == b
    decreases |a|
  {
    GreedyHead(a, c); GreedyHead(b, c);
    if |a| > 1 {
      CutUnique(Flatten(a), c, |a[0]|, |b[0]|);
      assert a[0] == Flatten(a)[..|a[0]|] == Flatten(b)[..|b[0]|] == b[0];
      assert a[1..] == b[1..] by {
        assert Flatten(a[1..]) == Flatten(a)[|a[0]|..] == Flatten(b[1..]);
        GreedyTail(a, c); GreedyTail(b, c);
        GreedyUnique(a[1..], b[1..], c);
      }
      assert a == [a[0]] + a[1..] && b == [b[0]] + b[1..];
    }
  }

  lemma GreedyHead(a: seq<string>, c: nat)
    requires 0 < c && Greedy(a, c)
    ensures |a| == 1 ==> a == [Flatten(a)] && |Flatten(a)| <= c
    ensures |a| > 1 ==> |Flatten(a)| > c && GoodCut(Flatten(a), c, |a[0]|)
  {
    assert a[0..] == a;
    if |a| == 1 { FlattenOne(a); }
  }

  lemma CutUnique(rest: string, c: nat, m: nat, n: nat)
    requires 0 < c < |rest| && GoodCut(rest, c, m) && GoodCut(rest, c, n)
    ensures m == n
  {
  }

  lemma GreedyTail(a: seq<string>, c: nat)
    requires 0 < c && Greedy(a, c) && |a| > 1
    ensures Greedy(a[1..], c)
  {
    forall k | 0 <= k < |a[1..]| - 1
      ensures |Flatten(a[1..][k..])| > c && GoodCut(Flatten(a[1..][k..]), c, |a[1..][k]|)
    {
      assert a[1..][k..] == a[k + 1..];
    }
  }

  lemma FlattenOne(a: seq<string>)
    requires |a| == 1
    ensures Flatten(a) == a[0]
  {
    assert a[0] + Flatten(a[1..]) == a[0];
  }

  // ---- Main results ----------------------------------------------------------------------

  function Unwrap(chunk: string, prefix: string, suffix: string): string
    requires |prefix| + |suffix| <= |chunk|
  {
    chunk[|prefix|..|chunk| - |suffix|]
  }

  /** Each chunk is its content between the prefix and the suffix. */
  ghost predicate Wraps(chunks: seq<string>, contents: seq<string>, prefix: string, suffix: string) {
    && |contents| == |chunks|
    && forall k :: 0 <= k < |chunks| ==>
         && |prefix| + |suffix| <= |chunks[k]|
         && chunks[k] == prefix + contents[k] + suffix
         && contents[k] == Unwrap(chunks[k], prefix, suffix)
  }

  /** Each chunk carries the prefix and the suffix; the contents join to exactly the text, and
      when the text is split they are the greedy pieces. */
  lemma RoundTrip(text: string, prefix: string, suffix: string, maxLen: int)
    returns (contents: seq<string>)
    ensures Wraps(Chunks(text, prefix, suffix, maxLen), contents, prefix, suffix) && Flatten(contents) == text
    ensures Splits(text, prefix, suffix, maxLen) ==> Greedy(contents, maxLen - |prefix| - |suffix|)
  {
    if Splits(text, prefix, suffix, maxLen) {
      contents := Pieces(text, maxLen - |prefix| - |suffix|);
      PiecesGreedy(text, maxLen - |prefix| - |suffix|);
    } else {
      contents := [text];
      FlattenOne(contents);
    }
    UnwrapAll(contents, prefix, suffix);
    assert Chunks(text, prefix, suffix, maxLen) == WrapAll(contents, prefix, suffix);
  }

  /** All pieces but the last carry more than half of the room, and none more than the room. */
  ghost predicate HalfFull(pieces: seq<string>, c: int) {
    && (forall k :: 0 <= k < |pieces| - 1 ==> c < 2 * |pieces[k]|)
    && (forall k :: 0 <= k < |pieces| ==> 0 < |pieces[k]| <= c)
  }

  lemma GreedyHalfFull(pieces: seq<string>, c: nat)
    requires 0 < c && Greedy(pieces, c)
    ensures HalfFull(pieces, c)
  {
    forall k | 0 <= k < |pieces| - 1 ensures c < 2 * |pieces[k]| <= 2 * c {
      assert GoodCut(Flatten(pieces[k..]), c, |pieces[k]|);
    }
  }

  lemma UnwrapAll(contents: seq<string>, prefix: string, suffix: string)
    ensures Wraps(WrapAll(contents, prefix, suffix), contents, prefix, suffix)
  {
  }

  /** Every chunk fits into `maxLen` runes exactly when the wrapped text fits as it is or the
      limit leaves room for content.  When it leaves none, the code sends the text too long. */
  lemma ChunksFit(text: string, prefix: string, suffix: string, maxLen: int)
    requires maxLen > 0
    ensures (forall k :: 0 <= k < |Chunks(text, prefix, suffix, maxLen)| ==>
               |Chunks(text, prefix, suffix, maxLen)[k]| <= maxLen)
        <==> |prefix + text + suffix| <= maxLen || maxLen > |prefix| + |suffix|
  {
    var chunks := Chunks(text, prefix, suffix, maxLen);
    if !Splits(text, prefix, suffix, maxLen) {
      assert chunks[0] == prefix + text + suffix;
    }
  }

  function Ceil(n: nat, c: nat): nat requires c > 0 { (n + c - 1) / c }

  /** A split yields at least two chunks; every chunk but the last carries more than half of
      the room, so the number of chunks is within a factor of two of the least possible. */
  lemma ChunkCount(text: string, prefix: string, suffix: string, maxLen: int)
    requires Splits(text, prefix, suffix, maxLen)
    ensures var c := maxLen - |prefix| - |suffix|;
            var k := |Chunks(text, prefix, suffix, maxLen)|;
            && 2 <= k
            && Ceil(|text|, c) <= k <= 2 * Ceil(|text|, c)
            && (k - 1) * (c + 1) <= 2 * (|text| - 1)
  {
    var c := maxLen - |prefix| - |suffix|;
    PieceBounds(text, c);
    CeilBounds(|text|, c, |Pieces(text, c)|);
  }

  lemma {:induction false} PieceBounds(rest: string, c: nat)
    requires 0 < c && rest != []
    ensures |rest| <= |Pieces(rest, c)| * c
    ensures (|Pieces(rest, c)| - 1) * (c + 1) <= 2 * (|rest| - 1)
    ensures |rest| > c ==> |Pieces(rest, c)| >= 2
    decreases |rest|
  {
    if |rest| > c {
      ScanBackGood(rest, c, c - 1);
      var cut := ScanBack(rest, c, c - 1);
      assert c + 1 <= 2 * cut <= 2 * c;
      PieceBounds(rest[cut..], c);
      OneMore(|Pieces(rest[cut..], c)|, c);
    }
  }

  lemma OneMore(k: int, c: int)
    ensures (k + 1) * c == k * c + c
    ensures k * (c + 1) == (k - 1) * (c + 1) + (c + 1)
  {
  }

  lemma MulMono(a: int, b: int, c: nat)
    requires a <= b
    ensures a * c <= b * c
  {
  }

  lemma TwiceCeil(q: int, c: nat, k: int)
    requires 2 * q <= k - 1
    ensures 2 * (q * c) + 2 * q <= (k - 1) * (c + 1)
  {
    MulMono(2 * q, k - 1, c + 1);
  }

  lemma CeilBounds(n: nat, c: nat, k: nat)
    requires 0 < c && 0 < n <= k * c && (k - 1) * (c + 1) <= 2 * (n - 1)
    ensures Ceil(n, c) <= k <= 2 * Ceil(n, c)
  {
    var q := Ceil(n, c);
    assert q * c <= n + c - 1 < q * c + c by {
      var m := n + c - 1;
      assert m == (m / c) * c + m % c;
    }
    if q > k {
      MulMono(k, q - 1, c);
      OneMore(q - 1, c);
    }
    if k > 2 * q {
      TwiceCeil(q, c, k);
    }
  }

  // ---- The cuts, rune by rune ------------------------------------------------------------

  /** A chunk from `i` on, with room for `c` runes in a text that goes on behind them, ends at `e`: behind a space, an
      ideographic or fullwidth comma or an ideographic full stop, the last of the second half of the window, or at
      the end of a window whose second half has none. */
  ghost predicate CutAt(text: string, i: nat, c: nat, e: nat)
    requires i + c < |text|
  {
    var separators := {' ', '\U{3001}', '\U{FF0C}', '\U{3002}'};
    || (i + c / 2 < e - 1 < i + c && text[e - 1] in separators && forall j :: e <= j < i + c ==> text[j] !in separators)
    || (e == i + c && forall j :: i + c / 2 < j < i + c ==> text[j] !in separators)
  }

  /** The k-th chunk is the stretch of the text between two cuts, wrapped. */
  ghost predicate Stretch(chunks: seq<string>, text: string, prefix: string, suffix: string, cuts: seq<nat>, k: nat)
    requires k < |chunks| && |cuts| == |chunks| + 1
  {
    cuts[k] <= cuts[k + 1] <= |text| && chunks[k] == prefix + text[cuts[k]..cuts[k + 1]] + suffix
  }

  /** All chunks together are the whole of the text from `i` on. */
  ghost predicate Between(chunks: seq<string>, text: string, prefix: string, suffix: string, cuts: seq<nat>, i: nat) {
    && |cuts| == |chunks| + 1 && cuts[0] == i && cuts[|chunks|] == |text|
    && forall k: nat :: k < |chunks| ==> Stretch(chunks, text, prefix, suffix, cuts, k)
  }

  ghost predicate RightCut(text: string, c: nat, cuts: seq<nat>, k: nat)
    requires k + 1 < |cuts|
  {
    cuts[k] + c < |text| && CutAt(text, cuts[k], c, cuts[k + 1])
  }

  /** All cuts are right, and the last stretch is not empty and fits. */
  ghost predicate RightCuts(text: string, c: nat, cuts: seq<nat>) {
    && |cuts| >= 2 && cuts[|cuts| - 1] == |text| && 0 < |text| - cuts[|cuts| - 2] <= c
    && forall k: nat :: k < |cuts| - 2 ==> RightCut(text, c, cuts, k)
  }

  /** What `splitWithWrap` returns, in terms of the runes alone: one chunk when there is no limit, the wrapped text
      fits or there is no room beside prefix and suffix; else the stretches between the right cuts. */
  lemma ChunksExact(text: string, prefix: string, suffix: string, maxLen: int) returns (cuts: seq<nat>)
    ensures Between(Chunks(text, prefix, suffix, maxLen), text, prefix, suffix, cuts, 0)
    ensures maxLen <= 0 || |prefix| + |text| + |suffix| <= maxLen || maxLen <= |prefix| + |suffix| ==> |cuts| == 2
    ensures 0 < maxLen < |prefix| + |text| + |suffix| && |prefix| + |suffix| < maxLen ==>
      RightCuts(text, maxLen - |prefix| - |suffix|, cuts)
  {
    if Splits(text, prefix, suffix, maxLen) {
      var c := maxLen - |prefix| - |suffix|;
      assert text[0..] == text;
      cuts := PieceCuts(text, 0, c);
      WrapStretches(Pieces(text, c), text, prefix, suffix, cuts, 0);
    } else {
      cuts := [0, |text|];
      assert text[0..|text|] == text;
    }
  }

  lemma WrapStretches(pieces: seq<string>, text: string, prefix: string, suffix: string, cuts: seq<nat>, i: nat)
    requires Between(pieces, text, "", "", cuts, i)
    ensures Between(WrapAll(pieces, prefix, suffix), text, prefix, suffix, cuts, i)
  {
    forall k: nat | k < |pieces| ensures Stretch(WrapAll(pieces, prefix, suffix), text, prefix, suffix, cuts, k) {
      assert Stretch(pieces, text, "", "", cuts, k);
      assert "" + text[cuts[k]..cuts[k + 1]] + "" == text[cuts[k]..cuts[k + 1]];
    }
  }

  lemma {:induction false} PieceCuts(text: string, i: nat, c: nat) returns (cuts: seq<nat>)
    requires i < |text| && 0 < c
    ensures Between(Pieces(text[i..], c), text, "", "", cuts, i) && RightCuts(text, c, cuts)
    decreases |text| - i
  {
    var rest := text[i..];
    if |rest| <= c {
      cuts := LastStretch(text, i, c);
    } else {
      var e := FirstCut(text, i, c);
      var others := PieceCuts(text, e, c);
      MoreStretches(text, i, e, Pieces(text[e..], c), others);
      MoreCuts(text, c, i, others);
      cuts := [i] + others;
    }
  }

  lemma LastStretch(text: string, i: nat, c: nat) returns (cuts: seq<nat>)
    requires i < |text| <= i + c
    ensures Between([text[i..]], text, "", "", cuts, i) && RightCuts(text, c, cuts)
  {
    cuts := [i, |text|];
    assert "" + text[i..|text|] + "" == text[i..];
    assert Stretch([text[i..]], text, "", "", cuts, 0);
  }

  lemma FirstCut(text: string, i: nat, c: nat) returns (e: nat)
    requires 0 < c && i + c < |text|
    ensures i < e < |text| && CutAt(text, i, c, e)
    ensures Pieces(text[i..], c) == [text[i..e]] + Pieces(text[e..], c)
  {
    var rest := text[i..];
    ScanBackGood(rest, c, c - 1);
    e := i + ScanBack(rest, c, c - 1);
    CutFromGood(text, i, c, e);
    assert rest[e - i..] == text[e..] && rest[..e - i] == text[i..e];
  }

  lemma MoreStretches(text: string, i: nat, e: nat, pieces: seq<string>, cuts: seq<nat>)
    requires i <= e <= |text| && Between(pieces, text, "", "", cuts, e)
    ensures Between([text[i..e]] + pieces, text, "", "", [i] + cuts, i)
  {
    var all, allCuts := [text[i..e]] + pieces, [i] + cuts;
    forall k: nat | k < |all| ensures Stretch(all, text, "", "", allCuts, k) {
      if k == 0 {
        assert "" + text[i..e] + "" == text[i..e];
      } else {
        assert Stretch(pieces, text, "", "", cuts, k - 1);
      }
    }
  }

  lemma MoreCuts(text: string, c: nat, i: nat, cuts: seq<nat>)
    requires RightCuts(text, c, cuts) && i + c < |text| && CutAt(text, i, c, cuts[0])
    ensures RightCuts(text, c, [i] + cuts)
  {
    var all := [i] + cuts;
    forall k: nat | k < |all| - 2 ensures RightCut(text, c, all, k) {
      if k > 0 {
        assert RightCut(text, c, cuts, k - 1);
      }
    }
  }

  lemma CutFromGood(text: string, i: nat, c: nat, e: nat)
    requires 0 < c && i + c < |text| && i < e && GoodCut(text[i..], c, e - i)
    ensures CutAt(text, i, c, e)
  {
    var separators := {' ', '\U{3001}', '\U{FF0C}', '\U{3002}'};
    assert forall j :: i <= j < |text| ==> text[j] == text[i..][j - i];
    assert forall j :: 0 <= j < |text| ==> (text[j] in separators <==> IsSeparator(text[j]));
  }

  lemma CutsFar(text: string, c: nat, cuts: seq<nat>)
    requires RightCuts(text, c, cuts)
    ensures forall k: nat :: k < |cuts| - 2 ==> cuts[k] + c < |text|
  {
    forall k: nat | k < |cuts| - 2 ensures cuts[k] + c < |text| {
      assert RightCut(text, c, cuts, k);
    }
  }

  /** One text with a rune `r` between its words: it is cut behind `r` exactly when `r` is one of the four. */
  lemma CutsBehindFourRunes(r: char)
    ensures Chunks("hello" + [r] + "big" + [r] + "world", "", "", 9) ==
            if r in {' ', '\U{3001}', '\U{FF0C}', '\U{3002}'} then ["hello" + [r], "big" + [r] + "world"]
            else ["hello" + [r] + "big", [r] + "world"]
  {
    var text := "hello" + [r] + "big" + [r] + "world";
    var chunks := Chunks(text, "", "", 9);
    var cuts := ChunksExact(text, "", "", 9);
    assert RightCut(text, 9, cuts, 0);
    assert text[5] == r && text[6..9] == "big" && text[6] == 'b' && text[7] == 'i' && text[8] == 'g';
    assert cuts[1] == if r in {' ', '\U{3001}', '\U{FF0C}', '\U{3002}'} then 6 else 9;
    CutsFar(text, 9, cuts);
    assert |cuts| == 3;
    assert Stretch(chunks, text, "", "", cuts, 0) && Stretch(chunks, text, "", "", cuts, 1);
    assert "" + text[0..cuts[1]] + "" == text[..cuts[1]] && "" + text[cuts[1]..|text|] + "" == text[cuts[1]..];
    assert chunks == [text[..cuts[1]], text[cuts[1]..]];
    assert text[..6] == "hello" + [r] && text[6..] == "big" + [r] + "world";
    assert text[..9] == "hello" + [r] + "big" && text[9..] == [r] + "world";
  }

  // ---- The code --------------------------------------------------------------------------

  /** The inner loop: where the chunk that starts at `i` ends. */
  method FindBreak(runes: string, i: nat, contentMax: nat) returns (breakAt: nat)
    requires 0 < contentMax && i + contentMax < |runes|
    ensures breakAt == i + ScanBack(runes[i..], contentMax, contentMax - 1)
    ensures i < breakAt <= i + contentMax
  {
    ScanBackGood(runes[i..], contentMax, contentMax - 1);
    breakAt := i + contentMax;
    var j := i + contentMax - 1;
    while j > i + contentMax / 2
      invariant i + contentMax / 2 <= j < i + contentMax && breakAt == i + contentMax
      invariant ScanBack(runes[i..], contentMax, contentMax - 1) == ScanBack(runes[i..], contentMax, j - i)
    {
      if IsSeparator(runes[j]) {
        return j + 1;
      }
      j := j - 1;
    }
  }

  method SplitWithWrap(text: string, prefix: string, suffix: string, maxLen: int)
    returns (chunks: seq<string>)
    ensures chunks == Chunks(text, prefix, suffix, maxLen)
  {
    var wrapped := prefix + text + suffix;
    if maxLen <= 0 || |wrapped| <= maxLen {
      return [wrapped];
    }
    var contentMax := maxLen - |prefix| - |suffix|;
    if contentMax <= 0 {
      return [wrapped];
    }
    chunks := [];
    var i := 0;
    ghost var done: seq<string> := [];
    while i < |text|
      invariant 0 <= i < |text|
      invariant chunks == WrapAll(done, prefix, suffix)
      invariant Pieces(text, contentMax) == done + Pieces(text[i..], contentMax)
      decreases |text| - i
    {
      var end := i + contentMax;
      if end >= |text| {
        WrapOne(done, text[i..], prefix, suffix);
        chunks := chunks + [prefix + text[i..] + suffix];
        done := done + [text[i..]];
        break;
      }
      var breakAt := FindBreak(text, i, contentMax);
      WrapOne(done, text[i..breakAt], prefix, suffix);
      NextPiece(text, i, breakAt, contentMax, done);
      chunks := chunks + [prefix + text[i..breakAt] + suffix];
      done := done + [text[i..breakAt]];
      i := breakAt;
    }
  }

  lemma WrapOne(done: seq<string>, piece: string, prefix: string, suffix: string)
    ensures WrapAll(done + [piece], prefix, suffix) == WrapAll(done, prefix, suffix) + [prefix + piece + suffix]
  {
  }

  lemma NextPiece(text: string, i: nat, breakAt: nat, c: nat, done: seq<string>)
    requires 0 < c && i + c < |text| && i < breakAt <= i + c
    requires breakAt == i + ScanBack(text[i..], c, c - 1)
    ensures done + Pieces(text[i..], c) == done + [text[i..breakAt]] + Pieces(text[breakAt..], c)
  {
    assert text[i..][..breakAt - i] == text[i..breakAt];
    assert text[i..][breakAt - i..] == text[breakAt..];
  }
}
