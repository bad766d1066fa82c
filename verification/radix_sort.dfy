// Herf's floating-point radix sort (Engine/src/utils/sorting/radixSort.h):
// the order-preserving flip of a float's bits and three stable counting
// passes over the 11-, 11- and 10-bit digits of the flipped word.
//
// A word is the `uint32` bit pattern of a float, held as its value in
// [0, 2^32). The bit operations of the source are written as the arithmetic
// they perform on that value: `f >> 31` is `f / 2^31`, `x & 0x7FF` is
// `x % 2048`, `x >> 11` is `x / 2048`; xor with the sign bit alone adds or
// removes 2^31, and xor with all ones maps `f` to `2^32 - 1 - f`.

module RadixSort {

  /** The bit pattern of a float, as `uint32`. */
  type Word = x: int | 0 <= x < 0x1_0000_0000

  /** `f >> 31` */
  function Sign(f: Word): int {
    f / 0x8000_0000
  }

  /** `f & 0x7FFF_FFFF`: the float's exponent and mantissa. */
  function Magnitude(f: Word): int {
    f % 0x8000_0000
  }

  // ---- The float flip

  /** `FloatFlip` (and `FloatFlipX`, its in-place twin): the mask is all
      ones for a negative float, which complements the word, and just the
      sign bit otherwise, which sets it. */
  function FloatFlip(f: Word): Word {
    if Sign(f) == 1 then 0xFFFF_FFFF - f else f + 0x8000_0000
  }

  /** `IFloatFlip`: the mask is just the sign bit when the sign bit is set,
      which clears it, and all ones otherwise. */
  function IFloatFlip(f: Word): Word {
    if Sign(f) == 1 then f - 0x8000_0000 else 0xFFFF_FFFF - f
  }

  /** `IFloatFlip` undoes `FloatFlip` and the other way round: the flip is a
      bijection on 32-bit words. */
  lemma FlipRoundTrip(x: Word)
    ensures IFloatFlip(FloatFlip(x)) == x
    ensures FloatFlip(IFloatFlip(x)) == x
  {
  }

  /** The order of the floats the words encode, NaNs aside: a negative
      float is below a non-negative one; two non-negative ones compare by
      magnitude, two negative ones by reversed magnitude (so -0 sorts just
      below +0). */
  predicate FloatBitsLess(a: Word, b: Word) {
    if Sign(a) != Sign(b) then Sign(a) == 1
    else if Sign(a) == 0 then Magnitude(a) < Magnitude(b)
    else Magnitude(b) < Magnitude(a)
  }

  /** Unsigned order on flipped words is the order of the floats: this is
      why sorting the flipped words sorts the floats. */
  lemma FlipOrdersFloats(a: Word, b: Word)
    ensures FloatFlip(a) < FloatFlip(b) <==> FloatBitsLess(a, b)
  {
  }

  // ---- Digits

  /** The macros `_0`, `_1`, `_2`: bits 0-10, 11-21 and 22-31. */
  function Digit(x: Word, k: nat): int
    requires k < 3
  {
    if k == 0 then x % 2048 else if k == 1 then x / 2048 % 2048 else x / 0x40_0000
  }

  /** Each digit indexes a 2048-entry histogram; the top one uses half. */
  lemma DigitRange(x: Word, k: nat)
    requires k < 3
    ensures 0 <= Digit(x, k) < 2048 && (k == 2 ==> Digit(x, k) < 1024)
  {
  }

  /** The three digits put back in place give the word. */
  lemma DigitsReassemble(x: Word)
    ensures Digit(x, 2) * 0x40_0000 + Digit(x, 1) * 2048 + Digit(x, 0) == x
  {
  }

  /** The low `j` digits of a word. */
  function Low(x: Word, j: nat): int
    requires j <= 3
  {
    if j == 0 then 0 else if j == 1 then x % 2048 else if j == 2 then x % 0x40_0000 else x
  }

  lemma LowSplit(x: Word, k: nat)
    requires k < 3
    ensures Low(x, k + 1) == Digit(x, k) * (if k == 0 then 1 else if k == 1 then 2048 else 0x40_0000) + Low(x, k)
    ensures 0 <= Low(x, k) < (if k == 0 then 1 else if k == 1 then 2048 else 0x40_0000)
  {
  }

  /** Comparing the low `k + 1` digits is comparing digit `k` first and the
      low `k` digits on a tie. */
  lemma {:induction false} LowStep(x: Word, y: Word, k: nat)
    requires k < 3
    ensures Low(x, k + 1) < Low(y, k + 1) <==>
            Digit(x, k) < Digit(y, k) || (Digit(x, k) == Digit(y, k) && Low(x, k) < Low(y, k))
    ensures Low(x, k + 1) == Low(y, k + 1) <==> Digit(x, k) == Digit(y, k) && Low(x, k) == Low(y, k)
  {
    LowSplit(x, k);
    LowSplit(y, k);
  }

  // ---- Counting

  /** Indices of the words whose digit `k` is below `b`. */
  ghost function Below(s: seq<Word>, k: nat, b: int): set<int>
    requires k < 3
  {
    set j | 0 <= j < |s| && Digit(s[j], k) < b
  }

  /** Indices before `i` of the words whose digit `k` is `b`. */
  ghost function AtBefore(s: seq<Word>, k: nat, b: int, i: int): set<int>
    requires k < 3
  {
    set j | 0 <= j < i && j < |s| && Digit(s[j], k) == b
  }

  /** Where a counting pass on digit `k` puts `s[i]`: after every word with
      a smaller digit and every earlier word with the same digit. */
  ghost function Pos(s: seq<Word>, k: nat, i: int): int
    requires k < 3 && 0 <= i < |s|
  {
    |Below(s, k, Digit(s[i], k))| + |AtBefore(s, k, Digit(s[i], k), i)|
  }

  lemma SubsetCard(a: set<int>, b: set<int>)
    requires a <= b
    ensures |a| <= |b|
    ensures a < b ==> |a| < |b|
  {
    assert b == a + (b - a);
    assert a * (b - a) == {};
    assert b - a == {} ==> b == a;
  }

  /** Every digit is below 2048, so `Below(s, k, 2048)` is every index. */
  lemma {:induction false} BelowAll(s: seq<Word>, k: nat)
    requires k < 3
    ensures forall j :: 0 <= j < |s| ==> j in Below(s, k, 2048)
    ensures |Below(s, k, 2048)| == |s|
  {
    forall j | 0 <= j < |s|
      ensures j in Below(s, k, 2048)
    {
      DigitRange(s[j], k);
    }
    if s != [] {
      var init := s[..|s| - 1];
      BelowAll(init, k);
      forall j | j in Below(s, k, 2048)
        ensures j in Below(init, k, 2048) + {|s| - 1}
      {
        if j < |s| - 1 {
          assert init[j] == s[j];
        }
      }
      forall j | j in Below(init, k, 2048)
        ensures j in Below(s, k, 2048)
      {
        assert init[j] == s[j];
      }
      assert Below(s, k, 2048) == Below(init, k, 2048) + {|s| - 1};
    }
  }

  /** Entries `x` and `y` of `f` differ. */
  ghost predicate Apart(f: seq<int>, x: int, y: int)
    requires 0 <= x < |f| && 0 <= y < |f|
  {
    f[x] != f[y]
  }

  /** No two entries of `f` are equal. */
  ghost predicate Injective(f: seq<int>) {
    forall x, y :: 0 <= x < y < |f| ==> Apart(f, x, y)
  }

  /** An injective map keeps the size of a set of indices below `n`. */
  lemma {:induction false} ImageCard(a: set<int>, f: seq<int>, n: nat)
    requires n <= |f| && forall x :: x in a ==> 0 <= x < n
    requires Injective(f)
    ensures |set x | x in a :: f[x]| == |a|
  {
    if n > 0 {
      var rest := a - {n - 1};
      ImageCard(rest, f, n - 1);
      var image := set y | y in rest :: f[y];
      forall y | y in rest
        ensures f[y] != f[n - 1]
      {
        assert Apart(f, y, n - 1);
      }
      assert f[n - 1] !in image;
      if n - 1 in a {
        assert a == rest + {n - 1};
        assert (set y | y in a :: f[y]) == image + {f[n - 1]};
      } else {
        assert a == rest;
      }
    } else {
      assert forall x :: x !in a;
    }
  }

  lemma {:induction false} BelowStep(s: seq<Word>, k: nat, c: int)
    requires k < 3
    ensures |Below(s, k, c + 1)| == |Below(s, k, c)| + |AtBefore(s, k, c, |s|)|
  {
    assert Below(s, k, c + 1) == Below(s, k, c) + AtBefore(s, k, c, |s|);
    assert Below(s, k, c) * AtBefore(s, k, c, |s|) == {};
  }

  lemma {:induction false} AtBeforeStep(s: seq<Word>, k: nat, c: int, i: int)
    requires k < 3 && 0 <= i < |s|
    ensures |AtBefore(s, k, c, i + 1)| == |AtBefore(s, k, c, i)| + (if Digit(s[i], k) == c then 1 else 0)
  {
    if Digit(s[i], k) == c {
      assert AtBefore(s, k, c, i + 1) == AtBefore(s, k, c, i) + {i};
    } else {
      assert AtBefore(s, k, c, i + 1) == AtBefore(s, k, c, i);
    }
  }

  /** A counting pass keeps a smaller digit first, and on equal digits
      keeps the input order: it is stable. */
  lemma {:induction false} PosBefore(s: seq<Word>, k: nat, i: int, j: int)
    requires k < 3 && 0 <= i < |s| && 0 <= j < |s|
    requires Digit(s[i], k) < Digit(s[j], k) || (Digit(s[i], k) == Digit(s[j], k) && i < j)
    ensures Pos(s, k, i) < Pos(s, k, j)
  {
    var di, dj := Digit(s[i], k), Digit(s[j], k);
    if di == dj {
      assert i in AtBefore(s, k, dj, j) && i !in AtBefore(s, k, di, i);
      SubsetCard(AtBefore(s, k, di, i), AtBefore(s, k, dj, j));
    } else {
      var lower := Below(s, k, di) + AtBefore(s, k, di, i);
      assert Below(s, k, di) * AtBefore(s, k, di, i) == {};
      assert i !in lower;
      SubsetCard(lower + {i}, Below(s, k, dj));
    }
  }

  lemma {:induction false} PosInRange(s: seq<Word>, k: nat, i: int)
    requires k < 3 && 0 <= i < |s|
    ensures 0 <= Pos(s, k, i) < |s|
  {
    var d := Digit(s[i], k);
    var lower := Below(s, k, d) + AtBefore(s, k, d, i);
    assert Below(s, k, d) * AtBefore(s, k, d, i) == {};
    assert i !in lower;
    BelowAll(s, k);
    SubsetCard(lower + {i}, Below(s, k, 2048));
  }

  lemma {:induction false} PosInjective(s: seq<Word>, k: nat, i: int, j: int)
    requires k < 3 && 0 <= i < |s| && 0 <= j < |s| && i != j
    ensures Pos(s, k, i) != Pos(s, k, j)
  {
    if Digit(s[i], k) < Digit(s[j], k) || (Digit(s[i], k) == Digit(s[j], k) && i < j) {
      PosBefore(s, k, i, j);
    } else {
      PosBefore(s, k, j, i);
    }
  }

  /** `ps` sends `0 .. |ps|-1` to distinct slots in the same range. */
  ghost predicate Slots(ps: seq<int>) {
    (forall j :: 0 <= j < |ps| ==> 0 <= ps[j] < |ps|) && Injective(ps)
  }

  /** The slots of a whole pass. */
  ghost function PosSeq(s: seq<Word>, k: nat): (r: seq<int>)
    requires k < 3
    ensures |r| == |s| && (forall i :: 0 <= i < |s| ==> r[i] == Pos(s, k, i)) && Slots(r)
  {
    var r := seq(|s|, i requires 0 <= i < |s| => Pos(s, k, i));
    forall x, y | 0 <= x < y < |r|
      ensures Apart(r, x, y)
    {
      PosInjective(s, k, x, y);
    }
    forall j | 0 <= j < |r|
      ensures 0 <= r[j] < |r|
    {
      PosInRange(s, k, j);
    }
    r
  }

  /** Every output slot of a pass receives some word: `Pos` is onto. */
  lemma {:induction false} PosOnto(s: seq<Word>, k: nat, p: int)
    requires k < 3 && 0 <= p < |s|
    ensures exists i :: 0 <= i < |s| && Pos(s, k, i) == p
  {
    var f := PosSeq(s, k);
    var all := Below(s, k, 2048);
    BelowAll(s, k);
    ImageCard(all, f, |s|);
    var image := set x | x in all :: f[x];
    forall q | q in image
      ensures q in all
    {
      var i :| i in all && f[i] == q;
      PosInRange(s, k, i);
    }
    if p !in image {
      SubsetCard(image, all);
    }
  }

  /** The index a pass moves into slot `p`. */
  ghost function Source(s: seq<Word>, k: nat, p: int): (i: int)
    requires k < 3 && 0 <= p < |s|
    ensures 0 <= i < |s| && Pos(s, k, i) == p
  {
    PosOnto(s, k, p);
    var i :| 0 <= i < |s| && Pos(s, k, i) == p;
    i
  }

  /** `t` and `u'` hold `s[i]` and `u[i]` at `Pos(s, k, i)`: the output of
      a counting pass on digit `k` over keys `s` carrying payloads `u`. */
  ghost predicate Placed<T>(s: seq<Word>, u: seq<T>, k: nat, t: seq<Word>, u': seq<T>)
    requires k < 3
  {
    |t| == |s| && |u| == |s| && |u'| == |s| &&
    forall i {:trigger Pos(s, k, i)} :: 0 <= i < |s| ==>
      0 <= Pos(s, k, i) < |s| && t[Pos(s, k, i)] == s[i] && u'[Pos(s, k, i)] == u[i]
  }

  /** A pass permutes its words, so the digit counts the histograms were
      built from stay right for the next pass. */
  lemma {:induction false} CountTransfer<T>(s: seq<Word>, u: seq<T>, k: nat, t: seq<Word>, u': seq<T>, k': nat, b: int)
    requires k < 3 && k' < 3 && Placed(s, u, k, t, u')
    ensures |Below(t, k', b)| == |Below(s, k', b)|
  {
    var f := PosSeq(s, k);
    var image := set i | i in Below(s, k', b) :: f[i];
    forall p | p in Below(t, k', b)
      ensures p in image
    {
      var i := Source(s, k, p);
      assert i in Below(s, k', b);
    }
    assert Below(t, k', b) == image;
    ImageCard(Below(s, k', b), f, |s|);
  }

  /** `t` is ordered by its low `j` digits, and words with equal low digits
      keep the order of their origins `o`. */
  ghost predicate SortedBy(t: seq<Word>, o: seq<int>, j: nat)
    requires j <= 3
  {
    |o| == |t| && forall p, q :: 0 <= p < q < |t| ==> InOrder(t, o, j, p, q)
  }

  /** Entries `p` and `q` of `t` are in order by their low `j` digits, and
      by origin on a tie. */
  ghost predicate InOrder(t: seq<Word>, o: seq<int>, j: nat, p: int, q: int)
    requires j <= 3 && |o| == |t| && 0 <= p < |t| && 0 <= q < |t|
  {
    Low(t[p], j) <= Low(t[q], j) && (Low(t[p], j) == Low(t[q], j) ==> o[p] < o[q])
  }

  /** Entry `p` of `t` and `u` is entry `o[p]` of the original keys and
      payloads, and `o` is a permutation. */
  ghost predicate Tracks<T>(t: seq<Word>, u: seq<T>, o: seq<int>, keys: seq<Word>, vals: seq<T>) {
    |t| == |o| && |u| == |o| && |keys| == |o| && |vals| == |o| &&
    (forall p {:trigger o[p]} :: 0 <= p < |o| ==> 0 <= o[p] < |o| && t[p] == keys[o[p]] && u[p] == vals[o[p]]) &&
    Injective(o)
  }

  /** One stable pass on digit `k` over words already ordered by their low
      `k` digits orders them by their low `k + 1` digits. */
  lemma {:induction false} PassStep<T>(s: seq<Word>, u: seq<T>, o: seq<int>, k: nat, t: seq<Word>, u': seq<T>,
                                       keys: seq<Word>, vals: seq<T>)
    returns (o': seq<int>)
    requires k < 3 && SortedBy(s, o, k) && Tracks(s, u, o, keys, vals) && Placed(s, u, k, t, u')
    ensures SortedBy(t, o', k + 1) && Tracks(t, u', o', keys, vals)
  {
    o' := seq(|s|, p requires 0 <= p < |s| => o[Source(s, k, p)]);
    var next := k + 1;
    forall p, q | 0 <= p < q < |t|
      ensures InOrder(t, o', next, p, q)
    {
      var i, j := Source(s, k, p), Source(s, k, q);
      assert t[p] == s[i] && t[q] == s[j];
      if !(Digit(s[i], k) < Digit(s[j], k) || (Digit(s[i], k) == Digit(s[j], k) && i < j)) {
        PosBefore(s, k, j, i);
      }
      if i < j {
        assert InOrder(s, o, k, i, j);
      }
      LowStep(s[i], s[j], k);
    }
    forall p, q | 0 <= p < q < |o'|
      ensures Apart(o', p, q)
    {
      var i, j := Source(s, k, p), Source(s, k, q);
      if i > j {
        assert Apart(o, j, i);
      } else {
        assert i != j;
        assert Apart(o, i, j);
      }
    }
  }

  // ---- The sort

  /** The key a pass reads from word `w`: pass 0 flips it. */
  function ReadKey(w: Word, flip: bool): Word {
    if flip then FloatFlip(w) else w
  }

  /** The word a pass writes for key `w`: pass 2 flips it back. */
  function Emit(w: Word, flip: bool): Word {
    if flip then IFloatFlip(w) else w
  }

  /** The keys a pass reads from the words `ws`; with `flip`, these are
      also the words pass 2 wrote with its flip undone. */
  function Keys(ws: seq<Word>, flip: bool): (r: seq<Word>)
    ensures |r| == |ws| && forall p :: 0 <= p < |ws| ==> r[p] == ReadKey(ws[p], flip)
  {
    if flip then seq(|ws|, p requires 0 <= p < |ws| => FloatFlip(ws[p])) else ws
  }

  /** The words a pass writes for the keys `s`, in input order. */
  function Emitted(s: seq<Word>, flip: bool): (r: seq<Word>)
    ensures |r| == |s| && forall i :: 0 <= i < |s| ==> r[i] == Emit(s[i], flip)
  {
    seq(|s|, i requires 0 <= i < |s| => Emit(s[i], flip))
  }

  /** Reading back what a pass emitted gives its keys. */
  lemma {:induction false} KeysEmitted(s: seq<Word>, flip: bool)
    ensures Keys(Emitted(s, flip), flip) == s
  {
    forall i | 0 <= i < |s|
      ensures Keys(Emitted(s, flip), flip)[i] == s[i]
    {
      FlipRoundTrip(s[i]);
    }
  }

  /** Histogram of digit `k` after counting the first `i` keys: entry `c`
      counts those whose digit is `c`. */
  ghost function Tally(keys: seq<Word>, k: nat, i: int): (h: seq<int>)
    requires k < 3
    ensures |h| == 2048
  {
    seq(2048, c => |AtBefore(keys, k, c, i)|)
  }

  /** Histogram of digit `k` while it is summed up to bucket `i`: the
      buckets before `i` hold the slot before their first key (`sum - 1`),
      the others still their count. */
  ghost function Summed(keys: seq<Word>, k: nat, i: int): (h: seq<int>)
    requires k < 3
    ensures |h| == 2048
  {
    seq(2048, c => if c < i then |Below(keys, k, c)| - 1 else |AtBefore(keys, k, c, |keys|)|)
  }

  /** The counters a pass on digit `k` over `keys` starts from: each bucket
      holds the slot before its first key. */
  ghost function Starts(keys: seq<Word>, k: nat): (h: seq<int>)
    requires k < 3
    ensures |h| == 2048
  {
    seq(2048, c => |Below(keys, k, c)| - 1)
  }

  /** The counters of pass `k` after it placed the first `i` keys: entry
      `c` is the slot of the last key with digit `c` placed so far. */
  ghost function Counters(s: seq<Word>, k: nat, i: int): (h: seq<int>)
    requires k < 3
    ensures |h| == 2048
  {
    seq(2048, c => |Below(s, k, c)| - 1 + |AtBefore(s, k, c, i)|)
  }

  lemma {:induction false} NoneBefore(keys: seq<Word>, k: nat, c: int)
    requires k < 3
    ensures |AtBefore(keys, k, c, 0)| == 0
  {
    assert forall j :: j !in AtBefore(keys, k, c, 0);
    assert AtBefore(keys, k, c, 0) == {};
  }

  lemma {:induction false} NoneBelow(keys: seq<Word>, k: nat)
    requires k < 3
    ensures |Below(keys, k, 0)| == 0
  {
    forall j | j in Below(keys, k, 0)
      ensures false
    {
      DigitRange(keys[j], k);
    }
    assert forall j :: j !in Below(keys, k, 0);
    assert Below(keys, k, 0) == {};
  }

  /** Zeroed counters are the tally of no keys. */
  lemma {:induction false} TallyZero(h: seq<int>, keys: seq<Word>, k: nat)
    requires k < 3 && |h| == 2048 && forall c :: 0 <= c < 2048 ==> h[c] == 0
    ensures h == Tally(keys, k, 0)
  {
    forall c | 0 <= c < 2048
      ensures h[c] == Tally(keys, k, 0)[c]
    {
      NoneBefore(keys, k, c);
    }
  }

  /** Counting key `i` increments the bucket of its digit. */
  lemma {:induction false} TallyStep(keys: seq<Word>, k: nat, i: int)
    requires k < 3 && 0 <= i < |keys|
    ensures 0 <= Digit(keys[i], k) < 2048
    ensures Tally(keys, k, i)[Digit(keys[i], k) := Tally(keys, k, i)[Digit(keys[i], k)] + 1] == Tally(keys, k, i + 1)
  {
    DigitRange(keys[i], k);
    var next := i + 1;
    forall c | 0 <= c < 2048
      ensures Tally(keys, k, i)[Digit(keys[i], k) := Tally(keys, k, i)[Digit(keys[i], k)] + 1][c] == Tally(keys, k, next)[c]
    {
      AtBeforeStep(keys, k, c, i);
    }
  }

  /** Summing starts from the full tally, with no keys below bucket 0. */
  lemma {:induction false} SummedStart(keys: seq<Word>, k: nat)
    requires k < 3
    ensures Summed(keys, k, 0) == Tally(keys, k, |keys|) && |Below(keys, k, 0)| == 0
  {
    NoneBelow(keys, k);
  }

  /** Summing bucket `i` stores the slot before its first key and adds its
      count to the running sum. */
  lemma {:induction false} SumStep(keys: seq<Word>, k: nat, i: int)
    requires k < 3 && 0 <= i < 2048
    ensures Summed(keys, k, i)[i := |Below(keys, k, i)| - 1] == Summed(keys, k, i + 1)
    ensures Summed(keys, k, i)[i] + |Below(keys, k, i)| == |Below(keys, k, i + 1)|
  {
    BelowStep(keys, k, i);
  }

  lemma {:induction false} SummedStarts(keys: seq<Word>, k: nat)
    requires k < 3
    ensures Summed(keys, k, 2048) == Starts(keys, k)
  {
  }

  /** A pass starts from its counters with no key placed. */
  lemma {:induction false} CountersStart(s: seq<Word>, k: nat)
    requires k < 3
    ensures Counters(s, k, 0) == Starts(s, k)
  {
    forall c | 0 <= c < 2048
      ensures Counters(s, k, 0)[c] == Starts(s, k)[c]
    {
      NoneBefore(s, k, c);
    }
  }

  /** Placing key `i` increments its bucket's counter, which then is the
      key's slot. */
  lemma {:induction false} CountersStep(s: seq<Word>, k: nat, i: int)
    requires k < 3 && 0 <= i < |s|
    ensures 0 <= Digit(s[i], k) < 2048
    ensures Counters(s, k, i)[Digit(s[i], k)] + 1 == Pos(s, k, i)
    ensures Counters(s, k, i)[Digit(s[i], k) := Pos(s, k, i)] == Counters(s, k, i + 1)
  {
    DigitRange(s[i], k);
    var next := i + 1;
    forall c | 0 <= c < 2048
      ensures Counters(s, k, i)[Digit(s[i], k) := Pos(s, k, i)][c] == Counters(s, k, next)[c]
    {
      AtBeforeStep(s, k, c, i);
    }
  }

  /** `d` after the first `i` entries of `xs` were written to the slots `ps`. */
  ghost function Scattered<X>(d: seq<X>, xs: seq<X>, ps: seq<int>, i: nat): (r: seq<X>)
    requires |d| == |xs| == |ps| && Slots(ps) && i <= |xs|
    ensures |r| == |d|
  {
    if i == 0 then d else Scattered(d, xs, ps, i - 1)[ps[i - 1] := xs[i - 1]]
  }

  /** Every entry written so far is still in its slot: the slots are
      distinct, so no later write overwrites an earlier one. */
  lemma {:induction false} ScatteredAt<X>(d: seq<X>, xs: seq<X>, ps: seq<int>, i: nat)
    requires |d| == |xs| == |ps| && Slots(ps) && i <= |xs|
    ensures forall j :: 0 <= j < i ==> Scattered(d, xs, ps, i)[ps[j]] == xs[j]
  {
    if i > 0 {
      ScatteredAt(d, xs, ps, i - 1);
      forall j | 0 <= j < i - 1
        ensures ps[j] != ps[i - 1]
      {
        assert Apart(ps, j, i - 1);
      }
    }
  }

  /** What a pass wrote is the placement `Pos` describes. */
  lemma {:induction false} ScatteredPlaced<T>(d: seq<Word>, vd: seq<T>, s: seq<Word>, u: seq<T>, k: nat, flip: bool)
    requires k < 3 && |d| == |vd| == |u| == |s|
    ensures Placed(s, u, k, Keys(Scattered(d, Emitted(s, flip), PosSeq(s, k), |s|), flip),
                   Scattered(vd, u, PosSeq(s, k), |s|))
  {
    var ps := PosSeq(s, k);
    ScatteredAt(d, Emitted(s, flip), ps, |s|);
    ScatteredAt(vd, u, ps, |s|);
    forall i | 0 <= i < |s|
      ensures ReadKey(Emit(s[i], flip), flip) == s[i]
    {
      FlipRoundTrip(s[i]);
    }
  }

  /** The counters of a later pass stay right after an earlier pass has
      permuted the words. */
  lemma {:induction false} StartsTransfer<T>(s: seq<Word>, u: seq<T>, k: nat, t: seq<Word>, u': seq<T>, k': nat)
    requires k < 3 && k' < 3 && Placed(s, u, k, t, u')
    ensures Starts(t, k') == Starts(s, k')
  {
    forall c | 0 <= c < 2048
      ensures Starts(t, k')[c] == Starts(s, k')[c]
    {
      CountTransfer(s, u, k, t, u', k', c);
    }
  }

  /** The five arrays a pass touches are distinct objects. */
  predicate Separate<T>(src: array<Word>, vSrc: array<T>, dst: array<Word>, vDst: array<T>, h: array<int>) {
    src != dst && vSrc != vDst && dst as object != vDst as object &&
    src as object != vDst as object && dst as object != vSrc as object &&
    h as object != src as object && h as object != dst as object &&
    h as object != vSrc as object && h as object != vDst as object
  }

  /** Steps 1 and 2 of `RadixSort11`: zero the three histograms, count the
      digits of every flipped word, then turn each count into the slot
      before its bucket (`sum - 1`). */
  method Histograms(inp: array<Word>, ghost keys: seq<Word>) returns (b0: array<int>, b1: array<int>, b2: array<int>)
    requires keys == Keys(inp[..], true)
    ensures fresh(b0) && fresh(b1) && fresh(b2) && b0 != b1 && b0 != b2 && b1 != b2
    ensures b0[..] == Starts(keys, 0) && b1[..] == Starts(keys, 1) && b2[..] == Starts(keys, 2)
  {
    b0, b1, b2 := new int[2048], new int[2048], new int[2048];
    for i := 0 to 2048
      invariant forall j :: 0 <= j < i ==> b0[j] == 0 && b1[j] == 0 && b2[j] == 0
    {
      b0[i], b1[i], b2[i] := 0, 0, 0;
    }
    TallyZero(b0[..], keys, 0);
    TallyZero(b1[..], keys, 1);
    TallyZero(b2[..], keys, 2);
    CountDigits(inp, b0, b1, b2, keys);
    SumCounts(b0, b1, b2, keys);
  }

  /** Step 1: count the three digits of every flipped word. */
  method CountDigits(inp: array<Word>, b0: array<int>, b1: array<int>, b2: array<int>, ghost keys: seq<Word>)
    requires keys == Keys(inp[..], true)
    requires b0 != b1 && b0 != b2 && b1 != b2
    requires inp as object != b0 as object && inp as object != b1 as object && inp as object != b2 as object
    requires b0[..] == Tally(keys, 0, 0) && b1[..] == Tally(keys, 1, 0) && b2[..] == Tally(keys, 2, 0)
    modifies b0, b1, b2
    ensures b0[..] == Tally(keys, 0, |keys|) && b1[..] == Tally(keys, 1, |keys|) && b2[..] == Tally(keys, 2, |keys|)
  {
    assert forall j :: 0 <= j < inp.Length ==> keys[j] == FloatFlip(inp[j]) by {
      assert forall j :: 0 <= j < inp.Length ==> inp[..][j] == inp[j];
    }
    for i := 0 to inp.Length
      invariant b0[..] == Tally(keys, 0, i) && b1[..] == Tally(keys, 1, i) && b2[..] == Tally(keys, 2, i)
    {
      CountWord(FloatFlip(inp[i]), b0, b1, b2, keys, i);
    }
  }

  /** One step of the counting loop: the flipped word `fi` bumps the
      bucket of each of its three digits. */
  method CountWord(fi: Word, b0: array<int>, b1: array<int>, b2: array<int>, ghost keys: seq<Word>, i: nat)
    requires i < |keys| && fi == keys[i] && b0 != b1 && b0 != b2 && b1 != b2
    requires b0[..] == Tally(keys, 0, i) && b1[..] == Tally(keys, 1, i) && b2[..] == Tally(keys, 2, i)
    modifies b0, b1, b2
    ensures b0[..] == Tally(keys, 0, i + 1) && b1[..] == Tally(keys, 1, i + 1) && b2[..] == Tally(keys, 2, i + 1)
  {
    var d0, d1, d2 := Digit(fi, 0), Digit(fi, 1), Digit(fi, 2);
    TallyStep(keys, 0, i);
    TallyStep(keys, 1, i);
    TallyStep(keys, 2, i);
    ghost var c0, c1, c2 := b0[..], b1[..], b2[..];
    b0[d0] := b0[d0] + 1;
    assert b0[..] == c0[d0 := c0[d0] + 1];
    b1[d1] := b1[d1] + 1;
    assert b1[..] == c1[d1 := c1[d1] + 1];
    b2[d2] := b2[d2] + 1;
    assert b2[..] == c2[d2 := c2[d2] + 1];
  }

  /** Step 2: a running sum over the buckets turns each count into the
      slot before the bucket's first key. */
  method SumCounts(b0: array<int>, b1: array<int>, b2: array<int>, ghost keys: seq<Word>)
    requires b0 != b1 && b0 != b2 && b1 != b2
    requires b0[..] == Tally(keys, 0, |keys|) && b1[..] == Tally(keys, 1, |keys|) && b2[..] == Tally(keys, 2, |keys|)
    modifies b0, b1, b2
    ensures b0[..] == Starts(keys, 0) && b1[..] == Starts(keys, 1) && b2[..] == Starts(keys, 2)
  {
    SummedStart(keys, 0);
    SummedStart(keys, 1);
    SummedStart(keys, 2);
    var sum0, sum1, sum2 := 0, 0, 0;
    for i := 0 to 2048
      invariant b0[..] == Summed(keys, 0, i) && sum0 == |Below(keys, 0, i)|
      invariant b1[..] == Summed(keys, 1, i) && sum1 == |Below(keys, 1, i)|
      invariant b2[..] == Summed(keys, 2, i) && sum2 == |Below(keys, 2, i)|
    {
      SumStep(keys, 0, i);
      SumStep(keys, 1, i);
      SumStep(keys, 2, i);
      ghost var c0, c1, c2 := b0[..], b1[..], b2[..];
      var tsum := b0[i] + sum0;
      b0[i] := sum0 - 1;
      assert b0[..] == c0[i := sum0 - 1];
      sum0 := tsum;
      tsum := b1[i] + sum1;
      b1[i] := sum1 - 1;
      assert b1[..] == c1[i := sum1 - 1];
      sum1 := tsum;
      tsum := b2[i] + sum2;
      b2[i] := sum2 - 1;
      assert b2[..] == c2[i := sum2 - 1];
      sum2 := tsum;
    }
    SummedStarts(keys, 0);
    SummedStarts(keys, 1);
    SummedStarts(keys, 2);
  }

  /** One step of a pass: word `i` goes, with its payload, to the slot
      after its bucket's counter, which it then takes. */
  method Place<T>(src: array<Word>, vSrc: array<T>, dst: array<Word>, vDst: array<T>, h: array<int>,
                  i: nat, k: nat, flipIn: bool, flipOut: bool, ghost s: seq<Word>,
                  ghost xs: seq<Word>, ghost vs: seq<T>, ghost ps: seq<int>, ghost d0: seq<Word>, ghost v0: seq<T>)
    requires k < 3 && i < src.Length == vSrc.Length == dst.Length == vDst.Length == |s|
    requires Separate(src, vSrc, dst, vDst, h)
    requires ps == PosSeq(s, k) && xs == Emitted(s, flipOut) && |vs| == |d0| == |v0| == |s|
    requires s[i] == ReadKey(src[i], flipIn) && vSrc[i] == vs[i]
    requires h[..] == Counters(s, k, i)
    requires dst[..] == Scattered(d0, xs, ps, i) && vDst[..] == Scattered(v0, vs, ps, i)
    modifies dst, vDst, h
    ensures h[..] == Counters(s, k, i + 1)
    ensures dst[..] == Scattered(d0, xs, ps, i + 1) && vDst[..] == Scattered(v0, vs, ps, i + 1)
  {
    var key := src[i];
    if flipIn {
      key := FloatFlip(key);
    }
    var pos := Digit(key, k);
    CountersStep(s, k, i);
    ghost var hs, ds, vds := h[..], dst[..], vDst[..];
    var slot := h[pos] + 1;
    assert key == s[i] && pos == Digit(s[i], k) && slot == Pos(s, k, i) == ps[i];
    h[pos] := slot;
    assert h[..] == hs[pos := slot];
    dst[slot] := Emit(key, flipOut);
    assert dst[..] == ds[slot := xs[i]];
    vDst[slot] := vSrc[i];
    assert vDst[..] == vds[slot := vs[i]];
  }

  /** The loop of one pass, over every word in input order. */
  method Scatter<T>(src: array<Word>, vSrc: array<T>, dst: array<Word>, vDst: array<T>, h: array<int>,
                    n: nat, k: nat, flipIn: bool, flipOut: bool, ghost s: seq<Word>)
    requires k < 3 && src.Length == n && vSrc.Length == n && dst.Length == n && vDst.Length == n
    requires Separate(src, vSrc, dst, vDst, h)
    requires s == Keys(src[..], flipIn) && h[..] == Starts(s, k)
    modifies dst, vDst, h
    ensures dst[..] == Scattered(old(dst[..]), Emitted(s, flipOut), PosSeq(s, k), n)
    ensures vDst[..] == Scattered(old(vDst[..]), old(vSrc[..]), PosSeq(s, k), n)
  {
    ghost var ps, xs, vs := PosSeq(s, k), Emitted(s, flipOut), vSrc[..];
    ghost var d0, v0 := dst[..], vDst[..];
    assert forall j :: 0 <= j < n ==> s[j] == ReadKey(src[j], flipIn) && vSrc[j] == vs[j] by {
      assert forall j :: 0 <= j < n ==> src[..][j] == src[j];
    }
    CountersStart(s, k);
    for i := 0 to n
      invariant h[..] == Counters(s, k, i)
      invariant dst[..] == Scattered(d0, xs, ps, i)
      invariant vDst[..] == Scattered(v0, vs, ps, i)
    {
      Place(src, vSrc, dst, vDst, h, i, k, flipIn, flipOut, s, xs, vs, ps, d0, v0);
    }
  }

  /** `out` and `vOut` are `words` and `vals` rearranged by the permutation
      `perm`, the words in ascending order of their flipped values, and
      equal words in their input order. */
  ghost predicate SortedPermutation<T>(out: seq<Word>, vOut: seq<T>, perm: seq<int>, words: seq<Word>, vals: seq<T>) {
    |out| == |vOut| == |perm| == |words| == |vals| &&
    (forall p :: 0 <= p < |perm| ==> 0 <= perm[p] < |perm|) &&
    (forall p, q :: 0 <= p < q < |perm| ==> perm[p] != perm[q]) &&
    (forall p :: 0 <= p < |out| ==> out[p] == words[perm[p]] && vOut[p] == vals[perm[p]]) &&
    (forall p, q :: 0 <= p < q < |out| ==> FloatFlip(out[p]) <= FloatFlip(out[q])) &&
    (forall p, q :: 0 <= p < q < |out| && out[p] == out[q] ==> perm[p] < perm[q])
  }

  /** After the three passes: the words are those the origins `o` name,
      sorted by their flipped value, equal words in input order. */
  lemma {:induction false} Conclude<T>(out: seq<Word>, vOut: seq<T>, o: seq<int>, words: seq<Word>, vals: seq<T>)
    requires |words| == |out|
    requires SortedBy(Keys(out, true), o, 3)
    requires Tracks(Keys(out, true), vOut, o, Keys(words, true), vals)
    ensures SortedPermutation(out, vOut, o, words, vals)
  {
    forall p | 0 <= p < |out|
      ensures out[p] == words[o[p]]
    {
      FlipRoundTrip(out[p]);
      FlipRoundTrip(words[o[p]]);
    }
    forall p, q | 0 <= p < q < |out|
      ensures FloatFlip(out[p]) <= FloatFlip(out[q]) && (out[p] == out[q] ==> o[p] < o[q]) && o[p] != o[q]
    {
      assert InOrder(Keys(out, true), o, 3, p, q) && Apart(o, p, q);
    }
  }

  /** Before the first pass every key is its own origin, and no digit
      orders anything yet. */
  lemma {:induction false} Origins<T>(keys: seq<Word>, vals: seq<T>) returns (o: seq<int>)
    requires |vals| == |keys|
    ensures SortedBy(keys, o, 0) && Tracks(keys, vals, o, keys, vals)
  {
    o := seq(|keys|, i requires 0 <= i < |keys| => i);
    forall p, q | 0 <= p < q < |keys|
      ensures InOrder(keys, o, 0, p, q) && Apart(o, p, q)
    {
    }
  }

  /** A whole pass: the words it writes, flipped back where pass 2 flips
      them, are the input words ordered by one more digit. */
  method Pass<T>(src: array<Word>, vSrc: array<T>, dst: array<Word>, vDst: array<T>, h: array<int>,
                 n: nat, k: nat, flipIn: bool, flipOut: bool, ghost s: seq<Word>, ghost u: seq<T>,
                 ghost o: seq<int>, ghost keys: seq<Word>, ghost vals: seq<T>)
    returns (ghost t: seq<Word>, ghost u': seq<T>, ghost o': seq<int>)
    requires k < 3 && src.Length == n && vSrc.Length == n && dst.Length == n && vDst.Length == n
    requires Separate(src, vSrc, dst, vDst, h)
    requires s == Keys(src[..], flipIn) && u == vSrc[..] && h[..] == Starts(s, k)
    requires SortedBy(s, o, k) && Tracks(s, u, o, keys, vals)
    modifies dst, vDst, h
    ensures t == Keys(dst[..], flipOut) && u' == vDst[..]
    ensures SortedBy(t, o', k + 1) && Tracks(t, u', o', keys, vals)
    ensures Placed(s, u, k, t, u')
  {
    ghost var d0, v0 := dst[..], vDst[..];
    Scatter(src, vSrc, dst, vDst, h, n, k, flipIn, flipOut, s);
    ScatteredPlaced(d0, v0, s, u, k, flipOut);
    t, u' := Keys(dst[..], flipOut), vDst[..];
    o' := PassStep(s, u, o, k, t, u', keys, vals);
  }

  /** `RadixSort11(in, out, vIn, vOut)` over `vIn.Length` words:
      `out` receives the words in ascending order of their flipped values
      (the order of the floats), `vOut` the payloads permuted the same way,
      and words that compare equal keep their input order. `in` and `vIn`
      serve as scratch space. */
  method RadixSort11<T>(inp: array<Word>, out: array<Word>, vIn: array<T>, vOut: array<T>)
    returns (ghost perm: seq<int>)
    requires inp.Length == out.Length == vIn.Length == vOut.Length
    requires inp != out && vIn != vOut
    requires inp as object != vIn as object && inp as object != vOut as object
    requires out as object != vIn as object && out as object != vOut as object
    modifies inp, out, vIn, vOut
    ensures SortedPermutation(out[..], vOut[..], perm, old(inp[..]), old(vIn[..]))
  {
    var n := vIn.Length;
    ghost var words, vals := inp[..], vIn[..];
    ghost var keys := Keys(words, true);
    var b0, b1, b2 := Histograms(inp, keys);
    ghost var h1, h2 := b1[..], b2[..];
    ghost var o := Origins(keys, vals);

    // byte 0: flip, in -> out
    ghost var s1, u1, o1 := Pass(inp, vIn, out, vOut, b0, n, 0, true, false, keys, vals, o, keys, vals);
    StartsTransfer(keys, vals, 0, s1, u1, 1);
    StartsTransfer(keys, vals, 0, s1, u1, 2);
    assert b1[..] == h1;

    // byte 1: out -> in
    ghost var s2, u2, o2 := Pass(out, vOut, inp, vIn, b1, n, 1, false, false, s1, u1, o1, keys, vals);
    StartsTransfer(s1, u1, 1, s2, u2, 2);
    assert b2[..] == h2;

    // byte 2: in -> out, flipping back
    ghost var s3, u3, o3 := Pass(inp, vIn, out, vOut, b2, n, 2, false, true, s2, u2, o2, keys, vals);
    Conclude(out[..], u3, o3, words, vals);
    perm := o3;
  }
}
