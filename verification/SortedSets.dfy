// Redis sorted sets: the order of their entries, ranks, and removal by rank.
module SortedSets {
  import opened Sets

  // Members with their scores. A key that does not exist is the empty sorted set.
  type ZSet = map<string, int>

  // Redis compares equal scores by the bytes of the members.
  predicate LexLess(s: string, t: string) {
    if t == "" then false
    else if s == "" then true
    else s[0] < t[0] || (s[0] == t[0] && LexLess(s[1..], t[1..]))
  }

  lemma {:induction false} LexLessTrichotomy(s: string, t: string)
    ensures s == t || LexLess(s, t) || LexLess(t, s)
    ensures !(LexLess(s, t) && LexLess(t, s))
    ensures !LexLess(s, s)
  {
    if s != "" {
      LexLessTrichotomy(s[1..], if t == "" then "" else t[1..]);
      if t != "" && s[0] == t[0] && s[1..] == t[1..] {
        assert s == [s[0]] + s[1..] && t == [t[0]] + t[1..];
      }
    }
  }

  lemma {:induction false} LexLessTransitive(s: string, t: string, u: string)
    requires LexLess(s, t) && LexLess(t, u)
    ensures LexLess(s, u)
  {
    if s != "" {
      if s[0] == t[0] && t[0] == u[0] {
        LexLessTransitive(s[1..], t[1..], u[1..]);
      }
    }
  }

  // The texts agree on the first k characters, and there s ends or has the smaller character.
  predicate SmallerAt(s: string, t: string, k: nat) {
    k <= |s| && k < |t| && s[..k] == t[..k] && (k == |s| || s[k] < t[k])
  }

  // The order of the members is that of their first different bytes.
  lemma {:induction false} LexLessIff(s: string, t: string)
    ensures LexLess(s, t) <==> exists k: nat :: SmallerAt(s, t, k)
  {
    if s == "" && t != "" {
      assert SmallerAt(s, t, 0);
    } else if s != "" && t != "" {
      LexLessIff(s[1..], t[1..]);
      if s[0] < t[0] {
        assert SmallerAt(s, t, 0);
      } else if s[0] == t[0] {
        SmallerLaterIff(s, t);
      }
    }
  }

  lemma SmallerLaterIff(s: string, t: string)
    requires s != "" && t != "" && s[0] == t[0]
    ensures (exists k: nat :: SmallerAt(s, t, k)) <==> (exists k: nat :: SmallerAt(s[1..], t[1..], k))
  {
    if k: nat :| SmallerAt(s, t, k) {
      assert k > 0;
      assert s[1..][..k - 1] == s[..k][1..] && t[1..][..k - 1] == t[..k][1..];
      assert SmallerAt(s[1..], t[1..], k - 1);
    }
    if k: nat :| SmallerAt(s[1..], t[1..], k) {
      assert s[..k + 1] == [s[0]] + s[1..][..k] && t[..k + 1] == [t[0]] + t[1..][..k];
      assert SmallerAt(s, t, k + 1);
    }
  }

  datatype Entry = Entry(score: int, member: string)

  // a ranks above b: higher score, or equal score and greater member.
  predicate Over(a: Entry, b: Entry) {
    a.score > b.score || (a.score == b.score && LexLess(b.member, a.member))
  }

  lemma OverTotal(a: Entry, b: Entry)
    ensures a == b || Over(a, b) || Over(b, a)
    ensures !(Over(a, b) && Over(b, a))
    ensures !Over(a, a)
  {
    LexLessTrichotomy(a.member, b.member);
    LexLessTrichotomy(a.member, a.member);
  }

  lemma OverTransitive(a: Entry, b: Entry, c: Entry)
    requires Over(a, b) && Over(b, c)
    ensures Over(a, c)
  {
    if a.score == b.score && b.score == c.score {
      LexLessTransitive(c.member, b.member, a.member);
    }
  }

  function EntryOf(z: ZSet, m: string): Entry
    requires m in z
  {
    Entry(z[m], m)
  }

  // The members of z that rank above e.
  function Above(z: ZSet, e: Entry): set<string> {
    set m | m in z && Over(EntryOf(z, m), e)
  }

  // ZRANK: how many members rank below m.
  function Rank(z: ZSet, m: string): nat
    requires m in z
  {
    |set k | k in z && Over(EntryOf(z, m), EntryOf(z, k))|
  }

  // ZREMRANGEBYRANK start stop: both ends inclusive, negative positions count from the end.
  function RemoveRangeByRank(z: ZSet, start: int, stop: int): ZSet {
    var from := if start < 0 then |z| + start else start;
    var to := if stop < 0 then |z| + stop else stop;
    map m | m in z && !(from <= Rank(z, m) <= to) :: z[m]
  }

  // The k highest ranked entries of z.
  function Top(z: ZSet, k: nat): ZSet {
    map m | m in z && |Above(z, EntryOf(z, m))| < k :: z[m]
  }

  lemma RankCountsFromBothEnds(z: ZSet, m: string)
    requires m in z
    ensures Rank(z, m) + |Above(z, EntryOf(z, m))| + 1 == |z|
  {
    var below := set k | k in z && Over(EntryOf(z, m), EntryOf(z, k));
    var above := Above(z, EntryOf(z, m));
    forall k | k in z ensures k in below || k in above || k == m {
      OverTotal(EntryOf(z, k), EntryOf(z, m));
    }
    forall k | k in below ensures k !in above && k != m {
      OverTotal(EntryOf(z, k), EntryOf(z, m));
    }
    OverTotal(EntryOf(z, m), EntryOf(z, m));
    assert z.Keys == below + above + {m};
    assert |below + above| == |below| + |above|;
    assert |below + above + {m}| == |below + above| + 1;
  }

  // Removing ranks 0 to -(k+1) is keeping the k highest.
  lemma RemoveLowestKeepsTop(z: ZSet, k: nat)
    ensures RemoveRangeByRank(z, 0, -(k + 1)) == Top(z, k)
  {
    forall m | m in z
      ensures (0 <= Rank(z, m) <= |z| - (k + 1)) <==> |Above(z, EntryOf(z, m))| >= k
    {
      RankCountsFromBothEnds(z, m);
    }
  }

  // A non-empty set of members has one that ranks above all the others.
  lemma {:induction false} HighestExists(z: ZSet, ms: set<string>) returns (top: string)
    requires ms != {} && ms <= z.Keys
    ensures top in ms
    ensures forall m | m in ms && m != top :: Over(EntryOf(z, top), EntryOf(z, m))
    decreases |ms|
  {
    var x :| x in ms;
    var others := ms - {x};
    if others == {} {
      assert ms == {x};
      return x;
    }
    var y := HighestExists(z, others);
    OverTotal(EntryOf(z, x), EntryOf(z, y));
    if Over(EntryOf(z, y), EntryOf(z, x)) {
      top := y;
    } else {
      top := x;
      forall m | m in ms && m != x ensures Over(EntryOf(z, x), EntryOf(z, m)) {
        if m != y {
          OverTransitive(EntryOf(z, x), EntryOf(z, y), EntryOf(z, m));
        }
      }
    }
  }

  // The highest dropped member has at least k kept ones above it.
  lemma DroppedHasKeptAbove(z: ZSet, k: nat, x: string)
    requires x in z && x !in Top(z, k)
    ensures |Above(Top(z, k), EntryOf(z, x))| >= k
  {
    var dropped := set m | m in z && m !in Top(z, k);
    assert x in dropped;
    var h := HighestExists(z, dropped);
    var above := Above(z, EntryOf(z, h));
    forall m | m in above ensures m in Above(Top(z, k), EntryOf(z, x)) {
      OverTotal(EntryOf(z, m), EntryOf(z, h));
      assert m !in dropped;
      if h != x {
        OverTransitive(EntryOf(z, m), EntryOf(z, h), EntryOf(z, x));
      }
    }
    SubsetIsSmaller(above, Above(Top(z, k), EntryOf(z, x)));
  }

  // Trimming loses none of the first k entries above any entry e, present or not.
  lemma TopKeepsAbove(z: ZSet, k: nat, e: Entry)
    ensures |Above(Top(z, k), e)| >= k || Above(Top(z, k), e) == Above(z, e)
  {
    if x :| x in Above(z, e) && x !in Top(z, k) {
      DroppedHasKeptAbove(z, k, x);
      forall m | m in Above(Top(z, k), EntryOf(z, x)) ensures m in Above(Top(z, k), e) {
        OverTransitive(EntryOf(z, m), EntryOf(z, x), e);
      }
      SubsetIsSmaller(Above(Top(z, k), EntryOf(z, x)), Above(Top(z, k), e));
    } else {
      assert Above(Top(z, k), e) == Above(z, e);
    }
  }

  lemma TopSize(z: ZSet, k: nat)
    ensures |Top(z, k)| == if |z| <= k then |z| else k
  {
    var kept := Top(z, k);
    SubsetIsSmaller(kept.Keys, z.Keys);
    if x :| x in z && x !in kept {
      DroppedHasKeptAbove(z, k, x);
      SubsetIsSmaller(Above(kept, EntryOf(z, x)), kept.Keys);
    } else {
      assert kept == z;
    }
    AtMostTop(z, k);
  }

  lemma AtMostTop(z: ZSet, k: nat)
    ensures |Top(z, k)| <= k
  {
    var kept := Top(z, k);
    if kept.Keys != {} {
      var low := LowestExists(z, kept.Keys);
      var above := Above(z, EntryOf(z, low));
      OverTotal(EntryOf(z, low), EntryOf(z, low));
      SubsetIsSmaller(kept.Keys, above + {low});
    }
  }

  lemma {:induction false} LowestExists(z: ZSet, ms: set<string>) returns (low: string)
    requires ms != {} && ms <= z.Keys
    ensures low in ms
    ensures forall m | m in ms && m != low :: Over(EntryOf(z, m), EntryOf(z, low))
    decreases |ms|
  {
    var top := HighestExists(z, ms);
    if ms == {top} {
      return top;
    }
    assert |ms - {top}| < |ms|;
    low := LowestExists(z, ms - {top});
  }

  // Two sorted sets that give their common members the same score.
  predicate Agree(a: ZSet, b: ZSet) {
    forall m | m in a && m in b :: a[m] == b[m]
  }

  lemma EarlierTrimSameCut(a: ZSet, b: ZSet, k: nat, e: Entry)
    requires Agree(a, b)
    ensures |Above(Top(a, k) + b, e)| < k <==> |Above(a + b, e)| < k
  {
    var part, whole := Top(a, k) + b, a + b;
    SubsetIsSmaller(Above(part, e), Above(whole, e));
    if x :| x in Above(whole, e) && x !in part {
      assert x in Above(a, e) && x !in Above(Top(a, k), e);
      TopKeepsAbove(a, k, e);
      SubsetIsSmaller(Above(Top(a, k), e), Above(part, e));
    } else {
      assert Above(part, e) == Above(whole, e);
    }
  }

  lemma EarlierTrimKeepsSame(a: ZSet, b: ZSet, k: nat, m: string)
    requires Agree(a, b) && m in a + b
    ensures m in Top(a + b, k) <==> m in Top(Top(a, k) + b, k)
  {
    var part, whole := Top(a, k) + b, a + b;
    var e := EntryOf(whole, m);
    EarlierTrimSameCut(a, b, k, e);
    if m in part {
      assert EntryOf(part, m) == e;
    } else {
      SubsetIsSmaller(Above(a, e), Above(whole, e));
    }
  }

  // Trimming before an addition changes nothing that a trim after it would keep.
  lemma TrimAbsorbsEarlierTrim(a: ZSet, b: ZSet, k: nat)
    requires Agree(a, b)
    ensures Top(Top(a, k) + b, k) == Top(a + b, k)
  {
    forall m | m in a + b
      ensures m in Top(a + b, k) <==> m in Top(Top(a, k) + b, k)
    {
      EarlierTrimKeepsSame(a, b, k, m);
    }
  }

  // ---- Reading by rank, highest first ----

  predicate IsHighest(z: ZSet, m: string) {
    m in z && forall k | k in z && k != m :: Over(EntryOf(z, m), EntryOf(z, k))
  }

  lemma HighestIsUnique(z: ZSet)
    requires z != map[]
    ensures exists m :: IsHighest(z, m)
    ensures forall m, n | IsHighest(z, m) && IsHighest(z, n) :: m == n
  {
    assert z.Keys != {};
    var h := HighestExists(z, z.Keys);
    assert IsHighest(z, h);
    forall m, n | IsHighest(z, m) && IsHighest(z, n) ensures m == n {
      OverTotal(EntryOf(z, m), EntryOf(z, n));
    }
  }

  // The members from the highest to the lowest.
  function Ranked(z: ZSet): seq<string>
    decreases |z|
  {
    if z == map[] then []
    else
      HighestIsUnique(z);
      var h :| h in z && IsHighest(z, h);
      SmallerWithout(z, h);
      [h] + Ranked(z - {h})
  }

  lemma SmallerWithout(z: ZSet, m: string)
    requires m in z
    ensures |z - {m}| == |z| - 1
  {
    assert (z - {m}).Keys == z.Keys - {m};
  }

  // Members of z, each ranking above all that follow it.
  ghost predicate Descending(z: ZSet, ms: seq<string>) {
    && (forall m | m in ms :: m in z)
    && (forall i, j | 0 <= i < j < |ms| :: ms[i] in z && ms[j] in z && Over(EntryOf(z, ms[i]), EntryOf(z, ms[j])))
  }

  lemma HighestFirst(z: ZSet, h: string, rest: seq<string>)
    requires IsHighest(z, h) && Descending(z - {h}, rest)
    ensures Descending(z, [h] + rest)
  {
    var ms := [h] + rest;
    forall m | m in ms ensures m in z {
      assert m == h || m in rest;
    }
    forall i, j | 0 <= i < j < |ms|
      ensures ms[i] in z && ms[j] in z && Over(EntryOf(z, ms[i]), EntryOf(z, ms[j]))
    {
      assert ms[j] == rest[j - 1] && rest[j - 1] in rest;
      if i > 0 {
        assert ms[i] == rest[i - 1] && rest[i - 1] in rest;
      }
    }
  }

  lemma {:induction false} RankedListsAll(z: ZSet)
    ensures |Ranked(z)| == |z|
    ensures forall m | m in z :: m in Ranked(z)
    ensures Descending(z, Ranked(z))
    decreases |z|
  {
    if z != map[] {
      HighestIsUnique(z);
      var h := Ranked(z)[0];
      SmallerWithout(z, h);
      RankedListsAll(z - {h});
      var rest := Ranked(z - {h});
      HighestFirst(z, h, rest);
      forall m | m in z ensures m in [h] + rest {
        if m != h {
          assert m in z - {h};
        }
      }
    }
  }

  // Places start to stop of a list: both ends inclusive, negative places count from the end.
  function Places(ms: seq<string>, start: int, stop: int): seq<string> {
    var n := |ms|;
    var from := if start < 0 then if start + n < 0 then 0 else start + n else start;
    var to := if stop < 0 then stop + n else if stop >= n then n - 1 else stop;
    if from > to || from >= n then [] else ms[from..to + 1]
  }

  // Negative places count from the end, and places past it are left out.
  lemma PlacesAreInclusive(ms: seq<string>, from: nat, to: nat)
    requires from <= to < |ms|
    ensures Places(ms, from, to) == Places(ms, from - |ms|, to - |ms|) == ms[from..to + 1]
    ensures forall beyond | beyond >= |ms| - 1 :: Places(ms, from, beyond) == ms[from..]
    ensures forall start, stop | start >= |ms| || stop < -|ms| :: Places(ms, start, stop) == []
  {
  }

  // ZRANGE start stop REV.
  function RangeRev(z: ZSet, start: int, stop: int): seq<string> {
    Places(Ranked(z), start, stop)
  }
}
