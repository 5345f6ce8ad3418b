/**
 The skip list of include/storage/skiplist.h, with its linked nodes and the pointers that
 insert and remove rewire.  The ghost sequence `all` lists the header and then the nodes in
 key order; a node's forward pointer at a level must lead to the next node of that level.
 The template is taken at strings, which is how the store uses it.
 */
module SkipLists {

  const MAX_LEVEL: nat := 16

  // --- Key order ---

  /** operator< of std::string: lexicographic, by bytes. */
  predicate Less(a: string, b: string) {
    b != "" && (a == "" || a[0] < b[0] || (a[0] == b[0] && Less(a[1..], b[1..])))
  }

  lemma {:induction false} LessIrreflexive(a: string)
    ensures !Less(a, a)
  {
    if a != "" { LessIrreflexive(a[1..]); }
  }

  /** Up to k the strings are the same, and there a ends or has the smaller byte. */
  ghost predicate SmallerAt(a: string, b: string, k: nat) {
    k <= |a| && k < |b| && a[..k] == b[..k] && (k == |a| || a[k] < b[k])
  }

  lemma SmallerBehind(a: string, b: string, k: nat)
    requires a != "" && b != "" && a[0] == b[0]
    ensures SmallerAt(a[1..], b[1..], k) <==> SmallerAt(a, b, k + 1)
  {
    if k < |a| && k < |b| {
      assert a[..k + 1] == [a[0]] + a[1..][..k] && b[..k + 1] == [b[0]] + b[1..][..k];
      assert a[..k + 1][1..] == a[1..][..k] && b[..k + 1][1..] == b[1..][..k];
    }
  }

  lemma SameStart(a: string, b: string, k: nat)
    requires k > 0 && SmallerAt(a, b, k)
    ensures a != "" && a[0] == b[0]
  {
    assert a[..k][0] == b[..k][0];
  }

  /** a comes before b exactly when it is a proper beginning of b or has the smaller byte at
      the first place where they differ. */
  lemma {:induction false} LessMeans(a: string, b: string)
    ensures Less(a, b) <==> exists k: nat :: SmallerAt(a, b, k)
  {
    if k: nat :| SmallerAt(a, b, k) {
      if k > 0 {
        SameStart(a, b, k);
        SmallerBehind(a, b, k - 1);
        LessMeans(a[1..], b[1..]);
      }
    }
    if Less(a, b) {
      if a != "" && a[0] == b[0] {
        LessMeans(a[1..], b[1..]);
        var k: nat :| SmallerAt(a[1..], b[1..], k);
        SmallerBehind(a, b, k);
      } else {
        assert SmallerAt(a, b, 0);
      }
    }
  }

  lemma {:induction false} LessTransitive(a: string, b: string, c: string)
    requires Less(a, b) && Less(b, c)
    ensures Less(a, c)
  {
    if a != "" && a[0] == b[0] == c[0] { LessTransitive(a[1..], b[1..], c[1..]); }
  }

  lemma {:induction false} LessTotal(a: string, b: string)
    ensures Less(a, b) || a == b || Less(b, a)
  {
    if a != "" && b != "" && a[0] == b[0] {
      LessTotal(a[1..], b[1..]);
      assert a == [a[0]] + a[1..] && b == [b[0]] + b[1..];
    }
  }

  // --- Nodes and the order they hang in ---

  class SkipListNode {
    const key: string
    /** The number of forward pointers, less one. */
    const level: nat
    var value: string
    var forward: seq<SkipListNode?>

    constructor (key: string, value: string, level: nat)
      ensures this.key == key && this.value == value && this.level == level
      ensures forward == seq(level + 1, _ => null)
    {
      this.key, this.value, this.level := key, value, level;
      forward := seq(level + 1, _ => null);
    }
  }

  /** The first position after p whose node reaches level l, or the end. */
  ghost function Next(all: seq<SkipListNode>, p: nat, l: nat): (q: nat)
    requires p < |all|
    ensures p < q <= |all| && (q < |all| ==> all[q].level >= l)
    ensures forall j :: p < j < q ==> all[j].level < l
    decreases |all| - p
  {
    if p + 1 == |all| || all[p + 1].level >= l then p + 1 else Next(all, p + 1, l)
  }

  lemma NextIs(all: seq<SkipListNode>, p: nat, l: nat, q: nat)
    requires p < q <= |all| && (q < |all| ==> all[q].level >= l)
    requires forall j :: p < j < q ==> all[j].level < l
    ensures Next(all, p, l) == q
  {
  }

  ghost function At(all: seq<SkipListNode>, q: nat): SkipListNode? {
    if q < |all| then all[q] else null
  }

  // Before and Differ name the body of a quantifier over pairs of positions, so that only a
  // proof that mentions a pair looks at it.
  ghost predicate Before(all: seq<SkipListNode>, i: nat, j: nat)
    requires i < |all| && j < |all|
  {
    Less(all[i].key, all[j].key)
  }

  ghost predicate Differ(all: seq<SkipListNode>, i: nat, j: nat)
    requires i < |all| && j < |all|
  {
    all[i] != all[j]
  }

  /** Nodes after the header are strictly sorted by key. */
  ghost predicate Sorted(all: seq<SkipListNode>) {
    forall i, j :: 1 <= i < j < |all| ==> Before(all, i, j)
  }

  ghost predicate Distinct(all: seq<SkipListNode>) {
    forall i, j :: 0 <= i < j < |all| ==> Differ(all, i, j)
  }

  lemma NotSame(all: seq<SkipListNode>, i: nat, j: nat)
    requires Distinct(all) && i < |all| && j < |all| && i != j
    ensures all[i] != all[j]
  {
    assert if i < j then Differ(all, i, j) else Differ(all, j, i);
  }

  ghost predicate Sized(all: seq<SkipListNode>)
    reads all`forward
  {
    forall p :: 0 <= p < |all| ==> |all[p].forward| == all[p].level + 1
  }

  /** Where the pointer of the node at p must lead at level l. */
  ghost function Target(all: seq<SkipListNode>, p: nat, l: nat): SkipListNode?
    requires p < |all|
  {
    At(all, Next(all, p, l))
  }

  ghost predicate PointsRight(all: seq<SkipListNode>, p: nat, l: nat)
    requires p < |all| && Sized(all)
    reads all`forward
  {
    all[p].level >= l ==> all[p].forward[l] == Target(all, p, l)
  }

  /** At level l every node of that level points to the next one. */
  ghost predicate Linked(all: seq<SkipListNode>, l: nat)
    requires Sized(all)
    reads all`forward
  {
    forall p :: 0 <= p < |all| ==> PointsRight(all, p, l)
  }

  ghost predicate Holds(all: seq<SkipListNode>, contents: map<string, string>)
    reads all`value
  {
    && (forall p :: 1 <= p < |all| ==> all[p].key in contents && contents[all[p].key] == all[p].value)
    && (forall k :: k in contents ==> exists p :: 1 <= p < |all| && all[p].key == k)
  }

  /** The nodes hang together and hold exactly the contents. */
  ghost predicate WellLinked(all: seq<SkipListNode>, contents: map<string, string>)
    reads all`forward, all`value
  {
    && Distinct(all) && Sorted(all) && Sized(all)
    && (forall l: nat :: Linked(all, l))
    && Holds(all, contents)
  }

  // --- Putting a node in at position t ---

  ghost function With(all: seq<SkipListNode>, t: nat, x: SkipListNode): seq<SkipListNode>
    requires t <= |all|
  {
    all[..t] + [x] + all[t..]
  }

  lemma WithMembers(all: seq<SkipListNode>, t: nat, x: SkipListNode)
    requires 1 <= t <= |all|
    ensures |With(all, t, x)| == |all| + 1 && With(all, t, x)[0] == all[0]
    ensures x in With(all, t, x) && forall n :: n in With(all, t, x) ==> n in all || n == x
  {
  }

  /** Where the next node of a level is, in the longer list, for the nodes before x. */
  lemma NextBefore(all: seq<SkipListNode>, t: nat, x: SkipListNode, p: nat, l: nat)
    requires p < t <= |all|
    ensures var q := Next(all, p, l);
      Next(With(all, t, x), p, l) == if q < t then q else if x.level >= l then t else q + 1
  {
    var q, big := Next(all, p, l), With(all, t, x);
    NextIs(big, p, l, if q < t then q else if x.level >= l then t else q + 1);
  }

  lemma NextAfter(all: seq<SkipListNode>, t: nat, x: SkipListNode, p: nat, l: nat)
    requires 1 <= t <= |all| && t - 1 <= p < |all|
    ensures Next(With(all, t, x), p + 1, l) == Next(all, p, l) + 1
  {
    var q, big := Next(all, p, l), With(all, t, x);
    assert forall j :: p + 1 < j <= |all| ==> big[j] == all[j - 1];
    NextIs(big, p + 1, l, q + 1);
  }

  /** Of the nodes before x, only those that used to look past its place look at x. */
  lemma TargetBefore(all: seq<SkipListNode>, t: nat, x: SkipListNode, p: nat, l: nat)
    requires p < t <= |all|
    ensures Target(With(all, t, x), p, l) == if Next(all, p, l) >= t && x.level >= l then x else Target(all, p, l)
  {
    NextBefore(all, t, x, p, l);
  }

  lemma TargetAfter(all: seq<SkipListNode>, t: nat, x: SkipListNode, p: nat, l: nat)
    requires 1 <= t <= |all| && t - 1 <= p < |all|
    ensures Target(With(all, t, x), p + 1, l) == Target(all, p, l)
  {
    NextAfter(all, t, x, p, l);
  }

  /** A node that does not reach level l makes no difference to it. */
  lemma LowNodeAdded(all: seq<SkipListNode>, t: nat, x: SkipListNode, l: nat)
    requires 1 <= t <= |all| && x.level < l && Sized(all) && Sized(With(all, t, x))
    requires Linked(all, l)
    ensures Linked(With(all, t, x), l)
  {
    var big := With(all, t, x);
    forall p | 0 <= p < |big| ensures PointsRight(big, p, l) {
      if p < t {
        assert big[p] == all[p] && PointsRight(all, p, l);
        TargetBefore(all, t, x, p, l);
      } else if p > t {
        assert big[p] == all[p - 1] && PointsRight(all, p - 1, l);
        TargetAfter(all, t, x, p - 1, l);
      }
    }
  }

  lemma LowNodeTaken(all: seq<SkipListNode>, t: nat, x: SkipListNode, l: nat)
    requires 1 <= t <= |all| && x.level < l && Sized(all) && Sized(With(all, t, x))
    requires Linked(With(all, t, x), l)
    ensures Linked(all, l)
  {
    var big := With(all, t, x);
    forall p | 0 <= p < |all| ensures PointsRight(all, p, l) {
      if p < t {
        assert big[p] == all[p] && PointsRight(big, p, l);
        TargetBefore(all, t, x, p, l);
      } else {
        assert big[p + 1] == all[p] && PointsRight(big, p + 1, l);
        TargetAfter(all, t, x, p, l);
      }
    }
  }

  /** b is the last node before position t that reaches level l. */
  ghost predicate LastBefore(all: seq<SkipListNode>, b: nat, t: nat, l: nat) {
    b < t <= |all| && all[b].level >= l && Next(all, b, l) >= t
  }

  lemma OnlyLastLooksPast(all: seq<SkipListNode>, b: nat, t: nat, l: nat, p: nat)
    requires LastBefore(all, b, t, l) && p < t && all[p].level >= l
    ensures Next(all, p, l) >= t <==> p == b
  {
  }

  lemma SameNext(all: seq<SkipListNode>, b: nat, t: nat, l: nat)
    requires LastBefore(all, b, t, l)
    ensures Next(all, t - 1, l) == Next(all, b, l)
  {
    NextIs(all, t - 1, l, Next(all, b, l));
  }

  /** The position in the shorter list of a node other than x. */
  ghost function Shrink(p: nat, t: nat): nat
    requires p != t
  {
    if p < t then p else p - 1
  }

  /** All that adding x does to a level it reaches: the last node before it looks at x, and
      x looks where that node looked. */
  lemma TargetsWith(all: seq<SkipListNode>, b: nat, t: nat, x: SkipListNode, l: nat, p: nat)
    requires LastBefore(all, b, t, l) && x.level >= l && p <= |all|
    ensures p != t ==> With(all, t, x)[p] == all[Shrink(p, t)]
    ensures With(all, t, x)[p].level >= l ==>
              Target(With(all, t, x), p, l) ==
              if p == b then x else if p == t then Target(all, b, l) else Target(all, Shrink(p, t), l)
  {
    if p < t {
      TargetBefore(all, t, x, p, l);
      if all[p].level >= l { OnlyLastLooksPast(all, b, t, l, p); }
    } else {
      TargetAfter(all, t, x, p - 1, l);
      if p == t { SameNext(all, b, t, l); }
    }
  }

  lemma SizedWith(all: seq<SkipListNode>, t: nat, x: SkipListNode)
    requires t <= |all|
    ensures Sized(With(all, t, x)) <==> Sized(all) && |x.forward| == x.level + 1
  {
    var big := With(all, t, x);
    if Sized(big) {
      assert big[t] == x;
      forall p | 0 <= p < |all| ensures |all[p].forward| == all[p].level + 1 {
        var p' := if p < t then p else p + 1;
        assert all[p] == big[p'];
      }
    } else {
      var p' :| 0 <= p' < |big| && |big[p'].forward| != big[p'].level + 1;
      if p' != t { assert big[p'] == all[Shrink(p', t)]; }
    }
  }

  /** Links x in behind before, at one level. */
  method LinkIn(before: SkipListNode, x: SkipListNode, level: nat,
                ghost all: seq<SkipListNode>, ghost b: nat, ghost t: nat)
    requires t <= |all| && Sized(all) && Sized(With(all, t, x)) && Distinct(all) && x !in all && level <= x.level
    requires LastBefore(all, b, t, level) && before == all[b] && Linked(all, level)
    modifies before`forward, x`forward
    ensures Sized(all) && Sized(With(all, t, x)) && Linked(With(all, t, x), level)
    ensures level < |old(x.forward)| && level < |old(before.forward)|
    ensures x.forward == old(x.forward)[level := old(before.forward[level])]
    ensures before.forward == old(before.forward)[level := x]
    ensures forall l: nat :: l != level && old(Linked(all, l)) ==> Linked(all, l)
    ensures forall l: nat :: l != level && old(Linked(With(all, t, x), l)) ==> Linked(With(all, t, x), l)
  {
    hide Less, Next, Target, Distinct;
    ghost var big := With(all, t, x);
    assert PointsRight(all, b, level) && big[t] == x;
    x.forward := x.forward[level := before.forward[level]];
    before.forward := before.forward[level := x];
    SizedWith(all, t, x);
    forall p | 0 <= p < |big| ensures PointsRight(big, p, level) {
      TargetsWith(all, b, t, x, level, p);
      if p != t {
        assert old(PointsRight(all, Shrink(p, t), level));
        if Shrink(p, t) != b { NotSame(all, Shrink(p, t), b); }
      }
    }
    forall l: nat | l != level && old(Linked(all, l)) ensures Linked(all, l) {
      forall p | 0 <= p < |all| ensures PointsRight(all, p, l) { assert old(PointsRight(all, p, l)); }
    }
    forall l: nat | l != level && old(Linked(big, l)) ensures Linked(big, l) {
      forall p | 0 <= p < |big| ensures PointsRight(big, p, l) { assert old(PointsRight(big, p, l)); }
    }
  }

  /** Links x in on all its levels; update holds the last node before it on each. */
  method LinkLevels(x: SkipListNode, update: seq<SkipListNode?>,
                    ghost all: seq<SkipListNode>, ghost stops: seq<nat>, ghost t: nat)
    requires Insertable(all, t, x) && |update| == |stops| > x.level
    requires forall l :: 0 <= l <= x.level ==> LastBefore(all, stops[l], t, l) && update[l] == all[stops[l]]
    requires forall l: nat :: Linked(all, l)
    modifies x`forward, all`forward
    ensures Sized(With(all, t, x)) && forall l: nat :: Linked(With(all, t, x), l)
  {
    ghost var big := With(all, t, x);
    for level: nat := 0 to x.level + 1
      invariant Sized(all) && Sized(big)
      invariant forall l: nat :: l < level ==> Linked(big, l)
      invariant forall l: nat :: l >= level ==> Linked(all, l)
    {
      assert LastBefore(all, stops[level], t, level) && update[level] == all[stops[level]];
      LinkIn(update[level], x, level, all, stops[level], t);
    }
    forall l: nat ensures Linked(big, l) {
      if l > x.level { LowNodeAdded(all, t, x, l); }
    }
  }

  ghost predicate Insertable(all: seq<SkipListNode>, t: nat, x: SkipListNode)
    reads x`forward, all`forward
  {
    1 <= t <= |all| && x !in all && Distinct(all) && Sized(all) && Sized(With(all, t, x))
  }

  /** Without x, all nodes of a level it reaches still point right except the last one before
      it, which should look where x looks. */
  lemma Bypass(all: seq<SkipListNode>, b: nat, t: nat, x: SkipListNode, level: nat)
    requires LastBefore(all, b, t, level) && Distinct(all) && x !in all && level <= x.level
    requires Sized(all) && Sized(With(all, t, x)) && Linked(With(all, t, x), level)
    ensures level < |x.forward| && x.forward[level] == Target(all, b, level)
    ensures forall p :: 0 <= p < |all| && p != b ==> PointsRight(all, p, level)
  {
    var big := With(all, t, x);
    TargetsWith(all, b, t, x, level, t);
    assert big[t] == x && PointsRight(big, t, level);
    forall p | 0 <= p < |all| && p != b ensures PointsRight(all, p, level) {
      var p' := if p < t then p else p + 1;
      TargetsWith(all, b, t, x, level, p');
      assert PointsRight(big, p', level);
    }
  }

  /** Takes x, at position t of the longer list, out of one level. */
  method LinkOut(before: SkipListNode, x: SkipListNode, level: nat,
                 ghost all: seq<SkipListNode>, ghost b: nat, ghost t: nat)
    requires t <= |all| && Sized(all) && Sized(With(all, t, x)) && Distinct(all) && x !in all && level <= x.level
    requires LastBefore(all, b, t, level) && before == all[b] && Linked(With(all, t, x), level)
    modifies before`forward
    ensures Sized(all) && Sized(With(all, t, x)) && Linked(all, level)
    ensures level < |x.forward| && before.forward == old(before.forward)[level := x.forward[level]]
    ensures forall l: nat :: l != level && old(Linked(all, l)) ==> Linked(all, l)
    ensures forall l: nat :: l != level && old(Linked(With(all, t, x), l)) ==> Linked(With(all, t, x), l)
  {
    hide Less, Next, Target, With, Distinct;
    ghost var big := With(all, t, x);
    Bypass(all, b, t, x, level);
    before.forward := before.forward[level := x.forward[level]];
    SizedWith(all, t, x);
    forall p | 0 <= p < |all| ensures PointsRight(all, p, level) {
      if p != b {
        NotSame(all, p, b);
        assert old(PointsRight(all, p, level));
      }
    }
    forall l: nat | l != level && old(Linked(all, l)) ensures Linked(all, l) {
      forall p | 0 <= p < |all| ensures PointsRight(all, p, l) { assert old(PointsRight(all, p, l)); }
    }
    forall l: nat | l != level && old(Linked(big, l)) ensures Linked(big, l) {
      forall p | 0 <= p < |big| ensures PointsRight(big, p, l) { assert old(PointsRight(big, p, l)); }
    }
  }

  // --- Walking ---

  /** The walk at level l for this key stands at c: everything up to c is before the key,
      and the next node of the level is not. */
  ghost predicate StopsAt(all: seq<SkipListNode>, c: nat, l: nat, key: string) {
    && c < |all| && all[c].level >= l
    && (c == 0 || Less(all[c].key, key))
    && (var q := Next(all, c, l); q == |all| || !Less(all[q].key, key))
  }

  /** Once the walk has stopped at c on level 0, position c + 1 is where the key is, or
      where it would go. */
  lemma Located(all: seq<SkipListNode>, c: nat, key: string, p: nat)
    requires Sorted(all) && StopsAt(all, c, 0, key) && 1 <= p < |all|
    ensures p <= c ==> Less(all[p].key, key)
    ensures p == c + 1 ==> all[p].key == key || Less(key, all[p].key)
    ensures p > c + 1 ==> Less(key, all[p].key)
  {
    if p < c {
      assert Before(all, p, c);
      LessTransitive(all[p].key, all[c].key, key);
    } else if p > c {
      LessTotal(all[c + 1].key, key);
      assert p > c + 1 ==> Before(all, c + 1, p);
      if p > c + 1 && all[c + 1].key != key { LessTransitive(key, all[c + 1].key, all[p].key); }
    }
  }

  /** Where the walk stopped on a higher level is the last node of that level before c + 1. */
  lemma StoppedBefore(all: seq<SkipListNode>, b: nat, l: nat, c: nat, key: string)
    requires Sorted(all) && StopsAt(all, c, 0, key) && StopsAt(all, b, l, key)
    ensures LastBefore(all, b, c + 1, l)
  {
    if b > c {
      Located(all, c, key, b);
      LessIrreflexive(key);
      if Less(key, all[b].key) { LessTransitive(key, all[b].key, key); }
    }
    var q := Next(all, b, l);
    if q <= c { Located(all, c, key, q); }
  }

  /** x may go to position t. */
  ghost predicate Fits(all: seq<SkipListNode>, t: nat, x: SkipListNode) {
    && 1 <= t <= |all| && x !in all
    && forall p :: 1 <= p < |all| ==> if p < t then Less(all[p].key, x.key) else Less(x.key, all[p].key)
  }

  /** Links x into a list that it fits into. */
  method LinkUp(x: SkipListNode, update: seq<SkipListNode?>, ghost all: seq<SkipListNode>,
                ghost places: seq<nat>, ghost t: nat, ghost contents: map<string, string>)
    requires WellLinked(all, contents) && Fits(all, t, x) && x.key !in contents
    requires |x.forward| == x.level + 1 && |update| == |places| > x.level
    requires forall l :: 0 <= l <= x.level ==> LastBefore(all, places[l], t, l) && update[l] == all[places[l]]
    modifies x`forward, all`forward
    ensures WellLinked(With(all, t, x), contents[x.key := x.value])
  {
    SortedWith(all, t, x);
    HoldsWith(all, t, x, contents);
    SizedWith(all, t, x);
    LinkLevels(x, update, all, places, t);
  }

  /** Takes x out of every level; where update does not point to x, x does not reach. */
  method UnlinkLevels(x: SkipListNode, update: seq<SkipListNode?>, top: nat,
                      ghost all: seq<SkipListNode>, ghost stops: seq<nat>, ghost t: nat)
    requires Insertable(all, t, x) && x.level <= top < |update| && |update| == |stops|
    requires forall l :: 0 <= l <= top ==> LastBefore(all, stops[l], t, l) && update[l] == all[stops[l]]
    requires forall l: nat :: Linked(With(all, t, x), l)
    modifies all`forward
    ensures Sized(all) && forall l: nat :: Linked(all, l)
  {
    ghost var big := With(all, t, x);
    for level: nat := 0 to top + 1
      invariant Sized(all) && Sized(big) && level <= x.level + 1
      invariant forall l: nat :: l < level ==> Linked(all, l)
      invariant forall l: nat :: l >= level ==> Linked(big, l)
    {
      assert LastBefore(all, stops[level], t, level) && update[level] == all[stops[level]];
      LooksAt(all, stops[level], t, x, level);
      if update[level].forward[level] != x { break; }
      LinkOut(update[level], x, level, all, stops[level], t);
    }
    forall l: nat ensures Linked(all, l) {
      if l > x.level { LowNodeTaken(all, t, x, l); }
    }
  }

  /** Whether x reaches a level shows in the pointer of the last node before it. */
  lemma LooksAt(all: seq<SkipListNode>, b: nat, t: nat, x: SkipListNode, l: nat)
    requires Insertable(all, t, x) && LastBefore(all, b, t, l) && Linked(With(all, t, x), l)
    ensures all[b].forward[l] == x <==> x.level >= l
  {
    var big := With(all, t, x);
    TargetBefore(all, t, x, b, l);
    assert big[b] == all[b] && PointsRight(big, b, l);
  }

  lemma SortedWithout(all: seq<SkipListNode>, t: nat, x: SkipListNode)
    requires 1 <= t <= |all| && Sorted(With(all, t, x)) && Distinct(With(all, t, x))
    ensures Sorted(all) && Distinct(all) && x !in all
  {
    var big := With(all, t, x);
    forall i, j | 0 <= i < j < |all| ensures Differ(all, i, j) && (i >= 1 ==> Before(all, i, j)) {
      var i', j' := if i < t then i else i + 1, if j < t then j else j + 1;
      assert big[i'] == all[i] && big[j'] == all[j];
      assert Differ(big, i', j') && (i >= 1 ==> Before(big, i', j'));
    }
    forall i | 0 <= i < |all| ensures all[i] != x {
      var i' := if i < t then i else i + 1;
      assert big[i'] == all[i] && big[t] == x;
      NotSame(big, i', t);
    }
  }

  lemma HoldsWithout(all: seq<SkipListNode>, t: nat, x: SkipListNode, contents: map<string, string>)
    requires 1 <= t <= |all| && Sorted(With(all, t, x)) && Holds(With(all, t, x), contents)
    ensures Holds(all, contents - {x.key})
  {
    var big := With(all, t, x);
    assert big[t] == x;
    forall p | 1 <= p < |all|
      ensures all[p].key in contents && all[p].key != x.key && contents[all[p].key] == all[p].value
    {
      var p' := if p < t then p else p + 1;
      assert big[p'] == all[p];
      assert if p' < t then Before(big, p', t) else Before(big, t, p');
      LessIrreflexive(x.key);
    }
    forall k | k in contents && k != x.key ensures exists p :: 1 <= p < |all| && all[p].key == k {
      var p' :| 1 <= p' < |big| && big[p'].key == k;
      assert all[Shrink(p', t)] == big[p'];
    }
  }

  lemma TakenOut(all: seq<SkipListNode>, t: nat, small: seq<SkipListNode>)
    requires 1 <= t < |all| && small == all[..t] + all[t + 1..]
    ensures all == With(small, t, all[t]) && t <= |small| && small[0] == all[0]
    ensures forall p :: 0 <= p < t ==> small[p] == all[p]
    ensures forall p :: 1 <= p < |small| ==> exists q :: 1 <= q < |all| && small[p] == all[q]
    ensures forall n :: n in small ==> n in all
  {
    forall p | 1 <= p < |small| ensures exists q :: 1 <= q < |all| && small[p] == all[q] {
      var q := if p < t then p else p + 1;
      assert small[p] == all[q];
    }
  }

  /** Taking x out of a list that has it at position t. */
  method Unlink(x: SkipListNode, update: seq<SkipListNode?>, top: nat, ghost all: seq<SkipListNode>,
                ghost stops: seq<nat>, ghost t: nat, ghost contents: map<string, string>)
    requires 1 <= t <= |all| && WellLinked(With(all, t, x), contents)
    requires x.level <= top < |update| && |update| == |stops|
    requires forall l :: 0 <= l <= top ==> LastBefore(With(all, t, x), stops[l], t, l) && update[l] == all[stops[l]]
    modifies all`forward
    ensures WellLinked(all, contents - {x.key})
  {
    SortedWithout(all, t, x);
    HoldsWithout(all, t, x, contents);
    SizedWith(all, t, x);
    forall l | 0 <= l <= top ensures LastBefore(all, stops[l], t, l) {
      NextBefore(all, t, x, stops[l], l);
    }
    UnlinkLevels(x, update, top, all, stops, t);
  }

  /** The tallest node after the header has this level; 0 if there is none. */
  ghost predicate Tallest(all: seq<SkipListNode>, level: nat) {
    && (forall p :: 1 <= p < |all| ==> all[p].level <= level)
    && (level > 0 ==> exists p :: 1 <= p < |all| && all[p].level == level)
  }

  lemma TallestWith(all: seq<SkipListNode>, t: nat, x: SkipListNode, level: nat)
    requires 1 <= t <= |all| && Tallest(all, level)
    ensures Tallest(With(all, t, x), if x.level > level then x.level else level)
  {
    var big := With(all, t, x);
    forall p | 1 <= p < |big| ensures p != t ==> big[p].level <= level {
      if p != t { assert big[p] == all[Shrink(p, t)]; }
    }
    assert big[t] == x;
    if level > 0 {
      var p :| 1 <= p < |all| && all[p].level == level;
      assert big[if p < t then p else p + 1] == all[p];
    }
  }

  /** Nothing reaches a level above the tallest node, so there the header comes last. */
  lemma AboveTallest(all: seq<SkipListNode>, level: nat, l: nat, t: nat)
    requires Tallest(all, level) && level < l && 1 <= t <= |all| && all[0].level >= l
    ensures LastBefore(all, 0, t, l)
  {
    NextIs(all, 0, l, |all|);
  }

  lemma SortedWith(all: seq<SkipListNode>, t: nat, x: SkipListNode)
    requires 1 <= t <= |all| && Sorted(all) && Distinct(all) && x !in all
    requires forall p :: 1 <= p < t ==> Less(all[p].key, x.key)
    requires forall p :: t <= p < |all| ==> Less(x.key, all[p].key)
    ensures Sorted(With(all, t, x)) && Distinct(With(all, t, x))
  {
    var big := With(all, t, x);
    forall i, j | 0 <= i < j < |big| ensures Differ(big, i, j) && (i >= 1 ==> Before(big, i, j)) {
      if i != t { assert big[i] == all[Shrink(i, t)]; }
      if j != t { assert big[j] == all[Shrink(j, t)]; }
      if i != t && j != t {
        assert Differ(all, Shrink(i, t), Shrink(j, t));
        assert i >= 1 ==> Before(all, Shrink(i, t), Shrink(j, t));
      }
    }
  }

  lemma HoldsWith(all: seq<SkipListNode>, t: nat, x: SkipListNode, contents: map<string, string>)
    requires 1 <= t <= |all| && Holds(all, contents) && x.key !in contents
    ensures Holds(With(all, t, x), contents[x.key := x.value])
  {
    var big, more := With(all, t, x), contents[x.key := x.value];
    forall p | 1 <= p < |big| ensures big[p].key in more && more[big[p].key] == big[p].value {
      if p != t { assert big[p] == all[Shrink(p, t)]; }
    }
    forall k | k in more ensures exists p :: 1 <= p < |big| && big[p].key == k {
      if k == x.key {
        assert big[t].key == k;
      } else {
        var p :| 1 <= p < |all| && all[p].key == k;
        assert big[if p < t then p else p + 1].key == k;
      }
    }
  }

  // --- Levels ---

  /** The level that these draws give: so many lucky ones, then an unlucky one or the limit. */
  predicate Drawn(lucky: nat -> bool, level: nat) {
    && level < MAX_LEVEL
    && (forall i :: 0 <= i < level ==> lucky(i))
    && (level < MAX_LEVEL - 1 ==> !lucky(level))
  }

  /** Every level below the limit can be drawn, no other one can, and the draws decide. */
  lemma LevelsDrawn(level: nat)
    ensures (exists lucky: nat -> bool :: Drawn(lucky, level)) <==> level < MAX_LEVEL
    ensures forall lucky: nat -> bool, other: nat :: Drawn(lucky, level) && Drawn(lucky, other) ==> level == other
  {
    if level < MAX_LEVEL {
      assert Drawn(i => i < level, level);
    }
  }

  class SkipList {
    const header: SkipListNode
    var currentLevel: nat
    var size: int
    ghost var all: seq<SkipListNode>
    ghost var contents: map<string, string>

    /** What holds of the nodes whatever the height of the list. */
    ghost predicate Shape()
      reads this`all, this`size, this`contents, all`forward, all`value
    {
      |all| >= 1 && all[0] == header && header.level == MAX_LEVEL && size == |all| - 1 && WellLinked(all, contents)
    }

    /** No node reaches above the current level, and some node reaches it. */
    ghost predicate Valid()
      reads this, all
    {
      Shape() && currentLevel < MAX_LEVEL && Tallest(all, currentLevel)
    }

    constructor ()
      ensures Valid() && contents == map[] && fresh(header) && all == [header]
    {
      header := new SkipListNode("", "", MAX_LEVEL);
      currentLevel, size := 0, 0;
      new;
      all, contents := [header], map[];
    }

    /** What the pointers look like: level 0 visits every node, a level visits only nodes that
        the level below visits too, keys grow along every pointer, and the levels above the
        current one are empty. */
    lemma Levels(p: nat, l: nat)
      requires Valid() && p < |all| && l <= all[p].level
      ensures l < |all[p].forward|
      ensures all[p].forward[0] == At(all, p + 1)
      ensures l > currentLevel ==> all[p].forward[l] == null
      ensures all[p].forward[l] != null ==>
                all[p].forward[l].level >= l && (p >= 1 ==> Less(all[p].key, all[p].forward[l].key))
    {
      assert Linked(all, 0) && PointsRight(all, p, 0);
      assert Linked(all, l) && PointsRight(all, p, l);
      var q := Next(all, p, l);
      assert 1 <= p && q < |all| ==> Before(all, p, q);
    }

    /** Counts lucky draws until the first unlucky one, up to the limit. */
    method RandomLevel(lucky: nat -> bool) returns (level: nat)
      ensures Drawn(lucky, level)
    {
      level := 0;
      while lucky(level) && level < MAX_LEVEL - 1
        invariant level < MAX_LEVEL && forall i :: 0 <= i < level ==> lucky(i)
        decreases MAX_LEVEL - level
      {
        level := level + 1;
      }
    }

    /** Moves right on one level while the next key is smaller. */
    method Walk(from: SkipListNode, level: nat, key: string, ghost at: nat)
      returns (current: SkipListNode, ghost c: nat)
      requires Shape() && level <= MAX_LEVEL && at < |all| && all[at] == from && from.level >= level
      requires at == 0 || Less(from.key, key)
      ensures c < |all| && current == all[c] && StopsAt(all, c, level, key)
    {
      current, c := from, at;
      assert Linked(all, level) && PointsRight(all, c, level);
      while current.forward[level] != null && Less(current.forward[level].key, key)
        invariant c < |all| && current == all[c] && current.level >= level && (c == 0 || Less(current.key, key))
        invariant PointsRight(all, c, level) && level < |current.forward|
        decreases |all| - c
      {
        current, c := current.forward[level], Next(all, c, level);
        assert PointsRight(all, c, level);
      }
    }

    /** The value stored for the key, if any. */
    method Search(key: string) returns (found: bool, value: string)
      requires Valid()
      ensures found == (key in contents)
      ensures value == if found then contents[key] else ""
    {
      hide Less, Next, Sorted, Distinct;
      var current := header;
      ghost var c: nat := 0;
      for level: nat := currentLevel + 1 downto 0
        invariant c < |all| && current == all[c]
        invariant if level > currentLevel then c == 0 else StopsAt(all, c, level, key)
      {
        current, c := Walk(current, level, key, c);
      }
      assert Linked(all, 0) && PointsRight(all, c, 0);
      var next := current.forward[0];
      forall p | 1 <= p < |all| ensures all[p].key == key ==> p == c + 1 {
        Located(all, c, key, p);
        LessIrreflexive(key);
      }
      if next != null && next.key == key { return true, next.value; }
      return false, "";
    }

    /** The descent that insert and remove share: update[l] is where the walk stopped on level l. */
    method FindUpdate(key: string) returns (update: seq<SkipListNode?>, current: SkipListNode, ghost stops: seq<nat>)
      requires Valid()
      ensures |update| == |stops| == MAX_LEVEL
      ensures Stopped(update, stops, 0, key)
      ensures current == update[0]
    {
      hide WellLinked, Less, Next;
      update, stops := seq(MAX_LEVEL, _ => null), seq(MAX_LEVEL, _ => 0);
      current := header;
      ghost var c: nat := 0;
      for level: nat := currentLevel + 1 downto 0
        invariant |update| == |stops| == MAX_LEVEL
        invariant c < |all| && current == all[c]
        invariant if level > currentLevel then c == 0 else StopsAt(all, c, level, key) && update[level] == current
        invariant Stopped(update, stops, level, key)
      {
        current, c := Walk(current, level, key, c);
        update, stops := update[level := current], stops[level := c];
      }
    }

    /** Levels from .. currentLevel have been walked. */
    ghost predicate Stopped(update: seq<SkipListNode?>, stops: seq<nat>, from: nat, key: string)
      requires |update| == |stops| == MAX_LEVEL
      reads this, all
    {
      forall l :: from <= l <= currentLevel && l < MAX_LEVEL ==>
        StopsAt(all, stops[l], l, key) && update[l] == all[stops[l]]
    }

    /** The node after the place where the walk ended is the only one that can hold the key. */
    lemma FoundNext(current: SkipListNode, c: nat, key: string)
      requires Valid() && StopsAt(all, c, 0, key) && current == all[c]
      ensures |current.forward| > 0 && current.forward[0] == At(all, c + 1)
      ensures key in contents <==> c + 1 < |all| && all[c + 1].key == key
    {
      assert Linked(all, 0) && PointsRight(all, c, 0);
      forall p | 1 <= p < |all| ensures all[p].key == key ==> p == c + 1 {
        Located(all, c, key, p);
        LessIrreflexive(key);
      }
    }

    /** Replaces the value of the node at position p. */
    method Overwrite(node: SkipListNode, value: string, ghost p: nat)
      requires Valid() && 1 <= p < |all| && all[p] == node
      modifies this`contents, node`value
      ensures Valid() && contents == old(contents)[node.key := value]
    {
      hide Less, Next, Target;
      node.value := value;
      contents := contents[node.key := value];
      forall q | 1 <= q < |all| ensures all[q].key in contents && contents[all[q].key] == all[q].value {
        if q != p {
          LessIrreflexive(node.key);
          assert if q < p then Before(all, q, p) else Before(all, p, q);
          assert all[q].key != node.key;
        }
      }
      forall l: nat ensures Linked(all, l) {
        assert old(Linked(all, l));
        forall r | 0 <= r < |all| ensures PointsRight(all, r, l) { assert old(PointsRight(all, r, l)); }
      }
    }

    lemma PlaceFits(x: SkipListNode, c: nat)
      requires Shape() && StopsAt(all, c, 0, x.key) && x !in all && x.key !in contents
      ensures Fits(all, c + 1, x)
    {
      forall p | 1 <= p < |all| ensures if p < c + 1 then Less(all[p].key, x.key) else Less(x.key, all[p].key) {
        Located(all, c, x.key, p);
        assert all[p].key in contents;
      }
    }

    /** Above the current level, the header is the last node before the new one. */
    method Raise(update: seq<SkipListNode?>, ghost stops: seq<nat>, newLevel: nat, ghost t: nat)
      returns (raised: seq<SkipListNode?>, ghost places: seq<nat>)
      requires Valid() && currentLevel < newLevel < MAX_LEVEL && 1 <= t <= |all|
      requires |update| == |stops| == MAX_LEVEL
      requires forall l :: 0 <= l <= currentLevel ==> LastBefore(all, stops[l], t, l) && update[l] == all[stops[l]]
      ensures |raised| == |places| == MAX_LEVEL
      ensures forall l :: 0 <= l <= newLevel ==> LastBefore(all, places[l], t, l) && raised[l] == all[places[l]]
    {
      raised, places := update, stops;
      for i := currentLevel + 1 to newLevel + 1
        invariant |raised| == |places| == MAX_LEVEL
        invariant forall l :: 0 <= l < i ==> LastBefore(all, places[l], t, l) && raised[l] == all[places[l]]
      {
        AboveTallest(all, currentLevel, i, t);
        raised, places := raised[i := header], places[i := 0];
      }
    }

    /** Inserts the key or overwrites its value; true if the key is new.  A new key gets a node
        of the level that the draws give. */
    method Insert(key: string, value: string, lucky: nat -> bool) returns (inserted: bool)
      requires Valid()
      modifies this, all
      ensures Valid() && contents == old(contents)[key := value]
      ensures inserted == (key !in old(contents))
      ensures inserted ==> exists x :: x in all && fresh(x) && x.key == key && Drawn(lucky, x.level)
      ensures forall n :: n in all ==> n in old(all) || fresh(n)
    {
      hide WellLinked, Less, Next, Tallest;
      var update, current;
      ghost var stops;
      update, current, stops := FindUpdate(key);
      assert StopsAt(all, stops[0], 0, key);
      FoundNext(current, stops[0], key);
      var next := current.forward[0];
      if next != null && next.key == key {
        Overwrite(next, value, stops[0] + 1);
        return false;
      }
      var newLevel, raised;
      ghost var places;
      newLevel, raised, places := ChooseLevel(update, stops, key, lucky);
      var x := InsertNew(key, value, newLevel, raised, places, stops[0]);
      return true;
    }

    /** A level for a new node, and the last node before its place on each of its levels. */
    method ChooseLevel(update: seq<SkipListNode?>, ghost stops: seq<nat>, key: string, lucky: nat -> bool)
      returns (newLevel: nat, raised: seq<SkipListNode?>, ghost places: seq<nat>)
      requires Valid() && |update| == |stops| == MAX_LEVEL && Stopped(update, stops, 0, key)
      ensures Drawn(lucky, newLevel)
      ensures stops[0] < |all| && newLevel < MAX_LEVEL && |raised| == |places| == MAX_LEVEL
      ensures forall l :: 0 <= l <= newLevel ==>
                LastBefore(all, places[l], stops[0] + 1, l) && raised[l] == all[places[l]]
    {
      assert StopsAt(all, stops[0], 0, key);
      forall l | 0 <= l <= currentLevel
        ensures LastBefore(all, stops[l], stops[0] + 1, l) && update[l] == all[stops[l]]
      {
        StoppedBefore(all, stops[l], l, stops[0], key);
      }
      newLevel := RandomLevel(lucky);
      raised, places := update, stops;
      if newLevel > currentLevel {
        raised, places := Raise(update, stops, newLevel, stops[0] + 1);
      }
    }

    method NewNode(key: string, value: string, newLevel: nat, ghost c: nat) returns (x: SkipListNode)
      requires Valid() && StopsAt(all, c, 0, key) && key !in contents
      ensures fresh(x) && x.key == key && x.value == value && x.level == newLevel && |x.forward| == newLevel + 1
      ensures Fits(all, c + 1, x)
      ensures Tallest(With(all, c + 1, x), if newLevel > currentLevel then newLevel else currentLevel)
    {
      hide Less, WellLinked, With, Next, Fits, Tallest, Before;
      x := new SkipListNode(key, value, newLevel);
      PlaceFits(x, c);
      TallestWith(all, c + 1, x, currentLevel);
    }

    /** Makes the node and raises the current level if the node is the tallest. */
    method PrepareNode(key: string, value: string, newLevel: nat, ghost c: nat) returns (x: SkipListNode)
      requires Valid() && StopsAt(all, c, 0, key) && key !in contents && newLevel < MAX_LEVEL
      modifies this`currentLevel
      ensures fresh(x) && x.key == key && x.value == value && x.level == newLevel && |x.forward| == newLevel + 1
      ensures Shape() && currentLevel < MAX_LEVEL && Fits(all, c + 1, x) && Tallest(With(all, c + 1, x), currentLevel)
    {
      hide WellLinked, With, Fits, Tallest, StopsAt;
      x := NewNode(key, value, newLevel, c);
      if newLevel > currentLevel { currentLevel := newLevel; }
    }

    method InsertNew(key: string, value: string, newLevel: nat, update: seq<SkipListNode?>,
                     ghost places: seq<nat>, ghost c: nat)
      returns (newNode: SkipListNode)
      requires Valid() && StopsAt(all, c, 0, key) && key !in contents
      requires newLevel < MAX_LEVEL == |update| == |places|
      requires forall l :: 0 <= l <= newLevel ==> LastBefore(all, places[l], c + 1, l) && update[l] == all[places[l]]
      modifies this, all
      ensures Valid() && contents == old(contents)[key := value]
      ensures newNode in all && fresh(newNode) && newNode.key == key && newNode.level == newLevel
      ensures forall n :: n in all ==> n in old(all) || fresh(n)
    {
      hide WellLinked, With, Fits, Tallest, LastBefore, StopsAt;
      newNode := PrepareNode(key, value, newLevel, c);
      AddNode(newNode, update, places, c + 1);
    }

    method AddNode(x: SkipListNode, update: seq<SkipListNode?>, ghost places: seq<nat>, ghost t: nat)
      requires Shape() && currentLevel < MAX_LEVEL
      requires Fits(all, t, x) && x.key !in contents && Tallest(With(all, t, x), currentLevel)
      requires |x.forward| == x.level + 1 && |update| == |places| > x.level
      requires forall l :: 0 <= l <= x.level ==> LastBefore(all, places[l], t, l) && update[l] == all[places[l]]
      modifies this`size, this`all, this`contents, x`forward, all`forward
      ensures Valid() && x in all && forall n :: n in all ==> n in old(all) || n == x
      ensures contents == old(contents)[x.key := x.value]
    {
      hide WellLinked, With, Tallest, LastBefore;
      ghost var big := With(all, t, x);
      WithMembers(all, t, x);
      LinkUp(x, update, all, places, t, contents);
      all, contents := big, contents[x.key := x.value];
      size := size + 1;
    }

    /** Removes the key; false if it is not there. */
    method Remove(key: string) returns (removed: bool)
      requires Valid()
      modifies this, all
      ensures Valid() && contents == old(contents) - {key}
      ensures removed == (key in old(contents))
      ensures forall n :: n in all ==> n in old(all)
    {
      hide WellLinked, Less, Next, Tallest;
      var update, current;
      ghost var stops;
      update, current, stops := FindUpdate(key);
      assert StopsAt(all, stops[0], 0, key);
      FoundNext(current, stops[0], key);
      var node := current.forward[0];
      if node == null || node.key != key {
        assert contents - {key} == contents;
        return false;
      }
      RemoveNode(node, update, stops, stops[0] + 1);
      LowerLevel();
      return true;
    }

    method RemoveNode(node: SkipListNode, update: seq<SkipListNode?>, ghost stops: seq<nat>, ghost t: nat)
      requires Valid() && 1 <= t < |all| && node == all[t] && |update| == |stops| == MAX_LEVEL
      requires t == stops[0] + 1 && Stopped(update, stops, 0, node.key)
      modifies this`size, this`all, this`contents, all`forward
      ensures Shape() && contents == old(contents) - {node.key}
      ensures forall n :: n in all ==> n in old(all)
      ensures forall p :: 1 <= p < |all| ==> all[p].level <= currentLevel
    {
      hide Less, Next, With;
      ghost var small := all[..t] + all[t + 1..];
      TakenOut(all, t, small);
      assert StopsAt(all, stops[0], 0, node.key);
      forall l | 0 <= l <= currentLevel ensures LastBefore(all, stops[l], t, l) && update[l] == small[stops[l]] {
        StoppedBefore(all, stops[l], l, stops[0], node.key);
      }
      TakeOut(node, update, small, stops, t);
    }

    method TakeOut(node: SkipListNode, update: seq<SkipListNode?>, ghost small: seq<SkipListNode>,
                   ghost stops: seq<nat>, ghost t: nat)
      requires Shape() && 1 <= t <= |small| && all == With(small, t, node) && small[0] == header
      requires node.level <= currentLevel < |update| && |update| == |stops|
      requires forall l :: 0 <= l <= currentLevel ==> LastBefore(all, stops[l], t, l) && update[l] == small[stops[l]]
      modifies this`size, this`all, this`contents, small`forward
      ensures Shape() && contents == old(contents) - {node.key} && all == small
    {
      hide WellLinked, LastBefore;
      Unlink(node, update, currentLevel, small, stops, t, contents);
      all, contents := small, contents - {node.key};
      size := size - 1;
    }

    /** Drops the levels that no node reaches any more. */
    method LowerLevel()
      requires Shape() && currentLevel < MAX_LEVEL
      requires forall p :: 1 <= p < |all| ==> all[p].level <= currentLevel
      modifies this`currentLevel
      ensures Valid()
    {
      hide Holds, Sorted, Distinct, Less, Next;
      assert Linked(all, currentLevel) && PointsRight(all, 0, currentLevel);
      while currentLevel > 0 && header.forward[currentLevel] == null
        invariant currentLevel < MAX_LEVEL && PointsRight(all, 0, currentLevel)
        invariant forall p :: 1 <= p < |all| ==> all[p].level <= currentLevel
      {
        assert Next(all, 0, currentLevel) == |all|;
        currentLevel := currentLevel - 1;
        assert Linked(all, currentLevel) && PointsRight(all, 0, currentLevel);
      }
      if currentLevel > 0 { assert all[Next(all, 0, currentLevel)].level == currentLevel; }
    }

    method GetSize() returns (n: int)
      requires Valid()
      ensures n == |contents|
    {
      KeysCount(all, contents);
      return size;
    }
  }

  lemma {:induction false} DistinctCount(keys: seq<string>, s: set<string>)
    requires forall i, j :: 0 <= i < j < |keys| ==> keys[i] != keys[j]
    requires forall k :: k in keys <==> k in s
    ensures |s| == |keys|
  {
    if keys == [] {
      assert s == {};
    } else {
      var last, rest := keys[|keys| - 1], keys[..|keys| - 1];
      assert forall k :: k in keys <==> k in rest || k == last;
      DistinctCount(rest, s - {last});
    }
  }

  /** One entry of the map for each node after the header. */
  lemma KeysCount(all: seq<SkipListNode>, contents: map<string, string>)
    requires |all| >= 1 && Sorted(all) && Holds(all, contents)
    ensures |contents| == |all| - 1
  {
    var keys := seq(|all| - 1, i requires 0 <= i < |all| - 1 => all[i + 1].key);
    forall i, j | 0 <= i < j < |keys| ensures keys[i] != keys[j] {
      assert Before(all, i + 1, j + 1);
      LessIrreflexive(keys[i]);
    }
    forall k | k in contents ensures k in keys {
      var p :| 1 <= p < |all| && all[p].key == k;
      assert keys[p - 1] == k;
    }
    DistinctCount(keys, contents.Keys);
    assert |contents| == |contents.Keys|;
  }
}
