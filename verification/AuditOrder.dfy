/** What a reader of the audit log sees after any run: every entry once, and when in order. */
module AuditOrder {
  import opened AuditLog

  datatype Op = Recording(e: Entry) | Compacting(cutoff: int) | Reopening

  function Do(l: Log, limit: int, op: Op): Log {
    match op
    case Recording(e) => Record(l, limit, e)
    case Compacting(cutoff) => Compact(l, cutoff)
    case Reopening => Reopen(l)
  }

  function Run(limit: int, ops: seq<Op>): Log {
    if ops == [] then Log([], [], 0) else Do(Run(limit, ops[..|ops| - 1]), limit, ops[|ops| - 1])
  }

  function Recorded(ops: seq<Op>): seq<Entry> {
    if ops == [] then []
    else
      var front := Recorded(ops[..|ops| - 1]);
      if ops[|ops| - 1].Recording? then front + [ops[|ops| - 1].e] else front
  }

  // ---------- nothing lost or doubled ----------

  function Bag(es: seq<Entry>): multiset<Entry> {
    multiset(es)
  }

  lemma BagMore(es: seq<Entry>, e: Entry)
    ensures Bag(es + [e]) == Bag(es) + multiset{e}
  {
  }

  lemma SidesLast(es: seq<Entry>, e: Entry, cutoff: int)
    ensures Before(es + [e], cutoff) == Before(es, cutoff) + if e.at < cutoff then [e] else []
    ensures Since(es + [e], cutoff) == Since(es, cutoff) + if e.at >= cutoff then [e] else []
  {
    assert (es + [e])[..|es|] == es;
  }

  lemma Regroup(x: multiset<Entry>, y: multiset<Entry>, z: multiset<Entry>)
    ensures x + z + y == x + y + z && x + (y + z) == x + y + z
  {
  }

  lemma {:induction false} BagSplits(es: seq<Entry>, cutoff: int)
    ensures Bag(Before(es, cutoff)) + Bag(Since(es, cutoff)) == Bag(es)
  {
    if es != [] {
      var front, e := es[..|es| - 1], es[|es| - 1];
      BagSplits(front, cutoff);
      assert front + [e] == es;
      hide *;
      BagNext(front, e, cutoff);
    }
  }

  lemma BagNext(es: seq<Entry>, e: Entry, cutoff: int)
    requires Bag(Before(es, cutoff)) + Bag(Since(es, cutoff)) == Bag(es)
    ensures Bag(Before(es + [e], cutoff)) + Bag(Since(es + [e], cutoff)) == Bag(es + [e])
  {
    hide *;
    var b, s := Before(es, cutoff), Since(es, cutoff);
    SidesLast(es, e, cutoff);
    BagMore(es, e);
    BagMore(b, e);
    BagMore(s, e);
    AddNothing(b);
    AddNothing(s);
    Regroup(Bag(b), Bag(s), multiset{e});
  }

  lemma AddNothing(es: seq<Entry>)
    ensures es + [] == es
  {
  }

  lemma SplitsAll(es: seq<Entry>, cutoff: int)
    ensures multiset(Before(es, cutoff)) + multiset(Since(es, cutoff)) == multiset(es)
  {
    BagSplits(es, cutoff);
  }

  lemma FlattenMore(segments: seq<seq<Entry>>, more: seq<Entry>)
    ensures Flatten(segments + [more]) == Flatten(segments) + more
  {
    assert (segments + [more])[..|segments|] == segments;
  }

  lemma DoKeeps(l: Log, limit: int, op: Op)
    ensures multiset(All(Do(l, limit, op)))
      == multiset(All(l)) + if op.Recording? then multiset{op.e} else multiset{}
  {
    match op
    case Recording(e) => FlattenMore(l.segments, l.active + [e]);
    case Compacting(cutoff) => {
      FlattenMore(l.segments, Before(l.active, cutoff));
      SplitsAll(l.active, cutoff);
    }
    case Reopening => {}
  }

  /** Over any run, whatever the clock did, each recorded entry is stored exactly as often as recorded. */
  lemma {:induction false} NothingLost(limit: int, ops: seq<Op>)
    ensures multiset(All(Run(limit, ops))) == multiset(Recorded(ops))
  {
    if ops != [] {
      NothingLost(limit, ops[..|ops| - 1]);
      DoKeeps(Run(limit, ops[..|ops| - 1]), limit, ops[|ops| - 1]);
    }
  }

  // ---------- order ----------

  ghost predicate Ascending(es: seq<Entry>) {
    forall i, j :: 0 <= i < j < |es| ==> es[i].at <= es[j].at
  }

  /** No entry from before the cutoff follows one from after it. */
  ghost predicate CutsCleanly(es: seq<Entry>, cutoff: int) {
    forall i, j :: 0 <= i < j < |es| && es[j].at < cutoff ==> es[i].at < cutoff
  }

  lemma {:induction false} CleanCut(es: seq<Entry>, cutoff: int)
    requires CutsCleanly(es, cutoff)
    ensures Before(es, cutoff) + Since(es, cutoff) == es
  {
    if es != [] {
      var front, l := es[..|es| - 1], es[|es| - 1];
      CleanCut(front, cutoff);
      assert es == front + [l];
      if l.at < cutoff {
        NoneSince(front, cutoff);
      }
    }
  }

  lemma {:induction false} NoneSince(es: seq<Entry>, cutoff: int)
    requires forall e :: e in es ==> e.at < cutoff
    ensures Since(es, cutoff) == []
  {
    if es != [] {
      NoneSince(es[..|es| - 1], cutoff);
    }
  }

  lemma {:induction false} Sides(es: seq<Entry>, cutoff: int)
    ensures forall e :: e in Before(es, cutoff) ==> e.at < cutoff
    ensures forall e :: e in Since(es, cutoff) ==> e.at >= cutoff
  {
    if es != [] {
      Sides(es[..|es| - 1], cutoff);
    }
  }

  lemma CleanBySides(aged: seq<Entry>, kept: seq<Entry>, cutoff: int)
    requires forall e :: e in aged ==> e.at < cutoff
    requires forall e :: e in kept ==> e.at >= cutoff
    ensures CutsCleanly(aged + kept, cutoff)
  {
    var es := aged + kept;
    forall i, j | 0 <= i < j < |es| ensures es[j].at < cutoff ==> es[i].at < cutoff {
      if j >= |aged| {
        assert es[j] == kept[j - |aged|];
      }
    }
  }

  /** The same entries at ascending places of another list. */
  ghost predicate Placed(a: seq<Entry>, es: seq<Entry>, at: seq<nat>) {
    && |at| == |a|
    && (forall i, j :: 0 <= i < j < |at| ==> at[i] < at[j])
    && forall i :: 0 <= i < |at| ==> at[i] < |es| && es[at[i]] == a[i]
  }

  lemma PlacedNext(a: seq<Entry>, es: seq<Entry>, at: seq<nat>, e: Entry)
    requires Placed(a, es, at)
    ensures Placed(a, es + [e], at) && Placed(a + [e], es + [e], at + [|es|])
  {
  }

  /** Both sides of a cutoff keep the order they had. */
  lemma {:induction false} SidesPlaced(es: seq<Entry>, cutoff: int) returns (aged: seq<nat>, kept: seq<nat>)
    ensures Placed(Before(es, cutoff), es, aged) && Placed(Since(es, cutoff), es, kept)
  {
    if es == [] {
      return [], [];
    }
    var front, e := es[..|es| - 1], es[|es| - 1];
    aged, kept := SidesPlaced(front, cutoff);
    assert es == front + [e];
    hide Placed;
    PlacedNext(Before(front, cutoff), front, aged, e);
    PlacedNext(Since(front, cutoff), front, kept, e);
    if e.at < cutoff {
      aged := aged + [|front|];
    } else {
      kept := kept + [|front|];
    }
  }

  ghost predicate InOrder(a: seq<Entry>, es: seq<Entry>) {
    exists at :: Placed(a, es, at)
  }

  /** The last of the segments has the entries of a file before the cutoff, the active file the others. */
  ghost predicate SplitOff(l: Log, c: Log, cutoff: int) {
    && |c.segments| == |l.segments| + 1 && l.segments <= c.segments
    && var aged := c.segments[|l.segments|];
      && (forall e :: e in aged ==> e.at < cutoff) && (forall e :: e in c.active ==> e.at >= cutoff)
      && multiset(aged) + multiset(c.active) == multiset(l.active)
      && InOrder(aged, l.active) && InOrder(c.active, l.active)
  }

  /** Compaction changes a log if and only if its active file has an entry from before the cutoff. It then
      moves all those entries, and only those, into one more segment, keeping the order on both sides; the
      counter becomes the length of what stays. */
  lemma CompactExact(l: Log, cutoff: int)
    ensures Compact(l, cutoff) == l <==> forall e :: e in l.active ==> e.at >= cutoff
    ensures Compact(l, cutoff) != l ==>
      SplitOff(l, Compact(l, cutoff), cutoff) && Compact(l, cutoff).count == |Compact(l, cutoff).active|
  {
    var b, s := Before(l.active, cutoff), Since(l.active, cutoff);
    SidesExact(l.active, cutoff);
    if b == [] {
      NoneBefore(l.active, cutoff);
    } else {
      assert b[0] in l.active by { PlacedIn(b, l.active); }
      assert |Compact(l, cutoff).segments| > |l.segments|;
      hide *;
      SplitsOff(l, b, s, cutoff);
      CompactParts(l, cutoff);
    }
  }

  lemma PlacedIn(a: seq<Entry>, es: seq<Entry>)
    requires InOrder(a, es)
    ensures forall e :: e in a ==> e in es
  {
  }

  lemma CompactParts(l: Log, cutoff: int)
    requires Before(l.active, cutoff) != []
    ensures Compact(l, cutoff)
      == Log(l.segments + [Before(l.active, cutoff)], Since(l.active, cutoff), |Since(l.active, cutoff)|)
  {
  }

  lemma SplitsOff(l: Log, b: seq<Entry>, s: seq<Entry>, cutoff: int)
    requires (forall e :: e in b ==> e.at < cutoff) && (forall e :: e in s ==> e.at >= cutoff)
    requires multiset(b) + multiset(s) == multiset(l.active) && InOrder(b, l.active) && InOrder(s, l.active)
    ensures SplitOff(l, Log(l.segments + [b], s, |s|), cutoff)
  {
    hide InOrder;
    assert (l.segments + [b])[|l.segments|] == b;
  }

  lemma SidesExact(es: seq<Entry>, cutoff: int)
    ensures forall e :: e in Before(es, cutoff) ==> e.at < cutoff
    ensures forall e :: e in Since(es, cutoff) ==> e.at >= cutoff
    ensures multiset(Before(es, cutoff)) + multiset(Since(es, cutoff)) == multiset(es)
    ensures InOrder(Before(es, cutoff), es) && InOrder(Since(es, cutoff), es)
  {
    Sides(es, cutoff);
    var aged, kept := SidesPlaced(es, cutoff);
    SplitsAll(es, cutoff);
    hide Before, Since;
  }

  /** Moving the old entries to the front changes nothing exactly when the cut is clean. */
  lemma CutExactly(es: seq<Entry>, cutoff: int)
    ensures Before(es, cutoff) + Since(es, cutoff) == es <==> CutsCleanly(es, cutoff)
  {
    Sides(es, cutoff);
    CleanBySides(Before(es, cutoff), Since(es, cutoff), cutoff);
    if CutsCleanly(es, cutoff) {
      CleanCut(es, cutoff);
    }
  }

  /** Compaction leaves the order of the log as it was exactly when the cutoff cuts the active file
      cleanly, as it does when the timestamps ascend. */
  lemma CompactOrderExactly(l: Log, cutoff: int)
    ensures All(Compact(l, cutoff)) == All(l) <==> CutsCleanly(l.active, cutoff)
  {
    var aged, kept := Before(l.active, cutoff), Since(l.active, cutoff);
    FlattenMore(l.segments, aged);
    CutExactly(l.active, cutoff);
    if aged == [] {
      NoneBefore(l.active, cutoff);
    } else {
      hide CutsCleanly, Before, Since, Flatten;
      SameTail(Flatten(l.segments), aged, kept, l.active);
    }
  }

  lemma SameTail(a: seq<Entry>, b: seq<Entry>, c: seq<Entry>, d: seq<Entry>)
    ensures a + b + c == a + d <==> b + c == d
  {
    assert a + b + c == a + (b + c);
    assert (a + b + c)[|a|..] == b + c && (a + d)[|a|..] == d;
  }

  lemma {:induction false} NoneBefore(es: seq<Entry>, cutoff: int)
    requires Before(es, cutoff) == []
    ensures forall i :: 0 <= i < |es| ==> es[i].at >= cutoff
  {
    if es != [] {
      NoneBefore(es[..|es| - 1], cutoff);
    }
  }

  /** Over any run whose clock does not go back, the stored entries are the recorded ones in order. */
  lemma {:induction false} StoredInOrder(limit: int, ops: seq<Op>)
    requires Ascending(Recorded(ops))
    ensures All(Run(limit, ops)) == Recorded(ops)
  {
    if ops != [] {
      var front, op := ops[..|ops| - 1], ops[|ops| - 1];
      var l := Run(limit, front);
      assert Recorded(front) <= Recorded(ops);
      StoredInOrder(limit, front);
      match op
      case Recording(e) => FlattenMore(l.segments, l.active + [e]);
      case Compacting(cutoff) => {
        assert forall i :: 0 <= i < |l.active| ==> l.active[i] == All(l)[|Flatten(l.segments)| + i];
        CompactOrderExactly(l, cutoff);
      }
      case Reopening => {}
    }
  }

  // ---------- the order of names ----------

  lemma LessAfter(p: string, a: string, b: string)
    ensures Less(p + a, p + b) <==> Less(a, b)
  {
    if p == [] {
      assert p + a == a && p + b == b;
    } else {
      assert (p + a)[1..] == p[1..] + a && (p + b)[1..] == p[1..] + b;
      LessAfter(p[1..], a, b);
    }
  }

  /** The three digits of a number, and then a string. */
  function Three(n: nat, end: string): string
    requires n < 1000
  {
    [Digit(n / 100)] + ([Digit(n / 10 % 10)] + ([Digit(n % 10)] + end))
  }

  lemma ZeroDigit()
    ensures Digit(0) == '0'
  {
  }

  lemma PaddedDigits(n: nat)
    requires n < 1000
    ensures Padded(n) == [Digit(n / 100), Digit(n / 10 % 10), Digit(n % 10)]
  {
    assert n / 10 / 10 == n / 100 < 10;
    ZeroDigit();
    hide Digit;
    if n >= 100 {
      assert Decimal(n / 10) == [Digit(n / 100)] + [Digit(n / 10 % 10)];
    } else if n >= 10 {
      assert Decimal(n / 10) == [Digit(n / 10 % 10)];
    } else {
      assert Decimal(n) == [Digit(n % 10)];
    }
  }

  lemma Unbracket(h: char, t: char, u: char, end: string)
    ensures [h, t, u] + end == [h] + ([t] + ([u] + end))
  {
  }

  lemma PaddedThree(n: nat, end: string)
    requires n < 1000
    ensures Padded(n) + end == Three(n, end)
  {
    PaddedDigits(n);
    hide Padded, Digit;
    Unbracket(Digit(n / 100), Digit(n / 10 % 10), Digit(n % 10), end);
  }

  lemma DigitOrder(a: nat, b: nat)
    requires a < 10 && b < 10
    ensures Digit(a) < Digit(b) <==> a < b
    ensures Digit(a) == Digit(b) <==> a == b
  {
  }

  lemma LessHead(c: nat, d: nat, a: string, b: string)
    requires c < 10 && d < 10
    ensures Less([Digit(c)] + a, [Digit(d)] + b) <==> c < d || (c == d && Less(a, b))
  {
    DigitOrder(c, d);
    hide Digit;
    assert ([Digit(c)] + a)[1..] == a && ([Digit(d)] + b)[1..] == b;
  }

  /** Below a thousand, names sort as numbers. */
  lemma NamesAgree(a: nat, b: nat)
    requires a < 1000 && b < 1000
    ensures Less(SegmentName(a), SegmentName(b)) <==> a < b
  {
    PaddedThree(a, Extension());
    PaddedThree(b, Extension());
    LessAfter(Stem(), Three(a, Extension()), Three(b, Extension()));
    hide Digit, Less, Padded, Decimal, Stem, Extension, Three;
    ThreeAgree(a, b, Extension());
  }

  lemma ThreeAgree(a: nat, b: nat, end: string)
    requires a < 1000 && b < 1000
    ensures Less(Three(a, end), Three(b, end)) <==> a < b
  {
    hide Digit, Less;
    Irreflexive(end);
    LessHead(a % 10, b % 10, end, end);
    var x, y := [Digit(a % 10)] + end, [Digit(b % 10)] + end;
    LessHead(a / 10 % 10, b / 10 % 10, x, y);
    LessHead(a / 100, b / 100, [Digit(a / 10 % 10)] + x, [Digit(b / 10 % 10)] + y);
    DigitByDigit(a, b);
  }

  lemma DigitByDigit(a: nat, b: nat)
    ensures a < b <==> (a / 100 < b / 100 || (a / 100 == b / 100
      && (a / 10 % 10 < b / 10 % 10 || (a / 10 % 10 == b / 10 % 10 && a % 10 < b % 10))))
  {
    Digits(a);
    Digits(b);
    DigitsCompare(a / 100, a / 10 % 10, a % 10, b / 100, b / 10 % 10, b % 10);
  }

  lemma Digits(n: nat)
    ensures n == 100 * (n / 100) + 10 * (n / 10 % 10) + n % 10
  {
    assert n / 10 / 10 == n / 100;
  }

  lemma DigitsCompare(h: nat, t: nat, u: nat, i: nat, v: nat, w: nat)
    requires t < 10 && u < 10 && v < 10 && w < 10
    ensures 100 * h + 10 * t + u < 100 * i + 10 * v + w <==> (h < i || (h == i && (t < v || (t == v && u < w))))
  {
  }

  lemma Irreflexive(a: string)
    ensures !Less(a, a)
  {
  }

  /** The thousandth segment sorts before the one before it. */
  lemma ThousandthFirst()
    ensures Less(SegmentName(1000), SegmentName(999)) && !Less(SegmentName(999), SegmentName(1000))
  {
    DecimalHead(1000);
    DecimalHead(100);
    DecimalHead(10);
    DecimalHead(999);
    DecimalHead(99);
    assert Decimal(1000)[0] == Digit(1) && Decimal(999)[0] == Digit(9);
    hide Decimal, Digit, Stem, Extension;
    var x, y := Padded(1000) + Extension(), Padded(999) + Extension();
    assert x[0] == Digit(1) && y[0] == Digit(9);
    DigitOrder(1, 9);
    LessAfter(Stem(), x, y);
    LessAfter(Stem(), y, x);
  }

  lemma DecimalHead(n: nat)
    requires n >= 10
    ensures Decimal(n) != [] && Decimal(n / 10) != [] && Decimal(n)[0] == Decimal(n / 10)[0]
  {
  }

  // ---------- reading ----------

  /** The numbers 1 to n in counting order. */
  function Counting(n: nat): seq<nat> {
    seq(n, i => i + 1)
  }

  /** The directory listing is in counting order exactly when there are fewer than a thousand segments. */
  lemma ListingExactly(order: seq<nat>, n: nat)
    requires ByName(order, n)
    ensures order == Counting(n) <==> n < 1000
  {
    if n < 1000 {
      forall i, j | 0 <= i < j < n ensures order[i] < order[j] { NamesAgree(order[i], order[j]); }
      hide ByName, Less, SegmentName;
      AscendingCounts(order, n);
    } else {
      ThousandthFirst();
      assert Counting(n)[998] == 999 && Counting(n)[999] == 1000;
      assert Less(SegmentName(order[998]), SegmentName(order[999]));
      hide Less, SegmentName, ByName;
    }
  }

  lemma AscendingCounts(order: seq<nat>, n: nat)
    requires |order| == n && (forall i :: 0 <= i < n ==> 1 <= order[i] <= n)
    requires forall i, j :: 0 <= i < j < n ==> order[i] < order[j]
    ensures order == Counting(n)
  {
    forall i | 0 <= i < n ensures order[i] == i + 1 {
      AtLeast(order, i);
      AtMost(order, i);
    }
  }

  lemma {:induction false} AtLeast(order: seq<nat>, i: nat)
    requires i < |order| && order[0] >= 1 && forall i, j :: 0 <= i < j < |order| ==> order[i] < order[j]
    ensures order[i] >= i + 1
  {
    if i > 0 {
      AtLeast(order, i - 1);
    }
  }

  lemma {:induction false} AtMost(order: seq<nat>, i: nat)
    requires i < |order| && order[|order| - 1] <= |order|
    requires forall i, j :: 0 <= i < j < |order| ==> order[i] < order[j]
    ensures order[i] <= i + 1
    decreases |order| - i
  {
    if i < |order| - 1 {
      AtMost(order, i + 1);
    }
  }

  lemma ReadsInOrder(l: Log, order: seq<nat>)
    requires ByName(order, |l.segments|) && |l.segments| < 1000
    ensures Read(l, order) == All(l)
  {
    ListingExactly(order, |l.segments|);
    hide ByName;
    assert Pick(l.segments, order) == l.segments;
  }

  /** After any run whose clock does not go back and that archives fewer than a thousand segments,
      replaying the log gives what replaying the plain list of recorded entries gives. */
  lemma ReplayUnchanged(limit: int, ops: seq<Op>, order: seq<nat>, start: Replayed)
    requires Ascending(Recorded(ops))
    requires |Run(limit, ops).segments| < 1000 && ByName(order, |Run(limit, ops).segments|)
    ensures Read(Run(limit, ops), order) == Recorded(ops)
    ensures Replay(start, Read(Run(limit, ops), order)) == Replay(start, Recorded(ops))
  {
    StoredInOrder(limit, ops);
    ReadsInOrder(Run(limit, ops), order);
  }

  // ---------- a thousand segments ----------

  ghost predicate Distinct(es: seq<Entry>) {
    forall i, j :: 0 <= i < j < |es| ==> es[i] != es[j]
  }

  ghost predicate Filled(segments: seq<seq<Entry>>) {
    forall k :: 0 <= k < |segments| ==> segments[k] != []
  }

  /** Where the k-th of a list of non-empty segments starts in what they hold together. */
  lemma {:induction false} StartsAt(segments: seq<seq<Entry>>, k: nat)
    requires k < |segments| && segments[k] != []
    ensures |Flatten(segments[..k])| < |Flatten(segments)|
    ensures Flatten(segments)[|Flatten(segments[..k])|] == segments[k][0]
  {
    var front := segments[..|segments| - 1];
    if k < |front| {
      StartsAt(front, k);
      assert front[..k] == segments[..k];
    } else {
      assert front == segments[..k];
    }
  }

  lemma StartsBefore(segments: seq<seq<Entry>>, j: nat, k: nat)
    requires j < k < |segments| && segments[j] != []
    ensures |Flatten(segments[..j])| < |Flatten(segments[..k])|
  {
    assert segments[..k][..j] == segments[..j];
    StartsAt(segments[..k], j);
  }

  /** If the entries all differ and no segment is empty, readers see them in the order they were
      recorded exactly when there are fewer than a thousand segments. */
  lemma ReadOrderExactly(l: Log, order: seq<nat>)
    requires ByName(order, |l.segments|)
    requires Distinct(All(l)) && Filled(l.segments)
    ensures Read(l, order) == All(l) <==> |l.segments| < 1000
  {
    if |l.segments| < 1000 {
      ReadsInOrder(l, order);
    } else {
      var i, j := Swapped(order, |l.segments|);
      Misread(l, order, i, j);
    }
  }

  /** Segment 1000 is listed before segment 999. */
  lemma Swapped(order: seq<nat>, n: nat) returns (i: nat, j: nat)
    requires ByName(order, n) && n >= 1000
    ensures i < j < n && order[i] == 1000 && order[j] == 999
  {
    assert 999 in order && 1000 in order;
    i :| 0 <= i < n && order[i] == 1000;
    j :| 0 <= j < n && order[j] == 999;
    ThousandthFirst();
  }

  lemma Misread(l: Log, order: seq<nat>, i: nat, j: nat)
    requires forall k :: 0 <= k < |order| ==> 1 <= order[k] <= |l.segments|
    requires i < j < |order| && order[j] < order[i]
    requires Distinct(All(l)) && Filled(l.segments)
    ensures Read(l, order) != All(l)
  {
    var picked := Pick(l.segments, order);
    var a, b := order[j] - 1, order[i] - 1;
    StartsAt(picked, i);
    StartsAt(picked, j);
    StartsBefore(picked, i, j);
    StartsAt(l.segments, a);
    StartsAt(l.segments, b);
    StartsBefore(l.segments, a, b);
    hide Flatten;
    var x, y := |Flatten(l.segments[..a])|, |Flatten(l.segments[..b])|;
    var v, u := |Flatten(picked[..i])|, |Flatten(picked[..j])|;
    assert All(l)[x] == l.segments[a][0] && All(l)[y] == l.segments[b][0];
    assert Read(l, order)[v] == l.segments[b][0] && Read(l, order)[u] == l.segments[a][0];
    Crossed(Read(l, order), All(l), u, v, x, y);
  }

  /** Two entries that a list of distinct ones holds in the other order tell it apart. */
  lemma Crossed(r: seq<Entry>, es: seq<Entry>, u: nat, v: nat, x: nat, y: nat)
    requires Distinct(es) && x < y < |es| && v < u < |r| && r[u] == es[x] && r[v] == es[y]
    ensures r != es
  {
  }

  lemma {:induction false} SegmentsFilled(limit: int, ops: seq<Op>)
    ensures Filled(Run(limit, ops).segments)
  {
    if ops != [] {
      SegmentsFilled(limit, ops[..|ops| - 1]);
      hide Before, Since;
    }
  }

  /** After a run that records distinct entries with a clock that does not go back, a reader sees them
      as recorded exactly when fewer than a thousand segments were archived. */
  lemma RunReadExactly(limit: int, ops: seq<Op>, order: seq<nat>)
    requires Ascending(Recorded(ops)) && Distinct(Recorded(ops))
    requires ByName(order, |Run(limit, ops).segments|)
    ensures Read(Run(limit, ops), order) == Recorded(ops) <==> |Run(limit, ops).segments| < 1000
  {
    StoredInOrder(limit, ops);
    SegmentsFilled(limit, ops);
    ReadOrderExactly(Run(limit, ops), order);
  }

  // ---------- the counter ----------

  /** In one process the counter is the length of the active file, which stays below the limit. */
  lemma {:induction false} CountsActive(limit: int, ops: seq<Op>)
    requires forall op :: op in ops ==> !op.Reopening?
    ensures Run(limit, ops).count == |Run(limit, ops).active|
    ensures limit >= 1 ==> |Run(limit, ops).active| < limit
  {
    if ops != [] {
      var front := ops[..|ops| - 1];
      assert ops[|ops| - 1] in ops;
      assert forall op :: op in front ==> op in ops;
      CountsActive(limit, front);
      if ops[|ops| - 1].Compacting? {
        SplitsAll(Run(limit, front).active, ops[|ops| - 1].cutoff);
        SinceShorter(Run(limit, front).active, ops[|ops| - 1].cutoff);
      }
    }
  }

  /** Entries that do not fill a segment are only appended to the active file. */
  lemma {:induction false} RecordsStay(l: Log, limit: int, es: seq<Entry>)
    requires l.count + |es| < limit
    ensures RecordAll(l, limit, es) == Log(l.segments, l.active + es, l.count + |es|)
  {
    if es == [] {
      assert l.active + [] == l.active;
    } else {
      RecordsStay(l, limit, es[..|es| - 1]);
      assert l.active + es == l.active + es[..|es| - 1] + [es[|es| - 1]];
    }
  }

  function RecordAll(l: Log, limit: int, es: seq<Entry>): Log {
    if es == [] then l else Record(RecordAll(l, limit, es[..|es| - 1]), limit, es[|es| - 1])
  }

  /** A new process counts only its own entries: the file it finds is archived with exactly as many more
      entries as the limit allows, so that a segment can be longer than the limit by all that was there. */
  lemma ReopenedLate(l: Log, limit: int, es: seq<Entry>)
    requires |es| == limit >= 1
    ensures RecordAll(Reopen(l), limit, es) == Log(l.segments + [l.active + es], [], 0)
    ensures forall n :: 0 <= n < limit ==> RecordAll(Reopen(l), limit, es[..n]) == Log(l.segments, l.active + es[..n], n)
  {
    forall n | 0 <= n < limit
      ensures RecordAll(Reopen(l), limit, es[..n]) == Log(l.segments, l.active + es[..n], n)
    {
      RecordsStay(Reopen(l), limit, es[..n]);
    }
    assert l.active + es == l.active + es[..limit - 1] + [es[limit - 1]];
  }

  lemma {:induction false} SinceShorter(es: seq<Entry>, cutoff: int)
    ensures |Since(es, cutoff)| <= |es|
  {
    if es != [] {
      SinceShorter(es[..|es| - 1], cutoff);
    }
  }
}
