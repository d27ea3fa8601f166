/** Who holds which core, and for how long: ownership and usage of a node's cores over whole runs. */
module CoreUsage {
  import opened Sums
  import opened CoreTable

  // ---------------------------------------------------------------- holds and what is recorded of them

  /** A core was held from one moment to another. */
  datatype Hold = Hold(from: Time, to: Time)

  function Fraction(t: Time): real { t - Seconds(t) as real }

  /** The time a core was held. */
  function Length(hs: seq<Hold>): real {
    if hs == [] then 0.0 else Length(hs[..|hs| - 1]) + (hs[|hs| - 1].to - hs[|hs| - 1].from)
  }

  /** What the books say of it. */
  function Recorded(hs: seq<Hold>): int {
    if hs == [] then 0 else Recorded(hs[..|hs| - 1]) + (Seconds(hs[|hs| - 1].to) - Seconds(hs[|hs| - 1].from))
  }

  function FractionsOfStarts(hs: seq<Hold>): real {
    if hs == [] then 0.0 else FractionsOfStarts(hs[..|hs| - 1]) + Fraction(hs[|hs| - 1].from)
  }

  function FractionsOfEnds(hs: seq<Hold>): real {
    if hs == [] then 0.0 else FractionsOfEnds(hs[..|hs| - 1]) + Fraction(hs[|hs| - 1].to)
  }

  /** One hold is recorded with an error below a second; exactly, if and only if its ends have the same fraction. */
  lemma HoldIsExactIff(h: Hold)
    ensures (Seconds(h.to) - Seconds(h.from)) as real == h.to - h.from <==> Fraction(h.from) == Fraction(h.to)
    ensures -1.0 < (Seconds(h.to) - Seconds(h.from)) as real - (h.to - h.from) < 1.0
  {
  }

  lemma {:induction false} ErrorIsFractions(hs: seq<Hold>)
    ensures Recorded(hs) as real - Length(hs) == FractionsOfStarts(hs) - FractionsOfEnds(hs)
  {
    if hs != [] { ErrorIsFractions(hs[..|hs| - 1]); }
  }

  /** Any number of holds is recorded exactly if and only if the fractions of all starts and all ends add up alike. */
  lemma RecordIsExactIff(hs: seq<Hold>)
    ensures Recorded(hs) as real == Length(hs) <==> FractionsOfStarts(hs) == FractionsOfEnds(hs)
  {
    ErrorIsFractions(hs);
  }

  /** It is off by less than a second for each of them. */
  lemma {:induction false} RecordIsClose(hs: seq<Hold>)
    requires hs != []
    ensures -(|hs| as real) < Recorded(hs) as real - Length(hs) < |hs| as real
  {
    var k := |hs| - 1;
    HoldIsExactIff(hs[k]);
    if k > 0 { RecordIsClose(hs[..k]); }
  }

  /** In particular it is exact when all of them start and end on the same fraction of a second. */
  lemma {:induction false} OneFractionIsExact(hs: seq<Hold>, f: real)
    requires forall k :: 0 <= k < |hs| ==> Fraction(hs[k].from) == f && Fraction(hs[k].to) == f
    ensures Recorded(hs) as real == Length(hs)
  {
    if hs != [] {
      HoldIsExactIff(hs[|hs| - 1]);
      OneFractionIsExact(hs[..|hs| - 1], f);
    }
  }

  // ---------------------------------------------------------------- a node's cores over whole runs

  /** What truly happened to a core: how long it was held, its finished holds, and when it was last taken. */
  datatype Past = Past(held: real, holds: seq<Hold>, since: Time)

  /** A node's cores with the index arrays its live VMs hold, the clock, and each core's past. */
  datatype Hardware = Hardware(table: seq<CoreState>, live: seq<seq<int>>, now: Time, past: seq<Past>)

  function Fresh(cores: nat): Hardware {
    Hardware(seq(cores, _ => CoreState(0, 0, true)), [], 0.0, seq(cores, _ => Past(0.0, [], 0.0)))
  }

  /** All holds of a core, the one still open included. */
  function HoldsOf(c: CoreState, p: Past, now: Time): seq<Hold> {
    p.holds + if c.free then [] else [Hold(p.since, now)]
  }

  ghost predicate Owned(h: Hardware, i: int) {
    exists k :: 0 <= k < |h.live| && i in h.live[k]
  }

  ghost predicate ProperIndexes(h: Hardware) {
    forall k :: 0 <= k < |h.live| ==> Distinct(h.live[k]) && InTable(h.live[k], h.table)
  }

  ghost predicate Disjoint(h: Hardware) {
    forall j, k, i :: 0 <= j < k < |h.live| && i in h.live[j] ==> i !in h.live[k]
  }

  ghost predicate BusyIffOwned(h: Hardware) {
    forall i :: 0 <= i < |h.table| ==> (!h.table[i].free <==> Owned(h, i))
  }

  /** The table records the core's finished holds and the start of the open one; the clock measured the same holds. */
  ghost predicate Booked(c: CoreState, p: Past, now: Time) {
    && c.usageTime == Recorded(p.holds)
    && (!c.free ==> c.startTime == Seconds(p.since))
    && p.held == Length(HoldsOf(c, p, now))
  }

  ghost predicate AllBooked(h: Hardware) {
    |h.past| == |h.table| && forall i :: 0 <= i < |h.table| ==> Booked(h.table[i], h.past[i], h.now)
  }

  /**
   * Live index arrays are duplicate-free and pairwise disjoint, and hold exactly the busy cores; all holds are booked.
   */
  ghost predicate Sound(h: Hardware) {
    ProperIndexes(h) && Disjoint(h) && BusyIffOwned(h) && AllBooked(h)
  }

  function Taken(p: Past, now: Time): Past { p.(since := now) }

  function Returned(p: Past, now: Time): Past { p.(holds := p.holds + [Hold(p.since, now)]) }

  /** A VM takes n cores. */
  ghost function Seize(h: Hardware, n: nat): Hardware
    requires InTable(Chosen(h.table, n), h.table)
  {
    h.(table := Take(h.table, Chosen(h.table, n), Seconds(h.now)),
       live := h.live + [AllocIndex(h.table, n)],
       past := seq(|h.past|, i requires 0 <= i < |h.past| =>
                     if i in Chosen(h.table, n) then Taken(h.past[i], h.now) else h.past[i]))
  }

  /** The k-th live VM gives its cores back. */
  ghost function GiveBack(h: Hardware, k: nat): Hardware
    requires k < |h.live| && InTable(h.live[k], h.table)
  {
    h.(table := Release(h.table, h.live[k], Seconds(h.now)),
       live := h.live[..k] + h.live[k + 1..],
       past := seq(|h.past|, i requires 0 <= i < |h.past| =>
                     if i in h.live[k] then Returned(h.past[i], h.now) else h.past[i]))
  }

  /** Time passes: every busy core is held that much longer. */
  ghost function Elapse(h: Hardware, d: Time): Hardware
    requires |h.past| == |h.table|
  {
    h.(now := h.now + d,
       past := seq(|h.past|, i requires 0 <= i < |h.past| =>
                     if h.table[i].free then h.past[i] else h.past[i].(held := h.past[i].held + d)))
  }

  lemma FreshIsSound(cores: nat)
    ensures Sound(Fresh(cores)) && |FreeList(Fresh(cores).table)| == cores
  {
    var t := Fresh(cores).table;
    forall i | 0 <= i < |t| ensures t[i].free {}
    AllFree(t);
  }

  lemma {:induction false} AllFree(t: seq<CoreState>)
    requires forall i :: 0 <= i < |t| ==> t[i].free
    ensures |FreeList(t)| == |t|
  {
    if t != [] { AllFree(t[..|t| - 1]); }
  }

  lemma LengthPush(hs: seq<Hold>, x: Hold)
    ensures Length(hs + [x]) == Length(hs) + (x.to - x.from)
    ensures Recorded(hs + [x]) == Recorded(hs) + (Seconds(x.to) - Seconds(x.from))
  {
    assert (hs + [x])[..|hs|] == hs;
  }

  lemma SeizeIsSound(h: Hardware, n: nat)
    requires Sound(h) && n <= |FreeList(h.table)|
    ensures Sound(Seize(h, n))
    ensures |FreeList(Seize(h, n).table)| == |FreeList(h.table)| - n
    ensures |Seize(h, n).live[|h.live|]| == n
  {
    FilledIffEnoughFree(h.table, n);
    var idx := AllocIndex(h.table, n);
    var g := Seize(h, n);
    TakeCount(h.table, idx, Seconds(h.now));
    FreeListSize(h.table);
    FreeListSize(g.table);
    SeizeIndexes(h, g, idx);
    SeizeOwners(h, g, idx);
    SeizeBooks(h, n);
  }

  lemma SeizeIndexes(h: Hardware, g: Hardware, idx: seq<int>)
    requires ProperIndexes(h) && Disjoint(h) && BusyIffOwned(h) && Filled(idx, h.table)
    requires g.live == h.live + [idx] && |g.table| == |h.table|
    ensures ProperIndexes(g) && Disjoint(g)
  {
    forall j, i | 0 <= j < |h.live| && i in h.live[j] ensures i !in idx {
      var k :| 0 <= k < |h.live[j]| && h.live[j][k] == i;
      assert Owned(h, i);
    }
  }

  lemma TakenIsBooked(c: CoreState, p: Past, now: Time)
    requires Booked(c, p, now) && c.free
    ensures Booked(Seized(c, Seconds(now)), Taken(p, now), now)
  {
    LengthPush(p.holds, Hold(now, now));
    assert HoldsOf(c, p, now) == p.holds;
  }

  lemma SeizeBooks(h: Hardware, n: nat)
    requires AllBooked(h) && Filled(Chosen(h.table, n), h.table)
    ensures AllBooked(Seize(h, n))
  {
    var g, idx := Seize(h, n), Chosen(h.table, n);
    forall i | 0 <= i < |g.table| ensures Booked(g.table[i], g.past[i], g.now) {
      TakeAt(h.table, idx, Seconds(h.now), i);
      if i in idx { TakenIsBooked(h.table[i], h.past[i], h.now); }
    }
  }

  lemma SeizeOwners(h: Hardware, g: Hardware, idx: seq<int>)
    requires BusyIffOwned(h) && InTable(idx, h.table)
    requires g.live == h.live + [idx] && g.table == Take(h.table, idx, Seconds(h.now))
    ensures BusyIffOwned(g)
  {
    forall i | 0 <= i < |g.table| ensures !g.table[i].free <==> Owned(g, i) {
      TakeAt(h.table, idx, Seconds(h.now), i);
      if i in idx {
        assert i in g.live[|h.live|];
      } else if Owned(h, i) {
        var k :| 0 <= k < |h.live| && i in h.live[k];
        assert i in g.live[k];
      }
    }
  }

  lemma GiveBackIsSound(h: Hardware, k: nat)
    requires Sound(h) && k < |h.live|
    ensures Sound(GiveBack(h, k))
    ensures |FreeList(GiveBack(h, k).table)| == |FreeList(h.table)| + |h.live[k]|
  {
    var idx := h.live[k];
    var g := GiveBack(h, k);
    forall j | 0 <= j < |idx| ensures !h.table[idx[j]].free { assert Owned(h, idx[j]); }
    ReleaseCount(h.table, idx, Seconds(h.now));
    FreeListSize(h.table);
    FreeListSize(g.table);
    GiveBackIndexes(h, g, k);
    GiveBackOwners(h, g, k);
    GiveBackBooks(h, k);
  }

  lemma GiveBackIndexes(h: Hardware, g: Hardware, k: nat)
    requires k < |h.live| && ProperIndexes(h) && Disjoint(h) && g == GiveBack(h, k)
    ensures ProperIndexes(g) && Disjoint(g)
  {
    forall j | 0 <= j < |g.live| ensures g.live[j] == h.live[if j < k then j else j + 1] {}
  }

  lemma ReturnedIsBooked(c: CoreState, p: Past, now: Time)
    requires Booked(c, p, now) && !c.free
    ensures Booked(Freed(c, Seconds(now)), Returned(p, now), now)
  {
    LengthPush(p.holds, Hold(p.since, now));
    var d, q := Freed(c, Seconds(now)), Returned(p, now);
    assert HoldsOf(d, q, now) == q.holds == HoldsOf(c, p, now);
  }

  lemma GiveBackBooks(h: Hardware, k: nat)
    requires k < |h.live| && ProperIndexes(h) && BusyIffOwned(h) && AllBooked(h)
    ensures AllBooked(GiveBack(h, k))
  {
    var g := GiveBack(h, k);
    forall i | 0 <= i < |g.table| ensures Booked(g.table[i], g.past[i], g.now) {
      ReleaseAt(h.table, h.live[k], Seconds(h.now), i);
      if i in h.live[k] {
        assert Owned(h, i);
        ReturnedIsBooked(h.table[i], h.past[i], h.now);
      }
    }
  }

  lemma GiveBackOwners(h: Hardware, g: Hardware, k: nat)
    requires k < |h.live| && ProperIndexes(h) && Disjoint(h) && BusyIffOwned(h)
    requires g == GiveBack(h, k)
    ensures BusyIffOwned(g)
  {
    forall i | 0 <= i < |g.table| ensures !g.table[i].free <==> Owned(g, i) {
      ReleaseAt(h.table, h.live[k], Seconds(h.now), i);
      OwnedAfter(h, g, k, i);
    }
  }

  lemma OwnedAfter(h: Hardware, g: Hardware, k: nat, i: int)
    requires k < |h.live| && Disjoint(h) && g.live == h.live[..k] + h.live[k + 1..]
    ensures Owned(g, i) <==> Owned(h, i) && i !in h.live[k]
  {
    if Owned(g, i) {
      var j :| 0 <= j < |g.live| && i in g.live[j];
      assert i in h.live[if j < k then j else j + 1];
    }
    if i !in h.live[k] && Owned(h, i) {
      var j :| 0 <= j < |h.live| && i in h.live[j];
      assert i in g.live[if j < k then j else j - 1];
    }
  }

  lemma LaterIsBooked(c: CoreState, p: Past, now: Time, d: Time)
    requires Booked(c, p, now)
    ensures Booked(c, if c.free then p else p.(held := p.held + d), now + d)
  {
    LengthPush(p.holds, Hold(p.since, now));
    LengthPush(p.holds, Hold(p.since, now + d));
  }

  lemma ElapseIsSound(h: Hardware, d: Time)
    requires Sound(h)
    ensures Sound(Elapse(h, d))
  {
    var g := Elapse(h, d);
    forall i | 0 <= i < |g.table| ensures Booked(g.table[i], g.past[i], g.now) {
      LaterIsBooked(h.table[i], h.past[i], h.now, d);
    }
    forall i | 0 <= i < |g.table| ensures !g.table[i].free <==> Owned(g, i) {
      assert Owned(g, i) == Owned(h, i);
    }
  }

  // ---------------------------------------------------------------- recorded usage against the time held

  /** How far the usage of core i, its open interval included, is from the time it was held. */
  ghost predicate UsageIsClose(h: Hardware, i: nat)
    requires i < |h.table| && i < |h.past|
  {
    var hs := HoldsOf(h.table[i], h.past[i], h.now);
    var error := Used(h.table[i], Seconds(h.now)) as real - h.past[i].held;
    && Used(h.table[i], Seconds(h.now)) == Recorded(hs) && h.past[i].held == Length(hs)
    && (if hs == [] then error == 0.0 else -(|hs| as real) < error < |hs| as real)
    && (error == 0.0 <==> FractionsOfStarts(hs) == FractionsOfEnds(hs))
  }

  /**
   * In every sound state, a core's usage is the sum over its holds of the differences in whole seconds. It is off by
   * less than a second for each hold, and exact if and only if the fractions of all starts and all ends add up alike.
   */
  lemma SoundUsageIsClose(h: Hardware, i: nat)
    requires Sound(h) && i < |h.table|
    ensures i < |h.past| && UsageIsClose(h, i)
  {
    var c, p := h.table[i], h.past[i];
    var hs := HoldsOf(c, p, h.now);
    assert Booked(c, p, h.now);
    LengthPush(p.holds, Hold(p.since, h.now));
    if c.free { assert hs == p.holds; }
    RecordIsExactIff(hs);
    if hs != [] { RecordIsClose(hs); }
  }

  /** A core held from 0.9 to 1.1 is recorded as used for a second, one held from 1.0 to 1.9 as not used at all. */
  lemma UsageCanBeOff()
    ensures Recorded([Hold(0.9, 1.1)]) == 1 && Length([Hold(0.9, 1.1)]) == 0.2
    ensures Recorded([Hold(1.0, 1.9)]) == 0 && Length([Hold(1.0, 1.9)]) == 0.9
  {
    LengthPush([], Hold(0.9, 1.1));
    LengthPush([], Hold(1.0, 1.9));
    assert [] + [Hold(0.9, 1.1)] == [Hold(0.9, 1.1)] && [] + [Hold(1.0, 1.9)] == [Hold(1.0, 1.9)];
    assert 0.9.Floor == 0 && 1.1.Floor == 1 && 1.0.Floor == 1 && 1.9.Floor == 1;
  }

  const WAITED := Hardware([CoreState(0, 0, true)], [], 0.9, [Past(0.0, [], 0.0)])

  const TAKEN := Hardware([CoreState(0, 0, false)], [[0]], 0.9, [Past(0.0, [], 0.9)])

  const USED := Hardware([CoreState(0, 0, false)], [[0]], 1.1, [Past(0.2, [], 0.9)])

  const RETURNED := Hardware([CoreState(1, 0, true)], [], 1.1, [Past(0.2, [Hold(0.9, 1.1)], 0.9)])

  lemma TakenAtNineTenths()
    ensures Elapse(Fresh(1), 0.9) == WAITED
    ensures InTable(Chosen(WAITED.table, 1), WAITED.table) && Seize(WAITED, 1) == TAKEN
  {
    assert FreeList(WAITED.table) == [0] by { assert WAITED.table[..0] == []; }
    assert Chosen(WAITED.table, 1) == [0] && AllocIndex(WAITED.table, 1) == [0];
    assert 0.9.Floor == 0;
    TakeAt(WAITED.table, [0], 0, 0);
  }

  lemma ReturnedAfterAFifth()
    ensures Elapse(TAKEN, 0.2) == USED && InTable(USED.live[0], USED.table) && GiveBack(USED, 0) == RETURNED
  {
    assert Elapse(TAKEN, 0.2).past == USED.past;
    assert 1.1.Floor == 1;
    ReleaseAt(USED.table, [0], 1, 0);
    var g := GiveBack(USED, 0);
    assert g.table == RETURNED.table && g.live == [] && g.past[0] == RETURNED.past[0];
  }

  /** A node's only core is taken at 0.9 and returned at 1.1: its usage is recorded as a second. */
  lemma UsageIsOffInARun()
    ensures Elapse(Fresh(1), 0.9) == WAITED
    ensures InTable(Chosen(WAITED.table, 1), WAITED.table) && Seize(WAITED, 1) == TAKEN
    ensures Elapse(TAKEN, 0.2) == USED && InTable(USED.live[0], USED.table) && GiveBack(USED, 0) == RETURNED
    ensures Used(RETURNED.table[0], Seconds(RETURNED.now)) == 1 && RETURNED.past[0].held == 0.2
  {
    TakenAtNineTenths();
    ReturnedAfterAFifth();
  }
}
