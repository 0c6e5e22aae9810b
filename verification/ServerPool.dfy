/** Round-robin selection over the members of a server pool. */
module ServerPool {
  import opened Basics

  /** Position `offset` places after `start` around a pool of `n`. */
  function Around(start: nat, offset: nat, n: nat): (p: nat)
    requires n > 0 && start < n && offset <= n
    ensures p < n
  {
    if start + offset < n then start + offset else start + offset - n
  }

  lemma AroundIsModulo(start: nat, offset: nat, n: nat)
    requires n > 0 && start < n && offset <= n
    ensures Around(start, offset, n) == (start + offset) % n
  {
    var x := start + offset;
    if x < n { RemainderUnique(x, n, 0, x); } else { RemainderUnique(x, n, 1, x - n); }
  }

  lemma RemainderUnique(x: nat, n: nat, q: nat, r: nat)
    requires n > 0 && x == n * q + r && r < n
    ensures x % n == r
  {
    QuotientUnique(n, q, r, x / n, x % n);
  }

  lemma QuotientUnique(n: nat, q: nat, r: nat, q': nat, r': nat)
    requires n * q + r == n * q' + r' && r < n && r' < n
    ensures r == r'
  {
    if q < q' { NextMultiple(n, q, q'); }
    if q' < q { NextMultiple(n, q', q); }
  }

  lemma {:induction false} NextMultiple(n: nat, a: nat, b: nat)
    requires a < b
    ensures n * a + n <= n * b
    decreases b
  {
    assert n * (b - 1) + n == n * b;
    if a + 1 < b { NextMultiple(n, a, b - 1); }
  }

  /** The first offset at which a member is alive, counted from `start`; n when none is. */
  function FirstAlive(alive: seq<bool>, start: nat, offset: nat): (k: nat)
    requires start < |alive| && offset <= |alive|
    ensures offset <= k <= |alive|
    ensures k < |alive| ==> alive[Around(start, k, |alive|)]
    ensures forall j :: offset <= j < k ==> !alive[Around(start, j, |alive|)]
    decreases |alive| - offset
  {
    if offset == |alive| || alive[Around(start, offset, |alive|)] then offset
    else FirstAlive(alive, start, offset + 1)
  }

  /** The counter a call starts from, after the 64-bit increment. */
  function Bump(current: u64): u64 {
    if current + 1 == TWO64 then 0 else current + 1
  }

  /** What a call selects and where it leaves the counter. */
  function Pick(alive: seq<bool>, current: u64): (Option<nat>, u64)
    requires 0 < |alive| < TWO64
  {
    var start := Bump(current) % |alive|;
    var k := FirstAlive(alive, start, 0);
    if k == |alive| then (None, Bump(current))
    else if k == 0 then (Some(start), Bump(current))
    else (Some(Around(start, k, |alive|)), Around(start, k, |alive|))
  }

  // ---------------------------------------------------------------- the objects

  class ServerFarm {
    const url: string
    var alive: bool

    constructor (url: string, alive: bool)
      ensures this.url == url && this.alive == alive
    {
      this.url, this.alive := url, alive;
    }
  }

  class Pool {
    var members: seq<ServerFarm>
    var current: u64
    var poolSize: u64

    ghost predicate Valid()
      reads this
    {
      poolSize == |members|
    }

    function Alive(): (flags: seq<bool>)
      reads this, members
      ensures |flags| == |members|
      ensures forall i :: 0 <= i < |flags| ==> flags[i] == members[i].alive
    {
      seq(|members|, i requires 0 <= i < |members| reads this, members => members[i].alive)
    }

    constructor ()
      ensures Valid() && members == [] && current == 0
    {
      members, current, poolSize := [], 0, 0;
    }

    method Add(backend: ServerFarm)
      requires Valid() && |members| + 1 < TWO64
      modifies this
      ensures Valid() && members == old(members) + [backend] && current == old(current)
    {
      members := members + [backend];
      poolSize := |members|;
    }

    /** The first member with this URL, or the number of members. */
    function FirstWith(url: string, from: nat): (f: nat)
      requires from <= |members|
      reads this
      ensures from <= f <= |members| && (f < |members| ==> members[f].url == url)
      ensures forall i :: from <= i < f ==> members[i].url != url
      decreases |members| - from
    {
      if from == |members| || members[from].url == url then from else FirstWith(url, from + 1)
    }

    /** Sets the flag of the first member with this URL and of no other object. */
    method UpdateMemberStatus(url: string, alive: bool)
      modifies members
      ensures
        var f := FirstWith(url, 0);
        forall m :: m in members ==> m.alive == if f < |members| && m == members[f] then alive else old(m.alive)
    {
      var i := 0;
      while i < |members| && members[i].url != url
        invariant 0 <= i <= |members|
        invariant forall j :: 0 <= j < i ==> members[j].url != url
        invariant forall m :: m in members ==> m.alive == old(m.alive)
      {
        i := i + 1;
      }
      assert i == FirstWith(url, 0);
      if i < |members| { members[i].alive := alive; }
    }

    method Next() returns (next: u64)
      requires Valid() && poolSize > 0
      modifies this`current
      ensures current == Bump(old(current)) && next == current % poolSize
    {
      current := Bump(current);
      next := current % poolSize;
    }

    /** One selection, as a function of the flags and the counter. */
    method RoundRobin() returns (chosen: Option<nat>)
      requires Valid() && poolSize > 0
      modifies this`current
      ensures (chosen, current) == Pick(Alive(), old(current))
      ensures chosen == None ==> current == if old(current) + 1 == TWO64 then 0 else old(current) + 1
    {
      ghost var flags := Alive();
      var next: int := Next();
      var n: int := poolSize;
      var i := next;
      while i < n + next
        invariant next <= i <= n + next && next < n == |members|
        invariant current == Bump(old(current)) && flags == Alive()
        invariant FirstAlive(flags, next, 0) == FirstAlive(flags, next, i - next)
        decreases n + next - i
      {
        AroundIsModulo(next, i - next, n);
        var serverId := i % n;
        if members[serverId].alive {
          if i != next { current := serverId; }
          return Some(serverId);
        }
        i := i + 1;
      }
      return None;
    }
  }

  // ---------------------------------------------------------------- who is selected

  /** A call succeeds exactly when some member is alive, and then selects a live one. */
  lemma PickSucceedsIff(alive: seq<bool>, current: u64)
    requires 0 < |alive| < TWO64
    ensures Pick(alive, current).0.Some? <==> exists i :: 0 <= i < |alive| && alive[i]
    ensures Pick(alive, current).0.Some? ==>
              Pick(alive, current).0.value < |alive| && alive[Pick(alive, current).0.value]
  {
    var n := |alive|;
    var start := Bump(current) % n;
    var k := FirstAlive(alive, start, 0);
    if k == n {
      forall i | 0 <= i < n ensures !alive[i] {
        var offset := Distance(start, i, n);
        assert Around(start, offset, n) == i;
      }
    } else {
      assert alive[Around(start, k, n)];
      assert Around(start, 0, n) == start;
    }
  }

  /** The place `offset` turns of the loop after the place the counter stands for. */
  function Turn(counter: nat, offset: nat, n: nat): nat
    requires n > 0
  {
    (counter % n + offset) % n
  }

  /**
   * A call selects the first live member on the way round from the place after the counter, and
   * leaves the counter at its place, or moved by one if it is the first one looked at.
   */
  lemma PickIsFirst(alive: seq<bool>, current: u64, next: u64, steps: nat)
    requires 0 < |alive| < TWO64 && steps < |alive| && next == if current + 1 == TWO64 then 0 else current + 1
    requires alive[Turn(next, steps, |alive|)] && forall j :: 0 <= j < steps ==> !alive[Turn(next, j, |alive|)]
    ensures Pick(alive, current)
            == (Some(Turn(next, steps, |alive|)), if steps == 0 then next else Turn(next, steps, |alive|))
  {
    var n := |alive|;
    var start := Bump(current) % n;
    forall j: nat | j <= steps ensures Around(start, j, n) == Turn(next, j, n) { AroundIsModulo(start, j, n); }
    var k := FirstAlive(alive, start, 0);
    assert alive[Around(start, steps, n)] && k <= steps;
    assert k == steps by { assert forall j: nat :: j < steps ==> !alive[Turn(next, j, n)]; }
  }

  /** A call that finds nobody alive still moves the counter, and only by one. */
  lemma FailingCall(alive: seq<bool>, current: u64)
    requires 0 < |alive| < TWO64 && forall i :: 0 <= i < |alive| ==> !alive[i]
    ensures Pick(alive, current) == (None, if current + 1 == TWO64 then 0 else current + 1)
  {
    PickSucceedsIff(alive, current);
  }

  lemma {:induction false} FailingCalls(flags: seq<seq<bool>>, current: u64, n: nat, calls: nat)
    requires 0 < n < TWO64 && calls <= |flags| < TWO64
    requires forall j :: 0 <= j < |flags| ==> |flags[j]| == n
    requires forall j, i :: 0 <= j < calls && 0 <= i < n ==> !flags[j][i]
    ensures CounterAfter(flags, current, calls) == if current + calls < TWO64 then current + calls else current + calls - TWO64
    decreases calls
  {
    if calls > 0 {
      FailingCalls(flags, current, n, calls - 1);
      FailingCall(flags[calls - 1], CounterAfter(flags, current, calls - 1));
    }
  }

  /** After `calls` calls in vain, a call that finds everybody alive selects as if each had selected the next member. */
  lemma AfterFailingCalls(flags: seq<seq<bool>>, current: u64, n: nat, calls: nat)
    requires 0 < n < TWO64 && calls < |flags| < TWO64
    requires forall j :: 0 <= j < |flags| ==> |flags[j]| == n
    requires forall j, i :: 0 <= j < calls && 0 <= i < n ==> !flags[j][i]
    requires forall i :: 0 <= i < n ==> flags[calls][i]
    ensures
      var next: int := if current + calls + 1 < TWO64 then current + calls + 1 else current + calls + 1 - TWO64;
      Pick(flags[calls], CounterAfter(flags, current, calls)) == (Some(next % n), next)
  {
    FailingCalls(flags, current, n, calls);
    assert flags[calls] == AllAlive(n);
    PickOfAll(n, CounterAfter(flags, current, calls));
  }

  /** How far `to` lies ahead of `from` around the pool. */
  function Distance(from: nat, to: nat, n: nat): (d: nat)
    requires from < n && to < n
    ensures d < n && Around(from, d, n) == to
  {
    if to >= from then to - from else to + n - from
  }

  /** The place the counter stands for. */
  function Place(current: u64, n: nat): nat
    requires 0 < n < TWO64
  {
    current % n
  }

  /** How many places the selection still has to move before it reaches `k`, at least one. */
  function Ahead(current: u64, k: nat, n: nat): (d: nat)
    requires 0 < n < TWO64 && k < n
    ensures 1 <= d <= n
  {
    var d := Distance(Place(current, n), k, n);
    if d == 0 then n else d
  }

  /**
   * A call selects a live member. Short of the wrap-around, and at it too if the pool size divides
   * 2^64, it selects a given live member or comes strictly closer to it; at the wrap-around it
   * leaves a counter below the pool size.
   */
  lemma PickComesCloser(alive: seq<bool>, current: u64, k: nat)
    requires 0 < |alive| < TWO64 && k < |alive| && alive[k]
    ensures
      var n := |alive|;
      var (chosen, current') := Pick(alive, current);
      && chosen.Some? && Place(current', n) == chosen.value
      && (current + 1 < TWO64 || TWO64 % n == 0 ==> chosen.value == k || Ahead(current', k, n) < Ahead(current, k, n))
      && (current + 1 == TWO64 ==> current' < n && (chosen.value == k || Ahead(current', k, n) < n))
  {
    var n := |alive|;
    PickSucceedsIff(alive, current);
    var start := Bump(current) % n;
    NextPlace(current, n);
    var offset := Distance(start, k, n);
    var f := FirstAlive(alive, start, 0);
    assert alive[Around(start, offset, n)];
    assert f <= offset;
    var (chosen, current') := Pick(alive, current);
    assert Around(start, 0, n) == start;
    if f > 0 { RemainderUnique(current', n, 0, current'); }
    if current + 1 == TWO64 { RemainderUnique(0, n, 0, 0); }
  }

  lemma NextPlace(current: nat, n: nat)
    requires n > 0
    ensures (current + 1) % n == if current % n + 1 == n then 0 else current % n + 1
  {
    var q, r := current / n, current % n;
    assert current == n * q + r;
    if r + 1 == n {
      assert current + 1 == n * (q + 1) + 0;
      RemainderUnique(current + 1, n, q + 1, 0);
    } else {
      RemainderUnique(current + 1, n, q, r + 1);
    }
  }

  /** The counter after the first `calls` calls, whatever the flags were at each of them. */
  function CounterAfter(flags: seq<seq<bool>>, current: u64, calls: nat): u64
    requires calls <= |flags| && forall j :: 0 <= j < |flags| ==> 0 < |flags[j]| < TWO64
  {
    if calls == 0 then current else Pick(flags[calls - 1], CounterAfter(flags, current, calls - 1)).1
  }

  /** No wrap-around in the next `calls` calls, or one that is not felt. */
  predicate Smooth(counter: u64, calls: nat, n: nat)
    requires n > 0
  {
    counter + calls < TWO64 || TWO64 % n == 0
  }

  /** A member no more than `within` places ahead is selected within as many calls. */
  lemma SelectedWithin(flags: seq<seq<bool>>, current: u64, n: nat, k: nat, calls: nat, within: nat) returns (call: nat)
    requires 0 < n && calls + within <= |flags| && k < n && n + within < TWO64
    requires forall j :: 0 <= j < |flags| ==> 0 < |flags[j]| == n < TWO64 && flags[j][k]
    ensures
      var c := CounterAfter(flags, current, calls);
      Smooth(c, within, n) && Ahead(c, k, n) <= within ==>
        calls <= call < calls + within && Pick(flags[call], CounterAfter(flags, current, call)).0 == Some(k)
    decreases within
  {
    call := calls;
    var c := CounterAfter(flags, current, calls);
    if !(Smooth(c, within, n) && Ahead(c, k, n) <= within) { return; }
    PickComesCloser(flags[calls], c, k);
    if Pick(flags[calls], c).0 != Some(k) {
      CounterStaysSmooth(flags[calls], c, within);
      call := SelectedWithin(flags, current, n, k, calls + 1, within - 1);
    }
  }

  lemma CounterStaysSmooth(alive: seq<bool>, c: u64, within: nat)
    requires 0 < |alive| < TWO64 && 0 < within && |alive| + within < TWO64 && Smooth(c, within, |alive|)
    ensures Smooth(Pick(alive, c).1, within - 1, |alive|)
  {
  }

  /**
   * No starvation: a member that is alive at every call is selected within 2n calls, n the pool
   * size, however the flags of the others change between the calls; and within n unless the
   * counter wraps around in the middle of them in a pool whose size does not divide 2^64.
   */
  lemma NoStarvation(flags: seq<seq<bool>>, current: u64, n: nat, k: nat) returns (call: nat)
    requires 0 < n && |flags| == 2 * n && k < n && 2 * n + 1 < TWO64
    requires forall j :: 0 <= j < |flags| ==> 0 < |flags[j]| == n < TWO64 && flags[j][k]
    ensures call < 2 * n && Pick(flags[call], CounterAfter(flags, current, call)).0 == Some(k)
    ensures Steady(current, n) ==> call < n
  {
    if Smooth(current, n, n) {
      call := SelectedWithin(flags, current, n, k, 0, n);
    } else if current + 1 == TWO64 {
      call := SelectedFromTheEnd(flags, current, n, k, 0);
    } else {
      call := SelectedAnyway(flags, current, n, k, 0);
    }
  }

  /** The counter does not wrap around within n calls, or does at once, or the wrap-around is not felt. */
  predicate Steady(current: u64, n: nat)
    requires n > 0
  {
    current + n < TWO64 || current + 1 == TWO64 || TWO64 % n == 0
  }

  /** One more call: selected, or strictly closer, or past the wrap-around, low again and less than a round away. */
  lemma OneCall(flags: seq<seq<bool>>, current: u64, n: nat, k: nat, calls: nat)
    requires 0 < n < TWO64 && calls < |flags| && k < n
    requires forall j :: 0 <= j < |flags| ==> 0 < |flags[j]| == n < TWO64 && flags[j][k]
    ensures
      var now, after := CounterAfter(flags, current, calls), CounterAfter(flags, current, calls + 1);
      || Pick(flags[calls], now).0 == Some(k)
      || (now + 1 == TWO64 && after < n && Ahead(after, k, n) < n)
      || (now + 1 < TWO64 && Ahead(after, k, n) < Ahead(now, k, n))
  {
    PickComesCloser(flags[calls], CounterAfter(flags, current, calls), k);
  }

  /** From the last counter before the wrap-around n calls are enough. */
  lemma SelectedFromTheEnd(flags: seq<seq<bool>>, current: u64, n: nat, k: nat, calls: nat) returns (call: nat)
    requires 0 < n && calls + n <= |flags| && k < n && 2 * n + 1 < TWO64
    requires forall j :: 0 <= j < |flags| ==> 0 < |flags[j]| == n < TWO64 && flags[j][k]
    ensures CounterAfter(flags, current, calls) + 1 == TWO64 ==>
              calls <= call < calls + n && Pick(flags[call], CounterAfter(flags, current, call)).0 == Some(k)
  {
    call := calls;
    OneCall(flags, current, n, k, calls);
    if (CounterAfter(flags, current, calls) as int) + 1 == TWO64 && Pick(flags[calls], CounterAfter(flags, current, calls)).0 != Some(k) {
      call := SelectedWithin(flags, current, n, k, calls + 1, n - 1);
    }
  }

  lemma {:induction false} SelectedAnyway(flags: seq<seq<bool>>, current: u64, n: nat, k: nat, calls: nat) returns (call: nat)
    requires 0 < n && calls < n && |flags| == 2 * n && k < n && 2 * n + 1 < TWO64
    requires forall j :: 0 <= j < |flags| ==> 0 < |flags[j]| == n < TWO64 && flags[j][k]
    ensures Ahead(CounterAfter(flags, current, calls), k, n) <= n - calls ==>
              call < 2 * n && Pick(flags[call], CounterAfter(flags, current, call)).0 == Some(k)
    decreases n - calls
  {
    call := calls;
    if Ahead(CounterAfter(flags, current, calls), k, n) > n - calls { return; }
    OneCall(flags, current, n, k, calls);
    if (CounterAfter(flags, current, calls) as int) + 1 == TWO64 {
      call := SelectedFromTheEnd(flags, current, n, k, calls);
    } else if Pick(flags[calls], CounterAfter(flags, current, calls)).0 != Some(k) {
      call := SelectedAnyway(flags, current, n, k, calls + 1);
    }
  }

  // ---------------------------------------------------------------- who is passed over

  function AllAlive(n: nat): (alive: seq<bool>)
    ensures |alive| == n && forall i :: 0 <= i < n ==> alive[i]
  {
    seq(n, _ => true)
  }

  /** As many calls as members, with every member alive. */
  function FullRound(n: nat): (flags: seq<seq<bool>>)
    ensures |flags| == n && forall j :: 0 <= j < n ==> flags[j] == AllAlive(n)
  {
    seq(n, _ => AllAlive(n))
  }

  lemma PickOfAll(n: nat, c: u64)
    requires 0 < n < TWO64
    ensures Pick(AllAlive(n), c) == (Some(Bump(c) % n), Bump(c))
  {
    assert Around(Bump(c) % n, 0, n) == Bump(c) % n;
  }

  lemma {:induction false} CounterOfAll(n: nat, current: u64, calls: nat)
    requires 0 < n < TWO64 && calls <= n
    ensures CounterAfter(FullRound(n), current, calls)
            == if current + calls < TWO64 then current + calls else current + calls - TWO64
    decreases calls
  {
    if calls > 0 {
      CounterOfAll(n, current, calls - 1);
      PickOfAll(n, CounterAfter(FullRound(n), current, calls - 1));
    }
  }

  /** The place of a counter `back` steps before the last one. */
  lemma PlaceBeforeTheEnd(n: nat, back: nat)
    requires 0 < n < TWO64 && back < n
    ensures
      var end := (TWO64 - 1) % n;
      (TWO64 - 1 - back) % n == if back <= end then end - back else end - back + n
  {
    var q, end := (TWO64 - 1) / n, (TWO64 - 1) % n;
    assert TWO64 - 1 == n * q + end;
    if back <= end {
      RemainderUnique(TWO64 - 1 - back, n, q, end - back);
    } else {
      assert q > 0 && TWO64 - 1 - back == n * (q - 1) + (end - back + n);
      RemainderUnique(TWO64 - 1 - back, n, q - 1, end - back + n);
    }
  }

  /** The member a wrap-around in the middle of a round passes over. */
  function PassedOver(current: u64, n: nat): nat
    requires 0 < n < TWO64 && !Steady(current, n)
  {
    var end, before := (TWO64 - 1) % n, TWO64 - 1 - current;
    if n - before > end + 1 then n - before else end + 1
  }

  lemma WrapPassesOver(current: u64, n: nat, call: nat)
    requires 0 < n < TWO64 && !Steady(current, n) && call < n
    ensures PassedOver(current, n) < n
    ensures Pick(AllAlive(n), CounterAfter(FullRound(n), current, call)).0 != Some(PassedOver(current, n))
  {
    var end, before := (TWO64 - 1) % n, TWO64 - 1 - current;
    NextPlace(TWO64 - 1, n);
    CounterOfAll(n, current, call);
    PickOfAll(n, CounterAfter(FullRound(n), current, call));
    if call < before {
      PlaceBeforeTheEnd(n, before - 1 - call);
    } else {
      RemainderUnique(call - before, n, 0, call - before);
    }
  }

  /** Every member that stays alive is selected within n calls, whatever the flags of the others. */
  ghost predicate ServesInOneRound(current: u64, n: nat)
    requires 0 < n < TWO64
  {
    forall flags: seq<seq<bool>>, k: nat :: Attended(flags, n, k) ==> Served(flags, current, k)
  }

  ghost predicate Attended(flags: seq<seq<bool>>, n: nat, k: nat) {
    0 < n < TWO64 && k < n && |flags| == n && forall j :: 0 <= j < n ==> |flags[j]| == n && flags[j][k]
  }

  ghost predicate Served(flags: seq<seq<bool>>, current: u64, k: nat)
    requires forall j :: 0 <= j < |flags| ==> 0 < |flags[j]| < TWO64
  {
    exists call :: 0 <= call < |flags| && Pick(flags[call], CounterAfter(flags, current, call)).0 == Some(k)
  }

  /** That is so exactly for a steady counter. */
  lemma ServesInOneRoundIff(current: u64, n: nat)
    requires 0 < n && 2 * n + 1 < TWO64
    ensures ServesInOneRound(current, n) <==> Steady(current, n)
  {
    if Steady(current, n) {
      forall flags: seq<seq<bool>>, k: nat | Attended(flags, n, k) ensures Served(flags, current, k) {
        OneRound(flags, current, n, k);
      }
    } else {
      var k := PassedOver(current, n);
      WrapPassesOver(current, n, 0);
      var flags := FullRound(n);
      assert Attended(flags, n, k);
      forall call | 0 <= call < n ensures Pick(flags[call], CounterAfter(flags, current, call)).0 != Some(k) {
        WrapPassesOver(current, n, call);
      }
      assert !Served(flags, current, k);
    }
  }

  lemma OneRound(flags: seq<seq<bool>>, current: u64, n: nat, k: nat)
    requires Attended(flags, n, k) && Steady(current, n) && 2 * n + 1 < TWO64
    ensures Served(flags, current, k)
  {
    var call: nat;
    if current + 1 == TWO64 {
      call := SelectedFromTheEnd(flags, current, n, k, 0);
    } else {
      call := SelectedWithin(flags, current, n, k, 0, n);
    }
    assert Pick(flags[call], CounterAfter(flags, current, call)).0 == Some(k);
  }
}
