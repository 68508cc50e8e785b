/** What the first-free search makes of the CPU hopper: with n processes on the machine only
    the CPUs 0..n are ever used, one of them is idle, and a round of hops rotates the
    processes over all of them. */
module HopperRotation {
  import opened OrderedKeys
  import opened HopperSpec
  import opened Modular
  import opened Processes

  // ----- The invariant -----

  ghost function Hole(s: Hopper): nat { FirstFree(s.taken) }

  /** n processes are on different CPUs, and the CPUs taken are 0..n but for one hole. */
  ghost predicate Compact(s: Hopper) {
    && Hole(s) <= |s.cpuOf| < |s.taken|
    && (forall c | 0 <= c < |s.taken| :: s.taken[c] <==> c <= |s.cpuOf| && c != Hole(s))
    && (forall pid | pid in s.cpuOf :: s.cpuOf[pid] <= |s.cpuOf| && s.cpuOf[pid] != Hole(s))
    && (forall p, q | p in s.cpuOf && q in s.cpuOf && s.cpuOf[p] == s.cpuOf[q] :: p == q)
  }

  lemma HoleIs(s: Hopper, hole: nat)
    requires hole < |s.taken| && !s.taken[hole]
    requires forall c | 0 <= c < hole :: s.taken[c]
    ensures Hole(s) == hole
  {
  }

  lemma InitIsCompact(numCpus: nat)
    requires numCpus > 0
    ensures Compact(Init(numCpus))
  {
    HoleIs(Init(numCpus), 0);
  }

  /** A new pid takes the hole.  It succeeds exactly when a CPU stays free, and then the
      next CPU up becomes the hole. */
  lemma AddKeepsCompact(s: Hopper, pid: Pid)
    requires Compact(s) && pid !in s.cpuOf
    ensures var (s', status) := Add(s, pid);
            && s'.cpuOf == s.cpuOf[pid := Hole(s)] && |s'.taken| == |s.taken|
            && status == (if |s.cpuOf| + 1 < |s.taken| then Ok else TooManyProcesses)
            && (status.Ok? ==> Compact(s') && Hole(s') == |s'.cpuOf|)
  {
    var s' := Add(s, pid).0;
    if |s'.cpuOf| < |s.taken| {
      HoleIs(s', |s'.cpuOf|);
    }
  }

  /** An addition keeps the invariant exactly when the pid is new and a CPU stays free. */
  lemma AddIsCompactIffNew(s: Hopper, pid: Pid)
    requires Compact(s)
    ensures Compact(Add(s, pid).0) <==> pid !in s.cpuOf && |s.cpuOf| + 1 < |s.taken|
    ensures Add(s, pid).1.Ok? <==> pid in s.cpuOf || |s.cpuOf| + 1 < |s.taken|
  {
    if pid !in s.cpuOf {
      AddKeepsCompact(s, pid);
    } else {
      var s' := Add(s, pid).0;
      assert s'.cpuOf.Keys == s.cpuOf.Keys;
      assert |s'.cpuOf| == |s'.cpuOf.Keys| == |s.cpuOf|;
      assert forall c | 0 <= c <= |s.cpuOf| :: s'.taken[c];
    }
  }

  /** A hop exchanges the hole and the CPU of the process. */
  lemma HopOneExchanges(s: Hopper, pid: Pid) returns (s': Hopper)
    requires Compact(s) && pid in s.cpuOf
    ensures HopOne(s, pid, s.cpuOf[pid]) == (s', Ok)
    ensures s'.cpuOf == s.cpuOf[pid := Hole(s)] && s'.taken == s.taken[Hole(s) := true][s.cpuOf[pid] := false]
    ensures |s'.cpuOf| == |s.cpuOf|
  {
    s' := HopOne(s, pid, s.cpuOf[pid]).0;
    assert s'.cpuOf.Keys == s.cpuOf.Keys;
    assert |s'.cpuOf| == |s'.cpuOf.Keys| == |s.cpuOf|;
  }

  lemma ExchangeKeepsCompact(s: Hopper, pid: Pid, s': Hopper)
    requires Compact(s) && pid in s.cpuOf && |s'.cpuOf| == |s.cpuOf|
    requires s'.cpuOf == s.cpuOf[pid := Hole(s)] && s'.taken == s.taken[Hole(s) := true][s.cpuOf[pid] := false]
    ensures Compact(s') && Hole(s') == s.cpuOf[pid]
  {
    var hole := s.cpuOf[pid];
    assert forall c | 0 <= c < |s'.taken| :: s'.taken[c] <==> c <= |s.cpuOf| && c != hole;
    HoleIs(s', hole);
  }

  /** A process hops into the hole and leaves its own CPU as the next hole. */
  lemma HopOneKeepsCompact(s: Hopper, pid: Pid)
    requires Compact(s) && pid in s.cpuOf
    ensures var (s', status) := HopOne(s, pid, s.cpuOf[pid]);
            && status.Ok? && Compact(s') && |s'.taken| == |s.taken|
            && s'.cpuOf == s.cpuOf[pid := Hole(s)] && Hole(s') == s.cpuOf[pid]
  {
    var s' := HopOneExchanges(s, pid);
    ExchangeKeepsCompact(s, pid, s');
  }

  /** The CPUs of a set of processes on different CPUs. */
  lemma {:induction false} AsManyCpusAsPids(s: Hopper, pids: set<Pid>) returns (cpus: set<nat>)
    requires Compact(s) && pids <= s.cpuOf.Keys
    ensures |cpus| == |pids|
    ensures forall c | c in cpus :: exists pid :: pid in pids && s.cpuOf[pid] == c
    decreases |pids|
  {
    if pids == {} {
      cpus := {};
    } else {
      var pid :| pid in pids;
      var rest := AsManyCpusAsPids(s, pids - {pid});
      cpus := rest + {s.cpuOf[pid]};
      forall c | c in cpus ensures exists p :: p in pids && s.cpuOf[p] == c {
        if c !in rest {
          assert pid in pids && s.cpuOf[pid] == c;
        }
      }
    }
  }

  lemma {:induction false} FullSubset(cpus: set<nat>, bound: nat)
    requires |cpus| == bound && forall c | c in cpus :: c < bound
    ensures forall c: nat | c < bound :: c in cpus
  {
    if bound > 0 {
      if bound - 1 in cpus {
        FullSubset(cpus - {bound - 1}, bound - 1);
      } else {
        SizeBelow(cpus, bound - 1);
        assert false;
      }
    }
  }

  lemma {:induction false} SizeBelow(cpus: set<nat>, bound: nat)
    requires forall c | c in cpus :: c < bound
    ensures |cpus| <= bound
  {
    if bound == 0 {
      assert cpus == {};
    } else {
      SizeBelow(cpus - {bound - 1}, bound - 1);
    }
  }

  /** Exactly the CPUs of the mapped processes are marked as taken. */
  lemma TakenIsTheImage(s: Hopper, cpu: nat)
    requires Compact(s) && cpu < |s.taken|
    ensures s.taken[cpu] <==> exists pid :: pid in s.cpuOf && s.cpuOf[pid] == cpu
  {
    if s.taken[cpu] {
      var cpus := AsManyCpusAsPids(s, s.cpuOf.Keys);
      assert Hole(s) !in cpus;
      FullSubset(cpus + {Hole(s)}, |s.cpuOf| + 1);
      assert cpu in cpus;
    }
  }

  // ----- The ring -----

  /** `order` lists the processes by pid; `ring` has the hole at place 0 and then, in that
      order, the CPUs of the processes. */
  ghost predicate Layout(order: seq<Pid>, ring: seq<nat>, s: Hopper) {
    && Compact(s) && Enumerates(order, s.cpuOf.Keys)
    && |order| == |s.cpuOf| && |ring| == |order| + 1
    && ring[0] == Hole(s)
    && (forall i | 0 <= i < |order| :: order[i] in s.cpuOf && s.cpuOf[order[i]] == ring[i + 1])
  }

  lemma LayoutExists(s: Hopper) returns (order: seq<Pid>, ring: seq<nat>)
    requires Compact(s)
    ensures Layout(order, ring, s)
  {
    order := OrderExists(s.cpuOf.Keys);
    assert forall i | 0 <= i < |order| :: order[i] in order;
    ring := [Hole(s)] + seq(|order|, i requires 0 <= i < |order| => s.cpuOf[order[i]]);
  }

  lemma RankOf(order: seq<Pid>, ring: seq<nat>, s: Hopper, pid: Pid) returns (rank: nat)
    requires Layout(order, ring, s) && pid in s.cpuOf
    ensures rank < |order| && order[rank] == pid
  {
    assert pid in order;
    rank :| rank < |order| && order[rank] == pid;
  }

  /** The ring lists each of the CPUs 0..n once. */
  lemma PlaceOf(order: seq<Pid>, ring: seq<nat>, s: Hopper, cpu: nat) returns (place: nat)
    requires Layout(order, ring, s) && cpu <= |order|
    ensures place < |ring| && ring[place] == cpu
    ensures forall other | 0 <= other < |ring| && ring[other] == cpu :: other == place
  {
    if cpu == Hole(s) {
      place := 0;
    } else {
      TakenIsTheImage(s, cpu);
      var pid :| pid in s.cpuOf && s.cpuOf[pid] == cpu;
      var rank := RankOf(order, ring, s, pid);
      place := rank + 1;
    }
    forall other | 0 <= other < |ring| && ring[other] == cpu ensures other == place {
      assert other > 0 ==> ring[other] == s.cpuOf[order[other - 1]];
      assert place > 0 ==> ring[place] == s.cpuOf[order[place - 1]];
    }
  }

  /** A layout determines the whole state. */
  lemma LayoutDetermines(order: seq<Pid>, ring: seq<nat>, s: Hopper, s': Hopper)
    requires Layout(order, ring, s) && Layout(order, ring, s') && |s.taken| == |s'.taken|
    ensures s == s'
  {
    assert s.cpuOf.Keys == s'.cpuOf.Keys by {
      assert forall pid :: pid in s.cpuOf.Keys <==> pid in s'.cpuOf.Keys;
    }
    forall pid | pid in s.cpuOf ensures s.cpuOf[pid] == s'.cpuOf[pid] {
      var rank := RankOf(order, ring, s, pid);
    }
    assert s.cpuOf == s'.cpuOf;
  }

  // ----- Rotation -----

  function Rotated(ring: seq<nat>): (rotated: seq<nat>)
    requires ring != []
    ensures |rotated| == |ring|
  {
    [ring[|ring| - 1]] + ring[..|ring| - 1]
  }

  /** Midway through a round the first k processes have moved one place along the ring. */
  ghost predicate Moved(order: seq<Pid>, ring: seq<nat>, cpuOf: map<Pid, nat>, k: nat)
    requires k <= |order| && |ring| == |order| + 1
  {
    && (forall i | 0 <= i < k :: order[i] in cpuOf && cpuOf[order[i]] == ring[i])
    && (forall i | k <= i < |order| :: order[i] in cpuOf && cpuOf[order[i]] == ring[i + 1])
  }

  ghost predicate Midway(order: seq<Pid>, ring: seq<nat>, s: Hopper, k: nat) {
    && Compact(s) && Enumerates(order, s.cpuOf.Keys)
    && k <= |order| == |s.cpuOf| && |ring| == |order| + 1
    && ring[k] == Hole(s)
    && Moved(order, ring, s.cpuOf, k)
  }

  lemma OneMoreMoved(order: seq<Pid>, ring: seq<nat>, cpuOf: map<Pid, nat>, k: nat)
    requires k < |order| && |ring| == |order| + 1 && Moved(order, ring, cpuOf, k)
    requires Enumerates(order, cpuOf.Keys)
    ensures Moved(order, ring, cpuOf[order[k] := ring[k]], k + 1)
    ensures cpuOf[order[k] := ring[k]].Keys == cpuOf.Keys
  {
    assert forall i | 0 <= i < |order| && i != k :: order[i] != order[k];
  }

  lemma MidwayStep(order: seq<Pid>, ring: seq<nat>, s: Hopper, k: nat, s': Hopper)
    requires Midway(order, ring, s, k) && k < |order|
    requires s'.cpuOf == s.cpuOf[order[k] := Hole(s)] && Hole(s') == s.cpuOf[order[k]] && Compact(s')
    ensures Midway(order, ring, s', k + 1)
  {
    OneMoreMoved(order, ring, s.cpuOf, k);
    assert |s'.cpuOf| == |s'.cpuOf.Keys| == |s.cpuOf|;
  }

  lemma DropOne(order: seq<Pid>, k: nat)
    requires k < |order|
    ensures order[k..] == [order[k]] + order[k + 1..]
  {
  }

  /** From midway, the rest of the round succeeds and brings every process to its place. */
  lemma {:induction false} MidwayToEnd(order: seq<Pid>, ring: seq<nat>, s: Hopper, k: nat)
    returns (s': Hopper)
    requires Midway(order, ring, s, k)
    ensures s.Bounded() && forall pid | pid in order[k..] :: pid in s.cpuOf
    ensures HopList(s, order[k..]) == (s', Ok)
    ensures Midway(order, ring, s', |order|) && |s'.taken| == |s.taken|
    decreases |order| - k
  {
    if k == |order| {
      s' := s;
    } else {
      var next := HopOne(s, order[k], s.cpuOf[order[k]]).0;
      HopOneKeepsCompact(s, order[k]);
      MidwayStep(order, ring, s, k, next);
      s' := MidwayToEnd(order, ring, next, k + 1);
      DropOne(order, k);
      HopListUnfold(s, order[k], order[k + 1..]);
    }
  }

  lemma MidwayIsRotated(order: seq<Pid>, ring: seq<nat>, s: Hopper)
    requires Midway(order, ring, s, |order|)
    ensures Layout(order, Rotated(ring), s)
  {
  }

  /** A round never fails, and turns the ring (h, c1, .., cn) into (cn, h, c1, .., c(n-1)). */
  lemma RoundRotates(order: seq<Pid>, ring: seq<nat>, s: Hopper) returns (s': Hopper)
    requires Layout(order, ring, s)
    ensures s.Bounded() && HopAll(s) == (s', Ok)
    ensures Layout(order, Rotated(ring), s') && |s'.taken| == |s.taken|
  {
    InOrderIs(order, s.cpuOf.Keys);
    assert order[0..] == order;
    s' := MidwayToEnd(order, ring, s, 0);
    MidwayIsRotated(order, ring, s');
  }

  lemma RoundKeepsCompact(s: Hopper)
    requires Compact(s)
    ensures s.Bounded() && HopAll(s).1.Ok? && Compact(HopAll(s).0)
  {
    var order, ring := LayoutExists(s);
    var s' := RoundRotates(order, ring, s);
  }

  // ----- Fairness -----

  ghost function Rounds(s: Hopper, k: nat): (s': Hopper)
    requires Compact(s)
    ensures Compact(s')
  {
    if k == 0 then s else
      var before := Rounds(s, k - 1);
      RoundKeepsCompact(before);
      HopAll(before).0
  }

  /** The ring after k rounds. */
  function TurnedRing(ring: seq<nat>, k: nat): (turned: seq<nat>)
    requires ring != []
    ensures |turned| == |ring|
  {
    seq(|ring|, i requires 0 <= i < |ring| => ring[Turned(i, k, |ring|)])
  }

  lemma OneMoreTurnOfTheRing(ring: seq<nat>, k: nat)
    requires ring != []
    ensures TurnedRing(ring, k + 1) == Rotated(TurnedRing(ring, k))
  {
    forall i | 0 <= i < |ring| ensures TurnedRing(ring, k + 1)[i] == Rotated(TurnedRing(ring, k))[i] {
      OneMoreTurn(i, k, |ring|);
    }
  }

  lemma NoTurnOfTheRing(ring: seq<nat>)
    requires ring != []
    ensures TurnedRing(ring, 0) == ring && TurnedRing(ring, |ring|) == ring
  {
    forall i | 0 <= i < |ring|
      ensures TurnedRing(ring, 0)[i] == ring[i] && TurnedRing(ring, |ring|)[i] == ring[i]
    {
      NoTurn(i, |ring|);
      FullTurn(i, |ring|);
    }
  }

  function RotatedTimes(ring: seq<nat>, k: nat): (rotated: seq<nat>)
    requires ring != []
    ensures |rotated| == |ring|
  {
    if k == 0 then ring else Rotated(RotatedTimes(ring, k - 1))
  }

  lemma RotatedTimesIsTurned(ring: seq<nat>, k: nat)
    requires ring != []
    ensures RotatedTimes(ring, k) == TurnedRing(ring, k)
  {
    var i := 0;
    NoTurnOfTheRing(ring);
    while i < k
      invariant i <= k
      invariant RotatedTimes(ring, i) == TurnedRing(ring, i)
    {
      OneMoreTurnOfTheRing(ring, i);
      i := i + 1;
    }
  }

  lemma OneMoreRound(order: seq<Pid>, ring: seq<nat>, s: Hopper, k: nat)
    requires ring != [] && Compact(s) && k > 0 && Layout(order, RotatedTimes(ring, k - 1), Rounds(s, k - 1))
    ensures Layout(order, RotatedTimes(ring, k), Rounds(s, k))
    ensures |Rounds(s, k).taken| == |Rounds(s, k - 1).taken|
  {
    var after := RoundRotates(order, RotatedTimes(ring, k - 1), Rounds(s, k - 1));
  }

  lemma RoundsRotate(order: seq<Pid>, ring: seq<nat>, s: Hopper, k: nat)
    requires Layout(order, ring, s)
    ensures Layout(order, RotatedTimes(ring, k), Rounds(s, k)) && |Rounds(s, k).taken| == |s.taken|
  {
    var i := 0;
    while i < k
      invariant i <= k
      invariant Layout(order, RotatedTimes(ring, i), Rounds(s, i)) && |Rounds(s, i).taken| == |s.taken|
    {
      i := i + 1;
      OneMoreRound(order, ring, s, i);
    }
  }

  lemma RoundsTurnTheRing(order: seq<Pid>, ring: seq<nat>, s: Hopper, k: nat) returns (s': Hopper)
    requires Layout(order, ring, s)
    ensures Rounds(s, k) == s'
    ensures Layout(order, TurnedRing(ring, k), s') && |s'.taken| == |s.taken|
  {
    RoundsRotate(order, ring, s, k);
    s' := Rounds(s, k);
    RotatedTimesIsTurned(ring, k);
  }

  /** A place of the ring shows a CPU in exactly one of any n + 1 consecutive rounds. */
  lemma PlaceShowsCpuOnce(order: seq<Pid>, ring: seq<nat>, s: Hopper, from: nat, place: nat, cpu: nat)
    returns (k: nat)
    requires Layout(order, ring, s) && place <= |order| && cpu <= |order|
    ensures from <= k <= from + |order| && TurnedRing(ring, k)[place] == cpu
    ensures forall j: nat | from <= j <= from + |order| && TurnedRing(ring, j)[place] == cpu :: j == k
  {
    var source := PlaceOf(order, ring, s, cpu);
    k := SomeTurn(place, source, from, |ring|);
    forall j: nat | from <= j <= from + |order| && TurnedRing(ring, j)[place] == cpu ensures j == k {
      assert Turned(place, j, |ring|) == source;
      if j < k {
        TurnsApart(place, j, k, |ring|);
      } else if k < j {
        TurnsApart(place, k, j, |ring|);
      }
    }
  }

  lemma ProcessAfterRounds(order: seq<Pid>, ring: seq<nat>, s: Hopper, rank: nat, k: nat)
    requires Layout(order, ring, s) && rank < |order|
    ensures order[rank] in Rounds(s, k).cpuOf
    ensures Rounds(s, k).cpuOf[order[rank]] == TurnedRing(ring, k)[rank + 1]
  {
    var after := RoundsTurnTheRing(order, ring, s, k);
  }

  lemma ProcessPlaces(order: seq<Pid>, ring: seq<nat>, s: Hopper, rank: nat, pid: Pid)
    requires Layout(order, ring, s) && rank < |order| && pid == order[rank]
    ensures forall j: nat :: pid in Rounds(s, j).cpuOf && Rounds(s, j).cpuOf[pid] == TurnedRing(ring, j)[rank + 1]
  {
    forall j: nat
      ensures pid in Rounds(s, j).cpuOf && Rounds(s, j).cpuOf[pid] == TurnedRing(ring, j)[rank + 1]
    {
      ProcessAfterRounds(order, ring, s, rank, j);
    }
  }

  /** Over any n + 1 consecutive rounds every process runs on every CPU of 0..n exactly once. */
  lemma EveryProcessVisitsEveryCpu(s: Hopper, from: nat, pid: Pid, cpu: nat) returns (k: nat)
    requires Compact(s) && pid in s.cpuOf && cpu <= |s.cpuOf|
    ensures forall j: nat :: pid in Rounds(s, j).cpuOf
    ensures from <= k <= from + |s.cpuOf| && Rounds(s, k).cpuOf[pid] == cpu
    ensures forall j: nat | from <= j <= from + |s.cpuOf| && Rounds(s, j).cpuOf[pid] == cpu :: j == k
  {
    var order, ring := LayoutExists(s);
    var rank := RankOf(order, ring, s, pid);
    k := PlaceShowsCpuOnce(order, ring, s, from, rank + 1, cpu);
    ProcessPlaces(order, ring, s, rank, pid);
  }

  /** Over any n + 1 consecutive rounds every CPU of 0..n is the idle one exactly once. */
  lemma EveryCpuRestsOnce(s: Hopper, from: nat, cpu: nat) returns (k: nat)
    requires Compact(s) && cpu <= |s.cpuOf|
    ensures from <= k <= from + |s.cpuOf| && Hole(Rounds(s, k)) == cpu
    ensures forall j: nat | from <= j <= from + |s.cpuOf| && Hole(Rounds(s, j)) == cpu :: j == k
  {
    var order, ring := LayoutExists(s);
    k := PlaceShowsCpuOnce(order, ring, s, from, 0, cpu);
    forall j: nat ensures Hole(Rounds(s, j)) == TurnedRing(ring, j)[0] {
      var after := RoundsTurnTheRing(order, ring, s, j);
    }
  }

  /** After n + 1 rounds the hopper is back where it was. */
  lemma FullTurnRestores(s: Hopper)
    requires Compact(s)
    ensures Rounds(s, |s.cpuOf| + 1) == s
  {
    var order, ring := LayoutExists(s);
    var after := RoundsTurnTheRing(order, ring, s, |ring|);
    NoTurnOfTheRing(ring);
    LayoutDetermines(order, ring, s, after);
  }
}
