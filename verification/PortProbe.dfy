/** The search for a free port for the collective-communication library. */
module PortProbe {

  /** The port tried after `port`. */
  function NextPort(port: int): int {
    if port < 60000 then port + 42 else port - 43
  }

  /** The port tried after `k` refusals. */
  function Walk(start: int, k: nat): int {
    if k == 0 then start else NextPort(Walk(start, k - 1))
  }

  const LOW := 59957
  const SIZE := 85

  /** The 85 ports the search ends up in. */
  predicate InWindow(port: int) { LOW <= port < LOW + SIZE }

  /** How many steps the walk needs at most to reach the window. */
  function StepsToWindow(port: int): nat {
    if port < LOW then LOW - port else if port >= LOW + SIZE then port - (LOW + SIZE) + 1 else 0
  }

  /** Outside the window every step comes closer; inside, the walk turns the window by 42 places. */
  lemma OneStep(port: int)
    ensures !InWindow(port) ==> StepsToWindow(NextPort(port)) < StepsToWindow(port)
    ensures InWindow(port) ==> NextPort(port) == LOW + (port - LOW + 42) % SIZE
  {}

  lemma AddModulo(x: int, d: int)
    ensures (x % SIZE + d) % SIZE == (x + d) % SIZE
  {}

  lemma {:induction false} WalkFromWindow(start: int, k: nat)
    requires InWindow(start)
    ensures Walk(start, k) == LOW + (start - LOW + 42 * k) % SIZE
  {
    if k > 0 {
      WalkFromWindow(start, k - 1);
      OneStep(Walk(start, k - 1));
      AddModulo(start - LOW + 42 * (k - 1), 42);
    }
  }

  lemma {:induction false} WalkAppend(start: int, j: nat, k: nat)
    ensures Walk(Walk(start, j), k) == Walk(start, j + k)
  {
    if k > 0 {
      WalkAppend(start, j, k - 1);
    }
  }

  /** From any port the walk reaches the window. */
  lemma {:induction false} ReachesWindow(start: int) returns (k: nat)
    ensures k <= StepsToWindow(start) && InWindow(Walk(start, k))
    decreases StepsToWindow(start)
  {
    if InWindow(start) {
      k := 0;
    } else {
      OneStep(start);
      k := ReachesWindow(NextPort(start));
      WalkAppend(start, 1, k);
      assert Walk(start, 1) == NextPort(Walk(start, 0));
      k := k + 1;
    }
  }

  /** The place in a round at which the walk from `start` is at `port`: 83 undoes the step of 42, as 42 * 83 is 1 modulo 85. */
  function Turn(start: int, port: int): nat {
    (83 * (port - start)) % SIZE
  }

  /** In the window, each 85 steps in a row visit every port exactly once. */
  lemma EachPortOncePerRound(start: int, port: int, k: nat)
    requires InWindow(start) && InWindow(port) && k < SIZE
    ensures Walk(start, k) == port <==> k == Turn(start, port)
  {
    WalkFromWindow(start, k);
    var d := port - start;
    var (q, r) := ((83 * d) / SIZE, (83 * d) % SIZE);
    assert 83 * d == SIZE * q + r;
    // The walk is at `port` exactly when 42 * k - d is a multiple of 85.
    if k == Turn(start, port) {
      assert 42 * k == 42 * 83 * d - 42 * SIZE * q == d + SIZE * (41 * d - 42 * q);
      SameRemainder(start - LOW + 42 * k, port - LOW, 41 * d - 42 * q);
    } else if Walk(start, k) == port {
      var m := (start - LOW + 42 * k) / SIZE;
      assert 42 * k - d == SIZE * m;
      assert 83 * d == 83 * 42 * k - 83 * SIZE * m == k + SIZE * (41 * k - 83 * m);
      SameRemainder(83 * d, k, 41 * k - 83 * m);
    }
  }

  lemma SameRemainder(x: int, y: int, m: int)
    requires x == y + SIZE * m && 0 <= y < SIZE
    ensures x % SIZE == y
  {
    assert x / SIZE == m;
  }

  /** Every port of the window is tried, from any start, within a known number of steps. */
  lemma EveryWindowPortIsTried(start: int, port: int)
    requires InWindow(port)
    ensures exists k: nat :: k < StepsToWindow(start) + SIZE && Walk(start, k) == port
  {
    var k := ReachesWindow(start);
    EachPortOncePerRound(Walk(start, k), port, Turn(Walk(start, k), port));
    WalkAppend(start, k, Turn(Walk(start, k), port));
  }

  /** The ports the walk ever tries from `start`. */
  ghost predicate Tried(start: int, port: int) {
    exists k: nat :: Walk(start, k) == port
  }

  /** Only finitely many ports matter: past the first round in the window nothing new is tried. */
  lemma NothingNewLater(start: int, k: nat) returns (j: nat)
    ensures j < StepsToWindow(start) + SIZE && Walk(start, j) == Walk(start, k)
  {
    var r := ReachesWindow(start);
    if k < r {
      j := k;
    } else {
      WalkAppend(start, r, k - r);
      WalkFromWindow(Walk(start, r), k - r);
      j := r + Turn(Walk(start, r), Walk(start, k));
      EachPortOncePerRound(Walk(start, r), Walk(start, k), Turn(Walk(start, r), Walk(start, k)));
      WalkAppend(start, r, Turn(Walk(start, r), Walk(start, k)));
    }
  }

  /** The search ends exactly when one of the ports on its way is free; these are finitely many, and all ports of the window are among them. */
  lemma SearchEndsExactlyWhen(start: int, free: int -> bool)
    ensures (exists k: nat :: k < StepsToWindow(start) + SIZE && free(Walk(start, k))) <==>
            (exists port :: Tried(start, port) && free(port))
    ensures forall port :: InWindow(port) ==> Tried(start, port)
  {
    if port :| Tried(start, port) && free(port) {
      var k: nat :| Walk(start, k) == port;
      var j := NothingNewLater(start, k);
      assert free(Walk(start, j));
    }
    if k: nat :| k < StepsToWindow(start) + SIZE && free(Walk(start, k)) {
      assert Tried(start, Walk(start, k));
    }
    forall port | InWindow(port)
      ensures Tried(start, port)
    {
      EveryWindowPortIsTried(start, port);
    }
  }

  /** The probe loop. It is called with the exact condition under which it ends, and returns the first free port on the walk. */
  method ProbePort(start: int, free: int -> bool) returns (port: int, ghost tries: nat)
    requires exists p :: Tried(start, p) && free(p)
    ensures port == Walk(start, tries) && free(port)
    ensures forall k: nat :: k < tries ==> !free(Walk(start, k))
    ensures tries < StepsToWindow(start) + SIZE
  {
    SearchEndsExactlyWhen(start, free);
    ghost var bound: nat :| bound < StepsToWindow(start) + SIZE && free(Walk(start, bound));
    port, tries := start, 0;
    while !free(port)
      invariant port == Walk(start, tries) && tries <= bound
      invariant forall k: nat :: k < tries ==> !free(Walk(start, k))
      decreases bound - tries
    {
      if port < 60000 {
        port := port + 42;
      } else {
        port := port - 43;
      }
      tries := tries + 1;
    }
  }
}
