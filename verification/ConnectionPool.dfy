/** The gateway's DuckDB pool as a step machine, and `for_each` as a run of it. */
module ConnectionPool {
  import opened Prelude

  // ---------------------------------------------------------------- the pool under interleaving

  /** Connections are numbered; `held` says who works with which. */
  datatype Pool = Pool(available: seq<nat>, held: map<nat, nat>)

  datatype Step = Acquire(who: nat) | Release(who: nat)

  predicate Enabled(p: Pool, step: Step) {
    match step
    case Acquire(w) => w !in p.held && p.available != []
    case Release(w) => w in p.held
  }

  /** Take from the left end, give back at the right end. */
  function Apply(p: Pool, step: Step): Pool
    requires Enabled(p, step)
  {
    match step
    case Acquire(w) => Pool(p.available[1..], p.held[w := p.available[0]])
    case Release(w) => Pool(p.available + [p.held[w]], p.held - {w})
  }

  predicate Possible(p: Pool, steps: seq<Step>)
    decreases |steps|
  {
    steps != [] ==> Enabled(p, steps[0]) && Possible(Apply(p, steps[0]), steps[1..])
  }

  function Run(p: Pool, steps: seq<Step>): Pool
    requires Possible(p, steps)
    decreases |steps|
  {
    if steps == [] then p else Run(Apply(p, steps[0]), steps[1..])
  }

  predicate Holds(p: Pool, who: nat, conn: nat) {
    who in p.held && p.held[who] == conn
  }

  /** Every connection 0..size-1 is in exactly one place: once in the queue, or with one holder. */
  ghost predicate Whole(p: Pool, size: nat) {
    && (forall i, j :: 0 <= i < j < |p.available| ==> p.available[i] != p.available[j])
    && (forall v, w, c :: Holds(p, v, c) && Holds(p, w, c) ==> v == w)
    && (forall w, c :: Holds(p, w, c) ==> c !in p.available)
    && (forall c: nat :: c < size <==> c in p.available || exists w :: Holds(p, w, c))
  }

  lemma StepKeepsWhole(p: Pool, size: nat, step: Step)
    requires Whole(p, size) && Enabled(p, step)
    ensures Whole(Apply(p, step), size)
  {
    var q := Apply(p, step);
    var w := step.who;
    match step {
      case Acquire(_) =>
        var c := p.available[0];
        assert p.available == [c] + q.available;
        assert forall v, d :: Holds(q, v, d) <==> (v == w && d == c) || Holds(p, v, d);
        assert forall d :: d in p.available <==> d == c || d in q.available;
        assert Holds(q, w, c);
      case Release(_) =>
        var c := p.held[w];
        assert Holds(p, w, c);
        assert forall v, d :: Holds(p, v, d) <==> (v == w && d == c) || Holds(q, v, d);
        assert forall d :: d in q.available <==> d == c || d in p.available;
    }
  }

  /** MAIN: whatever acquires and releases interleave, no connection is lost or held twice. */
  lemma {:induction false} PoolStaysWhole(p: Pool, size: nat, steps: seq<Step>)
    requires Whole(p, size) && Possible(p, steps)
    ensures Whole(Run(p, steps), size)
    decreases |steps|
  {
    if steps != [] {
      StepKeepsWhole(p, size, steps[0]);
      PoolStaysWhole(Apply(p, steps[0]), size, steps[1..]);
    }
  }

  /** While `who` keeps a connection, no run of the others, however many acquires it makes, ever
      sees that connection. */
  lemma {:induction false} HeldIsOutOfReach(p: Pool, size: nat, steps: seq<Step>, who: nat)
    requires Whole(p, size) && Possible(p, steps) && who in p.held
    requires forall s :: s in steps ==> s.who != who
    ensures Holds(Run(p, steps), who, p.held[who])
    ensures forall v :: Holds(Run(p, steps), v, p.held[who]) ==> v == who
    ensures p.held[who] !in Run(p, steps).available
    decreases |steps|
  {
    PoolStaysWhole(p, size, steps);
    if steps != [] {
      var q := Apply(p, steps[0]);
      assert steps[0] in steps;
      StepKeepsWhole(p, size, steps[0]);
      assert Holds(q, who, p.held[who]);
      HeldIsOutOfReach(q, size, steps[1..], who);
    } else {
      assert Holds(p, who, p.held[who]);
    }
  }

  // ---------------------------------------------------------------- for_each as a run

  /** The steps of `for_each` by one thread: `n` times acquire, release. */
  function ForEach(who: nat, n: nat): seq<Step> {
    if n == 0 then [] else [Acquire(who), Release(who)] + ForEach(who, n - 1)
  }

  /** The connections that `who` gets in a run, in order. */
  function Visits(p: Pool, steps: seq<Step>, who: nat): seq<nat>
    requires Possible(p, steps)
    decreases |steps|
  {
    if steps == [] then []
    else (if steps[0] == Acquire(who) then [p.available[0]] else []) + Visits(Apply(p, steps[0]), steps[1..], who)
  }

  function Rotated(s: seq<nat>): seq<nat>
    requires s != []
  {
    s[1..] + [s[0]]
  }

  lemma RotatedAt(s: seq<nat>, i: nat)
    requires s != []
    ensures Rotated(s)[i % |s|] == s[(i + 1) % |s|]
  {
    NextIndex(i, |s|);
  }

  lemma NextIndex(i: nat, m: nat)
    requires m > 0
    ensures i % m < m && (i + 1) % m == if i % m + 1 < m then i % m + 1 else 0
  {
    DivBounds(i, m);
    var q, x := i / m, i % m;
    assert i == q * m + x;
    if x + 1 < m {
      Remainder(i + 1, m, q, x + 1);
    } else {
      assert (q + 1) * m == q * m + m;
      Remainder(i + 1, m, q + 1, 0);
    }
  }

  lemma Remainder(a: nat, m: nat, q: nat, x: nat)
    requires x < m && a == q * m + x
    ensures a % m == x
  {
    DivUnique(a, m, q);
    assert a == a / m * m + a % m;
  }

  lemma FirstStep(p: Pool, step: Step, rest: seq<Step>, who: nat)
    requires Enabled(p, step) && Possible(Apply(p, step), rest)
    ensures Possible(p, [step] + rest)
    ensures Run(p, [step] + rest) == Run(Apply(p, step), rest)
    ensures Visits(p, [step] + rest, who) ==
            (if step == Acquire(who) then [p.available[0]] else []) + Visits(Apply(p, step), rest, who)
  {
    assert ([step] + rest)[0] == step && ([step] + rest)[1..] == rest;
  }

  lemma ForEachTurn(p: Pool, who: nat, rest: seq<Step>)
    requires who !in p.held && p.available != []
    requires Possible(Pool(Rotated(p.available), p.held), rest)
    ensures var steps := [Acquire(who), Release(who)] + rest;
            var q := Pool(Rotated(p.available), p.held);
            && Possible(p, steps)
            && Run(p, steps) == Run(q, rest)
            && Visits(p, steps, who) == [p.available[0]] + Visits(q, rest, who)
  {
    hide Run, Visits, Possible;
    var p1 := Apply(p, Acquire(who));
    var q := Pool(Rotated(p.available), p.held);
    assert p1.held - {who} == p.held;
    assert Apply(p1, Release(who)) == q;
    FirstStep(p1, Release(who), rest, who);
    FirstStep(p, Acquire(who), [Release(who)] + rest, who);
    assert [Acquire(who)] + ([Release(who)] + rest) == [Acquire(who), Release(who)] + rest;
    assert [] + Visits(q, rest, who) == Visits(q, rest, who);
  }

  /** Alone at work, `for_each` walks the queue round and round. */
  lemma {:induction false} ForEachWalks(p: Pool, who: nat, n: nat)
    requires who !in p.held && p.available != []
    ensures var steps := ForEach(who, n);
            && Possible(p, steps)
            && |Visits(p, steps, who)| == n
            && (forall i :: 0 <= i < n ==> Visits(p, steps, who)[i] == p.available[i % |p.available|])
            && (n == |p.available| ==> Run(p, steps) == p)
  {
    ForEachEnds(p, who, n);
    ForEachVisits(p, who, n);
    if n == |p.available| {
      assert p.available[n..] + p.available[..n] == p.available;
    }
  }

  lemma {:induction false} ForEachEnds(p: Pool, who: nat, n: nat)
    requires who !in p.held && p.available != []
    ensures Possible(p, ForEach(who, n))
    ensures n <= |p.available| ==> Run(p, ForEach(who, n)) == Pool(p.available[n..] + p.available[..n], p.held)
    decreases n
  {
    if n == 0 {
      assert p.available[0..] + p.available[..0] == p.available;
    } else {
      var q := Pool(Rotated(p.available), p.held);
      ForEachEnds(q, who, n - 1);
      ForEachTurn(p, who, ForEach(who, n - 1));
      if n <= |p.available| {
        assert q.available[n - 1..] + q.available[..n - 1] == p.available[n..] + p.available[..n];
      }
    }
  }

  lemma {:induction false} ForEachVisits(p: Pool, who: nat, n: nat)
    requires who !in p.held && p.available != [] && Possible(p, ForEach(who, n))
    ensures |Visits(p, ForEach(who, n), who)| == n
    ensures forall i :: 0 <= i < n ==> Visits(p, ForEach(who, n), who)[i] == p.available[i % |p.available|]
    decreases n
  {
    if n > 0 {
      var q := Pool(Rotated(p.available), p.held);
      ForEachEnds(q, who, n - 1);
      ForEachVisits(q, who, n - 1);
      ForEachTurn(p, who, ForEach(who, n - 1));
      forall i | 0 < i < n
        ensures q.available[(i - 1) % |p.available|] == p.available[i % |p.available|]
      {
        RotatedAt(p.available, i - 1);
      }
      DivUnique(0, |p.available|, 0);
      DivBounds(0, |p.available|);
      var tail := Visits(q, ForEach(who, n - 1), who);
      hide Visits, Possible, ForEach;
      assert Visits(p, ForEach(who, n), who) == [p.available[0]] + tail;
    }
  }

  /** The numbers below `n`. */
  function Below(n: nat): set<nat> {
    if n == 0 then {} else Below(n - 1) + {n - 1}
  }

  lemma {:induction false} BelowSize(n: nat)
    ensures |Below(n)| == n
    ensures forall c: nat :: c in Below(n) <==> c < n
  {
    if n > 0 {
      BelowSize(n - 1);
    }
  }

  function Elements(s: seq<nat>): set<nat> {
    set c | c in s
  }

  lemma {:induction false} ElementsSize(s: seq<nat>)
    ensures |Elements(s)| <= |s|
    ensures (forall i, j :: 0 <= i < j < |s| ==> s[i] != s[j]) ==> |Elements(s)| == |s|
  {
    if s != [] {
      var init, last := s[..|s| - 1], s[|s| - 1];
      ElementsSize(init);
      assert s == init + [last];
      assert Elements(s) == Elements(init) + {last};
    }
  }

  lemma SubsetSize(a: set<nat>, b: set<nat>)
    requires a <= b
    ensures |a| <= |b|
  {
    assert b == a + (b - a);
  }

  lemma IdleQueue(p: Pool, size: nat)
    requires Whole(p, size) && p.held == map[]
    ensures |p.available| == size
  {
    BelowSize(size);
    ElementsSize(p.available);
    forall c: nat
      ensures c in Elements(p.available) <==> c in Below(size)
    {
      assert !exists w :: Holds(p, w, c);
    }
    assert Elements(p.available) == Below(size);
  }

  lemma IdleVisits(p: Pool, size: nat, who: nat)
    requires Whole(p, size) && p.held == map[] && p.available != []
    ensures Possible(p, ForEach(who, size))
    ensures Visits(p, ForEach(who, size), who) == p.available && Run(p, ForEach(who, size)) == p
  {
    hide Visits, Run, Possible;
    ForEachWalks(p, who, size);
    IdleQueue(p, size);
    forall i | 0 <= i < size
      ensures Visits(p, ForEach(who, size), who)[i] == p.available[i]
    {
      DivUnique(i, size, 0);
      DivBounds(i, size);
    }
  }

  lemma VisitsAreQueued(p: Pool, who: nat, n: nat)
    requires who !in p.held && p.available != []
    ensures Possible(p, ForEach(who, n))
    ensures forall c :: c in Visits(p, ForEach(who, n), who) ==> c in p.available
  {
    hide Visits, Possible;
    ForEachWalks(p, who, n);
    forall i | 0 <= i < n
      ensures p.available[i % |p.available|] in p.available
    {
      DivBounds(i, |p.available|);
    }
  }

  /** MAIN: a `for_each` that nobody interrupts reaches every connection exactly when the pool is
      idle; then it visits each once, in queue order, and leaves the queue as it was. */
  lemma ForEachCoversExactly(p: Pool, size: nat, who: nat)
    requires Whole(p, size) && who !in p.held && p.available != []
    ensures var steps := ForEach(who, size);
            && Possible(p, steps)
            && ((forall c: nat :: c < size ==> c in Visits(p, steps, who)) <==> p.held == map[])
            && (p.held == map[] ==> Visits(p, steps, who) == p.available && Run(p, steps) == p)
  {
    hide Visits, Possible, Run;
    VisitsAreQueued(p, who, size);
    if p.held == map[] {
      IdleVisits(p, size, who);
      forall c: nat | c < size
        ensures c in p.available
      {
        assert !exists w :: Holds(p, w, c);
      }
    } else {
      var w :| w in p.held;
      assert Holds(p, w, p.held[w]);
      assert p.held[w] < size && p.held[w] !in Visits(p, ForEach(who, size), who);
    }
  }

  lemma {:induction false} VisitsAvoid(p: Pool, size: nat, steps: seq<Step>, who: nat, holder: nat)
    requires Whole(p, size) && Possible(p, steps) && holder in p.held && holder != who
    requires forall s :: s in steps ==> s.who != holder
    ensures forall c :: c in Visits(p, steps, who) ==> c < size && c != p.held[holder]
    decreases |steps|
  {
    if steps != [] {
      var q := Apply(p, steps[0]);
      assert steps[0] in steps;
      StepKeepsWhole(p, size, steps[0]);
      VisitsAvoid(q, size, steps[1..], who, holder);
      assert Holds(p, holder, p.held[holder]);
      forall c | c in Visits(p, steps, who)
        ensures c < size && c != p.held[holder]
      {
        if c !in Visits(q, steps[1..], who) {
          assert steps[0].Acquire? && c == p.available[0];
          assert c in p.available;
        }
      }
    }
  }

  /** MAIN: on a busy pool, whatever else interleaves with it, a `for_each` misses the connection
      that another thread keeps and visits some other connection twice. */
  lemma BusyForEachRepeats(p: Pool, size: nat, steps: seq<Step>, who: nat, holder: nat)
    requires Whole(p, size) && Possible(p, steps) && holder in p.held && holder != who
    requires forall s :: s in steps ==> s.who != holder
    requires |Visits(p, steps, who)| >= size
    ensures p.held[holder] < size && p.held[holder] !in Visits(p, steps, who)
    ensures exists i, j :: 0 <= i < j < |Visits(p, steps, who)| && Visits(p, steps, who)[i] == Visits(p, steps, who)[j]
  {
    var visits, kept := Visits(p, steps, who), p.held[holder];
    VisitsAvoid(p, size, steps, who, holder);
    assert Holds(p, holder, kept);
    BelowSize(size);
    ElementsSize(visits);
    SubsetSize(Elements(visits), Below(size) - {kept});
    assert |Below(size) - {kept}| == size - 1;
  }
}
