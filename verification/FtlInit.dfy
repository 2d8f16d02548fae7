/** The initial state satisfies every invariant. */
module FtlInit {
  import opened Finite
  import opened FtlModel
  import opened FtlInv
  import opened FtlCounts
  import opened FtlView
  import opened FtlSpace
  import P = Pqueue

  ghost function Identity(n: nat): seq<nat> {
    seq(n, (i: nat) => i)
  }

  lemma {:induction false} IdentityMultiset(n: nat)
    ensures multiset(Identity(n)) == multiset(Range(n))
  {
    if n == 0 {
      assert Identity(0) == [];
    } else {
      IdentityMultiset(n - 1);
      assert Identity(n) == Identity(n - 1) + [n - 1];
      assert Range(n) == Range(n - 1) + {n - 1};
    }
  }

  lemma InitLedger(c: Config)
    requires Basic(c)
    ensures LedgerOk(c, Init(c), Idle)
  {
    var s := Init(c);
    IdentityMultiset(c.lines);
    assert OpenLines(s.wp) + s.free == Identity(c.lines);
    assert multiset(OpenLines(s.wp) + s.free) == multiset(OpenLines(s.wp)) + multiset(s.free);
    assert P.Members(s.pq) == multiset{};
  }

  lemma InitLines(c: Config)
    requires Basic(c)
    ensures LinesOk(c, Init(c))
  {
    var s := Init(c);
    forall l: nat | l < c.lines
      ensures Counted(c, s.lines[l], s.pq.pri[l]) && WrittenTo(s.lines[l], 0)
    {
      EmptyCounted(c, s.lines[l]);
    }
    forall i | 0 <= i <= c.n
      ensures OpenOk(c, s, i)
    {
      assert Counted(c, s.lines[i], s.pq.pri[i]);
    }
  }

  /** fdp_init_ftl establishes the global invariant, an empty view and no ownership. */
  lemma InitInv(c: Config)
    requires ConfigOk(c)
    ensures Inv(c, Init(c))
    ensures View(c, Init(c)) == map[] && Isolated(c, Init(c), map[]) && Mapped(Init(c)) == {}
  {
    InitLedger(c);
    InitLines(c);
    var s := Init(c);
    assert forall a: Ppa :: InRange(c, a) ==> PageAt(c, s.lines, a).status == PgFree;
  }

  lemma InitRoom(c: Config, m: nat)
    ensures Sum(Room(c, seq(m, (i: nat) => Ppa(i, 0)))) == m * c.p
  {
    SumBounds(Room(c, seq(m, (i: nat) => Ppa(i, 0))), c.p, c.p);
  }

  lemma InitArithmetic(n: nat, p: nat, lines: nat)
    requires p >= 1 && lines >= 2 * n + 3
    ensures (lines - n - 1) * p + (n + 1) * p - p >= n * p + n + p + 1
  {
    assert (lines - n - 1) * p + (n + 1) * p == lines * p;
    Monotone(2 * n + 3, lines, p);
    assert (2 * n + 3) * p == 2 * (n * p) + 3 * p;
    Monotone(1, p, n);
  }

  /** With more lines than frontiers and GC reserve need, the start is roomy enough. */
  lemma InitSpace(c: Config)
    requires Basic(c) && c.threshold >= c.n + 1 && Committed(c) >= 1
    ensures SpaceOk(c, Init(c))
  {
    InitRoom(c, c.n + 1);
    InitArithmetic(c.n, c.p, c.lines);
  }
}
