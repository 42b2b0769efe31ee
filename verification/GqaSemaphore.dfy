/**
  Deterministic accumulation of dK and dV over the query heads that share a key head.

  Every (key block, batch, key head) has one slot and one semaphore for dV and one for dK. The CTA of a
  query head waits until the semaphore shows its index in the group, adds its contribution element by
  element, and increments the semaphore; dV first, then dK. Addition is an arbitrary function: nothing
  makes it associative or commutative, so the order of the heads is visible in the result.
 */
module GqaSemaphore {
  import opened CxxArithmetic

  datatype Side = DV | DK

  /** One CTA: a key block, a query head, a batch. */
  datatype Cta = Cta(n: int, head: int, batch: int)

  /** One slot: a key block, a batch, a key head. */
  datatype Group = Group(n: int, batch: int, headKv: int)

  /** Where a CTA stands with one side; `rest` are the elements it has still to add. */
  datatype Turn = Before | Adding(rest: set<nat>) | Arriving | Passed

  datatype State<!V> = State(
    sem: (Side, int) -> int,
    turn: (Cta, Side) -> Turn,
    acc: (Side, Group, int) -> V)

  datatype Action =
    | Wait(c: Cta, side: Side)
    | Add(c: Cta, side: Side, e: nat)
    | Arrive(c: Cta, side: Side)

  function SetSem(f: (Side, int) -> int, side: Side, i: int, v: int): (Side, int) -> int {
    (s, x) => if s == side && x == i then v else f(s, x)
  }

  function SetTurn(f: (Cta, Side) -> Turn, c: Cta, side: Side, v: Turn): (Cta, Side) -> Turn {
    (x, s) => if x == c && s == side then v else f(x, s)
  }

  function SetAcc<V>(f: (Side, Group, int) -> V, side: Side, g: Group, e: int, v: V): (Side, Group, int) -> V {
    (s, x, y) => if s == side && x == g && y == e then v else f(s, x, y)
  }

  function Upto(n: nat): (r: set<nat>)
    ensures forall e: nat :: e in r <==> e < n
  {
    if n == 0 then {} else Upto(n - 1) + {n - 1}
  }

  datatype Launch<!V> = Launch(
    nBlocks: nat, numBatch: nat, numHeadKv: nat, groupSize: nat, elements: nat,
    add: (V, V) -> V, zero: V, contribution: (Side, Cta, int) -> V)
  {
    ghost predicate Valid() {
      groupSize > 0
    }

    // ----- Coordinates --------------------------------------------------------------------------------

    predicate GroupInGrid(g: Group) {
      0 <= g.n < nBlocks && 0 <= g.batch < numBatch && 0 <= g.headKv < numHeadKv
    }

    predicate InGrid(c: Cta) {
      0 <= c.n < nBlocks && 0 <= c.batch < numBatch && 0 <= c.head < numHeadKv * groupSize
    }

    function GroupOf(c: Cta): Group
      requires groupSize > 0
    {
      Group(c.n, c.batch, c.head / groupSize)
    }

    function IndexInGroup(c: Cta): int
      requires groupSize > 0
    {
      c.head % groupSize
    }

    function Member(g: Group, i: int): Cta {
      Cta(g.n, g.headKv * groupSize + i, g.batch)
    }

    /** The position of a slot's semaphore in the flat allocation. */
    function Semaphore(g: Group): int {
      g.n * numBatch * numHeadKv + (g.batch * numHeadKv + g.headKv)
    }

    lemma MemberCoordinates(g: Group, i: int)
      requires Valid() && GroupInGrid(g) && 0 <= i < groupSize
      ensures InGrid(Member(g, i)) && GroupOf(Member(g, i)) == g && IndexInGroup(Member(g, i)) == i
    {
      ProductOrder(0, g.headKv, groupSize);
      ProductOrder(g.headKv, numHeadKv, groupSize);
      QuotientUnique(g.headKv * groupSize + i, g.headKv, i, groupSize);
    }

    lemma CtaCoordinates(c: Cta)
      requires Valid() && InGrid(c)
      ensures GroupInGrid(GroupOf(c)) && 0 <= IndexInGroup(c) < groupSize
      ensures Member(GroupOf(c), IndexInGroup(c)) == c
      ensures GroupOf(c).headKv * groupSize <= c.head < (GroupOf(c).headKv + 1) * groupSize
      ensures c.head == GroupOf(c).headKv * groupSize + IndexInGroup(c)
    {
      DivBounds(c.head, groupSize);
      ProductOrder(c.head / groupSize, numHeadKv, groupSize);
      assert c.head == c.head / groupSize * groupSize + c.head % groupSize;
    }

    /** The heads of a group wait in ascending order. */
    lemma LargerHeadWaitsLonger(c: Cta, c': Cta)
      requires Valid() && InGrid(c) && InGrid(c') && GroupOf(c) == GroupOf(c')
      ensures c.head < c'.head <==> IndexInGroup(c) < IndexInGroup(c')
    {
      CtaCoordinates(c);
      CtaCoordinates(c');
      hide GroupOf, IndexInGroup;
    }

    /** Different slots have different semaphores, and all of them lie within the allocation. */
    lemma SemaphoresInjective(g: Group, g': Group)
      requires GroupInGrid(g) && GroupInGrid(g')
      ensures 0 <= Semaphore(g) < nBlocks * numBatch * numHeadKv
      ensures Semaphore(g) == Semaphore(g') <==> g == g'
    {
      FlatBounds(g.n, g.batch, g.headKv);
      FlatBounds(g'.n, g'.batch, g'.headKv);
    }

    /** Mixed radix: the coordinates are the digits of the flat index. */
    lemma FlatBounds(n: int, b: int, h: int)
      requires 0 <= n < nBlocks && 0 <= b < numBatch && 0 <= h < numHeadKv
      ensures 0 <= Semaphore(Group(n, b, h)) < nBlocks * numBatch * numHeadKv
      ensures Semaphore(Group(n, b, h)) % numHeadKv == h
      ensures Semaphore(Group(n, b, h)) / numHeadKv % numBatch == b
      ensures Semaphore(Group(n, b, h)) / numHeadKv / numBatch == n
    {
      var upper := n * numBatch + b;
      assert Semaphore(Group(n, b, h)) == upper * numHeadKv + h by { Distribute(n * numBatch, b, numHeadKv); }
      QuotientUnique(upper * numHeadKv + h, upper, h, numHeadKv);
      QuotientUnique(n * numBatch + b, n, b, numBatch);
      hide Semaphore;
      ProductOrder(0, n, numBatch);
      ProductOrder(n, nBlocks, numBatch);
      var blocks := nBlocks * numBatch;
      assert 0 <= upper < blocks;
      ProductOrder(0, upper, numHeadKv);
      ProductOrder(upper, blocks, numHeadKv);
    }

    lemma Distribute(x: int, y: int, z: int)
      ensures x * z + y * z == (x + y) * z
    {
    }

    // ----- The protocol -------------------------------------------------------------------------------

    ghost predicate Init(s: State<V>) {
      && (forall side, i :: s.sem(side, i) == 0)
      && (forall c, side :: s.turn(c, side) == Before)
      && (forall side, g, e :: s.acc(side, g, e) == zero)
    }

    ghost predicate Enabled(s: State<V>, a: Action)
      requires Valid()
    {
      && InGrid(a.c)
      && match a
         case Wait(c, side) =>
           && s.turn(c, side) == Before && (side == DK ==> s.turn(c, DV) == Passed)
           && s.sem(side, Semaphore(GroupOf(c))) == IndexInGroup(c)
         case Add(c, side, e) => s.turn(c, side).Adding? && e in s.turn(c, side).rest
         case Arrive(c, side) => s.turn(c, side) == Arriving
    }

    ghost function Remaining(rest: set<nat>): Turn {
      if rest == {} then Arriving else Adding(rest)
    }

    ghost function Apply(s: State<V>, a: Action): State<V>
      requires Valid() && Enabled(s, a)
    {
      match a
      case Wait(c, side) => s.(turn := SetTurn(s.turn, c, side, Remaining(Upto(elements))))
      case Add(c, side, e) =>
        var g := GroupOf(c);
        s.(acc := SetAcc(s.acc, side, g, e, add(s.acc(side, g, e), contribution(side, c, e))),
           turn := SetTurn(s.turn, c, side, Remaining(s.turn(c, side).rest - {e})))
      case Arrive(c, side) =>
        var i := Semaphore(GroupOf(c));
        s.(sem := SetSem(s.sem, side, i, s.sem(side, i) + 1), turn := SetTurn(s.turn, c, side, Passed))
    }

    // ----- Specification ------------------------------------------------------------------------------

    /** The contributions of the first `k` heads of a group, added in head order. */
    function Fold(side: Side, g: Group, k: nat, e: nat): V {
      if k == 0 then zero else add(Fold(side, g, k - 1, e), contribution(side, Member(g, k - 1), e))
    }

    ghost predicate HasAdded(t: Turn, e: nat) {
      t.Arriving? || t.Passed? || (t.Adding? && e !in t.rest)
    }

    /** Heads below the semaphore are done, heads above it have not begun. */
    ghost predicate InOrder(s: State<V>, g: Group, side: Side)
      requires Valid()
    {
      var k := s.sem(side, Semaphore(g));
      && 0 <= k <= groupSize
      && forall i | 0 <= i < groupSize ::
           && (i < k <==> s.turn(Member(g, i), side).Passed?)
           && (i > k ==> s.turn(Member(g, i), side).Before?)
    }

    ghost predicate TurnsInRange(s: State<V>, g: Group, side: Side)
      requires Valid()
    {
      forall i | 0 <= i < groupSize ::
        && (s.turn(Member(g, i), side).Adding? ==> s.turn(Member(g, i), side).rest != {}
                                                   && forall e | e in s.turn(Member(g, i), side).rest :: e < elements)
        && (side == DK && !s.turn(Member(g, i), DK).Before? ==> s.turn(Member(g, i), DV) == Passed)
    }

    /** The head whose turn it is has already added element `e`. */
    ghost predicate CurrentAdded(s: State<V>, g: Group, side: Side, e: nat)
      requires Valid()
    {
      var k := s.sem(side, Semaphore(g));
      0 <= k < groupSize && HasAdded(s.turn(Member(g, k), side), e)
    }

    /** An element of the slot is the fold of the heads that are done, and of the current one if it has added it. */
    ghost predicate SlotHolds(s: State<V>, g: Group, side: Side)
      requires Valid() && InOrder(s, g, side)
    {
      forall e: nat | e < elements ::
        s.acc(side, g, e) == Fold(side, g, s.sem(side, Semaphore(g)) + if CurrentAdded(s, g, side, e) then 1 else 0, e)
    }

    ghost predicate GroupInv(s: State<V>, g: Group, side: Side)
      requires Valid()
    {
      InOrder(s, g, side) && TurnsInRange(s, g, side) && SlotHolds(s, g, side)
    }

    ghost predicate Inv(s: State<V>)
      requires Valid()
    {
      forall g, side | GroupInGrid(g) :: GroupInv(s, g, side)
    }

    // ----- Every step keeps the invariant ---------------------------------------------------------------

    lemma InitInv(s: State<V>)
      requires Valid() && Init(s)
      ensures Inv(s)
    {
    }

    /** A step of one group's CTA leaves every other group and the other side alone. */
    lemma OthersUntouched(s: State<V>, a: Action, g: Group, side: Side)
      requires Valid() && Inv(s) && Enabled(s, a) && GroupInGrid(g)
      requires g != GroupOf(a.c) || side != a.side
      ensures var s' := Apply(s, a);
              && s'.sem(side, Semaphore(g)) == s.sem(side, Semaphore(g))
              && (forall i | 0 <= i < groupSize :: s'.turn(Member(g, i), side) == s.turn(Member(g, i), side))
              && (forall e: nat :: s'.acc(side, g, e) == s.acc(side, g, e))
    {
      hide Inv, Semaphore, Member, GroupOf, IndexInGroup;
      CtaCoordinates(a.c);
      SemaphoresInjective(g, GroupOf(a.c));
      var s' := Apply(s, a);
      forall i | 0 <= i < groupSize ensures s'.turn(Member(g, i), side) == s.turn(Member(g, i), side) {
        MemberCoordinates(g, i);
      }
    }

    lemma OthersKeep(s: State<V>, a: Action, g: Group, side: Side)
      requires Valid() && Inv(s) && Enabled(s, a) && GroupInGrid(g)
      requires g != GroupOf(a.c) || side != a.side
      ensures GroupInv(Apply(s, a), g, side)
    {
      OthersUntouched(s, a, g, side);
      var s' := Apply(s, a);
      assert GroupInv(s, g, side);
      forall i | 0 <= i < groupSize && side == DK && s.turn(Member(g, i), DV) == Passed
        ensures s'.turn(Member(g, i), DV) == Passed
      {
        PassedStays(s, a, Member(g, i), DV);
      }
      hide Inv, Semaphore, Member, GroupOf, IndexInGroup, Enabled, Apply;
    }

    lemma PassedStays(s: State<V>, a: Action, c: Cta, side: Side)
      requires Valid() && Enabled(s, a) && s.turn(c, side) == Passed
      ensures Apply(s, a).turn(c, side) == Passed
    {
    }

    /** A waiting CTA whose semaphore shows its index is the next one. */
    lemma WaitKeeps(s: State<V>, c: Cta, side: Side)
      requires Valid() && Inv(s) && Enabled(s, Wait(c, side))
      ensures GroupInv(Apply(s, Wait(c, side)), GroupOf(c), side)
    {
      CtaCoordinates(c);
      var g, k := GroupOf(c), IndexInGroup(c);
      var s' := Apply(s, Wait(c, side));
      assert GroupInv(s, g, side);
      MembersApart(g, k);
      hide Inv, Semaphore, Member, GroupOf, IndexInGroup, Fold;
      assert InOrder(s', g, side);
      assert TurnsInRange(s', g, side);
    }

    lemma MembersApart(g: Group, k: int)
      ensures forall i | i != k :: Member(g, i) != Member(g, k)
    {
    }

    /** A CTA that adds is the current one of its group. */
    lemma AddingIsCurrent(s: State<V>, c: Cta, side: Side)
      requires Valid() && Inv(s) && InGrid(c) && (s.turn(c, side).Adding? || s.turn(c, side).Arriving?)
      ensures s.sem(side, Semaphore(GroupOf(c))) == IndexInGroup(c)
    {
      CtaCoordinates(c);
      assert GroupInv(s, GroupOf(c), side);
      assert s.turn(Member(GroupOf(c), IndexInGroup(c)), side) == s.turn(c, side);
    }

    lemma AddKeeps(s: State<V>, c: Cta, side: Side, e: nat)
      requires Valid() && Inv(s) && Enabled(s, Add(c, side, e))
      ensures GroupInv(Apply(s, Add(c, side, e)), GroupOf(c), side)
    {
      CtaCoordinates(c);
      AddingIsCurrent(s, c, side);
      var g, k := GroupOf(c), IndexInGroup(c);
      var s' := Apply(s, Add(c, side, e));
      assert GroupInv(s, g, side);
      MembersApart(g, k);
      hide Inv, Semaphore, Member, GroupOf, IndexInGroup;
      assert InOrder(s', g, side);
      assert TurnsInRange(s', g, side);
      assert Fold(side, g, k + 1, e) == add(Fold(side, g, k, e), contribution(side, c, e));
      hide Fold;
      forall x: nat | x < elements
        ensures s'.acc(side, g, x) == Fold(side, g, k + if CurrentAdded(s', g, side, x) then 1 else 0, x)
      {
        assert CurrentAdded(s', g, side, x) <==> x == e || CurrentAdded(s, g, side, x);
      }
    }

    lemma ArriveKeeps(s: State<V>, c: Cta, side: Side)
      requires Valid() && Inv(s) && Enabled(s, Arrive(c, side))
      ensures GroupInv(Apply(s, Arrive(c, side)), GroupOf(c), side)
    {
      CtaCoordinates(c);
      AddingIsCurrent(s, c, side);
      var g, k := GroupOf(c), IndexInGroup(c);
      var s' := Apply(s, Arrive(c, side));
      assert GroupInv(s, g, side);
      MembersApart(g, k);
      hide Inv, Semaphore, Member, GroupOf, IndexInGroup, Fold;
      assert InOrder(s', g, side);
      assert TurnsInRange(s', g, side);
      forall x: nat | x < elements
        ensures s'.acc(side, g, x) == Fold(side, g, k + 1 + if CurrentAdded(s', g, side, x) then 1 else 0, x)
      {
        assert CurrentAdded(s, g, side, x) && !CurrentAdded(s', g, side, x);
      }
    }

    lemma StepKeeps(s: State<V>, a: Action)
      requires Valid() && Inv(s) && Enabled(s, a)
      ensures Inv(Apply(s, a))
    {
      forall g, side | GroupInGrid(g) ensures GroupInv(Apply(s, a), g, side) {
        if g != GroupOf(a.c) || side != a.side {
          OthersKeep(s, a, g, side);
        } else {
          match a
          case Wait(c, _) => WaitKeeps(s, c, side);
          case Add(c, _, e) => AddKeeps(s, c, side, e);
          case Arrive(c, _) => ArriveKeeps(s, c, side);
        }
      }
    }

    ghost predicate Runs(s: State<V>, actions: seq<Action>, end: State<V>)
      requires Valid()
      decreases |actions|
    {
      if actions == [] then end == s
      else Enabled(s, actions[0]) && Runs(Apply(s, actions[0]), actions[1..], end)
    }

    lemma {:induction false} RunKeeps(s: State<V>, actions: seq<Action>, end: State<V>)
      requires Valid() && Inv(s) && Runs(s, actions, end)
      ensures Inv(end)
      decreases |actions|
    {
      if actions != [] {
        StepKeeps(s, actions[0]);
        RunKeeps(Apply(s, actions[0]), actions[1..], end);
      }
    }

    // ----- Main results -----------------------------------------------------------------------------------

    /** Updates of a slot never overlap: of two CTAs of a group at most one is between its wait and its arrival. */
    lemma NoOverlap(s: State<V>, c: Cta, c': Cta, side: Side)
      requires Valid() && Inv(s) && InGrid(c) && InGrid(c') && GroupOf(c) == GroupOf(c')
      requires s.turn(c, side).Adding? || s.turn(c, side).Arriving?
      requires s.turn(c', side).Adding? || s.turn(c', side).Arriving?
      ensures c == c'
    {
      AddingIsCurrent(s, c, side);
      AddingIsCurrent(s, c', side);
      CtaCoordinates(c);
      CtaCoordinates(c');
    }

    ghost predicate GroupDone(s: State<V>, g: Group) {
      forall i, side | 0 <= i < groupSize :: s.turn(Member(g, i), side).Passed?
    }

    lemma FullSemaphores(s: State<V>, g: Group)
      requires Valid() && Inv(s) && GroupInGrid(g)
      ensures s.sem(DV, Semaphore(g)) == s.sem(DK, Semaphore(g)) == groupSize ==> GroupDone(s, g)
    {
      assert GroupInv(s, g, DV) && GroupInv(s, g, DK);
      if s.sem(DV, Semaphore(g)) == s.sem(DK, Semaphore(g)) == groupSize {
        forall i, side | 0 <= i < groupSize ensures s.turn(Member(g, i), side).Passed? {
          assert side == DV || side == DK;
        }
      }
    }

    /** A group that is not done has a CTA that can take a step, whatever the other groups do. */
    lemma Progress(s: State<V>, g: Group)
      requires Valid() && Inv(s) && GroupInGrid(g) && !GroupDone(s, g)
      ensures exists a :: Enabled(s, a) && GroupOf(a.c) == g
    {
      assert GroupInv(s, g, DV) && GroupInv(s, g, DK);
      var side := if s.sem(DV, Semaphore(g)) < groupSize then DV else DK;
      var k := s.sem(side, Semaphore(g));
      var c := Member(g, k);
      FullSemaphores(s, g);
      MemberCoordinates(g, k);
      hide Inv, Semaphore, Member, GroupOf, IndexInGroup, Fold;
      match s.turn(c, side) {
        case Before => assert Enabled(s, Wait(c, side));
        case Adding(rest) =>
          var e :| e in rest;
          assert Enabled(s, Add(c, side, e));
        case Arriving => assert Enabled(s, Arrive(c, side));
        case Passed =>
      }
    }

    /** When a group is done, each of its slots is the fold of all heads in head order. */
    lemma DoneIsFold(s: State<V>, g: Group, side: Side, e: nat)
      requires Valid() && Inv(s) && GroupInGrid(g) && GroupDone(s, g) && e < elements
      ensures s.acc(side, g, e) == Fold(side, g, groupSize, e)
    {
      assert GroupInv(s, g, side);
    }

    // ----- Every run ends --------------------------------------------------------------------------------

    /** The steps that a CTA has still to take for one side. */
    function TurnLeft(t: Turn): nat {
      match t
      case Before => elements + 2
      case Adding(rest) => |rest| + 1
      case Arriving => 1
      case Passed => 0
    }

    function CtaLeft(s: State<V>, c: Cta): nat {
      TurnLeft(s.turn(c, DV)) + TurnLeft(s.turn(c, DK))
    }

    ghost function Grid(): set<Cta> {
      set n, h, b | 0 <= n < nBlocks && 0 <= h < numHeadKv * groupSize && 0 <= b < numBatch :: Cta(n, h, b)
    }

    ghost function StepsLeft(s: State<V>, cs: set<Cta>): nat {
      if cs == {} then 0
      else
        var c :| c in cs;
        CtaLeft(s, c) + StepsLeft(s, cs - {c})
    }

    /** The sum does not depend on the order of the CTAs. */
    lemma {:induction false} StepsLeftOf(s: State<V>, cs: set<Cta>, c: Cta)
      requires c in cs
      ensures StepsLeft(s, cs) == CtaLeft(s, c) + StepsLeft(s, cs - {c})
      decreases |cs|
    {
      var x :| x in cs && StepsLeft(s, cs) == CtaLeft(s, x) + StepsLeft(s, cs - {x});
      if x != c {
        StepsLeftOf(s, cs - {x}, c);
        StepsLeftOf(s, cs - {c}, x);
        assert cs - {x} - {c} == cs - {c} - {x};
      }
    }

    lemma {:induction false} StepsLeftSame(s: State<V>, s': State<V>, cs: set<Cta>)
      requires forall c | c in cs :: CtaLeft(s', c) == CtaLeft(s, c)
      ensures StepsLeft(s', cs) == StepsLeft(s, cs)
      decreases |cs|
    {
      if c :| c in cs {
        StepsLeftOf(s, cs, c);
        StepsLeftOf(s', cs, c);
        StepsLeftSame(s, s', cs - {c});
      }
    }

    lemma {:induction false} StepsLeftConstant(s: State<V>, cs: set<Cta>, left: nat)
      requires forall c | c in cs :: CtaLeft(s, c) == left
      ensures StepsLeft(s, cs) == |cs| * left
      decreases |cs|
    {
      if c :| c in cs {
        StepsLeftOf(s, cs, c);
        StepsLeftConstant(s, cs - {c}, left);
        Distribute(1, |cs - {c}|, left);
      }
    }

    lemma {:induction false} UptoSize(n: nat)
      ensures |Upto(n)| == n
    {
      if n > 0 {
        UptoSize(n - 1);
      }
    }

    /** Every action is one step of its own CTA and none of the others. */
    lemma StepCounts(s: State<V>, a: Action)
      requires Valid() && Enabled(s, a)
      ensures StepsLeft(Apply(s, a), Grid()) == StepsLeft(s, Grid()) - 1
    {
      OwnStep(s, a);
      OtherCtas(s, a);
      assert a.c in Grid();
      hide Apply, Enabled, CtaLeft, Grid;
      var s' := Apply(s, a);
      StepsLeftOf(s, Grid(), a.c);
      StepsLeftOf(s', Grid(), a.c);
      StepsLeftSame(s, s', Grid() - {a.c});
    }

    lemma OwnStep(s: State<V>, a: Action)
      requires Valid() && Enabled(s, a)
      ensures CtaLeft(Apply(s, a), a.c) == CtaLeft(s, a.c) - 1
    {
      UptoSize(elements);
      hide Upto, Semaphore, GroupOf, IndexInGroup;
      if a.Add? {
        var rest := s.turn(a.c, a.side).rest;
        assert |rest - {a.e}| == |rest| - 1;
      }
    }

    lemma OtherCtas(s: State<V>, a: Action)
      requires Valid() && Enabled(s, a)
      ensures forall c | c != a.c :: CtaLeft(Apply(s, a), c) == CtaLeft(s, c)
    {
      hide Upto, Semaphore, GroupOf, IndexInGroup, TurnLeft;
    }

    /** Runs are finite: every action uses up one of the steps that were left. */
    lemma {:induction false} RunCounts(s: State<V>, actions: seq<Action>, end: State<V>)
      requires Valid() && Runs(s, actions, end)
      ensures |actions| + StepsLeft(end, Grid()) == StepsLeft(s, Grid())
      decreases |actions|
    {
      if actions != [] {
        StepCounts(s, actions[0]);
        RunCounts(Apply(s, actions[0]), actions[1..], end);
      }
    }

    /** A run that cannot go on has taken every CTA through its two waits, additions and arrivals, and no step more. */
    lemma RunsEnd(s: State<V>, actions: seq<Action>, end: State<V>)
      requires Valid() && Init(s) && Runs(s, actions, end)
      ensures |actions| <= |Grid()| * (2 * (elements + 2))
      ensures (forall a :: !Enabled(end, a)) <==> |actions| == |Grid()| * (2 * (elements + 2))
    {
      hide Enabled;
      RunCounts(s, actions, end);
      StepsLeftConstant(s, Grid(), 2 * (elements + 2));
      if |actions| == |Grid()| * (2 * (elements + 2)) {
        forall a ensures !Enabled(end, a) {
          if Enabled(end, a) {
            StepCounts(end, a);
          }
        }
      }
      if forall a :: !Enabled(end, a) {
        InitInv(s);
        RunKeeps(s, actions, end);
        forall c | c in Grid() ensures CtaLeft(end, c) == 0 {
          StuckIsPassed(end, c);
        }
        StepsLeftConstant(end, Grid(), 0);
      }
    }

    lemma StuckIsPassed(s: State<V>, c: Cta)
      requires Valid() && Inv(s) && InGrid(c) && forall a :: !Enabled(s, a)
      ensures CtaLeft(s, c) == 0
    {
      hide Inv;
      CtaCoordinates(c);
      if !GroupDone(s, GroupOf(c)) {
        Progress(s, GroupOf(c));
      }
      assert s.turn(Member(GroupOf(c), IndexInGroup(c)), DV).Passed?;
    }

    /** The contributions of query heads `first`, `first + 1`, ... of a key block and batch, one after another. */
    function HeadFold(side: Side, n: int, batch: int, first: int, k: nat, e: nat): V {
      if k == 0 then zero
      else add(HeadFold(side, n, batch, first, k - 1, e), contribution(side, Cta(n, first + (k - 1), batch), e))
    }

    /** The members of a group are the query heads from `headKv * groupSize` on. */
    lemma {:induction false} FoldIsHeadFold(side: Side, g: Group, k: nat, e: nat)
      ensures Fold(side, g, k, e) == HeadFold(side, g.n, g.batch, g.headKv * groupSize, k, e)
    {
      if k > 0 {
        FoldIsHeadFold(side, g, k - 1, e);
      }
    }

    /**
      Determinism: under any interleaving, a run that cannot go on leaves in every slot of dV and of dK the
      contributions of the query heads `headKv * groupSize + i`, added in ascending order of `i`.
     */
    lemma RunsAreDeterministic(s: State<V>, actions: seq<Action>, end: State<V>, g: Group, side: Side, e: nat)
      requires Valid() && Init(s) && Runs(s, actions, end) && (forall a :: !Enabled(end, a))
      requires GroupInGrid(g) && e < elements
      ensures end.acc(side, g, e) == Fold(side, g, groupSize, e)
      ensures end.acc(side, g, e) == HeadFold(side, g.n, g.batch, g.headKv * groupSize, groupSize, e)
    {
      InitInv(s);
      RunKeeps(s, actions, end);
      if !GroupDone(end, g) {
        Progress(end, g);
      }
      DoneIsFold(end, g, side, e);
      FoldIsHeadFold(side, g, groupSize, e);
    }

    /** With two heads in a group the slot holds the first head's contribution, then the second's. */
    lemma TwoHeads(s: State<V>, actions: seq<Action>, end: State<V>, g: Group, side: Side, e: nat)
      requires Valid() && Init(s) && Runs(s, actions, end) && (forall a :: !Enabled(end, a))
      requires GroupInGrid(g) && e < elements && groupSize == 2
      ensures var c, c' := Cta(g.n, 2 * g.headKv, g.batch), Cta(g.n, 2 * g.headKv + 1, g.batch);
              end.acc(side, g, e) == add(add(zero, contribution(side, c, e)), contribution(side, c', e))
    {
      RunsAreDeterministic(s, actions, end, g, side, e);
      var first := g.headKv * groupSize;
      assert HeadFold(side, g.n, g.batch, first, 0, e) == zero;
      assert HeadFold(side, g.n, g.batch, first, 1, e)
          == add(zero, contribution(side, Cta(g.n, first + 0, g.batch), e));
    }

    /** A CTA takes its turn for dK after it has finished with dV. */
    lemma ValuesBeforeKeys(s: State<V>, actions: seq<Action>, end: State<V>, c: Cta)
      requires Valid() && Init(s) && Runs(s, actions, end) && InGrid(c)
      ensures !end.turn(c, DK).Before? ==> end.turn(c, DV).Passed?
    {
      InitInv(s);
      RunKeeps(s, actions, end);
      CtaCoordinates(c);
      assert GroupInv(end, GroupOf(c), DK);
      hide Inv;
      assert end.turn(Member(GroupOf(c), IndexInGroup(c)), DK) == end.turn(c, DK);
    }
  }
}
