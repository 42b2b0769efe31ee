/**
  A producer warp and the lanes of a consumer warp over a circular buffer of stages.

  Every stage has a full and an empty barrier whose phase is a single bit. The producer waits for a stage
  to be empty, announces the bytes it expects, and issues an asynchronous copy whose elements land in any
  order. The lanes of the consumer wait, read and write their own elements, meet at a warp barrier, and
  one lane signals that the stage is free; lanes may run ahead of each other between warp barriers.
 */
module RingPipeline {
  import opened CxxArithmetic
  import opened Sequences

  // ----- Barriers and positions -------------------------------------------------------------------------

  /** An mbarrier for one arrival per phase; `tx` counts announced elements that have not landed. */
  datatype Barrier = Barrier(parity: bool, pending: int, tx: int)
  {
    /** A phase completes when nothing is missing; the next one expects one arrival again. */
    function Settle(): Barrier {
      if pending == 0 && tx == 0 then Barrier(!parity, 1, 0) else this
    }

    function Arrive(): Barrier {
      this.(pending := pending - 1).Settle()
    }

    function ArriveAndExpect(elements: int): Barrier {
      this.(pending := pending - 1, tx := tx + elements).Settle()
    }

    function Landed(): Barrier {
      this.(tx := tx - 1).Settle()
    }

    /** A wait on a parity passes when the phase of that parity is over. */
    predicate Passes(phase: bool) {
      parity != phase
    }
  }

  /** `PipelineState`: a stage index and a phase bit that flips when the index wraps. */
  datatype Position = Position(index: nat, phase: bool)
  {
    function Advance(stages: nat): Position {
      if index + 1 == stages then Position(0, !phase) else Position(index + 1, phase)
    }
  }

  datatype Transfer = Transfer(blk: nat, elem: nat)

  datatype ProducerPc = Acquiring | Announcing | Issuing
  datatype LanePc = Waiting | Reading(i: nat) | AtSync | Releasing

  datatype Lane = Lane(blk: nat, pc: LanePc, pos: Position)
  {
    /** The lane has reached the warp barrier of block `b`. */
    predicate Arrived(b: int) {
      blk > b || (blk == b && (pc.AtSync? || pc.Releasing?))
    }

    function Reads(perLane: nat): nat {
      match pc
      case Waiting => 0
      case Reading(i) => i
      case _ => perLane
    }
  }

  type Memory<!V> = (int, int) -> V

  function Write<V>(m: Memory<V>, i: int, j: int, v: V): Memory<V> {
    (x, y) => if x == i && y == j then v else m(x, y)
  }

  datatype State<!V> = State(
    blk: nat, pc: ProducerPc, pos: Position,
    full: seq<Barrier>, empty: seq<Barrier>,
    inflight: seq<set<Transfer>>,
    smem: Memory<V>,
    lanes: seq<Lane>,
    dst: Memory<V>)

  datatype Action =
    | ProducerWait
    | Announce
    | IssueCopy
    | Land(stage: nat, t: Transfer)
    | LaneWait(lane: nat)
    | LaneRead(lane: nat)
    | LaneSync(lane: nat)
    | LaneRelease(lane: nat)

  // ----- Rounds -------------------------------------------------------------------------------------------

  /** The stage of block `n`: the index advances by one and wraps. */
  function Stage(n: nat, stages: nat): (st: nat)
    requires stages > 0
    ensures st < stages
  {
    if n == 0 || Stage(n - 1, stages) + 1 == stages then 0 else Stage(n - 1, stages) + 1
  }

  /** How often the index has wrapped before block `n`. */
  function Round(n: nat, stages: nat): nat
    requires stages > 0
  {
    if n == 0 then 0 else Round(n - 1, stages) + if Stage(n - 1, stages) + 1 == stages then 1 else 0
  }

  /** How many of the first `n` blocks use stage `st`. */
  function Uses(n: nat, st: nat, stages: nat): nat
    requires stages > 0
  {
    Round(n, stages) + if st < Stage(n, stages) then 1 else 0
  }

  predicate Odd(n: int) {
    n % 2 == 1
  }

  /** Rounds and stages count blocks. */
  lemma {:induction false} BlockNumber(n: nat, stages: nat)
    requires stages > 0
    ensures n == Round(n, stages) * stages + Stage(n, stages)
  {
    if n == 0 {
      assert 0 * stages == 0;
    } else {
      BlockNumber(n - 1, stages);
      var q := Round(n - 1, stages);
      assert (q + 1) * stages == q * stages + stages;
    }
  }

  lemma SmallMultiple(k: int, d: int, product: int)
    requires d > 0 && product == k * d && -d < product < 2 * d
    ensures k == 0 || k == 1
    ensures product < d ==> k == 0
  {
    ProductOrder(-1, k, d);
    ProductOrder(k, 2, d);
    ProductOrder(k, 1, d);
  }

  lemma UsesNext(n: nat, st: nat, stages: nat)
    requires st < stages
    ensures Uses(n + 1, st, stages) == Uses(n, st, stages) + if st == Stage(n, stages) then 1 else 0
  {
  }

  /** Two blocks within a lap are in the same round or in consecutive ones. */
  lemma LapRounds(a: nat, b: nat, stages: nat)
    requires stages > 0 && a <= b <= a + stages
    ensures (Round(b, stages) == Round(a, stages) && b - a == Stage(b, stages) - Stage(a, stages))
         || (Round(b, stages) == Round(a, stages) + 1 && b - a == stages + Stage(b, stages) - Stage(a, stages))
  {
    hide Round, Stage;
    BlockNumber(a, stages);
    BlockNumber(b, stages);
    var q, q' := Round(a, stages), Round(b, stages);
    var x, x' := q * stages, q' * stages;
    assert x' - x == (q' - q) * stages;
    SmallMultiple(q' - q, stages, x' - x);
    assert q' == q ==> x' == x;
    assert q' == q + 1 ==> x' == x + stages;
  }

  /** Within one lap, the blocks of a stage are told apart by their count, so one bit is enough. */
  lemma Lap(a: nat, b: nat, stages: nat)
    requires stages > 0 && a <= b <= a + stages
    ensures b < a + stages ==> Uses(a, Stage(b, stages), stages) == Round(b, stages)
    ensures b == a + stages ==> Uses(a, Stage(b, stages), stages) == Round(b, stages) - 1
    ensures a < b ==> Uses(b, Stage(a, stages), stages) == Round(a, stages) + 1
    ensures a == b ==> Uses(b, Stage(a, stages), stages) == Round(a, stages)
    ensures a < b < a + stages ==> Stage(a, stages) != Stage(b, stages)
  {
    hide Round, Stage;
    LapRounds(a, b, stages);
  }

  /** Blocks of one lap that share a stage are the same block. */
  lemma SameStage(base: nat, a: nat, b: nat, stages: nat)
    requires stages > 0 && base <= a < base + stages && base <= b < base + stages &&
             Stage(a, stages) == Stage(b, stages)
    ensures a == b
  {
    if a < b {
      Lap(a, b, stages);
    } else if b < a {
      Lap(b, a, stages);
    }
  }

  datatype Ring<!V> = Ring(nBlks: nat, nStg: nat, nLanes: nat, perLane: nat, tile: nat, leader: nat, src: Memory<V>)
  {
    ghost predicate Valid() {
      nStg > 0 && nLanes > 0 && perLane > 0 && leader < nLanes && tile == nLanes * perLane
    }

    /** The `i`-th element of lane `l`. */
    function Element(l: nat, i: nat): nat {
      if i == 0 then l else Element(l, i - 1) + nLanes
    }

    lemma {:induction false} ElementAt(l: nat, i: nat)
      ensures Element(l, i) == l + i * nLanes
      decreases i
    {
      if i > 0 {
        ElementAt(l, i - 1);
        assert (i - 1) * nLanes + nLanes == i * nLanes;
      } else {
        assert 0 * nLanes == 0;
      }
    }

    lemma ElementInTile(l: nat, i: nat)
      requires Valid() && l < nLanes && i < perLane
      ensures Element(l, i) < tile
    {
      ElementAt(l, i);
      ProductOrder(i, perLane, nLanes);
    }

    lemma TilePositive()
      requires Valid()
      ensures tile > 0
    {
      ProductOrder(0, nLanes, perLane);
    }

    // ----- The step system ----------------------------------------------------------------------------

    ghost predicate Init(s: State<V>) {
      && s.blk == 0 && s.pc == Acquiring && s.pos == Position(0, true)
      && s.full == seq(nStg, _ => Barrier(false, 1, 0))
      && s.empty == seq(nStg, _ => Barrier(false, 1, 0))
      && s.inflight == seq(nStg, _ => {})
      && s.lanes == seq(nLanes, _ => Lane(0, Waiting, Position(0, false)))
    }

    ghost predicate Enabled(s: State<V>, a: Action)
      requires Shape(s)
    {
      match a
      case ProducerWait => s.blk < nBlks && s.pc == Acquiring && s.empty[s.pos.index].Passes(s.pos.phase)
      case Announce => s.pc == Announcing
      case IssueCopy => s.pc == Issuing
      case Land(st, t) => st < nStg && t in s.inflight[st]
      case LaneWait(l) =>
        l < nLanes && s.lanes[l].blk < nBlks && s.lanes[l].pc == Waiting
        && s.full[s.lanes[l].pos.index].Passes(s.lanes[l].pos.phase)
      case LaneRead(l) => l < nLanes && s.lanes[l].pc.Reading?
      case LaneSync(l) =>
        l < nLanes && s.lanes[l].pc == AtSync && forall j | 0 <= j < nLanes :: s.lanes[j].Arrived(s.lanes[l].blk)
      case LaneRelease(l) => l < nLanes && s.lanes[l].pc == Releasing
    }

    /** The elements of one bulk copy. */
    ghost function Copies(blk: nat): set<Transfer> {
      set e: nat | e < tile :: Transfer(blk, e)
    }

    ghost function Apply(s: State<V>, a: Action): State<V>
      requires Shape(s) && Enabled(s, a)
    {
      match a
      case ProducerWait => s.(pc := Announcing)
      case Announce => s.(pc := Issuing, full := s.full[s.pos.index := s.full[s.pos.index].ArriveAndExpect(tile)])
      case IssueCopy =>
        s.(blk := s.blk + 1, pc := Acquiring, pos := s.pos.Advance(nStg),
           inflight := s.inflight[s.pos.index := s.inflight[s.pos.index] + Copies(s.blk)])
      case Land(st, t) =>
        s.(smem := Write(s.smem, st, t.elem, src(t.blk, t.elem)),
           inflight := s.inflight[st := s.inflight[st] - {t}],
           full := s.full[st := s.full[st].Landed()])
      case LaneWait(l) => s.(lanes := s.lanes[l := s.lanes[l].(pc := Reading(0))])
      case LaneRead(l) =>
        var lane := s.lanes[l];
        var elem := Element(l, lane.pc.i);
        s.(dst := Write(s.dst, lane.blk, elem, s.smem(lane.pos.index, elem)),
           lanes := s.lanes[l := lane.(pc := if lane.pc.i + 1 < perLane then Reading(lane.pc.i + 1) else AtSync)])
      case LaneSync(l) => s.(lanes := s.lanes[l := s.lanes[l].(pc := Releasing)])
      case LaneRelease(l) =>
        var lane := s.lanes[l];
        var next := s.(lanes := s.lanes[l := Lane(lane.blk + 1, Waiting, lane.pos.Advance(nStg))]);
        if l == leader then next.(empty := s.empty[lane.pos.index := s.empty[lane.pos.index].Arrive()]) else next
    }

    // ----- Invariants -----------------------------------------------------------------------------------

    ghost predicate Shape(s: State<V>) {
      && nStg > 0 && leader < nLanes
      && |s.full| == |s.empty| == |s.inflight| == nStg && |s.lanes| == nLanes
      && s.pos.index < nStg && forall l | 0 <= l < nLanes :: s.lanes[l].pos.index < nStg
    }

    /** Blocks that a stage has been freed of: the leader's position. */
    ghost function Released(s: State<V>): nat
      requires Shape(s)
    {
      s.lanes[leader].blk
    }

    /** Blocks announced to the full barriers. */
    ghost function Announced(s: State<V>): nat {
      if s.pc == Issuing then s.blk + 1 else s.blk
    }

    /** Index and phase follow from the block number. */
    ghost predicate Positions(s: State<V>)
      requires Shape(s)
    {
      && s.blk <= nBlks && (s.blk == nBlks ==> s.pc == Acquiring)
      && s.pos == Position(Stage(s.blk, nStg), !Odd(Round(s.blk, nStg)))
      && forall l | 0 <= l < nLanes :: LanePosition(s.lanes[l])
    }

    ghost predicate LanePosition(lane: Lane)
      requires nStg > 0
    {
      && lane.blk <= nBlks && (lane.blk == nBlks ==> lane.pc == Waiting)
      && lane.pos == Position(Stage(lane.blk, nStg), Odd(Round(lane.blk, nStg)))
      && (lane.pc.Reading? ==> lane.pc.i < perLane)
    }

    /** The producer is at most one lap ahead of the release. */
    ghost predicate NoLap(s: State<V>)
      requires Shape(s)
    {
      Released(s) <= s.blk <= Released(s) + nStg && (s.pc != Acquiring ==> s.blk < Released(s) + nStg)
    }

    /** A lane past its wait works on a block that has been issued, and a reading lane on one that has landed. */
    ghost predicate LanesFollow(s: State<V>)
      requires Shape(s)
    {
      forall l | 0 <= l < nLanes ::
        && s.lanes[l].blk <= s.blk
        && (s.lanes[l].pc != Waiting ==> s.lanes[l].blk < s.blk)
        && (s.lanes[l].pc.Reading? ==> s.inflight[Stage(s.lanes[l].blk, nStg)] == {})
    }

    /** Whoever has passed a warp barrier met everyone there. */
    ghost predicate Synced(s: State<V>)
      requires Shape(s)
    {
      forall j, l | 0 <= j < nLanes && 0 <= l < nLanes ::
        && s.lanes[l].Arrived(s.lanes[j].blk - 1)
        && (s.lanes[j].pc == Releasing ==> s.lanes[l].Arrived(s.lanes[j].blk))
    }

    /** Elements still to land belong to blocks that no lane has started to read. */
    ghost predicate TransfersAhead(s: State<V>)
      requires Shape(s)
    {
      forall st, t | 0 <= st < nStg && t in s.inflight[st] ::
        && Stage(t.blk, nStg) == st && t.blk < s.blk && t.elem < tile
        && forall l | 0 <= l < nLanes ::
             s.lanes[l].blk <= t.blk && (s.lanes[l].blk == t.blk ==> s.lanes[l].pc == Waiting)
    }

    ghost predicate FullBarrier(s: State<V>, st: nat)
      requires Shape(s) && st < nStg
    {
      var bar := s.full[st];
      && bar.tx == |s.inflight[st]| + (if s.pc == Issuing && st == Stage(s.blk, nStg) then tile else 0)
      && bar.pending == (if bar.tx > 0 then 0 else 1)
      && bar.parity == Odd(Uses(Announced(s), st, nStg) - if bar.tx > 0 then 1 else 0)
    }

    ghost predicate EmptyBarrier(s: State<V>, st: nat)
      requires Shape(s) && st < nStg
    {
      s.empty[st] == Barrier(Odd(Uses(Released(s), st, nStg)), 1, 0)
    }

    ghost predicate Barriers(s: State<V>)
      requires Shape(s)
    {
      forall st | 0 <= st < nStg :: FullBarrier(s, st) && EmptyBarrier(s, st)
    }

    /** A stage holds what has landed of the unreleased block that uses it. */
    ghost predicate StagesHold(s: State<V>)
      requires Shape(s)
    {
      forall b: nat, e: nat | Released(s) <= b < s.blk && e < tile && Transfer(b, e) !in s.inflight[Stage(b, nStg)] ::
        s.smem(Stage(b, nStg), e) == src(b, e)
    }

    ghost predicate Copied(s: State<V>)
      requires Shape(s)
    {
      forall l, b: nat, i: nat | 0 <= l < nLanes && LaneHasRead(s.lanes[l], b, i) ::
        s.dst(b, Element(l, i)) == src(b, Element(l, i))
    }

    ghost predicate LaneHasRead(lane: Lane, b: nat, i: nat) {
      i < perLane && (b < lane.blk || (b == lane.blk && i < lane.Reads(perLane)))
    }

    ghost predicate Inv(s: State<V>) {
      && Shape(s)
      && Positions(s) && NoLap(s) && LanesFollow(s) && Synced(s)
      && TransfersAhead(s) && Barriers(s) && StagesHold(s) && Copied(s)
    }

    // ----- What the one-bit phases mean ---------------------------------------------------------------

    /** The producer's wait passes exactly when the previous block of its stage has been released. */
    lemma ProducerPhase(s: State<V>)
      requires Valid() && Inv(s)
      ensures s.empty[s.pos.index].Passes(s.pos.phase) <==> s.blk < Released(s) + nStg
    {
      assert EmptyBarrier(s, s.pos.index);
      assert Released(s) <= s.blk <= Released(s) + nStg &&
        s.pos == Position(Stage(s.blk, nStg), !Odd(Round(s.blk, nStg)));
      hide Inv;
      Lap(Released(s), s.blk, nStg);
      hide Uses;
    }

    /** A waiting lane is at an unreleased block, and so within one lap of what has been announced. */
    lemma WaitingLane(s: State<V>, l: nat)
      requires Valid() && Inv(s) && l < nLanes && s.lanes[l].pc == Waiting
      ensures Released(s) <= s.lanes[l].blk <= s.blk <= Announced(s) <= Released(s) + nStg
      ensures LanePosition(s.lanes[l]) && FullBarrier(s, Stage(s.lanes[l].blk, nStg))
    {
      hide Copied, StagesHold, TransfersAhead, FullBarrier, EmptyBarrier;
      assert s.lanes[l].Arrived(Released(s) - 1);
    }

    /** Elements still to land in the stage a lane waits for are those of its block. */
    lemma LandingBlock(s: State<V>, l: nat, t: Transfer)
      requires Inv(s) && l < nLanes && s.blk <= s.lanes[l].blk + nStg && t in s.inflight[Stage(s.lanes[l].blk, nStg)]
      ensures t.blk == s.lanes[l].blk < s.blk
    {
      hide Copied, StagesHold, Barriers, LanesFollow, Synced, Positions, NoLap;
      SameStage(s.lanes[l].blk, s.lanes[l].blk, t.blk, nStg);
    }

    lemma WaitingStage(s: State<V>, l: nat)
      requires Valid() && Inv(s) && l < nLanes && s.lanes[l].pc == Waiting
      ensures var b := s.lanes[l].blk;
              && (b == s.blk ==> s.inflight[Stage(b, nStg)] == {})
              && (s.pc == Issuing && b < s.blk ==> Stage(b, nStg) != Stage(s.blk, nStg))
    {
      WaitingLane(s, l);
      var b := s.lanes[l].blk;
      if b == s.blk && s.inflight[Stage(b, nStg)] != {} {
        var t :| t in s.inflight[Stage(b, nStg)];
        LandingBlock(s, l, t);
      }
      hide Copied, StagesHold, Barriers, LanesFollow, Synced, Positions, TransfersAhead, LanePosition;
      Lap(b, s.blk, nStg);
    }

    /** A lane waiting for block `b` passes exactly when all of that block, and no earlier one, is in its stage. */
    lemma ConsumerPhase(s: State<V>, l: nat)
      requires Valid() && Inv(s) && l < nLanes && s.lanes[l].pc == Waiting
      ensures s.full[s.lanes[l].pos.index].Passes(s.lanes[l].pos.phase)
         <==> s.lanes[l].blk < s.blk && s.inflight[Stage(s.lanes[l].blk, nStg)] == {}
    {
      WaitingLane(s, l);
      WaitingStage(s, l);
      assert Shape(s);
      hide Inv, Uses;
      var b, st := s.lanes[l].blk, Stage(s.lanes[l].blk, nStg);
      Lap(b, Announced(s), nStg);
      TilePositive();
      PhaseOfStage(s.full[st], s.inflight[st], Round(b, nStg), Uses(Announced(s), st, nStg),
                   if s.pc == Issuing && st == Stage(s.blk, nStg) then tile else 0);
    }

    lemma PhaseOfStage(bar: Barrier, landing: set<Transfer>, round: int, uses: int, issuing: int)
      requires bar.tx == |landing| + issuing && issuing >= 0
      requires bar.parity == Odd(uses - if bar.tx > 0 then 1 else 0)
      requires uses == round || uses == round + 1
      ensures uses == round + 1 && issuing == 0 ==> (bar.Passes(Odd(round)) <==> landing == {})
      ensures uses == round + 1 && issuing > 0 ==> !bar.Passes(Odd(round))
      ensures uses == round && landing == {} && issuing == 0 ==> !bar.Passes(Odd(round))
    {
    }

    // ----- Every step keeps the invariant ---------------------------------------------------------------

    lemma InitInv(s: State<V>)
      requires Valid() && Init(s)
      ensures Inv(s)
    {
    }

    lemma ProducerWaitKeeps(s: State<V>)
      requires Valid() && Inv(s) && Enabled(s, ProducerWait)
      ensures Inv(Apply(s, ProducerWait))
    {
      ProducerPhase(s);
      var s' := Apply(s, ProducerWait);
      forall st | 0 <= st < nStg ensures FullBarrier(s', st) && EmptyBarrier(s', st) {
        assert FullBarrier(s, st) && EmptyBarrier(s, st);
      }
      hide FullBarrier, EmptyBarrier;
    }

    /** Nothing is landing in a stage the producer has acquired. */
    lemma AcquiredStageFree(s: State<V>)
      requires Inv(s) && s.blk < Released(s) + nStg
      ensures s.inflight[Stage(s.blk, nStg)] == {}
    {
      hide Copied, StagesHold, Barriers, LanesFollow, Synced, Positions;
      if t :| t in s.inflight[Stage(s.blk, nStg)] {
        SameStage(Released(s), t.blk, s.blk, nStg);
      }
    }

    lemma AnnounceKeeps(s: State<V>)
      requires Valid() && Inv(s) && Enabled(s, Announce)
      ensures Inv(Apply(s, Announce))
    {
      var s' := Apply(s, Announce);
      AcquiredStageFree(s);
      forall st | 0 <= st < nStg ensures FullBarrier(s', st) && EmptyBarrier(s', st) {
        assert FullBarrier(s, st) && EmptyBarrier(s, st);
        UsesNext(s.blk, st, nStg);
        TilePositive();
        hide Uses;
      }
      hide FullBarrier, EmptyBarrier;
    }

    /** A lane moves within its block; nothing else changes but what it writes. */
    ghost predicate LaneMoves(s: State<V>, s': State<V>, l: nat)
      requires Shape(s) && l < nLanes
    {
      && |s'.lanes| == nLanes && s'.lanes == s.lanes[l := s'.lanes[l]]
      && s' == s.(lanes := s'.lanes, dst := s'.dst)
      && s'.lanes[l].blk == s.lanes[l].blk && s'.lanes[l].pos == s.lanes[l].pos
      && s'.lanes[l].pc != Waiting && s.lanes[l].blk < nBlks
      && (s'.lanes[l].pc.Reading? ==> s'.lanes[l].pc.i < perLane)
      && (s.lanes[l].Arrived(s.lanes[l].blk) ==> s'.lanes[l].Arrived(s.lanes[l].blk))
    }

    lemma LaneMoveKeepsShared(s: State<V>, s': State<V>, l: nat)
      requires Valid() && Inv(s) && l < nLanes && LaneMoves(s, s', l)
      ensures Shape(s') && Released(s') == Released(s) && Positions(s') && NoLap(s') && StagesHold(s')
    {
      hide Copied, LanesFollow, Synced, TransfersAhead, Barriers;
    }

    lemma LaneMoveKeepsBarriers(s: State<V>, s': State<V>, l: nat)
      requires Valid() && Inv(s) && l < nLanes && LaneMoves(s, s', l)
      ensures Shape(s') && Barriers(s')
    {
      LaneMoveKeepsShared(s, s', l);
      assert Barriers(s);
      hide Inv, Positions, NoLap, StagesHold, Uses;
      forall st | 0 <= st < nStg ensures FullBarrier(s', st) && EmptyBarrier(s', st) {
        assert FullBarrier(s, st) && EmptyBarrier(s, st);
      }
    }

    lemma LaneMoveKeepsOrder(s: State<V>, s': State<V>, l: nat)
      requires Valid() && Inv(s) && l < nLanes && LaneMoves(s, s', l)
      requires s.lanes[l].blk < s.blk
      requires s'.lanes[l].pc.Reading? || s.lanes[l].pc == Waiting ==> s.inflight[Stage(s.lanes[l].blk, nStg)] == {}
      ensures Shape(s') && LanesFollow(s') && TransfersAhead(s')
    {
      hide Copied, Synced, Barriers, StagesHold, NoLap, Positions;
    }

    lemma LaneMoveKeepsSync(s: State<V>, s': State<V>, l: nat)
      requires Valid() && Inv(s) && l < nLanes && LaneMoves(s, s', l)
      requires s'.lanes[l].pc == Releasing ==> forall j | 0 <= j < nLanes :: s.lanes[j].Arrived(s.lanes[l].blk)
      ensures Shape(s') && Synced(s')
    {
      hide Copied, Barriers, StagesHold, NoLap, Positions, LanesFollow, TransfersAhead;
      forall j, k | 0 <= j < nLanes && 0 <= k < nLanes
        ensures s'.lanes[k].Arrived(s'.lanes[j].blk - 1)
        ensures s'.lanes[j].pc == Releasing ==> s'.lanes[k].Arrived(s'.lanes[j].blk)
      {
        assert s.lanes[k].Arrived(s.lanes[j].blk - 1);
      }
    }

    /** Writing one correct element, or none, keeps what has been copied. */
    lemma LaneMoveKeepsCopied(s: State<V>, s': State<V>, l: nat, elem: nat)
      requires Valid() && Inv(s) && l < nLanes && LaneMoves(s, s', l)
      requires s'.dst == s.dst || s'.dst == Write(s.dst, s.lanes[l].blk, elem, src(s.lanes[l].blk, elem))
      requires forall i: nat | i < perLane && s.lanes[l].Reads(perLane) <= i < s'.lanes[l].Reads(perLane) ::
                 s'.dst(s.lanes[l].blk, Element(l, i)) == src(s.lanes[l].blk, Element(l, i))
      ensures Shape(s') && Copied(s')
    {
      hide NoLap, StagesHold, Synced, Barriers, TransfersAhead, LanesFollow, Element;
      forall k, b: nat, i: nat | 0 <= k < nLanes && LaneHasRead(s'.lanes[k], b, i)
        ensures s'.dst(b, Element(k, i)) == src(b, Element(k, i))
      {
        if LaneHasRead(s.lanes[k], b, i) {
          assert s.dst(b, Element(k, i)) == src(b, Element(k, i));
        }
      }
    }

    lemma LaneSyncKeeps(s: State<V>, l: nat)
      requires Valid() && Inv(s) && Enabled(s, LaneSync(l))
      ensures Inv(Apply(s, LaneSync(l)))
    {
      hide NoLap, StagesHold, Synced, Barriers, TransfersAhead, Copied;
      var s' := Apply(s, LaneSync(l));
      LaneMoveKeepsShared(s, s', l);
      LaneMoveKeepsBarriers(s, s', l);
      LaneMoveKeepsOrder(s, s', l);
      LaneMoveKeepsSync(s, s', l);
      LaneMoveKeepsCopied(s, s', l, 0);
    }

    lemma LaneWaitKeeps(s: State<V>, l: nat)
      requires Valid() && Inv(s) && Enabled(s, LaneWait(l))
      ensures Inv(Apply(s, LaneWait(l)))
    {
      hide NoLap, StagesHold, Synced, Barriers, TransfersAhead, Copied;
      ConsumerPhase(s, l);
      var s' := Apply(s, LaneWait(l));
      LaneMoveKeepsShared(s, s', l);
      LaneMoveKeepsBarriers(s, s', l);
      LaneMoveKeepsOrder(s, s', l);
      LaneMoveKeepsSync(s, s', l);
      LaneMoveKeepsCopied(s, s', l, 0);
    }

    /** A reading lane finds its block's element in the stage. */
    lemma ReadsItsBlock(s: State<V>, l: nat)
      requires Valid() && Inv(s) && l < nLanes && s.lanes[l].pc.Reading?
      ensures var lane := s.lanes[l];
              var elem := Element(l, lane.pc.i);
              elem < tile && s.smem(lane.pos.index, elem) == src(lane.blk, elem)
    {
      hide Copied, TransfersAhead, Barriers, NoLap;
      var lane := s.lanes[l];
      var elem := Element(l, lane.pc.i);
      assert lane.Arrived(Released(s) - 1);
      ElementInTile(l, lane.pc.i);
      assert Transfer(lane.blk, elem) !in s.inflight[Stage(lane.blk, nStg)];
    }

    lemma LaneReadKeeps(s: State<V>, l: nat)
      requires Valid() && Inv(s) && Enabled(s, LaneRead(l))
      ensures Inv(Apply(s, LaneRead(l)))
    {
      hide NoLap, StagesHold, Synced, Barriers, TransfersAhead, Copied, Element;
      ReadsItsBlock(s, l);
      var s' := Apply(s, LaneRead(l));
      LaneMoveKeepsShared(s, s', l);
      LaneMoveKeepsBarriers(s, s', l);
      LaneMoveKeepsOrder(s, s', l);
      LaneMoveKeepsSync(s, s', l);
      LaneMoveKeepsCopied(s, s', l, Element(l, s.lanes[l].pc.i));
    }

    /** Advancing a lane's position is moving to the next block. */
    lemma LaneAdvances(lane: Lane)
      requires nStg > 0 && LanePosition(lane) && lane.pc == Releasing
      ensures LanePosition(Lane(lane.blk + 1, Waiting, lane.pos.Advance(nStg)))
    {
    }

    lemma LaneReleaseKeepsPositions(s: State<V>, l: nat)
      requires Valid() && Inv(s) && Enabled(s, LaneRelease(l))
      ensures var s' := Apply(s, LaneRelease(l));
              Shape(s') && Positions(s')
    {
      assert Positions(s);
      LaneAdvances(s.lanes[l]);
      var s' := Apply(s, LaneRelease(l));
      assert s'.lanes[l].pos.index < nStg by { assert LanePosition(s'.lanes[l]); }
      hide Inv, LanePosition;
    }

    lemma LaneReleaseKeepsOrder(s: State<V>, l: nat)
      requires Valid() && Inv(s) && Enabled(s, LaneRelease(l))
      ensures var s' := Apply(s, LaneRelease(l));
              Shape(s') && Positions(s') && NoLap(s') && LanesFollow(s')
    {
      LaneReleaseKeepsPositions(s, l);
      assert NoLap(s) && LanesFollow(s);
      hide Inv, Positions;
    }

    lemma LaneReleaseKeepsSync(s: State<V>, l: nat)
      requires Valid() && Inv(s) && Enabled(s, LaneRelease(l))
      ensures var s' := Apply(s, LaneRelease(l));
              Shape(s') && Synced(s') && TransfersAhead(s') && Copied(s')
    {
      hide Stage, Round;
      hide StagesHold, Barriers, LanesFollow, NoLap, Element;
      LaneReleaseKeepsOrder(s, l);
      var s' := Apply(s, LaneRelease(l));
      forall j, k | 0 <= j < nLanes && 0 <= k < nLanes
        ensures s'.lanes[k].Arrived(s'.lanes[j].blk - 1)
        ensures s'.lanes[j].pc == Releasing ==> s'.lanes[k].Arrived(s'.lanes[j].blk)
      {
        assert s.lanes[k].Arrived(s.lanes[j].blk - 1);
      }
      forall k, b: nat, i: nat | 0 <= k < nLanes && LaneHasRead(s'.lanes[k], b, i)
        ensures s'.dst(b, Element(k, i)) == src(b, Element(k, i))
      {
        assert LaneHasRead(s.lanes[k], b, i);
      }
    }

    lemma LaneReleaseKeepsStages(s: State<V>, l: nat)
      requires Valid() && Inv(s) && Enabled(s, LaneRelease(l))
      ensures var s' := Apply(s, LaneRelease(l));
              Shape(s') && StagesHold(s')
    {
      hide Copied, Synced, Barriers, TransfersAhead, LanesFollow, NoLap;
      LaneReleaseKeepsOrder(s, l);
    }

    lemma EmptyTurns(uses: int)
      ensures Barrier(Odd(uses), 1, 0).Arrive() == Barrier(Odd(uses + 1), 1, 0)
    {
    }

    /** The leader's arrival turns the empty barrier of its stage over. */
    lemma LaneReleaseKeepsEmpty(s: State<V>, l: nat, st: nat)
      requires Valid() && Inv(s) && Enabled(s, LaneRelease(l)) && st < nStg
      ensures var s' := Apply(s, LaneRelease(l));
              Shape(s') && EmptyBarrier(s', st)
    {
      LaneReleaseKeepsPositions(s, l);
      assert EmptyBarrier(s, st);
      assert s.lanes[l].pos.index == Stage(s.lanes[l].blk, nStg) by { assert LanePosition(s.lanes[l]); }
      UsesNext(Released(s), st, nStg);
      EmptyTurns(Uses(Released(s), st, nStg));
      hide Inv, Positions, Uses, Odd;
    }

    lemma LaneReleaseKeepsFull(s: State<V>, l: nat, st: nat)
      requires Valid() && Inv(s) && Enabled(s, LaneRelease(l)) && st < nStg
      ensures var s' := Apply(s, LaneRelease(l));
              Shape(s') && FullBarrier(s', st)
    {
      hide Stage, Round;
      LaneReleaseKeepsPositions(s, l);
      assert FullBarrier(s, st);
      hide Inv, Positions, Uses, Odd;
    }

    lemma LaneReleaseKeepsBarriers(s: State<V>, l: nat)
      requires Valid() && Inv(s) && Enabled(s, LaneRelease(l))
      ensures var s' := Apply(s, LaneRelease(l));
              Shape(s') && Barriers(s')
    {
      LaneReleaseKeepsOrder(s, l);
      hide Inv, Positions, NoLap, LanesFollow, FullBarrier, EmptyBarrier;
      var s' := Apply(s, LaneRelease(l));
      forall st | 0 <= st < nStg ensures FullBarrier(s', st) && EmptyBarrier(s', st) {
        LaneReleaseKeepsEmpty(s, l, st);
        LaneReleaseKeepsFull(s, l, st);
      }
    }

    lemma LaneReleaseKeeps(s: State<V>, l: nat)
      requires Valid() && Inv(s) && Enabled(s, LaneRelease(l))
      ensures Inv(Apply(s, LaneRelease(l)))
    {
      hide Copied, StagesHold, Barriers, LanesFollow, NoLap, Positions, Synced, TransfersAhead;
      LaneReleaseKeepsOrder(s, l);
      LaneReleaseKeepsSync(s, l);
      LaneReleaseKeepsStages(s, l);
      LaneReleaseKeepsBarriers(s, l);
    }

    lemma {:induction false} CopiesCount(blk: nat, n: nat)
      ensures |set e: nat | e < n :: Transfer(blk, e)| == n
    {
      var all := set e: nat | e < n :: Transfer(blk, e);
      if n > 0 {
        CopiesCount(blk, n - 1);
        var fewer := set e: nat | e < n - 1 :: Transfer(blk, e);
        assert all == fewer + {Transfer(blk, n - 1)};
        assert Transfer(blk, n - 1) !in fewer;
      } else {
        assert all == {};
      }
    }

    lemma IssueKeepsOrder(s: State<V>)
      requires Valid() && Inv(s) && Enabled(s, IssueCopy)
      ensures var s' := Apply(s, IssueCopy);
              Shape(s') && Positions(s') && NoLap(s') && Synced(s') && Copied(s')
    {
      hide StagesHold, Barriers, TransfersAhead, LanesFollow;
    }

    lemma IssueKeepsTransfers(s: State<V>)
      requires Valid() && Inv(s) && Enabled(s, IssueCopy)
      ensures var s' := Apply(s, IssueCopy);
              Shape(s') && LanesFollow(s') && TransfersAhead(s')
    {
      hide StagesHold, Barriers, Copied;
      IssueKeepsOrder(s);
      var s' := Apply(s, IssueCopy);
      forall l | 0 <= l < nLanes
        ensures s'.lanes[l].pc.Reading? ==> s'.inflight[Stage(s'.lanes[l].blk, nStg)] == {}
      {
        assert s.lanes[l].Arrived(Released(s) - 1);
        if s.lanes[l].pc.Reading? && Stage(s.lanes[l].blk, nStg) == Stage(s.blk, nStg) {
          SameStage(Released(s), s.lanes[l].blk, s.blk, nStg);
        }
      }
    }

    lemma IssueKeepsStages(s: State<V>)
      requires Valid() && Inv(s) && Enabled(s, IssueCopy)
      ensures var s' := Apply(s, IssueCopy);
              Shape(s') && StagesHold(s')
    {
      hide Barriers, Copied, LanesFollow, TransfersAhead, Synced;
      IssueKeepsOrder(s);
      var s' := Apply(s, IssueCopy);
      forall b: nat, e: nat | Released(s') <= b < s'.blk && e < tile && Transfer(b, e) !in s'.inflight[Stage(b, nStg)]
        ensures s'.smem(Stage(b, nStg), e) == src(b, e)
      {
        if b < s.blk && Stage(b, nStg) == Stage(s.blk, nStg) {
          SameStage(Released(s), b, s.blk, nStg);
        }
      }
    }

    lemma IssueKeepsBarriers(s: State<V>)
      requires Valid() && Inv(s) && Enabled(s, IssueCopy)
      ensures var s' := Apply(s, IssueCopy);
              Shape(s') && Barriers(s')
    {
      IssueKeepsOrder(s);
      AcquiredStageFree(s);
      CopiesCount(s.blk, tile);
      hide StagesHold, Copied, LanesFollow, TransfersAhead, Synced, Uses;
      var s' := Apply(s, IssueCopy);
      var fresh' := Copies(s.blk);
      assert |fresh'| == tile;
      hide Copies;
      assert s'.inflight[Stage(s.blk, nStg)] == fresh';
      forall st | 0 <= st < nStg ensures FullBarrier(s', st) && EmptyBarrier(s', st) {
        assert FullBarrier(s, st) && EmptyBarrier(s, st);
      }
      hide FullBarrier, EmptyBarrier;
    }

    lemma IssueKeeps(s: State<V>)
      requires Valid() && Inv(s) && Enabled(s, IssueCopy)
      ensures Inv(Apply(s, IssueCopy))
    {
      hide Copied, StagesHold, Barriers, LanesFollow, NoLap, Positions, Synced, TransfersAhead;
      IssueKeepsOrder(s);
      IssueKeepsTransfers(s);
      IssueKeepsStages(s);
      IssueKeepsBarriers(s);
    }

    lemma LandKeepsOrder(s: State<V>, st: nat, t: Transfer)
      requires Valid() && Inv(s) && Enabled(s, Land(st, t))
      ensures var s' := Apply(s, Land(st, t));
              && Shape(s') && Positions(s') && NoLap(s') && LanesFollow(s')
              && Synced(s') && TransfersAhead(s') && Copied(s')
    {
      hide StagesHold, Barriers;
      assert {} - {t} == {};
    }

    lemma LandKeepsStages(s: State<V>, st: nat, t: Transfer)
      requires Valid() && Inv(s) && Enabled(s, Land(st, t))
      ensures var s' := Apply(s, Land(st, t));
              Shape(s') && StagesHold(s')
    {
      LandKeepsOrder(s, st, t);
      hide Barriers, Copied, LanesFollow, Synced;
      var s' := Apply(s, Land(st, t));
      forall b: nat, e: nat | Released(s') <= b < s'.blk && e < tile && Transfer(b, e) !in s'.inflight[Stage(b, nStg)]
        ensures s'.smem(Stage(b, nStg), e) == src(b, e)
      {
        if Stage(b, nStg) == st {
          SameStage(Released(s), b, t.blk, nStg);
        }
      }
    }

    lemma LandKeepsOtherBarriers(s: State<V>, st: nat, t: Transfer, x: nat)
      requires Valid() && Inv(s) && Enabled(s, Land(st, t)) && x < nStg
      ensures var s' := Apply(s, Land(st, t));
              Shape(s') && EmptyBarrier(s', x) && (x != st ==> FullBarrier(s', x))
    {
      hide Stage, Round;
      LandKeepsOrder(s, st, t);
      assert FullBarrier(s, x) && EmptyBarrier(s, x);
      hide Positions, NoLap, Barriers, StagesHold, Copied, LanesFollow, TransfersAhead, Synced, Uses;
    }

    /** The barrier of the stage counts the element, and turns over with the last one. */
    lemma LandKeepsBarrier(s: State<V>, st: nat, t: Transfer)
      requires Valid() && Inv(s) && Enabled(s, Land(st, t))
      ensures var s' := Apply(s, Land(st, t));
              Shape(s') && FullBarrier(s', st)
    {
      hide Stage, Round;
      LandKeepsOrder(s, st, t);
      if s.pc == Issuing {
        AcquiredStageFree(s);
      }
      assert FullBarrier(s, st);
      var s' := Apply(s, Land(st, t));
      assert s'.full[st] == s.full[st].Landed() && s'.inflight[st] == s.inflight[st] - {t};
      hide Positions, NoLap, Barriers, StagesHold, Copied, LanesFollow, TransfersAhead, Synced, Uses, Inv,
           Enabled;
      TurnsOver(s.full[st], s.inflight[st], t, Uses(Announced(s), st, nStg));
    }

    lemma TurnsOver(bar: Barrier, landing: set<Transfer>, t: Transfer, uses: int)
      requires t in landing && bar.tx == |landing| && bar.pending == 0 && bar.parity == Odd(uses - 1)
      ensures bar.Landed().tx == |landing - {t}|
      ensures bar.Landed().pending == if bar.Landed().tx > 0 then 0 else 1
      ensures bar.Landed().parity == Odd(uses - if bar.Landed().tx > 0 then 1 else 0)
    {
    }

    lemma LandKeepsBarriers(s: State<V>, st: nat, t: Transfer)
      requires Valid() && Inv(s) && Enabled(s, Land(st, t))
      ensures var s' := Apply(s, Land(st, t));
              Shape(s') && Barriers(s')
    {
      LandKeepsBarrier(s, st, t);
      var s' := Apply(s, Land(st, t));
      forall x | 0 <= x < nStg ensures FullBarrier(s', x) && EmptyBarrier(s', x) {
        LandKeepsOtherBarriers(s, st, t, x);
      }
      hide FullBarrier, EmptyBarrier;
    }

    lemma LandKeeps(s: State<V>, st: nat, t: Transfer)
      requires Valid() && Inv(s) && Enabled(s, Land(st, t))
      ensures Inv(Apply(s, Land(st, t)))
    {
      hide Copied, StagesHold, Barriers, LanesFollow, NoLap, Positions, Synced, TransfersAhead;
      LandKeepsOrder(s, st, t);
      LandKeepsStages(s, st, t);
      LandKeepsBarriers(s, st, t);
    }

    lemma StepKeeps(s: State<V>, a: Action)
      requires Valid() && Inv(s) && Enabled(s, a)
      ensures Inv(Apply(s, a))
    {
      hide Inv;
      match a
      case ProducerWait => ProducerWaitKeeps(s);
      case Announce => AnnounceKeeps(s);
      case IssueCopy => IssueKeeps(s);
      case Land(st, t) => LandKeeps(s, st, t);
      case LaneWait(l) => LaneWaitKeeps(s, l);
      case LaneRead(l) => LaneReadKeeps(s, l);
      case LaneSync(l) => LaneSyncKeeps(s, l);
      case LaneRelease(l) => LaneReleaseKeeps(s, l);
    }

    // ----- Whole runs -----------------------------------------------------------------------------------

    ghost predicate Runs(s: State<V>, actions: seq<Action>, end: State<V>)
      decreases |actions|
    {
      && Shape(s)
      && if actions == [] then end == s
         else Enabled(s, actions[0]) && Runs(Apply(s, actions[0]), actions[1..], end)
    }

    lemma {:induction false} RunKeeps(s: State<V>, actions: seq<Action>, end: State<V>)
      requires Valid() && Inv(s) && Runs(s, actions, end)
      ensures Inv(end)
      decreases |actions|
    {
      hide Inv, Enabled, Apply;
      if actions != [] {
        StepKeeps(s, actions[0]);
        RunKeeps(Apply(s, actions[0]), actions[1..], end);
      }
    }

    /**
      No stage is overwritten while a lane still has an unread element of an earlier block in it, and no
      lane reads a stage in which anything is landing.
     */
    lemma NeverOverwritesUnread(s: State<V>, st: nat, t: Transfer)
      requires Valid() && Inv(s) && Enabled(s, Land(st, t))
      ensures forall l, b: nat, i: nat
                | 0 <= l < nLanes && b < s.blk && Stage(b, nStg) == st && b != t.blk && i < perLane ::
                LaneHasRead(s.lanes[l], b, i)
      ensures forall l | 0 <= l < nLanes && s.lanes[l].pc.Reading? :: s.lanes[l].pos.index != st
    {
      hide Copied, StagesHold, Barriers;
      forall l, b: nat, i: nat | 0 <= l < nLanes && b < s.blk && Stage(b, nStg) == st && b != t.blk && i < perLane
        ensures LaneHasRead(s.lanes[l], b, i)
      {
        assert s.lanes[l].Arrived(Released(s) - 1);
        if b >= Released(s) {
          SameStage(Released(s), b, t.blk, nStg);
        }
      }
    }

    /** So it is in every reachable state, whatever the interleaving. */
    lemma RunsNeverOverwrite(s: State<V>, actions: seq<Action>, end: State<V>, st: nat, t: Transfer)
      requires Valid() && Init(s) && Runs(s, actions, end) && Shape(end) && Enabled(end, Land(st, t))
      ensures forall l, b: nat, i: nat
                | 0 <= l < nLanes && b < end.blk && Stage(b, nStg) == st && b != t.blk && i < perLane ::
                LaneHasRead(end.lanes[l], b, i)
      ensures forall l | 0 <= l < nLanes && end.lanes[l].pc.Reading? :: end.lanes[l].pos.index != st
    {
      hide Inv, Enabled, Apply;
      InitInv(s);
      RunKeeps(s, actions, end);
      NeverOverwritesUnread(end, st, t);
    }

    ghost predicate Finished(s: State<V>)
      requires Shape(s)
    {
      s.blk == nBlks && forall l | 0 <= l < nLanes :: s.lanes[l].blk == nBlks
    }

    lemma SlowestLane(s: State<V>) returns (m: nat)
      requires Shape(s)
      ensures m < nLanes && forall l | 0 <= l < nLanes :: s.lanes[m].blk <= s.lanes[l].blk
    {
      m := 0;
      for n := 1 to nLanes
        invariant m < nLanes && forall l | 0 <= l < n :: s.lanes[m].blk <= s.lanes[l].blk
      {
        if s.lanes[n].blk < s.lanes[m].blk {
          m := n;
        }
      }
    }

    /** With nothing landing and the producer blocked or done, some lane can move. */
    lemma LaneProgress(s: State<V>) returns (a: Action)
      requires Valid() && Inv(s) && !Finished(s) && s.pc == Acquiring
      requires forall st | 0 <= st < nStg :: s.inflight[st] == {}
      requires s.blk == nBlks || s.blk == Released(s) + nStg
      ensures Enabled(s, a)
    {
      var m := SlowestLane(s);
      var b := s.lanes[m].blk;
      hide Copied, StagesHold, Barriers, TransfersAhead;
      if l :| 0 <= l < nLanes && s.lanes[l].pc.Reading? {
        a := LaneRead(l);
      } else if l :| 0 <= l < nLanes && s.lanes[l].pc == Releasing {
        a := LaneRelease(l);
      } else if l :| 0 <= l < nLanes && s.lanes[l].blk == b && s.lanes[l].pc == Waiting {
        assert b < nBlks && b < s.blk;
        ConsumerPhase(s, l);
        a := LaneWait(l);
      } else {
        a := LaneSync(m);
      }
    }

    /** No state short of completion is stuck. */
    lemma Progress(s: State<V>)
      requires Valid() && Inv(s) && !Finished(s)
      ensures exists a :: Enabled(s, a)
    {
      if st :| 0 <= st < nStg && s.inflight[st] != {} {
        var t :| t in s.inflight[st];
        assert Enabled(s, Land(st, t));
      } else if s.pc == Announcing {
        assert Enabled(s, Announce);
      } else if s.pc == Issuing {
        assert Enabled(s, IssueCopy);
      } else if s.blk < nBlks && s.blk < Released(s) + nStg {
        ProducerPhase(s);
        assert Enabled(s, ProducerWait);
      } else {
        var a := LaneProgress(s);
      }
    }

    lemma LandingIsUnreleased(s: State<V>, st: nat)
      requires Inv(s) && st < nStg
      ensures s.inflight[st] != {} ==> Released(s) < s.blk
    {
      hide StagesHold, Barriers, Copied, NoLap, Synced;
      if s.inflight[st] != {} {
        var t :| t in s.inflight[st];
        assert s.lanes[leader].blk <= t.blk;
      }
    }

    /** A finished run has copied everything, and nothing is left in flight. */
    lemma FinishedCopies(s: State<V>)
      requires Valid() && Inv(s) && Finished(s)
      ensures forall b: nat, e: nat | b < nBlks && e < tile :: s.dst(b, e) == src(b, e)
      ensures forall st | 0 <= st < nStg :: s.inflight[st] == {}
    {
      hide StagesHold, Barriers, LanesFollow, NoLap, Positions, Synced, TransfersAhead;
      forall b: nat, e: nat | b < nBlks && e < tile ensures s.dst(b, e) == src(b, e) {
        var l, i := LaneOf(e);
        assert LaneHasRead(s.lanes[l], b, i);
      }
      forall st | 0 <= st < nStg ensures s.inflight[st] == {} {
        LandingIsUnreleased(s, st);
      }
    }

    /** Every element belongs to a lane. */
    lemma LaneOf(e: nat) returns (l: nat, i: nat)
      requires Valid() && e < tile
      ensures l < nLanes && i < perLane && e == Element(l, i)
    {
      DivMod(e, nLanes, perLane);
      l, i := e % nLanes, e / nLanes;
      ElementAt(l, i);
    }

    // ----- The length of a run --------------------------------------------------------------------------

    function ProducerLeft(s: State<V>): int {
      (nBlks - s.blk) * (tile + 3) - match s.pc { case Acquiring => 0 case Announcing => 1 case Issuing => 2 }
    }

    function LaneLeft(lane: Lane): int {
      (nBlks - lane.blk) * (perLane + 3)
      - match lane.pc {
          case Waiting => 0
          case Reading(i) => 1 + i
          case AtSync => perLane + 1
          case Releasing => perLane + 2
        }
    }

    function LanesLeft(lanes: seq<Lane>): (xs: seq<int>)
      ensures |xs| == |lanes|
    {
      seq(|lanes|, l requires 0 <= l < |lanes| => LaneLeft(lanes[l]))
    }

    /** The number of steps still to be taken. */
    function StepsLeft(s: State<V>): int {
      ProducerLeft(s) + Total(Sizes(s.inflight)) + Total(LanesLeft(s.lanes))
    }

    lemma LaneStep(lanes: seq<Lane>, l: nat, lane: Lane)
      requires l < |lanes|
      ensures Total(LanesLeft(lanes[l := lane])) == Total(LanesLeft(lanes)) - LaneLeft(lanes[l]) + LaneLeft(lane)
    {
      assert LanesLeft(lanes[l := lane]) == LanesLeft(lanes)[l := LaneLeft(lane)];
      TotalUpdate(LanesLeft(lanes), l, LaneLeft(lane));
    }

    lemma InflightStep(inflight: seq<set<Transfer>>, st: nat, x: set<Transfer>)
      requires st < |inflight|
      ensures Total(Sizes(inflight[st := x])) == Total(Sizes(inflight)) - |inflight[st]| + |x|
    {
      assert Sizes(inflight[st := x]) == Sizes(inflight)[st := |x|];
      TotalUpdate(Sizes(inflight), st, |x|);
    }

    /** Every step is one step less to take. */
    lemma StepCounts(s: State<V>, a: Action)
      requires Valid() && Inv(s) && Enabled(s, a)
      ensures StepsLeft(Apply(s, a)) == StepsLeft(s) - 1
    {
      match a
      case ProducerWait =>
      case Announce =>
      case IssueCopy => IssueCounts(s);
      case Land(st, t) => LandCounts(s, st, t);
      case LaneWait(l) => LaneStepCounts(s, a, l);
      case LaneRead(l) => LaneStepCounts(s, a, l);
      case LaneSync(l) => LaneStepCounts(s, a, l);
      case LaneRelease(l) => LaneStepCounts(s, a, l);
    }

    lemma IssueCounts(s: State<V>)
      requires Valid() && Inv(s) && Enabled(s, IssueCopy)
      ensures StepsLeft(Apply(s, IssueCopy)) == StepsLeft(s) - 1
    {
      IssueEffect(s);
      CopiesCount(s.blk, tile);
      assert |Copies(s.blk)| == tile;
      hide Inv, Copies, LanesLeft, Sizes, Total, Apply, Enabled, Shape, Stage;
      InflightStep(s.inflight, Stage(s.blk, nStg), Copies(s.blk));
      OneBlockLess(s.blk, tile + 3);
    }

    /** Issuing fills an empty stage and is the producer's last action of the block. */
    lemma IssueEffect(s: State<V>)
      requires Valid() && Inv(s) && Enabled(s, IssueCopy)
      ensures var s', st := Apply(s, IssueCopy), Stage(s.blk, nStg);
              && st < |s.inflight| && s.inflight[st] == {} && s'.inflight == s.inflight[st := Copies(s.blk)]
              && s'.lanes == s.lanes && s.pc == Issuing && s'.blk == s.blk + 1 && s'.pc == Acquiring
    {
      AcquiredStageFree(s);
      assert Positions(s);
      hide Inv, Copies;
      assert s.inflight[Stage(s.blk, nStg)] + Copies(s.blk) == Copies(s.blk);
    }

    lemma LandCounts(s: State<V>, st: nat, t: Transfer)
      requires Valid() && Inv(s) && Enabled(s, Land(st, t))
      ensures StepsLeft(Apply(s, Land(st, t))) == StepsLeft(s) - 1
    {
      assert Shape(s);
      hide Inv, Total, Sizes, LanesLeft;
      var rest := s.inflight[st] - {t};
      assert |rest| == |s.inflight[st]| - 1;
      InflightStep(s.inflight, st, rest);
    }

    lemma OneBlockLess(blk: int, k: int)
      ensures (nBlks - (blk + 1)) * k == (nBlks - blk) * k - k
    {
    }

    lemma LaneStepIsOne(lane: Lane, pc: LanePc)
      requires lane.pc.Reading? ==> lane.pc.i < perLane
      requires match lane.pc {
                 case Waiting => pc == Reading(0)
                 case Reading(i) => pc == if i + 1 < perLane then Reading(i + 1) else AtSync
                 case AtSync => pc == Releasing
                 case Releasing => true
               }
      ensures lane.pc != Releasing ==> LaneLeft(lane.(pc := pc)) == LaneLeft(lane) - 1
      ensures lane.pc == Releasing ==>
                LaneLeft(Lane(lane.blk + 1, Waiting, lane.pos.Advance(nStg))) == LaneLeft(lane) - 1
    {
      OneBlockLess(lane.blk, perLane + 3);
    }

    lemma LanePositionOf(s: State<V>, l: nat)
      requires Inv(s) && l < nLanes
      ensures Shape(s) && LanePosition(s.lanes[l])
    {
    }

    /** A lane's action changes its lane, and perhaps the destination or an empty barrier. */
    lemma LaneActionIsLocal(s: State<V>, a: Action, l: nat)
      requires Shape(s) && l < nLanes && Enabled(s, a) && (s.lanes[l].pc.Reading? ==> s.lanes[l].pc.i < perLane)
      requires a == LaneWait(l) || a == LaneRead(l) || a == LaneSync(l) || a == LaneRelease(l)
      ensures var s' := Apply(s, a);
              && |s'.lanes| == |s.lanes| && s'.lanes == s.lanes[l := s'.lanes[l]]
              && s'.inflight == s.inflight && s'.blk == s.blk && s'.pc == s.pc
              && LaneLeft(s'.lanes[l]) == LaneLeft(s.lanes[l]) - 1
    {
      hide LaneLeft;
      LaneStepIsOne(s.lanes[l], Apply(s, a).lanes[l].pc);
    }

    lemma LaneStepCounts(s: State<V>, a: Action, l: nat)
      requires Valid() && Inv(s) && Enabled(s, a)
      requires a == LaneWait(l) || a == LaneRead(l) || a == LaneSync(l) || a == LaneRelease(l)
      ensures StepsLeft(Apply(s, a)) == StepsLeft(s) - 1
    {
      hide Inv, LanesLeft, Sizes, Total, LaneLeft, Apply;
      LanePositionOf(s, l);
      LaneActionIsLocal(s, a, l);
      LaneStep(s.lanes, l, Apply(s, a).lanes[l]);
    }

    lemma BlocksLeft(blk: int, k: int)
      requires k > 0 && blk <= nBlks
      ensures blk < nBlks ==> (nBlks - blk) * k >= k
      ensures blk == nBlks ==> (nBlks - blk) * k == 0
    {
      ProductOrder(0, nBlks - blk, k);
    }

    lemma LaneLeftBounds(s: State<V>, l: nat)
      requires Valid() && Inv(s) && l < nLanes
      ensures LaneLeft(s.lanes[l]) >= 0 && (s.lanes[l].blk == nBlks ==> LaneLeft(s.lanes[l]) == 0)
    {
      assert LanePosition(s.lanes[l]);
      hide Inv;
      BlocksLeft(s.lanes[l].blk, perLane + 3);
    }

    lemma ProducerLeftBounds(s: State<V>)
      requires Valid() && Inv(s)
      ensures ProducerLeft(s) >= 0 && (s.blk == nBlks ==> ProducerLeft(s) == 0)
    {
      assert Positions(s);
      hide Inv;
      TilePositive();
      BlocksLeft(s.blk, tile + 3);
    }

    lemma StepsLeftBounds(s: State<V>)
      requires Valid() && Inv(s)
      ensures StepsLeft(s) >= 0
      ensures Finished(s) ==> StepsLeft(s) == 0
    {
      hide StagesHold, Barriers, Copied, NoLap, Synced, LaneLeft, ProducerLeft;
      ProducerLeftBounds(s);
      forall l | 0 <= l < nLanes
        ensures LanesLeft(s.lanes)[l] >= 0 && (s.lanes[l].blk == nBlks ==> LanesLeft(s.lanes)[l] == 0)
      {
        LaneLeftBounds(s, l);
      }
      if Finished(s) {
        FinishedCopies(s);
        TotalConstant(LanesLeft(s.lanes), 0);
        TotalConstant(Sizes(s.inflight), 0);
      }
    }

    /** A run takes the steps it takes off what is left, so every run is finite. */
    lemma {:induction false} RunCounts(s: State<V>, actions: seq<Action>, end: State<V>)
      requires Valid() && Inv(s) && Runs(s, actions, end)
      ensures StepsLeft(end) == StepsLeft(s) - |actions|
      decreases |actions|
    {
      hide Inv, Enabled, Apply, StepsLeft;
      if actions != [] {
        StepKeeps(s, actions[0]);
        StepCounts(s, actions[0]);
        RunCounts(Apply(s, actions[0]), actions[1..], end);
      }
    }

    lemma InitialSteps(s: State<V>)
      requires Valid() && Init(s)
      ensures StepsLeft(s) == nBlks * (tile + 3) + nLanes * (nBlks * (perLane + 3))
    {
      TotalConstant(LanesLeft(s.lanes), nBlks * (perLane + 3));
      TotalConstant(Sizes(s.inflight), 0);
    }

    /**
      Whatever the interleaving, a run from the initial state that cannot go on has copied the source, after
      exactly as many steps as there is work.
     */
    lemma RunsEndCopied(s: State<V>, actions: seq<Action>, end: State<V>)
      requires Valid() && Init(s) && Runs(s, actions, end)
      ensures Shape(end)
      ensures |actions| <= nBlks * (tile + 3) + nLanes * (nBlks * (perLane + 3))
      ensures (forall a :: !Enabled(end, a)) ==>
                && (forall b: nat, e: nat | b < nBlks && e < tile :: end.dst(b, e) == src(b, e))
                && |actions| == nBlks * (tile + 3) + nLanes * (nBlks * (perLane + 3))
    {
      hide Inv, StepsLeft;
      InitInv(s);
      RunKeeps(s, actions, end);
      RunCounts(s, actions, end);
      InitialSteps(s);
      StepsLeftBounds(end);
      assert Shape(end) by { InvShape(end); }
      if forall a :: !Enabled(end, a) {
        if !Finished(end) {
          Progress(end);
        }
        FinishedCopies(end);
      }
    }

    lemma InvShape(s: State<V>)
      requires Inv(s)
      ensures Shape(s)
    {
    }
  }

  function Sizes(inflight: seq<set<Transfer>>): (xs: seq<int>)
    ensures |xs| == |inflight|
  {
    seq(|inflight|, st requires 0 <= st < |inflight| => |inflight[st]|)
  }
}
