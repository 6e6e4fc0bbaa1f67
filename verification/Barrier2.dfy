/** The barrier two threads cross round after round on sixteen recycled counters. */
module Barrier2 {

  const BARRIER2_NUM_BARRIER: nat := 16
  const MINUS_ONE: nat := 0xFFFF_FFFF

  /** A thread is about to arrive at its round, or has arrived and spins on the round's counter. */
  datatype Thread = Arriving(round: nat) | Waiting(round: nat)

  datatype State = State(t0: Thread, t1: Thread, val: seq<nat>) {
    function Of(tid: bool): Thread { if tid then t1 else t0 }

    function With(tid: bool, t: Thread): State { if tid then this.(t1 := t) else this.(t0 := t) }
  }

  function Slot(round: nat): (vn: nat)
    ensures vn < BARRIER2_NUM_BARRIER
  {
    round % BARRIER2_NUM_BARRIER
  }

  /** Atomic decrement and increment of a 32-bit counter. */
  function Down(v: nat): nat { if v == 0 then MINUS_ONE else v - 1 }
  function Up(v: nat): nat { if v == MINUS_ONE then 0 else v + 1 }

  function Init(): State {
    State(Arriving(0), Arriving(0), seq(BARRIER2_NUM_BARRIER, i => 0))
  }

  /** Thread 0 counts down, thread 1 counts up; then both spin until the counter is zero. */
  ghost predicate Step(s: State, s': State, tid: bool)
    requires |s.val| == BARRIER2_NUM_BARRIER
  {
    var vn := Slot(s.Of(tid).round);
    match s.Of(tid)
    case Arriving(r) =>
      s' == s.With(tid, Waiting(r)).(val := s.val[vn := if tid then Up(s.val[vn]) else Down(s.val[vn])])
    case Waiting(r) =>
      s' == if s.val[vn] == 0 then s.With(tid, Arriving(r + 1)) else s
  }

  /** Thread tid has arrived at round r. */
  predicate Arrived(s: State, tid: bool, r: nat) {
    s.Of(tid).round > r || s.Of(tid) == Waiting(r)
  }

  ghost predicate ZeroBut(val: seq<nat>, round: nat, v: nat) {
    && |val| == BARRIER2_NUM_BARRIER && val[Slot(round)] == v
    && forall i :: 0 <= i < BARRIER2_NUM_BARRIER && i != Slot(round) ==> val[i] == 0
  }

  /** Where the threads can be: in the same round, or one waits behind while the other is
      already in the next round. Every counter is zero except that of a round at which
      exactly one thread has arrived. */
  ghost predicate Inv(s: State) {
    match (s.t0, s.t1)
    case (Arriving(p), Arriving(q)) => p == q && ZeroBut(s.val, p, 0)
    case (Waiting(p), Arriving(q)) =>
      if p == q then ZeroBut(s.val, p, MINUS_ONE) else q == p + 1 && ZeroBut(s.val, q, 0)
    case (Arriving(p), Waiting(q)) =>
      if p == q then ZeroBut(s.val, p, 1) else p == q + 1 && ZeroBut(s.val, p, 0)
    case (Waiting(p), Waiting(q)) =>
      if p == q then ZeroBut(s.val, p, 0)
      else if p == q + 1 then ZeroBut(s.val, p, MINUS_ONE)
      else q == p + 1 && ZeroBut(s.val, q, 1)
  }

  /** The counters of consecutive rounds are different ones. */
  lemma NextSlot(r: nat)
    ensures Slot(r + 1) != Slot(r)
  {}

  lemma InitOk()
    ensures Inv(Init())
  {}

  lemma StepKeeps(s: State, s': State, tid: bool)
    requires Inv(s) && Step(s, s', tid)
    ensures Inv(s')
  {
    NextSlot(s.Of(tid).round);
    NextSlot(s.Of(!tid).round);
  }

  /** A run: each step is one thread's. */
  ghost predicate IsRun(run: seq<State>, who: seq<bool>) {
    && |run| == |who| + 1 && run[0] == Init()
    && forall i :: 0 <= i < |who| ==> |run[i].val| == BARRIER2_NUM_BARRIER && Step(run[i], run[i + 1], who[i])
  }

  lemma {:induction false} RunOk(run: seq<State>, who: seq<bool>, i: nat)
    requires IsRun(run, who) && i < |run|
    ensures Inv(run[i])
  {
    if i == 0 { InitOk(); } else {
      RunOk(run, who, i - 1);
      StepKeeps(run[i - 1], run[i], who[i - 1]);
    }
  }

  /** In every run: no thread leaves a round before the other has arrived at it, the
      threads are never more than a round apart, and a counter is zero when the first
      thread arrives at its round. */
  lemma BarrierHolds(run: seq<State>, who: seq<bool>, i: nat)
    requires IsRun(run, who) && i < |who|
    ensures var (s, s', tid) := (run[i], run[i + 1], who[i]);
            && |s.val| == 16 && Slot(s.Of(tid).round) == s.Of(tid).round % 16
            && -1 <= s.t0.round - s.t1.round <= 1
            && (s'.Of(tid).round > s.Of(tid).round ==> Arrived(s, !tid, s.Of(tid).round))
            && (s.Of(tid).Arriving? && !Arrived(s, !tid, s.Of(tid).round) ==> s.val[Slot(s.Of(tid).round)] == 0)
            && (s.Of(tid).Arriving? && !Arrived(s, !tid, s.Of(tid).round) ==>
                  |s'.val| == 16 && s'.val[Slot(s.Of(tid).round)] == if tid then 1 else 0xFFFF_FFFF)
  {
    RunOk(run, who, i);
    NextSlot(run[i].Of(who[i]).round);
    NextSlot(run[i].Of(!who[i]).round);
  }

  /** No reachable state is a deadlock: some thread can change the state, and a waiting
      thread can leave as soon as the other has arrived at its round. */
  lemma NoDeadlock(run: seq<State>, who: seq<bool>, i: nat)
    requires IsRun(run, who) && i < |run|
    ensures exists tid, s' :: |run[i].val| == BARRIER2_NUM_BARRIER && Step(run[i], s', tid) && s' != run[i]
    ensures forall tid :: run[i].Of(tid).Waiting? && Arrived(run[i], !tid, run[i].Of(tid).round) ==>
              run[i].val[Slot(run[i].Of(tid).round)] == 0
  {
    RunOk(run, who, i);
    var s := run[i];
    NextSlot(s.t0.round);
    NextSlot(s.t1.round);
    var tid := if s.t0.Arriving? then false
               else if s.t1.Arriving? then true
               else s.t0.round > s.t1.round;
    var r, vn := s.Of(tid).round, Slot(s.Of(tid).round);
    var s' := if s.Of(tid).Arriving?
              then s.With(tid, Waiting(r)).(val := s.val[vn := if tid then Up(s.val[vn]) else Down(s.val[vn])])
              else s.With(tid, Arriving(r + 1));
    assert Step(s, s', tid) && s' != s;
  }
}
