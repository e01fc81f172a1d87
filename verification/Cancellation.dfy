/** Apparatus when the client cancels its orders.

    The signal handler raises `siparisIptal` at any moment of a session.  Cooks
    and timers read it between their sections and then skip taking, enqueuing or
    releasing.  Only what touches the apparatus is modelled here; whether the oven
    is full is left open.  A cook reads the flag twice to decide whether it has to
    release, so the two reads are two steps. */
module Cancellation {
  import opened Sums

  const APPARATUS := 3

  /** `took` is the local `aparatAzaltildi`. */
  datatype Cook =
    | AtShelf                   // needs an apparatus
    | AtOven(took: bool)        // in front of the oven
    | GaveBack(took: bool)      // oven full, apparatus given back
    | FirstTest(took: bool)     // about to test "cancelled and took"
    | SecondTest(took: bool)    // about to test "not cancelled"
    | MustRelease               // one of the tests passed

  datatype Timer = Expired | Holding | Unloaded | Finished

  datatype State = State(
    aparatus: int,
    cancelled: bool,        // siparisIptal
    cooks: seq<Cook>,
    timers: seq<Timer>,
    lost: nat,              // history: apparatus that their cook never released
    exposed: int)           // history: cooks between the two tests when the flag rose

  datatype CookStep = Take | GiveBack | Retake | LeaveOven | TestOne | TestTwo | Release
  datatype TimerStep = TimerTake | OvenTake | TimerRelease

  datatype Action = Cancel | NewTimer | ByCook(i: nat, cook: CookStep) | ByTimer(t: nat, timer: TimerStep)

  ghost function Init(cooks: nat): State {
    State(APPARATUS, false, seq(cooks, _ => AtShelf), [], 0, 0)
  }

  /** A wait for an apparatus ends when there is one, or when the orders are cancelled. */
  ghost predicate Enabled(s: State, a: Action) {
    match a
    case Cancel => !s.cancelled
    case NewTimer => true
    case ByCook(i, step) =>
      i < |s.cooks| && (
        match step
        case Take => s.cooks[i].AtShelf? && (s.aparatus != 0 || s.cancelled)
        case GiveBack => s.cooks[i].AtOven?
        case Retake => s.cooks[i].GaveBack?
        case LeaveOven => s.cooks[i].AtOven?
        case TestOne => s.cooks[i].FirstTest?
        case TestTwo => s.cooks[i].SecondTest?
        case Release => s.cooks[i].MustRelease?)
    case ByTimer(t, step) =>
      t < |s.timers| && (
        match step
        case TimerTake => s.timers[t].Expired? && (s.aparatus != 0 || s.cancelled)
        case OvenTake => s.timers[t].Holding?
        case TimerRelease => s.timers[t].Unloaded?)
  }

  ghost function CookDoes(s: State, i: nat, step: CookStep): State
    requires Enabled(s, ByCook(i, step))
  {
    match step
    case Take =>
      if s.cancelled then s.(cooks := s.cooks[i := AtOven(false)])
      else s.(aparatus := s.aparatus - 1, cooks := s.cooks[i := AtOven(true)])
    case GiveBack => s.(aparatus := s.aparatus + 1, cooks := s.cooks[i := GaveBack(s.cooks[i].took)])
    case Retake => s.(aparatus := s.aparatus - 1, cooks := s.cooks[i := AtOven(s.cooks[i].took)])
    case LeaveOven => s.(cooks := s.cooks[i := FirstTest(s.cooks[i].took)])
    case TestOne =>
      if s.cancelled && s.cooks[i].took then s.(cooks := s.cooks[i := MustRelease])
      else s.(cooks := s.cooks[i := SecondTest(s.cooks[i].took)])
    case TestTwo =>
      if !s.cancelled then s.(cooks := s.cooks[i := MustRelease])
      else s.(cooks := s.cooks[i := AtShelf], lost := s.lost + if s.cooks[i].took then 1 else 0)
    case Release => s.(aparatus := s.aparatus + 1, cooks := s.cooks[i := AtShelf])
  }

  ghost function TimerDoes(s: State, t: nat, step: TimerStep): State
    requires Enabled(s, ByTimer(t, step))
  {
    match step
    case TimerTake => s.(aparatus := s.aparatus - 1, timers := s.timers[t := Holding])
    case OvenTake => s.(timers := s.timers[t := Unloaded])
    case TimerRelease => s.(aparatus := s.aparatus + 1, timers := s.timers[t := Finished])
  }

  ghost function Apply(s: State, a: Action): State
    requires Enabled(s, a)
  {
    match a
    case Cancel => s.(cancelled := true, exposed := Sum(Between, s.cooks))
    case NewTimer => s.(timers := s.timers + [Expired])
    case ByCook(i, step) => CookDoes(s, i, step)
    case ByTimer(t, step) => TimerDoes(s, t, step)
  }

  ghost predicate Runs(s: State, acts: seq<Action>)
    decreases |acts|
  {
    |acts| == 0 || (Enabled(s, acts[0]) && Runs(Apply(s, acts[0]), acts[1..]))
  }

  ghost function Exec(s: State, acts: seq<Action>): State
    requires Runs(s, acts)
    decreases |acts|
  {
    if |acts| == 0 then s else Exec(Apply(s, acts[0]), acts[1..])
  }

  /** What a cook holds, with sign: a cook that never took an apparatus owes one
      while it has "given it back". */
  ghost function CookHolds(c: Cook): int {
    match c
    case AtShelf => 0
    case AtOven(took) => if took then 1 else 0
    case GaveBack(took) => if took then 0 else -1
    case FirstTest(took) => if took then 1 else 0
    case SecondTest(took) => if took then 1 else 0
    case MustRelease => 1
  }

  ghost function TimerHolds(t: Timer): int {
    if t.Holding? || t.Unloaded? then 1 else 0
  }

  /** A cook with an apparatus between its two tests of the flag. */
  ghost function Between(c: Cook): int {
    if c.SecondTest? && c.took then 1 else 0
  }

  ghost function Held(s: State): int {
    Sum(CookHolds, s.cooks) + Sum(TimerHolds, s.timers)
  }

  ghost predicate Inv(s: State) {
    && s.aparatus + Held(s) + s.lost == APPARATUS
    && (s.cancelled ==> s.lost + Sum(Between, s.cooks) == s.exposed)
    && (!s.cancelled ==> s.lost == 0 && s.exposed == 0)
    && (forall i :: 0 <= i < |s.cooks| && !s.cooks[i].AtShelf? && !s.cooks[i].MustRelease? && !s.cooks[i].took ==> s.cancelled)
  }

  lemma CookInv(s: State, i: nat, step: CookStep)
    requires Inv(s) && Enabled(s, ByCook(i, step))
    ensures Inv(CookDoes(s, i, step))
  {
    SumUpdate(CookHolds, s.cooks, i, CookDoes(s, i, step).cooks[i]);
    SumUpdate(Between, s.cooks, i, CookDoes(s, i, step).cooks[i]);
  }

  lemma TimerInv(s: State, t: nat, step: TimerStep)
    requires Inv(s) && Enabled(s, ByTimer(t, step))
    ensures Inv(TimerDoes(s, t, step))
  {
    SumUpdate(TimerHolds, s.timers, t, TimerDoes(s, t, step).timers[t]);
  }

  lemma StepInv(s: State, a: Action)
    requires Inv(s) && Enabled(s, a)
    ensures Inv(Apply(s, a))
  {
    match a
    case Cancel => SumNonneg(Between, s.cooks);
    case NewTimer => SumAppend(TimerHolds, s.timers, Expired);
    case ByCook(i, step) => CookInv(s, i, step);
    case ByTimer(t, step) => TimerInv(s, t, step);
  }

  lemma {:induction false} RunInv(s: State, acts: seq<Action>)
    requires Inv(s) && Runs(s, acts)
    ensures Inv(Exec(s, acts))
    decreases |acts|
  {
    if |acts| > 0 {
      StepInv(s, acts[0]);
      RunInv(Apply(s, acts[0]), acts[1..]);
    }
  }

  /** In every state of a session, cancelled at any moment or not at all: what is on
      the shelf and what is held, with sign, add up to three less the apparatus
      lost.  One is lost for every cook that was between its two tests when the
      flag rose and has made its second test since.  So all three are accounted for
      throughout if and only if no cook was. */
  lemma ApparatusUnderCancellation(cooks: nat, acts: seq<Action>)
    requires Runs(Init(cooks), acts)
    ensures var t := Exec(Init(cooks), acts);
            && t.aparatus + Held(t) == 3 - t.lost
            && t.lost <= t.exposed
            && (Sum(Between, t.cooks) == 0 ==> t.lost == t.exposed)
  {
    var z := Init(cooks);
    SumZero(CookHolds, z.cooks);
    RunInv(z, acts);
    SumNonneg(Between, Exec(z, acts).cooks);
  }

  /** When every thread has come to rest, the shelf is full if and only if no cook
      was between its two tests when the flag rose. */
  lemma ShelfFullExactly(cooks: nat, acts: seq<Action>)
    requires Runs(Init(cooks), acts)
    requires var t := Exec(Init(cooks), acts);
             && (forall i :: 0 <= i < |t.cooks| ==> t.cooks[i].AtShelf?)
             && (forall k :: 0 <= k < |t.timers| ==> t.timers[k].Expired? || t.timers[k].Finished?)
    ensures Exec(Init(cooks), acts).aparatus == 3 <==> Exec(Init(cooks), acts).exposed == 0
  {
    var t := Exec(Init(cooks), acts);
    ApparatusUnderCancellation(cooks, acts);
    SumZero(CookHolds, t.cooks);
    SumZero(TimerHolds, t.timers);
    SumZero(Between, t.cooks);
  }

  /** One cook can be caught between its tests, and an apparatus is lost. */
  lemma ApparatusLost() returns (acts: seq<Action>)
    ensures Runs(Init(1), acts) && Exec(Init(1), acts).lost == 1
    ensures Exec(Init(1), acts).cooks == [AtShelf] && Exec(Init(1), acts).aparatus == 2
  {
    var s0 := Init(1);
    var s1 := Apply(s0, ByCook(0, Take));
    var s2 := Apply(s1, ByCook(0, LeaveOven));
    var s3 := Apply(s2, ByCook(0, TestOne));
    var s4 := Apply(s3, Cancel);
    var s5 := Apply(s4, ByCook(0, TestTwo));
    acts := [];
    acts := Before(s4, s5, ByCook(0, TestTwo), acts);
    acts := Before(s3, s4, Cancel, acts);
    acts := Before(s2, s3, ByCook(0, TestOne), acts);
    acts := Before(s1, s2, ByCook(0, LeaveOven), acts);
    acts := Before(s0, s1, ByCook(0, Take), acts);
  }

  /** A cook that took none when the orders were cancelled gives one back in front of the
      full oven: for a moment there are four on the shelf. */
  lemma OverfullShelf() returns (acts: seq<Action>)
    ensures Runs(Init(1), acts) && Exec(Init(1), acts).aparatus == 4
  {
    var s0 := Init(1);
    var s1 := Apply(s0, Cancel);
    var s2 := Apply(s1, ByCook(0, Take));
    var s3 := Apply(s2, ByCook(0, GiveBack));
    acts := [];
    acts := Before(s2, s3, ByCook(0, GiveBack), acts);
    acts := Before(s1, s2, ByCook(0, Take), acts);
    acts := Before(s0, s1, Cancel, acts);
  }

  /** A timer that cancelling lets past the empty shelf takes one all the same. */
  lemma Overdrawn() returns (acts: seq<Action>)
    ensures Runs(Init(3), acts) && Exec(Init(3), acts).aparatus == -1
  {
    var s0 := Init(3);
    var s1 := Apply(s0, NewTimer);
    var s2 := Apply(s1, ByCook(0, Take));
    var s3 := Apply(s2, ByCook(1, Take));
    var s4 := Apply(s3, ByCook(2, Take));
    var s5 := Apply(s4, Cancel);
    var s6 := Apply(s5, ByTimer(0, TimerTake));
    acts := [];
    acts := Before(s5, s6, ByTimer(0, TimerTake), acts);
    acts := Before(s4, s5, Cancel, acts);
    acts := Before(s3, s4, ByCook(2, Take), acts);
    acts := Before(s2, s3, ByCook(1, Take), acts);
    acts := Before(s1, s2, ByCook(0, Take), acts);
    acts := Before(s0, s1, NewTimer, acts);
  }

  /** Only an empty shelf holds a cook up, and only as long as nothing is cancelled. */
  lemma CookWaits(s: State, i: nat)
    requires i < |s.cooks|
    ensures (forall step :: !Enabled(s, ByCook(i, step))) <==> s.cooks[i].AtShelf? && s.aparatus == 0 && !s.cancelled
  {
    if forall step :: !Enabled(s, ByCook(i, step)) {
      assert !Enabled(s, ByCook(i, Take)) && !Enabled(s, ByCook(i, LeaveOven)) && !Enabled(s, ByCook(i, Retake));
      assert !Enabled(s, ByCook(i, TestOne)) && !Enabled(s, ByCook(i, TestTwo)) && !Enabled(s, ByCook(i, Release));
    }
  }

  /** So with a timer that is not through. */
  lemma TimerWaits(s: State, t: nat)
    requires t < |s.timers|
    ensures (forall step :: !Enabled(s, ByTimer(t, step)))
            <==> s.timers[t].Finished? || (s.timers[t].Expired? && s.aparatus == 0 && !s.cancelled)
  {
    if forall step :: !Enabled(s, ByTimer(t, step)) {
      assert !Enabled(s, ByTimer(t, TimerTake)) && !Enabled(s, ByTimer(t, OvenTake)) && !Enabled(s, ByTimer(t, TimerRelease));
    }
  }

  lemma Before(s: State, t: State, a: Action, acts: seq<Action>) returns (more: seq<Action>)
    requires Enabled(s, a) && t == Apply(s, a) && Runs(t, acts)
    ensures Runs(s, more) && Exec(s, more) == Exec(t, acts)
  {
    more := [a] + acts;
    assert more[0] == a && more[1..] == acts;
  }
}
