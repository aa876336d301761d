/**
 * The requests-per-minute limiter of the language-model queue
 * (backend/src/realityIndex/llmQueue.js, withinBudget, timeUntilSlotMs and their use in pump).
 */
module RateWindow {
  import opened Common
  import opened SlidingWindow

  const MINUTE := 60_000

  /**
   * The clock readings of one turn: at the check, at the wait computation, and how late the dispatch comes after it.
   */
  datatype Turn = Turn(checked: int, waited: int, late: nat)

  /**
   * The dispatches so far and how many of them, from the front, the list has forgotten: the list is
   * log[dropped..].
   */
  datatype State = State(log: seq<int>, dropped: nat)

  /** The first entry at or after index `k` that is not before `cut`. */
  function FirstKept(log: seq<int>, k: nat, cut: int): (r: nat)
    requires k <= |log|
    ensures k <= r <= |log|
    ensures forall i :: k <= i < r ==> log[i] < cut
    ensures r < |log| ==> log[r] >= cut
    decreases |log| - k
  {
    if k < |log| && log[k] < cut then FirstKept(log, k + 1, cut) else k
  }

  /** The instant at which a turn dispatches, when the list is log[k..]. */
  function DispatchAt(rpm: nat, log: seq<int>, k: nat, turn: Turn): (t: int)
    requires rpm > 0 && k <= |log|
  {
    if |log| - k < rpm || log[k] + MINUTE <= turn.waited then turn.waited + turn.late
    else log[k] + MINUTE + 50 + turn.late
  }

  class Window {
    const rpm: nat
    var callTimestamps: seq<int>
    ghost var state: State

    ghost predicate Valid()
      reads this
    {
      rpm > 0 && state.dropped <= |state.log| && callTimestamps == state.log[state.dropped..]
    }

    constructor (rpm: nat)
      requires rpm > 0
      ensures Valid() && this.rpm == rpm && state == State([], 0)
    {
      this.rpm := rpm;
      callTimestamps, state := [], State([], 0);
    }

    /** Forget what is more than a minute old; is there room for one more? */
    method WithinBudget(now: int) returns (free: bool)
      requires Valid()
      modifies this
      ensures Valid() && state == State(old(state.log), FirstKept(old(state.log), old(state.dropped), now - MINUTE))
      ensures free <==> |callTimestamps| < rpm
    {
      while |callTimestamps| > 0 && callTimestamps[0] < now - MINUTE
        invariant Valid() && state.log == old(state.log)
        invariant FirstKept(state.log, state.dropped, now - MINUTE)
                    == FirstKept(state.log, old(state.dropped), now - MINUTE)
        decreases |callTimestamps|
      {
        callTimestamps := callTimestamps[1..];
        state := state.(dropped := state.dropped + 1);
      }
      free := |callTimestamps| < rpm;
    }

    method TimeUntilSlotMs(now: int) returns (wait: nat)
      requires Valid()
      ensures wait == if |callTimestamps| < rpm || callTimestamps[0] + MINUTE <= now then 0
                      else callTimestamps[0] + MINUTE - now
    {
      if |callTimestamps| < rpm {
        return 0;
      }
      var left := callTimestamps[0] + MINUTE - now;
      wait := if left > 0 then left else 0;
    }

    /** One turn of the pump up to its dispatch. */
    method Dispatch(turn: Turn) returns (t: int)
      requires Valid()
      modifies this
      ensures Valid() && state == Next(rpm, old(state), turn) && state.log == old(state.log) + [t]
    {
      var free := WithinBudget(turn.checked);
      t := turn.waited + turn.late;
      if !free {
        var wait := TimeUntilSlotMs(turn.waited);
        if wait > 0 {
          t := t + wait + 50;
        }
      }
      callTimestamps := callTimestamps + [t];
      state := state.(log := state.log + [t]);
    }
  }

  function Next(rpm: nat, s: State, turn: Turn): State
    requires rpm > 0 && s.dropped <= |s.log|
  {
    var k := FirstKept(s.log, s.dropped, turn.checked - MINUTE);
    State(s.log + [DispatchAt(rpm, s.log, k, turn)], k)
  }

  // ---- one turn -------------------------------------------------------------------------------

  /**
   * A turn forgets, from the front, what is more than sixty seconds old at its check. It dispatches as its clock stands
   * when there is room, or the oldest entry it kept is sixty seconds old by then; else fifty milliseconds after it is.
   */
  lemma TurnMeans(rpm: nat, s: State, turn: Turn)
    requires rpm > 0 && s.dropped <= |s.log|
    ensures var s' := Next(rpm, s, turn);
            var k := s'.dropped;
            && s.dropped <= k <= |s.log| && (forall i :: s.dropped <= i < k ==> s.log[i] < turn.checked - 60_000)
            && (k < |s.log| ==> s.log[k] >= turn.checked - 60_000)
            && s'.log == s.log + [if |s.log| - k < rpm || turn.waited - s.log[k] >= 60_000 then turn.waited + turn.late
                                  else s.log[k] + 60_050 + turn.late]
  {
  }

  /** Dispatches are in order and not after `now`; what was forgotten is more than a minute old at `now`. */
  ghost predicate Sound(s: State, now: int) {
    && s.dropped <= |s.log| && Ascending(s.log)
    && (s.log != [] ==> s.log[|s.log| - 1] <= now)
    && (forall i :: 0 <= i < s.dropped ==> s.log[i] < now - MINUTE)
  }

  lemma TurnIsSound(rpm: nat, s: State, now: int, turn: Turn)
    requires rpm > 0 && Sound(s, now) && now <= turn.checked <= turn.waited
    ensures var s' := Next(rpm, s, turn); Sound(s', s'.log[|s.log|]) && turn.checked <= s'.log[|s.log|]
  {
  }

  /**
   * A turn keeps the limit exactly when its list, once pruned, holds no more than `rpm` entries, or its clock, before
   * any pause, is a minute past the entry that counts. A list that long means the oldest entry is a minute old, so the
   * code does not pause; whether the entry that counts is as old it does not ask.
   */
  lemma TurnKeepsLimit(rpm: nat, s: State, now: int, turn: Turn)
    requires rpm > 0 && Sound(s, now) && Spaced(s.log, rpm, MINUTE) && now <= turn.checked <= turn.waited
    ensures Spaced(Next(rpm, s, turn).log, rpm, MINUTE) <==>
              || |s.log| - FirstKept(s.log, s.dropped, turn.checked - MINUTE) <= rpm
              || s.log[|s.log| - rpm] + MINUTE <= turn.waited + turn.late
  {
    var k := FirstKept(s.log, s.dropped, turn.checked - MINUTE);
    OneMore(s.log, rpm, MINUTE, Next(rpm, s, turn).log[|s.log|]);
    if |s.log| - k > rpm {
      LongListIsATie(rpm, s, now, turn.checked);
      var i: nat := |s.log| - 1 - rpm;
      assert s.log[i] + MINUTE <= s.log[i + rpm];
    }
  }

  /** The list can only be that long when the clock has not moved since the last dispatch. */
  lemma LongListIsATie(rpm: nat, s: State, now: int, checked: int)
    requires rpm > 0 && Sound(s, now) && Spaced(s.log, rpm, MINUTE) && now <= checked
    requires |s.log| - FirstKept(s.log, s.dropped, checked - MINUTE) > rpm
    ensures checked == s.log[|s.log| - 1]
  {
    var i: nat := |s.log| - 1 - rpm;
    assert s.log[i] + MINUTE <= s.log[i + rpm];
  }

  // ---- whole runs -----------------------------------------------------------------------------

  /** A run: the state after each turn, starting from nothing, while the clock moves by at least `tick` each time. */
  ghost predicate IsRun(rpm: nat, turns: seq<Turn>, states: seq<State>, tick: nat)
    requires rpm > 0
  {
    && |states| == |turns| + 1 && states[0] == State([], 0)
    && forall k :: 0 <= k < |turns| ==> RunStep(rpm, turns, states, tick, k)
  }

  ghost predicate RunStep(rpm: nat, turns: seq<Turn>, states: seq<State>, tick: nat, k: nat)
    requires rpm > 0 && k < |turns| && |states| == |turns| + 1
  {
    && states[k].dropped <= |states[k].log|
    && states[k + 1] == Next(rpm, states[k], turns[k])
    && turns[k].checked <= turns[k].waited
    && (states[k].log != [] ==> states[k].log[|states[k].log| - 1] + tick <= turns[k].checked)
  }

  ghost predicate Good(rpm: nat, s: State) {
    && (s.log != [] ==> Sound(s, s.log[|s.log| - 1]))
    && (s.log == [] ==> s.dropped == 0)
    && Spaced(s.log, rpm, MINUTE)
  }

  lemma GoodStays(rpm: nat, s: State, turn: Turn)
    requires rpm > 0 && s.dropped <= |s.log| && Good(rpm, s) && turn.checked <= turn.waited
    requires s.log != [] ==> s.log[|s.log| - 1] + 1 <= turn.checked
    ensures Good(rpm, Next(rpm, s, turn))
  {
    var now := if s.log == [] then turn.checked else s.log[|s.log| - 1];
    assert Sound(s, now);
    TurnIsSound(rpm, s, now, turn);
    TurnKeepsLimit(rpm, s, now, turn);
    if |s.log| - FirstKept(s.log, s.dropped, turn.checked - MINUTE) > rpm {
      LongListIsATie(rpm, s, now, turn.checked);
    }
  }

  /**
   * If a millisecond passes between dispatches, any `rpm + 1` consecutive ones span at least a minute, in every run.
   */
  lemma {:induction false} RunKeepsLimit(rpm: nat, turns: seq<Turn>, states: seq<State>, k: nat)
    requires rpm > 0 && IsRun(rpm, turns, states, 1) && k <= |turns|
    ensures |states[k].log| == k && Good(rpm, states[k])
  {
    hide Good;
    if k == 0 {
      GoodAtStart(rpm);
    } else {
      RunKeepsLimit(rpm, turns, states, k - 1);
      assert RunStep(rpm, turns, states, 1, k - 1);
      GoodStays(rpm, states[k - 1], turns[k - 1]);
    }
  }

  lemma GoodAtStart(rpm: nat)
    ensures Good(rpm, State([], 0))
  {
  }

  /** So no minute, wherever it starts, sees more than `rpm` dispatches. */
  lemma NoMinuteOverLimit(rpm: nat, turns: seq<Turn>, states: seq<State>, k: nat, from: int)
    requires rpm > 0 && IsRun(rpm, turns, states, 1) && k <= |turns|
    ensures |InWindow(states[k].log, from, MINUTE)| <= rpm
  {
    RunKeepsLimit(rpm, turns, states, k);
    WindowIsShort(states[k].log, rpm, MINUTE, from);
  }

  // ---- when the clock stands still ------------------------------------------------------------

  /** `rpm` dispatches at 0, and `m` more at 60 000. */
  function Standing(rpm: nat, m: nat): seq<int> {
    seq(rpm + m, i => if i < rpm then 0 else MINUTE)
  }

  function StandingTurn(rpm: nat, k: nat): Turn {
    if k < rpm then Turn(0, 0, 0) else Turn(MINUTE, MINUTE, 0)
  }

  /** The first `k` dispatches of that run; none is ever forgotten. */
  function StandingState(rpm: nat, k: nat): State {
    State(if k <= rpm then seq(k, _ => 0) else Standing(rpm, k - rpm), 0)
  }

  /** Each turn finds the oldest entry exactly a minute old: it keeps it, and does not wait for it. */
  lemma StandingStep(rpm: nat, k: nat)
    requires rpm > 0
    ensures Next(rpm, StandingState(rpm, k), StandingTurn(rpm, k)) == StandingState(rpm, k + 1)
  {
    var s, turn := StandingState(rpm, k), StandingTurn(rpm, k);
    assert FirstKept(s.log, 0, turn.checked - MINUTE) == 0;
    assert Next(rpm, s, turn).log == StandingState(rpm, k + 1).log;
  }

  /**
   * For every limit, while the clock stands still a minute after a full list, every further call is dispatched at
   * once: any number of them in one millisecond.
   */
  lemma StandingClock(rpm: nat, m: nat) returns (turns: seq<Turn>, states: seq<State>)
    requires rpm > 0
    ensures IsRun(rpm, turns, states, 0) && |turns| == rpm + m
    ensures states[rpm + m].log == Standing(rpm, m)
    ensures |InWindow(states[rpm + m].log, MINUTE, MINUTE)| == m
  {
    turns := seq(rpm + m, k requires 0 <= k => StandingTurn(rpm, k));
    states := seq(rpm + m + 1, k requires 0 <= k => StandingState(rpm, k));
    assert StandingState(rpm, 0).log == [];
    forall k | 0 <= k < |turns|
      ensures RunStep(rpm, turns, states, 0, k)
    {
      StandingStep(rpm, k);
    }
    assert states[rpm + m].log == Standing(rpm, m);
    assert InWindow(Standing(rpm, m), MINUTE, MINUTE) == Range(rpm, rpm + m);
  }

  /** In every run whose clock moves by at least `tick` from each dispatch to the next check, the limit is kept. */
  ghost predicate LimitHolds(rpm: nat, tick: nat)
    requires rpm > 0
  {
    forall turns: seq<Turn>, states: seq<State>, k: nat ::
      IsRun(rpm, turns, states, tick) && k <= |turns| ==> Spaced(states[k].log, rpm, MINUTE)
  }

  /** For every limit: it is kept in all runs exactly when no two dispatches share a millisecond. */
  lemma LimitHoldsIff(rpm: nat, tick: nat)
    requires rpm > 0
    ensures LimitHolds(rpm, tick) <==> tick >= 1
  {
    if tick >= 1 {
      forall turns: seq<Turn>, states: seq<State>, k: nat | IsRun(rpm, turns, states, tick) && k <= |turns|
        ensures Spaced(states[k].log, rpm, MINUTE)
      {
        assert IsRun(rpm, turns, states, 1) by {
          forall i | 0 <= i < |turns|
            ensures RunStep(rpm, turns, states, 1, i)
          {
            assert RunStep(rpm, turns, states, tick, i);
          }
        }
        RunKeepsLimit(rpm, turns, states, k);
      }
    } else {
      var turns, states := StandingClock(rpm, rpm + 1);
      var log := states[|turns|].log;
      assert log[rpm] + MINUTE > log[rpm + rpm];
    }
  }
}
