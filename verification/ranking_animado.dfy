/** The animated ranking (`RankingAnimado`): when a non-empty ranking
    arrives the list is shown plainly, three seconds later the first row
    is highlighted, and every `tempoDestaque` milliseconds the highlight
    moves one row down until it reaches the last; `onFinish` is scheduled
    for when every row has had its turn. Timers are not run here: each of
    their callbacks is a method the caller invokes. */
module RankingAnimado {
  import opened Wrappers
  import Ranking

  datatype Fase = Lista | Animar

  /** The delay before the first highlight, in milliseconds. */
  const ListaDelay: int := 3000

  /** The wait `setTimeout` actually applies: a negative delay counts as
      zero. */
  function Delay(d: int): (r: nat)
    ensures d >= 0 ==> r == d
    ensures d < 0 ==> r == 0
  {
    if d < 0 then 0 else d
  }

  /** The component's state: the phase, the highlighted index, the number
      of rows, the highlight period `tempoDestaque`, whether the
      first-highlight timer is pending, when `onFinish` is due (`None` when
      nothing is scheduled), and when the current highlight began. Times
      are in milliseconds, counted from the arrival of the ranking. */
  datatype Anim = Anim(
    fase: Fase,
    destaqueIdx: Option<nat>,
    n: nat,
    td: int,
    firstPending: bool,
    finishAt: Option<int>,
    highlightedAt: int)

  const Initial: Anim := Anim(Lista, None, 0, 10000, false, None, 0)

  /** New ranking data of `n` rows: the previous timers are cancelled; a
      non-empty ranking restarts in the plain list with no highlight and
      schedules the first highlight and the finish; an empty one schedules
      nothing. */
  function Started(s: Anim, n: nat, tempoDestaque: int): (t: Anim)
    ensures t.n == n && t.td == tempoDestaque
    ensures n > 0 ==> t.fase == Lista && t.destaqueIdx.None? && t.firstPending
    ensures n > 0 ==> t.finishAt == Some(Delay(ListaDelay + tempoDestaque * n))
    ensures n == 0 ==> !t.firstPending && t.finishAt.None? && t.fase == s.fase && t.destaqueIdx == s.destaqueIdx
  {
    if n > 0 then Anim(Lista, None, n, tempoDestaque, true, Some(Delay(ListaDelay + tempoDestaque * n)), 0)
    else s.(n := 0, td := tempoDestaque, firstPending := false, finishAt := None)
  }

  /** The first timer, at 3000 ms: the animation phase, with the first row
      highlighted from then on. */
  function FirstTicked(s: Anim): (t: Anim)
    ensures s.firstPending ==> t.fase == Animar && t.destaqueIdx == Some(0) && !t.firstPending
    ensures s.firstPending ==> t.highlightedAt == ListaDelay
    ensures !s.firstPending ==> t == s
    ensures t.n == s.n && t.td == s.td && t.finishAt == s.finishAt
  {
    if s.firstPending then s.(fase := Animar, destaqueIdx := Some(0), firstPending := false, highlightedAt := ListaDelay)
    else s
  }

  /** Whether the step timer is running: in the animation phase, with a
      highlight that has not reached the last row. */
  predicate CanAdvance(s: Anim)
  {
    s.fase == Animar && s.destaqueIdx.Some? && s.destaqueIdx.value < s.n - 1
  }

  /** The step timer, which each change of the highlight sets for one
      period later (at once for a negative period): the highlight moves one
      row down, at that time. */
  function Advanced(s: Anim): (t: Anim)
    ensures CanAdvance(s) ==> t.destaqueIdx == Some(s.destaqueIdx.value + 1)
    ensures CanAdvance(s) ==> t.highlightedAt == s.highlightedAt + Delay(s.td)
    ensures CanAdvance(s) ==> t == s.(destaqueIdx := t.destaqueIdx, highlightedAt := t.highlightedAt)
    ensures !CanAdvance(s) ==> t == s
  {
    if CanAdvance(s) then s.(destaqueIdx := Some(s.destaqueIdx.value + 1), highlightedAt := s.highlightedAt + Delay(s.td))
    else s
  }

  /** Row `i` is highlighted. */
  predicate Highlighted(s: Anim, i: nat)
  {
    s.fase == Animar && s.destaqueIdx == Some(i)
  }

  /** What the steps keep: a highlight exactly in the animation phase, on
      an existing row whenever there are rows, and a pending first timer
      only before the animation of a non-empty ranking. */
  predicate Valid(s: Anim)
  {
    && (s.fase == Animar <==> s.destaqueIdx.Some?)
    && (s.destaqueIdx.Some? && s.n > 0 ==> s.destaqueIdx.value < s.n)
    && (s.firstPending ==> s.n > 0 && s.fase == Lista)
  }

  lemma StepsKeepValid(s: Anim, n: nat, tempoDestaque: int)
    requires Valid(s)
    ensures Valid(Started(s, n, tempoDestaque))
    ensures Valid(FirstTicked(s))
    ensures Valid(Advanced(s))
  {
  }

  /** At most one row is highlighted, and it is a row of the ranking. */
  lemma AtMostOneHighlighted(s: Anim, i: nat, j: nat)
    requires Valid(s) && s.n > 0
    ensures Highlighted(s, i) && Highlighted(s, j) ==> i == j
    ensures Highlighted(s, i) ==> i < s.n
  {
  }

  /** `k` step timers after the first. */
  function AdvancedTimes(s: Anim, k: nat): Anim
    decreases k
  {
    if k == 0 then s else Advanced(AdvancedTimes(s, k - 1))
  }

  function Min(a: nat, b: nat): nat
  {
    if a <= b then a else b
  }

  /** The highlight walks down the rows, one period each: after the first
      timer and `k` step timers it is on row `min(k, n - 1)`, which it took
      at `3000 + min(k, n - 1) * tempoDestaque` (at 3000 for a negative
      period), and there it stays. */
  lemma {:induction false} HighlightAfter(n: nat, tempoDestaque: int, s: Anim, k: nat)
    requires n > 0
    ensures var t := AdvancedTimes(FirstTicked(Started(s, n, tempoDestaque)), k);
            && t.fase == Animar && t.destaqueIdx == Some(Min(k, n - 1)) && t.n == n
            && t.td == tempoDestaque
            && t.highlightedAt == ListaDelay + Min(k, n - 1) * Delay(tempoDestaque)
            && t.finishAt == Some(Delay(ListaDelay + tempoDestaque * n))
    decreases k
  {
    if k > 0 {
      HighlightAfter(n, tempoDestaque, s, k - 1);
      if k - 1 < n - 1 {
        var p := Delay(tempoDestaque);
        assert (k - 1) * p + p == k * p;
      }
    }
  }

  /** Every row but the last keeps the highlight for exactly one period
      (none at all for a negative period): the next row takes it that much
      later. */
  lemma EveryRowOnePeriod(n: nat, tempoDestaque: int, s: Anim, i: nat)
    requires i < n - 1
    ensures var start := FirstTicked(Started(s, n, tempoDestaque));
            && AdvancedTimes(start, i).destaqueIdx == Some(i)
            && AdvancedTimes(start, i + 1).destaqueIdx == Some(i + 1)
            && AdvancedTimes(start, i + 1).highlightedAt == AdvancedTimes(start, i).highlightedAt + Delay(tempoDestaque)
  {
    HighlightAfter(n, tempoDestaque, s, i);
    HighlightAfter(n, tempoDestaque, s, i + 1);
    var p := Delay(tempoDestaque);
    assert i * p + p == (i + 1) * p;
  }

  /** The last row is reached after `n - 1` steps and no further step is
      scheduled. With a period of zero or more, `onFinish` is due exactly
      one period after the last row took the highlight, so the last row,
      too, is highlighted for one full period. With a negative period every
      step fires at 3000 ms and `onFinish` is due no later than that. */
  lemma LastRowGetsItsTurn(n: nat, tempoDestaque: int, s: Anim)
    requires n > 0
    ensures var t := AdvancedTimes(FirstTicked(Started(s, n, tempoDestaque)), n - 1);
            && t.destaqueIdx == Some(n - 1)
            && !CanAdvance(t)
            && t.highlightedAt == ListaDelay + (n - 1) * Delay(tempoDestaque)
            && (tempoDestaque >= 0 ==> t.finishAt == Some(t.highlightedAt + tempoDestaque))
            && (tempoDestaque < 0 ==> t.highlightedAt == ListaDelay && t.finishAt.Some? && t.finishAt.value <= ListaDelay)
  {
    HighlightAfter(n, tempoDestaque, s, n - 1);
    FinishArithmetic(tempoDestaque, n);
  }

  /** When `onFinish` is due against when the last row is highlighted. */
  lemma FinishArithmetic(d: int, n: nat)
    requires n > 0
    ensures d >= 0 ==> Delay(ListaDelay + d * n) == ListaDelay + (n - 1) * Delay(d) + d
    ensures d < 0 ==> ListaDelay + (n - 1) * Delay(d) == ListaDelay && Delay(ListaDelay + d * n) <= ListaDelay
  {
    if d >= 0 {
      assert d * n == (n - 1) * d + d;
    } else {
      assert d * n <= d * 1;
    }
  }

  /** Whether the `onFinish` prop keeps its identity from one render to
      the next. The default `() => {}` is a new function at every render,
      so a caller that leaves the prop out gets `NewEachRender`. */
  datatype FinishProp = SameEachRender | NewEachRender

  /** The render that follows a state change. The first effect lists
      `onFinish` among its dependencies, so a new `onFinish` runs it again:
      the timers are cancelled and the ranking restarts in the plain list. */
  function Rendered(s: Anim, finish: FinishProp): (t: Anim)
    ensures finish == SameEachRender ==> t == s
    ensures finish == NewEachRender && s.n > 0 ==> t.fase == Lista && t.destaqueIdx.None? && t.firstPending
  {
    if finish == NewEachRender then Started(s, s.n, s.td) else s
  }

  datatype Timer = FirstTimer | StepTimer

  /** A timer fires while it is pending, changes the state, and the
      component renders again. */
  function TimerFired(s: Anim, e: Timer, finish: FinishProp): Anim
  {
    match e
    case FirstTimer => if s.firstPending then Rendered(FirstTicked(s), finish) else s
    case StepTimer => if CanAdvance(s) then Rendered(Advanced(s), finish) else s
  }

  /** The state after the timers `evs` fire, in order. */
  function Fired(s: Anim, evs: seq<Timer>, finish: FinishProp): Anim
    decreases |evs|
  {
    if evs == [] then s else TimerFired(Fired(s, evs[..|evs| - 1], finish), evs[|evs| - 1], finish)
  }

  /** As written, without an `onFinish` from the caller: whatever timers
      fire, the board is back in the plain list with no highlight, so the
      highlight never gets past the first row; and with a positive period
      the finish is due after the first timer, which restarts everything,
      so `onFinish` never runs. */
  lemma {:induction false} DefaultFinishRestarts(s: Anim, n: nat, tempoDestaque: int, evs: seq<Timer>)
    requires n > 0
    ensures Fired(Started(s, n, tempoDestaque), evs, NewEachRender) == Started(s, n, tempoDestaque)
    ensures var t := Fired(Started(s, n, tempoDestaque), evs, NewEachRender);
            && t.fase == Lista && t.destaqueIdx.None?
            && (tempoDestaque > 0 ==> t.finishAt.Some? && t.finishAt.value > ListaDelay)
    decreases |evs|
  {
    var t := Started(s, n, tempoDestaque);
    if evs != [] {
      DefaultFinishRestarts(s, n, tempoDestaque, evs[..|evs| - 1]);
      assert Started(FirstTicked(t), n, tempoDestaque) == t;
    }
    if tempoDestaque > 0 {
      assert tempoDestaque * n >= 1 * n;
    }
  }

  /** `k` step timers. */
  function Steps(k: nat): (evs: seq<Timer>)
    ensures |evs| == k
  {
    seq(k, _ => StepTimer)
  }

  /** With an `onFinish` that keeps its identity, a render changes nothing,
      so the timers step the animation as `HighlightAfter` and
      `LastRowGetsItsTurn` describe: after the first timer and `k` step
      timers the highlight is on row `min(k, n - 1)`. */
  lemma StableFinishWalks(n: nat, tempoDestaque: int, s: Anim, k: nat)
    requires n > 0
    ensures var start := Fired(Started(s, n, tempoDestaque), [FirstTimer], SameEachRender);
            && start == FirstTicked(Started(s, n, tempoDestaque))
            && Fired(start, Steps(k), SameEachRender) == AdvancedTimes(start, k)
            && Fired(start, Steps(k), SameEachRender).destaqueIdx == Some(Min(k, n - 1))
  {
    var start := FirstTicked(Started(s, n, tempoDestaque));
    assert [FirstTimer][..0] == [];
    StepsAdvance(start, k);
    HighlightAfter(n, tempoDestaque, s, k);
  }

  lemma {:induction false} StepsAdvance(s: Anim, k: nat)
    ensures Fired(s, Steps(k), SameEachRender) == AdvancedTimes(s, k)
    decreases k
  {
    if k > 0 {
      assert Steps(k)[..k - 1] == Steps(k - 1);
      StepsAdvance(s, k - 1);
    }
  }

  /** The component. */
  class Highlighter {
    var fase: Fase
    var destaqueIdx: Option<nat>
    var n: nat
    var td: int
    var firstPending: bool
    var finishAt: Option<int>
    var highlightedAt: int

    function State(): Anim
      reads this
    {
      Anim(fase, destaqueIdx, n, td, firstPending, finishAt, highlightedAt)
    }

    constructor()
      ensures State() == Initial
    {
      fase := Lista;
      destaqueIdx := None;
      n := 0;
      td := 10000;
      firstPending := false;
      finishAt := None;
      highlightedAt := 0;
    }

    /** The effect on new ranking data. */
    method Start(rows: nat, tempoDestaque: int)
      modifies this
      ensures State() == Started(old(State()), rows, tempoDestaque)
    {
      n := rows;
      td := tempoDestaque;
      firstPending := false;
      finishAt := None;
      if rows > 0 {
        fase := Lista;
        destaqueIdx := None;
        firstPending := true;
        finishAt := Some(Delay(ListaDelay + tempoDestaque * rows));
        highlightedAt := 0;
      }
    }

    /** The first timer fires. */
    method FirstTick()
      modifies this
      ensures State() == FirstTicked(old(State()))
    {
      if firstPending {
        fase := Animar;
        destaqueIdx := Some(0);
        firstPending := false;
        highlightedAt := ListaDelay;
      }
    }

    /** The step timer fires. */
    method Advance()
      modifies this
      ensures State() == Advanced(old(State()))
    {
      if fase == Animar && destaqueIdx.Some? && destaqueIdx.value < n - 1 {
        destaqueIdx := Some(destaqueIdx.value + 1);
        highlightedAt := highlightedAt + Delay(td);
      }
    }

    /** How row `i` is drawn: its position label, and whether it is the
        highlighted one. */
    function RowOf(i: nat): (r: (Ranking.PositionLabel, bool))
      reads this
      ensures r.0 == Ranking.RenderPosicao(i)
      ensures r.1 <==> Highlighted(State(), i)
    {
      (Ranking.RenderPosicao(i), fase == Animar && destaqueIdx == Some(i))
    }
  }
}
