/** The problem-solving page: the anti-cheat cooldown lock
    (`useCooldownLock`), the four global listeners that feed it, the gates
    it puts on the solution form and the "Resolver" buttons, and the inline
    submit handler. */
module ProblemsPage {
  import opened Js
  import opened Types
  import Api

  /** The page asks for a ten-second lock. */
  const LockSeconds := 10

  // ---------------------------------------------------------------------
  // The lock as a state machine

  /** `locked`, `secondsLeft`, and whether `timerRef` holds a live interval. */
  datatype LockState = LockState(locked: bool, secondsLeft: int, pending: bool)

  const Unlocked := LockState(false, 0, false)

  /** The lock is on exactly while an interval is pending, and an idle lock
      shows no seconds. */
  predicate Consistent(s: LockState)
  {
    (s.locked <==> s.pending) && (!s.locked ==> s.secondsLeft == 0)
  }

  /** `triggerLock(seconds)`. */
  function Triggered(s: LockState, seconds: int): LockState
  {
    if s.locked then s else LockState(true, seconds, true)
  }

  /** One second elapses: the interval callback runs if an interval is pending. */
  function Ticked(s: LockState): LockState
  {
    if !s.pending then s
    else if s.secondsLeft <= 1 then Unlocked
    else s.(secondsLeft := s.secondsLeft - 1)
  }

  function AfterTicks(s: LockState, k: nat): LockState
    decreases k
  {
    if k == 0 then s else AfterTicks(Ticked(s), k - 1)
  }

  lemma TriggerAndTickKeepConsistent(s: LockState, seconds: int)
    requires Consistent(s)
    ensures Consistent(Triggered(s, seconds)) && Consistent(Ticked(s))
  {
  }

  /** Triggering while locked neither resets nor extends the countdown;
      triggering while idle locks for exactly the requested seconds. */
  lemma TriggerRule(s: LockState, seconds: int)
    requires Consistent(s)
    ensures s.locked ==> Triggered(s, seconds) == s
    ensures !s.locked ==> Triggered(s, seconds) == LockState(true, seconds, true)
  {
  }

  /** From a fresh lock of `n` seconds, `k < n` ticks leave `n - k` seconds
      on the clock, and the `n`-th tick unlocks and cancels the interval. */
  lemma {:induction false} Countdown(n: int, k: nat)
    requires 1 <= n && k <= n
    ensures AfterTicks(LockState(true, n, true), k)
         == if k < n then LockState(true, n - k, true) else Unlocked
  {
    if k > 0 {
      if n == 1 {
        assert Ticked(LockState(true, n, true)) == Unlocked;
        assert AfterTicks(Unlocked, k - 1) == Unlocked by { IdleStaysIdle(k - 1); }
      } else {
        assert Ticked(LockState(true, n, true)) == LockState(true, n - 1, true);
        Countdown(n - 1, k - 1);
      }
    }
  }

  /** Ticks do nothing to an idle lock: there is no interval to fire. */
  lemma {:induction false} IdleStaysIdle(k: nat)
    ensures AfterTicks(Unlocked, k) == Unlocked
  {
    if k > 0 {
      IdleStaysIdle(k - 1);
    }
  }

  // ---------------------------------------------------------------------
  // The four detectors

  /** A DOM event the page listens to; `hidden` is `document.hidden` when
      the visibility change is handled. */
  datatype Event =
    | Paste
    | KeyDown(key: string, ctrlKey: bool, metaKey: bool)
    | VisibilityChange(hidden: bool)
    | WindowBlur

  predicate IsPasteShortcut(e: Event)
  {
    e.KeyDown? && (e.ctrlKey || e.metaKey) && (e.key == "v" || e.key == "V")
  }

  /** The listeners call `preventDefault` on pastes and on the paste shortcut. */
  predicate SuppressesDefault(e: Event)
  {
    e.Paste? || IsPasteShortcut(e)
  }

  /** The listeners call `triggerLock` on these events. */
  predicate IsInfraction(e: Event)
  {
    e.Paste? || IsPasteShortcut(e) || (e.VisibilityChange? && e.hidden) || e.WindowBlur?
  }

  function AfterEvent(s: LockState, e: Event): LockState
  {
    if IsInfraction(e) then Triggered(s, LockSeconds) else s
  }

  function AfterEvents(s: LockState, es: seq<Event>): LockState
    decreases es
  {
    if es == [] then s else AfterEvents(AfterEvent(s, es[0]), es[1..])
  }

  /** The four channels feed one trigger: each of them moves an idle lock to
      the same ten-second lock, `v` or `V` with Ctrl, Meta or both included,
      while other keys and a page becoming visible do nothing, and only
      pastes and the shortcut suppress the default. */
  lemma FourChannelsOneLock(s: LockState, key: string, ctrl: bool, meta: bool)
    requires Consistent(s) && !s.locked
    ensures var locked10 := LockState(true, LockSeconds, true);
      AfterEvent(s, Paste) == locked10
      && ((key == "v" || key == "V") && (ctrl || meta) ==> AfterEvent(s, KeyDown(key, ctrl, meta)) == locked10)
      && AfterEvent(s, VisibilityChange(true)) == locked10
      && AfterEvent(s, WindowBlur) == locked10
      && AfterEvent(s, VisibilityChange(false)) == s
      && ((key != "v" && key != "V") || (!ctrl && !meta) ==> AfterEvent(s, KeyDown(key, ctrl, meta)) == s)
    ensures forall e :: SuppressesDefault(e) ==> IsInfraction(e)
    ensures !SuppressesDefault(VisibilityChange(true)) && !SuppressesDefault(WindowBlur)
  {
  }

  /** Lockouts do not stack: no run of events changes a running lock. */
  lemma {:induction false} NoStacking(s: LockState, es: seq<Event>)
    requires s.locked
    ensures AfterEvents(s, es) == s
  {
    if es != [] {
      NoStacking(AfterEvent(s, es[0]), es[1..]);
    }
  }

  // ---------------------------------------------------------------------
  // Gates

  /** `showSolution && selectedProblem && !locked` */
  predicate FormShown(showSolution: bool, selected: Option<Problema>, locked: bool)
  {
    showSolution && selected.Some? && !locked
  }

  /** `disabled={showSolution || locked}` */
  predicate ResolverDisabled(showSolution: bool, locked: bool)
  {
    showSolution || locked
  }

  /** While a lock counts down the form is hidden and "Resolver" disabled,
      and the form is back exactly when the last tick unlocks. */
  lemma LockGatesForm(showSolution: bool, selected: Option<Problema>, n: int, k: nat)
    requires 1 <= n && k <= n
    ensures var s := AfterTicks(LockState(true, n, true), k);
      (k < n ==> !FormShown(showSolution, selected, s.locked) && ResolverDisabled(showSolution, s.locked))
      && (k == n ==> (FormShown(showSolution, selected, s.locked) <==> showSolution && selected.Some?)
                     && (ResolverDisabled(showSolution, s.locked) <==> showSolution))
  {
    Countdown(n, k);
  }

  // ---------------------------------------------------------------------
  // The hook

  /** `useCooldownLock(defaultSeconds)`, together with the window intervals
      it has started: `intervals` holds the live ones, `nextId` the id
      `setInterval` hands out next. */
  class CooldownLock {
    const defaultSeconds: int
    var locked: bool
    var secondsLeft: int
    var timerRef: Option<nat>
    var intervals: set<nat>
    var nextId: nat
    var mounted: bool

    ghost predicate Valid()
      reads this
    {
      nextId >= 1
      && (timerRef.Some? ==> 1 <= timerRef.value < nextId)
      && (locked <==> timerRef.Some?)
      && (!locked ==> secondsLeft == 0)
      && intervals == (if mounted && timerRef.Some? then {timerRef.value} else {})
    }

    function State(): LockState
      reads this
    {
      LockState(locked, secondsLeft, timerRef.Some?)
    }

    constructor (defaultSeconds: int)
      ensures Valid() && mounted && State() == Unlocked && intervals == {}
      ensures this.defaultSeconds == defaultSeconds
    {
      this.defaultSeconds := defaultSeconds;
      locked, secondsLeft, timerRef := false, 0, None;
      intervals, nextId, mounted := {}, 1, true;
    }

    /** `triggerLock(seconds)`: a no-op while locked; otherwise locks and
        starts exactly one interval. */
    method Trigger(seconds: int)
      requires Valid() && mounted
      modifies this
      ensures Valid() && mounted && Consistent(State())
      ensures State() == Triggered(old(State()), seconds)
      ensures old(locked) ==> intervals == old(intervals) && timerRef == old(timerRef)
      ensures !old(locked) ==> old(intervals) == {} && intervals == {old(nextId)} && timerRef == Some(old(nextId))
    {
      if locked {
        return;
      }
      locked := true;
      secondsLeft := seconds;
      var id := nextId;
      nextId := nextId + 1;
      intervals := intervals + {id};
      timerRef := Some(id);
    }

    /** One second elapses; the interval, if live, runs its callback. */
    method Tick()
      requires Valid()
      modifies this
      ensures Valid() && mounted == old(mounted)
      ensures mounted ==> State() == Ticked(old(State()))
      ensures !mounted ==> State() == old(State())
      ensures mounted && old(locked) && old(secondsLeft) <= 1 ==> intervals == {} && timerRef == None
    {
      if timerRef.Some? && timerRef.value in intervals {
        if secondsLeft <= 1 {
          intervals := intervals - {timerRef.value};
          timerRef := None;
          locked := false;
          secondsLeft := 0;
        } else {
          secondsLeft := secondsLeft - 1;
        }
      }
    }

    /** The unmount cleanup: cancels any pending interval, locked or not. */
    method Unmount()
      requires Valid()
      modifies this
      ensures Valid() && !mounted && intervals == {}
      ensures State() == old(State())
    {
      if timerRef.Some? {
        intervals := intervals - {timerRef.value};
      }
      mounted := false;
    }
  }

  // ---------------------------------------------------------------------
  // The page

  const InitialCode := "// escreva seu código abaixo:\n"
  const ResetCode := "// comece o código abaixo:"
  const MissingRaError := "Por favor, insira seu RA antes de enviar."
  const SubmitError := "Erro ao submeter solução"
  const LoadError := "Erro ao carregar problemas"

  function SuccessMessage(p: Problema): string
  {
    "Boa, vc concluiu o desafio " + p.titulo + " e ganhou " + NumberToString(p.pontos) + " pontos!"
  }

  class ProblemsPage {
    const lock: CooldownLock
    var problemas: seq<Problema>
    var selectedProblem: Option<Problema>
    var showSolution: bool
    var loading: bool
    var error: string
    var success: string
    var codigo: string
    var ra: string
    var calls: seq<Api.Endpoint>

    ghost predicate Valid()
      reads this, lock
    {
      lock.Valid() && lock.defaultSeconds == LockSeconds
    }

    /** The page as first rendered, with its ten-second lock idle. */
    constructor ()
      ensures Valid() && fresh(lock) && lock.mounted && lock.State() == Unlocked
      ensures problemas == [] && selectedProblem == None && !showSolution && loading
      ensures error == "" && success == "" && codigo == InitialCode && ra == "" && calls == []
    {
      lock := new CooldownLock(LockSeconds);
      problemas, selectedProblem, showSolution, loading := [], None, false, true;
      error, success, codigo, ra, calls := "", "", InitialCode, "", [];
    }

    /** The mount effect `fetchProblemas`; `reply` is how `listarProblemas` settles. */
    method FetchProblemas(reply: Settled<seq<Problema>>)
      modifies this
      ensures calls == old(calls) + [Api.ListarProblemas] && !loading
      ensures reply.Fulfilled? ==> problemas == reply.value && error == old(error)
      ensures reply.Rejected? ==> problemas == old(problemas) && error == LoadError
      ensures selectedProblem == old(selectedProblem) && showSolution == old(showSolution)
      ensures success == old(success) && codigo == old(codigo) && ra == old(ra)
    {
      calls := calls + [Api.ListarProblemas];
      match reply {
        case Fulfilled(ps) =>
          problemas := ps;
        case Rejected(_) =>
          error := LoadError;
      }
      loading := false;
    }

    /** One of the global listeners handles `e`. */
    method HandleEvent(e: Event) returns (defaultPrevented: bool)
      requires Valid() && lock.mounted
      modifies lock
      ensures Valid() && lock.mounted
      ensures lock.State() == AfterEvent(old(lock.State()), e)
      ensures defaultPrevented == SuppressesDefault(e)
    {
      defaultPrevented := false;
      match e
      case Paste =>
        defaultPrevented := true;
        lock.Trigger(lock.defaultSeconds);
      case KeyDown(key, ctrl, meta) =>
        if (ctrl || meta) && (key == "v" || key == "V") {
          defaultPrevented := true;
          lock.Trigger(lock.defaultSeconds);
        }
      case VisibilityChange(hidden) =>
        if hidden {
          lock.Trigger(lock.defaultSeconds);
        }
      case WindowBlur =>
        lock.Trigger(lock.defaultSeconds);
    }

    function SolutionFormShown(): bool
      reads this, lock
    {
      FormShown(showSolution, selectedProblem, lock.locked)
    }

    /** A click on the "Resolver" button of problem `p`; a disabled button ignores it. */
    method ClickResolver(p: Problema)
      modifies this
      ensures ResolverDisabled(old(showSolution), lock.locked) ==>
        selectedProblem == old(selectedProblem) && showSolution == old(showSolution) && error == old(error)
      ensures !ResolverDisabled(old(showSolution), lock.locked) ==>
        selectedProblem == Some(p) && showSolution && error == ""
      ensures problemas == old(problemas) && success == old(success) && codigo == old(codigo)
      ensures ra == old(ra) && calls == old(calls) && loading == old(loading)
    {
      if !(showSolution || lock.locked) {
        selectedProblem := Some(p);
        showSolution := true;
        error := "";
      }
    }

    /** The RA input's `onChange`. */
    method EditRa(value: string)
      modifies this`ra
      ensures ra == value
    {
      ra := value;
    }

    /** The editor's `onChange`: `value || ""`. */
    method EditCode(value: Option<string>)
      modifies this`codigo
      ensures codigo == OrElse(value, "")
    {
      codigo := if value.Some? then value.value else "";
    }

    /** The "Enviar Solução" click; `reply` is how `criarSubmissao` would settle. */
    method SubmitSolution(reply: Settled<Submission>)
      requires SolutionFormShown()
      modifies this
      ensures old(ra) == "" ==>
        error == MissingRaError && calls == old(calls) && success == old(success)
        && showSolution == old(showSolution) && selectedProblem == old(selectedProblem)
        && ra == old(ra) && codigo == old(codigo)
      ensures old(ra) != "" ==>
        calls == old(calls) + [Api.CriarSubmissao(old(selectedProblem).value.id, old(codigo), Some(old(ra)))]
      ensures old(ra) != "" && reply.Fulfilled? ==>
        success == SuccessMessage(old(selectedProblem).value) && !showSolution && selectedProblem == None
        && ra == "" && codigo == ResetCode && error == old(error)
      ensures old(ra) != "" && reply.Rejected? ==>
        error == OrElse(MessageOf(reply.reason), SubmitError) && success == old(success)
        && showSolution == old(showSolution) && selectedProblem == old(selectedProblem)
        && ra == old(ra) && codigo == old(codigo)
      ensures problemas == old(problemas) && loading == old(loading)
    {
      if ra == "" {
        error := MissingRaError;
        return;
      }
      var p := selectedProblem.value;
      calls := calls + [Api.CriarSubmissao(p.id, codigo, Some(ra))];
      match reply
      case Fulfilled(_) =>
        success := SuccessMessage(p);
        showSolution := false;
        selectedProblem := None;
        ra := "";
        codigo := ResetCode;
      case Rejected(r) =>
        error := OrElse(MessageOf(r), SubmitError);
    }

    /** Leaving the page: the lock's cleanup cancels its interval. */
    method Unmount()
      requires Valid()
      modifies lock
      ensures Valid() && !lock.mounted && lock.intervals == {}
    {
      lock.Unmount();
    }
  }
}
