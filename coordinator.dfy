/** The local-model coordinator: one arbiter per page session that decides
    which of two in-browser consumers (the page translator and the chatbot)
    may hold the local inference resource, and tells them so through
    `model-coordinator` window events.

    The pure functions below are the specification of each transition; the
    class `Coordinator` is the stateful provider whose methods are proved to
    perform exactly those transitions. Window events are an append-only log;
    events scheduled with `setTimeout(…, 100)` wait in `pending` until a timer
    fires (`FireTimer`), so only the order of events is modelled, not time. */
module ModelCoordinator {
  import opened Wrappers

  /** `activeModel`. */
  datatype ActiveModel = NoModel | Preloading | Translator | Chatbot

  /** The `detail.action` of a `model-coordinator` window event. */
  datatype Action = ActivateTranslator | DisposeTranslator | ActivateChatbot | DisposeChatbot

  /** The string the event carries. */
  function ActionName(a: Action): string
  {
    match a
    case ActivateTranslator => "activate-translator"
    case DisposeTranslator => "dispose-translator"
    case ActivateChatbot => "activate-chatbot"
    case DisposeChatbot => "dispose-chatbot"
  }

  /** How the background preload ends: both tokenizers downloaded, or the
      download of the translator's (first) or the chatbot's (second) failed. */
  datatype PreloadOutcome = BothLoaded | TranslatorTokenizerFailed | ChatbotTokenizerFailed

  datatype CoordinatorState = CoordinatorState(
    hasEnoughRAM: bool,
    ramGB: real,
    activeModel: ActiveModel,
    preloadComplete: bool,
    translatorPreloaded: bool,
    chatbotPreloaded: bool,
    events: seq<Action>,   // window events dispatched so far, oldest first
    pending: seq<Action>   // events waiting on a 100 ms timer, in firing order
  )

  /** The provider as first rendered. */
  function Initial(): CoordinatorState
  {
    CoordinatorState(false, 0.0, NoModel, false, false, false, [], [])
  }

  /** `checkRAM` as shipped: it records `navigator.deviceMemory || 0` and keeps
      local models off whatever the memory (translation is disabled). */
  function CheckRam(s: CoordinatorState, deviceMemory: Option<real>): CoordinatorState
  {
    s.(ramGB := deviceMemory.GetOr(0.0), hasEnoughRAM := false, activeModel := NoModel)
  }

  /** The guard of the preload effect. */
  predicate PreloadRuns(s: CoordinatorState)
  {
    s.hasEnoughRAM && !s.preloadComplete
  }

  /** `preloadModels`, taken as one step that ends with `outcome`. */
  function Preload(s: CoordinatorState, outcome: PreloadOutcome): CoordinatorState
  {
    if !PreloadRuns(s) then s
    else match outcome
      case BothLoaded =>
        s.(translatorPreloaded := true, chatbotPreloaded := true, preloadComplete := true,
           activeModel := Translator, events := s.events + [ActivateTranslator])
      case TranslatorTokenizerFailed =>
        s.(hasEnoughRAM := false, activeModel := NoModel)
      case ChatbotTokenizerFailed =>
        s.(translatorPreloaded := true, hasEnoughRAM := false, activeModel := NoModel)
  }

  /** `requestSwitchToChatbot`: dispose the translator now, activate the
      chatbot when the timer fires. */
  function SwitchToChatbot(s: CoordinatorState): CoordinatorState
  {
    if !s.hasEnoughRAM then s
    else s.(activeModel := Chatbot, events := s.events + [DisposeTranslator],
            pending := s.pending + [ActivateChatbot])
  }

  /** `requestSwitchToTranslator`: the mirror image of `SwitchToChatbot`. */
  function SwitchToTranslator(s: CoordinatorState): CoordinatorState
  {
    if !s.hasEnoughRAM then s
    else s.(activeModel := Translator, events := s.events + [DisposeChatbot],
            pending := s.pending + [ActivateTranslator])
  }

  /** The earliest pending timer fires and dispatches its event. */
  function FireTimer(s: CoordinatorState): CoordinatorState
  {
    if s.pending == [] then s
    else s.(events := s.events + [s.pending[0]], pending := s.pending[1..])
  }

  /** Anything that can happen to the coordinator. */
  datatype Op =
    | CheckRamOp(deviceMemory: Option<real>)
    | PreloadOp(outcome: PreloadOutcome)
    | SwitchToChatbotOp
    | SwitchToTranslatorOp
    | TimerOp

  function Step(s: CoordinatorState, op: Op): CoordinatorState
  {
    match op
    case CheckRamOp(m) => CheckRam(s, m)
    case PreloadOp(o) => Preload(s, o)
    case SwitchToChatbotOp => SwitchToChatbot(s)
    case SwitchToTranslatorOp => SwitchToTranslator(s)
    case TimerOp => FireTimer(s)
  }

  function Run(s: CoordinatorState, ops: seq<Op>): CoordinatorState
    decreases |ops|
  {
    if ops == [] then s else Run(Step(s, ops[0]), ops[1..])
  }

  /** `n` timers fire in a row. */
  function FireTimers(s: CoordinatorState, n: nat): CoordinatorState
    decreases n
  {
    if n == 0 then s else FireTimers(FireTimer(s), n - 1)
  }

  // ---------------------------------------------------------------------
  // Properties of the transitions

  /** Once local models are off (as the shipped RAM check leaves them), nothing
      the session does turns them on, changes the active model or dispatches
      an event. */
  lemma {:induction false} WithoutRamNothingHappens(s: CoordinatorState, ops: seq<Op>)
    requires !s.hasEnoughRAM && s.activeModel == NoModel && s.pending == []
    decreases |ops|
    ensures !Run(s, ops).hasEnoughRAM
    ensures Run(s, ops).activeModel == NoModel
    ensures Run(s, ops).events == s.events && Run(s, ops).pending == []
    ensures Run(s, ops).preloadComplete == s.preloadComplete
  {
    if ops != [] {
      WithoutRamNothingHappens(Step(s, ops[0]), ops[1..]);
    }
  }

  /** The shipped provider never dispatches a coordinator event and never
      activates a local model, whatever happens after mounting. */
  lemma ShippedProviderStaysRemote(deviceMemory: Option<real>, ops: seq<Op>)
    ensures Run(CheckRam(Initial(), deviceMemory), ops).events == []
    ensures Run(CheckRam(Initial(), deviceMemory), ops).activeModel == NoModel
  {
    WithoutRamNothingHappens(CheckRam(Initial(), deviceMemory), ops);
  }

  /** A switch request dispatches the dispose event at once and the activate
      event only after every timer already pending has fired. */
  lemma {:induction false} FireTimersDrains(s: CoordinatorState, n: nat)
    requires n <= |s.pending|
    decreases n
    ensures FireTimers(s, n) == s.(events := s.events + s.pending[..n], pending := s.pending[n..])
  {
    if n > 0 {
      var t := FireTimer(s);
      FireTimersDrains(t, n - 1);
      assert s.pending[..n] == [s.pending[0]] + t.pending[..n - 1];
      assert t.pending[n - 1..] == s.pending[n..];
    }
  }

  lemma SwitchToChatbotDisposesFirst(s: CoordinatorState)
    requires s.hasEnoughRAM
    ensures SwitchToChatbot(s).activeModel == Chatbot
    ensures FireTimers(SwitchToChatbot(s), |s.pending| + 1).events
            == s.events + [DisposeTranslator] + s.pending + [ActivateChatbot]
    ensures FireTimers(SwitchToChatbot(s), |s.pending| + 1).pending == []
  {
    var t := SwitchToChatbot(s);
    FireTimersDrains(t, |t.pending|);
    assert t.pending[..|t.pending|] == s.pending + [ActivateChatbot];
  }

  lemma SwitchToTranslatorDisposesFirst(s: CoordinatorState)
    requires s.hasEnoughRAM
    ensures SwitchToTranslator(s).activeModel == Translator
    ensures FireTimers(SwitchToTranslator(s), |s.pending| + 1).events
            == s.events + [DisposeChatbot] + s.pending + [ActivateTranslator]
    ensures FireTimers(SwitchToTranslator(s), |s.pending| + 1).pending == []
  {
    var t := SwitchToTranslator(s);
    FireTimersDrains(t, |t.pending|);
    assert t.pending[..|t.pending|] == s.pending + [ActivateTranslator];
  }

  /** Without enough RAM a switch request changes nothing and emits nothing. */
  lemma {:induction false} SwitchWithoutRamIsIgnored(s: CoordinatorState, ops: seq<Op>)
    requires !s.hasEnoughRAM
    requires forall k :: 0 <= k < |ops| ==> ops[k] == SwitchToChatbotOp || ops[k] == SwitchToTranslatorOp
    decreases |ops|
    ensures Run(s, ops) == s
  {
    if ops != [] {
      SwitchWithoutRamIsIgnored(Step(s, ops[0]), ops[1..]);
    }
  }

  /** After a failed preload the guard stays shut: no later preload, of any
      outcome, changes the state. */
  lemma PreloadFailureIsFinal(s: CoordinatorState, first: PreloadOutcome, later: PreloadOutcome)
    requires PreloadRuns(s) && first != BothLoaded
    ensures !PreloadRuns(Preload(s, first))
    ensures Preload(s, first).activeModel == NoModel
    ensures Preload(Preload(s, first), later) == Preload(s, first)
  {
  }

  /** A successful preload marks both tokenizers, completes, makes the
      translator active and dispatches exactly one `activate-translator`. */
  lemma PreloadSuccess(s: CoordinatorState)
    requires PreloadRuns(s)
    ensures var t := Preload(s, BothLoaded);
      t.translatorPreloaded && t.chatbotPreloaded && t.preloadComplete
      && t.activeModel == Translator && t.events == s.events + [ActivateTranslator]
      && !PreloadRuns(t)
  {
  }

  // ---------------------------------------------------------------------
  // Every activation follows its own disposal

  function Count(xs: seq<Action>, a: Action): nat
  {
    if xs == [] then 0 else Count(xs[..|xs| - 1], a) + (if xs[|xs| - 1] == a then 1 else 0)
  }

  lemma {:induction false} CountAppend(xs: seq<Action>, ys: seq<Action>, a: Action)
    decreases |ys|
    ensures Count(xs + ys, a) == Count(xs, a) + Count(ys, a)
  {
    if ys != [] {
      var zs := ys[..|ys| - 1];
      CountAppend(xs, zs, a);
      assert (xs + ys)[..|xs + ys| - 1] == xs + zs;
      assert (xs + ys)[|xs + ys| - 1] == ys[|ys| - 1];
      assert Count(ys, a) == Count(zs, a) + (if ys[|ys| - 1] == a then 1 else 0);
      assert Count(xs + ys, a) == Count(xs + zs, a) + (if ys[|ys| - 1] == a then 1 else 0);
    } else {
      assert xs + ys == xs;
    }
  }

  lemma {:induction false} CountPositive(xs: seq<Action>, a: Action) returns (j: nat)
    requires Count(xs, a) > 0
    decreases |xs|
    ensures j < |xs| && xs[j] == a
  {
    if xs[|xs| - 1] == a {
      j := |xs| - 1;
    } else {
      j := CountPositive(xs[..|xs| - 1], a);
    }
  }

  /** In every prefix of `events`, the activations `act` are at most the
      disposals `disp` plus `allowance`, and so are the activations already
      dispatched or still waiting on a timer. */
  predicate Paired(events: seq<Action>, pending: seq<Action>, act: Action, disp: Action, allowance: nat)
  {
    (forall n :: 0 <= n <= |events| ==> Count(events[..n], act) <= Count(events[..n], disp) + allowance)
    && Count(events, act) + Count(pending, act) <= Count(events, disp) + allowance
  }

  /** The coordinator's invariant: every `activate-chatbot` is matched by an
      earlier `dispose-translator`; every `activate-translator` by an earlier
      `dispose-chatbot`, except the single one a completed preload sends. */
  predicate Valid(s: CoordinatorState)
  {
    Paired(s.events, s.pending, ActivateChatbot, DisposeTranslator, 0)
    && Paired(s.events, s.pending, ActivateTranslator, DisposeChatbot, if s.preloadComplete then 1 else 0)
  }

  lemma PrefixOfAppend(events: seq<Action>, x: Action, n: nat)
    requires n <= |events|
    ensures (events + [x])[..n] == events[..n]
  {
  }

  /** Dispatching a disposal while scheduling an activation keeps the pairing. */
  lemma PairedSchedule(events: seq<Action>, pending: seq<Action>, act: Action, disp: Action,
                       allowance: nat, d: Action, a: Action)
    requires Paired(events, pending, act, disp, allowance)
    requires d != act && (a == act ==> d == disp)
    ensures Paired(events + [d], pending + [a], act, disp, allowance)
  {
    var e := events + [d];
    CountAppend(events, [d], act);
    CountAppend(events, [d], disp);
    CountAppend(pending, [a], act);
    forall n | 0 <= n <= |e|
      ensures Count(e[..n], act) <= Count(e[..n], disp) + allowance
    {
      if n <= |events| {
        PrefixOfAppend(events, d, n);
        assert e[..n] == events[..n];
      } else {
        assert e[..n] == e;
      }
    }
  }

  /** Dispatching an event that is not `act` keeps the pairing. */
  lemma PairedOther(events: seq<Action>, pending: seq<Action>, act: Action, disp: Action,
                    allowance: nat, x: Action)
    requires Paired(events, pending, act, disp, allowance) && x != act
    ensures Paired(events + [x], pending, act, disp, allowance)
  {
    var e := events + [x];
    CountAppend(events, [x], act);
    CountAppend(events, [x], disp);
    forall n | 0 <= n <= |e|
      ensures Count(e[..n], act) <= Count(e[..n], disp) + allowance
    {
      if n <= |events| {
        PrefixOfAppend(events, x, n);
      } else {
        assert e[..n] == e;
      }
    }
  }

  /** Dispatching `act` itself keeps the pairing when the allowance grows by one. */
  lemma PairedGrant(events: seq<Action>, pending: seq<Action>, act: Action, disp: Action)
    requires Paired(events, pending, act, disp, 0)
    ensures Paired(events + [act], pending, act, disp, 1)
  {
    var e := events + [act];
    CountAppend(events, [act], act);
    CountAppend(events, [act], disp);
    forall n | 0 <= n <= |e|
      ensures Count(e[..n], act) <= Count(e[..n], disp) + 1
    {
      if n <= |events| {
        PrefixOfAppend(events, act, n);
      } else {
        assert e[..n] == e;
      }
    }
  }

  /** A pending timer firing keeps the pairing. */
  lemma PairedFire(events: seq<Action>, pending: seq<Action>, act: Action, disp: Action, allowance: nat)
    requires Paired(events, pending, act, disp, allowance) && pending != []
    ensures Paired(events + [pending[0]], pending[1..], act, disp, allowance)
  {
    var x := pending[0];
    var e := events + [x];
    CountAppend(events, [x], act);
    CountAppend(events, [x], disp);
    CountAppend([x], pending[1..], act);
    assert [x] + pending[1..] == pending;
    forall n | 0 <= n <= |e|
      ensures Count(e[..n], act) <= Count(e[..n], disp) + allowance
    {
      if n <= |events| {
        PrefixOfAppend(events, x, n);
      } else {
        assert e[..n] == e;
      }
    }
  }

  /** A coordinator that has dispatched nothing and scheduled nothing, the
      first render among them, satisfies the invariant. */
  lemma EmptyLogIsValid(s: CoordinatorState)
    requires s.events == [] && s.pending == []
    ensures Valid(s)
  {
    assert forall n :: 0 <= n <= 0 ==> s.events[..n] == [];
  }

  lemma {:induction false} StepKeepsValid(s: CoordinatorState, op: Op)
    requires Valid(s)
    ensures Valid(Step(s, op))
  {
    match op
    case CheckRamOp(m) =>
    case PreloadOp(o) =>
      if PreloadRuns(s) && o == BothLoaded {
        PairedOther(s.events, s.pending, ActivateChatbot, DisposeTranslator, 0, ActivateTranslator);
        PairedGrant(s.events, s.pending, ActivateTranslator, DisposeChatbot);
      }
    case SwitchToChatbotOp =>
      if s.hasEnoughRAM {
        PairedSchedule(s.events, s.pending, ActivateChatbot, DisposeTranslator, 0,
                       DisposeTranslator, ActivateChatbot);
        PairedSchedule(s.events, s.pending, ActivateTranslator, DisposeChatbot,
                       if s.preloadComplete then 1 else 0, DisposeTranslator, ActivateChatbot);
      }
    case SwitchToTranslatorOp =>
      if s.hasEnoughRAM {
        PairedSchedule(s.events, s.pending, ActivateChatbot, DisposeTranslator, 0,
                       DisposeChatbot, ActivateTranslator);
        PairedSchedule(s.events, s.pending, ActivateTranslator, DisposeChatbot,
                       if s.preloadComplete then 1 else 0, DisposeChatbot, ActivateTranslator);
      }
    case TimerOp =>
      if s.pending != [] {
        PairedFire(s.events, s.pending, ActivateChatbot, DisposeTranslator, 0);
        PairedFire(s.events, s.pending, ActivateTranslator, DisposeChatbot,
                   if s.preloadComplete then 1 else 0);
      }
  }

  lemma {:induction false} RunKeepsValid(s: CoordinatorState, ops: seq<Op>)
    requires Valid(s)
    decreases |ops|
    ensures Valid(Run(s, ops))
  {
    if ops != [] {
      StepKeepsValid(s, ops[0]);
      RunKeepsValid(Step(s, ops[0]), ops[1..]);
    }
  }

  /** In a valid state, each `activate-chatbot` in the event log has a
      `dispose-translator` before it. */
  lemma ActivateChatbotFollowsDispose(s: CoordinatorState, k: nat) returns (j: nat)
    requires Valid(s) && k < |s.events| && s.events[k] == ActivateChatbot
    ensures j < k && s.events[j] == DisposeTranslator
  {
    var e := s.events[..k + 1];
    assert e == s.events[..k] + [ActivateChatbot];
    CountAppend(s.events[..k], [ActivateChatbot], ActivateChatbot);
    CountAppend(s.events[..k], [ActivateChatbot], DisposeTranslator);
    j := CountPositive(s.events[..k], DisposeTranslator);
  }

  /** From any state with an empty event log (whatever the RAM check
      decided), whatever sequence of operations follows, every
      `activate-chatbot` ever dispatched comes after a `dispose-translator`. */
  lemma ChatbotNeverActivatedBeforeDispose(s: CoordinatorState, ops: seq<Op>, k: nat) returns (j: nat)
    requires s.events == [] && s.pending == []
    requires k < |Run(s, ops).events|
    requires Run(s, ops).events[k] == ActivateChatbot
    ensures j < k && Run(s, ops).events[j] == DisposeTranslator
  {
    EmptyLogIsValid(s);
    RunKeepsValid(s, ops);
    j := ActivateChatbotFollowsDispose(Run(s, ops), k);
  }

  /** With enough memory, a switch to the chatbot followed by its timer
      dispatches exactly `dispose-translator` then `activate-chatbot`, so
      the ordering property above is about runs that do happen. */
  lemma SwitchThenTimer()
    ensures Run(Initial().(hasEnoughRAM := true), [SwitchToChatbotOp, TimerOp]).events
      == [DisposeTranslator, ActivateChatbot]
  {
    var s := Initial().(hasEnoughRAM := true);
    var s1 := Step(s, SwitchToChatbotOp);
    assert s1.events == [DisposeTranslator] && s1.pending == [ActivateChatbot];
    assert [SwitchToChatbotOp, TimerOp][1..] == [TimerOp];
    assert Run(s, [SwitchToChatbotOp, TimerOp]) == Run(s1, [TimerOp]);
  }

  // ---------------------------------------------------------------------
  // The provider, with its state updated step by step

  class Coordinator {
    var hasEnoughRAM: bool
    var ramGB: real
    var activeModel: ActiveModel
    var preloadComplete: bool
    var translatorPreloaded: bool   // ref
    var chatbotPreloaded: bool      // ref
    var events: seq<Action>
    var pending: seq<Action>

    function State(): CoordinatorState
      reads this
    {
      CoordinatorState(hasEnoughRAM, ramGB, activeModel, preloadComplete,
                       translatorPreloaded, chatbotPreloaded, events, pending)
    }

    constructor ()
      ensures State() == Initial()
    {
      hasEnoughRAM, ramGB, activeModel, preloadComplete := false, 0.0, NoModel, false;
      translatorPreloaded, chatbotPreloaded := false, false;
      events, pending := [], [];
    }

    method CheckRAM(deviceMemory: Option<real>)
      modifies this
      ensures State() == CheckRam(old(State()), deviceMemory)
      ensures !hasEnoughRAM && activeModel == NoModel && events == old(events)
    {
      var ram := if deviceMemory.Some? then deviceMemory.value else 0.0;
      ramGB := ram;
      hasEnoughRAM := false;
      activeModel := NoModel;
    }

    method PreloadModels(outcome: PreloadOutcome)
      modifies this
      ensures State() == Preload(old(State()), outcome)
      ensures old(events) <= events
    {
      if !hasEnoughRAM || preloadComplete {
        return;
      }
      if outcome == TranslatorTokenizerFailed {
        hasEnoughRAM := false;
        activeModel := NoModel;
        return;
      }
      translatorPreloaded := true;
      if outcome == ChatbotTokenizerFailed {
        hasEnoughRAM := false;
        activeModel := NoModel;
        return;
      }
      chatbotPreloaded := true;
      preloadComplete := true;
      activeModel := Translator;
      events := events + [ActivateTranslator];
    }

    method RequestSwitchToChatbot()
      modifies this
      ensures State() == SwitchToChatbot(old(State()))
      ensures old(events) <= events
    {
      if !hasEnoughRAM {
        return;
      }
      activeModel := Chatbot;
      events := events + [DisposeTranslator];
      pending := pending + [ActivateChatbot];
    }

    method RequestSwitchToTranslator()
      modifies this
      ensures State() == SwitchToTranslator(old(State()))
      ensures old(events) <= events
    {
      if !hasEnoughRAM {
        return;
      }
      activeModel := Translator;
      events := events + [DisposeChatbot];
      pending := pending + [ActivateTranslator];
    }

    method TimerFires()
      modifies this
      ensures State() == FireTimer(old(State()))
      ensures old(events) <= events
    {
      if pending != [] {
        events := events + [pending[0]];
        pending := pending[1..];
      }
    }
  }
}
