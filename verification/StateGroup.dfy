/** A room: a bounded queue of commands that feeds a graph of states supplied by users. */
module StateGroup {
  type Cmd = int

  /** What a hook that may throw does: whether it throws, and for init, whether the state
      counts as initialised behind it. */
  datatype Behaviour = Behaviour(
    initThrows: bool, initMarks: bool, handleThrows: bool, updateThrows: bool, finish: Finish)

  datatype Finish = Throws | NoCode | Code(code: string)

  datatype Kind = Custom | ErrorState

  /** `DefaultErrorState.CODE` */
  const ERROR := "ERROR"

  class UserState {
    const kind: Kind
    const code: string
    var initialized: bool

    constructor (kind: Kind, code: string)
      ensures this.kind == kind && this.code == (if kind == ErrorState then "ERROR" else code) && !initialized
    {
      this.kind, this.code, initialized := kind, if kind == ErrorState then ERROR else code, false;
    }
  }

  datatype Hook =
    | Init | InitOnError | HandleCmd(cmd: Cmd) | HandleCmdOnError(cmd: Cmd)
    | Update | UpdateOnError | AskFinish | FinishOnError

  /** The calls of one update that serves cmd, in order. */
  function Calls(initialized: bool, b: Behaviour, cmd: Cmd, finish: Finish): (r: seq<Hook>) {
    (if initialized then [] else Tried(Init, InitOnError, b.initThrows))
    + Tried(HandleCmd(cmd), HandleCmdOnError(cmd), b.handleThrows)
    + Tried(Update, UpdateOnError, b.updateThrows)
    + Tried(AskFinish, FinishOnError, finish == Throws)
  }

  function Tried(hook: Hook, onError: Hook, throws: bool): (r: seq<Hook>) {
    if throws then [hook, onError] else [hook]
  }

  datatype Call = Call(state: UserState, hook: Hook)

  function CallsOf(s: UserState, hooks: seq<Hook>): (r: seq<Call>)
    ensures |r| == |hooks|
  {
    if hooks == [] then [] else [Call(s, hooks[0])] + CallsOf(s, hooks[1..])
  }

  /** The commands that reached a state, in order. */
  function Handled(calls: seq<Call>): (cmds: seq<Cmd>) {
    if calls == [] then []
    else (if calls[0].hook.HandleCmd? then [calls[0].hook.cmd] else []) + Handled(calls[1..])
  }

  lemma {:induction false} HandledAppend(a: seq<Call>, b: seq<Call>)
    ensures Handled(a + b) == Handled(a) + Handled(b)
    decreases |a|
  {
    if a == [] {
      assert a + b == b;
    } else {
      assert (a + b)[1..] == a[1..] + b;
      HandledAppend(a[1..], b);
    }
  }

  lemma {:induction false} CallsAppend(s: UserState, a: seq<Hook>, b: seq<Hook>)
    ensures CallsOf(s, a + b) == CallsOf(s, a) + CallsOf(s, b)
    decreases |a|
  {
    if a == [] {
      assert a + b == b;
    } else {
      assert (a + b)[1..] == a[1..] + b;
      CallsAppend(s, a[1..], b);
    }
  }

  class Group {
    var states: map<string, UserState>
    var queue: seq<Cmd>
    var current: UserState?

    ghost var added: set<UserState>   // every state ever added
    ghost var accepted: seq<Cmd>      // every command the queue has taken
    ghost var calls: seq<Call>        // every call of a hook

    /** Commands are handled first come, first served, none lost and none twice. */
    ghost predicate Valid()
      reads this
    {
      && accepted == Handled(calls) + queue && |queue| <= 1000
      && (current != null ==> current in added)
      && (forall code :: code in states ==> states[code] in added && states[code].code == code)
    }

    constructor ()
      ensures Valid() && current == null && queue == [] && accepted == [] && calls == [] && added == {}
    {
      states, queue, current := map[], [], null;
      added, accepted, calls := {}, [], [];
    }

    method AddState(s: UserState)
      requires Valid()
      modifies this
      ensures Valid() && states == old(states)[s.code := s] && added == old(added) + {s}
      ensures unchanged(`current, `queue, `accepted, `calls)
    {
      states := states[s.code := s];
      added := added + {s};
    }

    /** Throws when there is no such state, after the current state has been cleared. */
    method SetCurrentState(code: string) returns (thrown: bool)
      requires Valid()
      modifies `current
      ensures Valid() && thrown == (code !in states) && current == if code in states then states[code] else null
    {
      current := if code in states then states[code] else null;
      thrown := current == null;
    }

    /** `cmdQueue.offer(...)` */
    method AddCharacterCmd(cmd: Cmd) returns (taken: bool)
      requires Valid()
      modifies `queue, `accepted
      ensures Valid() && taken == (old(|queue|) < 1000)
      ensures queue == (if taken then old(queue) + [cmd] else old(queue))
      ensures accepted == (if taken then old(accepted) + [cmd] else old(accepted))
    {
      taken := |queue| < 1000;
      if taken {
        queue := queue + [cmd];
        accepted := accepted + [cmd];
      }
    }

    /** What decides whether a command is taken. */
    ghost function Tracked(): (t: Track)
      reads this
    {
      Track(states.Keys, current == null, |queue|)
    }

    /** Where a state goes when it is finished: an error state stays, so does one whose
        finish throws or that names no state of the group. */
    ghost function Next(s: UserState, b: Behaviour): (n: UserState)
      reads this
    {
      if s.kind == Custom && b.finish.Code? && b.finish.code in states then states[b.finish.code] else s
    }

    static function FinishOf(s: UserState, b: Behaviour): (f: Finish) {
      if s.kind == ErrorState then NoCode else b.finish
    }

    /** `try { hook } catch { onError }`; hooks is what the update has called before. */
    method Try(s: UserState, hook: Hook, onError: Hook, throws: bool, ghost was: seq<Call>, ghost hooks: seq<Hook>)
      requires calls == was + CallsOf(s, hooks)
      modifies `calls
      ensures calls == was + CallsOf(s, hooks + Tried(hook, onError, throws))
    {
      CallsAppend(s, hooks, Tried(hook, onError, throws));
      OneCall(s, hook);
      TwoCalls(s, hook, onError);
      calls := calls + [Call(s, hook)];
      if throws { calls := calls + [Call(s, onError)]; }
    }

    method Serve(b: Behaviour)
      requires Valid()
      modifies this, current
      ensures Valid()
      ensures unchanged(`states, `added, `accepted)
      ensures if old(current) == null || old(queue) == [] then unchanged(`current, `queue, `calls)
              else
                && queue == old(queue)[1..]
                && calls == old(calls) + CallsOf(old(current), Calls(old(current.initialized), b, old(queue)[0], FinishOf(old(current), b)))
                && current == old(Next(current, b))
                && old(current).initialized == (old(current.initialized) || b.initMarks)
    {
      hide Calls, CallsOf, Handled;
      if current == null { return; }
      if queue == [] { return; }
      var cmd := queue[0];
      queue := queue[1..];
      var s := current;
      ghost var started, was := s.initialized, calls;
      var next := RunHooks(s, cmd, b);
      if next.Code? && next.code in states { current := states[next.code]; }
      OneHandled(s, started, b, cmd, FinishOf(s, b));
      HandledAppend(was, CallsOf(s, Calls(started, b, cmd, FinishOf(s, b))));
    }

    /** The hooks of one update, each with its own catch. */
    method RunHooks(s: UserState, cmd: Cmd, b: Behaviour) returns (f: Finish)
      modifies `calls, s
      ensures calls == old(calls) + CallsOf(s, Calls(old(s.initialized), b, cmd, FinishOf(s, b))) && f == FinishOf(s, b)
      ensures s.initialized == (old(s.initialized) || b.initMarks)
    {
      hide CallsOf, Tried;
      ghost var was, hooks := calls, [];
      NoCalls(s);
      ghost var started := s.initialized;
      if !s.initialized {
        Try(s, Init, InitOnError, b.initThrows, was, hooks);
        hooks := hooks + Tried(Init, InitOnError, b.initThrows);
        s.initialized := b.initMarks;
      }
      Try(s, HandleCmd(cmd), HandleCmdOnError(cmd), b.handleThrows, was, hooks);
      hooks := hooks + Tried(HandleCmd(cmd), HandleCmdOnError(cmd), b.handleThrows);
      Try(s, Update, UpdateOnError, b.updateThrows, was, hooks);
      hooks := hooks + Tried(Update, UpdateOnError, b.updateThrows);
      f := FinishOf(s, b);
      Try(s, AskFinish, FinishOnError, f == Throws, was, hooks);
      hooks := hooks + Tried(AskFinish, FinishOnError, f == Throws);
      assert hooks == Calls(started, b, cmd, f);
    }
  }

  lemma TwoCalls(s: UserState, a: Hook, b: Hook)
    ensures CallsOf(s, [a, b]) == [Call(s, a), Call(s, b)]
  {
    CallsAppend(s, [a], [b]);
    OneCall(s, a);
    OneCall(s, b);
    assert [a, b] == [a] + [b];
  }

  lemma NoCalls(s: UserState)
    ensures CallsOf(s, []) == []
  {}

  lemma OneCall(s: UserState, hook: Hook)
    ensures CallsOf(s, [hook]) == [Call(s, hook)]
  {
    assert [hook][1..] == [];
  }

  lemma {:induction false} HandledCalls(s: UserState, hooks: seq<Hook>, k: nat)
    requires k < |hooks| && hooks[k].HandleCmd?
    requires forall i :: 0 <= i < |hooks| && i != k ==> !hooks[i].HandleCmd?
    ensures Handled(CallsOf(s, hooks)) == [hooks[k].cmd]
  {
    assert CallsOf(s, hooks)[1..] == CallsOf(s, hooks[1..]);
    if k == 0 { NotHandled(s, hooks[1..]); } else { HandledCalls(s, hooks[1..], k - 1); }
  }

  lemma {:induction false} NotHandled(s: UserState, hooks: seq<Hook>)
    requires forall i :: 0 <= i < |hooks| ==> !hooks[i].HandleCmd?
    ensures Handled(CallsOf(s, hooks)) == []
  {
    if hooks != [] {
      assert CallsOf(s, hooks)[1..] == CallsOf(s, hooks[1..]);
      NotHandled(s, hooks[1..]);
    }
  }

  /** An update hands over exactly one command, whatever throws. */
  lemma OneHandled(s: UserState, initialized: bool, b: Behaviour, cmd: Cmd, finish: Finish)
    ensures Handled(CallsOf(s, Calls(initialized, b, cmd, finish))) == [cmd]
  {
    HandledCalls(s, Calls(initialized, b, cmd, finish), if initialized then 0 else if b.initThrows then 2 else 1);
  }

  predicate OnError(hook: Hook) {
    hook.InitOnError? || hook.HandleCmdOnError? || hook.UpdateOnError? || hook.FinishOnError?
  }

  function WithoutErrors(hooks: seq<Hook>): (r: seq<Hook>) {
    if hooks == [] then [] else (if OnError(hooks[0]) then [] else [hooks[0]]) + WithoutErrors(hooks[1..])
  }

  /** The hooks of an update: init only the first time, then the command, the update and the
      question whether it is finished, whatever throws. */
  lemma CallsAre(initialized: bool, b: Behaviour, cmd: Cmd, finish: Finish)
    ensures WithoutErrors(Calls(initialized, b, cmd, finish)) == (if initialized then [] else [Init]) + [HandleCmd(cmd), Update, AskFinish]
  {
    hide WithoutErrors, Tried;
    var i0 := if initialized then [] else Tried(Init, InitOnError, b.initThrows);
    var i1 := Tried(HandleCmd(cmd), HandleCmdOnError(cmd), b.handleThrows);
    var i2 := Tried(Update, UpdateOnError, b.updateThrows);
    var i3 := Tried(AskFinish, FinishOnError, finish == Throws);
    NoErrors();
    TriedAre(Init, InitOnError, b.initThrows);
    TriedAre(HandleCmd(cmd), HandleCmdOnError(cmd), b.handleThrows);
    TriedAre(Update, UpdateOnError, b.updateThrows);
    TriedAre(AskFinish, FinishOnError, finish == Throws);
    ErrorsApart(i0 + i1 + i2, i3);
    ErrorsApart(i0 + i1, i2);
    ErrorsApart(i0, i1);
  }

  /** Error hooks are called exactly for the hooks that have thrown. */
  lemma CallsCatch(initialized: bool, b: Behaviour, cmd: Cmd, finish: Finish, h: Hook)
    ensures h in Calls(initialized, b, cmd, finish) && OnError(h) <==>
            || (h == InitOnError && !initialized && b.initThrows) || (h == HandleCmdOnError(cmd) && b.handleThrows)
            || (h == UpdateOnError && b.updateThrows) || (h == FinishOnError && finish == Throws)
  {
    hide Tried;
    TriedHas(Init, InitOnError, b.initThrows, h);
    TriedHas(HandleCmd(cmd), HandleCmdOnError(cmd), b.handleThrows, h);
    TriedHas(Update, UpdateOnError, b.updateThrows, h);
    TriedHas(AskFinish, FinishOnError, finish == Throws, h);
  }

  lemma TriedHas(hook: Hook, onError: Hook, throws: bool, h: Hook)
    ensures h in Tried(hook, onError, throws) <==> h == hook || (throws && h == onError)
  {}

  /** Each of them directly behind its hook. */
  lemma CallsBehind(initialized: bool, b: Behaviour, cmd: Cmd, finish: Finish)
    ensures Behind(Calls(initialized, b, cmd, finish))
  {
    hide Tried, Behind;
    var i0 := if initialized then [] else Tried(Init, InitOnError, b.initThrows);
    var i1 := Tried(HandleCmd(cmd), HandleCmdOnError(cmd), b.handleThrows);
    var i2 := Tried(Update, UpdateOnError, b.updateThrows);
    var i3 := Tried(AskFinish, FinishOnError, finish == Throws);
    NoneBehind();
    TriedBehind(Init, InitOnError, b.initThrows);
    TriedBehind(HandleCmd(cmd), HandleCmdOnError(cmd), b.handleThrows);
    TriedBehind(Update, UpdateOnError, b.updateThrows);
    TriedBehind(AskFinish, FinishOnError, finish == Throws);
    BehindApart(i0, i1);
    BehindApart(i0 + i1, i2);
    BehindApart(i0 + i1 + i2, i3);
  }

  predicate Behind(hooks: seq<Hook>) {
    forall i :: 0 <= i < |hooks| && OnError(hooks[i]) ==> i > 0 && Caught(hooks[i - 1], hooks[i])
  }

  lemma NoneBehind()
    ensures Behind([])
  {}

  lemma TriedBehind(hook: Hook, onError: Hook, throws: bool)
    requires !OnError(hook) && Caught(hook, onError)
    ensures Behind(Tried(hook, onError, throws))
  {}

  lemma BehindApart(a: seq<Hook>, b: seq<Hook>)
    requires Behind(a) && Behind(b)
    ensures Behind(a + b)
  {
    hide OnError, Caught;
    var s := a + b;
    forall i | 0 <= i < |s| && OnError(s[i]) ensures i > 0 && Caught(s[i - 1], s[i]) {
      if i >= |a| { assert s[i] == b[i - |a|] && s[i - 1] == b[i - |a| - 1]; } else { assert s[i] == a[i] && s[i - 1] == a[i - 1]; }
    }
  }

  /** The error hook of a hook. */
  predicate Caught(hook: Hook, onError: Hook) {
    || (hook == Init && onError == InitOnError)
    || (hook.HandleCmd? && onError == HandleCmdOnError(hook.cmd))
    || (hook == Update && onError == UpdateOnError)
    || (hook == AskFinish && onError == FinishOnError)
  }

  lemma NoErrors()
    ensures WithoutErrors([]) == []
  {}

  lemma TriedAre(hook: Hook, onError: Hook, throws: bool)
    requires !OnError(hook) && OnError(onError)
    ensures WithoutErrors(Tried(hook, onError, throws)) == [hook]
  {
    NoErrors();
    assert [hook][1..] == [] && [onError][1..] == [];
    assert WithoutErrors([hook]) == [hook] + [] && WithoutErrors([onError]) == [] + [];
    assert [hook, onError][1..] == [onError];
  }

  lemma {:induction false} ErrorsApart(a: seq<Hook>, b: seq<Hook>)
    ensures WithoutErrors(a + b) == WithoutErrors(a) + WithoutErrors(b)
    decreases |a|
  {
    if a == [] {
      assert a + b == b;
    } else {
      assert (a + b)[1..] == a[1..] + b;
      ErrorsApart(a[1..], b);
    }
  }

  /** What the users of a group do. */
  datatype Action = Add(s: UserState) | SetCurrent(code: string) | Offer(cmd: Cmd) | Serve(b: Behaviour)

  /** The codes of the states, whether there is no current one, and how many commands wait. */
  datatype Track = Track(codes: set<string>, idle: bool, waiting: nat)

  function After(t: Track, a: Action): (r: Track) {
    match a
    case Add(s) => t.(codes := t.codes + {s.code})
    case SetCurrent(code) => t.(idle := code !in t.codes)
    case Offer(cmd) => if t.waiting < 1000 then t.(waiting := t.waiting + 1) else t
    case Serve(b) => if !t.idle && t.waiting > 0 then t.(waiting := t.waiting - 1) else t
  }

  /** The commands offered while fewer than 1000 wait. */
  function Taken(t: Track, actions: seq<Action>): (r: seq<Cmd>)
    decreases |actions|
  {
    if actions == [] then []
    else (if actions[0].Offer? && t.waiting < 1000 then [actions[0].cmd] else []) + Taken(After(t, actions[0]), actions[1..])
  }

  method Perform(g: Group, a: Action)
    requires g.Valid()
    modifies g, g.current
    ensures g.Valid() && g.added == old(g.added) + (if a.Add? then {a.s} else {})
    ensures g.Tracked() == After(old(g.Tracked()), a)
    ensures g.accepted == old(g.accepted) + (if a.Offer? && old(g.Tracked().waiting) < 1000 then [a.cmd] else [])
    ensures old(Handled(g.calls)) <= Handled(g.calls)
    ensures old(g.current) == null && !a.SetCurrent? ==> g.current == null && g.calls == old(g.calls)
    ensures old(g.current) != null && old(g.current.kind) == ErrorState && !a.SetCurrent? ==> g.current == old(g.current)
  {
    match a
    case Add(s) => g.AddState(s);
    case SetCurrent(code) => var thrown := g.SetCurrentState(code);
    case Offer(cmd) => var taken := g.AddCharacterCmd(cmd);
    case Serve(b) =>
      g.Serve(b);
      ghost var was := old(g.calls);
      HandledAppend(was, g.calls[|was|..]);
      assert g.calls == was + g.calls[|was|..];
  }

  lemma Current(g: Group)
    requires g.Valid()
    ensures g.current != null ==> g.current in g.added
  {}

  predicate NoneSet(actions: seq<Action>) {
    forall a :: a in actions ==> !a.SetCurrent?
  }

  /** Every run: exactly the commands offered while fewer than 1000 wait are taken; they are
      handled in the order they were taken, the queue holds the rest and never more than 1000;
      with no current state nothing is handled; and only setting the current state leads out
      of the error state. */
  method PerformAll(g: Group, actions: seq<Action>, ghost universe: set<UserState>)
    requires g.Valid() && g.added <= universe
    requires forall i :: 0 <= i < |actions| && actions[i].Add? ==> actions[i].s in universe
    modifies g, universe
    ensures g.Valid() && g.added <= universe
    ensures g.accepted == old(g.accepted) + Taken(old(g.Tracked()), actions) && old(Handled(g.calls)) <= Handled(g.calls)
    ensures old(g.current) == null && NoneSet(actions) ==> g.current == null && g.calls == old(g.calls)
    ensures old(g.current) != null && old(g.current).kind == ErrorState && NoneSet(actions) ==> g.current == old(g.current)
  {
    hide Handled, Group.Valid, Group.Tracked, After;
    assert actions[0..] == actions;
    for i := 0 to |actions|
      invariant g.Valid() && g.added <= universe
      invariant g.accepted + Taken(g.Tracked(), actions[i..]) == old(g.accepted) + Taken(old(g.Tracked()), actions)
      invariant old(Handled(g.calls)) <= Handled(g.calls)
      invariant old(g.current) == null && NoneSet(actions[..i]) ==> g.current == null && g.calls == old(g.calls)
      invariant old(g.current) != null && old(g.current).kind == ErrorState && NoneSet(actions[..i]) ==>
                  g.current == old(g.current)
    {
      assert actions[..i + 1] == actions[..i] + [actions[i]];
      assert actions[i..][1..] == actions[i + 1..];
      Current(g);
      Perform(g, actions[i]);
    }
    assert actions[..|actions|] == actions;
  }
}
