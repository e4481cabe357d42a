/** Callback lists and the deferred objects made of them. Callbacks are scripts: what a
    callback does is to call the deferred object again, any number of times. */
module Callbacks {
  /** The done or the fail list. */
  datatype Side = DoneSide | FailSide

  function Other(w: Side): (r: Side) {
    if w == DoneSide then FailSide else DoneSide
  }

  /** `resolve(v)` or `reject(v)`; `done(h)` or `fail(h)` */
  datatype Op = Settle(side: Side, v: int) | Attach(side: Side, h: Handler)

  datatype Handler = Handler(id: int, script: seq<Op>)

  datatype Callback = SetState(side: Side) | Disable(side: Side) | LockProgress | User(h: Handler)

  datatype Maybe = None | Some(v: int)

  /** A callback list, or the empty string that a spent object keeps in its place. */
  datatype List = Live(items: seq<Callback>) | Spent

  function Items(l: List): (r: seq<Callback>) {
    if l.Live? then l.items else []
  }

  class CallbackList {
    const once: bool
    const keeps: bool            // options.memory
    var firing: bool
    var memory: Maybe
    var locked: bool
    var list: List
    var queue: seq<int>
    var firingIndex: int

    constructor (once: bool, keeps: bool, items: seq<Callback>)
      ensures this.once == once && this.keeps == keeps && Idle(items)
    {
      this.once, this.keeps := once, keeps;
      firing, memory, locked, list, queue, firingIndex := false, None, false, Live(items), [], -1;
    }

    ghost predicate Idle(items: seq<Callback>)
      reads this
    {
      !firing && memory == None && !locked && queue == [] && firingIndex == -1 && list == Live(items)
    }

    ghost predicate Off()
      reads this
    {
      !firing && memory == None && locked && queue == [] && list == Spent
    }

    method Disable()
      modifies this
      ensures locked && queue == [] && list == Spent && memory == None
      ensures firing == old(firing) && firingIndex == old(firingIndex)
    {
      locked, queue := true, [];
      list, memory := Spent, None;
    }

    method Lock()
      modifies this
      ensures locked && firing == old(firing) && firingIndex == old(firingIndex)
      ensures if old(memory) == None then queue == [] && list == Spent && memory == None
              else queue == old(queue) && list == old(list) && memory == old(memory)
    {
      locked := true;
      if memory == None { Disable(); }
    }
  }

  // How much is left to do.

  function HandlerSize(h: Handler): (n: nat)
    decreases h
  {
    1 + ScriptSize(h.script)
  }

  function OpSize(op: Op): (n: nat)
    decreases op
  {
    1 + if op.Attach? then HandlerSize(op.h) else 0
  }

  function ScriptSize(ops: seq<Op>): (n: nat)
    decreases ops
  {
    if ops == [] then 0 else OpSize(ops[0]) + ScriptSize(ops[1..])
  }

  function CallbackSize(c: Callback): (n: nat)
    ensures n >= 1
  {
    if c.User? then HandlerSize(c.h) else 1
  }

  function Total(cs: seq<Callback>): (n: nat) {
    if cs == [] then 0 else CallbackSize(cs[0]) + Total(cs[1..])
  }

  lemma {:induction false} TotalAppend(cs: seq<Callback>, c: Callback)
    ensures Total(cs + [c]) == Total(cs) + CallbackSize(c)
  {
    hide CallbackSize;
    if cs == [] {
      assert [c][1..] == [];
      assert cs + [c] == [c];
    } else {
      TotalAppend(cs[1..], c);
      assert (cs + [c])[1..] == cs[1..] + [c];
    }
  }

  // What a deferred object has been asked to do and has done.

  datatype State = Pending | Settled(side: Side)

  datatype Run = Run(h: Handler, v: int)

  datatype Sides<T> = Sides(done: T, fail: T) {
    function At(w: Side): (t: T) {
      if w == DoneSide then done else fail
    }

    function With(w: Side, t: T): (r: Sides<T>)
      ensures r.At(w) == t && r.At(Other(w)) == At(Other(w))
    {
      if w == DoneSide then Sides(t, fail) else Sides(done, t)
    }
  }

  function Users(hs: seq<Handler>): (r: seq<Callback>)
    ensures |r| == |hs| && forall i :: 0 <= i < |hs| ==> r[i] == User(hs[i])
  {
    seq(|hs|, i requires 0 <= i < |hs| => User(hs[i]))
  }

  lemma UsersAppend(hs: seq<Handler>, h: Handler)
    ensures Users(hs + [h]) == Users(hs) + [User(h)]
  {}

  // Which handlers are called, in which order.

  /** What a script attaches to a side, in order. */
  function Attachments(ops: seq<Op>, w: Side): (r: seq<Handler>) {
    if ops == [] then []
    else (if ops[0].Attach? && ops[0].side == w then [ops[0].h] else []) + Attachments(ops[1..], w)
  }

  lemma {:induction false} AttachmentsAppend(a: seq<Op>, b: seq<Op>, w: Side)
    ensures Attachments(a + b, w) == Attachments(a, w) + Attachments(b, w)
  {
    if a == [] {
      assert a + b == b;
    } else {
      assert (a + b)[1..] == a[1..] + b;
      AttachmentsAppend(a[1..], b, w);
    }
  }

  function Weight(hs: seq<Handler>): (n: nat) {
    if hs == [] then 0 else HandlerSize(hs[0]) + Weight(hs[1..])
  }

  lemma {:induction false} WeightAppend(a: seq<Handler>, b: seq<Handler>)
    ensures Weight(a + b) == Weight(a) + Weight(b)
  {
    hide HandlerSize;
    if a == [] {
      assert a + b == b;
    } else {
      assert (a + b)[1..] == a[1..] + b;
      WeightAppend(a[1..], b);
    }
  }

  lemma {:induction false} Lighter(ops: seq<Op>, w: Side)
    ensures Weight(Attachments(ops, w)) <= ScriptSize(ops)
  {
    hide HandlerSize;
    if ops != [] {
      Lighter(ops[1..], w);
      if ops[0].Attach? && ops[0].side == w {
        var rest := Attachments(ops[1..], w);
        assert Attachments(ops, w) == [ops[0].h] + rest && ([ops[0].h] + rest)[1..] == rest;
      } else {
        assert Attachments(ops, w) == Attachments(ops[1..], w);
      }
    }
  }

  lemma Shrinks(q: seq<Handler>, w: Side)
    requires q != []
    ensures Weight(q[1..] + Attachments(q[0].script, w)) < Weight(q)
  {
    hide ScriptSize;
    WeightAppend(q[1..], Attachments(q[0].script, w));
    Lighter(q[0].script, w);
  }

  /** All that are called when the queue is worked off first come, first served, and each
      one called puts what it attaches at the end. */
  function Served(q: seq<Handler>, w: Side): (r: seq<Handler>)
    decreases Weight(q)
  {
    if q == [] then []
    else
      Shrinks(q, w);
      [q[0]] + Served(q[1..] + Attachments(q[0].script, w), w)
  }

  /** What these handlers attach to a side, one after another. */
  function AttachedBy(hs: seq<Handler>, w: Side): (r: seq<Handler>) {
    if hs == [] then [] else Attachments(hs[0].script, w) + AttachedBy(hs[1..], w)
  }

  /** Those served are the queue and then exactly what those served attach, in order. */
  lemma {:induction false} ServedAre(q: seq<Handler>, w: Side)
    ensures Served(q, w) == q + AttachedBy(Served(q, w), w)
    decreases Weight(q)
  {
    hide Served, AttachedBy, Attachments;
    ServedNext(q, w);
    NoneAttached(w);
    if q != [] {
      var h, a := q[0], Attachments(q[0].script, w);
      var rest := Served(q[1..] + a, w);
      Shrinks(q, w);
      ServedAre(q[1..] + a, w);
      AttachedByNext(h, rest, w);
      Regroup(q, a, AttachedBy(rest, w));
    }
  }

  lemma Regroup(q: seq<Handler>, a: seq<Handler>, b: seq<Handler>)
    requires q != []
    ensures [q[0]] + (q[1..] + a + b) == q + (a + b)
  {}

  lemma ServedNext(q: seq<Handler>, w: Side)
    ensures if q == [] then Served(q, w) == []
            else Served(q, w) == [q[0]] + Served(q[1..] + Attachments(q[0].script, w), w)
  {}

  lemma AttachedByNext(h: Handler, hs: seq<Handler>, w: Side)
    ensures AttachedBy([h] + hs, w) == Attachments(h.script, w) + AttachedBy(hs, w)
  {
    assert ([h] + hs)[1..] == hs;
  }

  lemma NoneAttached(w: Side)
    ensures AttachedBy([], w) == []
  {}

  /** The attachments of the settled side when the queue has been served, and of the other
      side, where nothing is called. */
  function Filled(a: Sides<seq<Handler>>, w: Side, q: seq<Handler>): (r: Sides<seq<Handler>>) {
    a.With(w, a.At(w) + Served(q, w)).With(Other(w), a.At(Other(w)) + AttachedBy(Served(q, w), Other(w)))
  }

  /** A script has run while its list was firing. */
  function Plus(a: Sides<seq<Handler>>, ops: seq<Op>): (r: Sides<seq<Handler>>) {
    Sides(a.done + Attachments(ops, DoneSide), a.fail + Attachments(ops, FailSide))
  }

  /** Calling the next in the queue, which attaches more, comes to the same in the end. */
  lemma FilledNext(a: Sides<seq<Handler>>, w: Side, m: nat)
    requires m < |a.At(w)|
    ensures var b := Plus(a, a.At(w)[m].script);
            Filled(b.With(w, b.At(w)[..m + 1]), w, b.At(w)[m + 1..]) == Filled(a.With(w, a.At(w)[..m]), w, a.At(w)[m..])
  {
    hide Served, AttachedBy, Attachments;
    var q, h := a.At(w)[m..], a.At(w)[m];
    var b := Plus(a, h.script);
    var rest := Served(q[1..] + Attachments(h.script, w), w);
    ServedNext(q, w);
    AttachedByNext(h, rest, Other(w));
    assert b.At(w)[m + 1..] == q[1..] + Attachments(h.script, w);
    assert b.At(w)[..m + 1] == a.At(w)[..m] + [h];
    assert b.At(w)[..m + 1] + rest == a.At(w)[..m] + ([h] + rest);
    var o := Other(w);
    assert b.At(o) + AttachedBy(rest, o) == a.At(o) + (Attachments(h.script, o) + AttachedBy(rest, o));
  }

  lemma FilledNone(a: Sides<seq<Handler>>, w: Side)
    ensures Filled(a, w, []) == a
  {
    assert a.At(w) + [] == a.At(w) && a.At(Other(w)) + [] == a.At(Other(w));
  }

  /** What the outside sees of a deferred object, and what a call from there makes of it. */
  datatype Story = Story(state: State, value: int, attached: Sides<seq<Handler>>)

  function After(s: Story, op: Op): (r: Story) {
    match op
    case Settle(w, v) =>
      if s.state == Pending then Story(Settled(w), v, Filled(s.attached.With(w, []), w, s.attached.At(w))) else s
    case Attach(w, h) =>
      if s.state == Settled(w) then s.(attached := Filled(s.attached, w, [h]))
      else s.(attached := s.attached.With(w, s.attached.At(w) + [h]))
  }

  /** The callbacks that the constructor puts in front of all others. */
  function Prefix(w: Side): (r: seq<Callback>)
    ensures |r| == 3
  {
    [SetState(w), Callback.Disable(Other(w)), LockProgress]
  }

  class Deferred {
    const done: CallbackList
    const fail: CallbackList
    const progress: CallbackList
    var state: State

    ghost var value: int                      // what it was settled with
    ghost var attached: Sides<seq<Handler>>   // in attachment order
    ghost var ran: Sides<seq<Run>>            // in the order they were called

    constructor ()
      ensures Lists() && Open() && state == Pending && value == 0 && fresh(done) && fresh(fail) && fresh(progress)
      ensures attached == Sides([], []) && ran == Sides([], []) && !done.firing && !fail.firing
    {
      done := new CallbackList(true, true, Prefix(DoneSide) + Users([]));
      fail := new CallbackList(true, true, Prefix(FailSide) + Users([]));
      progress := new CallbackList(false, true, []);
      state, value := Pending, 0;
      attached, ran := Sides([], []), Sides([], []);
    }

    function L(w: Side): (l: CallbackList) {
      if w == DoneSide then done else fail
    }

    ghost predicate Lists() {
      done != fail && done != progress && fail != progress && done.once && done.keeps && fail.once && fail.keeps
    }

    ghost predicate Waiting(w: Side)
      reads this, L(w)
    {
      L(w).Idle(Prefix(w) + Users(attached.At(w))) && ran.At(w) == []
    }

    /** The handlers called so far are the first ones attached, each called with the value. */
    ghost predicate InOrder(w: Side)
      reads this
    {
      && |ran.At(w)| <= |attached.At(w)|
      && forall i :: 0 <= i < |ran.At(w)| ==> ran.At(w)[i] == Run(attached.At(w)[i], value)
    }

    /** What is left to call: all in the list behind the firing index. */
    ghost predicate Firing(w: Side)
      reads this, L(w)
    {
      && L(w).firing && L(w).locked && L(w).memory == Some(value) && L(w).queue == [] && L(w).list.Live?
      && -1 <= L(w).firingIndex < |L(w).list.items| && InOrder(w)
      && L(w).list.items[L(w).firingIndex + 1..] == Users(attached.At(w)[|ran.At(w)|..])
    }

    ghost predicate Fired(w: Side)
      reads this, L(w)
    {
      && !L(w).firing && L(w).locked && L(w).memory == Some(value) && L(w).queue == [] && L(w).list == Live([])
      && L(w).firingIndex == -1 && InOrder(w) && |ran.At(w)| == |attached.At(w)|
    }

    /** What holds whenever a handler or the outside may call in. */
    ghost predicate Open()
      reads this, done, fail, progress
    {
      match state
      case Pending => Waiting(DoneSide) && Waiting(FailSide) && progress.Idle([])
      case Settled(w) =>
        && (Firing(w) || Fired(w))
        && L(Other(w)).Off() && ran.At(Other(w)) == [] && progress.Off()
    }

    ghost function Left(w: Side): (n: nat)
      reads L(w)
    {
      var items := Items(L(w).list);
      if !L(w).firing then Total(items)
      else if 0 <= L(w).firingIndex + 1 <= |items| then Total(items[L(w).firingIndex + 1..])
      else 0
    }

    ghost function Potential(): (n: nat)
      reads done, fail
    {
      Left(DoneSide) + Left(FailSide)
    }

    /** What a call leaves as it was when it returns. */
    twostate predicate Kept()
      reads this, done, fail
    {
      && (old(state) != Pending ==> state == old(state) && value == old(value))
      && done.firing == old(done.firing) && fail.firing == old(fail.firing)
      && old(attached.done) <= attached.done && old(attached.fail) <= attached.fail
      && old(ran.done) <= ran.done && old(ran.fail) <= ran.fail
    }

    /** The attachments when all that is left has been called. */
    ghost function Final(w: Side): (r: Sides<seq<Handler>>)
      reads `attached, `ran
    {
      var m := |ran.At(w)|;
      if m <= |attached.At(w)| then Filled(attached.With(w, attached.At(w)[..m]), w, attached.At(w)[m..]) else attached
    }

    /** A handler is being called. */
    ghost predicate Busy()
      reads this, done, fail
    {
      state.Settled? && L(state.side).firing
    }

    ghost function Told(): (s: Story)
      reads this
    {
      Story(state, value, attached)
    }

    /** What a handler's script does, and what a call does: while a handler is being called,
        it attaches at the end and calls nobody. */
    method Execute(ops: seq<Op>)
      requires Lists() && Open()
      modifies this, done, fail, progress
      ensures Open() && Kept() && Potential() <= old(Potential()) + ScriptSize(ops)
      ensures old(Busy()) ==> attached == Plus(old(attached), ops) && ran == old(ran)
      decreases Potential() + ScriptSize(ops), 2
    {
      hide Open, Potential, OpSize, Plus, After, Told;
      var i := 0;
      assert ops[0..] == ops;
      while i < |ops|
        invariant i <= |ops| && Open() && Kept()
        invariant Potential() + ScriptSize(ops[i..]) <= old(Potential()) + ScriptSize(ops)
        invariant old(Busy()) ==> ran == old(ran) && Plus(attached, ops[i..]) == Plus(old(attached), ops)
      {
        assert ops[i..][1..] == ops[i + 1..];
        PlusNext(attached, ops[i..]);
        Do(ops[i]);
        i := i + 1;
      }
      PlusNone(attached);
    }

    method Do(op: Op)
      requires Lists() && Open()
      modifies this, done, fail, progress
      ensures Open() && Kept() && Potential() <= old(Potential()) + OpSize(op)
      ensures if old(Busy()) then attached == Plus(old(attached), [op]) && ran == old(ran) else Told() == After(old(Told()), op)
      decreases Potential() + OpSize(op), 1
    {
      hide Open, Potential, Filled, HandlerSize;
      BusyOpen();
      PlusOne(attached, op);
      match op
      case Settle(w, v) => FireWith(w, v);
      case Attach(w, h) => Add(w, h);
    }

    method FireWith(w: Side, v: int)
      requires Lists() && Open()
      modifies this, done, fail, progress
      ensures Open() && Kept() && Potential() <= old(Potential())
      ensures old(L(w).locked) <==> old(state) != Pending
      ensures old(L(w).locked) ==> attached == old(attached) && ran == old(ran) && value == old(value)
      ensures old(state) == Pending ==>
                state == Settled(w) && value == v && attached == Filled(old(attached).With(w, []), w, old(attached.At(w)))
      decreases Potential(), 4
    {
      hide Filled, Total, Users;
      var l := L(w);
      FinalPending(w);
      if !l.locked {
        l.queue := l.queue + [v];
        if !l.firing {
          Fire(w, v);
        }
      }
    }

    /** `list.push(h)`, between queueing the memory of a list that has fired, and firing it. */
    method Add(w: Side, h: Handler)
      requires Lists() && Open()
      modifies this, done, fail, progress
      ensures Open() && Kept() && Potential() <= old(Potential()) + HandlerSize(h)
      ensures state == old(state) && value == old(value)
      ensures if old(state) == Settled(w) && !old(Busy()) then attached == Filled(old(attached), w, [h])
              else attached == old(attached).With(w, old(attached).At(w) + [h]) && ran == old(ran)
      decreases Potential() + HandlerSize(h), 5
    {
      hide Open, Due, Potential, HandlerSize, CallbackList.Idle, CallbackList.Off, Filled, Final;
      WhichList(w);
      attached := attached.With(w, attached.At(w) + [h]);
      BecomesDue(w, h);
      FinalDue(w, h);
      if L(w).list.Live? {
        if L(w).memory != None && !L(w).firing {
          AddAgain(w, h);
        } else {
          AddOnly(w, h);
        }
      }
    }

    /** The handler is attached, and only the list does not have it yet. */
    ghost predicate Due(w: Side, h: Handler)
      reads this, done, fail, progress
    {
      && |attached.At(w)| >= 1 && attached.At(w)[|attached.At(w)| - 1] == h && L(w).list.Live?
      && var before := attached.At(w)[..|attached.At(w)| - 1];
         match state
         case Pending =>
           L(w).Idle(Prefix(w) + Users(before)) && ran == Sides([], []) && Waiting(Other(w)) && progress.Idle([])
         case Settled(s) =>
           && s == w && L(w).locked && L(w).memory == Some(value) && L(w).queue == []
           && |ran.At(w)| <= |before| && (forall i :: 0 <= i < |ran.At(w)| ==> ran.At(w)[i] == Run(before[i], value))
           && (if L(w).firing then
                 -1 <= L(w).firingIndex < |L(w).list.items|
                 && L(w).list.items[L(w).firingIndex + 1..] == Users(before[|ran.At(w)|..])
               else L(w).list.items == [] && L(w).firingIndex == -1 && |ran.At(w)| == |before|)
           && L(Other(w)).Off() && ran.At(Other(w)) == [] && progress.Off()
    }

    twostate predicate Attached(w: Side, h: Handler)
      reads this, done, fail, progress
    {
      && attached == old(attached).With(w, old(attached).At(w) + [h])
      && state == old(state) && ran == old(ran) && value == old(value)
      && unchanged(done) && unchanged(fail) && unchanged(progress)
    }

    twostate lemma BecomesDue(w: Side, new h: Handler)
      requires Lists() && old(Open()) && Attached(w, h)
      ensures if L(w).list.Live? then Due(w, h) else Open()
      ensures state == Pending ==> L(w).memory == None
      ensures Potential() == old(Potential())
    {
      hide Total, HandlerSize, Prefix, Users, Due, Open, Attached;
      SamePotential(w, h);
      if old(state) == Pending { DueWaiting(w, h); } else if old(state) == Settled(w) { DueOwn(w, h); } else { DueOther(w, h); }
    }

    twostate lemma SamePotential(w: Side, new h: Handler)
      requires Attached(w, h)
      ensures state == old(state) && Potential() == old(Potential())
    {
      hide Total;
    }

    twostate lemma DueWaiting(w: Side, new h: Handler)
      requires Lists() && old(Open()) && Attached(w, h) && old(state) == Pending
      ensures L(w).list.Live? && Due(w, h) && L(w).memory == None
    {
      hide Total, HandlerSize, Prefix, Users;
      assert attached.At(w)[..|attached.At(w)| - 1] == old(attached.At(w));
    }

    twostate lemma DueOwn(w: Side, new h: Handler)
      requires Lists() && old(Open()) && Attached(w, h) && old(state) == Settled(w)
      ensures L(w).list.Live? && Due(w, h)
    {
      hide Total, HandlerSize, Prefix, Users;
      var before := old(attached.At(w));
      assert attached.At(w)[..|attached.At(w)| - 1] == before;
    }

    twostate lemma DueOther(w: Side, new h: Handler)
      requires Lists() && old(Open()) && Attached(w, h) && old(state) == Settled(Other(w))
      ensures L(w).list == Spent && Open()
    {
      hide Total, HandlerSize, Prefix, Users;
      assert L(w).Off();
    }

    method AddOnly(w: Side, h: Handler)
      requires Lists() && Due(w, h) && (L(w).memory == None || L(w).firing)
      modifies L(w)
      ensures Open() && Potential() == old(Potential()) + HandlerSize(h)
      ensures L(w).firing == old(L(w).firing)
    {
      hide Due, Open, Potential;
      var l := L(w);
      DueIsLive(w, h);
      l.list := Live(l.list.items + [User(h)]);
      if l.firing { PushedFiring(w, h); } else { PushedWaiting(w, h); }
    }

    lemma DueIsLive(w: Side, h: Handler)
      requires Due(w, h)
      ensures L(w).list.Live? && |attached.At(w)| >= 1
    {}

    twostate predicate Pushed(w: Side, h: Handler)
      reads this, done, fail, progress
    {
      && unchanged(this) && unchanged(L(Other(w))) && unchanged(progress)
      && unchanged(L(w)`firing, L(w)`memory, L(w)`locked, L(w)`queue, L(w)`firingIndex)
      && old(L(w).list.Live?) && L(w).list == Live(old(L(w).list.items) + [User(h)])
    }

    twostate lemma PushedFiring(w: Side, new h: Handler)
      requires Lists() && old(Due(w, h)) && L(w).firing && Pushed(w, h)
      ensures Open() && Potential() == old(Potential()) + HandlerSize(h)
    {
      hide Total, HandlerSize, Prefix, Users;
      var l := L(w);
      var hs, items, n := attached.At(w), old(l.list.items), l.firingIndex + 1;
      var before := hs[..|hs| - 1];
      assert hs == before + [h];
      UsersAppend(before[|ran.At(w)|..], h);
      assert before[|ran.At(w)|..] + [h] == hs[|ran.At(w)|..];
      TotalAppend(items[n..], User(h));
      assert l.list.items[n..] == items[n..] + [User(h)];
      assert Firing(w);
    }

    twostate lemma PushedWaiting(w: Side, new h: Handler)
      requires Lists() && old(Due(w, h)) && !L(w).firing && L(w).memory == None && Pushed(w, h)
      ensures Open() && Potential() == old(Potential()) + HandlerSize(h)
    {
      hide Total, HandlerSize, Prefix, Users;
      var hs, items := attached.At(w), old(L(w).list.items);
      var before := hs[..|hs| - 1];
      assert hs == before + [h];
      TotalAppend(items, User(h));
      UsersAppend(before, h);
      assert items + [User(h)] == Prefix(w) + Users(hs);
      assert Waiting(w);
    }

    method AddAgain(w: Side, h: Handler)
      requires Lists() && Due(w, h) && L(w).memory != None && !L(w).firing && state != Pending
      modifies this, done, fail, progress
      ensures Open() && Kept() && Potential() <= old(Potential()) + HandlerSize(h) && attached == old(Final(w))
      decreases Potential() + HandlerSize(h), 4
    {
      hide Total, HandlerSize, Prefix, Final;
      var l := L(w);
      l.firingIndex := |l.list.items| - 1;
      l.queue := l.queue + [l.memory.v];
      TotalAppend(l.list.items, User(h));
      l.list := Live(l.list.items + [User(h)]);
      ghost var hs := attached.At(w);
      assert hs[|ran.At(w)|..] == [h];
      Fire(w, l.memory.v);
    }

    /** Before and between the three callbacks that come first. */
    ghost predicate Early(w: Side, v: int)
      reads this, done, fail, progress
    {
      && L(w).firing && L(w).locked && L(w).memory == Some(v) && L(w).queue == [] && -1 <= L(w).firingIndex <= 1
      && L(w).list == Live(Prefix(w) + Users(attached.At(w))) && ran == Sides([], [])
      && (if L(w).firingIndex == -1 then state == Pending else state == Settled(w) && value == v)
      && (if L(w).firingIndex < 1 then Waiting(Other(w)) else L(Other(w)).Off())
      && progress.Idle([])
    }

    ghost predicate Running(w: Side, v: int)
      reads this, done, fail, progress
    {
      state == Settled(w) && value == v && Open() && Firing(w)
    }

    /** All callbacks of the list have been called. */
    ghost predicate Ended(w: Side, v: int)
      reads this, done, fail, progress
    {
      && state == Settled(w) && value == v
      && L(w).firing && L(w).locked && L(w).memory == Some(v) && L(w).queue == [] && L(w).list.Live?
      && InOrder(w) && |ran.At(w)| == |attached.At(w)|
      && L(Other(w)).Off() && ran.At(Other(w)) == [] && progress.Off()
    }

    /** One call is queued, and has not begun. */
    ghost predicate Ready(w: Side, v: int, started: bool)
      reads this, done, fail, progress
    {
      && L(w).firing == started && (started ==> L(w).locked)
      && L(w).queue == [v] && L(w).firingIndex == -1 && L(w).list.Live?
      && match state
         case Pending =>
           && L(w).list.items == Prefix(w) + Users(attached.At(w)) && ran == Sides([], [])
           && Waiting(Other(w)) && progress.Idle([])
         case Settled(s) =>
           && s == w && v == value && InOrder(w)
           && L(w).list.items == Users(attached.At(w)[|ran.At(w)|..])
           && L(Other(w)).Off() && ran.At(Other(w)) == [] && progress.Off()
    }

    twostate predicate Grown()
      reads this, done, fail
    {
      && (old(state) != Pending ==> state == old(state) && value == old(value))
      && old(attached.done) <= attached.done && old(attached.fail) <= attached.fail
      && old(ran.done) <= ran.done && old(ran.fail) <= ran.fail
    }

    method Fire(w: Side, ghost v: int)
      requires Lists() && Ready(w, v, false)
      modifies this, done, fail, progress
      ensures Open() && Grown() && Potential() <= old(Potential()) && !L(w).firing && !L(Other(w)).firing
      ensures state == Settled(w) && value == v && attached == old(Final(w))
      decreases Potential(), 3
    {
      hide Ready, Early, Running, Ended, Open, Potential, Final;
      Start(w, v);
      while |L(w).queue| > 0
        invariant if L(w).queue == [] then Ended(w, v) && L(w).firingIndex == -1 else Ready(w, v, true)
        invariant Grown() && (L(w).queue != [] ==> Potential() <= old(Potential())) && Final(w) == old(Final(w))
        decreases |L(w).queue|
      {
        Take(w, v);
        Round(w, v);
        Rewind(w, v);
      }
      FinalEnded(w, v);
      Close(w, v);
    }

    /** `locked = options.once; firing = true` */
    method Start(w: Side, ghost v: int)
      requires Lists() && Ready(w, v, false)
      modifies L(w)
      ensures Ready(w, v, true) && Potential() <= old(Potential()) && L(w).queue == [v]
    {
      hide Total, Users, Prefix;
      var l := L(w);
      assert l.list.items[0..] == l.list.items;
      l.locked := l.once;
      l.firing := true;
    }

    /** `memory = queue.shift()` */
    method Take(w: Side, ghost v: int)
      requires Lists() && Ready(w, v, true) && L(w).queue != []
      modifies L(w)
      ensures (Early(w, v) || Running(w, v)) && Potential() <= old(Potential())
    {
      hide Total, Prefix;
      var l := L(w);
      assert l.list.items[0..] == l.list.items;
      l.memory, l.queue := Some(l.queue[0]), l.queue[1..];
    }

    /** `firingIndex = -1` */
    method Rewind(w: Side, ghost v: int)
      requires Lists() && Ended(w, v)
      modifies L(w)
      ensures Ended(w, v) && L(w).queue == [] && L(w).firingIndex == -1
    {
      L(w).firingIndex := -1;
    }

    /** What follows the loop. */
    method Close(w: Side, ghost v: int)
      requires Lists() && Ended(w, v) && L(w).firingIndex == -1
      modifies L(w)
      ensures Open() && Potential() == 0 && !L(w).firing && !L(Other(w)).firing && state == Settled(w) && value == v
    {
      hide Users, Prefix;
      var l := L(w);
      l.memory := if l.keeps then l.memory else None;
      l.firing := false;
      if l.locked {
        l.list := if l.memory != None then Live([]) else Spent;
      }
    }

    /** `while (++firingIndex < list.length) list[firingIndex].apply(...)` */
    method Round(w: Side, ghost v: int)
      requires Lists() && (Early(w, v) || Running(w, v))
      modifies this, done, fail, progress
      ensures Ended(w, v) && Grown() && Potential() <= old(Potential()) && Final(w) == old(Final(w))
      decreases Potential(), 2
    {
      hide Early, Running, Ended, Potential, Final;
      var more := true;
      while more
        invariant if more then Early(w, v) || Running(w, v) else Ended(w, v)
        invariant Grown() && Potential() <= old(Potential()) && Final(w) == old(Final(w))
        decreases Potential(), more
      {
        more := Turn(w, v);
      }
    }

    method Turn(w: Side, ghost v: int) returns (more: bool)
      requires Lists() && (Early(w, v) || Running(w, v))
      modifies this, done, fail, progress
      ensures if more then (Early(w, v) || Running(w, v)) && Potential() < old(Potential()) else Ended(w, v)
      ensures Grown() && Potential() <= old(Potential()) && Final(w) == old(Final(w))
      decreases Potential(), 1
    {
      hide Early, Running, Ended, Potential, Open, Firing, Total, Prefix, Users, Final;
      var l := L(w);
      Upcoming(w, v);
      var items, next := Items(l.list), l.firingIndex + 1;
      more := next < |items|;
      if !more {
        l.firingIndex := next;
        NoneLeft(w, v);
      } else if items[next].User? {
        CallUser(w, v, items[next].h);
      } else {
        CallFirst(w, v, items[next]);
      }
    }

    /** The callback that is called next. */
    lemma Upcoming(w: Side, v: int)
      requires Lists() && (Early(w, v) || Running(w, v))
      ensures var items, next := Items(L(w).list), L(w).firingIndex + 1;
              && 0 <= next <= |items|
              && (next < |items| && items[next].User? ==>
                    Running(w, v) && |ran.At(w)| < |attached.At(w)| && items[next].h == attached.At(w)[|ran.At(w)|])
              && (next < |items| && !items[next].User? ==> Early(w, v) && next < 3 && items[next] == Prefix(w)[next])
              && (next == |items| ==> Running(w, v) && |ran.At(w)| == |attached.At(w)|)
    {
      hide Users;
      var items, next := Items(L(w).list), L(w).firingIndex + 1;
      if Early(w, v) {
        assert items[next] == Prefix(w)[next];
      } else if next < |items| {
        assert items[next] == items[next..][0];
      }
    }

    twostate lemma NoneLeft(w: Side, new v: int)
      requires Lists() && old(Running(w, v)) && old(|ran.At(w)| == |attached.At(w)|)
      requires L(w).firing == old(L(w).firing) && L(w).locked == old(L(w).locked) && L(w).memory == old(L(w).memory)
      requires L(w).queue == old(L(w).queue) && L(w).list == old(L(w).list) && unchanged(L(Other(w))) && unchanged(progress)
      requires unchanged(this) && L(w).firingIndex == |Items(L(w).list)| == old(L(w).firingIndex) + 1
      ensures Ended(w, v) && Potential() <= old(Potential())
    {
      hide Users, Total;
    }

    /** The three callbacks that the constructor put in. */
    method CallFirst(w: Side, ghost v: int, c: Callback)
      requires Lists() && Early(w, v) && -1 <= L(w).firingIndex < 2 && c == Prefix(w)[L(w).firingIndex + 1]
      modifies this, done, fail, progress
      ensures (Early(w, v) || Running(w, v)) && Potential() < old(Potential()) && Grown()
      ensures attached == old(attached) && ran == old(ran)
    {
      hide Early, Running, Potential;
      match c
      case SetState(side) => CallSetState(w, v);
      case Disable(side) => CallDisable(w, v);
      case LockProgress => CallLock(w, v);
    }

    method CallSetState(w: Side, ghost v: int)
      requires Lists() && Early(w, v) && L(w).firingIndex == -1
      modifies this, L(w)
      ensures Early(w, v) && Potential() < old(Potential()) && Grown() && attached == old(attached) && ran == old(ran)
    {
      hide Users, Total, Prefix, CallbackSize;
      var l := L(w);
      OneLess(l.list.items, l.firingIndex + 1);
      l.firingIndex := l.firingIndex + 1;
      state := Settled(w);
      value := v;
    }

    method CallDisable(w: Side, ghost v: int)
      requires Lists() && Early(w, v) && L(w).firingIndex == 0
      modifies done, fail
      ensures Early(w, v) && Potential() < old(Potential())
    {
      hide Early, Potential, CallbackList.Off;
      var l := L(w);
      l.firingIndex := l.firingIndex + 1;
      L(Other(w)).Disable();
      DisabledEarly(w, v);
      DisabledLess(w, v);
    }

    twostate predicate DisabledOther(w: Side)
      reads this, done, fail, progress
    {
      && unchanged(this) && unchanged(progress)
      && unchanged(L(w)`firing, L(w)`memory, L(w)`locked, L(w)`queue, L(w)`list)
      && L(w).firingIndex == old(L(w).firingIndex) + 1 == 1
      && L(Other(w)).locked && L(Other(w)).queue == [] && L(Other(w)).list == Spent && L(Other(w)).memory == None
      && L(Other(w)).firing == old(L(Other(w)).firing)
    }

    twostate lemma DisabledEarly(w: Side, new v: int)
      requires Lists() && old(Early(w, v)) && DisabledOther(w)
      ensures Early(w, v)
    {
      hide Users, Prefix;
    }

    twostate lemma DisabledLess(w: Side, new v: int)
      requires Lists() && old(Early(w, v)) && DisabledOther(w)
      ensures Potential() < old(Potential())
    {
      assert Total([]) == 0;
      hide Users, Total, Prefix, CallbackSize;
      OneLess(L(w).list.items, 0 + 1);
    }

    method CallLock(w: Side, ghost v: int)
      requires Lists() && Early(w, v) && L(w).firingIndex == 1
      modifies L(w), progress
      ensures Running(w, v) && Potential() < old(Potential())
    {
      hide Users, Total;
      var l := L(w);
      OneLess(l.list.items, l.firingIndex + 1);
      l.firingIndex := l.firingIndex + 1;
      progress.Lock();
      assert l.list.items[3..] == Users(attached.At(w));
    }

    lemma OneLess(items: seq<Callback>, n: nat)
      requires n < |items|
      ensures Total(items[n..]) == CallbackSize(items[n]) + Total(items[n + 1..])
    {
      hide CallbackSize;
      assert items[n..][1..] == items[n + 1..];
    }

    /** The handler is taken from the list and is being called. */
    method Enter(w: Side, ghost v: int, h: Handler)
      requires Lists() && Running(w, v) && |ran.At(w)| < |attached.At(w)| && h == attached.At(w)[|ran.At(w)|]
      modifies `ran, L(w)`firingIndex
      ensures Running(w, v) && Potential() + ScriptSize(h.script) < old(Potential()) && Busy()
      ensures ran == old(ran).With(w, old(ran).At(w) + [Run(h, v)])
    {
      hide Users, Total, ScriptSize, Prefix;
      var l := L(w);
      ghost var items, n := l.list.items, l.firingIndex + 1;
      ghost var hs, k := attached.At(w), |ran.At(w)|;
      OneLess(items, n);
      assert items[n..][1..] == items[n + 1..] && hs[k..][1..] == hs[k + 1..];
      UsersRest(hs[k..]);
      l.firingIndex := l.firingIndex + 1;
      ran := ran.With(w, ran.At(w) + [Run(h, v)]);
    }

    method CallUser(w: Side, ghost v: int, h: Handler)
      requires Lists() && Running(w, v) && |ran.At(w)| < |attached.At(w)| && h == attached.At(w)[|ran.At(w)|]
      modifies this, done, fail, progress
      ensures Running(w, v) && Potential() < old(Potential()) && Grown() && Final(w) == old(Final(w))
      decreases Potential(), 0
    {
      hide Open, Firing, Potential, ScriptSize, Plus, Filled;
      FilledNext(attached, w, |ran.At(w)|);
      Enter(w, v, h);
      ghost var m := |ran.At(w)|;
      Execute(h.script);
      StillRunning(w);
      PlusLonger(old(attached), h.script, w);
    }

    /** Whoever is being called goes on being called. */
    lemma StillRunning(w: Side)
      requires Open() && state == Settled(w) && L(w).firing
      ensures Firing(w)
    {
      hide Users;
    }

    lemma PlusLonger(a: Sides<seq<Handler>>, ops: seq<Op>, w: Side)
      ensures a.At(w) <= Plus(a, ops).At(w) && a.At(Other(w)) <= Plus(a, ops).At(Other(w))
    {}

    lemma PlusNext(a: Sides<seq<Handler>>, ops: seq<Op>)
      requires ops != []
      ensures Plus(Plus(a, [ops[0]]), ops[1..]) == Plus(a, ops)
    {
      hide Attachments;
      var head, rest := [ops[0]], ops[1..];
      assert ops == head + rest;
      AttachmentsAppend(head, rest, DoneSide);
      AttachmentsAppend(head, rest, FailSide);
      Regrouped(a.done, Attachments(head, DoneSide), Attachments(rest, DoneSide));
      Regrouped(a.fail, Attachments(head, FailSide), Attachments(rest, FailSide));
    }

    lemma Regrouped(a: seq<Handler>, b: seq<Handler>, c: seq<Handler>)
      ensures a + b + c == a + (b + c)
    {}

    lemma PlusNone(a: Sides<seq<Handler>>)
      ensures Plus(a, []) == a
    {
      assert a.done + [] == a.done && a.fail + [] == a.fail;
    }

    lemma PlusOne(a: Sides<seq<Handler>>, op: Op)
      ensures Plus(a, [op]) == if op.Attach? then a.With(op.side, a.At(op.side) + [op.h]) else a
    {
      assert a.done + [] == a.done && a.fail + [] == a.fail;
      OneOp(op, DoneSide);
      OneOp(op, FailSide);
    }

    lemma OneOp(op: Op, w: Side)
      ensures Attachments([op], w) == if op.Attach? && op.side == w then [op.h] else []
    {
      var ops := [op];
      assert ops[1..] == [] && Attachments(ops[1..], w) == [];
    }

    lemma BusyOpen()
      requires Open()
      ensures Busy() <==> state.Settled? && L(state.side).firing
      ensures state == Pending ==> !done.firing && !fail.firing
    {}

    lemma WhichList(w: Side)
      requires Open()
      ensures L(w).list.Live? <==> state != Settled(Other(w))
      ensures state == Settled(w) ==> L(w).memory != None
      ensures state == Pending ==> L(w).memory == None
    {}

    lemma FinalPending(w: Side)
      requires Open()
      ensures state == Pending ==> Final(w) == Filled(attached.With(w, []), w, attached.At(w))
      ensures state != Pending <==> L(w).locked
    {
      hide Filled, Users, Total;
      if state == Pending {
        assert ran.At(w) == [] && attached.At(w)[..0] == [] && attached.At(w)[0..] == attached.At(w);
      }
    }

    lemma FinalEnded(w: Side, v: int)
      requires Ended(w, v)
      ensures Final(w) == attached
    {
      hide Filled;
      var hs := attached.At(w);
      assert hs[..|hs|] == hs && hs[|hs|..] == [] && attached.With(w, hs) == attached;
      FilledNone(attached, w);
    }

    twostate lemma FinalDue(w: Side, new h: Handler)
      requires old(Open()) && Attached(w, h)
      ensures old(state) == Settled(w) && !old(Busy()) ==> Final(w) == Filled(old(attached), w, [h])
    {
      hide Filled, Users, Total;
      if old(state) == Settled(w) && !old(Busy()) {
        var hs, m := attached.At(w), |ran.At(w)|;
        assert m == |hs| - 1 && hs[..m] == old(attached).At(w) && hs[m..] == [h];
        assert attached.With(w, hs[..m]) == old(attached);
      }
    }

    lemma UsersRest(hs: seq<Handler>)
      requires hs != []
      ensures Users(hs)[1..] == Users(hs[1..]) && Users(hs)[0] == User(hs[0])
    {}
  }

  /** The first call of resolve or reject decides. */
  function FirstSettled(ops: seq<Op>): (s: State) {
    if ops == [] then Pending else if ops[0].Settle? then Settled(ops[0].side) else FirstSettled(ops[1..])
  }

  function FirstValue(ops: seq<Op>): (v: int) {
    if ops == [] then 0 else if ops[0].Settle? then ops[0].v else FirstValue(ops[1..])
  }

  /** The calls before the one that settles, and those from it on. */
  function Before(ops: seq<Op>): (r: seq<Op>) {
    if ops == [] || ops[0].Settle? then [] else [ops[0]] + Before(ops[1..])
  }

  function From(ops: seq<Op>): (r: seq<Op>) {
    if ops == [] || ops[0].Settle? then ops else From(ops[1..])
  }

  /** Each attachment with all that is called because of it, one after another. */
  function OneByOne(ops: seq<Op>, w: Side): (r: seq<Handler>) {
    if ops == [] then []
    else (if ops[0].Attach? && ops[0].side == w then Served([ops[0].h], w) else []) + OneByOne(ops[1..], w)
  }

  /** Who is called: first those attached before, with all that follows from them, then each
      later one in its turn. */
  function Expected(ops: seq<Op>, w: Side): (r: seq<Handler>) {
    Served(Attachments(Before(ops), w), w) + OneByOne(From(ops), w)
  }

  function Called(hs: seq<Handler>, v: int): (r: seq<Run>)
    ensures |r| == |hs| && forall i :: 0 <= i < |hs| ==> r[i] == Run(hs[i], v)
  {
    seq(|hs|, i requires 0 <= i < |hs| => Run(hs[i], v))
  }

  function Told(s: Story, ops: seq<Op>): (r: Story)
    decreases |ops|
  {
    if ops == [] then s else Told(After(s, ops[0]), ops[1..])
  }

  const Untold: Story := Story(Pending, 0, Sides([], []))

  /** Any run from the outside: the object is settled once, by the first call that settles
      it; the handlers of that side are then called with the value, exactly those expected
      and in this order; of the other side, or of an object still pending, none is called. */
  method RunAll(ops: seq<Op>) returns (d: Deferred)
    ensures fresh(d) && d.state == FirstSettled(ops)
    ensures d.state == Pending ==> d.ran == Sides([], []) && forall w :: d.attached.At(w) == Attachments(ops, w)
    ensures forall w :: d.state == Settled(w) ==>
              && d.ran.At(Other(w)) == [] && d.attached.At(w) == Expected(ops, w)
              && d.ran.At(w) == Called(Expected(ops, w), FirstValue(ops))
  {
    hide Deferred.Open, Deferred.Potential, After, Expected;
    d := new Deferred();
    var i := 0;
    assert ops[0..] == ops;
    while i < |ops|
      invariant i <= |ops| && d.Lists() && d.Open() && !d.done.firing && !d.fail.firing
      invariant fresh(d) && fresh(d.done) && fresh(d.fail) && fresh(d.progress)
      invariant Told(d.Told(), ops[i..]) == Told(Untold, ops)
    {
      assert ops[i..][1..] == ops[i + 1..];
      d.Do(ops[i]);
      i := i + 1;
    }
    Outcome(d);
    ToldIs(ops);
    assert d.Told() == Told(Untold, ops);
  }

  lemma Outcome(d: Deferred)
    requires d.Lists() && d.Open() && !d.done.firing && !d.fail.firing
    ensures d.state == Pending ==> d.ran == Sides([], [])
    ensures forall w :: d.state == Settled(w) ==>
              d.ran.At(Other(w)) == [] && d.ran.At(w) == Called(d.attached.At(w), d.value)
  {}

  lemma ToldIs(ops: seq<Op>)
    ensures var s := Told(Untold, ops);
            && s.state == FirstSettled(ops)
            && (s.state == Pending ==> forall w :: s.attached.At(w) == Attachments(ops, w))
            && (forall w :: s.state == Settled(w) ==> s.value == FirstValue(ops) && s.attached.At(w) == Expected(ops, w))
  {
    hide After, Served, Attachments, OneByOne, Told;
    ToldPending(Untold, ops);
    assert forall w: Side, hs: seq<Handler> :: Untold.attached.At(w) + hs == hs;
  }

  lemma {:induction false} ToldPending(s: Story, ops: seq<Op>)
    requires s.state == Pending
    ensures var t := Told(s, ops);
            && t.state == FirstSettled(ops)
            && (t.state == Pending ==> forall w :: t.attached.At(w) == s.attached.At(w) + Attachments(ops, w))
            && (forall w :: t.state == Settled(w) ==> t.value == FirstValue(ops))
            && (forall w :: t.state == Settled(w) ==>
                  t.attached.At(w) == Served(s.attached.At(w) + Attachments(Before(ops), w), w) + OneByOne(From(ops), w))
    decreases |ops|
  {
    hide Served;
    if ops == [] { return; }
    var t := After(s, ops[0]);
    match ops[0]
    case Settle(w, v) =>
      ToldSettled(t, ops[1..], w);
      SettledFirst(ops, w);
      assert s.attached.At(w) + [] == s.attached.At(w);
    case Attach(x, h) =>
      ToldPending(t, ops[1..]);
      AttachedFirst(s.attached, ops);
  }

  lemma SettledFirst(ops: seq<Op>, w: Side)
    requires ops != [] && ops[0].Settle? && ops[0].side == w
    ensures Attachments(Before(ops), w) == [] && From(ops) == ops && OneByOne(ops, w) == OneByOne(ops[1..], w)
  {}

  lemma AttachedFirst(a: Sides<seq<Handler>>, ops: seq<Op>)
    requires ops != [] && ops[0].Attach?
    ensures var b := a.With(ops[0].side, a.At(ops[0].side) + [ops[0].h]);
            forall w :: b.At(w) + Attachments(ops[1..], w) == a.At(w) + Attachments(ops, w)
                     && b.At(w) + Attachments(Before(ops[1..]), w) == a.At(w) + Attachments(Before(ops), w)
    ensures From(ops) == From(ops[1..])
  {
    var before := [ops[0]] + Before(ops[1..]);
    assert Before(ops) == before && before[1..] == Before(ops[1..]) && before[0] == ops[0];
    forall w
      ensures var b := a.With(ops[0].side, a.At(ops[0].side) + [ops[0].h]);
              b.At(w) + Attachments(ops[1..], w) == a.At(w) + Attachments(ops, w)
              && b.At(w) + Attachments(Before(ops[1..]), w) == a.At(w) + Attachments(Before(ops), w)
    {
      AttachesFirst(a, ops, w);
      AttachesFirst(a, before, w);
    }
  }

  lemma AttachesFirst(a: Sides<seq<Handler>>, ops: seq<Op>, w: Side)
    requires ops != [] && ops[0].Attach?
    ensures var b := a.With(ops[0].side, a.At(ops[0].side) + [ops[0].h]);
            b.At(w) + Attachments(ops[1..], w) == a.At(w) + Attachments(ops, w)
  {}

  lemma {:induction false} ToldSettled(s: Story, ops: seq<Op>, w: Side)
    requires s.state == Settled(w)
    ensures var t := Told(s, ops);
            t.state == s.state && t.value == s.value && t.attached.At(w) == s.attached.At(w) + OneByOne(ops, w)
    decreases |ops|
  {
    hide Served;
    if ops != [] { ToldSettled(After(s, ops[0]), ops[1..], w); }
  }
}
