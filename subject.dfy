/**
 * The video game subject: it owns the state of the latest news and the
 * ordered list of attached observers, and notifies every observer, in
 * attachment order, each time news leaks.
 */
module VideoGame {
  import opened Wrappers
  import opened Gamers

  /** The range `rand(0..10)` draws the state from, both ends included. */
  const MinState: int := 0
  const MaxState: int := 10

  // ---------------------------------------------------------------------
  // Removing an observer: Ruby's Array#delete
  // ---------------------------------------------------------------------

  /** The list without any occurrence of `x`, the others kept in order. */
  function RemoveAll<T(==)>(s: seq<T>, x: T): (r: seq<T>)
    ensures x !in r
    ensures forall k :: 0 <= k < |s| && s[k] != x ==> s[k] in r
    ensures forall k :: 0 <= k < |r| ==> r[k] in s && r[k] != x
  {
    if s == [] then []
    else
      var rest := RemoveAll(s[1..], x);
      assert forall k :: 1 <= k < |s| ==> s[k] == s[1..][k - 1];
      if s[0] == x then rest
      else
        assert forall k :: 1 <= k < |rest| + 1 ==> ([s[0]] + rest)[k] == rest[k - 1];
        [s[0]] + rest
  }

  /** Removal takes out every copy of `x` and leaves every other element's count alone. */
  lemma {:induction false} RemoveAllCounts<T>(s: seq<T>, x: T)
    ensures multiset(RemoveAll(s, x)) == multiset(s)[x := 0]
    ensures |RemoveAll(s, x)| == |s| - multiset(s)[x]
  {
    if s != [] {
      var t := s[1..];
      RemoveAllCounts(t, x);
      assert multiset(s) == multiset(t) + multiset{s[0]} by {
        assert s == [s[0]] + t;
      }
      assert multiset(RemoveAll(s, x)) == multiset(RemoveAll(t, x)) + (if s[0] == x then multiset{} else multiset{s[0]});
      ZeroAfterAdd(multiset(t), s[0], x);
    }
  }

  /** Clearing the count of `x` after adding one `a`. */
  lemma ZeroAfterAdd<T>(m: multiset<T>, a: T, x: T)
    ensures (m + multiset{a})[x := 0] == if a == x then m[x := 0] else m[x := 0] + multiset{a}
  {
  }

  /** Removal works piecewise: the survivors keep their relative order. */
  lemma {:induction false} RemoveAllAppend<T>(a: seq<T>, b: seq<T>, x: T)
    ensures RemoveAll(a + b, x) == RemoveAll(a, x) + RemoveAll(b, x)
  {
    if a == [] {
      assert a + b == b;
    } else {
      assert (a + b)[1..] == a[1..] + b;
      RemoveAllAppend(a[1..], b, x);
    }
  }

  /** Removing an element that is not there changes nothing. */
  lemma {:induction false} RemoveAllAbsent<T>(s: seq<T>, x: T)
    requires x !in s
    ensures RemoveAll(s, x) == s
  {
    if s != [] {
      RemoveAllAbsent(s[1..], x);
    }
  }

  /** Detaching twice is detaching once. */
  lemma {:induction false} RemoveAllIdempotent<T>(s: seq<T>, x: T)
    ensures RemoveAll(RemoveAll(s, x), x) == RemoveAll(s, x)
  {
    RemoveAllAbsent(RemoveAll(s, x), x);
  }

  /** Detaching right after a first attach restores the list. */
  lemma {:induction false} AttachThenDetach<T>(s: seq<T>, x: T)
    requires x !in s
    ensures RemoveAll(s + [x], x) == s
  {
    RemoveAllAppend(s, [x], x);
    RemoveAllAbsent(s, x);
  }

  // ---------------------------------------------------------------------
  // Notifying: one `update` call per entry, in list order
  // ---------------------------------------------------------------------

  /** One call of `update`: the observer and the state it read. */
  datatype Delivery = Delivery(to: Observer, seen: Option<int>)

  /**
   * The outcome of a notification: the calls made, in order, the reactions
   * shown, in order, and the error that stopped it, if any.
   */
  datatype Run = Run(delivered: seq<Delivery>, trace: seq<Reaction>, raised: Option<Error>)

  const NoRun := Run([], [], None)

  /** A run that has not failed, extended by one call of `update`. */
  function Step(run: Run, o: Observer, state: Option<int>): Run {
    var response := o.Update(state);
    Run(run.delivered + [Delivery(o, state)],
        run.trace + Emitted(response),
        if response.Raised? then Some(response.error) else None)
  }

  /**
   * What notifying the observers `obs` with the subject's state does.  The
   * subject does not catch what an observer raises, so the first failure
   * ends the notification.
   */
  function Broadcast(obs: seq<Observer>, state: Option<int>): (r: Run)
    ensures |r.delivered| <= |obs|
    ensures forall k :: 0 <= k < |r.delivered| ==> r.delivered[k] == Delivery(obs[k], state)
    ensures r.raised.None? ==> |r.delivered| == |obs|
    ensures state.Some? ==> r.raised.None?
    ensures |r.trace| <= |r.delivered|
  {
    if obs == [] then NoRun
    else
      var prev := Broadcast(obs[..|obs| - 1], state);
      if prev.raised.Some? then prev else Step(prev, obs[|obs| - 1], state)
  }

  /** The run of `first` followed, unless it failed, by the run `second`. */
  function Then(first: Run, second: Run): Run {
    if first.raised.Some? then first
    else Run(first.delivered + second.delivered, first.trace + second.trace, second.raised)
  }

  /** Notifying `a + b` is notifying `a`, then, if nothing was raised, `b`. */
  lemma {:induction false} BroadcastAppend(a: seq<Observer>, b: seq<Observer>, state: Option<int>)
    ensures Broadcast(a + b, state) == Then(Broadcast(a, state), Broadcast(b, state))
    decreases |b|
  {
    var ra := Broadcast(a, state);
    if b == [] {
      assert a + b == a;
      assert ra.raised.None? ==> ra.delivered + [] == ra.delivered && ra.trace + [] == ra.trace;
    } else {
      var b', x := b[..|b| - 1], b[|b| - 1];
      assert (a + b)[..|a + b| - 1] == a + b';
      assert (a + b)[|a + b| - 1] == x;
      BroadcastAppend(a, b', state);
      if ra.raised.None? {
        StepThen(ra, Broadcast(b', state), x, state);
      }
    }
  }

  /** One more call after a run that did not fail extends its second part. */
  lemma StepThen(first: Run, second: Run, o: Observer, state: Option<int>)
    requires first.raised.None?
    ensures Step(Then(first, second), o, state) == Then(first, Step(second, o, state))
  {
    var d, e := [Delivery(o, state)], Emitted(o.Update(state));
    assert (first.delivered + second.delivered) + d == first.delivered + (second.delivered + d);
    assert (first.trace + second.trace) + e == first.trace + (second.trace + e);
  }

  /** Notifying one entry more, after a prefix that did not fail. */
  lemma BroadcastNext(obs: seq<Observer>, i: nat, state: Option<int>)
    requires i < |obs|
    ensures Broadcast(obs[..i + 1], state) ==
      var prev := Broadcast(obs[..i], state);
      if prev.raised.Some? then prev else Step(prev, obs[i], state)
  {
    assert obs[..i + 1][..i] == obs[..i];
  }

  /** A prefix that failed, or the whole list, decides the whole notification. */
  lemma BroadcastRest(obs: seq<Observer>, i: nat, state: Option<int>)
    requires i <= |obs|
    requires i < |obs| ==> Broadcast(obs[..i], state).raised.Some?
    ensures Broadcast(obs, state) == Broadcast(obs[..i], state)
  {
    if i < |obs| {
      BroadcastAppend(obs[..i], obs[i..], state);
      assert obs[..i] + obs[i..] == obs;
    } else {
      assert obs[..i] == obs;
    }
  }

  /**
   * The reaction trace as the in-order concatenation of each observer's own
   * reaction to a state that has been set.
   */
  function Reactions(obs: seq<Observer>, state: int): seq<Reaction> {
    if obs == [] then [] else Emitted(obs[0].Update(Some(state))) + Reactions(obs[1..], state)
  }

  /** Once the state is set, the notification trace is that concatenation. */
  lemma {:induction false} BroadcastTrace(obs: seq<Observer>, state: int)
    ensures Broadcast(obs, Some(state)).trace == Reactions(obs, state)
  {
    if obs != [] {
      assert obs == [obs[0]] + obs[1..];
      BroadcastAppend([obs[0]], obs[1..], Some(state));
      assert [obs[0]][..0] == [];
      BroadcastTrace(obs[1..], state);
    }
  }

  /** For an urgent state (below 3) every observer reacts, in list order. */
  lemma {:induction false} UrgentNewsReachesEveryone(obs: seq<Observer>, state: int)
    requires state < CasualThreshold
    ensures |Reactions(obs, state)| == |obs|
    ensures forall k :: 0 <= k < |obs| ==> Reactions(obs, state)[k] == obs[k].Kind()
  {
    if obs != [] {
      UrgentNewsReachesEveryone(obs[1..], state);
      assert forall k :: 1 <= k < |obs| ==> Reactions(obs, state)[k] == Reactions(obs[1..], state)[k - 1];
    }
  }

  /** The number of pro gamers in a list of observers. */
  function ProCount(obs: seq<Observer>): nat {
    if obs == [] then 0 else (if obs[0].Pro? then 1 else 0) + ProCount(obs[1..])
  }

  /** For a minor state (3 and above) exactly the pro gamers react. */
  lemma {:induction false} MinorNewsReachesOnlyPros(obs: seq<Observer>, state: int)
    requires CasualThreshold <= state
    ensures |Reactions(obs, state)| == ProCount(obs)
    ensures forall r :: r in Reactions(obs, state) ==> r == ProfessionalReaction
  {
    if obs != [] {
      MinorNewsReachesOnlyPros(obs[1..], state);
    }
  }

  /**
   * Before the first leak the state is unset: pro gamers still react, but the
   * first casual gamer raises and ends the notification.
   */
  lemma {:induction false} UnsetStateFailsAtFirstCasual(obs: seq<Observer>)
    ensures Broadcast(obs, None).raised.Some? <==> exists k :: 0 <= k < |obs| && obs[k].Casual?
    ensures forall k :: 0 <= k < |Broadcast(obs, None).trace| ==> Broadcast(obs, None).trace[k] == ProfessionalReaction
    ensures var r := Broadcast(obs, None);
      |r.trace| == |r.delivered| - (if r.raised.Some? then 1 else 0)
    ensures Broadcast(obs, None).raised.Some? ==>
      var n := |Broadcast(obs, None).delivered|;
      0 < n && obs[n - 1].Casual? && (forall k :: 0 <= k < n - 1 ==> obs[k].Pro?)
  {
    if obs != [] {
      var init := obs[..|obs| - 1];
      UnsetStateFailsAtFirstCasual(init);
      assert forall k :: 0 <= k < |init| ==> init[k] == obs[k];
    }
  }

  // ---------------------------------------------------------------------
  // The subject
  // ---------------------------------------------------------------------

  class VideoGameSubject {
    /** The attached observers, in attachment order; duplicates allowed. */
    var observers: seq<Observer>
    /** The importance of the latest news; unset until the first leak. */
    var state: Option<int>

    /** The state, once set, was drawn from the closed range [0, 10]. */
    ghost predicate Valid()
      reads this
    {
      state.Some? ==> MinState <= state.value <= MaxState
    }

    /** A new subject has no observers and no state. */
    constructor ()
      ensures Valid()
      ensures observers == [] && state == None
    {
      observers := [];
      state := None;
    }

    /** Appends `o` and returns the updated list. */
    method Attach(o: Observer) returns (list: seq<Observer>)
      requires Valid()
      modifies this
      ensures Valid()
      ensures observers == old(observers) + [o] && state == old(state)
      ensures list == observers
    {
      observers := observers + [o];
      list := observers;
    }

    /**
     * Removes every occurrence of `o`; returns `o` if it was attached and
     * nothing otherwise.
     */
    method Detach(o: Observer) returns (removed: Option<Observer>)
      requires Valid()
      modifies this
      ensures Valid()
      ensures observers == RemoveAll(old(observers), o) && state == old(state)
      ensures removed == if o in old(observers) then Some(o) else None
    {
      removed := if o in observers then Some(o) else None;
      observers := RemoveAll(observers, o);
    }

    /**
     * Calls `update` on each observer in list order; neither the list nor
     * the state changes.
     */
    method Notify() returns (run: Run)
      ensures run == Broadcast(observers, state)
    {
      run := NoRun;
      var i := 0;
      while i < |observers| && run.raised.None?
        invariant 0 <= i <= |observers|
        invariant run == Broadcast(observers[..i], state)
      {
        var o := observers[i];
        var response := o.Update(state);
        BroadcastNext(observers, i, state);
        run := Run(run.delivered + [Delivery(o, state)],
                   run.trace + Emitted(response),
                   if response.Raised? then Some(response.error) else None);
        i := i + 1;
      }
      BroadcastRest(observers, i, state);
    }

    /**
     * News leaks with the importance `draw`: the state becomes `draw`, then
     * every attached observer is notified of it once.
     */
    method NewsLeakedWithDraw(draw: int) returns (run: Run)
      requires Valid()
      requires MinState <= draw <= MaxState
      modifies this
      ensures Valid()
      ensures state == Some(draw) && observers == old(observers)
      ensures run == Broadcast(observers, state)
      ensures run.raised.None? && run.trace == Reactions(observers, draw)
      ensures |run.delivered| == |observers|
      ensures forall k :: 0 <= k < |observers| ==> run.delivered[k] == Delivery(observers[k], Some(draw))
    {
      state := Some(draw);
      run := Notify();
      BroadcastTrace(observers, draw);
    }

    /** News leaks with an importance drawn at random from [0, 10]. */
    method VideoGameContentNewsLeaked() returns (run: Run)
      requires Valid()
      modifies this
      ensures Valid()
      ensures state.Some? && MinState <= state.value <= MaxState
      ensures observers == old(observers)
      ensures run == Broadcast(observers, state)
      ensures run.raised.None? && |run.delivered| == |observers|
      ensures forall k :: 0 <= k < |observers| ==> run.delivered[k] == Delivery(observers[k], state)
    {
      var draw :| MinState <= draw <= MaxState;
      run := NewsLeakedWithDraw(draw);
    }
  }

  // ---------------------------------------------------------------------
  // Subscription histories
  // ---------------------------------------------------------------------

  /** One registration call made on a subject. */
  datatype Subscription = Attached(who: Observer) | Detached(who: Observer)

  /** The observer list after the calls `ops`, made in order on a new subject. */
  function Replay(ops: seq<Subscription>): seq<Observer> {
    if ops == [] then []
    else
      var prev := Replay(ops[..|ops| - 1]);
      match ops[|ops| - 1]
      case Attached(o) => prev + [o]
      case Detached(o) => RemoveAll(prev, o)
  }

  /** `x` has an attach call in `ops` that no later detach call of `x` undoes. */
  ghost predicate StillAttached(ops: seq<Subscription>, x: Observer) {
    exists i :: 0 <= i < |ops| && ops[i] == Attached(x) &&
      forall j :: i < j < |ops| ==> ops[j] != Detached(x)
  }

  /**
   * A notification reaches exactly the observers attached and not detached
   * since.
   */
  lemma {:induction false} ReplayMembership(ops: seq<Subscription>, x: Observer)
    ensures x in Replay(ops) <==> StillAttached(ops, x)
  {
    if x in Replay(ops) {
      ReplayOnlyAttached(ops, x);
    }
    if StillAttached(ops, x) {
      ReplayKeepsAttached(ops, x);
    }
  }

  /** Only an observer attached and not detached since is in the list. */
  lemma {:induction false} ReplayOnlyAttached(ops: seq<Subscription>, x: Observer)
    requires x in Replay(ops)
    ensures StillAttached(ops, x)
  {
    var init := ops[..|ops| - 1];
    var n := |ops| - 1;
    var prev := Replay(init);
    if ops[n] == Attached(x) {
      assert ops[n] == Attached(x);
    } else {
      assert x in prev by {
        if ops[n].Detached? {
          var k :| 0 <= k < |Replay(ops)| && Replay(ops)[k] == x;
        }
      }
      ReplayOnlyAttached(init, x);
      var i :| 0 <= i < |init| && init[i] == Attached(x) &&
        forall j :: i < j < |init| ==> init[j] != Detached(x);
      assert ops[i] == Attached(x);
      assert forall j :: i < j < |ops| ==> ops[j] != Detached(x) by {
        forall j | i < j < |ops| ensures ops[j] != Detached(x) {
          if j < n {
            assert ops[j] == init[j];
          }
        }
      }
    }
  }

  /** An observer attached and not detached since is in the list. */
  lemma {:induction false} ReplayKeepsAttached(ops: seq<Subscription>, x: Observer)
    requires StillAttached(ops, x)
    ensures x in Replay(ops)
  {
    var init := ops[..|ops| - 1];
    var n := |ops| - 1;
    var i :| 0 <= i < |ops| && ops[i] == Attached(x) &&
      forall j :: i < j < |ops| ==> ops[j] != Detached(x);
    if i < n {
      assert init[i] == Attached(x);
      assert forall j :: i < j < |init| ==> init[j] != Detached(x) by {
        forall j | i < j < |init| ensures init[j] != Detached(x) {
          assert init[j] == ops[j];
        }
      }
      ReplayKeepsAttached(init, x);
      var prev := Replay(init);
      var k :| 0 <= k < |prev| && prev[k] == x;
      if ops[n].Attached? {
        assert (prev + [ops[n].who])[k] == x;
      }
    }
  }
}
