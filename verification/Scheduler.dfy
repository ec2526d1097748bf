/**
 * The deterministic timer scheduler of frontend/mock/scheduler.ts: a clock that moves only when
 * told to, and timers that run in (time, id) order while their callbacks schedule and cancel more.
 *
 * A callback is a piece of data (`action`) and a function `run` that interprets it on the state the
 * callbacks close over (`world`) together with the timers themselves.
 */
module Scheduler {
  import opened Common

  datatype Timer<A> = Timer(id: nat, at: int, action: A)

  datatype Timers<A> = Timers(clock: int, nextId: nat, pending: seq<Timer<A>>)

  datatype State<W, A> = State(world: W, timers: Timers<A>)

  /** One callback run: which timer, and what the clock read. */
  datatype Firing<A> = Firing(timer: Timer<A>, clock: int)

  datatype Run<W, A> = Run(state: State<W, A>, fired: seq<Firing<A>>)

  /** The order in which two due timers run. */
  predicate Earlier<A>(a: Timer<A>, b: Timer<A>) {
    a.at < b.at || (a.at == b.at && a.id < b.id)
  }

  function Without<A(==)>(pending: seq<Timer<A>>, gone: Timer<A>): seq<Timer<A>> {
    Filter(pending, (t: Timer<A>) => t != gone)
  }

  function WithoutId<A>(pending: seq<Timer<A>>, id: nat): seq<Timer<A>> {
    Filter(pending, (t: Timer<A>) => t.id != id)
  }

  /** `schedule`: a negative delay counts as none. The new timer's id is the old `nextId`. */
  function Scheduled<A>(ts: Timers<A>, delay: int, action: A): Timers<A> {
    Timers(ts.clock, ts.nextId + 1, ts.pending + [Timer(ts.nextId, ts.clock + Max(0, delay), action)])
  }

  function Cancelled<A>(ts: Timers<A>, id: nat): Timers<A> {
    ts.(pending := WithoutId(ts.pending, id))
  }

  /** The timer `takeDue` picks: the earliest of those due by `until`. */
  function NextDue<A>(pending: seq<Timer<A>>, until: int): (due: Option<Timer<A>>)
    ensures due.Some? ==> due.value in pending && due.value.at <= until
    ensures due.Some? ==> forall t | t in pending && t.at <= until :: !Earlier(t, due.value)
    ensures due.None? ==> forall t | t in pending :: t.at > until
  {
    if pending == [] then None
    else
      var before, t := NextDue(pending[..|pending| - 1], until), pending[|pending| - 1];
      if t.at > until then before
      else if before.None? || Earlier(t, before.value) then Some(t)
      else before
  }

  // ---------------------------------------------------------------------------------------------
  // What schedule and cancel calls do to the timers
  // ---------------------------------------------------------------------------------------------

  ghost predicate DistinctIds<A>(pending: seq<Timer<A>>) {
    forall i, j | 0 <= i < j < |pending| :: pending[i].id != pending[j].id
  }

  ghost predicate WellFormed<A>(ts: Timers<A>) {
    && DistinctIds(ts.pending)
    && forall t | t in ts.pending :: t.id < ts.nextId
  }

  /** No pending timer is behind the clock. */
  ghost predicate NotOverdue<A>(ts: Timers<A>) {
    forall t | t in ts.pending :: t.at >= ts.clock
  }

  /** `b` is what some schedule and cancel calls can make of `a`: the clock stands still, and every
      timer left was there before or is new, with a new id and a time no earlier than now. */
  ghost predicate Extends<A>(a: Timers<A>, b: Timers<A>) {
    && b.clock == a.clock
    && a.nextId <= b.nextId
    && forall t | t in b.pending ::
         t in a.pending || (a.nextId <= t.id < b.nextId && t.at >= a.clock)
  }

  lemma FilterKeepsDistinct<A>(pending: seq<Timer<A>>, keep: Timer<A> -> bool)
    requires DistinctIds(pending)
    ensures DistinctIds(Filter(pending, keep))
  {
    FilterPairwise(pending, keep, (a: Timer<A>, b: Timer<A>) => a.id != b.id);
  }

  lemma DistinctElements<A>(pending: seq<Timer<A>>, a: Timer<A>, b: Timer<A>)
    requires DistinctIds(pending) && a in pending && b in pending && a.id == b.id
    ensures a == b
  {
    var i :| 0 <= i < |pending| && pending[i] == a;
    var j :| 0 <= j < |pending| && pending[j] == b;
    assert i == j;
  }

  lemma ScheduleExtends<A>(ts: Timers<A>, delay: int, action: A)
    requires WellFormed(ts)
    ensures WellFormed(Scheduled(ts, delay, action)) && Extends(ts, Scheduled(ts, delay, action))
  {
    forall i | 0 <= i < |ts.pending| ensures ts.pending[i].id < ts.nextId {
      assert ts.pending[i] in ts.pending;
    }
  }

  lemma CancelExtends<A>(ts: Timers<A>, id: nat)
    requires WellFormed(ts)
    ensures WellFormed(Cancelled(ts, id)) && Extends(ts, Cancelled(ts, id))
  {
    FilterKeepsDistinct(ts.pending, (t: Timer<A>) => t.id != id);
  }

  /** A callback that only schedules and cancels. */
  ghost predicate Lawful<W(!new), A(!new)>(run: (A, State<W, A>) -> State<W, A>) {
    forall a: A, s: State<W, A> {:trigger run(a, s)} | WellFormed(s.timers) ::
      WellFormed(run(a, s).timers) && Extends(s.timers, run(a, s).timers)
  }

  // ---------------------------------------------------------------------------------------------
  // Advancing
  // ---------------------------------------------------------------------------------------------

  /** The timers as the callback of `due` finds them: without `due`, at its time. */
  function Taken<A(==)>(ts: Timers<A>, due: Timer<A>): Timers<A> {
    Timers(Max(ts.clock, due.at), ts.nextId, Without(ts.pending, due))
  }

  function Fire<W, A(==)>(run: (A, State<W, A>) -> State<W, A>, s: State<W, A>, due: Timer<A>): State<W, A> {
    run(due.action, State(s.world, Taken(s.timers, due)))
  }

  /** The loop of `advance`, at most `n` times round. */
  function FireN<W, A(==)>(run: (A, State<W, A>) -> State<W, A>, s: State<W, A>, until: int, n: nat): Run<W, A>
    decreases n
  {
    if n == 0 then Run(s, [])
    else
      match NextDue(s.timers.pending, until)
      case None => Run(s, [])
      case Some(t) =>
        var rest := FireN(run, Fire(run, s, t), until, n - 1);
        Run(rest.state, [Firing(t, Max(s.timers.clock, t.at))] + rest.fired)
  }

  predicate Quiet<W, A>(s: State<W, A>, until: int) {
    NextDue(s.timers.pending, until).None?
  }

  /** The loop ends, and `n` rounds are enough for it. */
  predicate Settles<W, A(==)>(run: (A, State<W, A>) -> State<W, A>, s: State<W, A>, until: int, n: nat) {
    Quiet(FireN(run, s, until, n).state, until)
  }

  function AtTime<W, A>(s: State<W, A>, clock: int): State<W, A> {
    s.(timers := s.timers.(clock := clock))
  }

  /** `advance(ms)`: the state it leaves and what it ran, once `n` rounds are enough (`Settles`). */
  function Advanced<W, A(==)>(run: (A, State<W, A>) -> State<W, A>, s: State<W, A>, ms: int, n: nat): Run<W, A> {
    var until := s.timers.clock + ms;
    var r := FireN(run, s, until, n);
    Run(AtTime(r.state, until), r.fired)
  }

  /** Once the loop has ended, more rounds change nothing: the outcome does not depend on `n`. */
  lemma {:induction false} MoreRounds<W, A>(run: (A, State<W, A>) -> State<W, A>, s: State<W, A>, until: int, n: nat, m: nat)
    requires Settles(run, s, until, n) && n <= m
    ensures FireN(run, s, until, m) == FireN(run, s, until, n)
    decreases n
  {
    if n != 0 {
      match NextDue(s.timers.pending, until)
      case None =>
      case Some(t) => MoreRounds(run, Fire(run, s, t), until, n - 1, m - 1);
    }
  }

  /** The loop, first round first. */
  lemma FirstRound<W, A>(run: (A, State<W, A>) -> State<W, A>, s: State<W, A>, until: int, n: nat, t: Timer<A>)
    requires NextDue(s.timers.pending, until) == Some(t)
    ensures n == 0 ==> !Settles(run, s, until, n)
    ensures n != 0 ==>
              var rest := FireN(run, Fire(run, s, t), until, n - 1);
              FireN(run, s, until, n) == Run(rest.state, [Firing(t, Max(s.timers.clock, t.at))] + rest.fired)
  {
  }

  lemma NoRound<W, A>(run: (A, State<W, A>) -> State<W, A>, s: State<W, A>, until: int, n: nat)
    requires Quiet(s, until)
    ensures FireN(run, s, until, n) == Run(s, [])
  {
  }

  /** Splitting the loop after `k` rounds. */
  lemma {:induction false} FireNSplit<W, A>(run: (A, State<W, A>) -> State<W, A>, s: State<W, A>, until: int, k: nat, m: nat)
    ensures var first := FireN(run, s, until, k);
            var second := FireN(run, first.state, until, m);
            FireN(run, s, until, k + m) == Run(second.state, first.fired + second.fired)
    decreases k
  {
    hide NextDue, Filter;
    if k == 0 {
      var second := FireN(run, s, until, m);
      assert [] + second.fired == second.fired;
    } else {
      match NextDue(s.timers.pending, until)
      case None =>
        assert FireN(run, s, until, m) == Run(s, []);
      case Some(t) =>
        FireNSplit(run, Fire(run, s, t), until, k - 1, m);
        var rest := FireN(run, Fire(run, s, t), until, k - 1);
        var second := FireN(run, rest.state, until, m);
        var head := [Firing(t, Max(s.timers.clock, t.at))];
        assert head + (rest.fired + second.fired) == (head + rest.fired) + second.fired;
    }
  }

  // --- Composition: advance(a); advance(b) is advance(a + b) ------------------------------------

  /** A timer picked under a nearer deadline is the one picked under a farther deadline. */
  lemma {:induction false} NextDueFarther<A>(pending: seq<Timer<A>>, near: int, far: int)
    requires near <= far
    ensures NextDue(pending, near).Some? ==> NextDue(pending, far) == NextDue(pending, near)
    ensures NextDue(pending, near).None? && NextDue(pending, far).Some? ==> NextDue(pending, far).value.at > near
  {
    if pending != [] {
      NextDueFarther(pending[..|pending| - 1], near, far);
    }
  }

  /** Where the clock stands when nothing is due by it does not matter to what fires later. */
  lemma ClockForgotten<W, A>(run: (A, State<W, A>) -> State<W, A>, s: State<W, A>, near: int, far: int, m: nat)
    requires s.timers.clock <= near <= far && Quiet(s, near)
    ensures var x, y := FireN(run, s, far, m), FireN(run, AtTime(s, near), far, m);
            x.fired == y.fired && AtTime(x.state, far) == AtTime(y.state, far)
  {
    NextDueFarther(s.timers.pending, near, far);
    if m != 0 && NextDue(s.timers.pending, far).Some? {
      var t := NextDue(s.timers.pending, far).value;
      assert Taken(s.timers, t) == Taken(AtTime(s, near).timers, t);
      assert Fire(run, s, t) == Fire(run, AtTime(s, near), t);
    }
  }

  /** `joint` is `first` and then `second`, up to where the clock is put at the end. */
  ghost predicate Joins<W, A>(first: Run<W, A>, second: Run<W, A>, joint: Run<W, A>, until: int) {
    && joint.fired == first.fired + second.fired
    && AtTime(joint.state, until) == AtTime(second.state, until)
    && Quiet(joint.state, until) == Quiet(second.state, until)
  }

  /** The first `advance` followed by the second runs the same loop as the joint one. */
  lemma {:induction false} JoinRounds<W(!new), A(!new)>(run: (A, State<W, A>) -> State<W, A>, s: State<W, A>, near: int, far: int, n: nat, m: nat)
    requires Lawful(run) && WellFormed(s.timers)
    requires s.timers.clock <= near <= far
    requires Settles(run, s, near, n)
    requires Settles(run, AtTime(FireN(run, s, near, n).state, near), far, m)
    ensures Joins(FireN(run, s, near, n), FireN(run, AtTime(FireN(run, s, near, n).state, near), far, m),
                  FireN(run, s, far, n + m), far)
    decreases n
  {
    hide NextDue, Filter, FireN;
    match NextDue(s.timers.pending, near)
    case None =>
      NoRound(run, s, near, n);
      JoinQuiet(run, s, near, far, n, m);
    case Some(t) =>
      NextDueFarther(s.timers.pending, near, far);
      TakenExtends(s.timers, t);
      FirstRound(run, s, near, n, t);
      FirstRound(run, s, far, n + m, t);
      JoinRounds(run, Fire(run, s, t), near, far, n - 1, m);
      var rest := FireN(run, Fire(run, s, t), near, n - 1);
      var second := FireN(run, AtTime(rest.state, near), far, m);
      var head := [Firing(t, Max(s.timers.clock, t.at))];
      assert head + (rest.fired + second.fired) == (head + rest.fired) + second.fired;
  }

  lemma JoinQuiet<W, A>(run: (A, State<W, A>) -> State<W, A>, s: State<W, A>, near: int, far: int, n: nat, m: nat)
    requires s.timers.clock <= near <= far && Quiet(s, near)
    requires Settles(run, AtTime(s, near), far, m)
    ensures FireN(run, s, near, n) == Run(s, [])
    ensures Joins(Run(s, []), FireN(run, AtTime(s, near), far, m), FireN(run, s, far, n + m), far)
  {
    hide NextDue, Filter;
    ClockForgotten(run, s, near, far, m);
    var x, y := FireN(run, s, far, m), FireN(run, AtTime(s, near), far, m);
    assert x.state.timers.pending == AtTime(x.state, far).timers.pending;
    MoreRounds(run, s, far, m, n + m);
    assert [] + y.fired == y.fired;
  }

  lemma TakenExtends<A>(ts: Timers<A>, due: Timer<A>)
    requires WellFormed(ts) && due in ts.pending
    ensures WellFormed(Taken(ts, due))
    ensures forall t | t in ts.pending && t != due :: t in Taken(ts, due).pending
    ensures forall t | t in Taken(ts, due).pending :: t in ts.pending && t.id != due.id
  {
    FilterKeepsDistinct(ts.pending, (t: Timer<A>) => t != due);
    forall t | t in Taken(ts, due).pending ensures t.id != due.id {
      if t.id == due.id { DistinctElements(ts.pending, t, due); }
    }
  }

  /** `advance(a); advance(b)` runs the same callbacks at the same clock readings and leaves the same
      state as `advance(a + b)`. */
  lemma AdvanceComposes<W(!new), A(!new)>(run: (A, State<W, A>) -> State<W, A>, s: State<W, A>, a: nat, b: nat, n: nat, m: nat)
    requires Lawful(run) && WellFormed(s.timers)
    requires Settles(run, s, s.timers.clock + a, n)
    requires Settles(run, Advanced(run, s, a, n).state, s.timers.clock + a + b, m)
    ensures Settles(run, s, s.timers.clock + (a + b), n + m)
    ensures var first := Advanced(run, s, a, n);
            var second := Advanced(run, first.state, b, m);
            Advanced(run, s, a + b, n + m) == Run(second.state, first.fired + second.fired)
  {
    hide NextDue, FireN, Filter;
    JoinRounds(run, s, s.timers.clock + a, s.timers.clock + a + b, n, m);
  }

  /** The converse: when the joint advance ends, so do both parts. */
  lemma {:induction false} AdvanceSplits<W(!new), A(!new)>(run: (A, State<W, A>) -> State<W, A>, s: State<W, A>, a: nat, b: nat, k: nat)
    requires Lawful(run) && WellFormed(s.timers)
    requires Settles(run, s, s.timers.clock + (a + b), k)
    ensures Settles(run, s, s.timers.clock + a, k)
    ensures Settles(run, Advanced(run, s, a, k).state, s.timers.clock + a + b, k)
    ensures var first := Advanced(run, s, a, k);
            var second := Advanced(run, first.state, b, k);
            Advanced(run, s, a + b, k) == Run(second.state, first.fired + second.fired)
  {
    hide NextDue, FireN, Filter;
    SplitRounds(run, s, s.timers.clock + a, s.timers.clock + a + b, k);
    AdvanceComposes(run, s, a, b, k, k);
    MoreRounds(run, s, s.timers.clock + (a + b), k, k + k);
  }

  lemma {:induction false} SplitRounds<W(!new), A(!new)>(run: (A, State<W, A>) -> State<W, A>, s: State<W, A>, near: int, far: int, k: nat)
    requires Lawful(run) && WellFormed(s.timers)
    requires s.timers.clock <= near <= far && Settles(run, s, far, k)
    ensures Settles(run, s, near, k)
    ensures Settles(run, AtTime(FireN(run, s, near, k).state, near), far, k)
    decreases k
  {
    hide NextDue, Filter, FireN;
    NextDueFarther(s.timers.pending, near, far);
    match NextDue(s.timers.pending, near)
    case None =>
      NoRound(run, s, near, k);
      ClockForgotten(run, s, near, far, k);
      var x, y := FireN(run, s, far, k).state, FireN(run, AtTime(s, near), far, k).state;
      assert x.timers.pending == AtTime(x, far).timers.pending;
    case Some(t) =>
      TakenExtends(s.timers, t);
      FirstRound(run, s, far, k, t);
      FirstRound(run, s, near, k, t);
      if k != 0 {
        var s' := Fire(run, s, t);
        SplitRounds(run, s', near, far, k - 1);
        var mid := AtTime(FireN(run, s', near, k - 1).state, near);
        MoreRounds(run, mid, far, k - 1, k);
      }
  }

  // --- Order and exactly once -------------------------------------------------------------------

  ghost predicate InOrder<A>(fired: seq<Firing<A>>) {
    forall i, j | 0 <= i < j < |fired| :: Earlier(fired[i].timer, fired[j].timer)
  }

  /** Everything a callback leaves pending runs after it. */
  lemma FireLeavesLater<W(!new), A(!new)>(run: (A, State<W, A>) -> State<W, A>, s: State<W, A>, until: int, t: Timer<A>)
    requires Lawful(run) && WellFormed(s.timers)
    requires NextDue(s.timers.pending, until) == Some(t)
    ensures var s' := Fire(run, s, t);
            && WellFormed(s'.timers)
            && s'.timers.clock == Max(s.timers.clock, t.at)
            && s.timers.nextId <= s'.timers.nextId
            && (forall u | u in s'.timers.pending :: Earlier(t, u) || u.at > until)
            && (forall u | u in s'.timers.pending :: u in s.timers.pending || (s.timers.nextId <= u.id < s'.timers.nextId && u.at >= s'.timers.clock))
            && (forall u | u in s'.timers.pending :: u.id != t.id)
            && (NotOverdue(s.timers) ==> NotOverdue(s'.timers))
  {
    TakenExtends(s.timers, t);
    var s' := Fire(run, s, t);
    var taken := Taken(s.timers, t);
    assert Extends(taken, s'.timers);
    forall u | u in s'.timers.pending
      ensures Earlier(t, u) || u.at > until
      ensures NotOverdue(s.timers) ==> u.at >= s'.timers.clock
    {
      if u in taken.pending {
        assert u in s.timers.pending && u.id != t.id;
        assert u.at <= until ==> !Earlier(u, t);
      }
    }
  }

  /** What a timer run or left pending by some rounds can be. */
  ghost predicate FromRounds<A>(before: Timers<A>, after: Timers<A>, t: Timer<A>) {
    t in before.pending || before.nextId <= t.id < after.nextId
  }

  /** `advance` only runs due timers; each was pending at the start or is new; while none is overdue
      each runs with the clock at exactly its own time; and what it leaves pending is not overdue. */
  lemma {:induction false} FiredWhenDue<W(!new), A(!new)>(run: (A, State<W, A>) -> State<W, A>, s: State<W, A>, until: int, n: nat)
    requires Lawful(run) && WellFormed(s.timers) && NotOverdue(s.timers)
    ensures var r := FireN(run, s, until, n);
            && WellFormed(r.state.timers) && NotOverdue(r.state.timers)
            && s.timers.nextId <= r.state.timers.nextId
            && (s.timers.clock <= until ==> s.timers.clock <= r.state.timers.clock <= until)
            && (forall f | f in r.fired :: f.clock == f.timer.at && s.timers.clock <= f.clock <= until)
            && (forall f | f in r.fired :: FromRounds(s.timers, r.state.timers, f.timer))
            && (forall u | u in r.state.timers.pending :: FromRounds(s.timers, r.state.timers, u))
    decreases n
  {
    hide NextDue, Filter;
    if n != 0 && NextDue(s.timers.pending, until).Some? {
      var t := NextDue(s.timers.pending, until).value;
      FireLeavesLater(run, s, until, t);
      FiredWhenDue(run, Fire(run, s, t), until, n - 1);
    }
  }

  /** `advance` runs its timers in strictly ascending (time, id) order, so none twice. */
  lemma {:induction false} FiredInOrder<W(!new), A(!new)>(run: (A, State<W, A>) -> State<W, A>, s: State<W, A>, until: int, n: nat)
    requires Lawful(run) && WellFormed(s.timers)
    ensures InOrder(FireN(run, s, until, n).fired)
    decreases n
  {
    hide NextDue, Filter;
    if n != 0 && NextDue(s.timers.pending, until).Some? {
      var t := NextDue(s.timers.pending, until).value;
      var s' := Fire(run, s, t);
      FireLeavesLater(run, s, until, t);
      FiredInOrder(run, s', until, n - 1);
      FiredAfter(run, s', until, n - 1, t);
      var rest := FireN(run, s', until, n - 1);
      PrependInOrder(Firing(t, Max(s.timers.clock, t.at)), rest.fired);
    }
  }

  lemma PrependInOrder<A>(f: Firing<A>, rest: seq<Firing<A>>)
    requires InOrder(rest) && forall g | g in rest :: Earlier(f.timer, g.timer)
    ensures InOrder([f] + rest)
  {
    var all := [f] + rest;
    forall i, j | 0 <= i < j < |all| ensures Earlier(all[i].timer, all[j].timer) {
      assert all[j] == rest[j - 1] && rest[j - 1] in rest;
    }
  }

  /** If everything pending runs after `t` or not at all, so does everything the rounds run. */
  lemma {:induction false} FiredAfter<W(!new), A(!new)>(run: (A, State<W, A>) -> State<W, A>, s: State<W, A>, until: int, n: nat, t: Timer<A>)
    requires Lawful(run) && WellFormed(s.timers)
    requires t.at <= s.timers.clock && t.id < s.timers.nextId
    requires forall u | u in s.timers.pending :: Earlier(t, u) || u.at > until
    ensures forall f | f in FireN(run, s, until, n).fired :: Earlier(t, f.timer)
    decreases n
  {
    hide NextDue, Filter;
    if n != 0 && NextDue(s.timers.pending, until).Some? {
      var due := NextDue(s.timers.pending, until).value;
      FireLeavesLater(run, s, until, due);
      FiredAfter(run, Fire(run, s, due), until, n - 1, t);
    }
  }

  /** `t` was dropped by the callback of round `j`: there when it started, gone when it returned. */
  ghost predicate CancelledBy<W, A>(run: (A, State<W, A>) -> State<W, A>, s: State<W, A>, until: int, j: nat, t: Timer<A>) {
    var before, after := FireN(run, s, until, j).state, FireN(run, s, until, j + 1).state;
    && NextDue(before.timers.pending, until).Some?
    && t in Taken(before.timers, NextDue(before.timers.pending, until).value).pending
    && t !in after.timers.pending
  }

  /** Every timer that is pending at any point of an advance and due by its end runs in it, unless a
      callback cancels it first; a timer due later does not run. */
  lemma {:induction false} DueTimersRun<W(!new), A(!new)>(run: (A, State<W, A>) -> State<W, A>, s: State<W, A>, until: int, n: nat, k: nat, t: Timer<A>)
    returns (j: nat)
    requires Lawful(run) && WellFormed(s.timers)
    requires Settles(run, s, until, n) && k <= n
    requires t in FireN(run, s, until, k).state.timers.pending && t.at <= until
    ensures k <= j < |FireN(run, s, until, n).fired|
    ensures FireN(run, s, until, n).fired[j].timer == t || CancelledBy(run, s, until, j, t)
    decreases n - k
  {
    hide NextDue, Filter, FireN, Lawful, Settles;
    var here := FireN(run, s, until, k);
    var due := NextDue(here.state.timers.pending, until);
    RoundAfter(run, s, until, n, k);
    var next := FireN(run, s, until, k + 1);
    if t == due.value || t !in next.state.timers.pending {
      WellFormedRounds(run, s, until, k);
      if t != due.value { TakenExtends(here.state.timers, due.value); }
      j := k;
    } else {
      j := DueTimersRun(run, s, until, n, k + 1, t);
    }
  }

  /** After `k` rounds with something still due there is one more, and it runs the timer that is next. */
  lemma RoundAfter<W, A>(run: (A, State<W, A>) -> State<W, A>, s: State<W, A>, until: int, n: nat, k: nat)
    requires Settles(run, s, until, n) && k <= n && NextDue(FireN(run, s, until, k).state.timers.pending, until).Some?
    ensures k < n && k < |FireN(run, s, until, n).fired|
    ensures var here := FireN(run, s, until, k).state;
            var due := NextDue(here.timers.pending, until).value;
            FireN(run, s, until, k + 1).state == Fire(run, here, due) && FireN(run, s, until, n).fired[k].timer == due
  {
    hide NextDue, Filter, FireN;
    var here := FireN(run, s, until, k);
    var due := NextDue(here.state.timers.pending, until).value;
    FireNSplit(run, s, until, k, n - k);
    FirstRound(run, here.state, until, n - k, due);
    FirstRound(run, here.state, until, 1, due);
    NoRounds(run, Fire(run, here.state, due), until);
    FireNSplit(run, s, until, k, 1);
    RoundsRun(run, s, until, k);
  }

  lemma NoRounds<W, A>(run: (A, State<W, A>) -> State<W, A>, s: State<W, A>, until: int)
    ensures FireN(run, s, until, 0) == Run(s, [])
  {
  }

  lemma {:induction false} WellFormedRounds<W(!new), A(!new)>(run: (A, State<W, A>) -> State<W, A>, s: State<W, A>, until: int, k: nat)
    requires Lawful(run) && WellFormed(s.timers)
    ensures WellFormed(FireN(run, s, until, k).state.timers)
    decreases k
  {
    if k != 0 && NextDue(s.timers.pending, until).Some? {
      var t := NextDue(s.timers.pending, until).value;
      FireLeavesLater(run, s, until, t);
      WellFormedRounds(run, Fire(run, s, t), until, k - 1);
    }
  }

  /** While something is still due, every round ran a callback. */
  lemma {:induction false} RoundsRun<W, A>(run: (A, State<W, A>) -> State<W, A>, s: State<W, A>, until: int, k: nat)
    requires !Quiet(FireN(run, s, until, k).state, until)
    ensures |FireN(run, s, until, k).fired| == k
    decreases k
  {
    if k != 0 {
      var t := NextDue(s.timers.pending, until).value;
      RoundsRun(run, Fire(run, s, t), until, k - 1);
    }
  }

  /** A timer that has run or been cancelled is gone for good: its id never runs or pends again. */
  lemma {:induction false} GoneForGood<W(!new), A(!new)>(run: (A, State<W, A>) -> State<W, A>, s: State<W, A>, until: int, n: nat, id: nat)
    requires Lawful(run) && WellFormed(s.timers)
    requires id < s.timers.nextId && forall t | t in s.timers.pending :: t.id != id
    ensures forall f | f in FireN(run, s, until, n).fired :: f.timer.id != id
    ensures forall t | t in FireN(run, s, until, n).state.timers.pending :: t.id != id
    decreases n
  {
    if n != 0 && NextDue(s.timers.pending, until).Some? {
      var t := NextDue(s.timers.pending, until).value;
      FireLeavesLater(run, s, until, t);
      GoneForGood(run, Fire(run, s, t), until, n - 1, id);
    }
  }

  // --- Termination ------------------------------------------------------------------------------

  function Born<A>(pending: seq<Timer<A>>, from: nat): seq<Timer<A>> {
    Filter(pending, (t: Timer<A>) => t.id >= from)
  }

  /** Each callback leaves at most `k` new timers, none sooner than `d` ms from now. */
  ghost predicate Rearms<W(!new), A(!new)>(run: (A, State<W, A>) -> State<W, A>, d: int, k: nat) {
    forall a: A, s: State<W, A> {:trigger run(a, s)} | WellFormed(s.timers) ::
      var born := Born(run(a, s).timers.pending, s.timers.nextId);
      |born| <= k && forall t | t in born :: t.at >= s.timers.clock + d
  }

  /** How many times a timer at `at` can be re-armed by `d` and still run by `until`. */
  function Generations(at: int, until: int, d: int): nat
    requires d > 0
    decreases until - at
  {
    if at > until then 0 else 1 + Generations(at + d, until, d)
  }

  /** The most firings one timer with that many generations ahead of it can cause. */
  function Offspring(generations: nat, k: nat): nat {
    if generations == 0 then 0 else 1 + k * Offspring(generations - 1, k)
  }

  function Potential<A>(pending: seq<Timer<A>>, until: int, d: int, k: nat): nat
    requires d > 0
  {
    if pending == [] then 0
    else Potential(pending[..|pending| - 1], until, d, k) + Offspring(Generations(pending[|pending| - 1].at, until, d), k)
  }

  lemma {:induction false} OffspringMonotone(g: nat, h: nat, k: nat)
    requires g <= h
    ensures Offspring(g, k) <= Offspring(h, k)
  {
    if g != 0 {
      OffspringMonotone(g - 1, h - 1, k);
      MulMonotone(k, Offspring(g - 1, k), Offspring(h - 1, k));
    }
  }

  lemma MulMonotone(k: nat, a: nat, b: nat)
    requires a <= b
    ensures k * a <= k * b
  {
  }

  lemma {:induction false} GenerationsMonotone(at: int, later: int, until: int, d: int)
    requires d > 0 && at <= later
    ensures Generations(later, until, d) <= Generations(at, until, d)
    decreases until - at
  {
    if later <= until {
      GenerationsMonotone(at + d, later + d, until, d);
    }
  }

  lemma {:induction false} PotentialConcat<A>(a: seq<Timer<A>>, b: seq<Timer<A>>, until: int, d: int, k: nat)
    requires d > 0
    ensures Potential(a + b, until, d, k) == Potential(a, until, d, k) + Potential(b, until, d, k)
  {
    if b == [] {
      assert a + b == a;
    } else {
      assert (a + b)[..|a + b| - 1] == a + b[..|b| - 1];
      PotentialConcat(a, b[..|b| - 1], until, d, k);
    }
  }

  /** Taking one timer out lowers the potential by that timer's share. */
  lemma PotentialRemove<A>(p: seq<Timer<A>>, t: Timer<A>, until: int, d: int, k: nat)
    requires d > 0 && DistinctIds(p) && t in p
    ensures Potential(p, until, d, k) == Potential(Without(p, t), until, d, k) + Offspring(Generations(t.at, until, d), k)
  {
    hide Potential, Without;
    var i :| 0 <= i < |p| && p[i] == t;
    var a, b := p[..i], p[i + 1..];
    assert p == a + [t] + b;
    WithoutOne(a, t, b);
    PotentialConcat(a + [t], b, until, d, k);
    PotentialConcat(a, [t], until, d, k);
    PotentialConcat(a, b, until, d, k);
    PotentialOne(t, until, d, k);
  }

  lemma PotentialOne<A>(t: Timer<A>, until: int, d: int, k: nat)
    requires d > 0
    ensures Potential([t], until, d, k) == Offspring(Generations(t.at, until, d), k)
  {
    assert [t][..0] == [];
  }

  lemma WithoutOne<A>(a: seq<Timer<A>>, t: Timer<A>, b: seq<Timer<A>>)
    requires DistinctIds(a + [t] + b)
    ensures Without(a + [t] + b, t) == a + b
  {
    hide Filter;
    var all, other := a + [t] + b, (u: Timer<A>) => u != t;
    assert all[|a|] == t;
    forall u | u in a ensures other(u) {
      var i :| 0 <= i < |a| && a[i] == u;
      assert all[i] == u;
    }
    forall u | u in b ensures other(u) {
      var i :| 0 <= i < |b| && b[i] == u;
      assert all[|a| + 1 + i] == u;
    }
    FilterConcat(a + [t], b, other);
    FilterConcat(a, [t], other);
    FilterAllOrNone(a, other);
    FilterAllOrNone(b, other);
    FilterAllOrNone([t], other);
    assert a + [] == a;
  }

  /** Dropping and reordering distinct timers never raises the potential. */
  lemma {:induction false} PotentialSubset<A>(p: seq<Timer<A>>, q: seq<Timer<A>>, until: int, d: int, k: nat)
    requires d > 0 && DistinctIds(p) && DistinctIds(q)
    requires forall t | t in p :: t in q
    ensures Potential(p, until, d, k) <= Potential(q, until, d, k)
    decreases |p|
  {
    if p != [] {
      var front, t := p[..|p| - 1], p[|p| - 1];
      assert t in q;
      PotentialRemove(q, t, until, d, k);
      FilterKeepsDistinct(q, (u: Timer<A>) => u != t);
      forall u | u in front ensures u in Without(q, t) {
        var i :| 0 <= i < |front| && front[i] == u;
        assert p[i].id != t.id && p[i] in p;
      }
      PotentialSubset(front, Without(q, t), until, d, k);
    }
  }

  lemma {:induction false} PotentialBound<A>(p: seq<Timer<A>>, g: nat, until: int, d: int, k: nat)
    requires d > 0 && forall t | t in p :: Generations(t.at, until, d) <= g
    ensures Potential(p, until, d, k) <= |p| * Offspring(g, k)
  {
    if p != [] {
      var front, t := p[..|p| - 1], p[|p| - 1];
      PotentialBound(front, g, until, d, k);
      assert t in p;
      OffspringMonotone(Generations(t.at, until, d), g, k);
      assert |p| * Offspring(g, k) == |front| * Offspring(g, k) + Offspring(g, k);
    }
  }

  /** Each round of `advance` uses up some potential. */
  lemma FireLowersPotential<W(!new), A(!new)>(run: (A, State<W, A>) -> State<W, A>, s: State<W, A>, until: int, d: int, k: nat, t: Timer<A>)
    requires Lawful(run) && d > 0 && Rearms(run, d, k) && WellFormed(s.timers)
    requires NextDue(s.timers.pending, until) == Some(t)
    ensures Potential(Fire(run, s, t).timers.pending, until, d, k) < Potential(s.timers.pending, until, d, k)
  {
    hide NextDue, FireN, Filter, Potential;
    TakenExtends(s.timers, t);
    var taken, after := Taken(s.timers, t), Fire(run, s, t).timers;
    var before := State(s.world, taken);
    assert run(t.action, before).timers == after && WellFormed(after) && Extends(taken, after);
    var born, kept := Born(after.pending, taken.nextId), Filter(after.pending, (u: Timer<A>) => !(u.id >= taken.nextId));
    FilterKeepsDistinct(after.pending, (u: Timer<A>) => u.id >= taken.nextId);
    FilterKeepsDistinct(after.pending, (u: Timer<A>) => !(u.id >= taken.nextId));
    var g := Generations(t.at, until, d);
    PotentialSubset(kept, taken.pending, until, d, k);
    forall u | u in born ensures Generations(u.at, until, d) <= g - 1 {
      GenerationsMonotone(t.at + d, u.at, until, d);
    }
    PotentialBound(born, g - 1, until, d, k);
    MulMonotone(Offspring(g - 1, k), |born|, k);
    PartitionPotential(after.pending, taken.nextId, until, d, k);
    PotentialRemove(s.timers.pending, t, until, d, k);
  }

  lemma {:induction false} PartitionPotential<A>(p: seq<Timer<A>>, from: nat, until: int, d: int, k: nat)
    requires d > 0
    ensures Potential(p, until, d, k) ==
            Potential(Filter(p, (u: Timer<A>) => !(u.id >= from)), until, d, k) + Potential(Born(p, from), until, d, k)
  {
    if p != [] {
      PartitionPotential(p[..|p| - 1], from, until, d, k);
    }
  }

  /** `advance` terminates whenever callbacks re-arm by some positive delay with bounded fan-out. */
  lemma {:induction false} AdvanceTerminates<W(!new), A(!new)>(run: (A, State<W, A>) -> State<W, A>, s: State<W, A>, until: int, d: int, k: nat)
    requires Lawful(run) && d > 0 && Rearms(run, d, k) && WellFormed(s.timers)
    ensures Settles(run, s, until, Potential(s.timers.pending, until, d, k))
    decreases Potential(s.timers.pending, until, d, k)
  {
    hide NextDue, Filter, Potential;
    var p := Potential(s.timers.pending, until, d, k);
    if !Quiet(s, until) {
      var t := NextDue(s.timers.pending, until).value;
      FireLowersPotential(run, s, until, d, k, t);
      FireLeavesLater(run, s, until, t);
      var s' := Fire(run, s, t);
      var p' := Potential(s'.timers.pending, until, d, k);
      AdvanceTerminates(run, s', until, d, k);
      MoreRounds(run, s', until, p', p - 1);
    }
  }

  // ---------------------------------------------------------------------------------------------
  // The scheduler itself
  // ---------------------------------------------------------------------------------------------

  /** `manualScheduler`. `world` stands for whatever the callbacks close over. */
  class ManualScheduler<W, A(==)> {
    var clock: int
    var nextId: nat
    var timers: seq<Timer<A>>
    var world: W

    ghost function Now(): State<W, A>
      reads this
    {
      State(world, Timers(clock, nextId, timers))
    }

    constructor (startMs: int, world: W)
      ensures Now() == State(world, Timers(startMs, 1, []))
    {
      clock, nextId, timers := startMs, 1, [];
      this.world := world;
    }

    method Schedule(delay: int, action: A) returns (id: nat)
      modifies this
      ensures Now() == old(Now()).(timers := Scheduled(old(Now()).timers, delay, action))
      ensures id == old(nextId)
    {
      id := nextId;
      nextId := nextId + 1;
      timers := timers + [Timer(id, clock + Max(0, delay), action)];
    }

    method Cancel(id: nat)
      modifies this
      ensures Now() == old(Now()).(timers := Cancelled(old(Now()).timers, id))
    {
      timers := Filter(timers, (t: Timer<A>) => t.id != id);
    }

    method TakeDue(until: int) returns (due: Option<Timer<A>>)
      modifies this
      ensures due == NextDue(old(timers), until)
      ensures due.Some? ==> timers == Without(old(timers), due.value)
      ensures due.None? ==> timers == old(timers)
      ensures clock == old(clock) && nextId == old(nextId) && world == old(world)
    {
      due := None;
      for i := 0 to |timers|
        invariant due == NextDue(timers[..i], until)
        invariant Now() == old(Now())
      {
        var timer := timers[i];
        assert timers[..i + 1][..i] == timers[..i];
        if timer.at <= until {
          if due.None? || Earlier(timer, due.value) {
            due := Some(timer);
          }
        }
      }
      assert timers[..|timers|] == timers;
      if due.Some? {
        var taken := due.value;
        timers := Filter(timers, (t: Timer<A>) => t != taken);
      }
    }

    /** `rounds` bounds the callbacks that come due; `AdvanceTerminates` says when there is a bound. */
    method Advance(run: (A, State<W, A>) -> State<W, A>, ms: int, ghost rounds: nat) returns (fired: seq<Firing<A>>)
      requires Settles(run, Now(), clock + ms, rounds)
      modifies this
      ensures Run(Now(), fired) == Advanced(run, old(Now()), ms, rounds)
    {
      hide NextDue, Filter, FireN;
      var until := clock + ms;
      ghost var goal := FireN(run, Now(), until, rounds);
      ghost var before, left := Now(), rounds;
      fired := [];
      var due := TakeDue(until);
      while due.Some?
        invariant due == NextDue(before.timers.pending, until)
        invariant world == before.world && clock == before.timers.clock && nextId == before.timers.nextId
        invariant timers == if due.Some? then Without(before.timers.pending, due.value) else before.timers.pending
        invariant Settles(run, before, until, left)
        invariant var rest := FireN(run, before, until, left); goal == Run(rest.state, fired + rest.fired)
        decreases left
      {
        FirstRound(run, before, until, left, due.value);
        ghost var firing := Firing(due.value, Max(clock, due.value.at));
        ghost var rest := FireN(run, Fire(run, before, due.value), until, left - 1);
        assert fired + ([firing] + rest.fired) == (fired + [firing]) + rest.fired;
        clock := Max(clock, due.value.at);
        fired := fired + [Firing(due.value, clock)];
        var after := run(due.value.action, State(world, Timers(clock, nextId, timers)));
        world, clock, nextId, timers := after.world, after.timers.clock, after.timers.nextId, after.timers.pending;
        before, left := Now(), left - 1;
        due := TakeDue(until);
      }
      NoRound(run, before, until, left);
      clock := until;
    }
  }
}
