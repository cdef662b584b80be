/** The socket-channel selection processor: one reactor that owns a selector
    and every connection context registered with it, reads from readable
    channels into each context's pooled request buffer, flushes each
    context's FIFO queue of outbound buffers, and switches a connection's
    write interest on when its socket stops accepting bytes.

    A selection key is kept in the fields of the context it carries as its
    attachment (`registered`, `interestWrite`); its ready set travels with
    it through the selected-key set (`Selection`):
    every context is registered with the one selector of its processor. */
module Reactor {
  import opened Buffers
  import opened Sockets

  /** The decimal rendering of a natural number, as `"" + n` gives it. */
  function Digit(d: nat): char
    requires d < 10
  {
    (48 + d) as char
  }

  function Decimal(n: nat): (s: string)
    ensures |s| >= 1 && (n >= 10 ==> |s| >= 2)
    decreases n
  {
    if n < 10 then [Digit(n)] else Decimal(n / 10) + [Digit(n % 10)]
  }

  /** The contexts of `cs` have the ids "1", "2", ... in order. */
  ghost predicate Numbered(cs: seq<Context>)
    decreases |cs|
  {
    cs != [] ==> Numbered(cs[..|cs| - 1]) && cs[|cs| - 1].id == Decimal(|cs|)
  }

  lemma {:induction false} NumberedAt(cs: seq<Context>, i: nat)
    requires Numbered(cs) && i < |cs|
    ensures cs[i].id == Decimal(i + 1)
    decreases |cs|
  {
    if i < |cs| - 1 {
      NumberedAt(cs[..|cs| - 1], i);
    }
  }

  /** Different numbers render differently, so distinct counters give distinct ids. */
  lemma {:induction false} DecimalInjective(a: nat, b: nat)
    requires Decimal(a) == Decimal(b)
    ensures a == b
  {
    if a >= 10 && b >= 10 {
      var s := Decimal(a);
      assert s[|s| - 1] == Digit(a % 10) && s[|s| - 1] == Digit(b % 10);
      assert s[..|s| - 1] == Decimal(a / 10) && s[..|s| - 1] == Decimal(b / 10);
      DecimalInjective(a / 10, b / 10);
    }
  }

  predicate Distinct<T(==)>(s: seq<T>)
  {
    forall i, j :: 0 <= i < j < |s| ==> s[i] != s[j]
  }

  function Repeat<T>(x: T, n: nat): (r: seq<T>)
    ensures |r| == n && forall i :: 0 <= i < n ==> r[i] == x
  {
    seq(n, _ => x)
  }

  lemma RepeatSnoc<T>(x: T, n: nat)
    ensures Repeat(x, n + 1) == Repeat(x, n) + [x]
  {
  }

  /** The operations a selection key is ready for. */
  datatype Readiness = Readiness(readable: bool, writable: bool)

  /** `a` reports every operation `b` reports. */
  predicate Covers(a: Readiness, b: Readiness)
  {
    (b.readable ==> a.readable) && (b.writable ==> a.writable)
  }

  function Union(a: Readiness, b: Readiness): (r: Readiness)
    ensures Covers(r, a) && Covers(r, b)
    ensures r.readable ==> a.readable || b.readable
    ensures r.writable ==> a.writable || b.writable
  {
    Readiness(a.readable || b.readable, a.writable || b.writable)
  }

  /** A key in the selected-key set together with its ready-operation set. */
  datatype Selection = Selection(key: Context, ops: Readiness)

  function Keys(s: seq<Selection>): (r: seq<Context>)
    ensures |r| == |s| && forall i :: 0 <= i < |s| ==> r[i] == s[i].key
  {
    seq(|s|, i requires 0 <= i < |s| => s[i].key)
  }

  /** The socket of the `i`-th context of `cs`. */
  function ChannelAt(cs: seq<Context>, i: nat): Channel
    requires i < |cs|
  {
    cs[i].channel
  }

  /** Replaces the ready set of the entry for `e.key` by its union with `e.ops`. */
  function Merge(selected: seq<Selection>, e: Selection): (r: seq<Selection>)
    ensures |r| == |selected| && Keys(r) == Keys(selected)
    ensures forall i :: 0 <= i < |r| ==> Covers(r[i].ops, selected[i].ops)
    ensures forall i :: 0 <= i < |r| && r[i].key == e.key ==> Covers(r[i].ops, e.ops)
    ensures forall i :: 0 <= i < |r| && r[i].key != e.key ==> r[i] == selected[i]
    ensures forall i :: 0 <= i < |r| && r[i].key == e.key ==> r[i].ops == Union(selected[i].ops, e.ops)
  {
    seq(|selected|, i requires 0 <= i < |selected| =>
      if selected[i].key == e.key then Selection(e.key, Union(selected[i].ops, e.ops)) else selected[i])
  }

  /** One key reported ready by `select()`: merged into its entry when it is
      already selected, appended with its ready set otherwise. */
  function AddOne(selected: seq<Selection>, e: Selection): (r: seq<Selection>)
    ensures |r| == (if e.key in Keys(selected) then |selected| else |selected| + 1)
    ensures Keys(r)[..|selected|] == Keys(selected) && e.key in Keys(r)
    ensures |r| > |selected| ==> r[|selected|] == e
    ensures forall i :: 0 <= i < |selected| ==> Covers(r[i].ops, selected[i].ops)
    ensures forall i :: 0 <= i < |r| && r[i].key == e.key ==> Covers(r[i].ops, e.ops)
    ensures Distinct(Keys(selected)) ==> Distinct(Keys(r))
  {
    if e.key in Keys(selected) then Merge(selected, e)
    else
      var r := selected + [e];
      assert Keys(r)[|selected|] == e.key;
      r
  }

  /** `selector.select()`: a key that became ready and is not selected yet
      joins the selected-key set with the operations it is ready for; a key
      already selected stays where it is and its ready set gains the new
      operations (the earlier ones are kept). */
  function AddSelected(selected: seq<Selection>, ready: seq<Selection>): (r: seq<Selection>)
    ensures |selected| <= |r| && Keys(r)[..|selected|] == Keys(selected)
    decreases |ready|
  {
    if ready == [] then selected
    else
      var next := AddOne(selected, ready[0]);
      var r := AddSelected(next, ready[1..]);
      assert Keys(r)[..|selected|] == Keys(r)[..|next|][..|selected|];
      r
  }

  /** After `select()` every key reported ready is selected. */
  lemma {:induction false} AddSelectedHasReady(selected: seq<Selection>, ready: seq<Selection>)
    ensures var r := AddSelected(selected, ready);
            forall i :: 0 <= i < |ready| ==> ready[i].key in Keys(r)
    decreases |ready|
  {
    if ready != [] {
      var e, rest := ready[0], ready[1..];
      var next := AddOne(selected, e);
      var r := AddSelected(next, rest);
      AddSelectedHasReady(next, rest);
      assert e.key in Keys(r) by {
        assert Keys(r)[..|next|] == Keys(next);
      }
      assert forall i :: 1 <= i < |ready| ==> ready[i] == rest[i - 1];
    }
  }

  /** Every entry of `r` after the first `|selected|` is for a key reported
      in `ready` and not in `selected`. */
  predicate AppendsNew(selected: seq<Selection>, ready: seq<Selection>, r: seq<Selection>)
  {
    forall i :: |selected| <= i < |r| ==> r[i].key !in Keys(selected) && r[i].key in Keys(ready)
  }

  /** The keys that were selected keep their places (`AddSelected`'s own
      contract); every key after them is one `select()` reported and was not
      selected before. */
  lemma {:induction false} AddSelectedAppendsNew(selected: seq<Selection>, ready: seq<Selection>)
    ensures AppendsNew(selected, ready, AddSelected(selected, ready))
    decreases |ready|
  {
    if ready != [] {
      var e, rest := ready[0], ready[1..];
      var next := AddOne(selected, e);
      var r := AddSelected(next, rest);
      AddSelectedAppendsNew(next, rest);
      assert AppendsNew(next, rest, r);
      forall i | |selected| <= i < |r|
        ensures r[i].key !in Keys(selected) && r[i].key in Keys(ready)
      {
        if i < |next| {
          assert i == |selected| && next[i] == e;
          assert Keys(r)[..|next|][i] == Keys(next)[i];
          assert Keys(ready)[0] == e.key;
        } else {
          assert r[i].key !in Keys(next) && r[i].key in Keys(rest);
          assert Keys(next)[..|selected|] == Keys(selected);
          assert Keys(rest) == Keys(ready)[1..];
        }
      }
    }
  }

  /** `select()` selects no key that was neither selected nor reported ready. */
  lemma AddSelectedKeysFrom(selected: seq<Selection>, ready: seq<Selection>)
    ensures forall c :: c in Keys(AddSelected(selected, ready)) ==> c in Keys(selected) || c in Keys(ready)
  {
    var r := AddSelected(selected, ready);
    AddSelectedAppendsNew(selected, ready);
    forall c | c in Keys(r)
      ensures c in Keys(selected) || c in Keys(ready)
    {
      var i :| 0 <= i < |r| && Keys(r)[i] == c;
      if i < |selected| {
        assert Keys(r)[..|selected|][i] == Keys(selected)[i];
      }
    }
  }
  /** The keys a poll cycle may visit are among the old selected keys, the
      ready keys and the pending flushes `w`. */
  lemma CycleTouches(selected: seq<Selection>, ready: seq<Selection>, w: seq<Context>)
    ensures forall c :: c in Keys(AddSelected(selected, ready)) ==> c in Keys(selected) + Keys(ready) + w
  {
    AddSelectedKeysFrom(selected, ready);
  }


  /** A selected-key set without duplicates stays so. */
  lemma {:induction false} AddSelectedDistinct(selected: seq<Selection>, ready: seq<Selection>)
    requires Distinct(Keys(selected))
    ensures Distinct(Keys(AddSelected(selected, ready)))
    decreases |ready|
  {
    if ready != [] {
      AddSelectedDistinct(AddOne(selected, ready[0]), ready[1..]);
    }
  }

  /** Keys `select()` reports are keys of `cs`, so the selected-key set
      stays among them. */
  lemma AddSelectedAmong(cs: seq<Context>, selected: seq<Selection>, ready: seq<Selection>)
    requires forall i :: 0 <= i < |selected| ==> selected[i].key in cs
    requires forall i :: 0 <= i < |ready| ==> ready[i].key in cs
    ensures forall i :: 0 <= i < |AddSelected(selected, ready)| ==> AddSelected(selected, ready)[i].key in cs
  {
    var r := AddSelected(selected, ready);
    AddSelectedAppendsNew(selected, ready);
    forall i | 0 <= i < |r|
      ensures r[i].key in cs
    {
      if i < |selected| {
        assert Keys(r)[..|selected|][i] == Keys(selected)[i];
      } else {
        var j :| 0 <= j < |ready| && Keys(ready)[j] == r[i].key;
      }
    }
  }

  /** After `select()` the ready set of every selected key includes what it
      had before and every operation `select()` reported for it. */
  lemma {:induction false} AddSelectedCovers(selected: seq<Selection>, ready: seq<Selection>)
    ensures var r := AddSelected(selected, ready);
            && (forall i :: 0 <= i < |selected| ==> Covers(r[i].ops, selected[i].ops))
            && (forall i, j :: 0 <= i < |ready| && 0 <= j < |r| && r[j].key == ready[i].key ==> Covers(r[j].ops, ready[i].ops))
    decreases |ready|
  {
    if ready != [] {
      var e, rest := ready[0], ready[1..];
      var next := AddOne(selected, e);
      var r := AddSelected(next, rest);
      AddSelectedCovers(next, rest);
      AddSelectedAppendsNew(next, rest);
      forall i | 0 <= i < |selected|
        ensures Covers(r[i].ops, selected[i].ops)
      {
        assert Covers(r[i].ops, next[i].ops);
      }
      forall i, j | 0 <= i < |ready| && 0 <= j < |r| && r[j].key == ready[i].key
        ensures Covers(r[j].ops, ready[i].ops)
      {
        if i == 0 {
          assert Keys(r)[j] == e.key;
          assert j < |next|;
          assert Keys(r)[..|next|][j] == Keys(next)[j];
          assert Covers(r[j].ops, next[j].ops);
        } else {
          assert ready[i] == rest[i - 1];
        }
      }
    }
  }

  /** What the probe does with a selected key. */
  datatype Action = ReadPath | WritePath | Skip

  /** Only a valid key is dispatched, and readable takes precedence over writable. */
  function Dispatch(valid: bool, readable: bool, writable: bool): (a: Action)
    ensures a == ReadPath <==> valid && readable
    ensures a == WritePath <==> valid && !readable && writable
    ensures a == Skip <==> !valid || (!readable && !writable)
  {
    if !valid then Skip else if readable then ReadPath else if writable then WritePath else Skip
  }

  /** One selected key taken from the selected-key set by a probe: whether it
      was valid and ready for reading or writing at that moment, what was
      done, and the snapshots of its context before and after. */
  datatype Visit = Visit(key: Context, valid: bool, readable: bool, writable: bool, action: Action,
                         ghost before: Snapshot, ghost after: Snapshot)

  /** What the visit did to its context, as its action says: the read path,
      the write path, or nothing. */
  ghost predicate Did(v: Visit, fuel: nat)
  {
    match v.action
    case ReadPath => ReadEffect(v.before, v.after)
    case WritePath => KeyWriteEffect(v.before, v.after, fuel)
    case Skip => v.after == v.before
  }

  /** The snapshot `s` of context `c` shows the selector as it is (`open`)
      and the consumer's behaviour as it is. */
  ghost predicate Faithful(s: Snapshot, c: Context, open: bool)
  {
    s.selectorOpen == open && s.consumeThrows == c.consumer.consumeThrows && s.closeWithThrows == c.consumer.closeWithThrows
  }

  /** The visit handled this selected key, with its ready set, as `Dispatch`
      says of the key's validity at that moment, and did what its action says;
      its snapshot before shows the selector's state `open` and the key's
      consumer as they are. */
  ghost predicate Visited(v: Visit, sel: Selection, open: bool, fuel: nat)
  {
    && v.key == sel.key && Faithful(v.before, v.key, open) && v.readable == sel.ops.readable && v.writable == sel.ops.writable
    && v.valid == KeyValidIn(v.before) && v.action == Dispatch(v.valid, v.readable, v.writable)
    && Did(v, fuel)
  }

  /** The visit returned normally: it did not end in a `consume` that threw. */
  ghost predicate Returned(v: Visit)
  {
    v.action != ReadPath || ReadReturns(v.before)
  }

  lemma AppendEmpty<T>(a: seq<T>)
    ensures a + [] == a
  {
  }

  lemma SnocAssoc<T>(a: seq<T>, b: seq<T>, x: T)
    ensures a + (b + [x]) == a + b + [x]
  {
  }

  /** What the key loop promises of its visits `done`, the selected keys
      having been `s` and the contexts' states `init` when it began: the
      visits handled the first selections of `s`, in order, each as `Visited`
      says and starting from its context's state in `init`; every visit
      returned normally but the last when `faulted`, which did not. */
  ghost predicate VisitsDone(done: seq<Visit>, s: seq<Selection>, init: map<Context, Own>, open: bool, faulted: bool, fuel: nat)
  {
    && |done| <= |s|
    && (forall i :: 0 <= i < |done| ==> Visited(done[i], s[i], open, fuel))
    && (forall i :: 0 <= i < |done| ==> Returned(done[i]) || (faulted && i == |done| - 1))
    && (faulted ==> done != [] && !Returned(done[|done| - 1]))
    && (forall i :: 0 <= i < |done| ==> done[i].key in init && done[i].before.own == init[done[i].key])
  }

  /** Between the states `init` and `now` of the contexts, no context lost
      a byte still to go out, and every context outside `touched` kept its
      state. */
  ghost predicate StatesKept(init: map<Context, Own>, now: map<Context, Own>, touched: seq<Context>)
  {
    forall c :: c in now ==>
      && c in init && PendingOf(now[c]) == PendingOf(init[c])
      && (c !in touched ==> now[c] == init[c])
  }

  /** `StatesKept` composes: touching `t1` and then `t2` touches only `t`. */
  lemma KeptCompose(a: map<Context, Own>, b: map<Context, Own>, c: map<Context, Own>,
                    t1: seq<Context>, t2: seq<Context>, t: seq<Context>)
    requires StatesKept(a, b, t1) && StatesKept(b, c, t2)
    requires forall x :: x in t1 ==> x in t
    requires forall x :: x in t2 ==> x in t
    ensures StatesKept(a, c, t)
  {
    forall x | x in c
      ensures x in a && PendingOf(c[x]) == PendingOf(a[x]) && (x !in t ==> c[x] == a[x])
    {
      assert x in b;
    }
  }

  /** What the key part of a poll cycle did, the selected keys, the visit
      record and the contexts' states having been `sel0`, `vis0` and `init`
      before it and the selected keys and visit record `sel` and `vis` after:
      `select` merged the ready keys into the selected-key set; when that
      changed the set, its keys were taken out and visited in order (all of
      them unless `consume` threw, which ends the visit on a read);
      otherwise nothing was visited. */
  ghost predicate KeysDone(ready: seq<Selection>, sel0: seq<Selection>, sel: seq<Selection>,
                           vis0: seq<Visit>, vis: seq<Visit>, init: map<Context, Own>, open: bool,
                           faulted: bool, visited: seq<Visit>, fuel: nat)
  {
    && vis == vis0 + visited
    && var s := AddSelected(sel0, ready);
       && (s == sel0 ==> !faulted && visited == [])
       && |visited| <= |s| && sel == s[|visited|..]
       && (s != sel0 && !faulted ==> sel == [])
       && VisitsDone(visited, s, init, open, faulted, fuel)
  }

  /** The visits `done` handled the first selections of `s`, in order, each
      as `Visited` says, and each but the last returned normally. */
  ghost predicate VisitedAll(done: seq<Visit>, s: seq<Selection>, open: bool, fuel: nat)
    decreases |done|
  {
    && |done| <= |s|
    && (done != [] ==>
          var n := |done| - 1;
          && VisitedAll(done[..n], s, open, fuel) && Visited(done[n], s[n], open, fuel)
          && (n > 0 ==> Returned(done[n - 1])))
  }

  lemma {:induction false} VisitedAllAt(done: seq<Visit>, s: seq<Selection>, open: bool, fuel: nat)
    requires VisitedAll(done, s, open, fuel)
    ensures forall i :: 0 <= i < |done| ==> Visited(done[i], s[i], open, fuel)
    ensures forall i :: 0 <= i < |done| - 1 ==> Returned(done[i])
    decreases |done|
  {
    if done != [] {
      var n := |done| - 1;
      VisitedAllAt(done[..n], s, open, fuel);
      assert forall i :: 0 <= i < n ==> done[..n][i] == done[i];
    }
  }

  /** The flush log `done` wrote the contexts of `w`, in order, each as
      `write(Context)` says, from a snapshot that shows the selector's state
      `open` and the context's consumer as they are. */
  ghost predicate Flushes(done: seq<Step>, w: seq<Context>, open: bool, fuel: nat)
  {
    && |done| == |w|
    && forall i :: 0 <= i < |done| ==>
         && done[i].ctx == w[i] && Faithful(done[i].before, done[i].ctx, open)
         && WriteEffect(done[i].before, done[i].after, fuel)
  }

  lemma FlushesSnoc(done: seq<Step>, w: seq<Context>, st: Step, open: bool, fuel: nat)
    requires |done| < |w| && Flushes(done, w[..|done|], open, fuel)
    requires st.ctx == w[|done|] && Faithful(st.before, st.ctx, open) && WriteEffect(st.before, st.after, fuel)
    ensures Flushes(done + [st], w[..|done| + 1], open, fuel)
  {
  }

  /** One change a probe made to a context: the context's snapshots before and after. */
  datatype Step = Step(ctx: Context, before: Snapshot, after: Snapshot)

  ghost function Steps(vs: seq<Visit>): (r: seq<Step>)
    ensures |r| == |vs| && forall i :: 0 <= i < |vs| ==> r[i] == Step(vs[i].key, vs[i].before, vs[i].after)
  {
    seq(|vs|, i requires 0 <= i < |vs| => Step(vs[i].key, vs[i].before, vs[i].after))
  }

  lemma StepsSnoc(vs: seq<Visit>, v: Visit)
    ensures Steps(vs + [v]) == Steps(vs) + [Step(v.key, v.before, v.after)]
  {
    assert |Steps(vs + [v])| == |Steps(vs) + [Step(v.key, v.before, v.after)]|;
  }

  /** The own state of context `c` after the steps of `log`, when it was
      `init` before them: what the last step on `c` left, or `init` when no
      step is on `c`. */
  ghost function OwnAfter(log: seq<Step>, c: Context, init: Own): Own
    decreases |log|
  {
    if log == [] then init
    else if log[|log| - 1].ctx == c then log[|log| - 1].after.own
    else OwnAfter(log[..|log| - 1], c, init)
  }

  /** One more step changes the state of its context only. */
  lemma OwnAfterSnoc(log: seq<Step>, st: Step)
    ensures forall i :: 0 <= i <= |log| ==> (log + [st])[..i] == log[..i]
    ensures forall c, init :: OwnAfter(log + [st], c, init) == if st.ctx == c then st.after.own else OwnAfter(log, c, init)
  {
    assert (log + [st])[..|log|] == log;
  }

  /** Running `a` and then `b` is running `a + b`. */
  lemma {:induction false} OwnAfterAppend(a: seq<Step>, b: seq<Step>, c: Context, init: Own)
    ensures OwnAfter(a + b, c, init) == OwnAfter(b, c, OwnAfter(a, c, init))
    decreases |b|
  {
    if b == [] {
      assert a + b == a;
    } else {
      var b' := b[..|b| - 1];
      assert (a + b)[..|a + b| - 1] == a + b';
      OwnAfterAppend(a, b', c, init);
    }
  }

  /** In a log that visits each context once, as the key loop does, each step
      starts from its context's initial state and leaves its final state. */
  lemma {:induction false} OwnAfterDistinct(log: seq<Step>, i: nat, init: Own)
    requires i < |log| && forall j :: 0 <= j < |log| && j != i ==> log[j].ctx != log[i].ctx
    ensures OwnAfter(log[..i], log[i].ctx, init) == init
    ensures OwnAfter(log, log[i].ctx, init) == log[i].after.own
    decreases |log|
  {
    if i < |log| - 1 {
      var log' := log[..|log| - 1];
      assert log'[..i] == log[..i];
      OwnAfterDistinct(log', i, init);
    }
    OwnAfterUntouched(log[..i], log[i].ctx, init);
  }

  lemma {:induction false} OwnAfterUntouched(log: seq<Step>, c: Context, init: Own)
    requires forall j :: 0 <= j < |log| ==> log[j].ctx != c
    ensures OwnAfter(log, c, init) == init
    decreases |log|
  {
    if log != [] {
      OwnAfterUntouched(log[..|log| - 1], c, init);
    }
  }
  /** Each step of `log` started from the state the earlier steps had left
      its context in, the contexts being in the states `init` at first. */
  ghost predicate Chained(log: seq<Step>, init: map<Context, Own>)
    decreases |log|
  {
    log == [] ||
    var n := |log| - 1;
    && Chained(log[..n], init)
    && log[n].ctx in init && log[n].before.own == OwnAfter(log[..n], log[n].ctx, init[log[n].ctx])
  }

  lemma ChainedSnoc(log: seq<Step>, init: map<Context, Own>, st: Step)
    requires Chained(log, init) && st.ctx in init && st.before.own == OwnAfter(log, st.ctx, init[st.ctx])
    ensures Chained(log + [st], init)
  {
    assert (log + [st])[..|log|] == log;
  }

  /** Step `i` of a chained log started from the state the steps before it
      had left its context in. */
  lemma {:induction false} ChainedAt(log: seq<Step>, init: map<Context, Own>, i: nat)
    requires Chained(log, init) && i < |log|
    ensures Chained(log[..i], init)
    ensures log[i].ctx in init && log[i].before.own == OwnAfter(log[..i], log[i].ctx, init[log[i].ctx])
    decreases |log|
  {
    var n := |log| - 1;
    if i < n {
      ChainedAt(log[..n], init, i);
      assert log[..n][..i] == log[..i] && log[..n][i] == log[i];
    }
  }

  /** Steps chained from `init` followed by steps chained from the states
      `mid` the first ones left are chained from `init`. */
  lemma {:induction false} ChainedAppend(a: seq<Step>, b: seq<Step>, init: map<Context, Own>, mid: map<Context, Own>)
    requires Chained(a, init) && Chained(b, mid)
    requires forall c :: c in mid ==> c in init && mid[c] == OwnAfter(a, c, init[c])
    ensures Chained(a + b, init)
    decreases |b|
  {
    if b == [] {
      assert a + b == a;
    } else {
      var n := |b| - 1;
      ChainedAppend(a, b[..n], init, mid);
      assert (a + b)[..|a| + n] == a + b[..n] && (a + b)[|a| + n] == b[n];
      OwnAfterAppend(a, b[..n], b[n].ctx, init[b[n].ctx]);
    }
  }

  /** In a chained log that changes each context once, as the key loop's
      does, each step starts from its context's initial state and leaves
      its context's final state. */
  lemma OnceChained(log: seq<Step>, init: map<Context, Own>, i: nat)
    requires Chained(log, init) && i < |log|
    requires forall j :: 0 <= j < |log| && j != i ==> log[j].ctx != log[i].ctx
    ensures log[i].ctx in init && log[i].before.own == init[log[i].ctx]
    ensures OwnAfter(log, log[i].ctx, init[log[i].ctx]) == log[i].after.own
  {
    ChainedAt(log, init, i);
    OwnAfterDistinct(log, i, init[log[i].ctx]);
  }
  /** Steps that each keep the bytes their context still has to send,
      chained from `init`, leave every context with the bytes it had. */
  lemma {:induction false} ChainedKeepsPending(log: seq<Step>, init: map<Context, Own>, c: Context)
    requires Chained(log, init) && c in init
    requires forall i :: 0 <= i < |log| ==> PendingOf(log[i].after.own) == PendingOf(log[i].before.own)
    ensures PendingOf(OwnAfter(log, c, init[c])) == PendingOf(init[c])
    decreases |log|
  {
    if log != [] {
      var n := |log| - 1;
      assert forall i :: 0 <= i < n ==> log[..n][i] == log[i];
      ChainedKeepsPending(log[..n], init, c);
    }
  }

  /** Every context of `cs` is in the state the steps of `log` left it in,
      from its state in `init`. */
  ghost predicate StatesAfter(cs: seq<Context>, log: seq<Step>, init: map<Context, Own>)
    reads set c | c in cs :: c, set c | c in cs :: c.channel
    decreases |cs|
  {
    cs == [] ||
    (assert forall c :: c in cs[1..] ==> c in cs;
     cs[0] in init && OwnOf(cs[0]) == OwnAfter(log, cs[0], init[cs[0]]) && StatesAfter(cs[1..], log, init))
  }

  lemma {:induction false} StatesAfterAll(cs: seq<Context>, log: seq<Step>, init: map<Context, Own>)
    ensures StatesAfter(cs, log, init) <==>
            forall c :: c in cs ==> c in init && OwnOf(c) == OwnAfter(log, c, init[c])
    decreases |cs|
  {
    if cs != [] {
      StatesAfterAll(cs[1..], log, init);
      assert forall c :: c in cs <==> c == cs[0] || c in cs[1..];
    }
  }


  /** What the write path changes for one context: the socket's write script
      and wire, the outbound queue, the write-mode flag and write interest,
      and the pool's release log. */
  datatype Outbound = Outbound(accepts: seq<WriteStep>, wire: seq<Byte>, queue: seq<ConsumerBuffer>,
                               writeMode: bool, interestWrite: bool, released: seq<nat>)

  /** What every write of the queue keeps from `s` to `r`: a prefix of the
      queue was popped (the new head may have moved its position), the wire
      gained exactly the bytes that left the queue, in queue order, and the
      popped buffers were released once each, in queue order. */
  ghost predicate Kept(s: Outbound, r: Outbound)
  {
    && Drained(s.queue, r.queue)
    && r.wire + Flatten(r.queue) == s.wire + Flatten(s.queue)
    && r.released == s.released + Ids(s.queue[..|s.queue| - |r.queue|])
  }

  lemma {:induction false} KeptTrans(a: Outbound, b: Outbound, c: Outbound)
    requires Kept(a, b) && Kept(b, c)
    ensures Kept(a, c)
  {
    DrainedTrans(a.queue, b.queue, c.queue);
    AppendAssoc(a.released, Ids(a.queue[..|a.queue| - |b.queue|]), Ids(b.queue[..|b.queue| - |c.queue|]));
  }

  /** The inner `writeWithCachedData` on the queue head, for a socket that is
      `open` and a key that is `valid` (so that re-registering succeeds): the
      head is written as `SendLoop` says; when it is `Sent` it is released and
      popped and write mode is switched off, when it is `Blocked` the advanced
      head stays and write mode is switched on, and when a call threw the
      head stays and the flags are kept. Re-registering a key that is not
      valid throws inside the same `try`, so the flags are kept then too. */
  function WriteHeadStep(open: bool, valid: bool, s: Outbound): Outbound
    requires s.queue != []
  {
    var p := SendLoop(open, s.accepts, s.queue[0]);
    var switched := valid && p.outcome != Failed;
    var mode := if switched then p.outcome == Blocked else s.writeMode;
    var interest := if switched then p.outcome == Blocked else s.interestWrite;
    if p.outcome == Sent then
      Outbound(p.accepts, s.wire + p.sent, s.queue[1..], mode, interest, s.released + [s.queue[0].id])
    else
      Outbound(p.accepts, s.wire + p.sent, [p.buffer] + s.queue[1..], mode, interest, s.released)
  }

  /** A head write loses no byte: what it takes off the head is on the wire,
      and it releases the head exactly when it pops it. */
  lemma WriteHeadKeeps(open: bool, valid: bool, s: Outbound)
    requires s.queue != []
    ensures Kept(s, WriteHeadStep(open, valid, s))
  {
    var p := SendLoop(open, s.accepts, s.queue[0]);
    if p.outcome == Sent {
      PopKeeps(s.queue, s.wire, p.sent);
    } else {
      ReplaceHeadKeeps(s.queue, s.wire, p.sent, p.buffer);
    }
  }

  /** Popping a head whose bytes all went out loses no byte and releases the head. */
  lemma PopKeeps(q: seq<ConsumerBuffer>, wire: seq<Byte>, sent: seq<Byte>)
    requires q != [] && sent == Remaining(q[0])
    ensures Drained(q, q[1..]) && Ids(q[..|q| - |q[1..]|]) == [q[0].id]
    ensures (wire + sent) + Flatten(q[1..]) == wire + Flatten(q)
  {
    assert q[..1] == [q[0]];
    AppendAssoc(wire, sent, Flatten(q[1..]));
  }

  /** Keeping a partly written head in place loses no byte and releases nothing. */
  lemma ReplaceHeadKeeps(q: seq<ConsumerBuffer>, wire: seq<Byte>, sent: seq<Byte>, h: ConsumerBuffer)
    requires q != [] && sent + Remaining(h) == Remaining(q[0]) && SameRegion(h, q[0])
    ensures Drained(q, [h] + q[1..]) && Ids(q[..|q| - |[h] + q[1..]|]) == []
    ensures (wire + sent) + Flatten([h] + q[1..]) == wire + Flatten(q)
  {
    var rest := q[1..];
    assert ([h] + rest)[1..] == rest;
    assert q[..0] == [];
    FlattenCons(h, rest);
    AppendAssoc(wire, sent, Remaining(h) + Flatten(rest));
    AppendAssoc(sent, Remaining(h), Flatten(rest));
  }

  /** The state after the outer write loop and how many head writes it made. */
  datatype QueuePass = QueuePass(out: Outbound, steps: nat)

  /** The outer `writeWithCachedData`: writes the head while there is one,
      making at most `fuel` head writes. It never looks at write mode, so it
      stops short of an empty queue only when the fuel is used up. Bytes leave
      only from the head, in queue order, and every popped buffer is released
      once, in queue order. */
  function WriteLoop(open: bool, valid: bool, s: Outbound, fuel: nat): (p: QueuePass)
    ensures p.steps <= fuel && (p.out.queue != [] ==> p.steps == fuel)
    decreases fuel
  {
    if fuel == 0 || s.queue == [] then
      QueuePass(s, 0)
    else
      var p := WriteLoop(open, valid, WriteHeadStep(open, valid, s), fuel - 1);
      QueuePass(p.out, p.steps + 1)
  }

  /** The outer write loop loses no byte: every byte it takes off the queue
      is on the wire, in order, and the buffers it pops are released in
      queue order. */
  lemma {:induction false} WriteLoopKeeps(open: bool, valid: bool, s: Outbound, fuel: nat)
    ensures Kept(s, WriteLoop(open, valid, s, fuel).out)
    decreases fuel
  {
    if fuel == 0 || s.queue == [] {
      assert s.queue[..0] == [];
    } else {
      var s', fuel' := WriteHeadStep(open, valid, s), fuel - 1;
      WriteLoopAdvance(open, valid, s, fuel, s', fuel');
      WriteHeadKeeps(open, valid, s);
      WriteLoopKeeps(open, valid, s', fuel');
      KeptTrans(s, s', WriteLoop(open, valid, s', fuel').out);
    }
  }

  /** One turn of the outer write loop, with the remaining fuel `fuel'`
      named rather than computed. */
  lemma WriteLoopAdvance(open: bool, valid: bool, s: Outbound, fuel: nat, s': Outbound, fuel': nat)
    requires s.queue != [] && fuel == fuel' + 1
    requires s' == WriteHeadStep(open, valid, s)
    ensures var p := WriteLoop(open, valid, s', fuel');
            WriteLoop(open, valid, s, fuel) == QueuePass(p.out, p.steps + 1)
  {
  }

  /** The `k`-th call of `accepts` takes the whole `k`-th buffer of `queue`,
      and no buffer of `queue` is empty. */
  predicate OneCallEach(accepts: seq<WriteStep>, queue: seq<ConsumerBuffer>)
    ensures OneCallEach(accepts, queue) ==> |queue| <= |accepts|
    decreases queue
  {
    queue == [] ||
    (&& accepts != [] && accepts[0].Accept?
     && Remaining(queue[0]) != [] && |Remaining(queue[0])| <= accepts[0].count
     && OneCallEach(accepts[1..], queue[1..]))
  }

  /** A buffer that fits in the next call goes out whole in at most that call. */
  lemma SendLoopOneCall(accepts: seq<WriteStep>, b: ConsumerBuffer)
    requires accepts != [] && accepts[0].Accept? && |Remaining(b)| <= accepts[0].count
    ensures var p := SendLoop(true, accepts, b);
            && p.outcome == Sent && p.sent == Remaining(b)
            && p.accepts == (if b.position < b.limit then accepts[1..] else accepts)
  {
    if b.position < b.limit {
      var c := WriteCall(true, accepts, b);
      assert c.buffer.position == c.buffer.limit;
    }
  }

  /** A head write whose non-empty buffer fits in the next scripted call
      pops the head and uses up that call. */
  lemma WriteHeadFits(valid: bool, s: Outbound)
    requires s.queue != [] && s.accepts != [] && s.accepts[0].Accept?
    requires Remaining(s.queue[0]) != [] && |Remaining(s.queue[0])| <= s.accepts[0].count
    ensures var r := WriteHeadStep(true, valid, s);
            r.queue == s.queue[1..] && r.accepts == s.accepts[1..]
  {
    SendLoopOneCall(s.accepts, s.queue[0]);
  }

  /** With one scripted call taking each buffer, the outer loop empties the
      queue in one turn per buffer and uses up one call per buffer. */
  lemma {:induction false} WriteLoopEmpties(valid: bool, s: Outbound, fuel: nat)
    requires OneCallEach(s.accepts, s.queue) && |s.queue| <= fuel
    ensures var p := WriteLoop(true, valid, s, fuel);
            p.out.queue == [] && p.steps == |s.queue| && p.out.accepts == s.accepts[|s.queue|..]
    decreases |s.queue|
  {
    if s.queue != [] {
      var s', fuel' := WriteHeadStep(true, valid, s), fuel - 1;
      WriteLoopAdvance(true, valid, s, fuel, s', fuel');
      WriteHeadFits(valid, s);
      WriteLoopEmpties(valid, s', fuel');
      assert s'.accepts[|s'.queue|..] == s.accepts[|s.queue|..];
    }
  }

  /** A socket that takes every buffer of the queue in one call, with a call
      scripted for each buffer, drains the queue with one head write per
      buffer: the wire gets the whole queue, and every buffer is released,
      in queue order. */
  lemma WriteLoopDrains(valid: bool, s: Outbound, fuel: nat)
    requires OneCallEach(s.accepts, s.queue) && |s.queue| <= fuel
    ensures var p := WriteLoop(true, valid, s, fuel);
            && p.out.queue == [] && p.steps == |s.queue|
            && p.out.wire == s.wire + Flatten(s.queue)
            && p.out.released == s.released + Ids(s.queue)
  {
    WriteLoopEmpties(valid, s, fuel);
    WriteLoopKeeps(true, valid, s, fuel);
    var p := WriteLoop(true, valid, s, fuel);
    assert p.out.wire + Flatten(p.out.queue) == p.out.wire + [];
    assert s.queue[..|s.queue|] == s.queue;
  }

  /** Three 10-byte responses and a socket that takes up to 15 bytes per
      call: each call takes one whole buffer, so three calls drain the queue. */
  lemma ThreeResponsesDrain(valid: bool, s: Outbound, fuel: nat)
    requires |s.queue| == 3 && forall j :: 0 <= j < 3 ==> |Remaining(s.queue[j])| == 10
    requires s.accepts == [Accept(15), Accept(15), Accept(15)] && fuel == 3
    ensures var p := WriteLoop(true, valid, s, fuel);
            && p.out.queue == [] && p.steps == 3 && p.out.accepts == []
            && p.out.wire == s.wire + Remaining(s.queue[0]) + Remaining(s.queue[1]) + Remaining(s.queue[2])
  {
    var q := s.queue;
    assert OneCallEach(s.accepts, q) by {
      assert OneCallEach(s.accepts[1..][1..][1..], q[1..][1..][1..]);
    }
    WriteLoopDrains(valid, s, fuel);
    WriteLoopEmpties(valid, s, fuel);
    FlattenThree(q);
    var r0, r1, r2 := Remaining(q[0]), Remaining(q[1]), Remaining(q[2]);
    AppendAssoc(s.wire, r0 + r1, r2);
    AppendAssoc(s.wire, r0, r1);
  }

  /** The window is per call, not per byte: two calls of up to 15 bytes do
      not send two 10-byte responses and a third, although 30 bytes would
      fit. The third head write finds nothing scripted, is blocked, and
      (on a valid key) switches write mode on. */
  lemma TwoCallsLeaveThirdQueued(s: Outbound)
    requires |s.queue| == 3 && forall j :: 0 <= j < 3 ==> |Remaining(s.queue[j])| == 10
    requires s.accepts == [Accept(15), Accept(15)]
    ensures var p := WriteLoop(true, true, s, 3);
            && p.out.queue == [s.queue[2]] && p.steps == 3
            && p.out.writeMode && p.out.interestWrite
  {
    var q := s.queue;
    var s1 := WriteHeadStep(true, true, s);
    SendLoopOneCall(s.accepts, q[0]);
    var s2 := WriteHeadStep(true, true, s1);
    SendLoopOneCall(s1.accepts, s1.queue[0]);
    var s3 := WriteHeadStep(true, true, s2);
    SendLoopStops(true, s2.accepts, s2.queue[0]);
    assert s3.queue == [q[2]];
  }

  /** A socket that takes nothing keeps the outer loop going: every head
      write is blocked, nothing is sent or released, and the loop ends only
      when the fuel is used up. */
  lemma {:induction false} WriteLoopSpins(open: bool, valid: bool, s: Outbound, fuel: nat)
    requires open && s.accepts == [] && s.queue != [] && Remaining(s.queue[0]) != []
    ensures var p := WriteLoop(open, valid, s, fuel);
            && p.steps == fuel && p.out.queue == s.queue
            && p.out.wire == s.wire && p.out.released == s.released
            && (valid && fuel > 0 ==> p.out.writeMode && p.out.interestWrite)
    decreases fuel
  {
    if fuel > 0 {
      var s', fuel' := WriteHeadStep(open, valid, s), fuel - 1;
      WriteLoopAdvance(open, valid, s, fuel, s', fuel');
      SendLoopStops(open, s.accepts, s.queue[0]);
      assert s'.queue == [s.queue[0]] + s.queue[1..] == s.queue;
      assert s'.accepts == [] && s'.wire == s.wire && s'.released == s.released;
      assert valid ==> s'.writeMode && s'.interestWrite;
      WriteLoopSpins(open, valid, s', fuel');
    }
  }

  /** The bytes of a context still to go out, after those already on the wire. */
  ghost function Pending(c: Context): seq<Byte>
    reads c, c.channel
  {
    PendingOf(OwnOf(c))
  }

  ghost function PendingOf(o: Own): seq<Byte>
  {
    o.wire + Flatten(o.writables)
  }

  /** The write path loses no byte still to go out. */
  lemma WriteEffectKeepsPending(s: Snapshot, t: Snapshot, fuel: nat)
    requires WriteEffect(s, t, fuel)
    ensures PendingOf(t.own) == PendingOf(s.own)
  {
    if s.own.open && !s.own.writeMode && s.own.writables != [] {
      WriteLoopKeeps(true, KeyValidIn(s), OutboundIn(s), fuel);
    }
  }

  /** No visit loses a byte still to go out: reading leaves the queue and
      the wire alone, and writing moves bytes from one to the other. */
  lemma DidKeepsPending(v: Visit, fuel: nat)
    requires Did(v, fuel)
    ensures PendingOf(v.after.own) == PendingOf(v.before.own)
  {
    if v.action == WritePath && v.before.own.open {
      WriteEffectKeepsPending(v.before, v.after, fuel);
    }
  }

  /** Every context of `cs` still has the bytes to go out it had: bytes move
      from queues to wires and none is lost. */
  twostate predicate PendingKept(cs: seq<Context>)
    reads set c | c in cs :: c, set c | c in cs :: c.channel
  {
    forall c :: c in cs ==> Pending(c) == old(Pending(c))
  }

  /** What a probe can change of one context and of its socket. A consumer
      may serve several contexts and the pool serves all of them, so their
      logs are not part of it. */
  datatype Own = Own(buffer: ConsumerBuffer, registered: bool, writables: seq<ConsumerBuffer>,
                     writeMode: bool, interestWrite: bool, closingData: Token, consumerData: Token,
                     inbound: seq<ReadStep>, accepts: seq<WriteStep>, wire: seq<Byte>, open: bool, closes: nat)

  ghost function OwnOf(c: Context): Own
    reads c, c.channel
  {
    Own(c.buffer, c.registered, c.writables, c.writeMode, c.interestWrite, c.closingData, c.consumerData,
        c.channel.inbound, c.channel.accepts, c.channel.wire, c.channel.open, c.channel.closes)
  }

  /** Everything the read and write paths look at or change for one context
      at one moment: its own state, its consumer's logs and behaviour, the
      pool's release log and whether the selector is open. */
  datatype Snapshot = Snapshot(own: Own, consumed: seq<seq<Byte>>, releasesSeen: seq<nat>, closings: seq<Token>, released: seq<nat>,
                               selectorOpen: bool, consumeThrows: bool, closeWithThrows: bool)

  ghost function SnapshotOf(c: Context): Snapshot
    reads c, c.channel, c.consumer, c.owner`selectorOpen, c.owner.pool
  {
    Snapshot(OwnOf(c), c.consumer.consumed, c.consumer.releasesSeen, c.consumer.closings, c.owner.pool.released,
             c.owner.selectorOpen, c.consumer.consumeThrows, c.consumer.closeWithThrows)
  }

  /** The key of the context is usable (`Context.KeyValid`). */
  predicate KeyValidIn(s: Snapshot)
  {
    s.own.registered && s.own.open && s.selectorOpen
  }

  /** The state the write path works on (`Context.Outgoing`). */
  function OutboundIn(s: Snapshot): Outbound
  {
    Outbound(s.own.accepts, s.own.wire, s.own.writables, s.own.writeMode, s.own.interestWrite, s.released)
  }

  /** The snapshot with the key cancelled and nothing else changed. */
  function Cancelled(s: Snapshot): Snapshot
  {
    s.(own := s.own.(registered := false))
  }

  /** What the read path (`Processor.Read`) does to a context, from snapshot
      `s` to snapshot `t`. On a closed socket it only cancels the key.
      Otherwise it runs `ReadLoop` on the cleared request buffer; the consumer
      gets the bytes read iff the total is positive; the context is closed
      `CloseCount` times (once for a final -1, once more when nothing was
      consumed), and the key is cancelled iff the last value was -1. A
      final -1 closes the context, and so releases its buffer, before
      `consume` is called with that buffer. The write side of the context is
      untouched. */
  ghost predicate ReadEffect(s: Snapshot, t: Snapshot)
  {
    && t.selectorOpen == s.selectorOpen && t.consumeThrows == s.consumeThrows && t.closeWithThrows == s.closeWithThrows
    && t.own.writables == s.own.writables && t.own.writeMode == s.own.writeMode
    && t.own.interestWrite == s.own.interestWrite && t.own.accepts == s.own.accepts && t.own.wire == s.own.wire
    && t.own.closingData == s.own.closingData && t.own.consumerData == s.own.consumerData
    && (!s.own.open ==> t == Cancelled(s))
    && (s.own.open ==>
          var p := ReadLoop(true, s.own.inbound, Clear(s.own.buffer), 0);
          var n := CloseCount(p);
          && t.own.inbound == p.inbound
          && t.own.buffer == (if Consumes(p) then Flip(p.buffer) else p.buffer)
          && t.consumed == s.consumed + (if Consumes(p) then [Written(p.buffer)] else [])
          && t.releasesSeen == s.releasesSeen + (if Consumes(p) then [|s.released| + (if p.last == -1 then 1 else 0)] else [])
          && t.closings == s.closings + Repeat(s.own.closingData, n)
          && t.released == s.released + Repeat(s.own.buffer.id, n)
          && t.own.registered == (s.own.registered && p.last != -1)
          && t.own.open == (n == 0 || s.closeWithThrows)
          && t.own.closes == s.own.closes + (if s.closeWithThrows then 0 else n))
  }

  /** The read path returns normally unless it handed the buffer to a
      consumer whose `consume` throws. */
  ghost predicate ReadReturns(s: Snapshot)
  {
    !(s.own.open && s.consumeThrows && Consumes(ReadLoop(true, s.own.inbound, Clear(s.own.buffer), 0)))
  }

  /** What `write(Context)` (`Processor.WriteContext`) does to a context,
      from snapshot `s` to snapshot `t`. A closed socket makes it close the
      context: one `closeWith`, one release, one more `close()` of the socket
      unless `closeWith` threw, and the queue untouched. An open socket in
      write mode, or with nothing queued, is left as it was. Otherwise the
      queue is written as `WriteLoop` says. The read side of the context is
      untouched. */
  ghost predicate WriteEffect(s: Snapshot, t: Snapshot, fuel: nat)
  {
    && t.selectorOpen == s.selectorOpen && t.consumeThrows == s.consumeThrows && t.closeWithThrows == s.closeWithThrows
    && t.own.buffer == s.own.buffer && t.own.registered == s.own.registered
    && t.own.closingData == s.own.closingData && t.own.consumerData == s.own.consumerData
    && t.own.inbound == s.own.inbound && t.consumed == s.consumed && t.releasesSeen == s.releasesSeen
    && (!s.own.open ==>
          && t.own.writables == s.own.writables && t.own.writeMode == s.own.writeMode
          && t.own.interestWrite == s.own.interestWrite
          && t.own.accepts == s.own.accepts && t.own.wire == s.own.wire
          && t.closings == s.closings + [s.own.closingData]
          && t.released == s.released + [s.own.buffer.id]
          && !t.own.open
          && t.own.closes == s.own.closes + (if s.closeWithThrows then 0 else 1))
    && (s.own.open && (s.own.writeMode || s.own.writables == []) ==> t == s)
    && (s.own.open && !s.own.writeMode && s.own.writables != [] ==>
          && OutboundIn(t) == WriteLoop(true, KeyValidIn(s), OutboundIn(s), fuel).out
          && t.own.open && t.own.closes == s.own.closes && t.closings == s.closings)
  }

  /** What `write(SelectionKey)` (`Processor.WriteKey`) does to a context: on
      a closed socket it only cancels the key; otherwise it does what
      `write(Context)` does. */
  ghost predicate KeyWriteEffect(s: Snapshot, t: Snapshot, fuel: nat)
  {
    && (!s.own.open ==> t == Cancelled(s))
    && (s.own.open ==> WriteEffect(s, t, fuel))
  }

  /** The per-connection state. */
  class Context {
    const owner: Processor
    const channel: Channel
    const consumer: Consumer
    const id: string
    var buffer: ConsumerBuffer
    var closingData: Token
    var consumerData: Token
    var writables: seq<ConsumerBuffer>
    var writeMode: bool
    var registered: bool
    var interestWrite: bool

    /** Takes a consumer (the provider's product), acquires the request buffer
        from the pool and takes the pre-incremented context counter as its id. */
    constructor (owner: Processor, channel: Channel, consumer: Consumer)
      modifies owner`contextId, owner.pool`acquisitions
      ensures this.owner == owner && this.channel == channel && this.consumer == consumer
      ensures owner.contextId == old(owner.contextId) + 1 && id == Decimal(owner.contextId)
      ensures buffer.id == old(owner.pool.acquisitions) && owner.pool.acquisitions == old(owner.pool.acquisitions) + 1
      ensures |buffer.bytes| == owner.pool.capacity
      ensures writables == [] && !writeMode && closingData == Null && consumerData == Null
      ensures !registered && !interestWrite
    {
      this.owner := owner;
      this.channel := channel;
      this.consumer := consumer;
      var acquired := owner.pool.Acquire();
      buffer := acquired;
      owner.contextId := owner.contextId + 1;
      id := Decimal(owner.contextId);
      closingData, consumerData := Null, Null;
      writables := [];
      writeMode := false;
      registered, interestWrite := false, false;
    }

    /** The selection key is usable: not cancelled, its channel open, its selector open. */
    predicate KeyValid()
      reads this, channel, owner`selectorOpen
    {
      registered && channel.open && owner.selectorOpen
    }

    /** The state the write path works on. */
    ghost function Outgoing(): Outbound
      reads this, channel, owner.pool
    {
      Outbound(channel.accepts, channel.wire, writables, writeMode, interestWrite, owner.pool.released)
    }

    method WhenClosing(data: Token)
      modifies this`closingData
      ensures closingData == data
    {
      closingData := data;
    }

    method SetConsumerData(data: Token) returns (r: Token)
      modifies this`consumerData
      ensures consumerData == data && r == data
      ensures HasConsumerData() <==> data != Null
    {
      consumerData := data;
      r := data;
    }

    /** Some working data was attached, that is, it is not null. */
    predicate HasConsumerData(): (r: bool)
      reads this
      ensures r <==> consumerData.Token?
    {
      consumerData != Null
    }

    function NextWritable(): (r: seq<ConsumerBuffer>)
      reads this
      ensures |r| <= 1 && (r == [] <==> writables == []) && (r != [] ==> r[0] == writables[0])
    {
      if writables == [] then [] else [writables[0]]
    }

    /** Re-registers read interest, plus write interest iff `on`. Registration
        throws when the channel or the selector is closed or the key was
        cancelled, and then nothing changes. */
    method SetWriteMode(on: bool) returns (ok: bool)
      modifies this`interestWrite, this`writeMode
      ensures ok == KeyValid()
      ensures ok ==> interestWrite == on && writeMode == on
      ensures !ok ==> interestWrite == old(interestWrite) && writeMode == old(writeMode)
    {
      ok := KeyValid();
      if ok {
        interestWrite := on;
        writeMode := on;
      }
    }

    /** Appends at the tail; asks for a flush in the next probe unless in write mode. */
    method QueueWritable(b: ConsumerBuffer)
      modifies this`writables, owner`writableContexts
      ensures writables == old(writables) + [b]
      ensures owner.writableContexts == old(owner.writableContexts) + (if writeMode then [] else [this])
    {
      writables := writables + [b];
      if !writeMode {
        owner.writableContexts := owner.writableContexts + [this];
      }
    }

    /** Releases the written buffer, tries to leave write mode and pops the head. */
    method ConfirmCurrentWritable(b: ConsumerBuffer)
      modifies owner.pool`released, this`writeMode, this`interestWrite, this`writables
      ensures owner.pool.released == old(owner.pool.released) + [b.id]
      ensures writables == if old(writables) == [] then [] else old(writables)[1..]
      ensures KeyValid() ==> !writeMode && !interestWrite
      ensures !KeyValid() ==> writeMode == old(writeMode) && interestWrite == old(interestWrite)
    {
      owner.pool.Release(b);
      var _ := SetWriteMode(false);
      if writables != [] {
        writables := writables[1..];
      }
    }

    /** Hands the closing data to the consumer, closes the channel and releases
        the request buffer; the release happens even when `closeWith` throws,
        in which case the channel is left open. Not idempotent: every call
        does all of it again. */
    method Close()
      modifies consumer`closings, channel`open, channel`closes, owner.pool`released
      ensures consumer.closings == old(consumer.closings) + [closingData]
      ensures owner.pool.released == old(owner.pool.released) + [buffer.id]
      ensures consumer.closeWithThrows ==> channel.open == old(channel.open) && channel.closes == old(channel.closes)
      ensures !consumer.closeWithThrows ==> !channel.open && channel.closes == old(channel.closes) + 1
    {
      var ok := consumer.CloseWith(closingData);
      if ok {
        channel.Close();
      }
      owner.pool.Release(buffer);
    }
  }

  /** The reactor. `stopped` is the actor's stopped state, set by the actor
      runtime. The ghost fields record every context ever constructed, every
      selected key visited and every context polled from `writableContexts`. */
  class Processor {
    const pool: Pool
    var contextId: nat
    var writableContexts: seq<Context>
    var selectedKeys: seq<Selection>
    var selectorOpen: bool
    var timerCancelled: bool
    var stopped: bool
    ghost var contexts: seq<Context>
    ghost var visits: seq<Visit>
    ghost var flushed: seq<Step>

    /** The contexts are this processor's, numbered in creation order, each
        on its own socket; the selected keys and the pending flushes are
        among them, and no key is selected twice. */
    ghost predicate Valid()
      reads this`contextId, this`contexts, this`selectedKeys, this`writableContexts
    {
      && contextId == |contexts| && Numbered(contexts)
      && (forall c :: c in contexts ==> c.owner == this)
      && (forall i, j :: 0 <= i < j < |contexts| ==> ChannelAt(contexts, i) != ChannelAt(contexts, j))
      && (forall i :: 0 <= i < |selectedKeys| ==> selectedKeys[i].key in contexts)
      && (forall c :: c in writableContexts ==> c in contexts)
      && Distinct(Keys(selectedKeys))
    }

    /** Every object a probe may change besides the processor and the pool. */
    ghost function Footprint(): set<object>
      reads this`contexts
    {
      (set c | c in contexts :: c as object)
      + (set c | c in contexts :: c.channel as object)
      + (set c | c in contexts :: c.consumer as object)
    }

    constructor (pool: Pool)
      ensures this.pool == pool && Valid()
      ensures contextId == 0 && contexts == [] && writableContexts == [] && selectedKeys == []
      ensures selectorOpen && !timerCancelled && !stopped && visits == [] && flushed == []
    {
      this.pool := pool;
      contextId := 0;
      writableContexts, selectedKeys := [], [];
      selectorOpen, timerCancelled, stopped := true, false, false;
      contexts, visits, flushed := [], [], [];
    }

    /** Context ids are "1", "2", ... in construction order, hence pairwise distinct. */
    lemma IdsDistinct(i: nat, j: nat)
      requires Valid() && i < j < |contexts|
      ensures contexts[i].id == Decimal(i + 1) && contexts[j].id == Decimal(j + 1)
      ensures contexts[i].id != contexts[j].id
    {
      NumberedAt(contexts, i);
      NumberedAt(contexts, j);
      if contexts[i].id == contexts[j].id {
        DecimalInjective(i + 1, j + 1);
      }
    }

    /** Registers an accepted channel for reading with a new context. The
        context (its buffer acquired, its id taken) exists before the
        registration is attempted, so a failed registration still uses up
        an id and a buffer. An accepted channel is a new socket, so no
        context has it yet. */
    method Process(channel: Channel, consumer: Consumer) returns (ctx: Context, ok: bool)
      requires Valid() && forall c :: c in contexts ==> c.channel != channel
      modifies this`contextId, this`contexts, pool`acquisitions
      ensures Valid() && fresh(ctx)
      ensures contexts == old(contexts) + [ctx] && contextId == old(contextId) + 1
      ensures ctx.owner == this && ctx.channel == channel && ctx.consumer == consumer
      ensures ctx.id == Decimal(contextId) && ctx.buffer.id == old(pool.acquisitions)
      ensures ctx.writables == [] && !ctx.writeMode && !ctx.interestWrite
      ensures ok == (channel.open && selectorOpen) && ctx.registered == ok
    {
      ctx := new Context(this, channel, consumer);
      assert (contexts + [ctx])[..|contexts|] == contexts;
      contexts := contexts + [ctx];
      forall i, j | 0 <= i < j < |contexts|
        ensures ChannelAt(contexts, i) != ChannelAt(contexts, j)
      {
        assert contexts[i] == old(contexts)[i] && contexts[i] in old(contexts);
        if j < |old(contexts)| {
          assert ChannelAt(old(contexts), i) != ChannelAt(old(contexts), j);
        }
      }
      ok := channel.open && selectorOpen;
      if ok {
        ctx.registered := true;
      }
    }

    method RespondWith(ctx: Context, b: ConsumerBuffer)
      requires Valid() && ctx in contexts
      modifies ctx`writables, this`writableContexts
      ensures Valid()
      ensures ctx.writables == old(ctx.writables) + [b]
      ensures writableContexts == old(writableContexts) + (if ctx.writeMode then [] else [ctx])
    {
      ctx.QueueWritable(b);
    }

    method Abandon(ctx: Context)
      requires ctx.owner == this
      modifies ctx.consumer`closings, ctx.channel`open, ctx.channel`closes, pool`released
      ensures ctx.consumer.closings == old(ctx.consumer.closings) + [ctx.closingData]
      ensures pool.released == old(pool.released) + [ctx.buffer.id]
      ensures ctx.channel.open == (old(ctx.channel.open) && ctx.consumer.closeWithThrows)
      ensures ctx.channel.closes == old(ctx.channel.closes) + (if ctx.consumer.closeWithThrows then 0 else 1)
    {
      ctx.Close();
    }

    /** Cancels the probe timer and closes the selector. */
    method Stop()
      modifies this`timerCancelled, this`selectorOpen
      ensures timerCancelled && !selectorOpen
    {
      timerCancelled := true;
      selectorOpen := false;
    }

    /** The sender channel's `close()`: stops the reactor unless it is already stopped. */
    method Close()
      modifies this`timerCancelled, this`selectorOpen
      ensures stopped ==> timerCancelled == old(timerCancelled) && selectorOpen == old(selectorOpen)
      ensures !stopped ==> timerCancelled && !selectorOpen
    {
      if stopped {
        return;
      }
      Stop();
    }

    /** Closes the context and cancels its key. */
    method CloseContext(ctx: Context)
      requires ctx.owner == this
      modifies ctx`registered, ctx.consumer`closings, ctx.channel`open, ctx.channel`closes, pool`released
      ensures !ctx.registered
      ensures ctx.consumer.closings == old(ctx.consumer.closings) + [ctx.closingData]
      ensures pool.released == old(pool.released) + [ctx.buffer.id]
      ensures ctx.consumer.closeWithThrows ==> ctx.channel.open == old(ctx.channel.open) && ctx.channel.closes == old(ctx.channel.closes)
      ensures !ctx.consumer.closeWithThrows ==> !ctx.channel.open && ctx.channel.closes == old(ctx.channel.closes) + 1
    {
      ctx.Close();
      ctx.registered := false;
    }

    /** The do-while loop of the read path: clears the request buffer and
        reads into it while each call returns more than zero. */
    method ReadAvailable(ctx: Context) returns (total: int, bytesRead: int, faulted: bool)
      requires ctx.channel.open
      modifies ctx`buffer, ctx.channel`inbound
      ensures ReadLoop(true, old(ctx.channel.inbound), Clear(old(ctx.buffer)), 0)
              == ReadPass(total, bytesRead, faulted, ctx.channel.inbound, ctx.buffer)
    {
      var buf := Clear(ctx.buffer);
      ghost var goal := ReadLoop(true, ctx.channel.inbound, buf, 0);
      total, bytesRead, faulted := 0, 0, false;
      while true
        invariant ctx.channel.open
        invariant goal == ReadLoop(true, ctx.channel.inbound, buf, total)
        decreases buf.limit - buf.position
      {
        ghost var before, b1, t1 := ctx.channel.inbound, buf, total;
        var r, b := ctx.channel.Read(buf);
        buf := b;
        if r.Thrown? {
          bytesRead, faulted := -1, true;
          ReadLoopAdvance(goal, before, b1, t1, r, ctx.channel.inbound, buf, total);
          break;
        }
        bytesRead, total := r.n, total + r.n;
        ReadLoopAdvance(goal, before, b1, t1, r, ctx.channel.inbound, buf, total);
        if r.n <= 0 {
          break;
        }
      }
      ctx.buffer := buf;
    }

    /** The read path. On a closed channel it only cancels the key. Otherwise
        it runs the read loop (`ReadLoop`); a final -1 (end of stream or
        exception) closes the context and cancels the key; then the consumer
        gets the flipped buffer iff the total is positive, and otherwise the
        context is closed (again). `ok` is false iff `consume` threw. */
    method Read(ctx: Context) returns (ok: bool)
      requires ctx.owner == this
      modifies ctx`buffer, ctx`registered, ctx.channel`inbound, ctx.channel`open, ctx.channel`closes
      modifies ctx.consumer`consumed, ctx.consumer`releasesSeen, ctx.consumer`closings, pool`released
      ensures ReadEffect(old(SnapshotOf(ctx)), SnapshotOf(ctx))
      ensures ok == ReadReturns(old(SnapshotOf(ctx)))
    {
      if !ctx.channel.open {
        ctx.registered := false;
        return true;
      }
      var total, bytesRead, faulted := ReadAvailable(ctx);
      ok := Deliver(ctx, total, bytesRead, ReadPass(total, bytesRead, faulted, ctx.channel.inbound, ctx.buffer));
    }

    /** The end of the read path, after the read loop left pass `p`: a last
        value of -1 closes the context and cancels the key; then the flipped
        buffer goes to the consumer iff the total is positive, and otherwise
        the context is closed. */
    method Deliver(ctx: Context, total: int, bytesRead: int, ghost p: ReadPass) returns (ok: bool)
      requires ctx.owner == this && ctx.channel.open
      requires p.total == total && p.last == bytesRead && p.buffer == ctx.buffer
      modifies ctx`buffer, ctx`registered, ctx.channel`open, ctx.channel`closes
      modifies ctx.consumer`consumed, ctx.consumer`releasesSeen, ctx.consumer`closings, pool`released
      ensures var n := CloseCount(p);
              && ctx.buffer == (if Consumes(p) then Flip(p.buffer) else p.buffer)
              && ctx.consumer.consumed == old(ctx.consumer.consumed) + (if Consumes(p) then [Written(p.buffer)] else [])
              && ctx.consumer.releasesSeen ==
                   old(ctx.consumer.releasesSeen) + (if Consumes(p) then [|old(pool.released)| + (if p.last == -1 then 1 else 0)] else [])
              && ok == !(Consumes(p) && ctx.consumer.consumeThrows)
              && ctx.consumer.closings == old(ctx.consumer.closings) + Repeat(ctx.closingData, n)
              && pool.released == old(pool.released) + Repeat(ctx.buffer.id, n)
              && ctx.registered == (old(ctx.registered) && p.last != -1)
              && ctx.channel.open == (n == 0 || ctx.consumer.closeWithThrows)
              && ctx.channel.closes == old(ctx.channel.closes) + (if ctx.consumer.closeWithThrows then 0 else n)
    {
      ghost var closings0, released0 := ctx.consumer.closings, pool.released;
      ghost var k := 0;
      if bytesRead == -1 {
        CloseContext(ctx);
        RepeatSnoc(ctx.closingData, 0);
        RepeatSnoc(ctx.buffer.id, 0);
        k := 1;
      }
      assert ctx.consumer.closings == closings0 + Repeat(ctx.closingData, k);
      assert pool.released == released0 + Repeat(ctx.buffer.id, k);
      if total > 0 {
        ctx.buffer := Flip(ctx.buffer);
        ok := ctx.consumer.Consume(Remaining(ctx.buffer), pool);
      } else {
        ctx.Close();
        RepeatSnoc(ctx.closingData, k);
        RepeatSnoc(ctx.buffer.id, k);
        k := k + 1;
        ok := true;
      }
      assert k == CloseCount(p);
    }


    /** The `while (hasRemaining())` loop of the inner `writeWithCachedData`:
        writes until nothing remains (`Sent`), or until a call takes fewer than
        one byte (`Blocked`) or throws (`Failed`), exactly as `SendLoop` says.
        The bytes taken go to the wire in buffer order. */
    method SendRemaining(channel: Channel, b: ConsumerBuffer) returns (outcome: WriteOutcome, b': ConsumerBuffer)
      modifies channel`accepts, channel`wire
      ensures var p := SendLoop(channel.open, old(channel.accepts), b);
              && outcome == p.outcome && b' == p.buffer && channel.accepts == p.accepts
              && channel.wire == old(channel.wire) + p.sent
      ensures SameRegion(b', b) && b'.bytes == b.bytes
      ensures channel.wire + Remaining(b') == old(channel.wire) + Remaining(b)
      ensures outcome == Sent <==> Remaining(b') == []
    {
      ghost var goal := SendLoop(channel.open, channel.accepts, b);
      ghost var sent: seq<Byte> := [];
      b' := b;
      assert [] + goal.sent == goal.sent;
      AppendAssoc(channel.wire, goal.sent, Remaining(goal.buffer));
      while b'.position < b'.limit
        invariant Completes(goal, sent, SendLoop(channel.open, channel.accepts, b'))
        invariant channel.wire == old(channel.wire) + sent
        decreases b'.limit - b'.position
      {
        ghost var a0, b0 := channel.accepts, b';
        ghost var sent' := WriteCall(channel.open, a0, b0).sent;
        var r, next := channel.Write(b');
        b' := next;
        SendLoopStep(goal, sent, channel.open, a0, b0, r, channel.accepts, b', sent');
        AppendAssoc(old(channel.wire), sent, sent');
        if r.Thrown? {
          return Failed, b';
        }
        sent := sent + sent';
        if r.n < 1 {
          return Blocked, b';
        }
      }
      assert sent + [] == sent;
      outcome := Sent;
    }

    /** The inner `writeWithCachedData`: writes the head buffer as `SendLoop`
        says, then, as `WriteHeadStep` says, pops and releases it when it
        went out whole, requests write mode when a call took nothing, and
        leaves it in place otherwise. */
    method WriteHead(ctx: Context) returns (outcome: WriteOutcome)
      requires ctx.owner == this && ctx.writables != []
      modifies ctx`writables, ctx`writeMode, ctx`interestWrite, ctx.channel`accepts, ctx.channel`wire, pool`released
      ensures outcome == SendLoop(ctx.channel.open, old(ctx.channel.accepts), old(ctx.writables[0])).outcome
      ensures ctx.Outgoing() == WriteHeadStep(ctx.channel.open, ctx.KeyValid(), old(ctx.Outgoing()))
    {
      var h0, rest := ctx.writables[0], ctx.writables[1..];
      var head;
      outcome, head := SendRemaining(ctx.channel, h0);
      if outcome == Sent {
        ctx.ConfirmCurrentWritable(head);
      } else {
        ctx.writables := [head] + rest;
        if outcome == Blocked {
          var _ := ctx.SetWriteMode(true);
        }
      }
    }

    /** The outer `writeWithCachedData`: writes whatever is at the head of the
        queue (`nextWritable()`) while there is one, as `WriteLoop` says, and
        returns how many head writes it made. The Java loop has no bound;
        `fuel` bounds the head writes, and only running out of it leaves the
        queue non-empty. */
    method WriteQueued(ctx: Context, fuel: nat) returns (drained: bool, steps: nat)
      requires ctx.owner == this
      modifies ctx`writables, ctx`writeMode, ctx`interestWrite, ctx.channel`accepts, ctx.channel`wire, pool`released
      ensures WriteLoop(ctx.channel.open, ctx.KeyValid(), old(ctx.Outgoing()), fuel) == QueuePass(ctx.Outgoing(), steps)
      ensures drained <==> ctx.writables == []
      ensures !drained ==> steps == fuel
      ensures Kept(old(ctx.Outgoing()), ctx.Outgoing())
    {
      ghost var open, valid := ctx.channel.open, ctx.KeyValid();
      ghost var goal := WriteLoop(open, valid, ctx.Outgoing(), fuel);
      ghost var left: nat := fuel;
      steps := 0;
      while steps < fuel && ctx.NextWritable() != []
        invariant left + steps == fuel
        invariant open == ctx.channel.open && valid == ctx.KeyValid()
        invariant var p := WriteLoop(open, valid, ctx.Outgoing(), left);
                  p.out == goal.out && steps + p.steps == goal.steps
        decreases left
      {
        ghost var s0, left0 := ctx.Outgoing(), left;
        var _ := WriteHead(ctx);
        steps, left := steps + 1, left - 1;
        WriteLoopAdvance(open, valid, s0, left0, ctx.Outgoing(), left);
      }
      drained := ctx.writables == [];
      WriteLoopKeeps(open, valid, old(ctx.Outgoing()), fuel);
    }

    /** `write(Context)`: a context whose channel is closed is closed; one in
        write mode, or with nothing queued, is left alone; otherwise its queue
        is written (`WriteEffect`). No byte is lost on the way. */
    method WriteContext(ctx: Context, fuel: nat)
      requires ctx.owner == this
      modifies ctx`writables, ctx`writeMode, ctx`interestWrite, ctx.channel`accepts, ctx.channel`wire, pool`released
      modifies ctx.consumer`closings, ctx.channel`open, ctx.channel`closes
      ensures WriteEffect(old(SnapshotOf(ctx)), SnapshotOf(ctx), fuel)
      ensures old(ctx.channel.open) ==> Kept(old(ctx.Outgoing()), ctx.Outgoing())
      ensures Pending(ctx) == old(Pending(ctx))
    {
      if !ctx.channel.open {
        ctx.Close();
        return;
      }
      if !ctx.writeMode && ctx.writables != [] {
        var _, _ := WriteQueued(ctx, fuel);
      } else {
        assert Drained(ctx.writables, ctx.writables);
        assert ctx.writables[..0] == [];
      }
    }

    /** `write(SelectionKey)`: a closed channel only cancels the key;
        otherwise `write(Context)` (`KeyWriteEffect`). */
    method WriteKey(ctx: Context, fuel: nat)
      requires ctx.owner == this
      modifies ctx`registered, ctx`writables, ctx`writeMode, ctx`interestWrite, ctx.channel`accepts, ctx.channel`wire
      modifies pool`released, ctx.consumer`closings, ctx.channel`open, ctx.channel`closes
      ensures KeyWriteEffect(old(SnapshotOf(ctx)), SnapshotOf(ctx), fuel)
      ensures Pending(ctx) == old(Pending(ctx))
    {
      if !ctx.channel.open {
        ctx.registered := false;
        return;
      }
      WriteContext(ctx, fuel);
    }

    lemma NotInFootprint()
      ensures this !in Footprint() && pool !in Footprint()
    {
    }

    /** No two contexts share a socket. */
    lemma OwnChannel(c: Context, d: Context)
      requires Valid() && c in contexts && d in contexts && c != d
      ensures c.channel != d.channel
    {
      var i, j :| 0 <= i < |contexts| && 0 <= j < |contexts| && contexts[i] == c && contexts[j] == d;
      assert ChannelAt(contexts, i) == c.channel && ChannelAt(contexts, j) == d.channel;
    }

    /** Takes one selected key: dispatches it to the read path when it is
        valid and ready for reading, to the write path when it is valid and
        ready for writing only, and otherwise does nothing. `ok` is false iff
        `consume` threw. Bytes still to go out are never lost. */
    method VisitKey(sel: Selection, fuel: nat) returns (v: Visit, ok: bool)
      requires sel.key.owner == this
      modifies sel.key`buffer, sel.key`registered, sel.key`writables, sel.key`writeMode, sel.key`interestWrite
      modifies sel.key.channel`inbound, sel.key.channel`accepts, sel.key.channel`wire, sel.key.channel`open, sel.key.channel`closes
      modifies sel.key.consumer`consumed, sel.key.consumer`releasesSeen, sel.key.consumer`closings, pool`released
      ensures Visited(v, sel, selectorOpen, fuel) && ok == Returned(v)
      ensures v.before == old(SnapshotOf(sel.key)) && v.after == SnapshotOf(sel.key)
      ensures v.action == Skip ==> unchanged(sel.key, sel.key.channel, sel.key.consumer, pool)
      ensures Pending(sel.key) == old(Pending(sel.key))
    {
      var key := sel.key;
      ghost var before := SnapshotOf(key);
      var valid := key.KeyValid();
      var action := Dispatch(valid, sel.ops.readable, sel.ops.writable);
      ok := true;
      if action == ReadPath {
        ok := Read(key);
      } else if action == WritePath {
        WriteKey(key, fuel);
      }
      v := Visit(key, valid, sel.ops.readable, sel.ops.writable, action, before, SnapshotOf(key));
    }

    /** `writableContexts.poll()` on a non-empty queue. */
    method PollWritable() returns (c: Context)
      requires Valid() && writableContexts != []
      modifies this`writableContexts
      ensures Valid() && c in contexts
      ensures c == old(writableContexts)[0] && writableContexts == old(writableContexts)[1..]
    {
      c := writableContexts[0];
      writableContexts := writableContexts[1..];
    }

    /** Removes the first key from the selected-key set. */
    method TakeSelected() returns (sel: Selection)
      requires Valid() && selectedKeys != []
      modifies this`selectedKeys
      ensures Valid() && sel.key in contexts
      ensures sel == old(selectedKeys)[0] && selectedKeys == old(selectedKeys)[1..]
    {
      sel := selectedKeys[0];
      selectedKeys := selectedKeys[1..];
    }

    /** The own state of every context. */
    ghost function OwnMap(): (m: map<Context, Own>)
      reads this`contexts, Footprint()
      ensures m.Keys == set c | c in contexts
    {
      map c | c in contexts :: OwnOf(c)
    }

    /** The contexts are where the steps of `log`, chained from the states
        `init`, took them: every context is in the state the last step on
        it left, or in its `init` state when no step is on it. */
    ghost predicate RunAt(log: seq<Step>, init: map<Context, Own>)
      reads this`contexts, Footprint()
    {
      Chained(log, init) && StatesAfter(contexts, log, init)
    }

    /** The contexts changed as `log` says, from the old state to this one. */
    twostate predicate Ran(new log: seq<Step>)
      reads this`contexts, Footprint()
    {
      RunAt(log, old(OwnMap()))
    }

    /** No context has lost a byte still to go out since its state in `init`,
        and every context outside `touched` is still in that state. `Own`
        holds every field of a context and of its socket that can change, so
        such a context and its socket are as they were. */
    ghost predicate PreservedFrom(init: map<Context, Own>, touched: seq<Context>)
      reads this`contexts, Footprint()
    {
      forall c :: c in contexts ==>
        && c in init && PendingOf(OwnOf(c)) == PendingOf(init[c])
        && (c !in touched ==> OwnOf(c) == init[c])
    }

    /** `PreservedFrom` says `StatesKept` of the contexts' present states. */
    lemma PreservedKept(init: map<Context, Own>, touched: seq<Context>)
      ensures PreservedFrom(init, touched) <==> StatesKept(init, OwnMap(), touched)
    {
      if StatesKept(init, OwnMap(), touched) {
        forall c | c in contexts
          ensures c in init && PendingOf(OwnOf(c)) == PendingOf(init[c]) && (c !in touched ==> OwnOf(c) == init[c])
        {
          assert c in OwnMap();
        }
      }
    }

    /** Touching more contexts keeps `PreservedFrom`. */
    lemma PreservedWiden(init: map<Context, Own>, t1: seq<Context>, t: seq<Context>)
      requires PreservedFrom(init, t1) && forall x :: x in t1 ==> x in t
      ensures PreservedFrom(init, t)
    {
    }

    /** Nothing ran: the contexts are still in their states `init`. */
    lemma RanNothing(init: map<Context, Own>, touched: seq<Context>)
      requires init == OwnMap()
      ensures RunAt(Steps([]), init) && PreservedFrom(init, touched)
    {
      assert Steps([]) == [];
      StatesAfterAll(contexts, [], init);
      RunPreserves([], init, touched);
    }

    /** `PreservedFrom` the old state. */
    twostate predicate Preserved(new touched: seq<Context>)
      reads this`contexts, Footprint()
    {
      PreservedFrom(old(OwnMap()), touched)
    }

    /** A run of steps on contexts of `touched`, none of which loses a byte
        still to go out, preserves every context in that sense. */
    lemma RunPreserves(log: seq<Step>, init: map<Context, Own>, touched: seq<Context>)
      requires RunAt(log, init)
      requires forall i :: 0 <= i < |log| ==>
                 log[i].ctx in touched && PendingOf(log[i].after.own) == PendingOf(log[i].before.own)
      ensures PreservedFrom(init, touched)
    {
      StatesAfterAll(contexts, log, init);
      forall c | c in contexts
        ensures c in init && PendingOf(OwnOf(c)) == PendingOf(init[c]) && (c !in touched ==> OwnOf(c) == init[c])
      {
        ChainedKeepsPending(log, init, c);
        if c !in touched {
          OwnAfterUntouched(log, c, init[c]);
        }
      }
    }

    /** The key loop of a probe: every selected key is removed from the
        selected-key set, in the set's order, and visited; an exception from
        `consume` ends the loop with the remaining keys still selected. No
        context loses bytes still to go out, and a context whose key was not
        selected is not touched. */
    method ProcessSelectedKeys(fuel: nat) returns (faulted: bool, ghost done: seq<Visit>)
      requires Valid()
      modifies this`selectedKeys, this`visits, pool, Footprint()
      ensures Valid()
      ensures writableContexts == old(writableContexts) && flushed == old(flushed)
      ensures visits == old(visits) + done && |done| <= |old(selectedKeys)|
      ensures selectedKeys == old(selectedKeys)[|done|..]
      ensures !faulted ==> selectedKeys == []
      ensures VisitsDone(done, old(selectedKeys), old(OwnMap()), selectorOpen, faulted, fuel)
      ensures forall i :: 0 <= i < |done| ==> OwnOf(done[i].key) == done[i].after.own
      ensures Ran(Steps(done))
      ensures Preserved(Keys(old(selectedKeys)))
    {
      ghost var s, init := selectedKeys, OwnMap();
      StatesAfterAll(contexts, [], init);
      faulted, done := VisitSelected(fuel, s, init);
      KeyLoopEnd(done, s, init, fuel, faulted);
    }

    /** The loop of `ProcessSelectedKeys`, stated by where it leaves the key
        loop (`KeyRun`): it goes on while keys are selected and `consume`
        has not thrown. */
    method VisitSelected(fuel: nat, ghost s: seq<Selection>, ghost init: map<Context, Own>)
      returns (faulted: bool, ghost done: seq<Visit>)
      requires Valid() && KeyRun([], s, init, fuel)
      modifies this`selectedKeys, this`visits, pool, Footprint()
      ensures KeyLoop(done, s, init, fuel, old(visits), old(writableContexts), old(flushed))
      ensures !faulted ==> selectedKeys == [] && (done != [] ==> Returned(done[|done| - 1]))
      ensures faulted ==> done != [] && !Returned(done[|done| - 1])
    {
      ghost var v0, w0, f0 := visits, writableContexts, flushed;
      done := [];
      faulted := false;
      while selectedKeys != []
        invariant KeyLoop(done, s, init, fuel, v0, w0, f0)
        invariant done != [] ==> Returned(done[|done| - 1])
        decreases |selectedKeys|
      {
        var ok;
        ok, done := NextKey(fuel, done, s, init, v0, w0, f0);
        if !ok {
          return true, done;
        }
      }
    }

    /** `KeyRun`, with the visit log grown from `v0` by the visits `done`
        and the pending flushes and the flush record still `w0` and `f0`. */
    ghost predicate KeyLoop(done: seq<Visit>, s: seq<Selection>, init: map<Context, Own>, fuel: nat, v0: seq<Visit>,
                            w0: seq<Context>, f0: seq<Step>)
      reads this`contextId, this`contexts, this`selectorOpen, this`selectedKeys, this`writableContexts, this`visits, this`flushed, Footprint()
    {
      Valid() && visits == v0 + done && writableContexts == w0 && flushed == f0 && KeyRun(done, s, init, fuel)
    }

    /** Where the key loop stands after visiting `done`, the selected keys
        having been `s` and the contexts' states `init` when it began: the
        rest of `s` is still selected, each visit handled its selection, and
        the contexts are where the visits took them. */
    ghost predicate KeyRun(done: seq<Visit>, s: seq<Selection>, init: map<Context, Own>, fuel: nat)
      reads this`contexts, this`selectorOpen, this`selectedKeys, Footprint()
    {
      && |done| <= |s| && selectedKeys == s[|done|..]
      && Distinct(Keys(s)) && (forall i :: 0 <= i < |s| ==> s[i].key in contexts)
      && VisitedAll(done, s, selectorOpen, fuel)
      && RunAt(Steps(done), init)
    }

    /** At the end of the key loop, whose visits each change a different
        context: every visit handled its selection and started from its
        context's state before the loop, and its context is now in the
        state it left. */
    lemma KeyLoopEnd(done: seq<Visit>, s: seq<Selection>, init: map<Context, Own>, fuel: nat, faulted: bool)
      requires KeyRun(done, s, init, fuel)
      requires !faulted && done != [] ==> Returned(done[|done| - 1])
      requires faulted ==> done != [] && !Returned(done[|done| - 1])
      ensures VisitsDone(done, s, init, selectorOpen, faulted, fuel)
      ensures forall i :: 0 <= i < |done| ==> OwnOf(done[i].key) == done[i].after.own
      ensures PreservedFrom(init, Keys(s))
    {
      VisitedAllAt(done, s, selectorOpen, fuel);
      forall i | 0 <= i < |done|
        ensures Steps(done)[i].ctx in Keys(s)
        ensures PendingOf(Steps(done)[i].after.own) == PendingOf(Steps(done)[i].before.own)
      {
        assert Keys(s)[i] == s[i].key;
        DidKeepsPending(done[i], fuel);
      }
      RunPreserves(Steps(done), init, Keys(s));
      StatesAfterAll(contexts, Steps(done), init);
      forall i | 0 <= i < |done|
        ensures done[i].key in init && done[i].before.own == init[done[i].key] && OwnOf(done[i].key) == done[i].after.own
      {
        forall j | 0 <= j < |done| && j != i
          ensures Steps(done)[j].ctx != Steps(done)[i].ctx
        {
          assert Keys(s)[i] == s[i].key && Keys(s)[j] == s[j].key;
        }
        OnceChained(Steps(done), init, i);
      }
    }

    /** The key loop's view of one turn: `VisitNext`, moving the loop on
        from where `KeyRun` says it stands. */
    method NextKey(fuel: nat, ghost done: seq<Visit>, ghost s: seq<Selection>, ghost init: map<Context, Own>,
                   ghost v0: seq<Visit>, ghost w0: seq<Context>, ghost f0: seq<Step>)
      returns (ok: bool, ghost done': seq<Visit>)
      requires selectedKeys != [] && KeyLoop(done, s, init, fuel, v0, w0, f0)
      requires done != [] ==> Returned(done[|done| - 1])
      modifies this`selectedKeys, this`visits, pool`released
      modifies selectedKeys[0].key, selectedKeys[0].key.channel, selectedKeys[0].key.consumer
      ensures KeyLoop(done', s, init, fuel, v0, w0, f0) && |done'| == |done| + 1
      ensures ok == Returned(done'[|done'| - 1])
      ensures selectedKeys == old(selectedKeys)[1..]
    {
      ghost var log := Steps(done);
      assert s[|done|..][0] == s[|done|] && s[|done|..][1..] == s[|done| + 1..];
      StatesAfterAll(contexts, log, init);
      var v;
      v, ok := VisitNext(fuel);
      ghost var st := Step(v.key, v.before, v.after);
      StepsSnoc(done, v);
      ChainedSnoc(log, init, st);
      OwnAfterSnoc(log, st);
      forall c | c in contexts
        ensures c in init && OwnOf(c) == OwnAfter(log + [st], c, init[c])
      {
        if c != v.key {
          assert unchanged(c, c.channel);
        }
      }
      StatesAfterAll(contexts, log + [st], init);
      assert (done + [v])[..|done|] == done;
      SnocAssoc(v0, done, v);
      done' := done + [v];
    }

    /** One turn of the key loop: the first selected key is removed from the
        set and visited, with the effect of the read or write path on its
        context; every other context is untouched. */
    method VisitNext(fuel: nat) returns (v: Visit, ok: bool)
      requires Valid() && selectedKeys != []
      modifies this`selectedKeys, this`visits, pool`released
      modifies (selectedKeys[0].key as Context)`buffer, (selectedKeys[0].key as Context)`registered
      modifies (selectedKeys[0].key as Context)`writables, (selectedKeys[0].key as Context)`writeMode
      modifies (selectedKeys[0].key as Context)`interestWrite, (selectedKeys[0].key.channel as Channel)`inbound
      modifies (selectedKeys[0].key.channel as Channel)`accepts, (selectedKeys[0].key.channel as Channel)`wire
      modifies (selectedKeys[0].key.channel as Channel)`open, (selectedKeys[0].key.channel as Channel)`closes
      modifies (selectedKeys[0].key.consumer as Consumer)`consumed, (selectedKeys[0].key.consumer as Consumer)`releasesSeen
      modifies (selectedKeys[0].key.consumer as Consumer)`closings
      ensures Valid()
      ensures selectedKeys == old(selectedKeys)[1..] && visits == old(visits) + [v]
      ensures writableContexts == old(writableContexts) && flushed == old(flushed)
      ensures Visited(v, old(selectedKeys)[0], selectorOpen, fuel) && ok == Returned(v)
      ensures v.before == old(SnapshotOf(v.key)) && v.after == SnapshotOf(v.key)
      ensures PendingKept(contexts)
      ensures forall c :: c in contexts && c != v.key ==> unchanged(c, c.channel)
    {
      var sel := TakeSelected();
      assert unchanged(sel.key, sel.key.channel, sel.key.consumer, pool) && selectorOpen == old(selectorOpen);
      v, ok := VisitKey(sel, fuel);
      visits := visits + [v];
      forall d | d in contexts && d != sel.key
        ensures unchanged(d, d.channel) && Pending(d) == old(Pending(d))
      {
        OwnChannel(d, sel.key);
      }
    }

    /** The flush loop of a probe: `writableContexts` is polled until empty
        and `write(Context)` is called on every polled context, as often as
        it was queued, each time on the state the earlier writes left. No
        context loses bytes still to go out, and a context that was not
        queued is not touched. */
    method FlushWritableContexts(fuel: nat) returns (ghost done: seq<Step>)
      requires Valid()
      modifies this`writableContexts, this`flushed, pool, Footprint()
      ensures Valid()
      ensures selectedKeys == old(selectedKeys) && visits == old(visits)
      ensures writableContexts == [] && flushed == old(flushed) + done
      ensures Flushes(done, old(writableContexts), selectorOpen, fuel)
      ensures Ran(done)
      ensures Preserved(old(writableContexts))
    {
      ghost var w0, init := writableContexts, OwnMap();
      StatesAfterAll(contexts, [], init);
      done := FlushQueued(fuel, w0, init);
      FlushLoopEnd(done, w0, init, fuel, old(flushed), old(selectedKeys), old(visits));
    }

    /** The loop of `FlushWritableContexts`, stated by where it leaves the
        flush loop (`FlushLoop`): it goes on while contexts are queued. */
    method FlushQueued(fuel: nat, ghost w0: seq<Context>, ghost init: map<Context, Own>) returns (ghost done: seq<Step>)
      requires Valid() && writableContexts == w0 && RunAt([], init)
      modifies this`writableContexts, this`flushed, pool, Footprint()
      ensures FlushLoop(done, w0, init, fuel, old(flushed), old(selectedKeys), old(visits)) && writableContexts == []
    {
      ghost var f0, s0, v0 := flushed, selectedKeys, visits;
      done := [];
      AppendEmpty(f0);
      assert w0[|done|..] == w0;
      while writableContexts != []
        invariant FlushLoop(done, w0, init, fuel, f0, s0, v0)
        decreases |writableContexts|
      {
        assert writableContexts[0] in contexts;
        done := NextFlush(fuel, done, w0, init, f0, s0, v0);
      }
    }

    /** Where the flush loop stands after the flushes `done`, the queue
        having been `w0`, the flush log `f0` and the contexts' states `init`
        when it began: the rest of `w0` is still queued, each flush wrote its
        context as `write(Context)` says, and the contexts are where the
        flushes took them. */
    ghost predicate FlushLoop(done: seq<Step>, w0: seq<Context>, init: map<Context, Own>, fuel: nat, f0: seq<Step>,
                              s0: seq<Selection>, v0: seq<Visit>)
      reads this`contextId, this`contexts, this`selectorOpen, this`selectedKeys, this`writableContexts, this`flushed, this`visits, Footprint()
    {
      && Valid() && selectedKeys == s0 && visits == v0
      && |done| <= |w0| && writableContexts == w0[|done|..] && flushed == f0 + done
      && Flushes(done, w0[..|done|], selectorOpen, fuel)
      && RunAt(done, init)
    }

    /** At the end of the flush loop every queued context was written, in
        order, and no context lost a byte still to go out. */
    lemma FlushLoopEnd(done: seq<Step>, w0: seq<Context>, init: map<Context, Own>, fuel: nat, f0: seq<Step>,
                       s0: seq<Selection>, v0: seq<Visit>)
      requires FlushLoop(done, w0, init, fuel, f0, s0, v0) && writableContexts == []
      ensures Flushes(done, w0, selectorOpen, fuel) && PreservedFrom(init, w0)
    {
      assert w0[..|done|] == w0;
      forall i | 0 <= i < |done|
        ensures done[i].ctx in w0 && PendingOf(done[i].after.own) == PendingOf(done[i].before.own)
      {
        WriteEffectKeepsPending(done[i].before, done[i].after, fuel);
      }
      RunPreserves(done, init, w0);
    }

    /** The flush loop's view of one turn: `FlushNext`, with the polled
        context's snapshots cut down to its own state, moving the loop on
        from where `FlushLoop` says it stands. */
    method NextFlush(fuel: nat, ghost done: seq<Step>, ghost w0: seq<Context>, ghost init: map<Context, Own>,
                     ghost f0: seq<Step>, ghost s0: seq<Selection>, ghost v0: seq<Visit>)
      returns (ghost done': seq<Step>)
      requires writableContexts != [] && FlushLoop(done, w0, init, fuel, f0, s0, v0)
      modifies this`writableContexts, this`flushed, pool`released
      modifies writableContexts[0], writableContexts[0].channel, writableContexts[0].consumer
      ensures FlushLoop(done', w0, init, fuel, f0, s0, v0) && |done'| == |done| + 1
      ensures writableContexts == old(writableContexts)[1..]
    {
      assert w0[|done|..][0] == w0[|done|] && w0[|done|..][1..] == w0[|done| + 1..];
      StatesAfterAll(contexts, done, init);
      var st := FlushNext(fuel);
      ChainedSnoc(done, init, st);
      OwnAfterSnoc(done, st);
      forall c | c in contexts
        ensures c in init && OwnOf(c) == OwnAfter(done + [st], c, init[c])
      {
        if c != st.ctx {
          assert unchanged(c, c.channel);
        }
      }
      StatesAfterAll(contexts, done + [st], init);
      FlushesSnoc(done, w0, st, selectorOpen, fuel);
      SnocAssoc(f0, done, st);
      done' := done + [st];
    }

    /** One turn of the flush loop: the first queued context is polled and
        written as `write(Context)` says; every other context is untouched. */
    method FlushNext(fuel: nat) returns (ghost st: Step)
      requires Valid() && writableContexts != []
      modifies this`writableContexts, this`flushed, pool`released
      modifies (writableContexts[0] as Context)`writables, (writableContexts[0] as Context)`writeMode, (writableContexts[0] as Context)`interestWrite
      modifies (writableContexts[0].channel)`accepts, (writableContexts[0].channel)`wire, (writableContexts[0].channel)`open
      modifies (writableContexts[0].channel)`closes, (writableContexts[0].consumer)`closings
      ensures Valid()
      ensures writableContexts == old(writableContexts)[1..] && flushed == old(flushed) + [st]
      ensures selectedKeys == old(selectedKeys) && visits == old(visits)
      ensures st.ctx == old(writableContexts)[0] && Faithful(st.before, st.ctx, selectorOpen) && WriteEffect(st.before, st.after, fuel)
      ensures st.before == old(SnapshotOf(st.ctx)) && st.after == SnapshotOf(st.ctx)
      ensures PendingKept(contexts)
      ensures forall c :: c in contexts && c != st.ctx ==> unchanged(c, c.channel)
    {
      NotInFootprint();
      var c := PollWritable();
      assert unchanged(c, c.channel, c.consumer, pool) && selectorOpen == old(selectorOpen);
      ghost var before := SnapshotOf(c);
      WriteContext(c, fuel);
      st := Step(c, before, SnapshotOf(c));
      flushed := flushed + [st];
      forall d | d in contexts && d != c
        ensures unchanged(d, d.channel) && Pending(d) == old(Pending(d))
      {
        OwnChannel(d, c);
      }
    }

    /** What the key part of a poll cycle did, as `HandleReady` promises;
        see `KeysDone`. */
    twostate predicate KeysVisited(ready: seq<Selection>, faulted: bool, new visited: seq<Visit>, fuel: nat)
      reads this`selectorOpen, this`selectedKeys, this`visits
    {
      KeysDone(ready, old(selectedKeys), selectedKeys, old(visits), visits, old(OwnMap()), selectorOpen, faulted, visited, fuel)
    }

    /** The key part of a poll cycle: `select` adds the ready keys to the
        selected-key set, and when it reports an update the selected keys
        are visited in the set's order and removed. */
    method HandleReady(ready: seq<Selection>, fuel: nat) returns (faulted: bool, ghost visited: seq<Visit>)
      requires Valid() && forall i :: 0 <= i < |ready| ==> ready[i].key in contexts
      modifies this`selectedKeys, this`visits, pool, Footprint()
      ensures Valid()
      ensures writableContexts == old(writableContexts) && flushed == old(flushed)
      ensures KeysVisited(ready, faulted, visited, fuel)
      ensures Ran(Steps(visited))
      ensures Preserved(Keys(AddSelected(old(selectedKeys), ready)))
    {
      NotInFootprint();
      AddSelectedDistinct(selectedKeys, ready);
      AddSelectedAmong(contexts, selectedKeys, ready);
      var s := AddSelected(selectedKeys, ready);
      var updated := s != selectedKeys;
      ghost var init := OwnMap();
      selectedKeys := s;
      faulted, visited := false, [];
      if updated {
        faulted, visited := ProcessSelectedKeys(fuel);
      } else {
        RanNothing(init, Keys(s));
      }
    }

    /** One poll cycle. Nothing happens once stopped; a closed selector makes
        `select` throw. Otherwise the cycle runs as `Cycle` says. */
    method Probe(ready: seq<Selection>, fuel: nat) returns (faulted: bool, ghost visited: seq<Visit>, ghost written: seq<Step>)
      requires Valid() && forall i :: 0 <= i < |ready| ==> ready[i].key in contexts
      modifies this`selectedKeys, this`writableContexts, this`visits, this`flushed, pool, Footprint()
      ensures Valid()
      ensures old(stopped || !selectorOpen) ==>
                && faulted == !old(stopped) && visited == [] && written == [] && visits == old(visits)
                && selectedKeys == old(selectedKeys) && writableContexts == old(writableContexts)
                && flushed == old(flushed) && unchanged(pool) && unchanged(Footprint())
      ensures !old(stopped) && old(selectorOpen) ==>
                && KeysVisited(ready, faulted, visited, fuel)
                && (!faulted ==> writableContexts == [] && flushed == old(flushed) + written
                                 && Flushes(written, old(writableContexts), selectorOpen, fuel))
                && (faulted ==> writableContexts == old(writableContexts) && flushed == old(flushed) && written == [])
      ensures Ran(Steps(visited) + written)
      ensures Preserved(Keys(old(selectedKeys)) + Keys(ready) + old(writableContexts))
    {
      if stopped || !selectorOpen {
        visited, written := [], [];
        assert Steps(visited) + written == [];
        StatesAfterAll(contexts, [], OwnMap());
        PreservedKept(OwnMap(), Keys(selectedKeys) + Keys(ready) + writableContexts);
        return !stopped, visited, written;
      }
      faulted, visited, written := Cycle(ready, fuel);
    }

    /** A poll cycle past the selector's checks: the ready keys join the
        selected-key set; when that updated it, every selected key is taken
        out of the set once, in the set's order, and dispatched when valid
        (reading before writing). Then `writableContexts` is polled until
        empty and each context written. An exception from `consume` ends the
        cycle there (`faulted`). The contexts change as the visits and then
        the flushes say, no context loses bytes still to go out, and a
        context neither selected, reported ready nor queued for a flush is
        not touched. */
    method Cycle(ready: seq<Selection>, fuel: nat) returns (faulted: bool, ghost visited: seq<Visit>, ghost written: seq<Step>)
      requires Valid() && forall i :: 0 <= i < |ready| ==> ready[i].key in contexts
      modifies this`selectedKeys, this`writableContexts, this`visits, this`flushed, pool, Footprint()
      ensures Valid()
      ensures KeysVisited(ready, faulted, visited, fuel)
      ensures !faulted ==> writableContexts == [] && flushed == old(flushed) + written
                           && Flushes(written, old(writableContexts), selectorOpen, fuel)
      ensures faulted ==> writableContexts == old(writableContexts) && flushed == old(flushed) && written == []
      ensures Ran(Steps(visited) + written)
      ensures Preserved(Keys(old(selectedKeys)) + Keys(ready) + old(writableContexts))
    {
      ghost var init, sel0, v0, w0, f0 := OwnMap(), selectedKeys, visits, writableContexts, flushed;
      NotInFootprint();
      faulted, visited := HandleReady(ready, fuel);
      written := [];
      if faulted {
        AppendEmpty(Steps(visited));
        CycleTouches(sel0, ready, w0);
        PreservedWiden(init, Keys(AddSelected(sel0, ready)), Keys(sel0) + Keys(ready) + w0);
      } else {
        written := FlushPhase(fuel, ready, visited, init, sel0, v0);
      }
    }

    /** The flush part of a poll cycle that no `consume` ended: the pending
        flushes are written as `FlushWritableContexts` says, and the run of
        the key part, `Steps(visited)` from the states `init`, goes on with
        them. */
    method FlushPhase(fuel: nat, ghost ready: seq<Selection>, ghost visited: seq<Visit>, ghost init: map<Context, Own>,
                      ghost sel0: seq<Selection>, ghost v0: seq<Visit>)
      returns (ghost written: seq<Step>)
      requires Valid()
      requires KeysDone(ready, sel0, selectedKeys, v0, visits, init, selectorOpen, false, visited, fuel)
      requires RunAt(Steps(visited), init)
      requires PreservedFrom(init, Keys(AddSelected(sel0, ready)))
      modifies this`writableContexts, this`flushed, pool, Footprint()
      ensures Valid() && writableContexts == [] && flushed == old(flushed) + written
      ensures Flushes(written, old(writableContexts), selectorOpen, fuel)
      ensures KeysDone(ready, sel0, selectedKeys, v0, visits, init, selectorOpen, false, visited, fuel)
      ensures RunAt(Steps(visited) + written, init)
      ensures PreservedFrom(init, Keys(sel0) + Keys(ready) + old(writableContexts))
    {
      ghost var mid, t1, w0 := OwnMap(), Keys(AddSelected(sel0, ready)), writableContexts;
      RunMap(Steps(visited), init);
      PreservedKept(init, t1);
      NotInFootprint();
      written := FlushWritableContexts(fuel);
      RunAppend(Steps(visited), written, init, mid);
      PreservedKept(mid, w0);
      AddSelectedKeysFrom(sel0, ready);
      KeptCompose(init, mid, OwnMap(), t1, w0, Keys(sel0) + Keys(ready) + w0);
      PreservedKept(init, Keys(sel0) + Keys(ready) + w0);
    }

    /** The states a run left, as a map. */
    lemma RunMap(log: seq<Step>, init: map<Context, Own>)
      requires RunAt(log, init)
      ensures Chained(log, init)
      ensures forall c :: c in OwnMap() ==> c in init && OwnMap()[c] == OwnAfter(log, c, init[c])
    {
      StatesAfterAll(contexts, log, init);
    }

    /** A run from the states `mid` that a run `a` left extends `a`. */
    lemma RunAppend(a: seq<Step>, b: seq<Step>, init: map<Context, Own>, mid: map<Context, Own>)
      requires Chained(a, init) && RunAt(b, mid)
      requires forall c :: c in mid ==> c in init && mid[c] == OwnAfter(a, c, init[c])
      ensures RunAt(a + b, init)
    {
      ChainedAppend(a, b, init, mid);
      StatesAfterAll(contexts, b, mid);
      forall c | c in contexts
        ensures c in init && OwnOf(c) == OwnAfter(a + b, c, init[c])
      {
        OwnAfterAppend(a, b, c, init[c]);
      }
      StatesAfterAll(contexts, a + b, init);
    }
  }
}
