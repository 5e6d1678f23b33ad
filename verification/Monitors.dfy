/** All monitors, the store and everyone else who writes to it: safety of placement changes over whole runs. */
module Monitors {
  import opened Basics
  import opened PgHistory
  import opened MonCommit

  /** A request on its way to the store, and what it was made for. */
  datatype Sent = Sent(req: Request, pools: set<nat>, results: map<nat, seq<OsdSet>>)

  datatype System = System(log: Log, mons: map<nat, Mon>, sent: set<Sent>)

  function Now(log: Log): Kv
    requires log != []
  {
    log[|log| - 1].kv
  }

  // ----- what a request keeps

  /** For stripe `q`, the history of its new group knows all that of its old one does, and the OSD set
      that it moves away from. */
  ghost predicate Recorded(hist: map<Key, History>, req: Request, p: nat, prev: seq<OsdSet>, next: seq<OsdSet>, q: nat)
    requires prev != [] && next != []
  {
    var k, k' := Key(p, q % |prev|), Key(p, q % |next|);
    && (k in hist ==> k' in req.puts && Over(req.puts[k'], hist[k]))
    && forall osd :: osd in prev[k.pg] && osd != 0 && prev[k.pg] != next[k'.pg] ==>
         k' in req.puts && prev[k.pg] in req.puts[k'].sets
  }

  ghost predicate PoolExtends(kv: Kv, x: Sent, p: nat) {
    var prev := PrevOf(ConfigOf(kv), p);
    if p in x.results then
      && p !in x.req.pools
      && (forall i: nat :: i < |prev| ==> Key(p, i) in x.req.checks)
      && (prev != [] && x.results[p] != [] ==> forall q: nat :: Recorded(kv.hist, x.req, p, prev, x.results[p], q))
    else p in x.pools ==> Silent(x.req, p) && p !in x.req.pools
  }

  /** The request changes just the pools it is for, from what these contents have. */
  ghost predicate Extends(kv: Kv, x: Sent) {
    && x.req.config.items == NextItems(ConfigOf(kv).items, x.pools, x.results)
    && forall p: nat :: PoolExtends(kv, x, p)
  }

  /** The new history of a group when the number of groups stays. */
  lemma KeptCount(hist: map<Key, History>, p: nat, prev: seq<OsdSet>, next: seq<OsdSet>, i: nat)
    requires |prev| == |next| && i < |prev|
    ensures var h := NewHistory(hist, p, prev, next, i);
            && (Key(p, i) in hist ==> h.Some? && Over(h.value, hist[Key(p, i)]))
            && forall osd :: osd in prev[i] && osd != 0 && prev[i] != next[i] ==> h.Some? && prev[i] in h.value.sets
  {
    hide Scaled;
  }

  /** Only a set with some OSD that is replaced is added, and nothing else changes; a set of zeroes is not added. The
      groups of a pool that had none before start without a history. */
  lemma OnlyMoved(hist: map<Key, History>, p: nat, prev: seq<OsdSet>, next: seq<OsdSet>, i: nat)
    requires (|prev| == |next| || prev == []) && i < |next|
    ensures prev == [] ==> NewHistory(hist, p, prev, next, i).None?
    ensures prev != [] ==>
            var h := NewHistory(hist, p, prev, next, i);
            var had := if Key(p, i) in hist then Some(hist[Key(p, i)]) else None;
            && (prev[i] == next[i] || (forall osd :: osd in prev[i] ==> osd == 0) ==> h == had)
            && (forall osd :: osd in prev[i] && osd != 0 && prev[i] != next[i] ==>
                  var g := if had.Some? then had.value else NO_HISTORY;
                  h == Some(g.(sets := g.sets + {prev[i]})))
  {
    hide Scaled;
    if prev != [] && Some1(prev[i]) {
      var j :| 0 <= j < |prev[i]| && prev[i][j] != 0;
      assert prev[i][j] in prev[i];
    }
  }

  /** And when it changes. */
  lemma NewCount(hist: map<Key, History>, p: nat, prev: seq<OsdSet>, next: seq<OsdSet>, q: nat)
    requires prev != [] && next != [] && |prev| != |next|
    ensures var h, k := NewHistory(hist, p, prev, next, q % |next|), Key(p, q % |prev|);
            h.Some? && prev[k.pg] in h.value.sets && (k in hist ==> Over(h.value, hist[k]))
  {
    var known := Known(hist, p, |prev|);
    ForgetsNothing(known, prev, |next|, q);
    var c := Carried(hist, p, prev, next, q % |next|);
    assert c == Some(Scaled(known, prev, |next|, q % |next|));
    hide Scaled;
  }

  lemma BuiltRecords(log: Log, m: Mon, req: Request, p: nat, prev: seq<OsdSet>, next: seq<OsdSet>, q: nat)
    requires Fresh(log, m) && PoolSaved(req, m.hist, p, prev, next) && prev != [] && next != []
    ensures Recorded(log[m.watch - 1].kv.hist, req, p, prev, next, q)
  {
    var k, i := Key(p, q % |prev|), q % |next|;
    assert KeySaved(req, Key(p, i), NewHistory(m.hist, p, prev, next, i));
    assert HistFresh(log, m.watch - 1, m.hist, k);
    hide NewHistory, Had;
    if |prev| == |next| { KeptCount(m.hist, p, prev, next, i); } else { NewCount(m.hist, p, prev, next, q); }
  }

  /** A request built from a fresh cache extends the contents that the cache is of. */
  lemma BuiltExtends(log: Log, m: Mon, pools: set<nat>, results: map<nat, seq<OsdSet>>, req: Request, m': Mon)
    requires Fresh(log, m) && Built(m, pools, results, req, m')
    ensures Extends(log[m.watch - 1].kv, Sent(req, pools, results))
  {
    var kv, x := log[m.watch - 1].kv, Sent(req, pools, results);
    hide NewHistory, NextItems, AllFresh;
    forall p: nat ensures PoolExtends(kv, x, p) {
      assert Handled(m, pools, results, req, p);
      if p in results {
        var prev := PrevOf(m.config, p);
        forall i: nat | i < |prev| ensures Key(p, i) in req.checks {
          assert KeySaved(req, Key(p, i), NewHistory(m.hist, p, prev, results[p], i));
        }
        if prev != [] && results[p] != [] {
          forall q: nat ensures Recorded(kv.hist, req, p, prev, results[p], q) {
            BuiltRecords(log, m, req, p, prev, results[p], q);
          }
        }
      }
    }
  }

  /** Building a request only adds sets to the cache that their groups have. */
  lemma BuiltFresh(log: Log, m: Mon, pools: set<nat>, results: map<nat, seq<OsdSet>>, req: Request, m': Mon)
    requires Fresh(log, m) && Built(m, pools, results, req, m')
    ensures Fresh(log, m')
  {
    var r := m.watch - 1;
    hide Handled, NextItems;
    forall k ensures HistFresh(log, r, m'.hist, k) {
      assert HistFresh(log, r, m.hist, k) && Gained(m, m'.hist, k);
      if k in m'.hist && m'.hist[k] != m.hist[k] {
        var s := PrevOf(m.config, k.pool)[k.pg];
        assert HasSet(log[r].kv, k, s);
        assert Had(log, r, k, s);
      }
    }
  }

  // ----- a successful transaction

  /** The configuration is there, or was not there for the monitor either. */
  ghost predicate StillThere(log: Log, req: Request)
    requires log != []
  {
    0 < req.watch <= |log| && (Now(log).config.Some? || log[req.watch - 1].kv.config.None?)
  }

  lemma {:induction false} ConfigBefore(log: Log, r: nat, watch: nat)
    requires r < |log| && watch > 0
    ensures LastConfig(log, r) < watch <==> forall t :: watch <= t <= r ==> !log[t].config
  {
    if r > 0 && !log[r].config { ConfigBefore(log, r - 1, watch); }
  }

  /** Nobody has written the history between the two revisions. */
  predicate Unwritten(log: Log, watch: nat, end: nat, k: Key) {
    forall t :: watch <= t < end && t < |log| ==> k !in log[t].touched
  }

  lemma {:induction false} TouchBefore(log: Log, r: nat, k: Key, watch: nat)
    requires r < |log| && watch > 0
    ensures LastTouch(log, r, k) < watch <==> Unwritten(log, watch, r + 1, k)
  {
    if r > 0 && k !in log[r].touched { TouchBefore(log, r - 1, k, watch); }
  }

  /** A transaction succeeds if and only if the monitor is still the master and, since the revision that it has watched
      up to, nobody has written the configuration or any of the histories that it checks; a key that does not exist
      at the end counts as not written. */
  lemma SucceedsIff(log: Log, req: Request)
    requires log != [] && req.watch > 0
    ensures Succeeds(log, req) <==>
            && Now(log).master == req.lease
            && (Now(log).config.None? || forall t :: req.watch <= t < |log| ==> !log[t].config)
            && forall k :: k in req.checks && k in Now(log).hist ==> Unwritten(log, req.watch, |log|, k)
  {
    ConfigBefore(log, |log| - 1, req.watch);
    hide Unwritten;
    forall k ensures LastTouch(log, |log| - 1, k) < req.watch <==> Unwritten(log, req.watch, |log|, k) {
      TouchBefore(log, |log| - 1, k, req.watch);
    }
  }

  lemma ChecksHold(log: Log, req: Request, k: Key)
    requires Chained(log) && Succeeds(log, req) && 0 < req.watch <= |log| && k in req.checks && k in Now(log).hist
    ensures SameAt(log[req.watch - 1].kv.hist, Now(log).hist, k)
  {
    assert ModHist(log, k) < req.watch;
    HistSince(log, req.watch - 1, |log| - 1, k);
  }

  /** A transaction that succeeds replaces the configuration it was computed from, exactly when the
      configuration is still there: comparisons see a deleted key as one that was never written. */
  lemma ReplacesItsBasisIff(log: Log, req: Request)
    requires Chained(log) && Succeeds(log, req) && 0 < req.watch <= |log|
    ensures Now(log).config == log[req.watch - 1].kv.config <==> StillThere(log, req)
  {
    if Now(log).config.Some? { ConfigSince(log, req.watch - 1, |log| - 1); }
  }

  lemma RecordedSame(a: map<Key, History>, b: map<Key, History>, req: Request, p: nat, prev: seq<OsdSet>,
          next: seq<OsdSet>, q: nat)
    requires prev != [] && next != [] && Recorded(a, req, p, prev, next, q)
    requires var k := Key(p, q % |prev|); k in b ==> SameAt(a, b, k)
    ensures Recorded(b, req, p, prev, next, q)
  {
  }

  /** What the request was computed from is what it replaces. */
  lemma CommitExtends(log: Log, x: Sent)
    requires Chained(log) && 0 < x.req.watch <= |log| && Succeeds(log, x.req) && StillThere(log, x.req)
    requires Extends(log[x.req.watch - 1].kv, x)
    ensures Extends(Now(log), x)
  {
    var kv, was := Now(log), log[x.req.watch - 1].kv;
    ReplacesItsBasisIff(log, x.req);
    hide NextItems, Chained, Succeeds;
    forall p: nat ensures PoolExtends(kv, x, p) {
      assert PoolExtends(was, x, p);
      var prev := PrevOf(ConfigOf(kv), p);
      if p in x.results && prev != [] && x.results[p] != [] {
        forall q: nat ensures Recorded(kv.hist, x.req, p, prev, x.results[p], q) {
          assert Recorded(was.hist, x.req, p, prev, x.results[p], q);
          var k := Key(p, q % |prev|);
          if k in kv.hist { ChecksHold(log, x.req, k); }
          RecordedSame(was.hist, kv.hist, x.req, p, prev, x.results[p], q);
        }
      }
    }
  }

  /** No group of a pool that stays loses anything: for every stripe, the history of its group after
      the change includes the history of its group before it, and the OSD set of its group before it, if
      that had any OSD and is replaced. */
  ghost predicate NothingLost(before: Kv, after: Kv, p: nat) {
    var prev, next := PrevOf(ConfigOf(before), p), PrevOf(ConfigOf(after), p);
    prev != [] && next != [] ==> forall q: nat :: StripeKept(before.hist, after.hist, p, prev, next, q)
  }

  ghost predicate StripeKept(hist: map<Key, History>, hist': map<Key, History>, p: nat, prev: seq<OsdSet>,
          next: seq<OsdSet>, q: nat)
    requires prev != [] && next != []
  {
    var k, k' := Key(p, q % |prev|), Key(p, q % |next|);
    && (k in hist ==> k' in hist' && Over(hist'[k'], hist[k]))
    && forall osd :: osd in prev[k.pg] && osd != 0 && prev[k.pg] != next[k'.pg] ==>
         k' in hist' && prev[k.pg] in hist'[k'].sets
  }

  /** A pool with a new distribution has that, or is gone if it is empty. Another pool that still exists stays as it is,
      and one that does not is gone. */
  ghost predicate JustItsPools(before: Kv, after: Kv, x: Sent, p: nat) {
    var was, now := ConfigOf(before).items, ConfigOf(after).items;
    if p in x.results then
      if x.results[p] == [] then p !in now else p in now && now[p] == x.results[p]
    else if p in x.pools then (p in now <==> p in was) && (p in now && p in was ==> now[p] == was[p])
    else p !in now
  }

  lemma ExtendsLosesNothing(kv: Kv, x: Sent, p: nat)
    requires Extends(kv, x) && (p in x.results ==> p in x.pools)
    ensures NothingLost(kv, Applied(kv, x.req), p)
  {
    var prev, kv' := PrevOf(ConfigOf(kv), p), Applied(kv, x.req);
    var next := PrevOf(ConfigOf(kv'), p);
    assert PoolExtends(kv, x, p);
    if prev != [] && next != [] {
      forall q: nat ensures StripeKept(kv.hist, kv'.hist, p, prev, next, q) {
        if p in x.results {
          assert next == x.results[p] && Recorded(kv.hist, x.req, p, prev, next, q);
        } else {
          assert next == prev && p in x.pools;
          Untouched(kv, x.req, p, Key(p, q % |prev|));
        }
      }
    }
  }

  lemma Untouched(kv: Kv, req: Request, p: nat, k: Key)
    requires Silent(req, p) && p !in req.pools && k.pool == p
    ensures SameAt(kv.hist, Applied(kv, req).hist, k)
  {
  }

  // ----- runs

  datatype Step = Load(mon: nat) | Watch(mon: nat, rev: nat, events: seq<Event>)
                | Build(mon: nat, pools: set<nat>, results: map<nat, seq<OsdSet>>, req: Request, after: Mon)
                | Commit(sent: Sent) | Fail(sent: Sent) | Other(written: Rev)

  function Touched(kv: Kv, req: Request): set<Key> {
    (set k | k in kv.hist && (k.pool in req.pools || k in req.dels)) + req.puts.Keys
  }

  /** A monitor loads everything, gets a watch message or builds a request from its cache; a request
      succeeds or not; anyone else writes anything to the store. */
  ghost predicate Next(s: System, step: Step, s': System) {
    s.log != [] &&
    match step
    case Load(i) => s' == s.(mons := s.mons[i := Mon(|s.log|, ConfigOf(Now(s.log)), Now(s.log).hist)])
    case Watch(i, rev, events) =>
      && i in s.mons && s.mons[i].watch <= rev + 1 <= |s.log| && Message(s.log, s.mons[i].watch, rev + 1, events)
      && s' == s.(mons := s.mons[i := Play(s.mons[i], events).(watch := rev + 1)])
    case Build(i, pools, results, req, after) =>
      && i in s.mons && results.Keys <= pools && Built(s.mons[i], pools, results, req, after)
      && s' == s.(mons := s.mons[i := after], sent := s.sent + {Sent(req, pools, results)})
    case Commit(x) =>
      && x in s.sent && Succeeds(s.log, x.req)
      && s' == s.(log := s.log + [Rev(Applied(Now(s.log), x.req), true, Touched(Now(s.log), x.req))],
                  sent := s.sent - {x})
    case Fail(x) => x in s.sent && s' == s.(sent := s.sent - {x})
    case Other(rev) => Follows(Now(s.log), rev) && s' == s.(log := s.log + [rev])
  }

  ghost predicate Based(log: Log, x: Sent) {
    0 < x.req.watch <= |log| && x.results.Keys <= x.pools && Extends(log[x.req.watch - 1].kv, x)
  }

  ghost predicate Inv(s: System) {
    && Chained(s.log) && (forall i :: i in s.mons ==> Fresh(s.log, s.mons[i])) && forall x :: x in s.sent ==>
      Based(s.log, x)
  }

  lemma FreshLonger(log: Log, rev: Rev, m: Mon)
    requires Fresh(log, m)
    ensures Fresh(log + [rev], m)
  {
    var log', r := log + [rev], m.watch - 1;
    hide HasSet;
    forall k ensures HistFresh(log', r, m.hist, k) {
      assert HistFresh(log, r, m.hist, k);
      if k in m.hist {
        forall s | s in m.hist[k].sets && s !in log[r].kv.hist[k].sets ensures Had(log', r, k, s) {
          var t :| 0 <= t <= r && t < |log| && HasSet(log[t].kv, k, s);
          assert HasSet(log'[t].kv, k, s);
        }
      }
    }
  }

  lemma LongerInv(s: System, rev: Rev)
    requires Inv(s) && Follows(Now(s.log), rev)
    ensures Inv(s.(log := s.log + [rev]))
  {
    var log' := s.log + [rev];
    assert Chained(log') by {
      hide Follows;
      forall r | 0 < r < |log'| ensures Follows(log'[r - 1].kv, log'[r]) {
        if r < |s.log| { assert Follows(s.log[r - 1].kv, s.log[r]); }
      }
    }
    hide Chained, Fresh, Extends;
    forall i | i in s.mons ensures Fresh(log', s.mons[i]) { FreshLonger(s.log, rev, s.mons[i]); }
    forall x | x in s.sent ensures Based(log', x) { assert Based(s.log, x); }
  }

  lemma AppliedFollows(kv: Kv, req: Request)
    ensures Follows(kv, Rev(Applied(kv, req), true, Touched(kv, req)))
  {
  }

  lemma LoadFresh(log: Log)
    requires log != []
    ensures Fresh(log, Mon(|log|, ConfigOf(Now(log)), Now(log).hist))
  {
    hide Had;
  }

  lemma BuildInv(s: System, step: Step, s': System)
    requires Inv(s) && step.Build? && Next(s, step, s')
    ensures Inv(s')
  {
    var m := s.mons[step.mon];
    hide Built, Fresh, Chained, Extends;
    BuiltFresh(s.log, m, step.pools, step.results, step.req, step.after);
    BuiltExtends(s.log, m, step.pools, step.results, step.req, step.after);
    WatchOf(s.log, m, step.pools, step.results, step.req, step.after);
  }

  lemma WatchOf(log: Log, m: Mon, pools: set<nat>, results: map<nat, seq<OsdSet>>, req: Request, m': Mon)
    requires Fresh(log, m) && Built(m, pools, results, req, m')
    ensures req.watch == m.watch && 0 < m.watch <= |log|
  {
    hide Handled, NextItems;
  }

  /** Every step keeps the caches fresh and every request based on the contents its monitor knew. */
  lemma StepKeepsInv(s: System, step: Step, s': System)
    requires Inv(s) && Next(s, step, s')
    ensures Inv(s')
  {
    hide Built, Fresh, Chained, Extends, Message, Play, Succeeds, Applied, Touched;
    match step {
      case Load(i) => LoadFresh(s.log);
      case Watch(i, rev, events) => MessageRefreshes(s.log, s.mons[i], rev + 1, events);
      case Build(_, _, _, _, _) => BuildInv(s, step, s');
      case Commit(x) =>
        var rev := Rev(Applied(Now(s.log), x.req), true, Touched(Now(s.log), x.req));
        AppliedFollows(Now(s.log), x.req);
        LongerInv(s, rev);
      case Fail(x) =>
      case Other(rev) => LongerInv(s, rev);
    }
  }

  /** A run from a state where nothing has been loaded or sent. */
  ghost predicate Run(states: seq<System>, steps: seq<Step>) {
    && |states| == |steps| + 1 && Chained(states[0].log) && states[0].mons == map[] && states[0].sent == {}
    && forall n :: 0 <= n < |steps| ==> Next(states[n], steps[n], states[n + 1])
  }

  lemma {:induction false} RunKeepsInv(states: seq<System>, steps: seq<Step>, n: nat)
    requires Run(states, steps) && n < |states|
    ensures Inv(states[n])
  {
    if n > 0 {
      RunKeepsInv(states, steps, n - 1);
      hide Inv;
      assert Next(states[n - 1], steps[n - 1], states[n]);
      StepKeepsInv(states[n - 1], steps[n - 1], states[n]);
    }
  }

  /** In every run each transaction that succeeds, with the configuration still there, changes just its
      pools in the configuration it replaces, and no group of any pool loses anything. */
  lemma NoLostUpdates(states: seq<System>, steps: seq<Step>, n: nat)
    requires Run(states, steps) && n < |steps| && steps[n].Commit?
    requires states[n].log != [] && StillThere(states[n].log, steps[n].sent.req)
    ensures var before, after, x := Now(states[n].log), Now(states[n + 1].log), steps[n].sent;
            && before.master == x.req.lease
            && (forall p: nat :: JustItsPools(before, after, x, p)) && forall p: nat :: NothingLost(before, after, p)
  {
    RunKeepsInv(states, steps, n);
    var s, x := states[n], steps[n].sent;
    assert Next(s, steps[n], states[n + 1]) && Based(s.log, x);
    CommitExtends(s.log, x);
    hide NextItems, NothingLost, Run, Chained, Applied;
    var before, after := Now(s.log), Now(states[n + 1].log);
    forall p: nat ensures NothingLost(before, after, p) { ExtendsLosesNothing(before, x, p); }
    AppliedConfig(Now(s.log), x.req);
    forall p: nat ensures JustItsPools(before, after, x, p) { ItemsOf(before, after, x, p); }
  }

  lemma ItemsOf(before: Kv, after: Kv, x: Sent, p: nat)
    requires ConfigOf(after).items == NextItems(ConfigOf(before).items, x.pools, x.results)
    ensures JustItsPools(before, after, x, p)
  {
  }

  /** In particular, whatever OSD had data of a stripe before the change is in a set that its group knows after it:
      either it is in the new set's place unchanged, or the old set is in the history. */
  lemma OsdStaysKnown(states: seq<System>, steps: seq<Step>, n: nat, p: nat, q: nat, osd: nat)
    requires Run(states, steps) && n < |steps| && steps[n].Commit?
    requires states[n].log != [] && StillThere(states[n].log, steps[n].sent.req)
    requires var before, after := ConfigOf(Now(states[n].log)), ConfigOf(Now(states[n + 1].log));
             && p in before.items && before.items[p] != [] && p in after.items && after.items[p] != []
             && osd != 0 && osd in before.items[p][q % |before.items[p]|]
    ensures var before, after := Now(states[n].log), Now(states[n + 1].log);
            var prev, next := ConfigOf(before).items[p], ConfigOf(after).items[p];
            var k := Key(p, q % |next|);
            || next[q % |next|] == prev[q % |prev|]
            || (k in after.hist && prev[q % |prev|] in after.hist[k].sets)
  {
    hide NothingLost;
    NoLostUpdates(states, steps, n);
    var before, after := Now(states[n].log), Now(states[n + 1].log);
    assert NothingLost(before, after, p);
    StripeKnown(before, after, p, q, osd);
  }

  lemma StripeKnown(before: Kv, after: Kv, p: nat, q: nat, osd: nat)
    requires NothingLost(before, after, p)
    requires var prev, next := PrevOf(ConfigOf(before), p), PrevOf(ConfigOf(after), p);
             prev != [] && next != [] && osd != 0 && osd in prev[q % |prev|]
    ensures var prev, next := PrevOf(ConfigOf(before), p), PrevOf(ConfigOf(after), p);
            var k := Key(p, q % |next|);
            || next[q % |next|] == prev[q % |prev|]
            || (k in after.hist && prev[q % |prev|] in after.hist[k].sets)
  {
    var prev, next := PrevOf(ConfigOf(before), p), PrevOf(ConfigOf(after), p);
    assert StripeKept(before.hist, after.hist, p, prev, next, q);
  }

  lemma AppliedConfig(kv: Kv, req: Request)
    ensures ConfigOf(Applied(kv, req)) == req.config
  {
  }

  /** A configuration that is deleted after the monitor has seen it is written again as if it were there. */
  lemma DeletedConfigComesBack(c: Config, kv: Kv, lease: nat)
    requires kv.config == Some(c) && kv.master == lease
    ensures var gone := kv.(config := None);
            var log, req := [Rev(kv, false, {}), Rev(gone, true, {})], Request(1, lease, c, {}, map[], {}, {});
            Chained(log) && Succeeds(log, req) && !StillThere(log, req) && Applied(Now(log), req).config == Some(c)
  {
  }
}
