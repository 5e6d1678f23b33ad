/** Monitors change the placement of groups with optimistic transactions in a store that numbers its
    revisions: what a transaction is computed from is what it replaces. */
module MonCommit {
  import opened Basics
  import opened PgHistory

  // ----- the store

  /** The OSD sets of each pool; all the rest of the configuration is `rest`. */
  datatype Config = Config(items: map<nat, seq<OsdSet>>, rest: nat)

  const EMPTY: Config := Config(map[], 0)

  /** Pool and number of a placement group. */
  datatype Key = Key(pool: nat, pg: nat)

  /** `/pg/config`, `/pg/history/` and the lease of `/mon/master`. */
  datatype Kv = Kv(config: Option<Config>, hist: map<Key, History>, master: nat)

  /** The contents after a revision, and what it has written or deleted. */
  datatype Rev = Rev(kv: Kv, config: bool, touched: set<Key>)

  type Log = seq<Rev>

  ghost predicate SameAt(a: map<Key, History>, b: map<Key, History>, k: Key) {
    (k in a <==> k in b) && (k in a && k in b ==> a[k] == b[k])
  }

  /** What a revision has not touched is as before. */
  ghost predicate Follows(before: Kv, after: Rev) {
    && (!after.config ==> after.kv.config == before.config)
    && forall k :: k !in after.touched ==> SameAt(before.hist, after.kv.hist, k)
  }

  ghost predicate Chained(log: Log) {
    log != [] && forall r :: 0 < r < |log| ==> Follows(log[r - 1].kv, log[r])
  }

  function LastConfig(log: Log, r: nat): (s: nat)
    requires r < |log|
    ensures s <= r
  {
    if r == 0 || log[r].config then r else LastConfig(log, r - 1)
  }

  function LastTouch(log: Log, r: nat, k: Key): (s: nat)
    requires r < |log|
    ensures s <= r
  {
    if r == 0 || k in log[r].touched then r else LastTouch(log, r - 1, k)
  }

  /** The modification revision that a comparison sees: zero for a key that is not there. */
  function ModConfig(log: Log): nat
    requires log != []
  {
    if log[|log| - 1].kv.config.None? then 0 else LastConfig(log, |log| - 1)
  }

  function ModHist(log: Log, k: Key): nat
    requires log != []
  {
    if k !in log[|log| - 1].kv.hist then 0 else LastTouch(log, |log| - 1, k)
  }

  lemma {:induction false} ConfigSince(log: Log, s: nat, r: nat)
    requires Chained(log) && s <= r < |log| && LastConfig(log, r) <= s
    ensures log[s].kv.config == log[r].kv.config
  {
    if s < r { ConfigSince(log, s, r - 1); }
  }

  lemma {:induction false} HistSince(log: Log, s: nat, r: nat, k: Key)
    requires Chained(log) && s <= r < |log| && LastTouch(log, r, k) <= s
    ensures SameAt(log[s].kv.hist, log[r].kv.hist, k)
  {
    if s < r { HistSince(log, s, r - 1, k); }
  }

  // ----- what a monitor has

  /** The cached state up to revision `watch - 1`. */
  datatype Mon = Mon(watch: nat, config: Config, hist: map<Key, History>)

  datatype Event = ConfigPut(config: Config) | ConfigDeleted | HistPut(key: Key, hist: History) | HistDeleted(key: Key)

  /** `parse_kv` for one event; a deleted configuration is an empty one. */
  function Parse(m: Mon, e: Event): Mon {
    match e
    case ConfigPut(c) => m.(config := c)
    case ConfigDeleted => m.(config := EMPTY)
    case HistPut(k, h) => m.(hist := m.hist[k := h])
    case HistDeleted(k) => m.(hist := m.hist - {k})
  }

  function Play(m: Mon, events: seq<Event>): Mon {
    if events == [] then m else Parse(Play(m, events[..|events| - 1]), events[|events| - 1])
  }

  function ConfigOf(kv: Kv): Config { if kv.config.Some? then kv.config.value else EMPTY }

  /** An event tells a key as it is in the contents. */
  ghost predicate Tells(e: Event, kv: Kv) {
    match e
    case ConfigPut(c) => kv.config == Some(c)
    case ConfigDeleted => kv.config.None?
    case HistPut(k, h) => k in kv.hist && kv.hist[k] == h
    case HistDeleted(k) => k !in kv.hist
  }

  ghost predicate About(e: Event, k: Key) { (e.HistPut? || e.HistDeleted?) && e.key == k }

  ghost predicate AboutConfig(e: Event) { e.ConfigPut? || e.ConfigDeleted? }

  /** The events of one revision. */
  ghost predicate EventsOf(events: seq<Event>, rev: Rev) {
    && (forall i :: 0 <= i < |events| ==> Tells(events[i], rev.kv))
    && (rev.config ==> exists i :: 0 <= i < |events| && AboutConfig(events[i]))
    && (forall k :: k in rev.touched ==> exists i :: 0 <= i < |events| && About(events[i], k))
    && (forall i :: 0 <= i < |events| && AboutConfig(events[i]) ==> rev.config)
    && forall i, k :: 0 <= i < |events| && About(events[i], k) ==> k in rev.touched
  }

  /** A watch message up to revision `end`: the events of each revision from `from` on, in order. */
  ghost predicate Message(log: Log, from: nat, end: nat, events: seq<Event>)
    requires end <= |log|
    decreases end
  {
    if from >= end then from == end && events == []
    else
      exists n :: 0 <= n <= |events| && Message(log, from, end - 1, events[..n]) && EventsOf(events[n..], log[end - 1])
  }

  // ----- a cache that is up to date

  /** One history knows at least what another does. */
  predicate Over(h: History, g: History) { g.sets <= h.sets && g.peers <= h.peers && g.epoch <= h.epoch }

  /** Group `k` had this OSD set in the configuration of some revision up to `r`. */
  ghost predicate Had(log: Log, r: nat, k: Key, s: OsdSet) {
    exists t :: 0 <= t <= r && t < |log| && HasSet(log[t].kv, k, s)
  }

  ghost predicate HasSet(kv: Kv, k: Key, s: OsdSet) {
    var items := ConfigOf(kv).items;
    k.pool in items && k.pg < |items[k.pool]| && items[k.pool][k.pg] == s
  }

  /** The cached history of a group is the stored one, and maybe some of the OSD sets that it has had. */
  ghost predicate Near(log: Log, r: nat, k: Key, h: History, g: History) {
    && Over(h, g) && h.peers == g.peers && h.epoch == g.epoch
    && forall s :: s in h.sets && s !in g.sets ==> Had(log, r, k, s)
  }

  ghost predicate HistFresh(log: Log, r: nat, hist: map<Key, History>, k: Key)
    requires r < |log|
  {
    && (k in hist <==> k in log[r].kv.hist)
    && (k in hist && k in log[r].kv.hist ==> Near(log, r, k, hist[k], log[r].kv.hist[k]))
  }

  ghost predicate Fresh(log: Log, m: Mon) {
    0 < m.watch <= |log| && m.config == ConfigOf(log[m.watch - 1].kv) && AllFresh(log, m.watch - 1, m.hist)
  }

  ghost predicate AllFresh(log: Log, r: nat, hist: map<Key, History>)
    requires r < |log|
  {
    forall k :: HistFresh(log, r, hist, k)
  }

  lemma LoadedFresh(log: Log, r: nat)
    requires r < |log|
    ensures Fresh(log, Mon(r + 1, ConfigOf(log[r].kv), log[r].kv.hist))
  {
  }

  /** One revision later: what was touched is replaced, the rest stays as near as it was. */
  lemma NearLater(log: Log, r: nat, hist: map<Key, History>, k: Key)
    requires Chained(log) && r + 1 < |log| && HistFresh(log, r, hist, k) && k !in log[r + 1].touched
    ensures HistFresh(log, r + 1, hist, k)
  {
    assert Follows(log[r].kv, log[r + 1]) && SameAt(log[r].kv.hist, log[r + 1].kv.hist, k);
    hide HasSet, Chained, Over;
    if k in hist {
      forall s | s in hist[k].sets && s !in log[r + 1].kv.hist[k].sets ensures Had(log, r + 1, k, s) {
        var t :| 0 <= t <= r && t < |log| && HasSet(log[t].kv, k, s);
      }
    }
  }

  lemma {:induction false} PlayConfig(m: Mon, events: seq<Event>, kv: Kv)
    requires forall i :: 0 <= i < |events| ==> Tells(events[i], kv)
    ensures Play(m, events).config == if exists i :: 0 <= i < |events| && AboutConfig(events[i]) then ConfigOf(kv)
        else m.config
    ensures Play(m, events).watch == m.watch
  {
    if events != [] {
      var n := |events| - 1;
      var front := events[..n];
      PlayConfig(m, front, kv);
      assert Tells(events[n], kv);
      if i :| 0 <= i < n && AboutConfig(front[i]) { assert AboutConfig(events[i]); }
      if i :| 0 <= i < |events| && AboutConfig(events[i]) { if i < n { assert AboutConfig(front[i]); } }
    }
  }

  lemma {:induction false} PlayHist(m: Mon, events: seq<Event>, kv: Kv, k: Key)
    requires forall i :: 0 <= i < |events| ==> Tells(events[i], kv)
    ensures SameAt(Play(m, events).hist, if exists i :: 0 <= i < |events| && About(events[i], k) then kv.hist
        else m.hist, k)
  {
    if events != [] {
      var n := |events| - 1;
      var front := events[..n];
      PlayHist(m, front, kv, k);
      assert Tells(events[n], kv);
      if i :| 0 <= i < n && About(front[i], k) { assert About(events[i], k); }
      if i :| 0 <= i < |events| && About(events[i], k) { if i < n { assert About(front[i], k); } }
    }
  }

  lemma {:induction false} PlayConcat(m: Mon, a: seq<Event>, b: seq<Event>)
    ensures Play(m, a + b) == Play(Play(m, a), b)
  {
    if b == [] {
      assert a + b == a;
    } else {
      var n := |b| - 1;
      assert (a + b)[..|a| + n] == a + b[..n];
      PlayConcat(m, a, b[..n]);
    }
  }

  lemma OneRevision(log: Log, m: Mon, events: seq<Event>)
    requires Chained(log) && Fresh(log, m) && m.watch < |log| && EventsOf(events, log[m.watch])
    ensures Fresh(log, Play(m, events).(watch := m.watch + 1))
  {
    var r, rev := m.watch, log[m.watch];
    var m' := Play(m, events).(watch := r + 1);
    PlayConfig(m, events, rev.kv);
    assert Follows(log[r - 1].kv, log[r]);
    hide Chained, Near, Had, Tells, Play;
    forall k ensures HistFresh(log, r, m'.hist, k) {
      PlayHist(m, events, rev.kv, k);
      assert HistFresh(log, r - 1, m.hist, k);
      if k in rev.touched {
        NearSelf(log, r, k);
      } else {
        NearLater(log, r - 1, m.hist, k);
      }
    }
  }

  lemma NearSelf(log: Log, r: nat, k: Key)
    requires r < |log|
    ensures k in log[r].kv.hist ==> Near(log, r, k, log[r].kv.hist[k], log[r].kv.hist[k])
  {
  }

  /** A watch message brings the cache up to its revision, whatever failed transactions have left in it. */
  lemma {:induction false} MessageRefreshes(log: Log, m: Mon, end: nat, events: seq<Event>)
    requires Chained(log) && Fresh(log, m) && m.watch <= end <= |log| && Message(log, m.watch, end, events)
    ensures Fresh(log, Play(m, events).(watch := end))
    decreases end
  {
    hide Fresh, Chained, EventsOf;
    if m.watch == end {
      assert Play(m, events).(watch := end) == m;
    } else {
      var n :| 0 <= n <= |events| && Message(log, m.watch, end - 1, events[..n]) && EventsOf(events[n..], log[end - 1]);
      MessageRefreshes(log, m, end - 1, events[..n]);
      var m1 := Play(m, events[..n]).(watch := end - 1);
      OneRevision(log, m1, events[n..]);
      PlayConcat(m, events[..n], events[n..]);
      assert events == events[..n] + events[n..];
      PlayWatch(Play(m, events[..n]), events[n..], end - 1);
    }
  }

  /** A message for an up-to-date monitor. */
  ghost predicate Delivers(log: Log, m: Mon, end: nat, events: seq<Event>) {
    Chained(log) && Fresh(log, m) && m.watch <= end <= |log| && Message(log, m.watch, end, events)
  }

  lemma {:induction false} PlayWatch(m: Mon, events: seq<Event>, w: nat)
    ensures Play(m.(watch := w), events) == Play(m, events).(watch := w)
  {
    if events != [] { PlayWatch(m, events[..|events| - 1], w); }
  }

  // ----- a request

  /** `/pg/config` must not have changed from revision `watch` on, nor any history in `checks`, and the
      lease must be that of the master. */
  datatype Request = Request(watch: nat, lease: nat, config: Config, checks: set<Key>, puts: map<Key, History>,
                             dels: set<Key>, pools: set<nat>)

  predicate Succeeds(log: Log, req: Request)
    requires log != []
  {
    && log[|log| - 1].kv.master == req.lease && ModConfig(log) < req.watch
    && forall k :: k in req.checks ==> ModHist(log, k) < req.watch
  }

  /** The contents after the request: histories of deleted pools go, then the histories one by one. */
  function Applied(kv: Kv, req: Request): Kv {
    var kept := map k | k in kv.hist && k.pool !in req.pools && k !in req.dels :: kv.hist[k];
    Kv(Some(req.config), kept + req.puts, kv.master)
  }

  function PrevOf(config: Config, p: nat): seq<OsdSet> { if p in config.items then config.items[p] else [] }

  /** At least one OSD is in the set. */
  predicate Some1(s: OsdSet) { exists i :: 0 <= i < |s| && s[i] != 0 }

  /** The group moves away from a set that may have data. */
  predicate Moves(prev: seq<OsdSet>, next: seq<OsdSet>, i: nat) {
    i < |prev| && i < |next| && prev[i] != next[i] && Some1(prev[i])
  }

  predicate Rescaled(prev: seq<OsdSet>, next: seq<OsdSet>) { |prev| > 0 && |prev| != |next| }

  function Known(hist: map<Key, History>, p: nat, n: nat): (r: seq<Option<History>>)
    ensures |r| == n && forall i :: 0 <= i < n ==> r[i] == if Key(p, i) in hist then Some(hist[Key(p, i)]) else None
  {
    seq(n, i requires 0 <= i < n => if Key(p, i) in hist then Some(hist[Key(p, i)]) else None)
  }

  function Count(prev: seq<OsdSet>, next: seq<OsdSet>): nat { if |prev| < |next| then |next| else |prev| }

  /** The history of a group before the set it moves away from is added. */
  function Carried(hist: map<Key, History>, p: nat, prev: seq<OsdSet>, next: seq<OsdSet>, i: nat): Option<History> {
    if Rescaled(prev, next) then
      if i < |next| then Some(Scaled(Known(hist, p, |prev|), prev, |next|, i)) else None
    else if i < |prev| && Key(p, i) in hist then Some(hist[Key(p, i)])
    else None
  }

  function Pushed(h: Option<History>, s: OsdSet): History {
    var g := if h.Some? then h.value else NO_HISTORY;
    g.(sets := g.sets + {s})
  }

  function NewHistory(hist: map<Key, History>, p: nat, prev: seq<OsdSet>, next: seq<OsdSet>, i: nat): Option<History> {
    var h := Carried(hist, p, prev, next, i);
    if Moves(prev, next, i) then Some(Pushed(h, prev[i])) else h
  }

  /** The part of the request for one pool. */
  ghost predicate PoolSaved(req: Request, hist: map<Key, History>, p: nat, prev: seq<OsdSet>, next: seq<OsdSet>) {
    forall i: nat :: i < Count(prev, next) ==> KeySaved(req, Key(p, i), NewHistory(hist, p, prev, next, i))
  }

  ghost predicate KeySaved(req: Request, k: Key, h: Option<History>) {
    k in req.checks && if h.Some? then k in req.puts && req.puts[k] == h.value else k !in req.puts && k in req.dels
  }

  /** The request says the same about the keys of other pools. */
  ghost predicate OnlyPool(a: Request, b: Request, p: nat) {
    && a.watch == b.watch && a.lease == b.lease && a.config == b.config && a.pools == b.pools
    && (forall k :: k in a.checks + a.dels && k !in b.checks + b.dels ==> k.pool == p)
    && (forall k :: k in a.puts && k !in b.puts ==> k.pool == p)
    && forall k: Key :: k.pool != p ==>
      (k in a.checks <==> k in b.checks) && (k in a.dels <==> k in b.dels) && SameAt(a.puts, b.puts, k)
  }

  /** The cached histories of a pool after the sets are pushed to them in place. */
  ghost predicate Pushes(hist: map<Key, History>, hist': map<Key, History>, p: nat, prev: seq<OsdSet>,
          next: seq<OsdSet>, upto: nat) {
    && hist'.Keys == hist.Keys
    && forall k :: k in hist ==>
         hist'[k] == if k.pool == p && k.pg < upto && !Rescaled(prev, next) && Moves(prev, next, k.pg)
                     then Pushed(Some(hist[k]), prev[k.pg]) else hist[k]
  }

  /** The keys of a pool are the same in both. */
  ghost predicate SamePool(a: map<Key, History>, b: map<Key, History>, p: nat) {
    forall i: nat :: SameAt(a, b, Key(p, i))
  }

  lemma HistoryLocal(a: map<Key, History>, b: map<Key, History>, p: nat, prev: seq<OsdSet>, next: seq<OsdSet>, i: nat)
    requires SamePool(a, b, p)
    ensures NewHistory(a, p, prev, next, i) == NewHistory(b, p, prev, next, i)
  {
    forall j: nat ensures SameAt(a, b, Key(p, j)) {}
    assert Known(a, p, |prev|) == Known(b, p, |prev|);
    assert SameAt(a, b, Key(p, i));
  }

  /** Nothing about pool `p` is in the request. */
  ghost predicate Silent(req: Request, p: nat) {
    forall k: Key :: k.pool == p ==> k !in req.checks && k !in req.puts && k !in req.dels
  }

  lemma SavedKept(a: Request, b: Request, q: nat, hist: map<Key, History>, p: nat, prev: seq<OsdSet>, next: seq<OsdSet>)
    requires OnlyPool(a, b, q) && PoolSaved(b, hist, p, prev, next) && p != q
    ensures PoolSaved(a, hist, p, prev, next)
  {
    hide NewHistory;
    forall i: nat | i < Count(prev, next) ensures KeySaved(a, Key(p, i), NewHistory(hist, p, prev, next, i)) {
      assert KeySaved(b, Key(p, i), NewHistory(hist, p, prev, next, i));
      assert Key(p, i).pool != q;
    }
  }

  lemma SavedLocal(req: Request, a: map<Key, History>, b: map<Key, History>, p: nat, prev: seq<OsdSet>,
          next: seq<OsdSet>)
    requires PoolSaved(req, a, p, prev, next) && SamePool(a, b, p)
    ensures PoolSaved(req, b, p, prev, next)
  {
    forall i: nat | i < Count(prev, next) ensures KeySaved(req, Key(p, i), NewHistory(b, p, prev, next, i)) {
      HistoryLocal(a, b, p, prev, next, i);
      assert KeySaved(req, Key(p, i), NewHistory(a, p, prev, next, i));
    }
  }

  // ----- the whole request

  function NextItems(items: map<nat, seq<OsdSet>>, pools: set<nat>, results: map<nat, seq<OsdSet>>): map<nat,
          seq<OsdSet>> {
    map p | p in items.Keys + results.Keys && (if p in results then results[p] != [] else p in pools) ::
      if p in results then results[p] else items[p]
  }

  /** What the request must save for a pool: nothing for one that is neither deleted nor changed. */
  ghost predicate Handled(m: Mon, pools: set<nat>, results: map<nat, seq<OsdSet>>, req: Request, p: nat) {
    if p in results then p !in req.pools && PoolSaved(req, m.hist, p, PrevOf(m.config, p), results[p])
    else if p in m.config.items && p !in pools then p in req.pools && PoolSaved(req, m.hist, p, m.config.items[p], [])
    else Silent(req, p) && p !in req.pools
  }

  /** Cached histories only gain the set that their group has. */
  ghost predicate Gained(m: Mon, hist: map<Key, History>, k: Key) {
    && (k in hist <==> k in m.hist)
    && (k in hist && k in m.hist && hist[k] != m.hist[k] ==>
         k.pg < |PrevOf(m.config, k.pool)| && hist[k] == Pushed(Some(m.hist[k]), PrevOf(m.config, k.pool)[k.pg]))
  }

  /** The request that `apply_pool_pgs` builds from the cache, and the cache after it. */
  ghost predicate Built(m: Mon, pools: set<nat>, results: map<nat, seq<OsdSet>>, req: Request, m': Mon) {
    && req.watch == m.watch && req.config.items == NextItems(m.config.items, pools, results)
    && (forall p: nat :: Handled(m, pools, results, req, p))
    && m'.watch == m.watch && m'.config == m.config && forall k: Key :: Gained(m, m'.hist, k)
  }

  /** The loops have handled all pools but those in `rest`. */
  ghost predicate Handling(m: Mon, pools: set<nat>, results: map<nat, seq<OsdSet>>, req: Request,
          hist: map<Key, History>, rest: set<nat>) {
    && (forall p: nat :: p !in rest ==> Handled(m, pools, results, req, p))
    && (forall p: nat :: p in rest ==> Silent(req, p) && p !in req.pools && SamePool(m.hist, hist, p))
    && forall k: Key :: Gained(m, hist, k)
  }

  lemma HandledNext(m: Mon, pools: set<nat>, results: map<nat, seq<OsdSet>>, req: Request, hist: map<Key, History>,
          rest: set<nat>,
                    p: nat, next: seq<OsdSet>, req0: Request, req': Request, hist': map<Key, History>)
    requires Handling(m, pools, results, req, hist, rest) && p in rest
    requires p in results || (p in m.config.items && p !in pools)
    requires next == if p in results then results[p] else []
    requires req0 == if p in results then req else req.(pools := req.pools + {p})
    requires OnlyPool(req', req0, p) && PoolSaved(req', hist, p, PrevOf(m.config, p), next)
    requires Pushes(hist, hist', p, PrevOf(m.config, p), next, |next|)
    ensures Handling(m, pools, results, req', hist', rest - {p})
  {
    hide PoolSaved, NewHistory, Pushed, Moves, Rescaled;
    forall q: nat | q !in rest - {p} ensures Handled(m, pools, results, req', q) {
      if q == p {
        SavedLocal(req', hist, m.hist, p, PrevOf(m.config, p), next);
      } else {
        assert Handled(m, pools, results, req, q);
        HandledKept(m, pools, results, req, q, p, req0, req');
      }
    }
    forall q: nat | q in rest - {p} ensures Silent(req', q) && q !in req'.pools && SamePool(m.hist, hist', q) {
      assert Silent(req, q) && SamePool(m.hist, hist, q);
      SilentKept(req', req0, p, q);
      forall i: nat ensures SameAt(m.hist, hist', Key(q, i)) { assert SameAt(m.hist, hist, Key(q, i)); }
    }
    forall k: Key ensures Gained(m, hist', k) {
      assert Gained(m, hist, k);
      if k.pool == p { assert SameAt(m.hist, hist, Key(p, k.pg)); GainedBy(m, hist, hist', k, p, next); }
    }
  }

  lemma StartHandling(m: Mon, pools: set<nat>, results: map<nat, seq<OsdSet>>, req: Request, rest: set<nat>)
    requires req.checks == req.dels == {} && req.puts == map[] && req.pools == {}
    requires rest == (m.config.items.Keys - pools) + results.Keys
    ensures Handling(m, pools, results, req, m.hist, rest)
  {
  }

  lemma HandlingSilent(m: Mon, pools: set<nat>, results: map<nat, seq<OsdSet>>, req: Request, hist: map<Key, History>,
          rest: set<nat>, p: nat)
    requires Handling(m, pools, results, req, hist, rest) && p in rest
    ensures Silent(req, p) && Silent(req.(pools := req.pools + {p}), p)
  {
  }

  lemma OnlyPoolFacts(a: Request, b: Request, p: nat)
    requires OnlyPool(a, b, p)
    ensures a.watch == b.watch && a.lease == b.lease
  {
  }

  lemma FinishBuilt(m: Mon, pools: set<nat>, results: map<nat, seq<OsdSet>>, req: Request, m': Mon, c: Config)
    requires Handling(m, pools, results, req, m'.hist, {}) && req.watch == m.watch
    requires m'.watch == m.watch && m'.config == m.config && c.items == NextItems(m.config.items, pools, results)
    ensures Built(m, pools, results, req.(config := c), m')
  {
    hide NewHistory, NextItems;
    forall p: nat ensures Handled(m, pools, results, req.(config := c), p) {
      assert Handled(m, pools, results, req, p);
      HandledConfig(m, pools, results, req, c, p);
    }
  }

  lemma HandledConfig(m: Mon, pools: set<nat>, results: map<nat, seq<OsdSet>>, req: Request, c: Config, p: nat)
    requires Handled(m, pools, results, req, p)
    ensures Handled(m, pools, results, req.(config := c), p)
  {
    hide NewHistory;
    if p in results {
      SavedConfig(req, c, m.hist, p, PrevOf(m.config, p), results[p]);
    } else if p in m.config.items && p !in pools {
      SavedConfig(req, c, m.hist, p, m.config.items[p], []);
    }
  }

  lemma SavedConfig(req: Request, c: Config, hist: map<Key, History>, p: nat, prev: seq<OsdSet>, next: seq<OsdSet>)
    requires PoolSaved(req, hist, p, prev, next)
    ensures PoolSaved(req.(config := c), hist, p, prev, next)
  {
    hide NewHistory;
    forall i: nat | i < Count(prev, next)
      ensures KeySaved(req.(config := c), Key(p, i), NewHistory(hist, p, prev, next, i))
    {
      assert KeySaved(req, Key(p, i), NewHistory(hist, p, prev, next, i));
    }
  }

  ghost predicate ItemsUpto(items: map<nat, seq<OsdSet>>, was: map<nat, seq<OsdSet>>, pools: set<nat>,
          results: map<nat, seq<OsdSet>>, rest: set<nat>) {
    && (forall q :: q in items <==> if q in results && q !in rest then results[q] != [] else q in was && q in pools)
    && forall q :: q in items ==> items[q] == if q in results && q !in rest then results[q] else was[q]
  }

  lemma ItemsNext(items: map<nat, seq<OsdSet>>, was: map<nat, seq<OsdSet>>, pools: set<nat>,
          results: map<nat, seq<OsdSet>>, rest: set<nat>, p: nat)
    requires ItemsUpto(items, was, pools, results, rest) && p in rest && p in results
    ensures ItemsUpto(if results[p] == [] then items - {p} else items[p := results[p]], was, pools, results, rest - {p})
  {
  }

  lemma ItemsAll(items: map<nat, seq<OsdSet>>, was: map<nat, seq<OsdSet>>, pools: set<nat>,
          results: map<nat, seq<OsdSet>>)
    requires ItemsUpto(items, was, pools, results, {})
    ensures items == NextItems(was, pools, results)
  {
  }

  lemma PushOne(h0: map<Key, History>, hist: map<Key, History>, p: nat, prev: seq<OsdSet>, next: seq<OsdSet>, i: nat)
    requires Pushes(h0, hist, p, prev, next, i)
    ensures !Moves(prev, next, i) || Rescaled(prev, next) || Key(p, i) !in hist ==>
      Pushes(h0, hist, p, prev, next, i + 1)
    ensures Moves(prev, next, i) && !Rescaled(prev, next) && Key(p, i) in hist ==>
            Pushes(h0, hist[Key(p, i) := Pushed(Carried(h0, p, prev, next, i), prev[i])], p, prev, next, i + 1)
  {
    hide Scaled, Known, Some1;
    forall k | k in h0 && k.pool == p && k.pg == i ensures k == Key(p, i) {}
  }

  lemma NoMove(hist: map<Key, History>, p: nat, prev: seq<OsdSet>, next: seq<OsdSet>, i: nat)
    requires i >= |next|
    ensures NewHistory(hist, p, prev, next, i) == Carried(hist, p, prev, next, i)
  {
  }

  function WithKey(req: Request, k: Key, h: Option<History>): Request {
    if h.Some? then req.(checks := req.checks + {k}, puts := req.puts[k := h.value])
    else req.(checks := req.checks + {k}, dels := req.dels + {k})
  }

  ghost predicate SavedUpto(req: Request, req0: Request, p: nat, list: seq<Option<History>>, i: nat) {
    && i <= |list| && OnlyPool(req, req0, p)
    && (forall j: nat :: j < i ==> KeySaved(req, Key(p, j), list[j]))
    && forall j: nat :: i <= j ==> Key(p, j) !in req.puts
  }

  lemma SaveOne(req: Request, req0: Request, p: nat, list: seq<Option<History>>, i: nat)
    requires SavedUpto(req, req0, p, list, i) && i < |list|
    ensures SavedUpto(WithKey(req, Key(p, i), list[i]), req0, p, list, i + 1)
  {
    var req' := WithKey(req, Key(p, i), list[i]);
    forall j: nat | j < i + 1 ensures KeySaved(req', Key(p, j), list[j]) {
      assert j < i ==> KeySaved(req, Key(p, j), list[j]);
    }
  }

  lemma AllSaved(req: Request, req0: Request, p: nat, list: seq<Option<History>>, hist: map<Key, History>,
          prev: seq<OsdSet>, next: seq<OsdSet>)
    requires SavedUpto(req, req0, p, list, |list|) && |list| == Count(prev, next)
    requires forall j :: 0 <= j < |list| ==> list[j] == NewHistory(hist, p, prev, next, j)
    ensures OnlyPool(req, req0, p) && PoolSaved(req, hist, p, prev, next)
  {
    hide NewHistory, KeySaved;
  }

  lemma PrevIs(config: Config, p: nat)
    requires p in config.items
    ensures PrevOf(config, p) == config.items[p]
  {
  }

  ghost function Both(rest: set<nat>, keys: set<nat>): set<nat> { rest + keys }

  lemma BothStep(rest: set<nat>, keys: set<nat>, p: nat)
    requires p in rest && p !in keys
    ensures p in Both(rest, keys) && Both(rest, keys) - {p} == Both(rest - {p}, keys)
  {
  }

  lemma BothNone(keys: set<nat>)
    ensures Both({}, keys) == keys
  {
  }

  lemma GainedBy(m: Mon, hist: map<Key, History>, hist': map<Key, History>, k: Key, p: nat, next: seq<OsdSet>)
    requires Pushes(hist, hist', p, PrevOf(m.config, p), next, |next|) && k.pool == p && SameAt(m.hist, hist, k)
    ensures Gained(m, hist', k)
  {
  }

  lemma HandledKept(m: Mon, pools: set<nat>, results: map<nat, seq<OsdSet>>, req: Request, q: nat, p: nat,
          req0: Request, req': Request)
    requires Handled(m, pools, results, req, q) && q != p && OnlyPool(req', req0, p)
    requires req0 == req || req0 == req.(pools := req.pools + {p})
    ensures Handled(m, pools, results, req', q)
  {
    hide NewHistory;
    if q in results {
      SavedKept(req', req0, p, m.hist, q, PrevOf(m.config, q), results[q]);
    } else if q in m.config.items && q !in pools {
      SavedKept(req', req0, p, m.hist, q, m.config.items[q], []);
    } else {
      SilentKept(req', req0, p, q);
    }
  }

  lemma SilentKept(a: Request, b: Request, p: nat, q: nat)
    requires OnlyPool(a, b, p) && q != p && Silent(b, q)
    ensures Silent(a, q)
  {
    forall k: Key | k.pool == q ensures k !in a.checks && k !in a.puts && k !in a.dels {
      assert k.pool != p;
    }
  }

  class Monitor {
    var watch: nat
    var config: Config
    var hist: map<Key, History>

    ghost function View(): Mon
      reads this
    {
      Mon(watch, config, hist)
    }

    /** `load_cluster_state`: in whatever history of the key-value store `kv` is the contents of revision
        `rev`, the cache is up to date with it. */
    constructor Load(kv: Kv, rev: nat)
      ensures View() == Mon(rev + 1, ConfigOf(kv), kv.hist)
      ensures forall log: Log :: rev < |log| && log[rev].kv == kv ==> Fresh(log, View())
    {
      watch, config, hist := rev + 1, ConfigOf(kv), kv.hist;
      new;
      forall log: Log | rev < |log| && log[rev].kv == kv ensures Fresh(log, View()) {
        LoadedFresh(log, rev);
      }
    }

    /** `on_message`: the events are applied to the cache one by one. If it was up to date before and they
        are those of the revisions up to `rev`, it is up to date with `rev`. */
    method OnMessage(rev: nat, events: seq<Event>)
      modifies this
      ensures View() == Play(old(View()), events).(watch := rev + 1)
      ensures forall log: Log :: Delivers(log, old(View()), rev + 1, events) ==> Fresh(log, View())
    {
      ghost var m0 := View();
      watch := rev + 1;
      for i := 0 to |events|
        invariant View() == Play(m0, events[..i]).(watch := rev + 1)
      {
        assert events[..i + 1][..i] == events[..i];
        match events[i] {
          case ConfigPut(c) => config := c;
          case ConfigDeleted => config := EMPTY;
          case HistPut(k, h) => hist := hist[k := h];
          case HistDeleted(k) => hist := hist - {k};
        }
      }
      assert events[..|events|] == events;
      forall log: Log | Delivers(log, m0, rev + 1, events) ensures Fresh(log, View()) {
        MessageRefreshes(log, m0, rev + 1, events);
      }
    }

    /** The histories that the new groups of a pool start with. */
    method PoolHistories(p: nat, prev: seq<OsdSet>, next: seq<OsdSet>) returns (list: seq<Option<History>>)
      ensures |list| == Count(prev, next) && forall i :: 0 <= i < |list| ==> list[i] == Carried(hist, p, prev, next, i)
    {
      var known := Known(hist, p, |prev|);
      if |prev| > 0 && |prev| != |next| {
        list := ScalePgHistory(known, prev, |next|);
      } else {
        list := known;
        while |list| < |next|
          invariant |prev| <= |list| && (|list| == |prev| || |list| <= |next|)
          invariant forall i :: 0 <= i < |list| ==> list[i] == Carried(hist, p, prev, next, i)
        {
          list := list + [None];
        }
      }
    }

    /** The sets that groups move away from are pushed to their histories; a cached history that is
        carried over is changed in place. */
    method PushSets(p: nat, prev: seq<OsdSet>, next: seq<OsdSet>) returns (list: seq<Option<History>>)
      modifies this`hist
      ensures |list| == Count(prev, next)
      ensures forall j :: 0 <= j < |list| ==> list[j] == NewHistory(old(hist), p, prev, next, j)
      ensures Pushes(old(hist), hist, p, prev, next, |next|)
    {
      list := PoolHistories(p, prev, next);
      ghost var h0 := hist;
      hide Scaled, Known;
      for i := 0 to |next|
        invariant |list| == Count(prev, next) && Pushes(h0, hist, p, prev, next, i)
        invariant forall j :: 0 <= j < |list| ==> list[j] == if j < i then NewHistory(h0, p, prev, next, j)
            else Carried(h0, p, prev, next, j)
      {
        PushOne(h0, hist, p, prev, next, i);
        assert list[i] == Carried(h0, p, prev, next, i);
        assert Moves(prev, next, i) <==> i < |prev| && prev[i] != next[i] && Some1(prev[i]);
        assert NewHistory(h0, p, prev, next, i) == if Moves(prev, next, i) then Some(Pushed(list[i], prev[i]))
            else list[i];
        hide Pushes, NewHistory, Carried, Pushed, Moves, Some1;
        if i < |prev| && prev[i] != next[i] && Some1(prev[i]) {
          list := list[i := Some(Pushed(list[i], prev[i]))];
          if !Rescaled(prev, next) && Key(p, i) in hist {
            hist := hist[Key(p, i) := list[i].value];
          }
        }
      }
      forall j | 0 <= j < |list| ensures list[j] == NewHistory(h0, p, prev, next, j) {
        if j >= |next| { NoMove(h0, p, prev, next, j); }
      }
    }

    /** `save_new_pgs_txn` for one pool. */
    method SavePool(p: nat, prev: seq<OsdSet>, next: seq<OsdSet>, req0: Request) returns (req: Request)
      requires Silent(req0, p)
      modifies this`hist
      ensures OnlyPool(req, req0, p) && PoolSaved(req, old(hist), p, prev, next)
      ensures Pushes(old(hist), hist, p, prev, next, |next|)
    {
      var list := PushSets(p, prev, next);
      req := req0;
      assert SavedUpto(req, req0, p, list, 0);
      hide NewHistory, Pushes, OnlyPool, SavedUpto, Silent, Count;
      ghost var h1 := hist;
      for i := 0 to |list|
        invariant hist == h1 && SavedUpto(req, req0, p, list, i)
      {
        SaveOne(req, req0, p, list, i);
        req := WithKey(req, Key(p, i), list[i]);
      }
      AllSaved(req, req0, p, list, old(hist), prev, next);
    }

    /** Pools that are in the configuration but do not exist any more. */
    method DeletePools(gone: set<nat>, pools: set<nat>, results: map<nat, seq<OsdSet>>,
            req0: Request) returns (req: Request)
      requires gone !! results.Keys && forall p :: p in gone ==> p in config.items && p !in pools
      requires Handling(View(), pools, results, req0, hist, Both(gone, results.Keys))
      modifies this`hist
      ensures Handling(old(View()), pools, results, req, hist, results.Keys) && req.watch == req0.watch
      ensures req.lease == req0.lease
    {
      ghost var m := View();
      req := req0;
      var rest := gone;
      ghost var keys := results.Keys;
      hide Handling, OnlyPool, PoolSaved, Pushes, Silent, PrevOf, Both;
      while rest != {}
        invariant rest <= gone && Handling(m, pools, results, req, hist, Both(rest, keys))
        invariant req.watch == req0.watch && req.lease == req0.lease
        decreases |rest|
      {
        var p := Least(rest);
        BothStep(rest, keys, p);
        ghost var h0 := hist;
        var marked, prev := req.(pools := req.pools + {p}), config.items[p];
        HandlingSilent(m, pools, results, req, hist, Both(rest, keys), p);
        var req1 := SavePool(p, prev, [], marked);
        PrevIs(m.config, p);
        HandledNext(m, pools, results, req, h0, Both(rest, keys), p, [], marked, req1, hist);
        OnlyPoolFacts(req1, marked, p);
        req, rest := req1, rest - {p};
      }
      BothNone(keys);
    }

    /** Pools with new groups. */
    method SaveResults(pools: set<nat>, results: map<nat, seq<OsdSet>>, req0: Request, ghost m: Mon)
        returns (req: Request, items: map<nat, seq<OsdSet>>)
      requires config == m.config && Handling(m, pools, results, req0, hist, results.Keys)
      modifies this`hist
      ensures Handling(m, pools, results, req, hist, {}) && req.watch == req0.watch && req.lease == req0.lease
      ensures items == NextItems(config.items, pools, results)
    {
      req := req0;
      items := map p | p in config.items && p in pools :: config.items[p];
      var rest := results.Keys;
      assert ItemsUpto(items, config.items, pools, results, rest);
      hide Handling, OnlyPool, PoolSaved, Pushes, Silent, ItemsUpto;
      while rest != {}
        invariant rest <= results.Keys && Handling(m, pools, results, req, hist, rest) && req.watch == req0.watch
        invariant req.lease == req0.lease
        invariant ItemsUpto(items, config.items, pools, results, rest)
        decreases |rest|
      {
        var p := Least(rest);
        HandlingSilent(m, pools, results, req, hist, rest, p);
        ghost var h0 := hist;
        var next := results[p];
        var req1 := SavePool(p, PrevOf(config, p), next, req);
        HandledNext(m, pools, results, req, h0, rest, p, next, req, req1, hist);
        OnlyPoolFacts(req1, req, p);
        ItemsNext(items, config.items, pools, results, rest, p);
        req, rest := req1, rest - {p};
        if next == [] { items := items - {p}; } else { items := items[p := next]; }
      }
      ItemsAll(items, config.items, pools, results);
    }

    /** `apply_pool_pgs` up to the transaction. */
    method ApplyPoolPgs(pools: set<nat>, results: map<nat, seq<OsdSet>>, lease: nat, other: nat) returns (req: Request)
      requires results.Keys <= pools
      modifies this`hist
      ensures Built(old(View()), pools, results, req, View()) && req.lease == lease
    {
      ghost var m := View();
      var empty := Request(watch, lease, EMPTY, {}, map[], {}, {});
      var gone := config.items.Keys - pools;
      StartHandling(m, pools, results, empty, Both(gone, results.Keys));
      req := DeletePools(gone, pools, results, empty);
      var items;
      hide Handling, NextItems;
      req, items := SaveResults(pools, results, req, m);
      FinishBuilt(m, pools, results, req, View(), Config(items, other));
      hide Built;
      req := req.(config := Config(items, other));
    }
  }
}
