/** The fixed-window rate limiter: `INCR`, then `EXPIRE` by whoever saw 1, as separate commands
    of concurrent callers. */
module Limiter {
  import opened Options
  import opened Sets

  /** A window is one life of the counter key. Windows are numbered from 0. */
  datatype Key = Absent | Live(count: nat, expires: Option<int>)

  /** A hit at a time, in a window, that read a count. */
  datatype Hit = Hit(at: int, window: nat, count: nat)

  /** `starts` are the times the windows began; `unset` are the windows whose first caller has not
      yet sent its `EXPIRE`. */
  datatype State = State(now: int, key: Key, starts: seq<int>, unset: set<nat>, hits: seq<Hit>)

  datatype Command = Incr(at: int) | Expire(at: int, window: nat)

  function Init(now: int): State
  {
    State(now, Absent, [], {}, [])
  }

  /** The key as the server sees it at a time: gone once its time has come. */
  function KeyAt(key: Key, at: int): Key
  {
    if key.Live? && key.expires.Some? && key.expires.value <= at then Absent else key
  }

  function Max(a: int, b: int): int
  {
    if a < b then b else a
  }

  function Incremented(s: State, at: int): State
  {
    match KeyAt(s.key, at)
    case Absent =>
      var w := |s.starts|;
      State(at, Live(1, None), s.starts + [at], s.unset + {w}, s.hits + [Hit(at, w, 1)])
    case Live(n, e) =>
      var w := if s.starts == [] then 0 else |s.starts| - 1;
      State(at, Live(n + 1, e), s.starts, s.unset, s.hits + [Hit(at, w, n + 1)])
  }

  /** A late `EXPIRE` finds whatever key is there. */
  function Expired(s: State, at: int, window: nat, secs: nat): State
  {
    if window !in s.unset then s
    else
      var key := KeyAt(s.key, at);
      s.(now := at, unset := s.unset - {window},
         key := if key.Live? then key.(expires := Some(at + secs)) else key)
  }

  /** Commands run one at a time, at times that never go back. */
  function Next(s: State, c: Command, secs: nat): State
  {
    match c
    case Incr(at) => Incremented(s, Max(s.now, at))
    case Expire(at, window) => Expired(s, Max(s.now, at), window, secs)
  }

  function Run(now: int, commands: seq<Command>, secs: nat): State
  {
    if commands == [] then Init(now)
    else Next(Run(now, commands[..|commands| - 1], secs), commands[|commands| - 1], secs)
  }

  /** A hit is let through while the count it read is within the limit. */
  predicate Admitted(h: Hit, limit: nat)
  {
    h.count <= limit
  }

  // ------------------------------------------------------------------
  // Invariant
  // ------------------------------------------------------------------

  ghost predicate HitOk(s: State, h: Hit)
  {
    && h.count >= 1
    && h.window < |s.starts|
    && s.starts[h.window] <= h.at <= s.now
    && (h.window + 1 < |s.starts| ==> h.at < s.starts[h.window + 1])
    && (h.window + 1 == |s.starts| && s.key.Live? ==> h.count <= s.key.count)
    && (h.window + 1 == |s.starts| && s.key.Live? && s.key.expires.Some? ==> h.at < s.key.expires.value)
  }

  /** Within a window no two hits read the same count. */
  ghost predicate CountsDiffer(hits: seq<Hit>)
  {
    forall i, j :: 0 <= i < j < |hits| && hits[i].window == hits[j].window ==> hits[i].count != hits[j].count
  }

  /** How many hits of a window there were. */
  function HitsIn(hits: seq<Hit>, window: nat): nat
  {
    if hits == [] then 0
    else HitsIn(hits[..|hits| - 1], window) + (if hits[|hits| - 1].window == window then 1 else 0)
  }

  /** The counter is the number of hits of the current window; later windows have none yet. */
  ghost predicate Counted(s: State)
  {
    && (s.key.Live? ==> s.starts != [] && s.key.count == HitsIn(s.hits, |s.starts| - 1) >= 1)
    && (s.key.Absent? ==> s.starts == [])
    && (forall w :: w >= |s.starts| ==> HitsIn(s.hits, w) == 0)
  }

  ghost predicate Ok(s: State, secs: nat)
  {
    && (forall i :: 0 <= i < |s.hits| ==> HitOk(s, s.hits[i]))
    && CountsDiffer(s.hits)
    && (forall w :: 0 <= w < |s.starts| ==> s.starts[w] <= s.now)
    && (forall w :: 0 <= w && w + 1 < |s.starts| ==> s.starts[w] + secs <= s.starts[w + 1])
    && (s.key.Absent? <==> s.starts == [])
    && (forall w :: w in s.unset ==> w + 1 == |s.starts| && s.key.Live? && s.key.expires == None)
    && (s.key.Live? && s.key.expires == None ==> |s.starts| - 1 in s.unset)
    && (s.key.Live? && s.key.expires.Some? ==> s.starts[|s.starts| - 1] + secs <= s.key.expires.value)
  }

  lemma IncrementedNew(s: State, at: int, secs: nat)
    requires Ok(s, secs) && s.now <= at && KeyAt(s.key, at).Absent?
    ensures Ok(Incremented(s, at), secs)
  {
    var s' := Incremented(s, at);
    assert s'.hits == s.hits + [Hit(at, |s.starts|, 1)];
    forall i | 0 <= i < |s.hits|
      ensures HitOk(s', s.hits[i])
    {
      assert HitOk(s, s.hits[i]);
    }
  }

  lemma IncrementedOld(s: State, at: int, secs: nat)
    requires Ok(s, secs) && s.now <= at && KeyAt(s.key, at).Live?
    ensures Ok(Incremented(s, at), secs)
  {
    var s' := Incremented(s, at);
    assert s'.hits == s.hits + [Hit(at, |s.starts| - 1, s.key.count + 1)];
    forall i | 0 <= i < |s.hits|
      ensures HitOk(s', s.hits[i])
      ensures s.hits[i].window == |s.starts| - 1 ==> s.hits[i].count <= s.key.count
    {
      assert HitOk(s, s.hits[i]);
    }
  }

  lemma ExpiredOk(s: State, at: int, window: nat, secs: nat)
    requires Ok(s, secs) && s.now <= at && secs >= 1
    ensures Ok(Expired(s, at, window, secs), secs)
  {
    var s' := Expired(s, at, window, secs);
    forall i | 0 <= i < |s.hits|
      ensures HitOk(s', s.hits[i])
    {
      assert HitOk(s, s.hits[i]);
    }
  }

  lemma {:induction false} RunOk(now: int, commands: seq<Command>, secs: nat)
    requires secs >= 1
    ensures Ok(Run(now, commands, secs), secs)
  {
    if commands != [] {
      RunOk(now, commands[..|commands| - 1], secs);
      var s := Run(now, commands[..|commands| - 1], secs);
      match commands[|commands| - 1]
      case Incr(at) =>
        if KeyAt(s.key, Max(s.now, at)).Absent? {
          IncrementedNew(s, Max(s.now, at), secs);
        } else {
          IncrementedOld(s, Max(s.now, at), secs);
        }
      case Expire(at, window) => ExpiredOk(s, Max(s.now, at), window, secs);
    }
  }

  lemma OneMoreHit(hits: seq<Hit>, h: Hit, w: nat)
    ensures HitsIn(hits + [h], w) == HitsIn(hits, w) + (if h.window == w then 1 else 0)
  {
    assert (hits + [h])[..|hits|] == hits;
  }

  /** The count a hit reads is the number of hits of its window, itself included. */
  lemma IncrementedCounts(s: State, at: int)
    requires Counted(s)
    ensures var s' := Incremented(s, at);
      && Counted(s')
      && s'.starts == (if KeyAt(s.key, at).Absent? then s.starts + [at] else s.starts)
      && s'.hits == s.hits + [Hit(at, |s'.starts| - 1, HitsIn(s'.hits, |s'.starts| - 1))]
      && s'.key == Live(HitsIn(s'.hits, |s'.starts| - 1), if KeyAt(s.key, at).Absent? then None else s.key.expires)
      && (KeyAt(s.key, at).Absent? <==> HitsIn(s'.hits, |s'.starts| - 1) == 1)
  {
    var s' := Incremented(s, at);
    var h := s'.hits[|s'.hits| - 1];
    assert s'.hits == s.hits + [h];
    forall w: nat
      ensures HitsIn(s'.hits, w) == HitsIn(s.hits, w) + (if h.window == w then 1 else 0)
    {
      OneMoreHit(s.hits, h, w);
    }
  }

  lemma ExpiredCounts(s: State, at: int, window: nat, secs: nat)
    requires Counted(s) && KeyAt(s.key, at) == s.key
    ensures Counted(Expired(s, at, window, secs))
  {
  }

  // ------------------------------------------------------------------
  // One hit without interruption
  // ------------------------------------------------------------------

  class Redis {
    var state: State

    constructor (now: int)
      ensures state == Init(now)
    {
      state := Init(now);
    }

    /** `rate_limit_hit` run without interruption. The hit is let through exactly if the window's
        hits, this one included, are within the limit. The first hit of a window makes the key
        expire `secs` later; any other leaves the expiry alone. */
    method RateLimitHit(at: int, limit: nat, secs: nat) returns (ok: bool)
      requires Counted(state) && state.now <= at && |state.starts| !in state.unset
      modifies this
      ensures Counted(state) && state.now == at
      ensures var w := |state.starts| - 1;
        && w >= 0
        && ok == (HitsIn(state.hits, w) <= limit)
        && state.hits == old(state.hits) + [Hit(at, w, HitsIn(state.hits, w))]
      ensures if KeyAt(old(state.key), at).Absent?
        then state.starts == old(state.starts) + [at] && state.key == Live(1, Some(at + secs))
        else state.starts == old(state.starts) && state.key.Live? && state.key.expires == old(state.key).expires
      ensures state.unset == old(state.unset)
    {
      IncrementedCounts(state, at);
      state := Next(state, Incr(at), secs);
      var h := state.hits[|state.hits| - 1];
      if h.count == 1 {
        ExpiredCounts(state, at, h.window, secs);
        state := Next(state, Expire(at, h.window), secs);
      }
      ok := h.count <= limit;
    }
  }

  /** Over every run the counter is the number of hits of its window. */
  lemma {:induction false} RunCounted(now: int, commands: seq<Command>, secs: nat)
    requires secs >= 1
    ensures Counted(Run(now, commands, secs)) && |Run(now, commands, secs).starts| !in Run(now, commands, secs).unset
  {
    RunOk(now, commands, secs);
    if commands != [] {
      RunCounted(now, commands[..|commands| - 1], secs);
      var s := Run(now, commands[..|commands| - 1], secs);
      match commands[|commands| - 1]
      case Incr(at) => IncrementedCounts(s, Max(s.now, at));
      case Expire(at, window) =>
        RunOk(now, commands[..|commands| - 1], secs);
        if window in s.unset {
          ExpiredCounts(s, Max(s.now, at), window, secs);
        }
    }
  }

  // ------------------------------------------------------------------
  // Bounds
  // ------------------------------------------------------------------

  /** The admitted hits of a window, by their place in the log. */
  function AdmittedIn(s: State, window: nat, limit: nat): set<nat>
  {
    set i | 0 <= i < |s.hits| && s.hits[i].window == window && Admitted(s.hits[i], limit)
  }

  /** The admitted hits between two times. */
  function AdmittedBetween(s: State, from: int, to: int, limit: nat): set<nat>
  {
    set i | 0 <= i < |s.hits| && from <= s.hits[i].at <= to && Admitted(s.hits[i], limit)
  }

  lemma CountsDifferFrom(hits: seq<Hit>, i: nat, j: nat)
    requires CountsDiffer(hits) && i < |hits| && j < |hits| && i != j && hits[i].window == hits[j].window
    ensures hits[i].count != hits[j].count
  {
    if i < j {
      assert hits[i].count != hits[j].count;
    } else {
      assert hits[j].count != hits[i].count;
    }
  }

  lemma {:induction false} AtMostLimit(hits: seq<Hit>, ids: set<nat>, limit: nat)
    requires CountsDiffer(hits)
    requires forall i :: i in ids ==> i < |hits| && 1 <= hits[i].count <= limit
    requires forall i, j :: i in ids && j in ids ==> hits[i].window == hits[j].window
    ensures |ids| <= limit
    decreases limit
  {
    if limit > 0 && ids != {} {
      var top := set i | i in ids && hits[i].count == limit;
      if top == {} {
        assert forall i :: i in ids ==> i !in top;
        AtMostLimit(hits, ids, limit - 1);
      } else {
        var t := Pick(top);
        forall i | i in ids - {t}
          ensures hits[i].count <= limit - 1
        {
          CountsDifferFrom(hits, i, t);
        }
        AtMostLimit(hits, ids - {t}, limit - 1);
      }
    } else if ids != {} {
      var t := Pick(ids);
    }
  }

  /** Each window admits at most `limit` hits. */
  lemma WindowBound(now: int, commands: seq<Command>, secs: nat, window: nat, limit: nat)
    requires secs >= 1
    ensures |AdmittedIn(Run(now, commands, secs), window, limit)| <= limit
  {
    RunOk(now, commands, secs);
    var s := Run(now, commands, secs);
    forall i | i in AdmittedIn(s, window, limit)
      ensures 1 <= s.hits[i].count
    {
      assert HitOk(s, s.hits[i]);
    }
    AtMostLimit(s.hits, AdmittedIn(s, window, limit), limit);
  }

  lemma {:induction false} StartsApart(s: State, secs: nat, v: nat, w: nat)
    requires Ok(s, secs) && v <= w < |s.starts|
    ensures s.starts[v] <= s.starts[w] && (v < w ==> s.starts[v] + secs <= s.starts[w])
    decreases w
  {
    if v < w {
      StartsApart(s, secs, v, w - 1);
      assert s.starts[w - 1] + secs <= s.starts[(w - 1) + 1];
    }
  }

  /** Two hits at most `secs` apart lie in the same window or in consecutive ones. */
  lemma CloseHits(s: State, secs: nat, g: Hit, h: Hit)
    requires Ok(s, secs) && HitOk(s, g) && HitOk(s, h) && g.window <= h.window && h.at <= g.at + secs
    ensures h.window <= g.window + 1
  {
    if h.window > g.window + 1 {
      StartsApart(s, secs, g.window + 1, h.window);
    }
  }

  lemma EarliestWindow(s: State, ids: set<nat>) returns (e: nat)
    requires ids != {} && forall i :: i in ids ==> i < |s.hits|
    ensures e in ids && forall i :: i in ids ==> s.hits[e].window <= s.hits[i].window
    decreases ids
  {
    var x := Pick(ids);
    if ids == {x} {
      return x;
    }
    var rest := ids - {x};
    assert rest != {};
    e := EarliestWindow(s, rest);
    if s.hits[x].window < s.hits[e].window {
      e := x;
    }
    assert forall i :: i in ids ==> i == x || i in rest;
  }

  /** Whatever the interleaving, any stretch of `secs` seconds, ends included, admits at most twice
      the limit. */
  lemma IntervalBound(now: int, commands: seq<Command>, secs: nat, from: int, limit: nat)
    requires secs >= 1
    ensures |AdmittedBetween(Run(now, commands, secs), from, from + secs, limit)| <= 2 * limit
  {
    RunOk(now, commands, secs);
    var s := Run(now, commands, secs);
    var ids := AdmittedBetween(s, from, from + secs, limit);
    if ids != {} {
      var e := EarliestWindow(s, ids);
      var w := s.hits[e].window;
      forall i | i in ids
        ensures i in AdmittedIn(s, w, limit) + AdmittedIn(s, w + 1, limit)
      {
        assert HitOk(s, s.hits[e]) && HitOk(s, s.hits[i]);
        CloseHits(s, secs, s.hits[e], s.hits[i]);
      }
      SubsetSmaller(ids, AdmittedIn(s, w, limit) + AdmittedIn(s, w + 1, limit));
      UnionBound(AdmittedIn(s, w, limit), AdmittedIn(s, w + 1, limit));
      WindowBound(now, commands, secs, w, limit);
      WindowBound(now, commands, secs, w + 1, limit);
    }
  }
}
