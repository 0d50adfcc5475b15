/** The sliding-window limiter over whole runs, and what it bounds. */
module RateLimit {
  import opened ByteStrings
  import opened Proto
  import opened Rendezvous
  import opened Histories

  function Times<T>(log: seq<Logged<T>>): (ts: seq<Time>)
    ensures |ts| == |log|
  {
    seq(|log|, i requires 0 <= i < |log| => log[i].at)
  }

  predicate Sorted(ts: seq<Time>) {
    forall i, j | 0 <= i < j < |ts| :: ts[i] <= ts[j]
  }

  /** The positions whose reading lies in the closed interval [lo, hi]. */
  function Window(ts: seq<Time>, lo: int, hi: int): set<nat> {
    set i: nat | i < |ts| && lo <= ts[i] <= hi
  }

  function Range(lo: nat, hi: nat): (r: set<nat>)
    ensures forall i: nat :: i in r <==> lo <= i < hi
    ensures lo <= hi ==> |r| == hi - lo
  {
    if hi <= lo then {} else Range(lo, hi - 1) + {hi - 1}
  }

  lemma {:induction false} SubsetSize<T>(small: set<T>, big: set<T>)
    requires small <= big
    ensures |small| <= |big|
  {
    if small == {} {
    } else {
      var x :| x in small;
      SubsetSize(small - {x}, big - {x});
    }
  }

  // -------------------------------------------------------------------------
  // The pruned queue refines the full history

  lemma {:induction false} PruneSorted(q: seq<Time>, now: Time)
    requires Sorted(q)
    ensures var r := Prune(q, now);
      && |r| <= |q| && r == q[|q| - |r|..]
      && (forall i | 0 <= i < |q| - |r| :: Since(now, q[i]) > MINUTE)
      && (forall i | 0 <= i < |r| :: Since(now, r[i]) <= MINUTE)
  {
    if q == [] || Since(now, q[0]) <= MINUTE {
    } else {
      var rest := q[1..];
      PruneSorted(rest, now);
      var r := Prune(rest, now);
      assert rest[|rest| - |r|..] == q[|q| - |r|..];
      forall i | 0 <= i < |q| - |r| ensures Since(now, q[i]) > MINUTE {
        if i > 0 { assert q[i] == rest[i - 1]; }
      }
    }
  }

  /** The limiter's invariant for one host: the issuing times are sorted, twenty
      and one of them in a row span more than a minute, and the queue in memory
      is their end, the dropped beginning being over a minute old. */
  ghost predicate Tracks(ts: seq<Time>, q: seq<Time>, now: Time) {
    && Sorted(ts)
    && (forall i | 0 <= i < |ts| :: ts[i] <= now)
    && (forall i, j | 0 <= i < j < |ts| && j == i + CHALLENGES_PER_MINUTE :: ts[j] - ts[i] > MINUTE)
    && |q| <= |ts| && |q| <= CHALLENGES_PER_MINUTE
    && q == ts[|ts| - |q|..]
    && (forall i | 0 <= i < |ts| - |q| :: now - ts[i] > MINUTE)
  }

  lemma PruneTracks(ts: seq<Time>, q: seq<Time>, was: Time, now: Time)
    requires Tracks(ts, q, was) && was <= now
    ensures Tracks(ts, Prune(q, now), now)
    ensures forall i | 0 <= i < |Prune(q, now)| :: now - Prune(q, now)[i] <= MINUTE
  {
    PruneSorted(q, now);
    var r := Prune(q, now);
    assert q[|q| - |r|..] == ts[|ts| - |r|..];
    forall i | 0 <= i < |ts| - |r| ensures now - ts[i] > MINUTE {
      if i >= |ts| - |q| { assert ts[i] == q[i - (|ts| - |q|)]; }
    }
  }

  lemma PushTracks(ts: seq<Time>, q: seq<Time>, now: Time)
    requires Tracks(ts, q, now) && |q| < CHALLENGES_PER_MINUTE
    ensures Tracks(ts + [now], q + [now], now)
  {
    var ts', q' := ts + [now], q + [now];
    assert ts'[|ts'| - |q'|..] == q';
  }

  /** What a challenge for a known host does to the queue and answers. */
  lemma ChallengeStep(s: State, now: Time, id: Bytes, rid: Bytes, chal: Bytes)
    requires id in s.hosts
    ensures var (s', r) := IssueChallenge(s, now, id, rid, chal);
      var q := Prune(RuntimeOf(s, id).challengeTimes, now);
      if |q| < CHALLENGES_PER_MINUTE
      then r == Issued(rid, chal) && RuntimeOf(s', id).challengeTimes == q + [now]
      else r == Refused(TooManyRequests) && RuntimeOf(s', id).challengeTimes == q
  {
  }

  lemma LimiterStep(p: Primitives, s: State, was: Time, now: Time, op: Op, id: Bytes, ts: seq<Time>)
    requires Tracks(ts, RuntimeOf(s, id).challengeTimes, was) && was <= now
    ensures var (s', r) := Apply(p, s, now, op);
      Tracks(if op.DoChallenge? && op.id == id && r.Issued? then ts + [now] else ts,
             RuntimeOf(s', id).challengeTimes, now)
  {
    var q := RuntimeOf(s, id).challengeTimes;
    if op.DoChallenge? && op.id == id && id in s.hosts {
      ChallengeStep(s, now, id, op.rid, op.chal);
      PruneTracks(ts, q, was, now);
      if |Prune(q, now)| < CHALLENGES_PER_MINUTE {
        PushTracks(ts, Prune(q, now), now);
      }
    } else {
      QueueFrame(p, s, now, op, id);
      assert Tracks(ts, q, now);
    }
  }

  lemma TimesStep(p: Primitives, h: History, id: Bytes)
    requires h.Then?
    ensures Times(Issues(p, h, id)) ==
            if h.op.DoChallenge? && h.op.id == id && LastResponse(p, h).Issued?
            then Times(Issues(p, h.past, id)) + [h.now] else Times(Issues(p, h.past, id))
  {
  }

  lemma {:induction false} LimiterTracks(p: Primitives, h: History, id: Bytes)
    requires Valid(p, h)
    ensures Tracks(Times(Issues(p, h, id)), RuntimeOf(After(p, h), id).challengeTimes, Now(h))
  {
    if h.Start? {
    } else {
      LimiterTracks(p, h.past, id);
      LimiterStep(p, After(p, h.past), Now(h.past), h.now, h.op, id, Times(Issues(p, h.past, id)));
      TimesStep(p, h, id);
    }
  }

  lemma SuffixIsWindow(ts: seq<Time>, q: seq<Time>, now: Time)
    requires Tracks(ts, q, now)
    requires forall i | 0 <= i < |q| :: now - q[i] <= MINUTE
    ensures |Window(ts, now - MINUTE, now)| == |q|
  {
    var cut := |ts| - |q|;
    forall i | cut <= i < |ts| ensures now - ts[i] <= MINUTE { assert ts[i] == q[i - cut]; }
    assert Window(ts, now - MINUTE, now) == Range(cut, |ts|);
  }

  /** The answer to a challenge for a known host, given when challenges were
      issued for it: a refusal exactly when twenty lie in the closed minute that
      ends now. There are never more. */
  predicate MinuteRule(ts: seq<Time>, now: Time, op: Op, r: Response)
    requires op.DoChallenge?
  {
    var recent := Window(ts, now - MINUTE, now);
    && |recent| <= CHALLENGES_PER_MINUTE
    && r == if |recent| >= CHALLENGES_PER_MINUTE then Refused(TooManyRequests) else Issued(op.rid, op.chal)
  }

  lemma RefusalStep(p: Primitives, s: State, was: Time, now: Time, op: Op, ts: seq<Time>)
    requires op.DoChallenge? && op.id in s.hosts && was <= now
    requires Tracks(ts, RuntimeOf(s, op.id).challengeTimes, was)
    ensures MinuteRule(ts, now, op, Apply(p, s, now, op).1)
  {
    var q := RuntimeOf(s, op.id).challengeTimes;
    ChallengeStep(s, now, op.id, op.rid, op.chal);
    PruneTracks(ts, q, was, now);
    SuffixIsWindow(ts, Prune(q, now), now);
  }

  /** A challenge for a known host is refused exactly when twenty were issued for
      it in the closed minute that ends now, over the whole history. */
  lemma RefusesExactlyOnFullMinute(p: Primitives, h: History)
    requires Valid(p, h) && h.Then? && h.op.DoChallenge? && h.op.id in After(p, h.past).hosts
    ensures MinuteRule(Times(Issues(p, h.past, h.op.id)), h.now, h.op, LastResponse(p, h))
  {
    LimiterTracks(p, h.past, h.op.id);
    RefusalStep(p, After(p, h.past), Now(h.past), h.now, h.op, Times(Issues(p, h.past, h.op.id)));
  }

  // -------------------------------------------------------------------------
  // Counting

  lemma {:induction false} LongSpan(ts: seq<Time>, q: seq<Time>, now: Time, i: nat, k: nat)
    requires Tracks(ts, q, now) && k >= 1 && i + CHALLENGES_PER_MINUTE * k < |ts|
    ensures ts[i + CHALLENGES_PER_MINUTE * k] - ts[i] > k * MINUTE
    decreases k
  {
    var j := i + CHALLENGES_PER_MINUTE * (k - 1);
    assert ts[j + CHALLENGES_PER_MINUTE] - ts[j] > MINUTE;
    if k == 1 {
    } else {
      LongSpan(ts, q, now, i, k - 1);
    }
  }

  lemma {:induction false} LeastOf(s: set<nat>) returns (least: nat)
    requires s != {}
    ensures least in s && forall x | x in s :: least <= x
  {
    var x :| x in s;
    if s == {x} {
      least := x;
    } else {
      var rest := LeastOf(s - {x});
      least := if x < rest then x else rest;
      assert s == (s - {x}) + {x};
    }
  }

  /** The same for sequences of readings: a closed window of k minutes. */
  lemma WindowBound(ts: seq<Time>, q: seq<Time>, now: Time, lo: int, k: nat)
    requires Tracks(ts, q, now) && k >= 1
    ensures |Window(ts, lo, lo + k * MINUTE)| <= CHALLENGES_PER_MINUTE * k
  {
    var w := Window(ts, lo, lo + k * MINUTE);
    if w != {} {
      var first := LeastOf(w);
      var end := first + CHALLENGES_PER_MINUTE * k;
      if end < |ts| { LongSpan(ts, q, now, first, k); }
      forall i | i in w ensures i < end {
      }
      assert w <= Range(first, end);
      SubsetSize(w, Range(first, end));
    }
  }

  /** Any closed window of k minutes holds at most 20 k challenges of one host. */
  lemma IssueBound(p: Primitives, h: History, id: Bytes, lo: int, k: nat)
    requires Valid(p, h) && k >= 1
    ensures |Window(Times(Issues(p, h, id)), lo, lo + k * MINUTE)| <= CHALLENGES_PER_MINUTE * k
  {
    LimiterTracks(p, h, id);
    WindowBound(Times(Issues(p, h, id)), RuntimeOf(After(p, h), id).challengeTimes, Now(h), lo, k);
  }

  lemma {:induction false} InjectionSize(a: set<nat>, b: set<nat>, f: map<nat, nat>)
    requires forall x | x in a :: x in f && f[x] in b
    requires forall x, y | x in a && y in a && f[x] == f[y] :: x == y
    ensures |a| <= |b|
  {
    if a == {} {
    } else {
      var x :| x in a;
      InjectionSize(a - {x}, b - {f[x]}, f);
    }
  }

  /** Where in the issuing order a minted challenge of a host stands. */
  lemma {:induction false} MintedIsIssued(p: Primitives, h: History, rid: Bytes) returns (j: nat)
    requires Valid(p, h) && rid in Minted(p, h)
    ensures var c := Minted(p, h)[rid];
      j < |Issues(p, h, c.hostId)| && Issues(p, h, c.hostId)[j] == Logged(rid, c.created)
  {
    if h.op.DoChallenge? && h.op.rid == rid && LastResponse(p, h).Issued? {
      j := |Issues(p, h.past, h.op.id)|;
    } else {
      j := MintedIsIssued(p, h.past, rid);
    }
  }

  /** `f` maps the first n acceptances one to one to issues under the same request
      id and less than 120 s older. */
  ghost predicate Injects(accepted: seq<Acceptance>, issues: seq<Issue>, n: nat, f: map<nat, nat>) {
    && n <= |accepted|
    && (forall i: nat | i < n ::
          && i in f && f[i] < |issues|
          && issues[f[i]].what == accepted[i].what.requestId
          && 0 <= accepted[i].at - issues[f[i]].at < CHALLENGE_TTL_SECS * SECOND)
    && (forall i: nat, j: nat | i < n && j < n && f[i] == f[j] :: i == j)
  }

  predicate DistinctIds(accepted: seq<Acceptance>) {
    forall i, j | 0 <= i < j < |accepted| :: accepted[i].what.requestId != accepted[j].what.requestId
  }

  lemma InjectOneMore(accepted: seq<Acceptance>, issues: seq<Issue>, n: nat, f: map<nat, nat>, j: nat)
    requires DistinctIds(accepted) && n < |accepted| && j < |issues| && Injects(accepted, issues, n, f)
    requires issues[j].what == accepted[n].what.requestId
    requires 0 <= accepted[n].at - issues[j].at < CHALLENGE_TTL_SECS * SECOND
    ensures Injects(accepted, issues, n + 1, f[n := j])
  {
    forall i: nat | i < n ensures f[i] != j {
      assert accepted[i].what.requestId != accepted[n].what.requestId;
    }
  }

  /** An accepted submission, among the issues of its host. */
  lemma AcceptedWasIssued(p: Primitives, h: History, id: Bytes, i: nat) returns (j: nat)
    requires Valid(p, h) && i < |Acceptances(p, h, id)|
    ensures var a := Acceptances(p, h, id)[i];
      && j < |Issues(p, h, id)| && Issues(p, h, id)[j].what == a.what.requestId
      && 0 <= a.at - Issues(p, h, id)[j].at < CHALLENGE_TTL_SECS * SECOND
  {
    AcceptanceIsBound(p, h, id, i);
    j := MintedIsIssued(p, h, Acceptances(p, h, id)[i].what.requestId);
  }

  lemma AcceptancesAreDistinct(p: Primitives, h: History, id: Bytes)
    requires Valid(p, h)
    ensures DistinctIds(Acceptances(p, h, id))
  {
    var accepted := Acceptances(p, h, id);
    forall i, j | 0 <= i < j < |accepted|
      ensures accepted[i].what.requestId != accepted[j].what.requestId
    {
      if accepted[i].what.requestId == accepted[j].what.requestId { AcceptedOnce(p, h, id, i, id, j); }
    }
  }

  /** Accepted submissions map one to one to challenges issued for the same host
      less than 120 s before. */
  lemma {:induction false} AcceptancesInject(p: Primitives, h: History, id: Bytes, n: nat)
    returns (f: map<nat, nat>)
    requires Valid(p, h) && n <= |Acceptances(p, h, id)|
    ensures Injects(Acceptances(p, h, id), Issues(p, h, id), n, f)
    decreases n
  {
    f := map[];
    if n == 0 {
    } else {
      f := AcceptancesInject(p, h, id, n - 1);
      var j := AcceptedWasIssued(p, h, id, n - 1);
      AcceptancesAreDistinct(p, h, id);
      InjectOneMore(Acceptances(p, h, id), Issues(p, h, id), n - 1, f, j);
      f := f[n - 1 := j];
    }
  }

  /** So a window of acceptances is no larger than the window of issues that
      starts two minutes earlier. */
  lemma NoMoreThanIssued(accepted: seq<Acceptance>, issues: seq<Issue>, f: map<nat, nat>, lo: int, k: nat)
    requires Injects(accepted, issues, |accepted|, f)
    ensures |Window(Times(accepted), lo, lo + k * MINUTE)|
         <= |Window(Times(issues), lo - 2 * MINUTE, lo - 2 * MINUTE + (k + 2) * MINUTE)|
  {
    var hi := lo + k * MINUTE;
    assert lo - 2 * MINUTE + (k + 2) * MINUTE == hi;
    InjectionSize(Window(Times(accepted), lo, hi), Window(Times(issues), lo - 2 * MINUTE, hi), f);
  }

  /** The bound on password guesses: in every closed window of k minutes, at most
      20 (k + 2) pair requests are queued for a host, whatever anybody does. */
  lemma AttemptBound(p: Primitives, h: History, id: Bytes, lo: int, k: nat)
    requires Valid(p, h)
    ensures |Window(Times(Acceptances(p, h, id)), lo, lo + k * MINUTE)|
         <= CHALLENGES_PER_MINUTE * (k + 2)
  {
    var f := AcceptancesInject(p, h, id, |Acceptances(p, h, id)|);
    NoMoreThanIssued(Acceptances(p, h, id), Issues(p, h, id), f, lo, k);
    IssueBound(p, h, id, lo - 2 * MINUTE, k + 2);
  }
}
