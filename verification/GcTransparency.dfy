/** Garbage collection changes no outcome: a run and the same run without its
    collections issue, accept, deliver and rate-limit alike. */
module GcTransparency {
  import opened ByteStrings
  import opened Proto
  import opened Rendezvous
  import opened Histories

  /** The run with every collection taken out. */
  function Strip(h: History): History {
    match h
    case Start => Start
    case Then(past, now, op) => if op.DoGc? then Strip(past) else Then(Strip(past), now, op)
  }

  /** What `s` knows of an id `t` knows too; what `t` knows and is not past its
      time, `s` knows. */
  ghost predicate LiveAlike(s: State, t: State, now: Time, rid: Bytes) {
    && (rid in s.challenges ==> rid in t.challenges && t.challenges[rid] == s.challenges[rid])
    && (rid in s.results ==> rid in t.results && t.results[rid] == s.results[rid])
    && (rid in t.challenges && rid !in s.challenges ==>
          AsSecs(Since(now, t.challenges[rid].created)) >= CHALLENGE_TTL_SECS)
    && (rid in t.results && rid !in s.results ==>
          AsSecs(Since(now, t.results[rid].created)) >= RESULT_TTL_SECS)
  }

  /** `s` is `t` up to entries past their time. */
  ghost predicate Alike(s: State, t: State, now: Time) {
    s.hosts == t.hosts && s.runtime == t.runtime && forall rid :: LiveAlike(s, t, now, rid)
  }

  /** The step meets an entry past its time. */
  predicate MeetsStale(t: State, now: Time, op: Op) {
    || (op.DoSubmit? && op.submission.requestId in t.challenges
        && AsSecs(Since(now, t.challenges[op.submission.requestId].created)) >= CHALLENGE_TTL_SECS)
    || (op.DoPost? && op.res.requestId in t.results
        && AsSecs(Since(now, t.results[op.res.requestId].created)) >= RESULT_TTL_SECS)
    || (op.DoPollResult? && op.rid in t.results
        && AsSecs(Since(now, t.results[op.rid].created)) >= RESULT_TTL_SECS)
  }

  /** The step asks for an entry that `t` still has and `s` no longer. */
  predicate Forgotten(p: Primitives, s: State, t: State, op: Op) {
    || (op.DoSubmit? && WellFormedSubmit(op.submission)
        && op.submission.requestId in t.challenges && op.submission.requestId !in s.challenges)
    || (op.DoPost? && Authorize(p, t, op.id, op.token).None?
        && op.res.requestId in t.results && op.res.requestId !in s.results)
    || (op.DoPollResult? && op.rid in t.results && op.rid !in s.results)
  }

  lemma LaterStillAlike(s: State, t: State, was: Time, now: Time)
    requires Alike(s, t, was) && was <= now
    ensures Alike(s, t, now)
  {
    forall rid ensures LiveAlike(s, t, now, rid) { assert LiveAlike(s, t, was, rid); }
  }

  lemma CollectAlike(s: State, t: State, now: Time)
    requires Alike(s, t, now)
    ensures Alike(Collect(s, now), t, now)
  {
    forall rid ensures LiveAlike(Collect(s, now), t, now, rid) { assert LiveAlike(s, t, now, rid); }
  }

  predicate NoMatter(op: Op, r: Response) {
    r != Refused(NotFound) && r != Refused(TooManyRequests) && !r.Queued? && (op.DoSubmit? ==> r.Refused?)
  }

  /** The answers differ exactly on a forgotten entry, which is past its time: one
      run then says "unknown", and the other neither that nor anything that
      matters to anybody else. */
  lemma AnswersAlike(p: Primitives, s: State, t: State, now: Time, op: Op)
    requires Alike(s, t, now)
    ensures Apply(p, s, now, op).1 == if Forgotten(p, s, t, op) then Refused(NotFound) else Apply(p, t, now, op).1
    ensures Forgotten(p, s, t, op) ==> MeetsStale(t, now, op) && NoMatter(op, Apply(p, t, now, op).1)
  {
    match op {
      case DoSubmit(id, req) => SubmitAnswersAlike(s, t, now, id, req);
      case DoPost(id, token, res) =>
        assert LiveAlike(s, t, now, res.requestId);
        assert Authorize(p, s, id, token) == Authorize(p, t, id, token);
      case DoPollResult(rid) => assert LiveAlike(s, t, now, rid);
      case _ => HostAnswersAlike(p, s, t, now, op);
    }
  }

  lemma HostAnswersAlike(p: Primitives, s: State, t: State, now: Time, op: Op)
    requires s.hosts == t.hosts && s.runtime == t.runtime
    requires !op.DoSubmit? && !op.DoPost? && !op.DoPollResult?
    ensures Apply(p, s, now, op).1 == Apply(p, t, now, op).1
  {
    match op {
      case DoRegister(req, pick) => assert ChooseId(p, s, req, pick) == ChooseId(p, t, req, pick);
      case DoHeartbeat(id, token, _) => assert Authorize(p, s, id, token) == Authorize(p, t, id, token);
      case DoPoll(id, token) => assert Authorize(p, s, id, token) == Authorize(p, t, id, token);
      case _ =>
    }
  }

  lemma SubmitAnswersAlike(s: State, t: State, now: Time, id: Bytes, req: SubmitPairRequest)
    requires Alike(s, t, now)
    ensures var forgotten := WellFormedSubmit(req) && req.requestId in t.challenges && req.requestId !in s.challenges;
      && SubmitPair(s, now, id, req).1 == (if forgotten then Refused(NotFound) else SubmitPair(t, now, id, req).1)
      && (forgotten ==>
            && AsSecs(Since(now, t.challenges[req.requestId].created)) >= CHALLENGE_TTL_SECS
            && SubmitPair(t, now, id, req).1 in {Refused(BadRequest), Refused(Gone)})
  {
    assert LiveAlike(s, t, now, req.requestId);
  }

  lemma StepAlike(p: Primitives, s: State, t: State, now: Time, op: Op)
    requires Alike(s, t, now) && !op.DoGc?
    ensures Alike(Apply(p, s, now, op).0, Apply(p, t, now, op).0, now)
  {
    match op {
      case DoSubmit(id, req) => SubmitAlike(s, t, now, id, req);
      case DoPost(id, token, res) => PostAlike(p, s, t, now, id, token, res);
      case DoChallenge(id, rid, chal) => ChallengeAlike(s, t, now, id, rid, chal);
      case _ => HostStepAlike(p, s, t, now, op);
    }
  }

  predicate IsHostStep(op: Op) {
    op.DoRegister? || op.DoHeartbeat? || op.DoInform? || op.DoPoll? || op.DoPollResult?
  }

  lemma HostStepFrame(p: Primitives, s: State, now: Time, op: Op)
    requires IsHostStep(op)
    ensures Apply(p, s, now, op).0.challenges == s.challenges
    ensures Apply(p, s, now, op).0.results == s.results
  {
  }

  lemma RegisterSeesHosts(p: Primitives, s: State, t: State, now: Time, req: RegisterRequest, pick: Bytes)
    requires s.hosts == t.hosts && s.runtime == t.runtime
    ensures Register(p, s, now, req, pick).0.hosts == Register(p, t, now, req, pick).0.hosts
    ensures Register(p, s, now, req, pick).0.runtime == Register(p, t, now, req, pick).0.runtime
  {
    assert ChooseId(p, s, req, pick) == ChooseId(p, t, req, pick);
  }

  lemma HostStepSeesHosts(p: Primitives, s: State, t: State, now: Time, op: Op)
    requires IsHostStep(op) && s.hosts == t.hosts && s.runtime == t.runtime
    ensures Apply(p, s, now, op).0.hosts == Apply(p, t, now, op).0.hosts
    ensures Apply(p, s, now, op).0.runtime == Apply(p, t, now, op).0.runtime
  {
    match op {
      case DoRegister(req, pick) => RegisterSeesHosts(p, s, t, now, req, pick);
      case DoHeartbeat(id, token, endpoints) =>
        assert Authorize(p, s, id, token) == Authorize(p, t, id, token);
      case DoPoll(id, token) =>
        assert Authorize(p, s, id, token) == Authorize(p, t, id, token);
      case DoPollResult(rid) =>
      case DoInform(id) =>
    }
  }

  lemma SameTablesAlike(s: State, t: State, s': State, t': State, now: Time)
    requires Alike(s, t, now)
    requires s'.challenges == s.challenges && s'.results == s.results
    requires t'.challenges == t.challenges && t'.results == t.results
    requires s'.hosts == t'.hosts && s'.runtime == t'.runtime
    ensures Alike(s', t', now)
  {
    forall rid ensures LiveAlike(s', t', now, rid) { assert LiveAlike(s, t, now, rid); }
  }

  lemma HostStepAlike(p: Primitives, s: State, t: State, now: Time, op: Op)
    requires Alike(s, t, now) && IsHostStep(op)
    ensures Alike(Apply(p, s, now, op).0, Apply(p, t, now, op).0, now)
  {
    HostStepFrame(p, s, now, op);
    HostStepFrame(p, t, now, op);
    HostStepSeesHosts(p, s, t, now, op);
    SameTablesAlike(s, t, Apply(p, s, now, op).0, Apply(p, t, now, op).0, now);
  }

  lemma ChallengeAlike(s: State, t: State, now: Time, id: Bytes, rid: Bytes, chal: Bytes)
    requires Alike(s, t, now)
    ensures Alike(IssueChallenge(s, now, id, rid, chal).0, IssueChallenge(t, now, id, rid, chal).0, now)
  {
    var s', t' := IssueChallenge(s, now, id, rid, chal).0, IssueChallenge(t, now, id, rid, chal).0;
    forall r ensures LiveAlike(s', t', now, r) { assert LiveAlike(s, t, now, r); }
  }

  /** With its challenge taken out on both sides, a submission that is not
      queued leaves the two states alike. */
  lemma ConsumeAlike(s: State, t: State, now: Time, rid: Bytes)
    requires Alike(s, t, now)
    ensures Alike(s.(challenges := s.challenges - {rid}), t.(challenges := t.challenges - {rid}), now)
    ensures rid !in s.challenges ==> Alike(s, t.(challenges := t.challenges - {rid}), now)
  {
    var s', t' := s.(challenges := s.challenges - {rid}), t.(challenges := t.challenges - {rid});
    forall r ensures LiveAlike(s', t', now, r) { assert LiveAlike(s, t, now, r); }
    if rid !in s.challenges { assert s'.challenges == s.challenges; }
  }

  lemma QueueAlike(s: State, t: State, now: Time, rid: Bytes, slot: ResultSlot, runtime: map<Bytes, HostRuntime>)
    requires Alike(s, t, now)
    ensures Alike(s.(results := s.results[rid := slot], runtime := runtime),
                  t.(results := t.results[rid := slot], runtime := runtime), now)
  {
    var s', t' := s.(results := s.results[rid := slot], runtime := runtime),
                  t.(results := t.results[rid := slot], runtime := runtime);
    forall r ensures LiveAlike(s', t', now, r) { assert LiveAlike(s, t, now, r); }
  }

  lemma SubmitAlike(s: State, t: State, now: Time, id: Bytes, req: SubmitPairRequest)
    requires Alike(s, t, now)
    ensures Alike(SubmitPair(s, now, id, req).0, SubmitPair(t, now, id, req).0, now)
  {
    var rid := req.requestId;
    assert LiveAlike(s, t, now, rid);
    ConsumeAlike(s, t, now, rid);
    if SubmitPair(t, now, id, req).1.Queued? {
      var runtime := SubmitPair(t, now, id, req).0.runtime;
      QueueAlike(s.(challenges := s.challenges - {rid}), t.(challenges := t.challenges - {rid}), now,
                 rid, ResultSlot(None, now), runtime);
    }
  }

  lemma PostAlike(p: Primitives, s: State, t: State, now: Time, id: Bytes, token: Option<Bytes>, res: PairResult)
    requires Alike(s, t, now)
    ensures Alike(PostResult(p, s, id, token, res).0, PostResult(p, t, id, token, res).0, now)
  {
    var s', t' := PostResult(p, s, id, token, res).0, PostResult(p, t, id, token, res).0;
    assert LiveAlike(s, t, now, res.requestId);
    forall rid ensures LiveAlike(s', t', now, rid) { assert LiveAlike(s, t, now, rid); }
  }

  lemma {:induction false} StrippedRunAlike(p: Primitives, h: History)
    requires Valid(p, h)
    ensures Alike(After(p, h), After(p, Strip(h)), Now(h))
  {
    if h.Start? {
    } else {
      StrippedRunAlike(p, h.past);
      var s, t := After(p, h.past), After(p, Strip(h.past));
      LaterStillAlike(s, t, Now(h.past), h.now);
      if h.op.DoGc? {
        CollectAlike(s, t, h.now);
      } else {
        StepAlike(p, s, t, h.now, h.op);
      }
    }
  }

  /** Taking the collections out of a run leaves every log of it as it was. */
  lemma {:induction false} CollectionsLeaveLogs(p: Primitives, h: History, id: Bytes)
    requires Valid(p, h)
    ensures Issues(p, h, id) == Issues(p, Strip(h), id)
    ensures Acceptances(p, h, id) == Acceptances(p, Strip(h), id)
    ensures Deliveries(p, h, id) == Deliveries(p, Strip(h), id)
  {
    if h.Start? {
    } else {
      CollectionsLeaveLogs(p, h.past, id);
      StrippedRunAlike(p, h.past);
      var s, t := After(p, h.past), After(p, Strip(h.past));
      LaterStillAlike(s, t, Now(h.past), h.now);
      if !h.op.DoGc? {
        AnswersAlike(p, s, t, h.now, h.op);
        assert LastResponse(p, Strip(h)) == Apply(p, t, h.now, h.op).1;
      }
    }
  }

  /** Two runs that differ only in when, and whether, collections happen accept
      the same submissions, deliver the same requests in the same order, and
      issue the same challenges; hosts and queues end up equal. */
  lemma GcTransparent(p: Primitives, h: History, k: History, id: Bytes)
    requires Valid(p, h) && Valid(p, k) && Strip(h) == Strip(k)
    ensures Issues(p, h, id) == Issues(p, k, id)
    ensures Acceptances(p, h, id) == Acceptances(p, k, id)
    ensures Deliveries(p, h, id) == Deliveries(p, k, id)
    ensures After(p, h).hosts == After(p, k).hosts && After(p, h).runtime == After(p, k).runtime
  {
    CollectionsLeaveLogs(p, h, id);
    CollectionsLeaveLogs(p, k, id);
    StrippedRunAlike(p, h);
    StrippedRunAlike(p, k);
  }

  // -------------------------------------------------------------------------
  // When a run has forgotten an entry

  /** The challenge under this id was issued, and no submission past the format
      checks has named it since. */
  predicate Unconsumed(p: Primitives, h: History, rid: Bytes) {
    h.Then?
    && if h.op.DoChallenge? && h.op.rid == rid && LastResponse(p, h).Issued? then true
       else if h.op.DoSubmit? && h.op.submission.requestId == rid && WellFormedSubmit(h.op.submission) then false
       else Unconsumed(p, h.past, rid)
  }

  /** When a submission under this id was last accepted. */
  function AcceptedAt(p: Primitives, h: History, rid: Bytes): Option<Time> {
    if h.Start? then None
    else if h.op.DoSubmit? && h.op.submission.requestId == rid && LastResponse(p, h).Queued? then Some(h.now)
    else AcceptedAt(p, h.past, rid)
  }

  /** A collection ran when an entry created then had reached its time to live. */
  predicate Swept(h: History, created: Time, ttl: nat) {
    h.Then? && ((h.op.DoGc? && AsSecs(Since(h.now, created)) >= ttl) || Swept(h.past, created, ttl))
  }

  lemma {:induction false} NotYetSwept(p: Primitives, h: History, created: Time, ttl: nat)
    requires Valid(p, h) && Now(h) <= created && ttl > 0
    ensures !Swept(h, created, ttl)
  {
    if h.Start? {
    } else {
      NotYetSwept(p, h.past, created, ttl);
    }
  }

  lemma {:induction false} NeverSwept(h: History, created: Time, ttl: nat)
    ensures !Swept(Strip(h), created, ttl)
  {
    if h.Start? {
    } else {
      NeverSwept(h.past, created, ttl);
    }
  }

  lemma {:induction false} UnconsumedWasMinted(p: Primitives, h: History, rid: Bytes)
    requires Unconsumed(p, h, rid)
    ensures rid in Minted(p, h)
  {
    if h.op.DoChallenge? && h.op.rid == rid && LastResponse(p, h).Issued? {
    } else {
      UnconsumedWasMinted(p, h.past, rid);
    }
  }

  lemma ChallengeStays(p: Primitives, s: State, now: Time, op: Op, rid: Bytes)
    ensures var (s', r) := Apply(p, s, now, op);
      rid in s'.challenges <==>
        || (op.DoChallenge? && op.rid == rid && r.Issued?)
        || (rid in s.challenges
            && !(op.DoSubmit? && op.submission.requestId == rid && WellFormedSubmit(op.submission))
            && !(op.DoGc? && AsSecs(Since(now, s.challenges[rid].created)) >= CHALLENGE_TTL_SECS))
  {
  }

  /** A challenge is in memory exactly if it is unconsumed and no collection ran
      when it was two minutes old. */
  lemma {:induction false} ChallengesOfRun(p: Primitives, h: History, rid: Bytes)
    requires Valid(p, h)
    ensures Unconsumed(p, h, rid) ==> rid in Minted(p, h)
    ensures rid in After(p, h).challenges <==>
            Unconsumed(p, h, rid) && !Swept(h, Minted(p, h)[rid].created, CHALLENGE_TTL_SECS)
  {
    if h.Start? {
    } else {
      if Unconsumed(p, h, rid) { UnconsumedWasMinted(p, h, rid); }
      ChallengesOfRun(p, h.past, rid);
      ChallengeStays(p, After(p, h.past), h.now, h.op, rid);
      NotYetSwept(p, h.past, h.now, CHALLENGE_TTL_SECS);
      if rid in After(p, h.past).challenges { LiveChallengesWereMinted(p, h.past, rid); }
      if Unconsumed(p, h.past, rid) { MintedGrows(p, h.past, h, rid); }
    }
  }

  /** A result slot is in memory exactly if its request was accepted and no
      collection ran when the slot was five minutes old. */
  lemma {:induction false} SlotsOfRun(p: Primitives, h: History, rid: Bytes)
    requires Valid(p, h)
    ensures rid in After(p, h).results <==>
            AcceptedAt(p, h, rid).Some? && !Swept(h, AcceptedAt(p, h, rid).value, RESULT_TTL_SECS)
    ensures rid in After(p, h).results ==> After(p, h).results[rid].created == AcceptedAt(p, h, rid).value
  {
    if h.Start? {
    } else {
      SlotsOfRun(p, h.past, rid);
      SlotStays(p, After(p, h.past), h.now, h.op, rid);
      NotYetSwept(p, h.past, h.now, RESULT_TTL_SECS);
    }
  }

  lemma SlotStays(p: Primitives, s: State, now: Time, op: Op, rid: Bytes)
    ensures var (s', r) := Apply(p, s, now, op);
      && (op.DoSubmit? && op.submission.requestId == rid && r.Queued? ==>
            rid in s'.results && s'.results[rid].created == now)
      && (!(op.DoSubmit? && op.submission.requestId == rid && r.Queued?) ==>
            && (rid in s'.results <==>
                  rid in s.results && !(op.DoGc? && AsSecs(Since(now, s.results[rid].created)) >= RESULT_TTL_SECS))
            && (rid in s'.results ==> s'.results[rid].created == s.results[rid].created))
  {
  }

  /** The run without its collections is itself a run, and has issued, consumed
      and accepted the same. */
  lemma {:induction false} StrippedIsValid(p: Primitives, h: History, rid: Bytes)
    requires Valid(p, h)
    ensures Valid(p, Strip(h)) && Now(Strip(h)) <= Now(h) && Minted(p, Strip(h)) == Minted(p, h)
    ensures Unconsumed(p, Strip(h), rid) == Unconsumed(p, h, rid)
    ensures AcceptedAt(p, Strip(h), rid) == AcceptedAt(p, h, rid)
  {
    if h.Start? {
    } else {
      StrippedIsValid(p, h.past, rid);
      StrippedRunAlike(p, h.past);
      var s, t := After(p, h.past), After(p, Strip(h.past));
      LaterStillAlike(s, t, Now(h.past), h.now);
      if !h.op.DoGc? {
        AnswersAlike(p, s, t, h.now, h.op);
        assert LastResponse(p, Strip(h)) == Apply(p, t, h.now, h.op).1;
        assert Valid(p, Strip(h));
      }
    }
  }

  /** What a request asks for was in memory without collections and is not with
      them, in terms of the run alone: an unconsumed challenge, or the slot of an
      accepted request, that some collection met past its time. */
  predicate HasForgotten(p: Primitives, h: History, op: Op)
    requires Valid(p, h)
  {
    match op
    case DoSubmit(_, req) =>
      ChallengesOfRun(p, h, req.requestId);
      WellFormedSubmit(req) && Unconsumed(p, h, req.requestId)
      && Swept(h, Minted(p, h)[req.requestId].created, CHALLENGE_TTL_SECS)
    case DoPost(id, token, res) =>
      Authorize(p, After(p, h), id, token).None? && SlotSwept(p, h, res.requestId)
    case DoPollResult(rid) => SlotSwept(p, h, rid)
    case _ => false
  }

  predicate SlotSwept(p: Primitives, h: History, rid: Bytes) {
    AcceptedAt(p, h, rid).Some? && Swept(h, AcceptedAt(p, h, rid).value, RESULT_TTL_SECS)
  }

  lemma SlotForgotten(p: Primitives, h: History, rid: Bytes)
    requires Valid(p, h)
    ensures SlotSwept(p, h, rid) <==> rid in After(p, Strip(h)).results && rid !in After(p, h).results
  {
    StrippedIsValid(p, h, rid);
    SlotsOfRun(p, h, rid);
    SlotsOfRun(p, Strip(h), rid);
    if AcceptedAt(p, h, rid).Some? { NeverSwept(h, AcceptedAt(p, h, rid).value, RESULT_TTL_SECS); }
  }

  lemma ChallengeForgotten(p: Primitives, h: History, rid: Bytes)
    requires Valid(p, h)
    ensures Unconsumed(p, h, rid) ==> rid in Minted(p, h)
    ensures Unconsumed(p, h, rid) && Swept(h, Minted(p, h)[rid].created, CHALLENGE_TTL_SECS) <==>
            rid in After(p, Strip(h)).challenges && rid !in After(p, h).challenges
  {
    StrippedIsValid(p, h, rid);
    ChallengesOfRun(p, h, rid);
    ChallengesOfRun(p, Strip(h), rid);
    if Unconsumed(p, h, rid) { NeverSwept(h, Minted(p, h)[rid].created, CHALLENGE_TTL_SECS); }
  }

  lemma ForgottenExactly(p: Primitives, h: History, op: Op)
    requires Valid(p, h)
    ensures Forgotten(p, After(p, h), After(p, Strip(h)), op) <==> HasForgotten(p, h, op)
  {
    StrippedRunAlike(p, h);
    match op {
      case DoSubmit(_, req) => ChallengeForgotten(p, h, req.requestId);
      case DoPost(id, token, res) =>
        SlotForgotten(p, h, res.requestId);
        assert Authorize(p, After(p, h), id, token) == Authorize(p, After(p, Strip(h)), id, token);
      case DoPollResult(rid) => SlotForgotten(p, h, rid);
      case _ =>
    }
  }

  /** The next request is answered differently in two such runs exactly when one
      of them has forgotten what it asks for and the other has not, which is past
      its time then; a refusal for rate and an acceptance never differ, and a
      submission answered differently is refused by both. */
  lemma SameAnswersWhateverTheCollections(p: Primitives, h: History, k: History)
    requires Valid(p, h) && Valid(p, k) && Strip(h) == Strip(k)
    requires h.Then? && k.Then? && !h.op.DoGc? && !k.op.DoGc?
    ensures var r, r' := LastResponse(p, h), LastResponse(p, k);
      && (r == r' <==> (HasForgotten(p, h.past, h.op) <==> HasForgotten(p, k.past, h.op)))
      && (r != r' ==> MeetsStale(After(p, Strip(h.past)), h.now, h.op))
      && (r == Refused(TooManyRequests) <==> r' == Refused(TooManyRequests))
      && (r.Queued? <==> r'.Queued?)
      && (h.op.DoSubmit? && r != r' ==> r.Refused? && r'.Refused?)
  {
    StrippedRunAlike(p, h.past);
    StrippedRunAlike(p, k.past);
    var t := After(p, Strip(h.past));
    LaterStillAlike(After(p, h.past), t, Now(h.past), h.now);
    LaterStillAlike(After(p, k.past), t, Now(k.past), k.now);
    AnswersAlike(p, After(p, h.past), t, h.now, h.op);
    AnswersAlike(p, After(p, k.past), t, k.now, k.op);
    ForgottenExactly(p, h.past, h.op);
    ForgottenExactly(p, k.past, h.op);
  }

  /** A run that has issued one challenge, at the beginning of time. */
  lemma OneIssued(p: Primitives, id: Bytes, rid: Bytes) returns (h: History)
    requires IsValidId(id) && |rid| == 1
    ensures Valid(p, h) && Now(h) == 0 && Strip(h) == h
    ensures After(p, h).challenges == map[rid := Challenge(id, [], 0)]
  {
    var token: Bytes := seq(32, i => 48);
    var registered := Then(Start, 0, DoRegister(RegisterRequest(None, token, rid, [], [], [], []), id));
    assert LastResponse(p, registered) == Registered(id);
    assert Valid(p, Start) && Strip(registered) == registered;
    assert Minted(p, registered) == map[];
    h := Then(registered, 0, DoChallenge(id, rid, []));
    assert LastResponse(p, h) == Issued(rid, []);
  }

  /** Runs whose answers differ exist: a submission two minutes after its challenge
      is told that the challenge expired, or that it is unknown if a collection
      came first. */
  lemma RefusalCodeMayDiffer(p: Primitives) returns (h: History, k: History)
    ensures Valid(p, h) && Valid(p, k) && Strip(h) == Strip(k) && h.Then? && k.Then? && h.op == k.op
    ensures LastResponse(p, h) == Refused(NotFound) && LastResponse(p, k) == Refused(Gone)
  {
    var id: Bytes, rid: Bytes := seq(9, i => 49), [48];
    var response: Bytes := seq(64, i => 48);
    var late := CHALLENGE_TTL_SECS * SECOND;
    var issued := OneIssued(p, id, rid);
    var op := DoSubmit(id, SubmitPairRequest(rid, response, rid, None, [], false));
    k := Then(issued, late, op);
    var collected := Then(issued, late, DoGc);
    assert Strip(collected) == issued && Valid(p, collected);
    assert rid !in After(p, collected).challenges;
    h := Then(collected, late, op);
  }
}
