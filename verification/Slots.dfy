/** Result slots and host records over whole runs. */
module Slots {
  import opened ByteStrings
  import opened Proto
  import opened Rendezvous
  import opened Histories

  // -------------------------------------------------------------------------
  // Result slots

  lemma SlotFrame(p: Primitives, s: State, now: Time, op: Op, rid: Bytes)
    ensures var (s', r) := Apply(p, s, now, op);
      && (rid in s'.results && rid !in s.results ==>
            op.DoSubmit? && op.submission.requestId == rid && rid in s.challenges
            && rid !in s'.challenges && s'.results[rid] == ResultSlot(None, now))
      && (rid in s.results && !(op.DoSubmit? && op.submission.requestId == rid && rid in s.challenges) ==>
            && (rid in s'.results ==>
                  s'.results[rid] == if op.DoPost? && op.res.requestId == rid && r.Posted?
                                     then s.results[rid].(result := Some(op.res)) else s.results[rid])
            && (rid !in s'.results ==>
                  op.DoGc? && AsSecs(Since(now, s.results[rid].created)) >= RESULT_TTL_SECS))
      && (op.DoPost? && op.res.requestId == rid && r.Posted? ==> rid in s.results)
  {
  }

  /** A slot, or a result once accepted, belongs to a request id whose challenge
      is used up. */
  lemma {:induction false} SlotsAreOfUsedChallenges(p: Primitives, h: History, rid: Bytes)
    requires Valid(p, h)
    requires rid in After(p, h).results || LastPosted(p, h, rid).Some?
    ensures rid in Minted(p, h) && rid !in After(p, h).challenges
  {
    SlotFrame(p, After(p, h.past), h.now, h.op, rid);
    if rid in After(p, h.past).results || LastPosted(p, h.past, rid).Some? {
      SlotsAreOfUsedChallenges(p, h.past, rid);
      MintedGrows(p, h.past, h, rid);
      ChallengeFrame(p, After(p, h.past), h.now, h.op, rid);
    } else {
      LiveChallengesWereMinted(p, h.past, rid);
    }
  }

  /** A slot always holds the last result posted for the id it is filed under. */
  lemma {:induction false} SlotHoldsLastPosted(p: Primitives, h: History, rid: Bytes)
    requires Valid(p, h) && rid in After(p, h).results
    ensures After(p, h).results[rid].result == LastPosted(p, h, rid)
    ensures LastPosted(p, h, rid).Some? ==> LastPosted(p, h, rid).value.requestId == rid
  {
    var s := After(p, h.past);
    SlotFrame(p, s, h.now, h.op, rid);
    if rid in s.results || LastPosted(p, h.past, rid).Some? {
      SlotsAreOfUsedChallenges(p, h.past, rid);
    }
    if rid in s.results { SlotHoldsLastPosted(p, h.past, rid); }
  }

  /** The slot of an accepted request is there until it is 300 s old, whatever
      anybody does in between. */
  lemma {:induction false} SlotLives(p: Primitives, h: History, id: Bytes, i: nat)
    requires Valid(p, h) && i < |Acceptances(p, h, id)|
    requires AsSecs(Since(Now(h), Acceptances(p, h, id)[i].at)) < RESULT_TTL_SECS
    ensures var a := Acceptances(p, h, id)[i];
      a.what.requestId in After(p, h).results
      && After(p, h).results[a.what.requestId].created == a.at
  {
    var a := Acceptances(p, h, id)[i];
    if i == |Acceptances(p, h.past, id)| {
    } else {
      SlotLives(p, h.past, id, i);
      AcceptanceIsBound(p, h.past, id, i);
      SlotFrame(p, After(p, h.past), h.now, h.op, a.what.requestId);
    }
  }

  /** What a client that polls an accepted request is told: the last result
      posted for it, as long as the request is under 300 s old. */
  lemma PollReturnsLastPosted(p: Primitives, h: History, id: Bytes, i: nat)
    requires Valid(p, h) && h.Then? && i < |Acceptances(p, h, id)|
    requires h.op == DoPollResult(Acceptances(p, h, id)[i].what.requestId)
    requires AsSecs(Since(h.now, Acceptances(p, h, id)[i].at)) < RESULT_TTL_SECS
    ensures LastResponse(p, h) == Answer(LastPosted(p, h, h.op.rid))
    ensures LastPosted(p, h, h.op.rid).Some? ==> LastPosted(p, h, h.op.rid).value.requestId == h.op.rid
  {
    SlotLives(p, h, id, i);
    SlotHoldsLastPosted(p, h, h.op.rid);
  }

  /** A result once told is never taken back to "none yet". */
  lemma {:induction false} ResultsDoNotRevert(p: Primitives, early: History, late: History, rid: Bytes)
    requires Valid(p, late) && IsPrefix(early, late)
    requires early.Then? && early.op == DoPollResult(rid)
    requires LastResponse(p, early).Answer? && LastResponse(p, early).result.Some?
    requires late.Then? && late.op == DoPollResult(rid)
    ensures LastResponse(p, late) != Answer(None)
  {
    PrefixIsValid(p, early, late);
    SlotHoldsLastPosted(p, early.past, rid);
    PostedStays(p, early, late, rid);
    if rid in After(p, late.past).results { SlotHoldsLastPosted(p, late.past, rid); }
  }

  lemma {:induction false} PostedStays(p: Primitives, early: History, late: History, rid: Bytes)
    requires IsPrefix(early, late) && LastPosted(p, early, rid).Some?
    ensures LastPosted(p, late, rid).Some?
  {
    if early == late {
    } else {
      PostedStays(p, early, late.past, rid);
    }
  }

  // -------------------------------------------------------------------------
  // Ownership of host ids

  /** The fingerprint of the token an id was first registered with. */
  function Owner(p: Primitives, h: History, id: Bytes): Option<Bytes> {
    match h
    case Start => None
    case Then(past, now, op) =>
      if Owner(p, past, id).None? && op.DoRegister? && LastResponse(p, h) == Registered(id)
      then Some(TokenFingerprint(p, op.register.token))
      else Owner(p, past, id)
  }

  ghost predicate WellFormedRecord(id: Bytes, rec: HostRecord) {
    && IsValidId(id) && rec.id == id
    && 1 <= |rec.name| <= 64
    && |rec.endpoints| <= 16
  }

  lemma RecordFrame(p: Primitives, s: State, now: Time, op: Op, id: Bytes)
    requires s.runtime.Keys == s.hosts.Keys
    ensures var (s', r) := Apply(p, s, now, op);
      && s'.runtime.Keys == s'.hosts.Keys
      && (id in s.hosts ==> id in s'.hosts)
      && (id in s'.hosts && r != Registered(id) ==>
            id in s.hosts && s'.hosts[id].tokenFp == s.hosts[id].tokenFp)
  {
  }

  lemma RecordStep(p: Primitives, s: State, now: Time, op: Op, id: Bytes)
    requires id in s.hosts ==> WellFormedRecord(id, s.hosts[id]) && s.hosts[id].lastSeen.Some?
    requires op.DoRegister? ==> IsValidId(op.pick) && op.pick !in s.hosts
    ensures var (s', r) := Apply(p, s, now, op);
      && (id in s'.hosts ==> WellFormedRecord(id, s'.hosts[id]) && s'.hosts[id].lastSeen.Some?)
      && (op.DoRegister? && r == Registered(id) ==>
            && id in s'.hosts && s'.hosts[id].tokenFp == TokenFingerprint(p, op.register.token)
            && (id in s.hosts ==> s.hosts[id].tokenFp == TokenFingerprint(p, op.register.token)))
  {
    if op.DoRegister? && op.register.id.Some? && id in s.hosts {
      CtEqIsEquality(s.hosts[id].tokenFp, TokenFingerprint(p, op.register.token));
    }
  }

  /** Every record is well formed and filed under its own id, the runtime map has
      the same keys, and the record's token is the first one registered. */
  lemma {:induction false} RecordsAreSound(p: Primitives, h: History, id: Bytes)
    requires Valid(p, h)
    ensures var s := After(p, h);
      && s.runtime.Keys == s.hosts.Keys
      && (id in s.hosts <==> Owner(p, h, id).Some?)
      && (id in s.hosts ==> WellFormedRecord(id, s.hosts[id]) && s.hosts[id].lastSeen.Some?
                            && s.hosts[id].tokenFp == Owner(p, h, id).value)
  {
    if h.Start? {
    } else {
      RecordsAreSound(p, h.past, id);
      RecordFrame(p, After(p, h.past), h.now, h.op, id);
      RecordStep(p, After(p, h.past), h.now, h.op, id);
    }
  }

  lemma {:induction false} FirstOwnerStays(p: Primitives, early: History, late: History, id: Bytes)
    requires IsPrefix(early, late) && Owner(p, early, id).Some?
    ensures Owner(p, late, id) == Owner(p, early, id)
  {
    if early == late {
    } else {
      FirstOwnerStays(p, early, late.past, id);
    }
  }

  /** Once registered, an id stays, and so does the token it answers to. */
  lemma OwnerNeverChanges(p: Primitives, early: History, late: History, id: Bytes)
    requires Valid(p, late) && IsPrefix(early, late)
    requires id in After(p, early).hosts
    ensures id in After(p, late).hosts
    ensures After(p, late).hosts[id].tokenFp == After(p, early).hosts[id].tokenFp
  {
    PrefixIsValid(p, early, late);
    RecordsAreSound(p, early, id);
    FirstOwnerStays(p, early, late, id);
    RecordsAreSound(p, late, id);
  }

  /** At every moment of a run, a token opens exactly the ids first registered
      with a token of the same fingerprint, and no others. */
  lemma AuthorizedExactlyForOwner(p: Primitives, h: History, id: Bytes, token: Bytes)
    requires Valid(p, h)
    ensures Authorize(p, After(p, h), id, Some(token)) ==
      match Owner(p, h, id)
      case None => Some(NotFound)
      case Some(fp) => if TokenFingerprint(p, token) == fp then None else Some(Forbidden)
  {
    RecordsAreSound(p, h, id);
    var s := After(p, h);
    if id in s.hosts { CtEqIsEquality(s.hosts[id].tokenFp, TokenFingerprint(p, token)); }
  }

  /** A poller that got past its first look is never refused afterwards. */
  lemma PollerStaysAuthorized(p: Primitives, early: History, late: History)
    requires Valid(p, late) && IsPrefix(early, late)
    requires early.Then? && early.op.DoPoll? && LastResponse(p, early).Delivered?
    requires late.Then? && late.op.DoPoll? && late.op.id == early.op.id && late.op.token == early.op.token
    ensures LastResponse(p, late).Delivered?
  {
    if early != late {
      PrefixIsValid(p, early, late);
      AuthorizedExactlyForOwner(p, early.past, early.op.id, early.op.token.value);
      assert IsPrefix(early.past, late.past) by { PrefixOfPast(early, late); }
      FirstOwnerStays(p, early.past, late.past, early.op.id);
      AuthorizedExactlyForOwner(p, late.past, early.op.id, early.op.token.value);
    }
  }

  lemma {:induction false} PrefixOfPast(early: History, late: History)
    requires IsPrefix(early, late) && early.Then? && late.Then?
    ensures IsPrefix(early.past, late.past)
  {
    if early == late {
    } else {
      if early == late.past {
        assert IsPrefix(early.past, early.past);
      } else {
        PrefixOfPast(early, late.past);
      }
    }
  }
}
