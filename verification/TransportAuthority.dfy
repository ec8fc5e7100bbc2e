/** Who may have sent what is stored: the checks of a submission hold of its envelope in every later state. */
module TransportAuthority {
  import opened Common
  import opened TransportTables
  import opened TransportRuns

  /** The sender owned the sending device and is in the conversation, and the payload fits. */
  ghost predicate Authorized(t: Tables, s: Submission) {
    && s.senderDevice in t.devices && t.devices[s.senderDevice].userId == s.senderUser
    && (s.conversation, s.senderUser) in t.members && |s.payload| <= 65536
  }

  /** A submission is admitted exactly when its device is the sender's and not revoked, the sender is in the
      conversation and the payload fits; the first failing check names the refusal. */
  lemma AuthorizeIff(t: Tables, s: Submission)
    ensures var owns := s.senderDevice in t.devices && t.devices[s.senderDevice].userId == s.senderUser
                        && !t.devices[s.senderDevice].isRevoked;
            var member := (s.conversation, s.senderUser) in t.members;
            && (Authorize(t, s) == Some(SenderDeviceInvalid) <==> !owns)
            && (Authorize(t, s) == Some(NotAMember) <==> owns && !member)
            && (Authorize(t, s) == Some(PayloadTooLarge) <==> owns && member && |s.payload| > 65536)
            && (Authorize(t, s) == None <==> owns && member && |s.payload| <= 65536)
  {}

  ghost predicate FlightAuthorized(w: World, req: Uuid)
    requires req in w.flights
  {
    Authorized(w.db, w.flights[req].sub)
  }

  ghost predicate EnvelopeAuthorized(w: World, e: Uuid)
    requires e in w.db.envelopes
  {
    Authorized(w.db, w.db.envelopes[e].sent)
  }

  ghost predicate AllAuthorized(w: World) {
    && (forall req {:trigger FlightAuthorized(w, req)} :: req in w.flights ==> FlightAuthorized(w, req))
    && (forall e {:trigger EnvelopeAuthorized(w, e)} :: e in w.db.envelopes ==> EnvelopeAuthorized(w, e))
  }

  /** Acknowledgements, expiry and workers touch none of this. */
  ghost predicate SameRest(w: World, w': World) {
    w'.flights == w.flights && w'.db.envelopes == w.db.envelopes
    && w'.db.devices == w.db.devices && w'.db.members == w.db.members
  }

  lemma DeliverKeepsRest(w: World, s: DeliveryStep)
    ensures SameRest(w, NextDeliver(w, s))
  {}

  lemma WorkKeepsRest(w: World, s: WorkerStep)
    ensures SameRest(w, NextWork(w, s))
  {
    if s.RunsPass? {
      WriteAllGrows(w.db, s.rows, w.clock);
    }
  }

  /** Members are never removed, and a revoked device stays revoked. */
  ghost predicate OnlyAdds(t: Tables, t': Tables) {
    && t.members <= t'.members
    && forall d :: d in t.devices && t.devices[d].isRevoked ==> d in t'.devices && t'.devices[d].isRevoked
  }

  lemma EnvOnlyAdds(w: World, s: EnvStep)
    ensures OnlyAdds(w.db, NextEnv(w, s).db)
    ensures NextEnv(w, s).flights == w.flights && NextEnv(w, s).db.envelopes == w.db.envelopes
  {}

  /** Every submission in flight, and every envelope, was there before, or comes from an admitted request or a
      flight. */
  ghost predicate NewcomersKnown(w: World, w': World, s: Step) {
    && (forall req :: req in w'.flights ==>
          || (req in w.flights && w'.flights[req].sub == w.flights[req].sub)
          || (&& s.Submit? && s.submit.Submits? && w'.flights[req].sub == s.submit.sub
              && Authorize(w.db, s.submit.sub).None?))
    && (forall e :: e in w'.db.envelopes ==>
          || (e in w.db.envelopes && w'.db.envelopes[e] == w.db.envelopes[e])
          || (exists req :: req in w.flights && w'.db.envelopes[e].sent == w.flights[req].sub))
  }

  lemma SameRestAdds(w: World, w': World, s: Step)
    requires SameRest(w, w')
    ensures OnlyAdds(w.db, w'.db) && NewcomersKnown(w, w', s)
  {}

  lemma SubmitOnlyAdds(sha: Sha, w: World, s: SubmitStep)
    ensures OnlyAdds(w.db, NextSubmit(sha, w, s).db)
  {}

  lemma NextOnlyAdds(sha: Sha, w: World, s: Step)
    ensures OnlyAdds(w.db, Next(sha, w, s).db)
  {
    match s
    case Env(e) => EnvOnlyAdds(w, e);
    case Submit(e) => SubmitOnlyAdds(sha, w, e);
    case Deliver(e) => DeliverKeepsRest(w, e); SameRestAdds(w, NextDeliver(w, e), s);
    case Work(e) => WorkKeepsRest(w, e); SameRestAdds(w, NextWork(w, e), s);
  }

  lemma SubmitNewcomers(sha: Sha, w: World, s: SubmitStep)
    ensures NewcomersKnown(w, NextSubmit(sha, w, s), Submit(s))
  {}

  lemma NextNewcomers(sha: Sha, w: World, s: Step)
    ensures NewcomersKnown(w, Next(sha, w, s), s)
  {
    match s
    case Env(e) => EnvOnlyAdds(w, e);
    case Submit(e) => SubmitNewcomers(sha, w, e);
    case Deliver(e) => DeliverKeepsRest(w, e); SameRestAdds(w, NextDeliver(w, e), s);
    case Work(e) => WorkKeepsRest(w, e); SameRestAdds(w, NextWork(w, e), s);
  }

  lemma NextKeepsAuthorized(sha: Sha, w: World, s: Step)
    requires AllAuthorized(w)
    ensures AllAuthorized(Next(sha, w, s))
  {
    var w' := Next(sha, w, s);
    NextGrows(sha, w, s);
    NextOnlyAdds(sha, w, s);
    NextNewcomers(sha, w, s);
    forall req: Uuid | req in w'.flights ensures FlightAuthorized(w', req) {
      if s.Submit? && s.submit.Submits? { AuthorizeIff(w.db, s.submit.sub); }
      assert req in w.flights ==> FlightAuthorized(w, req);
    }
    forall e: Uuid | e in w'.db.envelopes ensures EnvelopeAuthorized(w', e) {
      if e in w.db.envelopes {
        assert EnvelopeAuthorized(w, e);
      } else {
        var req :| req in w.flights && w'.db.envelopes[e].sent == w.flights[req].sub;
        assert FlightAuthorized(w, req);
      }
    }
  }

  lemma {:induction false} RunKeepsAuthorized(sha: Sha, w: World, steps: seq<Step>)
    requires AllAuthorized(w)
    ensures AllAuthorized(Run(sha, w, steps))
    decreases |steps|
  {
    if steps != [] {
      NextKeepsAuthorized(sha, w, steps[0]);
      RunKeepsAuthorized(sha, Next(sha, w, steps[0]), steps[1..]);
    }
  }

  /** In every reachable state every stored envelope was sent from a device of its sender, who is in its conversation,
      and its payload has at most 65536 bytes. */
  lemma EnvelopesAreAuthorized(sha: Sha, workers: set<Uuid>, now: Time, steps: seq<Step>, envelope: Uuid)
    requires envelope in Run(sha, Start(workers, now), steps).db.envelopes
    ensures var t := Run(sha, Start(workers, now), steps).db; var sent := t.envelopes[envelope].sent;
            && sent.senderDevice in t.devices && t.devices[sent.senderDevice].userId == sent.senderUser
            && (sent.conversation, sent.senderUser) in t.members && |sent.payload| <= 65536
  {
    RunKeepsAuthorized(sha, Start(workers, now), steps);
    assert EnvelopeAuthorized(Run(sha, Start(workers, now), steps), envelope);
  }

  // ---- Revoked senders ----

  /** The device is revoked and none of its submissions is past its check. */
  ghost predicate Silenced(w: World, device: Uuid) {
    && device in w.db.devices && w.db.devices[device].isRevoked
    && forall req :: req in w.flights ==> w.flights[req].sub.senderDevice != device
  }

  /** A device revoked before its check stores nothing: from then on no envelope of it is added, in any run. */
  lemma {:induction false} RevokedSenderStoresNothing(sha: Sha, w: World, steps: seq<Step>, device: Uuid,
                                                      envelope: Uuid)
    requires Silenced(w, device)
    requires var end := Run(sha, w, steps).db;
             envelope in end.envelopes && end.envelopes[envelope].sent.senderDevice == device
    ensures Silenced(Run(sha, w, steps), device) && envelope in w.db.envelopes
    decreases |steps|
  {
    if steps != [] {
      var s := steps[0];
      NextNewcomers(sha, w, s);
      NextOnlyAdds(sha, w, s);
      RunGrows(sha, Next(sha, w, s), steps[1..]);
      if s.Submit? && s.submit.Submits? { AuthorizeIff(w.db, s.submit.sub); }
      RevokedSenderStoresNothing(sha, Next(sha, w, s), steps[1..], device, envelope);
    }
  }
}
