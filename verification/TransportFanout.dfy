/** Who an accepted envelope is for: the devices that were active when its submission resolved them, and nobody else. */
module TransportFanout {
  import opened Common
  import opened TransportTables
  import opened TransportRuns
  import opened TransportSafety

  lemma NextKeepsFanout(sha: Sha, w: World, s: Step, e: Uuid)
    requires e in w.db.envelopes && e in w.fanout
    ensures var w' := Next(sha, w, s);
            && e in w'.db.envelopes && w'.db.envelopes[e] == w.db.envelopes[e]
            && e in w'.fanout && w'.fanout[e] == w.fanout[e]
  {
    NextGrows(sha, w, s);
    if !(s.Submit? && s.submit.Commits?) {
      OtherStepsKeepRows(sha, w, s);
    }
  }

  lemma {:induction false} RunKeepsFanout(sha: Sha, w: World, steps: seq<Step>, e: Uuid)
    requires e in w.db.envelopes && e in w.fanout
    ensures var w' := Run(sha, w, steps);
            && e in w'.db.envelopes && w'.db.envelopes[e] == w.db.envelopes[e]
            && e in w'.fanout && w'.fanout[e] == w.fanout[e]
    decreases |steps|
  {
    if steps != [] {
      NextKeepsFanout(sha, w, steps[0], e);
      RunKeepsFanout(sha, Next(sha, w, steps[0]), steps[1..], e);
    }
  }

  ghost predicate AnyRecord(t: Tables, e: Uuid) {
    exists i :: i in t.records && t.records[i].envelopeId == e
  }

  lemma RecordsAreFanout(w: World, e: Uuid)
    requires DeliveryInv(w) && e in w.db.envelopes
    ensures e in w.fanout
    ensures forall d: Uuid :: HasRecord(w.db.records, e, d) <==> d in w.fanout[e]
    ensures AnyRecord(w.db, e) <==> w.fanout[e] != {}
  {
    assert FanOk(w, e);
    forall d: Uuid | HasRecord(w.db.records, e, d) ensures d in w.fanout[e] {
      var i :| IsRecord(w.db.records, i, e, d);
      assert RecordOk(w, i);
    }
    if AnyRecord(w.db, e) {
      var i :| i in w.db.records && w.db.records[i].envelopeId == e;
      assert RecordOk(w, i);
    }
    if d :| d in w.fanout[e] {
      assert HasRecord(w.db.records, e, d);
      var i :| IsRecord(w.db.records, i, e, d);
      assert i in w.db.records;
    }
  }

  /** A submission that has missed its lookup and may resolve its recipient to these devices. */
  ghost predicate MayResolve(w: World, req: Uuid, devices: seq<Uuid>) {
    && req in w.flights && w.flights[req].Missed?
    && Lists(devices, ActiveDevices(w.db, w.flights[req].sub.recipientUser))
  }

  ghost predicate CommitsHere(sha: Sha, w: World, req: Uuid, ids: CommitIds, f: Flight) {
    && MayCommit(w, req, ids) && w.flights[req] == f
    && Commit(w.db, f.sub, sha(f.sub.payload), f.devices, ids, w.clock).Some?
  }

  /** From any reachable state, through any interleaving: the envelope a submission commits has a record for exactly
      the devices that were active when it resolved its recipient, in every later state. With none it has no record
      and is never listed to anyone, whatever devices the recipient adds afterwards. */
  lemma RecordsAreResolvedDevices(sha: Sha, w: World, req: Uuid, devices: seq<Uuid>, between: seq<Step>, ids: CommitIds,
                                  later: seq<Step>)
    requires DeliveryInv(w) && MayResolve(w, req, devices)
    requires var w1 := Next(sha, w, Submit(Resolves(req, devices)));
             CommitsHere(sha, Run(sha, w1, between), req, ids, w1.flights[req])
    ensures var active := ActiveDevices(w.db, w.flights[req].sub.recipientUser);
            var w2 := Run(sha, Next(sha, w, Submit(Resolves(req, devices))), between);
            var end := Run(sha, Next(sha, w2, Submit(Commits(req, ids))), later);
            && ids.envelope in end.db.envelopes && end.db.envelopes[ids.envelope].sent == w.flights[req].sub
            && (forall d: Uuid :: HasRecord(end.db.records, ids.envelope, d) <==>
                  d in w.db.devices && w.db.devices[d].userId == w.flights[req].sub.recipientUser
                  && !w.db.devices[d].isRevoked)
            && (AnyRecord(end.db, ids.envelope) <==> active != {})
            && (active == {} ==> forall user, d :: !ListedPending(end.db, user, d, ids.envelope, end.clock))
  {
    var active := ActiveDevices(w.db, w.flights[req].sub.recipientUser);
    var w1 := Next(sha, w, Submit(Resolves(req, devices)));
    var w2 := Run(sha, w1, between);
    var w3 := Next(sha, w2, Submit(Commits(req, ids)));
    var end := Run(sha, w3, later);
    NextKeepsDelivery(sha, w, Submit(Resolves(req, devices)));
    RunKeepsDelivery(sha, w1, between);
    NextKeepsDelivery(sha, w2, Submit(Commits(req, ids)));
    RunKeepsDelivery(sha, w3, later);
    assert w3.fanout[ids.envelope] == active;
    RunKeepsFanout(sha, w3, later, ids.envelope);
    RecordsAreFanout(end, ids.envelope);
    forall user: Uuid, d: Uuid | ListedPending(end.db, user, d, ids.envelope, end.clock) ensures active != {} {
      assert HasRecord(end.db.records, ids.envelope, d);
    }
  }
}
