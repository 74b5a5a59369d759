/**
 From the code a user accepts to the session the center spends: the tags of `PairingAgreement`
 and of `PairingOrigins` on one run, joined at the certificate the phone sends on pairing.
 */
module PairingEndToEnd {
  import opened Protocol
  import opened Sessions
  import opened PairingSystem
  import Agreement = PairingAgreement
  import Origins = PairingOrigins
  import Safety = PairingSafety
  import PM = PairingMachine

  /** Both tell of the same phone pairings, under the same numbers. */
  ghost predicate Aligned(g: Agreement.Traced, o: Origins.Traced) {
    && Agreement.Parallel(g) && Origins.Parallel(o)
    && g.sys == o.sys && g.sent == o.sent && g.stored.Keys == o.paired.Keys
    && forall n | n in o.paired :: g.stored[n].fingerprint == o.paired[n]
  }

  lemma ReceiveAligned(g: Agreement.Traced, o: Origins.Traced, step: Step)
    requires Aligned(g, o) && Safety.Provenance(o.sys) && step.PhoneReceive? && Enabled(o.sys, step)
    ensures Aligned(Agreement.Trace(g, step), Origins.Trace(o, step))
  {
    assert Safety.KnownDown(o.sys.log.issued, o.sys.down[0]);
    Origins.CertificateSent(o.sys.phone, Envelope(o.sys.centerId, o.sys.down[0]), step.now, step.key);
  }

  lemma StepAligned(g: Agreement.Traced, o: Origins.Traced, step: Step)
    requires Aligned(g, o) && Safety.Provenance(o.sys)
    ensures Aligned(Agreement.Trace(g, step), Origins.Trace(o, step))
  {
    if step.PhoneReceive? && Enabled(o.sys, step) {
      ReceiveAligned(g, o, step);
    }
  }

  lemma {:induction false} RunsAligned(g: Agreement.Traced, o: Origins.Traced, steps: seq<Step>)
    requires Aligned(g, o) && Safety.Provenance(o.sys)
    ensures Aligned(Agreement.TraceAll(g, steps), Origins.TraceAll(o, steps))
    decreases |steps|
  {
    if steps != [] {
      StepAligned(g, o, steps[0]);
      Safety.NextKeepsProvenance(o.sys, steps[0]);
      RunsAligned(Agreement.Trace(g, steps[0]), Origins.Trace(o, steps[0]), steps[1..]);
    }
  }

  lemma IssuedAreMade(g: Agreement.Traced, step: Step)
    requires Agreement.Parallel(g) && g.made.Values == g.sys.log.issued && Agreement.NewKit(g, step)
    ensures Agreement.Trace(g, step).made.Values == Next(g.sys, step).log.issued
  {
    if step.PairStartSend? && step.room && Enabled(g.sys, step) {
      var m, key, fp := g.made, step.kit.ephemeral, step.kit.identity.fingerprint;
      assert Agreement.Trace(g, step).made == m[key := fp];
      forall v | v in m.Values
        ensures v in m[key := fp].Values
      {
        var k :| k in m && m[k] == v;
        assert m[key := fp][k] == v;
      }
      assert m[key := fp][key] == fp;
      assert m[key := fp].Values == m.Values + {fp};
    }
  }

  /** New keys and identities are in particular new identities. */
  lemma {:induction false} NewInBoth(g: Agreement.Traced, steps: seq<Step>)
    requires Agreement.Parallel(g) && g.made.Values == g.sys.log.issued && Agreement.MintsNew(g, steps)
    ensures Origins.MintsNew(g.sys, steps)
    decreases |steps|
  {
    if steps != [] {
      IssuedAreMade(g, steps[0]);
      NewInBoth(Agreement.Trace(g, steps[0]), steps[1..]);
    }
  }

  /**
   In every run whose keys and identities are new, for every pairing of the center on a
   certificate with which the phone paired: the phone stored, and the center spent, the session
   whose code the user accepted if and only if no `pair_start` put another session in place,
   neither between the accepted one and the center's answer to the acceptance, nor between that
   answer and the taking of the phone's certificate.
   */
  lemma AcceptedSessionIsPairedIff(
      centerId: Uuid, deviceId: Uuid, stored: Certificate, steps: seq<Step>, r: nat)
    requires Agreement.MintsNew(Agreement.StartTraced(centerId, deviceId, stored), steps)
    ensures var g := Agreement.TraceAll(Agreement.StartTraced(centerId, deviceId, stored), steps);
      var o := Origins.TraceAll(Origins.StartTraced(centerId, deviceId, stored), steps);
      && g.sys == o.sys == Run(Start(centerId, deviceId, stored), steps)
      && (r < |o.pairings| && o.pairings[r].tag.serial in o.paired ==>
            var n := o.pairings[r].tag.serial;
            && n in g.stored
            && var grant := g.stored[n].grant;
               && grant.accepted in g.made
               && (o.paired[n] == g.made[grant.accepted] && o.pairings[r].consumed == g.made[grant.accepted] <==>
                     Agreement.NoneSince(grant.placed, grant.accepted) && !o.pairings[r].tag.crossed))
  {
    var g0, o0 := Agreement.StartTraced(centerId, deviceId, stored), Origins.StartTraced(centerId, deviceId, stored);
    RunsAligned(g0, o0, steps);
    NewInBoth(g0, steps);
    Origins.PairingSpendsItsSessionIff(centerId, deviceId, stored, steps, r);
    var o := Origins.TraceAll(o0, steps);
    if r < |o.pairings| {
      Agreement.PhoneStoresAcceptedSessionIff(centerId, deviceId, stored, steps, o.pairings[r].tag.serial);
    }
  }
}
