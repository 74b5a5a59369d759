/** The phone's heartbeat: consecutive misses are counted, and three force a reconnect. */
module Heartbeat {
  import opened Wrappers
  import opened Protocol

  const MISSED_BEFORE_RECONNECT := 3

  /** One round: the id sent, when, whether the queue took it, and the ids echoed before the timeout. */
  datatype Beat = Beat(id: Uuid, at: int, queued: bool, echoes: seq<Uuid>) {
    predicate Missed() {
      !queued || id !in echoes
    }
  }

  /** Lengths of the maximal runs of misses, oldest first; zero between two echoes. */
  function MissRuns(beats: seq<Beat>): (runs: seq<nat>)
    ensures |runs| >= 1
  {
    if beats == [] then [0]
    else
      var runs := MissRuns(beats[..|beats| - 1]);
      if beats[|beats| - 1].Missed() then runs[..|runs| - 1] + [runs[|runs| - 1] + 1] else runs + [0]
  }

  function Thirds(runs: seq<nat>): nat {
    if runs == [] then 0 else Thirds(runs[..|runs| - 1]) + runs[|runs| - 1] / MISSED_BEFORE_RECONNECT
  }

  function LastRun(beats: seq<Beat>): nat {
    var runs := MissRuns(beats); runs[|runs| - 1]
  }

  class HeartbeatController {
    var missed: nat
    var sentAt: map<Uuid, int>
    var reconnects: nat

    constructor ()
      ensures missed == 0 && sentAt == map[] && reconnects == 0
    {
      missed, sentAt, reconnects := 0, map[], 0;
    }

    method Stop()
      modifies this
      ensures missed == 0 && sentAt == map[] && reconnects == old(reconnects)
    {
      missed, sentAt := 0, map[];
    }

    method SendOne(b: Beat) returns (id: Option<Uuid>)
      modifies this`sentAt
      ensures id == (if b.queued then Some(b.id) else None)
      ensures sentAt == if b.queued then old(sentAt)[b.id := b.at] else old(sentAt)
    {
      if !b.queued {
        return None;
      }
      sentAt := sentAt[b.id := b.at];
      id := Some(b.id);
    }

    method BumpMissed()
      modifies this`missed, this`reconnects
      ensures missed == (if old(missed) + 1 >= MISSED_BEFORE_RECONNECT then 0 else old(missed) + 1)
      ensures reconnects == old(reconnects) + if old(missed) + 1 >= MISSED_BEFORE_RECONNECT then 1 else 0
    {
      missed := missed + 1;
      if missed >= MISSED_BEFORE_RECONNECT {
        reconnects := reconnects + 1;
        missed := 0;
      }
    }

    /**
     Rounds between a start and the next stop. A round fails for want of room in the queue or of
     an echo with its own id; the count at each loop head is the current run modulo three.
     */
    method RunLoop(beats: seq<Beat>)
      requires missed == 0
      modifies this
      ensures missed == LastRun(beats) % MISSED_BEFORE_RECONNECT
      ensures reconnects == old(reconnects) + Thirds(MissRuns(beats))
      ensures forall id :: id in sentAt <==> id in old(sentAt) || exists b | b in beats :: b.queued && b.id == id
    {
      var i := 0;
      assert beats[..0] == [];
      while i < |beats|
        invariant i <= |beats|
        invariant missed == LastRun(beats[..i]) % MISSED_BEFORE_RECONNECT < MISSED_BEFORE_RECONNECT
        invariant reconnects == old(reconnects) + Thirds(MissRuns(beats[..i]))
        invariant forall id ::
          id in sentAt <==> id in old(sentAt) || exists b | b in beats[..i] :: b.queued && b.id == id
      {
        var b := beats[i];
        assert beats[..i + 1] == beats[..i] + [b];
        RoundEffect(beats[..i], b);
        var id := SendOne(b);
        if id == None {
          BumpMissed();
        } else if id.value !in b.echoes {
          missed := missed + 1;
          if missed >= MISSED_BEFORE_RECONNECT {
            reconnects := reconnects + 1;
            missed := 0;
          }
        } else {
          missed := 0;
        }
        i := i + 1;
      }
      assert beats[..|beats|] == beats;
    }
  }

  lemma ThirdsSnoc(runs: seq<nat>, n: nat)
    ensures Thirds(runs + [n]) == Thirds(runs) + n / MISSED_BEFORE_RECONNECT
  {
    assert (runs + [n])[..|runs|] == runs;
  }

  /** One more round: a miss lengthens the last run, an echo closes it. */
  lemma RoundEffect(beats: seq<Beat>, b: Beat)
    ensures LastRun(beats + [b]) == if b.Missed() then LastRun(beats) + 1 else 0
    ensures Thirds(MissRuns(beats + [b])) == Thirds(MissRuns(beats)) +
      if b.Missed() && (LastRun(beats) + 1) % MISSED_BEFORE_RECONNECT == 0 then 1 else 0
  {
    assert (beats + [b])[..|beats|] == beats;
    var runs := MissRuns(beats);
    var before, last := runs[..|runs| - 1], runs[|runs| - 1];
    assert runs == before + [last];
    ThirdsSnoc(before, last);
    ThirdsSnoc(before, last + 1);
    ThirdsSnoc(runs, 0);
  }

  lemma {:induction false} AllMissedIsOneRun(beats: seq<Beat>)
    requires forall i | 0 <= i < |beats| :: beats[i].Missed()
    ensures MissRuns(beats) == [|beats|]
  {
    if beats != [] {
      AllMissedIsOneRun(beats[..|beats| - 1]);
    }
  }

  lemma MissesForceReconnects(beats: seq<Beat>)
    requires forall i | 0 <= i < |beats| :: beats[i].Missed()
    ensures Thirds(MissRuns(beats)) == |beats| / MISSED_BEFORE_RECONNECT
  {
    AllMissedIsOneRun(beats);
    assert [|beats|][..0] == [];
  }
}
