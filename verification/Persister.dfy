/** Storage that survives a crash, and the log of saves that determines its contents. */
module Persister {

  type Bytes = seq<int>

  datatype Save = SaveRaft(raftstate: Bytes) | SaveBoth(raftstate: Bytes, snapshot: Bytes)

  datatype Contents = Contents(raftstate: Bytes, snapshot: Bytes)

  /** What a persister holds after the given saves; only the last save of each part counts. */
  function Replay(log: seq<Save>): Contents
  {
    if log == [] then Contents([], [])
    else
      var before := Replay(log[..|log| - 1]);
      match log[|log| - 1]
      case SaveRaft(raftstate) => before.(raftstate := raftstate)
      case SaveBoth(raftstate, snapshot) => Contents(raftstate, snapshot)
  }

  /** Whatever came before, a save of both parts determines the contents. */
  lemma ReplaySnoc(log: seq<Save>, save: Save)
    ensures Replay(log + [save]).raftstate == save.raftstate
    ensures Replay(log + [save]).snapshot == if save.SaveBoth? then save.snapshot else Replay(log).snapshot
  {
    assert (log + [save])[..|log|] == log;
  }

  class Persister {
    var raftstate: Bytes
    var snapshot: Bytes
    ghost var log: seq<Save>

    ghost predicate Valid()
      reads this
    {
      Replay(log) == Contents(raftstate, snapshot)
    }

    constructor ()
      ensures Valid() && log == []
    {
      raftstate, snapshot, log := [], [], [];
    }

    /** A copy that later saves to either persister do not reach. */
    method Copy() returns (np: Persister)
      requires Valid()
      ensures np.Valid() && fresh(np) && np.log == log
      ensures np.raftstate == raftstate && np.snapshot == snapshot
    {
      np := new Persister();
      np.raftstate := raftstate;
      np.snapshot := snapshot;
      np.log := log;
    }

    method SaveRaftState(state: Bytes)
      requires Valid()
      modifies this
      ensures Valid() && log == old(log) + [SaveRaft(state)]
      ensures raftstate == state && snapshot == old(snapshot)
    {
      ReplaySnoc(log, SaveRaft(state));
      raftstate := state;
      log := log + [SaveRaft(state)];
    }

    method ReadRaftState() returns (r: Bytes)
      requires Valid()
      ensures r == Replay(log).raftstate
    {
      r := raftstate;
    }

    method SaveStateAndSnapshot(state: Bytes, snapshot: Bytes)
      requires Valid()
      modifies this
      ensures Valid() && log == old(log) + [SaveBoth(state, snapshot)]
      ensures raftstate == state && this.snapshot == snapshot
    {
      ReplaySnoc(log, SaveBoth(state, snapshot));
      raftstate := state;
      this.snapshot := snapshot;
      log := log + [SaveBoth(state, snapshot)];
    }

    method ReadSnapshot() returns (r: Bytes)
      requires Valid()
      ensures r == Replay(log).snapshot
    {
      r := snapshot;
    }

    /** What the Raft harness does to the saved persister when it crashes a server and starts it
        again: only the Raft state comes through. The new server is given the last persisted state
        exactly if there was no snapshot. */
    method CrashAndStart() returns (np: Persister)
      requires Valid()
      ensures np.Valid() && fresh(np) && np.raftstate == raftstate && np.snapshot == []
      ensures Replay(np.log) == Replay(log) <==> snapshot == []
    {
      var copied := Copy();
      var raftlog := copied.ReadRaftState();
      var saved := new Persister();
      saved.SaveRaftState(raftlog);
      np := saved.Copy();
    }
  }
}
