/**
 * The `Tracker` object of code/tracker.py: its two dictionaries, updated in
 * place one request at a time by `handle_peer_request`. Each branch is a
 * method proved against the corresponding step function of `Protocol`.
 */
module Server {
  import opened Wrappers
  import opened Lists
  import opened Registry
  import opened Protocol
  import Properties

  class Tracker {
    /** `self.peers`: peer id to `{'files': [...], 'address': (ip, tcp_port)}`. */
    var peers: map<PeerId, PeerRecord>
    /** `self.file_to_peers`: file name to the list of ids that offer it. */
    var fileToPeers: map<FileName, seq<PeerId>>

    function State(): Registry
      reads this
    {
      Registry(peers, fileToPeers)
    }

    /** `Tracker.__init__` without the socket and the log file: both maps start empty. */
    constructor ()
      ensures State() == Empty
    {
      peers := map[];
      fileToPeers := map[];
    }

    /**
     * `handle_peer_request` for one decoded datagram from `senderIp`: the
     * new state and the reply are those of `Step`, and the weak invariant is
     * kept.
     */
    method Handle(req: Request, senderIp: Ip) returns (reply: Option<Reply>)
      modifies this
      ensures Outcome(State(), reply) == Step(old(State()), req, senderIp)
      ensures Sound(old(State())) ==> Sound(State())
    {
      match req {
        case Join(pid, files, tcpPort) => reply := HandleJoin(pid, files, tcpPort, senderIp);
        case ShareFile(pid, f) => reply := HandleShareFile(pid, f);
        case GetPeers(_, f) => reply := HandleGetPeers(f);
        case GotTheFile(pid, f) => reply := HandleGotTheFile(pid, f);
        case Leave(pid) => reply := HandleLeave(pid);
        case Unknown => reply := None;
      }
      if Sound(old(State())) {
        Properties.StepKeepsSound(old(State()), req, senderIp);
      }
    }

    /** The join branch (code/tracker.py:27-41). */
    method HandleJoin(pid: PeerId, files: Option<seq<FileName>>, tcpPort: Option<int>, senderIp: Ip)
      returns (reply: Option<Reply>)
      modifies this
      ensures Outcome(State(), reply) == JoinStep(old(State()), pid, files, tcpPort, senderIp)
    {
      var fs := JoinFiles(files);
      peers := peers[pid := PeerRecord(fs, Addr(senderIp, tcpPort))];
      var i := 0;
      while i < |fs|
        invariant 0 <= i <= |fs|
        invariant peers == old(peers)[pid := PeerRecord(fs, Addr(senderIp, tcpPort))]
        invariant AddAll(fileToPeers, fs[i..], pid) == AddAll(old(fileToPeers), fs, pid)
      {
        var f := fs[i];
        ghost var before := fileToPeers;
        if f !in fileToPeers {
          fileToPeers := fileToPeers[f := []];
        }
        fileToPeers := fileToPeers[f := fileToPeers[f] + [pid]];
        AppendHolderInPlace(before, f, pid);
        assert fs[i..] == [f] + fs[i + 1..];
        i := i + 1;
      }
      assert fs[i..] == [];
      reply := Some(Ok);
    }

    /** The update shared by share_file and got_the_file for a registered peer. */
    method RecordFile(pid: PeerId, f: FileName)
      requires pid in peers
      modifies this
      ensures State() == AddFile(old(State()), pid, f)
    {
      AppendHolderInPlace(fileToPeers, f, pid);
      var rec := peers[pid];
      peers := peers[pid := rec.(files := rec.files + [f])];
      if f !in fileToPeers {
        fileToPeers := fileToPeers[f := []];
      }
      fileToPeers := fileToPeers[f := fileToPeers[f] + [pid]];
    }

    /** The share_file branch (code/tracker.py:43-59). */
    method HandleShareFile(pid: PeerId, f: FileName) returns (reply: Option<Reply>)
      modifies this
      ensures Outcome(State(), reply) == ShareStep(old(State()), pid, f)
    {
      if pid in peers {
        RecordFile(pid, f);
        reply := Some(Ok);
      } else {
        reply := Some(Error(PeerNotFound));
      }
    }

    /**
     * The get_peers branch (code/tracker.py:61-71): reads only. The list
     * comprehension at line 66 is the loop; a holder without a record raises
     * KeyError there and nothing is sent.
     */
    method HandleGetPeers(f: FileName) returns (reply: Option<Reply>)
      ensures Outcome(State(), reply) == GetPeersStep(State(), f)
    {
      if f in fileToPeers {
        var ids := fileToPeers[f];
        var addrs: seq<Addr> := [];
        var i := 0;
        while i < |ids|
          invariant 0 <= i <= |ids|
          invariant Addresses(peers, ids[..i]) == Some(addrs)
        {
          if ids[i] !in peers {
            return None;
          }
          ghost var next := ids[..i + 1];
          assert next[..i] == ids[..i] && next[i] == ids[i];
          addrs := addrs + [peers[ids[i]].address];
          i := i + 1;
        }
        assert ids[..i] == ids;
        reply := Some(Peers(addrs));
      } else {
        reply := Some(Peers([]));
      }
    }

    /**
     * The got_the_file branch (code/tracker.py:73-90). For an unregistered
     * peer the log line reads the unbound `new_file`; the handler's
     * catch-all swallows the exception and nothing is sent.
     */
    method HandleGotTheFile(pid: PeerId, f: FileName) returns (reply: Option<Reply>)
      modifies this
      ensures Outcome(State(), reply) == GotTheFileStep(old(State()), pid, f)
    {
      if pid in peers {
        RecordFile(pid, f);
        reply := Some(Ok);
      } else {
        reply := None;
      }
    }

    /**
     * The leave branch (code/tracker.py:92-102). A missing index entry
     * (KeyError) or a missing id in the list (ValueError from `remove`)
     * ends the handler with the removals made so far and no reply.
     */
    method HandleLeave(pid: PeerId) returns (reply: Option<Reply>)
      modifies this
      ensures Outcome(State(), reply) == LeaveStep(old(State()), pid)
    {
      if pid in peers {
        var fs := peers[pid].files;
        var i := 0;
        while i < |fs|
          invariant 0 <= i <= |fs|
          invariant peers == old(peers)
          invariant RemoveAll(fileToPeers, fs[i..], pid) == RemoveAll(old(fileToPeers), fs, pid)
        {
          var f := fs[i];
          assert fs[i..] == [f] + fs[i + 1..];
          if f !in fileToPeers {
            assert RemoveAll(fileToPeers, fs[i..], pid) == Removal(fileToPeers, false);
            return None;
          }
          if pid !in fileToPeers[f] {
            assert RemoveAll(fileToPeers, fs[i..], pid) == Removal(fileToPeers, false);
            return None;
          }
          ghost var before := fileToPeers;
          assert RemoveAll(before, fs[i..], pid) == RemoveAll(DropHolder(before, f, pid), fs[i + 1..], pid);
          fileToPeers := fileToPeers[f := RemoveFirst(fileToPeers[f], pid)];
          if fileToPeers[f] == [] {
            fileToPeers := fileToPeers - {f};
          }
          assert fileToPeers == DropHolder(before, f, pid);
          i := i + 1;
        }
        peers := peers - {pid};
      }
      reply := Some(Ok);
    }
  }
}
