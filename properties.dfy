/**
 * What each request does to the registry and what it answers, the
 * cross-reference invariant between the two maps, and the states in which
 * the handler stays silent.
 */
module Properties {
  import opened Wrappers
  import opened Lists
  import opened Registry
  import opened Protocol

  // ---------------------------------------------------------------------------
  // join
  // ---------------------------------------------------------------------------

  /**
   * join replaces the record (a missing `files` field is the empty list) and
   * appends the peer to the list of each listed file once per occurrence,
   * creating entries as needed; no other record or list changes.
   */
  lemma JoinReplacesRecord(st: Registry, pid: PeerId, files: Option<seq<FileName>>, tcpPort: Option<int>, senderIp: Ip)
    ensures var o := JoinStep(st, pid, files, tcpPort, senderIp);
            && o.reply == Some(Ok)
            && o.state.peers.Keys == st.peers.Keys + {pid}
            && o.state.peers[pid].address == Addr(senderIp, tcpPort)
            && (files.Some? ==> o.state.peers[pid].files == files.value)
            && (files.None? ==> o.state.peers[pid].files == [])
            && (forall q :: q in st.peers && q != pid ==> o.state.peers[q] == st.peers[q])
            && (forall f :: Holders(o.state.index, f) == Holders(st.index, f) + Repeat(pid, Count(JoinFiles(files), f)))
            && o.state.index.Keys == st.index.Keys + set f | f in JoinFiles(files)
  {
    var fs := JoinFiles(files);
    forall f
      ensures Holders(AddAll(st.index, fs, pid), f) == Holders(st.index, f) + Repeat(pid, Count(fs, f))
    {
      AddAllHolders(st.index, fs, pid, f);
    }
    AddAllKeys(st.index, fs, pid);
  }

  // ---------------------------------------------------------------------------
  // share_file and got_the_file
  // ---------------------------------------------------------------------------

  /**
   * share_file for a registered peer appends the file to the peer's list and
   * the peer to the file's list, without checking for duplicates.
   */
  lemma ShareKnown(st: Registry, pid: PeerId, f: FileName)
    requires pid in st.peers
    ensures var o := ShareStep(st, pid, f);
            && o.reply == Some(Ok)
            && o.state.peers.Keys == st.peers.Keys
            && o.state.peers[pid].files == st.peers[pid].files + [f]
            && o.state.peers[pid].address == st.peers[pid].address
            && (forall q :: q in st.peers && q != pid ==> o.state.peers[q] == st.peers[q])
            && Holders(o.state.index, f) == Holders(st.index, f) + [pid]
            && (forall g :: g != f ==> Holders(o.state.index, g) == Holders(st.index, g))
            && o.state.index.Keys == st.index.Keys + {f}
  {
  }

  /** Sharing the same file twice leaves two more occurrences on both sides. */
  lemma ShareTwice(st: Registry, pid: PeerId, f: FileName)
    requires pid in st.peers
    ensures var st2 := ShareStep(ShareStep(st, pid, f).state, pid, f).state;
            && pid in st2.peers
            && Count(st2.peers[pid].files, f) == Count(st.peers[pid].files, f) + 2
            && Count(Holders(st2.index, f), pid) == Count(Holders(st.index, f), pid) + 2
  {
    var st1 := ShareStep(st, pid, f).state;
    var st2 := ShareStep(st1, pid, f).state;
    CountSnoc(st.peers[pid].files, f, f);
    CountSnoc(st1.peers[pid].files, f, f);
    AppendHolderCount(st.index, f, pid, f, pid);
    AppendHolderCount(st1.index, f, pid, f, pid);
  }

  /** share_file for an unregistered peer changes nothing and answers "Peer not found". */
  lemma ShareUnknown(st: Registry, pid: PeerId, f: FileName)
    requires pid !in st.peers
    ensures ShareStep(st, pid, f) == Outcome(st, Some(Error("Peer not found")))
  {
  }

  /**
   * got_the_file behaves as share_file for a registered peer; for an
   * unregistered one it changes nothing and, unlike share_file, sends no reply.
   */
  lemma GotTheFileMirrorsShare(st: Registry, pid: PeerId, f: FileName)
    ensures pid in st.peers ==> GotTheFileStep(st, pid, f) == ShareStep(st, pid, f)
    ensures pid !in st.peers ==>
              && GotTheFileStep(st, pid, f) == Outcome(st, None)
              && ShareStep(st, pid, f).reply == Some(Error(PeerNotFound))
  {
  }

  // ---------------------------------------------------------------------------
  // get_peers
  // ---------------------------------------------------------------------------

  /**
   * get_peers changes nothing. It answers `peers: []` for a file that is not
   * indexed, the holders' addresses in index order (duplicates kept) when all
   * holders have records, and nothing when some holder has none.
   */
  lemma GetPeersIsQuery(st: Registry, pid: PeerId, f: FileName, senderIp: Ip)
    ensures var o := Step(st, GetPeers(pid, f), senderIp);
            && o.state == st
            && (f !in st.index ==> o.reply == Some(Peers([])))
            && (f in st.index ==>
                  (o.reply.None? <==> exists i :: 0 <= i < |st.index[f]| && st.index[f][i] !in st.peers))
            && (o.reply.Some? ==>
                  && o.reply.value.Peers?
                  && |o.reply.value.addrs| == |Holders(st.index, f)|
                  && forall i :: 0 <= i < |Holders(st.index, f)| ==>
                       o.reply.value.addrs[i] == st.peers[Holders(st.index, f)[i]].address)
  {
  }

  // ---------------------------------------------------------------------------
  // leave
  // ---------------------------------------------------------------------------

  /** leave for an unregistered peer changes nothing and answers ok. */
  lemma LeaveUnknown(st: Registry, pid: PeerId)
    requires pid !in st.peers
    ensures LeaveStep(st, pid) == Outcome(st, Some(Ok))
  {
  }

  /**
   * leave for a registered peer answers ok exactly when no file occurs in
   * the peer's list more often than the peer occurs in the file's list. Then
   * it has deleted the record and removed one occurrence of the peer per
   * list entry; otherwise it keeps the record and answers nothing.
   */
  lemma LeaveEffect(st: Registry, pid: PeerId)
    requires pid in st.peers
    ensures var o := LeaveStep(st, pid);
            var fs := st.peers[pid].files;
            && (o.reply == Some(Ok) <==> forall f :: Count(fs, f) <= Count(Holders(st.index, f), pid))
            && (o.reply != Some(Ok) ==> o.reply == None && o.state.peers == st.peers)
            && (o.reply == Some(Ok) ==>
                  && o.state.peers == st.peers - {pid}
                  && forall f, q :: Count(Holders(o.state.index, f), q)
                                    == Count(Holders(st.index, f), q) - (if q == pid then Count(fs, f) else 0))
            && o.state.index.Keys <= st.index.Keys
            && forall f :: Without(Holders(o.state.index, f), pid) == Without(Holders(st.index, f), pid)
  {
    var fs := st.peers[pid].files;
    RemoveAllCompletes(st.index, fs, pid);
    RemoveAllKeys(st.index, fs, pid);
    forall f
      ensures Without(Holders(RemoveAll(st.index, fs, pid).index, f), pid) == Without(Holders(st.index, f), pid)
    {
      RemoveAllWithout(st.index, fs, pid, f);
    }
    if RemoveAll(st.index, fs, pid).completed {
      forall f, q
        ensures Count(Holders(RemoveAll(st.index, fs, pid).index, f), q)
                == Count(Holders(st.index, f), q) - (if q == pid then Count(fs, f) else 0)
      {
        RemoveAllCount(st.index, fs, pid, f, q);
      }
    }
  }

  /** Under the weak invariant the leave loop of a registered peer never raises. */
  lemma SoundLeaveCompletes(st: Registry, pid: PeerId)
    requires Sound(st) && pid in st.peers
    ensures RemoveAll(st.index, st.peers[pid].files, pid).completed
  {
    RemoveAllCompletes(st.index, st.peers[pid].files, pid);
  }

  /** From a consistent state the leave loop completes and leaves no occurrence of the peer. */
  lemma LeaveCountFromConsistent(st: Registry, pid: PeerId, f: FileName, q: PeerId)
    requires Consistent(st) && pid in st.peers
    ensures RemoveAll(st.index, st.peers[pid].files, pid).completed
    ensures Count(Holders(RemoveAll(st.index, st.peers[pid].files, pid).index, f), q)
            == if q == pid then 0 else Count(Holders(st.index, f), q)
  {
    ConsistentIsSound(st);
    SoundLeaveCompletes(st, pid);
    RemoveAllCount(st.index, st.peers[pid].files, pid, f, q);
  }

  /**
   * From a consistent state, leave always answers ok, the peer is then in no
   * list, no list gains an id, and a file the peer alone held is no longer
   * indexed.
   */
  lemma LeavePurges(st: Registry, pid: PeerId)
    requires Consistent(st) && pid in st.peers
    ensures var o := LeaveStep(st, pid);
            && o.reply == Some(Ok)
            && pid !in o.state.peers
            && (forall f :: pid !in Holders(o.state.index, f))
            && (forall f, q :: q in Holders(o.state.index, f) ==> q in Holders(st.index, f))
            && (forall f :: f in st.index && (forall q :: q in st.index[f] ==> q == pid) ==> f !in o.state.index)
  {
    var fs := st.peers[pid].files;
    var r := RemoveAll(st.index, fs, pid);
    LeaveCountFromConsistent(st, pid, "", pid);
    RemoveAllKeys(st.index, fs, pid);
    forall f, q
      ensures (q == pid ==> q !in Holders(r.index, f))
      ensures q in Holders(r.index, f) ==> q in Holders(st.index, f)
    {
      LeaveCountFromConsistent(st, pid, f, q);
      CountPositive(Holders(r.index, f), q);
      CountPositive(Holders(st.index, f), q);
    }
    forall f | f in st.index && (forall q :: q in st.index[f] ==> q == pid)
      ensures f !in r.index
    {
      forall q
        ensures Count(Holders(r.index, f), q) == 0
      {
        LeaveCountFromConsistent(st, pid, f, q);
        CountPositive(Holders(st.index, f), q);
      }
      var h := Holders(r.index, f);
      if h != [] {
        CountPositive(h, h[0]);
        assert false;
      }
    }
  }

  /**
   * From a consistent state, leave turns each file's list into the old list
   * with the peer taken out and the other holders in their old order, which
   * is the order a later get_peers answers in.
   */
  lemma LeaveKeepsOrder(st: Registry, pid: PeerId, f: FileName)
    requires Consistent(st) && pid in st.peers
    ensures Holders(LeaveStep(st, pid).state.index, f) == Without(Holders(st.index, f), pid)
  {
    var r := RemoveAll(st.index, st.peers[pid].files, pid);
    LeaveCountFromConsistent(st, pid, f, pid);
    CountPositive(Holders(r.index, f), pid);
    WithoutAbsent(Holders(r.index, f), pid);
    RemoveAllWithout(st.index, st.peers[pid].files, pid, f);
  }

  // ---------------------------------------------------------------------------
  // The cross-reference invariant
  // ---------------------------------------------------------------------------

  /** join keeps the weak invariant, also for a peer that is already registered. */
  lemma JoinKeepsSound(st: Registry, pid: PeerId, files: Option<seq<FileName>>, tcpPort: Option<int>, senderIp: Ip)
    requires Sound(st)
    ensures Sound(JoinStep(st, pid, files, tcpPort, senderIp).state)
  {
    var fs := JoinFiles(files);
    var st' := JoinStep(st, pid, files, tcpPort, senderIp).state;
    forall p, f | p in st'.peers
      ensures Count(st'.peers[p].files, f) <= Count(Holders(st'.index, f), p)
    {
      AddAllCounts(st.index, fs, pid, f, p);
    }
    AddAllKeys(st.index, fs, pid);
  }

  /**
   * join keeps the cross-reference when the peer was not registered, or was
   * registered with an empty file list, so that the index holds no
   * occurrence of it.
   */
  lemma JoinKeepsConsistent(st: Registry, pid: PeerId, files: Option<seq<FileName>>, tcpPort: Option<int>, senderIp: Ip)
    requires Consistent(st) && (pid !in st.peers || st.peers[pid].files == [])
    ensures Consistent(JoinStep(st, pid, files, tcpPort, senderIp).state)
  {
    var fs := JoinFiles(files);
    var st' := JoinStep(st, pid, files, tcpPort, senderIp).state;
    forall p, f | p in st'.peers
      ensures Count(st'.peers[p].files, f) == Count(Holders(st'.index, f), p)
    {
      AddAllCounts(st.index, fs, pid, f, p);
      CountPositive(Holders(st.index, f), pid);
    }
    forall f, p | p in Holders(st'.index, f)
      ensures p in st'.peers
    {
      AddAllCounts(st.index, fs, pid, f, p);
      CountPositive(Holders(st'.index, f), p);
      CountPositive(Holders(st.index, f), p);
    }
    AddAllKeys(st.index, fs, pid);
  }

  /**
   * A rejoin of a peer whose record lists some file breaks the
   * cross-reference, whatever the new list: the record is overwritten but
   * the old occurrences of the peer stay in the index.
   */
  lemma RejoinBreaks(st: Registry, pid: PeerId, files: Option<seq<FileName>>, tcpPort: Option<int>, senderIp: Ip)
    requires Consistent(st) && pid in st.peers && st.peers[pid].files != []
    ensures !Consistent(JoinStep(st, pid, files, tcpPort, senderIp).state)
  {
    var fs := JoinFiles(files);
    var st' := JoinStep(st, pid, files, tcpPort, senderIp).state;
    var g := st.peers[pid].files[0];
    AddAllCounts(st.index, fs, pid, g, pid);
    CountPositive(st.peers[pid].files, g);
    assert Count(Holders(st.index, g), pid) == Count(st.peers[pid].files, g) > 0;
    assert st'.peers[pid].files == fs;
    assert Count(Holders(st'.index, g), pid) > Count(st'.peers[pid].files, g);
  }

  /** From a consistent state, join keeps the cross-reference exactly when the index holds no occurrence of the peer. */
  lemma JoinConsistentIff(st: Registry, pid: PeerId, files: Option<seq<FileName>>, tcpPort: Option<int>, senderIp: Ip)
    requires Consistent(st)
    ensures Consistent(JoinStep(st, pid, files, tcpPort, senderIp).state)
            <==> pid !in st.peers || st.peers[pid].files == []
  {
    if pid !in st.peers || st.peers[pid].files == [] {
      JoinKeepsConsistent(st, pid, files, tcpPort, senderIp);
    } else {
      RejoinBreaks(st, pid, files, tcpPort, senderIp);
    }
  }

  /**
   * Recording `f` for `pid` adds one occurrence of `f` to its file list and
   * one occurrence of `pid` to the list of `f`, and changes no other count.
   */
  lemma AddFileCounts(st: Registry, pid: PeerId, f: FileName, p: PeerId, g: FileName)
    requires pid in st.peers
    ensures var st' := AddFile(st, pid, f);
            && (p in st'.peers <==> p in st.peers)
            && (p in st.peers ==> Count(st'.peers[p].files, g) == Count(st.peers[p].files, g) + (if p == pid && g == f then 1 else 0))
            && Count(Holders(st'.index, g), p) == Count(Holders(st.index, g), p) + (if p == pid && g == f then 1 else 0)
  {
    AppendHolderCount(st.index, f, pid, g, p);
    CountSnoc(st.peers[pid].files, f, g);
  }

  /** share_file and got_the_file keep the weak invariant. */
  lemma AddFileKeepsSound(st: Registry, pid: PeerId, f: FileName)
    requires Sound(st) && pid in st.peers
    ensures Sound(AddFile(st, pid, f))
  {
    var st' := AddFile(st, pid, f);
    forall p, g | p in st'.peers
      ensures Count(st'.peers[p].files, g) <= Count(Holders(st'.index, g), p)
    {
      AddFileCounts(st, pid, f, p, g);
    }
  }

  /** share_file and got_the_file keep the cross-reference. */
  lemma AddFileKeepsConsistent(st: Registry, pid: PeerId, f: FileName)
    requires Consistent(st) && pid in st.peers
    ensures Consistent(AddFile(st, pid, f))
  {
    var st' := AddFile(st, pid, f);
    forall p, g | p in st'.peers
      ensures Count(st'.peers[p].files, g) == Count(Holders(st'.index, g), p)
    {
      AddFileCounts(st, pid, f, p, g);
    }
    forall g, p | p in Holders(st'.index, g)
      ensures p in st'.peers
    {
      AddFileCounts(st, pid, f, p, g);
      CountPositive(Holders(st'.index, g), p);
      CountPositive(Holders(st.index, g), p);
    }
  }

  /** leave keeps the weak invariant (its loop cannot raise in a `Sound` state). */
  lemma LeaveKeepsSound(st: Registry, pid: PeerId)
    requires Sound(st)
    ensures Sound(LeaveStep(st, pid).state)
  {
    if pid in st.peers {
      var fs := st.peers[pid].files;
      RemoveAllCompletes(st.index, fs, pid);
      RemoveAllKeys(st.index, fs, pid);
      var st' := LeaveStep(st, pid).state;
      forall p, f | p in st'.peers
        ensures Count(st'.peers[p].files, f) <= Count(Holders(st'.index, f), p)
      {
        RemoveAllCount(st.index, fs, pid, f, p);
      }
    }
  }

  /** leave keeps the cross-reference. */
  lemma LeaveKeepsConsistent(st: Registry, pid: PeerId)
    requires Consistent(st)
    ensures Consistent(LeaveStep(st, pid).state)
  {
    if pid in st.peers {
      var fs := st.peers[pid].files;
      RemoveAllCompletes(st.index, fs, pid);
      RemoveAllKeys(st.index, fs, pid);
      var st' := LeaveStep(st, pid).state;
      forall p, f | p in st'.peers
        ensures Count(st'.peers[p].files, f) == Count(Holders(st'.index, f), p)
      {
        RemoveAllCount(st.index, fs, pid, f, p);
      }
      forall f, p | p in Holders(st'.index, f)
        ensures p in st'.peers
      {
        RemoveAllCount(st.index, fs, pid, f, p);
        CountPositive(Holders(st'.index, f), p);
        CountPositive(Holders(st.index, f), p);
      }
    }
  }

  /** Every request keeps the weak invariant, including a rejoin. */
  lemma StepKeepsSound(st: Registry, req: Request, senderIp: Ip)
    requires Sound(st)
    ensures Sound(Step(st, req, senderIp).state)
  {
    match req
    case Join(pid, files, tcpPort) => JoinKeepsSound(st, pid, files, tcpPort, senderIp);
    case ShareFile(pid, f) => if pid in st.peers { AddFileKeepsSound(st, pid, f); }
    case GetPeers(_, _) =>
    case GotTheFile(pid, f) => if pid in st.peers { AddFileKeepsSound(st, pid, f); }
    case Leave(pid) => LeaveKeepsSound(st, pid);
    case Unknown =>
  }

  /** Every request keeps the cross-reference, except a rejoin of a peer whose record lists some file. */
  lemma StepKeepsConsistent(st: Registry, req: Request, senderIp: Ip)
    requires Consistent(st)
    requires req.Join? ==> req.peerId !in st.peers || st.peers[req.peerId].files == []
    ensures Consistent(Step(st, req, senderIp).state)
  {
    match req
    case Join(pid, files, tcpPort) => JoinKeepsConsistent(st, pid, files, tcpPort, senderIp);
    case ShareFile(pid, f) => if pid in st.peers { AddFileKeepsConsistent(st, pid, f); }
    case GetPeers(_, _) =>
    case GotTheFile(pid, f) => if pid in st.peers { AddFileKeepsConsistent(st, pid, f); }
    case Leave(pid) => LeaveKeepsConsistent(st, pid);
    case Unknown =>
  }

  /**
   * A rejoin with an overlapping file list breaks the cross-reference: the
   * old occurrence of the peer stays in the file's list beside the new one.
   */
  lemma RejoinBreaksConsistency()
    ensures var st1 := JoinStep(Empty, "A", Some(["f"]), Some(5001), "10.0.0.1").state;
            var st2 := JoinStep(st1, "A", Some(["f"]), Some(5001), "10.0.0.1").state;
            && Consistent(st1)
            && !Consistent(st2)
            && Holders(st2.index, "f") == ["A", "A"]
            && st2.peers["A"].files == ["f"]
  {
    var st1 := JoinStep(Empty, "A", Some(["f"]), Some(5001), "10.0.0.1").state;
    JoinKeepsConsistent(Empty, "A", Some(["f"]), Some(5001), "10.0.0.1");
    var st2 := JoinStep(st1, "A", Some(["f"]), Some(5001), "10.0.0.1").state;
    AddAllHolders(Empty.index, ["f"], "A", "f");
    AddAllHolders(st1.index, ["f"], "A", "f");
    assert Holders(st2.index, "f") == ["A"] + ["A"];
    assert Count(st2.peers["A"].files, "f") == 1;
    assert Count(Holders(st2.index, "f"), "A") == 2;
  }

  // ---------------------------------------------------------------------------
  // Reachable states
  // ---------------------------------------------------------------------------

  /** A sequence of requests keeps the weak invariant. */
  lemma {:induction false} RunKeepsSound(st: Registry, ds: seq<Datagram>)
    requires Sound(st)
    ensures Sound(Run(st, ds))
    decreases |ds|
  {
    if ds != [] {
      StepKeepsSound(st, ds[0].req, ds[0].senderIp);
      RunKeepsSound(Step(st, ds[0].req, ds[0].senderIp).state, ds[1..]);
    }
  }

  /** Every state the tracker can reach from its empty start satisfies the weak invariant. */
  lemma ReachableIsSound(ds: seq<Datagram>)
    ensures Sound(Run(Empty, ds))
  {
    RunKeepsSound(Empty, ds);
  }

  /** In every reachable state leave answers ok: its `remove` calls never raise there. */
  lemma ReachableLeaveReplies(ds: seq<Datagram>, pid: PeerId, senderIp: Ip)
    ensures Step(Run(Empty, ds), Leave(pid), senderIp).reply == Some(Ok)
  {
    var st := Run(Empty, ds);
    ReachableIsSound(ds);
    if pid in st.peers {
      SoundLeaveCompletes(st, pid);
    }
  }

  /**
   * get_peers can stay silent in a reachable state: a peer that rejoins with
   * fewer files and then leaves keeps a stale id in the index, and looking
   * up its record raises.
   */
  lemma StaleHolderSilencesGetPeers()
    ensures var ds := [Datagram(Join("A", Some(["f"]), Some(5001)), "10.0.0.1"),
                       Datagram(Join("A", Some([]), Some(5001)), "10.0.0.1"),
                       Datagram(Leave("A"), "10.0.0.1")];
            && Holders(Run(Empty, ds).index, "f") == ["A"]
            && "A" !in Run(Empty, ds).peers
            && Step(Run(Empty, ds), GetPeers("B", "f"), "10.0.0.2").reply == None
  {
    var ds := [Datagram(Join("A", Some(["f"]), Some(5001)), "10.0.0.1"),
               Datagram(Join("A", Some([]), Some(5001)), "10.0.0.1"),
               Datagram(Leave("A"), "10.0.0.1")];
    var st1 := Step(Empty, ds[0].req, ds[0].senderIp).state;
    var st2 := Step(st1, ds[1].req, ds[1].senderIp).state;
    var st3 := Step(st2, ds[2].req, ds[2].senderIp).state;
    AddAllHolders(Empty.index, ["f"], "A", "f");
    assert Holders(st2.index, "f") == ["A"];
    assert st3 == st2.(peers := map[]);
    assert Run(Empty, ds) == st3 by {
      assert ds[1..][1..][1..] == [];
    }
    assert Addresses(st3.peers, ["A"]) == None;
  }

  // ---------------------------------------------------------------------------
  // When the handler stays silent
  // ---------------------------------------------------------------------------

  /**
   * The handler sends no reply exactly for an unrecognised action, for
   * got_the_file from an unregistered peer, for get_peers when a holder has
   * no record, and for leave when some `remove` raises. Apart from leave,
   * a silent request changes nothing.
   */
  lemma NoReplyCases(st: Registry, req: Request, senderIp: Ip)
    ensures Step(st, req, senderIp).reply.None? <==>
              || req.Unknown?
              || (req.GotTheFile? && req.peerId !in st.peers)
              || (req.GetPeers? && req.fileName in st.index &&
                  exists i :: 0 <= i < |st.index[req.fileName]| && st.index[req.fileName][i] !in st.peers)
              || (req.Leave? && req.peerId in st.peers &&
                  exists f :: Count(st.peers[req.peerId].files, f) > Count(Holders(st.index, f), req.peerId))
    ensures Step(st, req, senderIp).reply.None? && !req.Leave? ==> Step(st, req, senderIp).state == st
  {
    if req.Leave? && req.peerId in st.peers {
      RemoveAllCompletes(st.index, st.peers[req.peerId].files, req.peerId);
    }
  }

  /** From a consistent state only an unrecognised action and got_the_file from a stranger go unanswered. */
  lemma ConsistentReplies(st: Registry, req: Request, senderIp: Ip)
    requires Consistent(st)
    ensures Step(st, req, senderIp).reply.None? <==> req.Unknown? || (req.GotTheFile? && req.peerId !in st.peers)
  {
    NoReplyCases(st, req, senderIp);
    if req.Leave? && req.peerId in st.peers {
      LeavePurges(st, req.peerId);
    }
    if req.GetPeers? && req.fileName in st.index {
      var ids := st.index[req.fileName];
      forall i | 0 <= i < |ids|
        ensures ids[i] in st.peers
      {
        assert ids[i] in Holders(st.index, req.fileName);
      }
    }
  }
}
