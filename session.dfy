/**
 * A worked session: A joins and shares doc.txt, B joins, finds A, downloads
 * the file and reports it, after which both are listed; after A leaves only
 * B is.
 */
module Session {
  import opened Wrappers
  import opened Lists
  import opened Registry
  import opened Protocol

  const IpA := "10.0.0.1"
  const IpB := "10.0.0.2"
  const AddrA := Addr(IpA, Some(5001))
  const AddrB := Addr(IpB, Some(5002))

  const S1 := Registry(map["A" := PeerRecord([], AddrA)], map[])
  const S2 := Registry(map["A" := PeerRecord(["doc.txt"], AddrA)], map["doc.txt" := ["A"]])
  const S3 := Registry(map["A" := PeerRecord(["doc.txt"], AddrA), "B" := PeerRecord([], AddrB)],
                       map["doc.txt" := ["A"]])
  const S4 := Registry(map["A" := PeerRecord(["doc.txt"], AddrA), "B" := PeerRecord(["doc.txt"], AddrB)],
                       map["doc.txt" := ["A", "B"]])
  const S5 := Registry(map["B" := PeerRecord(["doc.txt"], AddrB)], map["doc.txt" := ["B"]])

  lemma JoinA()
    ensures Step(Empty, Join("A", Some([]), Some(5001)), IpA) == Outcome(S1, Some(Ok))
  {
  }

  lemma ShareA()
    ensures Step(S1, ShareFile("A", "doc.txt"), IpA) == Outcome(S2, Some(Ok))
  {
    var r := AddFile(S1, "A", "doc.txt");
    assert r.peers["A"].files == ["doc.txt"];
    assert r.peers == S2.peers;
    assert Holders(S1.index, "doc.txt") == [];
    assert [] + ["A"] == ["A"];
    assert r.index == S2.index;
  }

  lemma JoinB()
    ensures Step(S2, Join("B", Some([]), Some(5002)), IpB) == Outcome(S3, Some(Ok))
  {
  }

  lemma FindA()
    ensures Step(S3, GetPeers("B", "doc.txt"), IpB) == Outcome(S3, Some(Peers([AddrA])))
  {
    var ids: seq<PeerId> := ["A"];
    assert ids[0] in S3.peers;
    assert Addresses(S3.peers, ids).value == [AddrA];
  }

  lemma ReportB()
    ensures Step(S3, GotTheFile("B", "doc.txt"), IpB) == Outcome(S4, Some(Ok))
  {
    var r := AddFile(S3, "B", "doc.txt");
    assert r.peers["B"].files == ["doc.txt"];
    assert r.peers == S4.peers;
    assert Holders(S3.index, "doc.txt") == ["A"];
    assert ["A"] + ["B"] == ["A", "B"];
    assert r.index == S4.index;
  }

  lemma FindAB()
    ensures Step(S4, GetPeers("B", "doc.txt"), IpB) == Outcome(S4, Some(Peers([AddrA, AddrB])))
  {
    var ids: seq<PeerId> := ["A", "B"];
    assert ids[0] in S4.peers && ids[1] in S4.peers;
    assert Addresses(S4.peers, ids).value == [AddrA, AddrB];
  }

  lemma LeaveA()
    ensures Step(S4, Leave("A"), IpA) == Outcome(S5, Some(Ok))
  {
    assert RemoveFirst(["A", "B"], "A") == ["B"];
    assert RemoveAll(S4.index, ["doc.txt"], "A") == Removal(S5.index, true);
    assert S4.peers - {"A"} == S5.peers;
  }

  lemma FindB()
    ensures Step(S5, GetPeers("B", "doc.txt"), IpB) == Outcome(S5, Some(Peers([AddrB])))
  {
    var ids: seq<PeerId> := ["B"];
    assert ids[0] in S5.peers;
    assert Addresses(S5.peers, ids).value == [AddrB];
  }

  /** The eight replies of the session, in order. */
  lemma WholeSession()
    ensures var o1 := Step(Empty, Join("A", Some([]), Some(5001)), IpA);
            var o2 := Step(o1.state, ShareFile("A", "doc.txt"), IpA);
            var o3 := Step(o2.state, Join("B", Some([]), Some(5002)), IpB);
            var o4 := Step(o3.state, GetPeers("B", "doc.txt"), IpB);
            var o5 := Step(o4.state, GotTheFile("B", "doc.txt"), IpB);
            var o6 := Step(o5.state, GetPeers("B", "doc.txt"), IpB);
            var o7 := Step(o6.state, Leave("A"), IpA);
            var o8 := Step(o7.state, GetPeers("B", "doc.txt"), IpB);
            && o1.reply == Some(Ok) && o2.reply == Some(Ok) && o3.reply == Some(Ok)
            && o4.reply == Some(Peers([AddrA]))
            && o5.reply == Some(Ok)
            && o6.reply == Some(Peers([AddrA, AddrB]))
            && o7.reply == Some(Ok)
            && o8.reply == Some(Peers([AddrB]))
  {
    JoinA();
    ShareA();
    JoinB();
    FindA();
    ReportB();
    FindAB();
    LeaveA();
    FindB();
  }
}
