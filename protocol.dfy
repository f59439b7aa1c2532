/**
 * The request dispatcher `Tracker.handle_peer_request` (code/tracker.py:22-106)
 * as a function from the registry and one decoded request to the new
 * registry and at most one reply. Every exception the Python code can raise
 * inside the handler is caught by its catch-all and becomes "no reply".
 */
module Protocol {
  import opened Wrappers
  import opened Lists
  import opened Registry

  /**
   * A decoded request datagram, one variant per `action`, with the fields a
   * peer sends (code/peer.py:28-33, 46-50, 59-63, 95-99, 132-135). `files`
   * and `tcpPort` are read with `request.get`, so they may be absent.
   */
  datatype Request =
    | Join(peerId: PeerId, files: Option<seq<FileName>>, tcpPort: Option<int>)
    | ShareFile(peerId: PeerId, file: FileName)
    | GetPeers(peerId: PeerId, fileName: FileName)
    | GotTheFile(peerId: PeerId, fileName: FileName)
    | Leave(peerId: PeerId)
    | Unknown

  /** `{'status': 'ok'}`, `{'status': 'error', 'message': m}` and `{'peers': [...]}`. */
  datatype Reply = Ok | Error(message: string) | Peers(addrs: seq<Addr>)

  const PeerNotFound := "Peer not found"

  /** The registry after one request, and the reply sent back, if any. */
  datatype Outcome = Outcome(state: Registry, reply: Option<Reply>)

  /** The record of a join: a missing `files` field defaults to the empty list. */
  function JoinFiles(files: Option<seq<FileName>>): seq<FileName>
  {
    match files
    case Some(fs) => fs
    case None => []
  }

  /** join (code/tracker.py:27-41): overwrite the record, then append to the index for every listed file. */
  function JoinStep(st: Registry, pid: PeerId, files: Option<seq<FileName>>, tcpPort: Option<int>, senderIp: Ip): Outcome
  {
    var fs := JoinFiles(files);
    Outcome(Registry(st.peers[pid := PeerRecord(fs, Addr(senderIp, tcpPort))], AddAll(st.index, fs, pid)), Some(Ok))
  }

  /** The common update of share_file and got_the_file for a registered peer. */
  function AddFile(st: Registry, pid: PeerId, f: FileName): Registry
    requires pid in st.peers
  {
    var rec := st.peers[pid];
    Registry(st.peers[pid := rec.(files := rec.files + [f])], AppendHolder(st.index, f, pid))
  }

  /** share_file (code/tracker.py:43-59). */
  function ShareStep(st: Registry, pid: PeerId, f: FileName): Outcome
  {
    if pid in st.peers then Outcome(AddFile(st, pid, f), Some(Ok))
    else Outcome(st, Some(Error(PeerNotFound)))
  }

  /** get_peers (code/tracker.py:61-71); a holder without a record raises KeyError. */
  function GetPeersStep(st: Registry, f: FileName): Outcome
  {
    if f !in st.index then Outcome(st, Some(Peers([])))
    else
      match Addresses(st.peers, st.index[f])
      case Some(addrs) => Outcome(st, Some(Peers(addrs)))
      case None => Outcome(st, None)
  }

  /**
   * got_the_file (code/tracker.py:73-90). For an unknown peer, the logging
   * call at line 89 reads `new_file`, which this branch never binds, so
   * Python raises before the error reply is sent.
   */
  function GotTheFileStep(st: Registry, pid: PeerId, f: FileName): Outcome
  {
    if pid in st.peers then Outcome(AddFile(st, pid, f), Some(Ok))
    else Outcome(st, None)
  }

  /**
   * leave (code/tracker.py:92-102). If the loop raises part way, the
   * removals already made stay, the record is not deleted and no reply is sent.
   */
  function LeaveStep(st: Registry, pid: PeerId): Outcome
  {
    if pid !in st.peers then Outcome(st, Some(Ok))
    else
      var r := RemoveAll(st.index, st.peers[pid].files, pid);
      if r.completed then Outcome(Registry(st.peers - {pid}, r.index), Some(Ok))
      else Outcome(Registry(st.peers, r.index), None)
  }

  /** One request handled against the registry; an unrecognised action does nothing and sends nothing. */
  function Step(st: Registry, req: Request, senderIp: Ip): Outcome
  {
    match req
    case Join(pid, files, tcpPort) => JoinStep(st, pid, files, tcpPort, senderIp)
    case ShareFile(pid, f) => ShareStep(st, pid, f)
    case GetPeers(_, f) => GetPeersStep(st, f)
    case GotTheFile(pid, f) => GotTheFileStep(st, pid, f)
    case Leave(pid) => LeaveStep(st, pid)
    case Unknown => Outcome(st, None)
  }

  /** A request together with the IP address it arrived from. */
  datatype Datagram = Datagram(req: Request, senderIp: Ip)

  /** The registry after handling `ds` one at a time, front to back. */
  function Run(st: Registry, ds: seq<Datagram>): Registry
    decreases |ds|
  {
    if ds == [] then st else Run(Step(st, ds[0].req, ds[0].senderIp).state, ds[1..])
  }
}
