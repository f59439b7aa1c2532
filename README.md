# Tracker registry of a small BitTorrent-like file-sharing network

The tracker (code/tracker.py) keeps two dictionaries:

- `peers`, from a peer id to the peer's record: its list of files and its address, which is the sender's IP and the peer's TCP port;
- `file_to_peers`, from a file name to the list of ids of the peers that offer it.

`handle_peer_request` decodes one UDP datagram and dispatches on its `action`:

- `join` stores or overwrites the peer's record and indexes every listed file;
- `share_file` and `got_the_file` add one file to a registered peer;
- `get_peers` answers with the addresses of a file's holders;
- `leave` removes the peer from the index and deletes its record;
- an unknown action is ignored.

Every exception raised inside the handler is caught and logged, and nothing is sent back when that happens.

The model has three layers:

- **Values** (`Registry`, `Protocol`). The state is a `Registry` value. Each action is a step function from a registry to an `Outcome`: the new registry plus the reply, if any (`Option<Reply>`). `None` stands for "the handler sent nothing", because it raised or because no action matched. `Step` dispatches one request and `Run` folds a sequence of datagrams over the registry.
- **Object** (`Server`). The class `Tracker` has the two maps as fields. Its methods update them in place, with the loops of the source: the join loop, the address comprehension and the leave loop. Each method is proved to produce the state and reply of the matching step function.
- **Properties** (`Properties`, `Session`). These are the lemmas about the step functions:
  - what each action does;
  - the cross-reference invariant between the two maps, and when a request keeps it or breaks it;
  - the weaker invariant true in every reachable state;
  - exactly when the handler stays silent;
  - a complete two-peer session.

Points where the model follows the code rather than the intended design:

- **Lists, not sets.** The per-peer file lists and the per-file holder lists are Python lists. `append` never checks for duplicates, and `list.remove` deletes only the first occurrence. So the cross-reference invariant (`Registry.Consistent`) is stated with occurrence counts: a file occurs in a peer's list exactly as often as the peer occurs in the file's list.
- **Rejoin keeps stale entries.** A `join` for a registered id overwrites the record but does not take the old files out of the index. When the old record listed some file, the cross-reference breaks, whatever the new list (`Properties.RejoinBreaks`, `Properties.JoinConsistentIff`). Only the weaker `Registry.Sound` (at least as many occurrences in the index) holds in every reachable state (`Properties.ReachableIsSound`).
- **A stale id can silence `get_peers`.** If the peer later leaves, its stale id stays in the index. A later `get_peers` for that file raises KeyError, and nothing is sent (`Properties.StaleHolderSilencesGetPeers`).
- **Leave can stop part way.** The leave loop raises KeyError or ValueError when an index entry or an id is missing. The removals already made stay, the record is kept and nothing is sent (`Registry.RemoveAll`). This never happens in a reachable state (`Properties.ReachableLeaveReplies`).
- **`got_the_file` from an unregistered peer is silent.** Line 89 logs `new_file`, which that branch never binds, so Python raises UnboundLocalError before the error reply at line 90 is sent.

## Model

| member | source | states |
|---|---|---|
| Lists.RemoveFirstMultiset | code/tracker.py:96 | `list.remove(x)` of a list containing `x` takes away exactly one occurrence of `x` and keeps every other element |
| Lists.RemoveFirstIsFirst | code/tracker.py:96 | the occurrence removed is the first one, and the order of the rest is kept |
| Lists.RepeatCount | code/tracker.py:33-36 | a run of `n` copies of `x` holds `x` exactly `n` times and nothing else |
| Registry.Addresses | code/tracker.py:66 | the address comprehension fails (KeyError) exactly when some id in the list has no record; otherwise it yields, position by position, the stored address of each id |
| Registry.AppendHolderInPlace | code/tracker.py:34-36 | "create the entry if absent, then append" leaves the same index as appending to the (possibly empty) list of the file |
| Registry.AppendHolderCount | code/tracker.py:34-36 | one append adds one occurrence of the peer to the file's list and changes no other count |
| Registry.AddAllHolders | code/tracker.py:33-36 | after the join loop, each file's list is its old list followed by the peer once per occurrence of the file in the joined list |
| Registry.AddAllKeys | code/tracker.py:33-36 | the join loop indexes exactly the old files plus the listed ones, and it creates no empty list (an index without one keeps none) |
| Registry.AddAllCounts | code/tracker.py:33-36 | the join loop raises the count of the peer in each file's list by that file's multiplicity in the joined list; other ids' counts are unchanged |
| Registry.DropHolderCount | code/tracker.py:96-98 | one removal step (remove, then delete the entry if empty) lowers the peer's count in that file's list by one and changes no other count |
| Registry.RemoveAllCompletes | code/tracker.py:95-98 | the leave loop runs to its end without raising exactly when no file occurs in the peer's list more often than the peer occurs in the file's list |
| Registry.RemoveAllCount | code/tracker.py:95-98 | a completed leave loop lowers the peer's count in each file's list by the file's multiplicity in the peer's list; other counts are unchanged |
| Registry.RemoveAllKeys | code/tracker.py:95-98 | the leave loop, completed or not, indexes no new file and creates no empty list (an index without one keeps none) |
| Lists.WithoutRemoveFirst | code/tracker.py:96 | removing the first `x` leaves the other elements in their old order: with every `x` taken out, the list is unchanged |
| Lists.WithoutAbsent | code/tracker.py:96 | a list that does not contain `x` is unchanged by taking every `x` out |
| Registry.DropHolderWithout | code/tracker.py:96-98 | one removal step keeps, in every file's list, the other ids in their old order |
| Registry.RemoveAllWithout | code/tracker.py:95-98 | the leave loop, completed or not, keeps the other ids of every list in their old order |
| Registry.ConsistentIsSound | code/tracker.py:11-12 | the exact cross-reference implies the weak one |
| Properties.JoinReplacesRecord | code/tracker.py:27-41 | join always answers ok. It stores the record: a missing files field is the empty list, and the address is the sender IP with the sent TCP port. Other records are unchanged. Each file's list gains the peer once per listing, and the index keys grow by exactly the listed files |
| Properties.ShareKnown | code/tracker.py:43-56 | share_file from a registered peer answers ok, appends the file to the peer's list and the peer to the file's list (creating it), and changes nothing else |
| Properties.ShareTwice | code/tracker.py:48-52 | sharing the same file twice adds two occurrences on both sides: there is no de-duplication |
| Properties.ShareUnknown | code/tracker.py:43-59 | share_file from an unregistered peer changes nothing and answers the "Peer not found" error |
| Properties.GotTheFileMirrorsShare | code/tracker.py:73-90 | got_the_file from a registered peer does what share_file does; from an unregistered one it changes nothing and sends nothing, where share_file sends the error |
| Properties.GetPeersIsQuery | code/tracker.py:61-71 | get_peers changes nothing. It answers the empty list for an unindexed file, and nothing exactly when some holder has no record. Otherwise it answers the holders' addresses in index order, duplicates included |
| Properties.LeaveUnknown | code/tracker.py:92-102 | leave from an unregistered peer changes nothing and answers ok |
| Properties.LeaveEffect | code/tracker.py:92-102 | leave from a registered peer answers ok exactly when the removal loop cannot raise. The record is then deleted and one occurrence per listing is removed. Otherwise the record is kept and nothing is sent. No file is ever added to the index, and in every list the other ids keep their order |
| Properties.LeaveCountFromConsistent | code/tracker.py:95-98 | under the exact cross-reference, the leave loop completes and leaves zero occurrences of the peer, with other ids' counts unchanged |
| Properties.LeaveKeepsOrder | code/tracker.py:92-102 | under the exact cross-reference, leave turns each file's list into the old list with the peer taken out and the other holders in their old order, which is the order a later get_peers answers in |
| Properties.LeavePurges | code/tracker.py:92-102 | under the exact cross-reference, leave answers ok and deletes the record. The peer is then in no list, no list gains an id, and a file held only by that peer is de-indexed |
| Properties.JoinKeepsSound | code/tracker.py:27-41 | join keeps the weak invariant, even for a peer that is already registered |
| Properties.JoinKeepsConsistent | code/tracker.py:27-41 | join keeps the exact cross-reference when the peer was not registered or its record listed no file |
| Properties.AddFileCounts | code/tracker.py:47-52 | recording a file adds one occurrence on each side of the cross-reference and changes no other count, and adds or removes no record |
| Properties.AddFileKeepsSound | code/tracker.py:47-52 | share_file and got_the_file keep the weak invariant |
| Properties.AddFileKeepsConsistent | code/tracker.py:47-52 | share_file and got_the_file keep the exact cross-reference |
| Properties.LeaveKeepsSound | code/tracker.py:92-102 | leave keeps the weak invariant (under which its loop never raises, by `Properties.SoundLeaveCompletes`) |
| Properties.LeaveKeepsConsistent | code/tracker.py:92-102 | leave keeps the exact cross-reference |
| Properties.StepKeepsSound | code/tracker.py:22-106 | every request keeps the weak invariant |
| Properties.StepKeepsConsistent | code/tracker.py:22-106 | every request keeps the exact cross-reference, except a rejoin of a peer whose record lists some file |
| Properties.RejoinBreaks | code/tracker.py:32-36 | from any consistent state, a rejoin of a registered peer whose record lists some file breaks the exact cross-reference, whatever the new file list: the record is overwritten but the old occurrences of the peer stay in the index |
| Properties.JoinConsistentIff | code/tracker.py:27-41 | from a consistent state, join keeps the exact cross-reference if and only if the peer was not registered or its record listed no file |
| Properties.SoundLeaveCompletes | code/tracker.py:95-98 | under the weak invariant, the leave loop of a registered peer never raises |
| Properties.RejoinBreaksConsistency | code/tracker.py:32-36 | joining "A" with ["f"] twice gives "f" the list ["A", "A"] while A's record lists "f" once, so the exact cross-reference no longer holds |
| Properties.RunKeepsSound | code/tracker.py:22-106 | any sequence of requests keeps the weak invariant |
| Properties.ReachableIsSound | code/tracker.py:8-106 | every state reachable from the empty registry satisfies the weak invariant |
| Properties.ReachableLeaveReplies | code/tracker.py:92-102 | in every reachable state, leave answers ok |
| Properties.StaleHolderSilencesGetPeers | code/tracker.py:27-99 | join A with [f], rejoin A with [], then leave A: the index still lists A under f, and get_peers f raises and sends nothing |
| Properties.NoReplyCases | code/tracker.py:22-106 | the handler is silent exactly for an unknown action, got_the_file from a stranger, get_peers with a holder that has no record, and leave whose loop raises. A silent request other than leave changes nothing |
| Properties.ConsistentReplies | code/tracker.py:22-106 | under the exact cross-reference, only an unknown action and got_the_file from a stranger go unanswered |
| Session.WholeSession | code/tracker.py:22-106 | A joins and shares doc.txt; B joins, finds A, reports the download and then finds A and B; A leaves and B finds only B. The eight replies are ok, ok, ok, [A], ok, [A, B], ok, [B] |
| Server.Tracker.constructor | code/tracker.py:8-12 | a new tracker starts with both maps empty |
| Server.Tracker.Handle | code/tracker.py:22-106 | handling one request leaves the state and reply of `Step` and keeps the weak invariant |
| Server.Tracker.HandleJoin | code/tracker.py:27-41 | the in-place join (overwrite the record, then the loop over the files) ends in the state of `JoinStep` and answers ok |
| Server.Tracker.RecordFile | code/tracker.py:47-52 | the in-place update of a registered peer's files and of the file's list gives `AddFile` of the old state |
| Server.Tracker.HandleShareFile | code/tracker.py:43-59 | the share_file branch gives the state and reply of `ShareStep` |
| Server.Tracker.HandleGetPeers | code/tracker.py:61-71 | the get_peers branch changes nothing and gives the reply of `GetPeersStep`, stopping at the first holder without a record |
| Server.Tracker.HandleGotTheFile | code/tracker.py:73-90 | the got_the_file branch gives the state and reply of `GotTheFileStep` |
| Server.Tracker.HandleLeave | code/tracker.py:92-102 | the in-place leave loop, including an early stop on KeyError or ValueError with the removals made so far, gives the state and reply of `LeaveStep` |

## Left out

- Sockets and the receive loop `listen_for_peers` (code/tracker.py:13-14, 157-160): a request is handed to the model already decoded, together with its sender's IP. Replies are values, not datagrams.
- JSON decoding and the 1024-byte receive limit: a datagram that is not valid JSON, or not an object, raises before any state change and is silent. The model has no such request, since it would change nothing and send nothing.
- Missing fields and fields of the wrong JSON type: `request.get` turns an absent `peer_id`, `file` or `file_name`, like an explicit `null`, into `None`, which Python then uses as an ordinary key. For example, share_file without `file` from a registered peer appends `None` to the peer's list and to the index under `None`, and answers ok (code/tracker.py:44-56). The model's ids and names are strings, so these requests are not represented. Likewise a `files` in a join that is not a list of strings is not represented. Its effects depend on the value. A `null`, a number or a boolean stores the record and then raises TypeError in the loop at code/tracker.py:33, so nothing is sent. A string is iterated character by character, and an object key by key: the peer is indexed under each character or key and the join answers ok (code/tracker.py:33-36, 41). After that, share_file and got_the_file for that peer raise AttributeError on `.append` (code/tracker.py:48, 78) and send nothing, while leave walks the same characters or keys and answers ok. Non-string file names inside a list are not represented either.
- `tcp_port` of another JSON type: the source stores whatever value arrives and echoes it back in get_peers replies (code/tracker.py:30-32, 66). The model's port is an optional integer, so a string, float or other value there is not represented.
- Aliasing: the join stores the request's own `files` list object in the record. No other code holds that list, so the model stores a copy.
- Logging and printing inside the handler, the console loop `start` and the log-reading commands `logs_request`, `all_logs` and `file_logs` (code/tracker.py:108-155): they do not touch the two maps.
- The tracker's own IP and port, and the log file name: they play no part in request handling.
- code/peer.py in its entirety: it is the client. It is used here only for the field names of the requests.
- Concurrency: the source starts a new thread per datagram (code/tracker.py:160), and the dictionaries have no lock. The model handles requests one at a time, each as an atomic step, so interleavings of two handlers and the races between them are not captured.
