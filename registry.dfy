/**
 * The tracker's registry: the `peers` map from a peer id to its record and
 * the `file_to_peers` index from a file name to a LIST of peer ids
 * (code/tracker.py:11-12), together with the index updates that the request
 * branches perform on it.
 */
module Registry {
  import opened Wrappers
  import opened Lists

  type PeerId = string
  type FileName = string
  type Ip = string

  /**
   * The address stored for a peer: the sender's IP and the `tcp_port` field
   * of the join request, which is absent (JSON null) when the peer did not
   * send one.
   */
  datatype Addr = Addr(ip: Ip, port: Option<int>)

  /** `{'files': [...], 'address': (ip, tcp_port)}`; `files` is a list, duplicates allowed. */
  datatype PeerRecord = PeerRecord(files: seq<FileName>, address: Addr)

  type Index = map<FileName, seq<PeerId>>

  datatype Registry = Registry(peers: map<PeerId, PeerRecord>, index: Index)

  /** The state built by `Tracker.__init__`. */
  const Empty := Registry(map[], map[])

  /** The list under `f`, or the empty list when `f` is not indexed. */
  function Holders(idx: Index, f: FileName): seq<PeerId>
  {
    if f in idx then idx[f] else []
  }

  /** `if f not in idx: idx[f] = []` followed by `idx[f].append(p)`. */
  function AppendHolder(idx: Index, f: FileName, p: PeerId): Index
  {
    idx[f := Holders(idx, f) + [p]]
  }

  /** `AppendHolder` is what the two in-place statements leave behind. */
  lemma AppendHolderInPlace(idx: Index, f: FileName, p: PeerId)
    ensures var init := if f in idx then idx else idx[f := []];
            init[f := init[f] + [p]] == AppendHolder(idx, f, p)
  {
  }

  /** The join loop: `AppendHolder` once for every element of `fs`, front to back. */
  function AddAll(idx: Index, fs: seq<FileName>, p: PeerId): Index
    decreases |fs|
  {
    if fs == [] then idx else AddAll(AppendHolder(idx, fs[0], p), fs[1..], p)
  }

  /**
   * `idx[f].remove(p)` followed by deleting the entry when it became empty.
   */
  function DropHolder(idx: Index, f: FileName, p: PeerId): Index
    requires f in idx && p in idx[f]
  {
    var rest := RemoveFirst(idx[f], p);
    if rest == [] then idx - {f} else idx[f := rest]
  }

  /**
   * The index after the leave loop, and whether the loop ran to its end.
   * When it stops early because Python raised, the removals already done
   * stay in place.
   */
  datatype Removal = Removal(index: Index, completed: bool)

  /**
   * The leave loop over a peer's file list `fs`: for each element `f`,
   * `idx[f]` raises KeyError when `f` is not indexed and `remove` raises
   * ValueError when `p` is not in the list; otherwise one occurrence is
   * dropped.
   */
  function RemoveAll(idx: Index, fs: seq<FileName>, p: PeerId): Removal
    decreases |fs|
  {
    if fs == [] then Removal(idx, true)
    else if fs[0] !in idx || p !in idx[fs[0]] then Removal(idx, false)
    else RemoveAll(DropHolder(idx, fs[0], p), fs[1..], p)
  }

  /**
   * `[peers[q]['address'] for q in ids]`: `None` when some id has no record,
   * since that lookup raises KeyError.
   */
  function Addresses(peers: map<PeerId, PeerRecord>, ids: seq<PeerId>): (r: Option<seq<Addr>>)
    ensures r.None? <==> exists i :: 0 <= i < |ids| && ids[i] !in peers
    ensures r.Some? ==> |r.value| == |ids| && forall i :: 0 <= i < |ids| ==> r.value[i] == peers[ids[i]].address
    decreases |ids|
  {
    if ids == [] then Some([])
    else
      var init := ids[..|ids| - 1];
      var last := ids[|ids| - 1];
      match Addresses(peers, init)
      case None =>
        assert exists i :: 0 <= i < |init| && init[i] !in peers;
        None
      case Some(a) =>
        if last in peers then Some(a + [peers[last].address]) else None
  }

  ghost predicate NoEmptyEntries(idx: Index)
  {
    forall f :: f in idx ==> idx[f] != []
  }

  /**
   * The cross-reference between the two maps: each file occurs in a peer's
   * list exactly as often as the peer occurs in the file's list, every id in
   * the index has a record, and no index list is empty.
   */
  ghost predicate Consistent(st: Registry)
  {
    && (forall p, f :: p in st.peers ==> Count(st.peers[p].files, f) == Count(Holders(st.index, f), p))
    && (forall f, p :: p in Holders(st.index, f) ==> p in st.peers)
    && NoEmptyEntries(st.index)
  }

  /**
   * The weaker relation that every reachable state satisfies: a registered
   * peer occurs in each file's list at least as often as the file occurs in
   * its own list (a rejoin leaves extra, stale occurrences), and no index
   * list is empty.
   */
  ghost predicate Sound(st: Registry)
  {
    && (forall p, f :: p in st.peers ==> Count(st.peers[p].files, f) <= Count(Holders(st.index, f), p))
    && NoEmptyEntries(st.index)
  }

  /**
   * The exact cross-reference is a special case of the weak one, so what is
   * proved for every `Sound` state (leave always completes, for one) holds
   * in every consistent state too.
   */
  lemma ConsistentIsSound(st: Registry)
    requires Consistent(st)
    ensures Sound(st)
  {
  }

  /** One `AppendHolder` step adds one occurrence of `p` to the list of `f` and nothing else. */
  lemma AppendHolderCount(idx: Index, f: FileName, p: PeerId, g: FileName, q: PeerId)
    ensures Count(Holders(AppendHolder(idx, f, p), g), q) == Count(Holders(idx, g), q) + (if g == f && q == p then 1 else 0)
  {
    if g == f {
      CountSnoc(Holders(idx, f), p, q);
    }
  }

  /** The join loop appends `p` to the list of `f` once per occurrence of `f` in `fs`. */
  lemma {:induction false} AddAllHolders(idx: Index, fs: seq<FileName>, p: PeerId, f: FileName)
    ensures Holders(AddAll(idx, fs, p), f) == Holders(idx, f) + Repeat(p, Count(fs, f))
    decreases |fs|
  {
    if fs != [] {
      var g, rest := fs[0], fs[1..];
      var idx1 := AppendHolder(idx, g, p);
      assert AddAll(idx, fs, p) == AddAll(idx1, rest, p);
      AddAllHolders(idx1, rest, p, f);
      assert fs == [g] + rest;
      CountCons(g, rest, f);
      var n := Count(rest, f);
      if f == g {
        assert Holders(idx1, f) == Holders(idx, f) + [p];
        assert Count(fs, f) == n + 1;
        PrependRepeat(Holders(idx, f), p, n);
      } else {
        assert Holders(idx1, f) == Holders(idx, f);
        assert Count(fs, f) == n;
      }
    }
  }

  /** The join loop indexes exactly the files it was given, and every list it touches ends non-empty. */
  lemma {:induction false} AddAllKeys(idx: Index, fs: seq<FileName>, p: PeerId)
    ensures AddAll(idx, fs, p).Keys == idx.Keys + set f | f in fs
    ensures NoEmptyEntries(idx) ==> NoEmptyEntries(AddAll(idx, fs, p))
    decreases |fs|
  {
    if fs != [] {
      AddAllKeys(AppendHolder(idx, fs[0], p), fs[1..], p);
      assert fs == [fs[0]] + fs[1..];
      assert (set f | f in fs) == {fs[0]} + set f | f in fs[1..];
    }
  }

  /** How the holder counts change under `AddAll`. */
  lemma AddAllCounts(idx: Index, fs: seq<FileName>, p: PeerId, f: FileName, q: PeerId)
    ensures Count(Holders(AddAll(idx, fs, p), f), q) == Count(Holders(idx, f), q) + (if q == p then Count(fs, f) else 0)
  {
    AddAllHolders(idx, fs, p, f);
    RepeatCount(p, Count(fs, f), q);
  }

  /** One `DropHolder` step removes one occurrence of `p` from the list of `f` and nothing else. */
  lemma DropHolderCount(idx: Index, f: FileName, p: PeerId, g: FileName, q: PeerId)
    requires f in idx && p in idx[f]
    ensures Count(Holders(DropHolder(idx, f, p), g), q) == Count(Holders(idx, g), q) - (if g == f && q == p then 1 else 0)
  {
    var rest := RemoveFirst(idx[f], p);
    RemoveFirstMultiset(idx[f], p);
    var idx' := DropHolder(idx, f, p);
    if g == f {
      assert Holders(idx', f) == rest;
      assert Holders(idx, f) == idx[f];
    } else {
      assert Holders(idx', g) == Holders(idx, g);
    }
  }

  /**
   * The leave loop runs to its end exactly when every file occurs in `fs`
   * no more often than `p` occurs in that file's list.
   */
  lemma {:induction false} RemoveAllCompletes(idx: Index, fs: seq<FileName>, p: PeerId)
    ensures RemoveAll(idx, fs, p).completed <==> forall f :: Count(fs, f) <= Count(Holders(idx, f), p)
    decreases |fs|
  {
    if fs != [] {
      var g, rest := fs[0], fs[1..];
      assert fs == [g] + rest;
      if g !in idx || p !in idx[g] {
        CountCons(g, rest, g);
        assert Count(fs, g) > Count(Holders(idx, g), p);
      } else {
        var idx1 := DropHolder(idx, g, p);
        RemoveAllCompletes(idx1, rest, p);
        forall f
          ensures (Count(rest, f) <= Count(Holders(idx1, f), p)) <==> (Count(fs, f) <= Count(Holders(idx, f), p))
        {
          CountCons(g, rest, f);
          DropHolderCount(idx, g, p, f, p);
        }
      }
    }
  }

  /**
   * A completed leave loop removes `Count(fs, f)` occurrences of `p` from
   * the list of each `f` and leaves every other count as it was.
   */
  lemma {:induction false} RemoveAllCount(idx: Index, fs: seq<FileName>, p: PeerId, f: FileName, q: PeerId)
    requires RemoveAll(idx, fs, p).completed
    ensures Count(Holders(RemoveAll(idx, fs, p).index, f), q)
            == Count(Holders(idx, f), q) - (if q == p then Count(fs, f) else 0)
    decreases |fs|
  {
    if fs != [] {
      var g, rest := fs[0], fs[1..];
      assert fs == [g] + rest;
      var idx1 := DropHolder(idx, g, p);
      RemoveAllCount(idx1, rest, p, f, q);
      CountCons(g, rest, f);
      DropHolderCount(idx, g, p, f, q);
    }
  }

  /** One `DropHolder` step keeps the order of every other id in every list. */
  lemma DropHolderWithout(idx: Index, f: FileName, p: PeerId, g: FileName)
    requires f in idx && p in idx[f]
    ensures Without(Holders(DropHolder(idx, f, p), g), p) == Without(Holders(idx, g), p)
  {
    if g == f {
      assert Holders(DropHolder(idx, f, p), f) == RemoveFirst(idx[f], p);
      WithoutRemoveFirst(idx[f], p);
    }
  }

  /**
   * The leave loop, completed or not, leaves every list, with `p` taken out,
   * as it was: the other ids keep their order.
   */
  lemma {:induction false} RemoveAllWithout(idx: Index, fs: seq<FileName>, p: PeerId, f: FileName)
    ensures Without(Holders(RemoveAll(idx, fs, p).index, f), p) == Without(Holders(idx, f), p)
    decreases |fs|
  {
    if fs != [] && fs[0] in idx && p in idx[fs[0]] {
      var idx1 := DropHolder(idx, fs[0], p);
      RemoveAllWithout(idx1, fs[1..], p, f);
      DropHolderWithout(idx, fs[0], p, f);
    }
  }

  /** The leave loop, completed or not, adds no file and leaves no empty list. */
  lemma {:induction false} RemoveAllKeys(idx: Index, fs: seq<FileName>, p: PeerId)
    ensures RemoveAll(idx, fs, p).index.Keys <= idx.Keys
    ensures NoEmptyEntries(idx) ==> NoEmptyEntries(RemoveAll(idx, fs, p).index)
    decreases |fs|
  {
    if fs != [] && fs[0] in idx && p in idx[fs[0]] {
      var idx1 := DropHolder(idx, fs[0], p);
      RemoveAllKeys(idx1, fs[1..], p);
    }
  }
}
