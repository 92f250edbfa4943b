/**
 * What PickleModelIO promises end to end: loading what dump wrote gives back the
 * object graph, each reference reloaded by its own codec, provided every token is
 * fresh and "_"-free and every codec can read back what it wrote.
 */
module RoundTrip {
  import opened Values
  import opened Descriptor
  import opened Pickler
  import opened Unpickler
  import opened Multiplex
  import opened PickleIO

  // ---------------------------------------------------------------------------
  // The refs as the unpickler sees them

  /** {uuid: obj for uuid, (io, obj) in refs.items()} */
  function RefObjects(refs: seq<RefEntry>): map<Token, Obj> {
    if |refs| == 0 then map[]
    else RefObjects(refs[..|refs| - 1])[refs[|refs| - 1].token := refs[|refs| - 1].obj]
  }

  /** The tokens of the refs. */
  function RefTokens(refs: seq<RefEntry>): set<Token> {
    set i | 0 <= i < |refs| :: refs[i].token
  }

  /** With distinct tokens, each token maps to its own entry's object. */
  lemma {:induction false} RefObjectsAt(refs: seq<RefEntry>, i: nat)
    requires DistinctTokens(refs) && i < |refs|
    ensures refs[i].token in RefObjects(refs) && RefObjects(refs)[refs[i].token] == refs[i].obj
  {
    var n := |refs| - 1;
    if i < n {
      assert refs[..n][i] == refs[i];
      RefObjectsAt(refs[..n], i);
    }
  }

  /** The unpickler's refs hold exactly the pickler's tokens. */
  lemma {:induction false} RefObjectsKeys(refs: seq<RefEntry>)
    ensures RefObjects(refs).Keys == RefTokens(refs)
  {
    if |refs| > 0 {
      var n := |refs| - 1;
      RefObjectsKeys(refs[..n]);
      assert RefTokens(refs) == RefTokens(refs[..n]) + {refs[n].token} by {
        forall t | t in RefTokens(refs) ensures t in RefTokens(refs[..n]) + {refs[n].token} {
          var i :| 0 <= i < |refs| && refs[i].token == t;
          if i < n {
            assert refs[..n][i] == refs[i];
          }
        }
        forall t | t in RefTokens(refs[..n]) ensures t in RefTokens(refs) {
          var i :| 0 <= i < n && refs[..n][i].token == t;
          assert refs[i] == refs[..n][i];
        }
      }
    }
  }

  /**
   * Unpickling the stream against the refs the pickler recorded gives back every
   * visited object: each token is replaced by the very object it was minted for.
   */
  lemma UnpickleAfterPickle(known: set<TypeName>, analyze: Obj -> Analysis, visits: seq<Obj>, supply: seq<Token>)
    requires |supply| == |visits| && DistinctSupply(supply)
    ensures DeserializeModel(Pickle(known, analyze, visits, supply).0, RefObjects(Pickle(known, analyze, visits, supply).1)) == Ok(visits)
  {
    var pickled := Pickle(known, analyze, visits, supply);
    var stream, refs := pickled.0, pickled.1;
    var objs := RefObjects(refs);
    PickleStream(known, analyze, visits, supply);
    PickleRefsSound(known, analyze, visits, supply);
    PickleRefsComplete(known, analyze, visits, supply);
    forall i | 0 <= i < |stream| && stream[i].Placeholder?
      ensures stream[i].pid in objs && objs[stream[i].pid] == visits[i]
    {
      var e := RefEntry(supply[i], NonPickleIo(known, analyze, visits[i]).value, visits[i]);
      var j :| 0 <= j < |refs| && refs[j] == e;
      RefObjectsAt(refs, j);
    }
    assert Resolvable(stream, objs);
    var r := DeserializeModel(stream, objs);
    assert |r.value| == |visits|;
    assert forall i :: 0 <= i < |visits| ==> r.value[i] == visits[i];
    assert r.value == visits;
  }

  // ---------------------------------------------------------------------------
  // The storage after dump

  /** "data.pkl" is not the descriptor name of any token. */
  lemma FileNameNotDescriptor(t: Token)
    ensures FileName != DescriptorName(t)
  {
    var d := DescriptorName(t);
    assert d[|d| - 1] == 'o' && FileName[|FileName| - 1] == 'l';
  }

  /** The references' files leave the root stream where it was. */
  lemma {:induction false} WriteRefsRoot(files: Storage, path: Path, refs: seq<RefEntry>, codecs: Codecs)
    requires path + [FileName] in files
    ensures path + [FileName] in WriteRefs(files, path, refs, codecs)
    ensures WriteRefs(files, path, refs, codecs)[path + [FileName]] == files[path + [FileName]]
  {
    if |refs| > 0 {
      var n := |refs| - 1;
      var e := refs[n];
      WriteRefsRoot(files, path, refs[..n], codecs);
      WriteItemsElsewhere(WriteRefs(files, path, refs[..n], codecs), path + [e.token], codecs.dump(e.io, e.obj), path + [FileName]);
      FileNameNotDescriptor(e.token);
      assert (path + [FileName])[|path|] == FileName;
    }
  }

  /** Each reference's descriptor holds its codec's class identity, overwritten by no other reference. */
  lemma {:induction false} WriteRefsDescriptor(files: Storage, path: Path, refs: seq<RefEntry>, codecs: Codecs, i: nat)
    requires DistinctTokens(refs) && i < |refs|
    ensures path + [DescriptorName(refs[i].token)] in WriteRefs(files, path, refs, codecs)
    ensures WriteRefs(files, path, refs, codecs)[path + [DescriptorName(refs[i].token)]] == SerializeIo(refs[i].io)
  {
    var n := |refs| - 1;
    if i < n {
      var e := refs[n];
      var p := path + [DescriptorName(refs[i].token)];
      assert refs[..n][i] == refs[i];
      WriteRefsDescriptor(files, path, refs[..n], codecs, i);
      WriteItemsElsewhere(WriteRefs(files, path, refs[..n], codecs), path + [e.token], codecs.dump(e.io, e.obj), p);
      assert p[|path|] == DescriptorName(refs[i].token);
      assert (path + [DescriptorName(e.token)])[|path|] == DescriptorName(e.token);
      assert DescriptorName(refs[i].token)[..|refs[i].token|] == refs[i].token;
      assert DescriptorName(e.token)[..|e.token|] == e.token;
    }
  }

  /** Each reference's codec artifacts sit under path/token, overwritten by no other reference. */
  lemma {:induction false} WriteRefsSub(files: Storage, path: Path, refs: seq<RefEntry>, codecs: Codecs, i: nat, k: string)
    requires DistinctTokens(refs) && i < |refs|
    requires k in ItemsMap(codecs.dump(refs[i].io, refs[i].obj))
    ensures path + [refs[i].token] + [k] in WriteRefs(files, path, refs, codecs)
    ensures WriteRefs(files, path, refs, codecs)[path + [refs[i].token] + [k]] == ItemsMap(codecs.dump(refs[i].io, refs[i].obj))[k]
  {
    var n := |refs| - 1;
    var e := refs[n];
    var p := path + [refs[i].token] + [k];
    var prev := WriteRefs(files, path, refs[..n], codecs);
    if i < n {
      assert refs[..n][i] == refs[i];
      WriteRefsSub(files, path, refs[..n], codecs, i, k);
      assert p[..|path| + 1] == path + [refs[i].token];
      assert (path + [e.token])[|path|] == e.token;
      WriteItemsElsewhere(prev, path + [e.token], codecs.dump(e.io, e.obj), p);
    } else {
      WriteItemsAt(prev, path + [e.token], codecs.dump(e.io, e.obj), k);
    }
  }

  // ---------------------------------------------------------------------------
  // Reloading the references

  /** Every name in items is a key of the dict it makes. */
  lemma {:induction false} ItemsMapKey(items: seq<(string, Blob)>, k: string) returns (j: nat)
    requires k in ItemsMap(items)
    ensures j < |items| && items[j].0 == k
  {
    var n := |items| - 1;
    if items[n].0 == k {
      j := n;
    } else {
      j := ItemsMapKey(items[..n], k);
      assert items[..n][j] == items[j];
    }
  }

  /**
   * What the round trip needs of one reference's codec: a well-formed class that the
   * registry resolves to this very instance, artifact names that do not end in
   * ".io", and a load that gives back the object from what dump wrote.
   */
  predicate CodecRoundTrips(io: Codec, o: Obj, rt: Runtime) {
    && WellNamed(io.cls)
    && Resolve(io.cls, rt.modules) == Ok(io)
    && (forall j :: 0 <= j < |rt.codecs.dump(io, o)| ==> !IsDescriptor(rt.codecs.dump(io, o)[j].0))
    && rt.codecs.load(io, ItemsMap(rt.codecs.dump(io, o))) == Some(o)
  }

  /** What the round trip needs of the recorded refs. */
  predicate ReloadableRefs(refs: seq<RefEntry>, rt: Runtime) {
    && DistinctTokens(refs)
    && (forall i :: 0 <= i < |refs| ==> Sep !in refs[i].token)
    && (forall i :: 0 <= i < |refs| ==> CodecRoundTrips(refs[i].io, refs[i].obj, rt))
  }

  /** The names dump gives the references can be sorted back by load. */
  lemma FilingsDemuxable(path: Path, refs: seq<RefEntry>, rt: Runtime)
    requires ReloadableRefs(refs, rt)
    ensures DemuxableFilings(path + [FileName], FilingsOf(path, refs, rt.codecs))
  {
    var filings := FilingsOf(path, refs, rt.codecs);
    forall i, k | 0 <= i < |filings| && k in filings[i].sub
      ensures !IsDescriptor(k)
    {
      var items := rt.codecs.dump(refs[i].io, refs[i].obj);
      SubArtifactsAt(path + [refs[i].token], items);
      var j := ItemsMapKey(items, k);
    }
    forall i | 0 <= i < |filings|
      ensures filings[i].descriptor != path + [FileName] && path + [FileName] !in filings[i].sub.Values
    {
      var t := refs[i].token;
      FileNameNotDescriptor(t);
      assert (path + [DescriptorName(t)])[|path|] == DescriptorName(t);
      SubArtifactsAt(path + [t], rt.codecs.dump(refs[i].io, refs[i].obj));
    }
  }

  /** Each reference's descriptor, where load finds it, reads back as its own codec. */
  lemma DescriptorReloads(files: Storage, path: Path, refs: seq<RefEntry>, rt: Runtime, i: nat)
    requires ReloadableRefs(refs, rt) && i < |refs|
    ensures DescriptorName(refs[i].token) in Mux(path + [FileName], FilingsOf(path, refs, rt.codecs))
    ensures ReadDescriptor(WriteRefs(files, path, refs, rt.codecs),
      Mux(path + [FileName], FilingsOf(path, refs, rt.codecs))[DescriptorName(refs[i].token)], rt.modules) == Ok(refs[i].io)
  {
    var filings := FilingsOf(path, refs, rt.codecs);
    DemuxDescriptor(path + [FileName], filings, i);
    WriteRefsDescriptor(files, path, refs, rt.codecs, i);
    DescriptorRoundTrip(refs[i].io, rt.modules);
  }

  /** Reading back a reference's codec artifacts after dump gives the codec the blobs it wrote. */
  lemma GroupReadsBack(files: Storage, path: Path, refs: seq<RefEntry>, codecs: Codecs, i: nat)
    requires DistinctTokens(refs) && i < |refs|
    ensures ReadGroup(WriteRefs(files, path, refs, codecs), SubArtifacts(path + [refs[i].token], codecs.dump(refs[i].io, refs[i].obj)))
      == Some(ItemsMap(codecs.dump(refs[i].io, refs[i].obj)))
  {
    var items := codecs.dump(refs[i].io, refs[i].obj);
    var sub := SubArtifacts(path + [refs[i].token], items);
    var written := WriteRefs(files, path, refs, codecs);
    SubArtifactsAt(path + [refs[i].token], items);
    forall k | k in sub
      ensures sub[k] in written && written[sub[k]] == ItemsMap(items)[k]
    {
      WriteRefsSub(files, path, refs, codecs, i, k);
    }
    assert ReadGroup(written, sub).Some?;
    assert ReadGroup(written, sub).value == ItemsMap(items);
  }

  /** Each reference's codec, handed the group load builds for its token, reloads its object. */
  lemma SubReloads(files: Storage, path: Path, refs: seq<RefEntry>, rt: Runtime, i: nat)
    requires ReloadableRefs(refs, rt) && i < |refs|
    ensures
      var arts := Mux(path + [FileName], FilingsOf(path, refs, rt.codecs));
      LoadSub(WriteRefs(files, path, refs, rt.codecs), refs[i].io,
        Group(arts, Others(arts, path + [FileName], arts.Keys), refs[i].token), rt.codecs) == Ok(refs[i].obj)
  {
    FilingsDemuxable(path, refs, rt);
    DemuxGroup(path + [FileName], FilingsOf(path, refs, rt.codecs), i);
    GroupReadsBack(files, path, refs, rt.codecs, i);
  }

  /** After dump, load finds no bad name and can read back every descriptor. */
  lemma DumpedNamesSort(files: Storage, path: Path, refs: seq<RefEntry>, rt: Runtime)
    requires ReloadableRefs(refs, rt)
    ensures
      var arts := Mux(path + [FileName], FilingsOf(path, refs, rt.codecs));
      var names := Others(arts, path + [FileName], arts.Keys);
      && BadNames(names) == {}
      && DescriptorsReadable(WriteRefs(files, path, refs, rt.codecs), arts, names, rt.modules)
      && DescriptorTokens(names) == RefTokens(refs)
  {
    DumpedTokens(path, refs, rt);
    DumpedDescriptorsRead(files, path, refs, rt);
  }

  /** After dump, load finds no bad name, and the descriptors it finds are those of the refs' tokens. */
  lemma DumpedTokens(path: Path, refs: seq<RefEntry>, rt: Runtime)
    requires ReloadableRefs(refs, rt)
    ensures
      var arts := Mux(path + [FileName], FilingsOf(path, refs, rt.codecs));
      var names := Others(arts, path + [FileName], arts.Keys);
      BadNames(names) == {} && DescriptorTokens(names) == RefTokens(refs)
  {
    var root := path + [FileName];
    var filings := FilingsOf(path, refs, rt.codecs);
    FilingsDemuxable(path, refs, rt);
    DemuxNoBadNames(root, filings);
    DemuxDescriptorTokens(root, filings);
    FilingTokens(path, refs, rt.codecs);
  }

  /** Dump files one reference per token of refs. */
  lemma FilingTokens(path: Path, refs: seq<RefEntry>, codecs: Codecs)
    ensures TokenSet(FilingsOf(path, refs, codecs)) == RefTokens(refs)
  {
    var filings := FilingsOf(path, refs, codecs);
    assert |filings| == |refs| && forall i :: 0 <= i < |refs| ==> filings[i].token == refs[i].token;
  }

  /** After dump, every descriptor load finds reads back. */
  lemma DumpedDescriptorsRead(files: Storage, path: Path, refs: seq<RefEntry>, rt: Runtime)
    requires ReloadableRefs(refs, rt)
    ensures
      var arts := Mux(path + [FileName], FilingsOf(path, refs, rt.codecs));
      var names := Others(arts, path + [FileName], arts.Keys);
      DescriptorsReadable(WriteRefs(files, path, refs, rt.codecs), arts, names, rt.modules)
  {
    var arts := Mux(path + [FileName], FilingsOf(path, refs, rt.codecs));
    var names := Others(arts, path + [FileName], arts.Keys);
    DumpedTokens(path, refs, rt);
    forall n | n in names && n in arts && IsDescriptor(n)
      ensures ReadDescriptor(WriteRefs(files, path, refs, rt.codecs), arts[n], rt.modules).Ok?
    {
      var t := DescriptorToken(n);
      DescriptorNameToken(n);
      assert t in DescriptorTokens(names);
      var i :| 0 <= i < |refs| && refs[i].token == t;
      DescriptorReloads(files, path, refs, rt, i);
    }
  }

  /** The refs load returns once the names sort and every codec reloads. */
  lemma LoadRefsSorted(files: Storage, arts: Artifacts, root: Path, rt: Runtime)
    requires BadNames(Others(arts, root, arts.Keys)) == {}
    requires DescriptorsReadable(files, arts, Others(arts, root, arts.Keys), rt.modules)
    requires
      var names := Others(arts, root, arts.Keys);
      SubsLoadable(files, arts, names, RefIos(files, arts, names, rt.modules), rt.codecs)
    ensures
      var names := Others(arts, root, arts.Keys);
      var ios := RefIos(files, arts, names, rt.modules);
      LoadRefs(files, arts, root, rt) == Ok(map t | t in ios :: LoadSub(files, ios[t], Group(arts, names, t), rt.codecs).value)
  {
  }

  /** After dump, the codec load reads back for a reference's token reloads that reference's object. */
  lemma TokenReloads(files: Storage, path: Path, refs: seq<RefEntry>, rt: Runtime, i: nat)
    requires ReloadableRefs(refs, rt) && i < |refs|
    ensures
      var arts := Mux(path + [FileName], FilingsOf(path, refs, rt.codecs));
      var names := Others(arts, path + [FileName], arts.Keys);
      var written := WriteRefs(files, path, refs, rt.codecs);
      && DescriptorsReadable(written, arts, names, rt.modules)
      && refs[i].token in RefIos(written, arts, names, rt.modules)
      && LoadSub(written, RefIos(written, arts, names, rt.modules)[refs[i].token], Group(arts, names, refs[i].token), rt.codecs)
         == Ok(refs[i].obj)
  {
    DumpedNamesSort(files, path, refs, rt);
    DescriptorReloads(files, path, refs, rt, i);
    SubReloads(files, path, refs, rt, i);
  }

  /**
   * Load rebuilds, from what dump wrote, exactly the refs the unpickler needs: each
   * token with the object it was minted for.
   */
  lemma ReloadAfterDump(files: Storage, path: Path, refs: seq<RefEntry>, rt: Runtime)
    requires ReloadableRefs(refs, rt)
    ensures LoadRefs(WriteRefs(files, path, refs, rt.codecs), Mux(path + [FileName], FilingsOf(path, refs, rt.codecs)),
      path + [FileName], rt) == Ok(RefObjects(refs))
  {
    var root := path + [FileName];
    var arts := Mux(root, FilingsOf(path, refs, rt.codecs));
    var written := WriteRefs(files, path, refs, rt.codecs);
    var names := Others(arts, root, arts.Keys);
    DumpedNamesSort(files, path, refs, rt);
    EachTokenReloads(files, path, refs, rt);
    LoadRefsAre(written, arts, root, rt, RefObjects(refs));
  }

  /** After dump, every token load reads back reloads the object it was minted for. */
  lemma EachTokenReloads(files: Storage, path: Path, refs: seq<RefEntry>, rt: Runtime)
    requires ReloadableRefs(refs, rt)
    ensures
      var arts := Mux(path + [FileName], FilingsOf(path, refs, rt.codecs));
      var names := Others(arts, path + [FileName], arts.Keys);
      var written := WriteRefs(files, path, refs, rt.codecs);
      && DescriptorsReadable(written, arts, names, rt.modules)
      && RefIos(written, arts, names, rt.modules).Keys == RefObjects(refs).Keys
      && forall t :: t in RefIos(written, arts, names, rt.modules) ==>
           LoadSub(written, RefIos(written, arts, names, rt.modules)[t], Group(arts, names, t), rt.codecs)
             == Ok(RefObjects(refs)[t])
  {
    var root := path + [FileName];
    var arts := Mux(root, FilingsOf(path, refs, rt.codecs));
    var written := WriteRefs(files, path, refs, rt.codecs);
    var names := Others(arts, root, arts.Keys);
    DumpedNamesSort(files, path, refs, rt);
    var ios := RefIos(written, arts, names, rt.modules);
    RefIosAt(written, arts, names, rt.modules);
    RefObjectsKeys(refs);
    forall t | t in ios
      ensures LoadSub(written, ios[t], Group(arts, names, t), rt.codecs) == Ok(RefObjects(refs)[t])
    {
      var i :| 0 <= i < |refs| && refs[i].token == t;
      TokenReloads(files, path, refs, rt, i);
      RefObjectsAt(refs, i);
    }
  }

  // ---------------------------------------------------------------------------
  // The round trip

  /** Loading what dump laid out for a stream and its refs unpickles the stream against those refs. */
  lemma LoadAfterLayout(files: Storage, path: Path, stream: seq<Item>, refs: seq<RefEntry>, rt: Runtime)
    requires ReloadableRefs(refs, rt)
    ensures LoadSpec(LayoutFiles(files, path, stream, refs, rt.codecs), LayoutArtifacts(path, refs, rt.codecs), rt)
      == DeserializeModel(stream, RefObjects(refs))
  {
    if |refs| == 0 {
      assert RefObjects(refs) == map[];
      LoadSingleArtifact(files[path := Pickled(stream)], path, rt);
    } else {
      LoadAfterRefs(files, path, stream, refs, rt);
    }
  }

  /** With references, load finds the stream at path/data.pkl and the refs dump recorded. */
  lemma LoadAfterRefs(files: Storage, path: Path, stream: seq<Item>, refs: seq<RefEntry>, rt: Runtime)
    requires ReloadableRefs(refs, rt) && |refs| > 0
    ensures
      var root := path + [FileName];
      LoadSpec(WriteRefs(files[root := Pickled(stream)], path, refs, rt.codecs), Mux(root, FilingsOf(path, refs, rt.codecs)), rt)
        == DeserializeModel(stream, RefObjects(refs))
  {
    var root := path + [FileName];
    var arts := Mux(root, FilingsOf(path, refs, rt.codecs));
    var base := files[root := Pickled(stream)];
    var written := WriteRefs(base, path, refs, rt.codecs);
    LayoutRoot(files, path, stream, refs, rt);
    ReloadAfterDump(base, path, refs, rt);
    LoadWithRefs(written, arts, rt, stream, RefObjects(refs));
  }

  /** With references, the artifacts name the root stream at path/data.pkl among others. */
  lemma LayoutRoot(files: Storage, path: Path, stream: seq<Item>, refs: seq<RefEntry>, rt: Runtime)
    requires ReloadableRefs(refs, rt) && |refs| > 0
    ensures
      var root := path + [FileName];
      var arts := Mux(root, FilingsOf(path, refs, rt.codecs));
      var written := WriteRefs(files[root := Pickled(stream)], path, refs, rt.codecs);
      && FileName in arts && arts[FileName] == root && |arts| > 1
      && root in written && written[root] == Pickled(stream)
  {
    var root := path + [FileName];
    var filings := FilingsOf(path, refs, rt.codecs);
    FilingsDemuxable(path, refs, rt);
    WriteRefsRoot(files[root := Pickled(stream)], path, refs, rt.codecs);
    MuxRoot(root, filings);
    MuxSize(root, filings);
  }

  /**
   * load(dump(model)) == model: whatever the pickler intercepts, loading the
   * artifacts dump returns, from the storage dump leaves, gives back every visited
   * object. This holds when uuid4 draws distinct "_"-free tokens and every
   * intercepted object's codec round-trips it.
   */
  lemma RoundTrip(files: Storage, path: Path, visits: seq<Obj>, supply: seq<Token>, rt: Runtime)
    requires |supply| == |visits| && DistinctSupply(supply)
    requires forall i :: 0 <= i < |supply| ==> Sep !in supply[i]
    requires forall o :: o in visits && NonPickleIo(KnownTypesOf(rt.hooks), rt.analyze, o).Some? ==>
      CodecRoundTrips(NonPickleIo(KnownTypesOf(rt.hooks), rt.analyze, o).value, o, rt)
    ensures
      var (stream, refs) := Pickle(KnownTypesOf(rt.hooks), rt.analyze, visits, supply);
      LoadSpec(LayoutFiles(files, path, stream, refs, rt.codecs), LayoutArtifacts(path, refs, rt.codecs), rt) == Ok(visits)
  {
    var known := KnownTypesOf(rt.hooks);
    var pickled := Pickle(known, rt.analyze, visits, supply);
    var refs := pickled.1;
    PickleRefsSound(known, rt.analyze, visits, supply);
    forall i | 0 <= i < |refs|
      ensures Sep !in refs[i].token && CodecRoundTrips(refs[i].io, refs[i].obj, rt)
    {
      assert refs[i] in refs;
    }
    UnpickleAfterPickle(known, rt.analyze, visits, supply);
    LoadAfterLayout(files, path, pickled.0, refs, rt);
  }

  /**
   * With nothing intercepted, dump writes the stream alone at path itself and
   * returns the single artifact "data.pkl" naming it.
   */
  lemma SingleArtifact(files: Storage, path: Path, visits: seq<Obj>, supply: seq<Token>, rt: Runtime)
    requires |supply| == |visits|
    requires forall i :: 0 <= i < |visits| ==> NonPickleIo(KnownTypesOf(rt.hooks), rt.analyze, visits[i]).None?
    ensures
      var (stream, refs) := Pickle(KnownTypesOf(rt.hooks), rt.analyze, visits, supply);
      && LayoutArtifacts(path, refs, rt.codecs) == map[FileName := path]
      && LayoutFiles(files, path, stream, refs, rt.codecs) == files[path := Pickled(stream)]
  {
    NoRefsIffNoInterception(KnownTypesOf(rt.hooks), rt.analyze, visits, supply);
  }

  /**
   * With N references whose codecs write M1 ... MN distinct artifacts, dump returns
   * 1 + N + (M1 + ... + MN) artifacts.
   */
  lemma ArtifactCount(path: Path, refs: seq<RefEntry>, codecs: Codecs)
    requires |refs| > 0 && DistinctTokens(refs)
    requires forall i :: 0 <= i < |refs| ==> Sep !in refs[i].token
    ensures |LayoutArtifacts(path, refs, codecs)| == 1 + |refs| + SubTotal(FilingsOf(path, refs, codecs))
  {
    MuxSize(path + [FileName], FilingsOf(path, refs, codecs));
  }

  /**
   * Why no codec artifact name may end in ".io": a codec artifact k = "m.io" of token
   * t is filed as "t_m.io", which load takes for the descriptor of another token
   * "t_m"; and load hands t's codec no artifact named k.
   */
  lemma IoSuffixedArtifactMisread(t: Token, k: string, arts: Artifacts, names: set<string>)
    requires IsDescriptor(k)
    ensures IsDescriptor(DataName(t, k))
    ensures DescriptorToken(DataName(t, k)) == DataName(t, DescriptorToken(k)) != t
    ensures k !in Group(arts, names, t)
  {
    var n := DataName(t, k);
    assert n[|n| - |IoExt|..] == k[|k| - |IoExt|..];
    assert n[..|n| - |IoExt|] == DataName(t, DescriptorToken(k));
    if k in SubNames(names, t) {
      var m :| m in names && IsData(m) && DataToken(m) == t && DataSubName(m) == k;
      DataNameSplit(m);
      assert false;
    }
  }

  /**
   * Dumping then loading through the store: the graph comes back whenever the
   * round-trip conditions hold.
   */
  method DumpThenLoad(store: Store, path: Path, visits: seq<Obj>, supply: seq<Token>, rt: Runtime)
    returns (r: Result<seq<Obj>>)
    requires |supply| == |visits| && DistinctSupply(supply)
    requires forall i :: 0 <= i < |supply| ==> Sep !in supply[i]
    requires forall o :: o in visits && NonPickleIo(KnownTypesOf(rt.hooks), rt.analyze, o).Some? ==>
      CodecRoundTrips(NonPickleIo(KnownTypesOf(rt.hooks), rt.analyze, o).value, o, rt)
    modifies store
    ensures r == Ok(visits)
  {
    RoundTrip(store.files, path, visits, supply, rt);
    var arts := Dump(store, path, visits, supply, rt);
    r := Load(store, arts, rt);
  }
}
