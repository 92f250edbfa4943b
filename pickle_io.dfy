/**
 * PickleModelIO: dump pickles the object graph with the reference-splitting
 * pickler and, when references were recorded, lays out the root stream, each
 * reference's own artifacts and its codec descriptor side by side; load sorts the
 * artifacts back, reloads every reference with its codec and unpickles the root.
 */
module PickleIO {
  import opened Values
  import opened Text
  import opened Descriptor
  import opened Pickler
  import opened Unpickler
  import opened Multiplex

  /** A storage backend: what has been written at each path. */
  class Store {
    var files: Storage

    constructor (files: Storage)
      ensures this.files == files
    {
      this.files := files;
    }

    /** `with storage.open(path) as (f, art): f.write(blob)`: the artifact is the path written. */
    method Write(path: Path, blob: Blob) returns (art: Path)
      modifies this
      ensures files == old(files)[path := blob]
      ensures art == path
    {
      files := files[path := blob];
      art := path;
    }
  }

  // ---------------------------------------------------------------------------
  // Dump

  /** The codec's artifacts as a dict: a later entry of a name replaces an earlier one. */
  function ItemsMap(items: seq<(string, Blob)>): map<string, Blob> {
    if |items| == 0 then map[]
    else
      var (k, b) := items[|items| - 1];
      ItemsMap(items[..|items| - 1])[k := b]
  }

  /** The artifacts a specialised codec returns: each of its names at its own path under base. */
  function SubArtifacts(base: Path, items: seq<(string, Blob)>): Artifacts {
    if |items| == 0 then map[]
    else
      var k := items[|items| - 1].0;
      SubArtifacts(base, items[..|items| - 1])[k := base + [k]]
  }

  /** The storage after a specialised codec writes each of its artifacts at base/name. */
  function WriteItems(files: Storage, base: Path, items: seq<(string, Blob)>): Storage {
    if |items| == 0 then files
    else
      var (k, b) := items[|items| - 1];
      WriteItems(files, base, items[..|items| - 1])[base + [k] := b]
  }

  /** The codec returns one artifact per name it writes, at base/name. */
  lemma {:induction false} SubArtifactsAt(base: Path, items: seq<(string, Blob)>)
    ensures SubArtifacts(base, items).Keys == ItemsMap(items).Keys
    ensures forall k :: k in SubArtifacts(base, items) ==> SubArtifacts(base, items)[k] == base + [k]
  {
    if |items| > 0 {
      SubArtifactsAt(base, items[..|items| - 1]);
    }
  }

  /** The blob at base/name is the last one the codec wrote under that name. */
  lemma {:induction false} WriteItemsAt(files: Storage, base: Path, items: seq<(string, Blob)>, k: string)
    requires k in ItemsMap(items)
    ensures base + [k] in WriteItems(files, base, items)
    ensures WriteItems(files, base, items)[base + [k]] == ItemsMap(items)[k]
  {
    var n := |items| - 1;
    if items[n].0 != k {
      WriteItemsAt(files, base, items[..n], k);
      assert (base + [k])[|base|] == k;
    }
  }

  /** Nothing outside base is written by the codec. */
  lemma {:induction false} WriteItemsElsewhere(files: Storage, base: Path, items: seq<(string, Blob)>, p: Path)
    requires p in files && (|p| != |base| + 1 || p[..|base|] != base)
    ensures p in WriteItems(files, base, items) && WriteItems(files, base, items)[p] == files[p]
  {
    if |items| > 0 {
      var k := items[|items| - 1].0;
      WriteItemsElsewhere(files, base, items[..|items| - 1], p);
      assert (base + [k])[..|base|] == base;
    }
  }

  /**
   * io.dump(storage, base, obj): the codec writes each of its artifacts at its own
   * path under base, and returns their names and handles.
   */
  method SubDump(store: Store, base: Path, io: Codec, obj: Obj, codecs: Codecs) returns (sub: Artifacts)
    modifies store
    ensures sub == SubArtifacts(base, codecs.dump(io, obj))
    ensures store.files == WriteItems(old(store.files), base, codecs.dump(io, obj))
  {
    var items := codecs.dump(io, obj);
    sub := map[];
    for i := 0 to |items|
      invariant sub == SubArtifacts(base, items[..i])
      invariant store.files == WriteItems(old(store.files), base, items[..i])
    {
      assert items[..i + 1][..i] == items[..i] && items[..i + 1][i] == items[i];
      var (k, b) := items[i];
      var art := store.Write(base + [k], b);
      sub := sub[k := art];
    }
    assert items[..|items|] == items;
  }

  /** What dump files for one reference under path. */
  function FilingOf(path: Path, e: RefEntry, codecs: Codecs): Filing {
    Filing(e.token, SubArtifacts(path + [e.token], codecs.dump(e.io, e.obj)), path + [DescriptorName(e.token)])
  }

  /** The filings of the references, in the order of refs. */
  function FilingsOf(path: Path, refs: seq<RefEntry>, codecs: Codecs): seq<Filing> {
    seq(|refs|, i requires 0 <= i < |refs| => FilingOf(path, refs[i], codecs))
  }

  /** p lies strictly under the directory dir. */
  predicate Below(p: Path, dir: Path) {
    |dir| < |p| && p[..|dir|] == dir
  }

  /**
   * The storage after each reference's codec artifacts and then its descriptor are
   * written, in the order of refs: nothing outside path is touched.
   */
  function WriteRefs(files: Storage, path: Path, refs: seq<RefEntry>, codecs: Codecs): (r: Storage)
    ensures forall p :: p in files && !Below(p, path) ==> p in r && r[p] == files[p]
  {
    if |refs| == 0 then files
    else
      var e := refs[|refs| - 1];
      var before := WriteRefs(files, path, refs[..|refs| - 1], codecs);
      forall p | p in files && !Below(p, path)
        ensures p in WriteItems(before, path + [e.token], codecs.dump(e.io, e.obj))
        ensures WriteItems(before, path + [e.token], codecs.dump(e.io, e.obj))[p] == files[p]
      {
        assert (path + [e.token])[..|path|] == path;
        assert |p| == |path| + 2 ==> p[..|path|] == p[..|path| + 1][..|path|];
        WriteItemsElsewhere(before, path + [e.token], codecs.dump(e.io, e.obj), p);
      }
      assert forall p :: p in files && !Below(p, path) ==> p != path + [DescriptorName(e.token)] by {
        forall p | p in files && p == path + [DescriptorName(e.token)] ensures Below(p, path) {
          assert p[..|path|] == path;
        }
      }
      WriteItems(before, path + [e.token], codecs.dump(e.io, e.obj))[path + [DescriptorName(e.token)] := SerializeIo(e.io)]
  }

  /**
   * The storage after dump: with no references the stream alone at path itself;
   * otherwise the stream at path/data.pkl followed by every reference's files.
   */
  function LayoutFiles(files: Storage, path: Path, stream: seq<Item>, refs: seq<RefEntry>, codecs: Codecs): (r: Storage)
    ensures forall p :: p in files && p != path && !Below(p, path) ==> p in r && r[p] == files[p]
  {
    if |refs| == 0 then files[path := Pickled(stream)]
    else
      var root := path + [FileName];
      assert Below(root, path) by { assert root[..|path|] == path; }
      WriteRefs(files[root := Pickled(stream)], path, refs, codecs)
  }

  /**
   * The artifacts dump returns: always "data.pkl", and a single artifact exactly when
   * nothing was intercepted, which is the case load tells apart by its count.
   */
  function LayoutArtifacts(path: Path, refs: seq<RefEntry>, codecs: Codecs): (r: Artifacts)
    ensures FileName in r
    ensures |r| == 1 <==> |refs| == 0
  {
    if |refs| == 0 then map[FileName := path]
    else
      var r := Mux(path + [FileName], FilingsOf(path, refs, codecs));
      var d := DescriptorName(refs[|refs| - 1].token);
      assert FilingsOf(path, refs, codecs)[|refs| - 1].token == refs[|refs| - 1].token;
      assert d[|d| - 1] == 'o' && FileName[|FileName| - 1] == 'l';
      var both := {FileName, d};
      assert |both| == 2;
      assert r.Keys == both + (r.Keys - both);
      r
  }

  /**
   * PickleModelIO.dump: pickle the graph, then write the stream alone, or the
   * stream and every reference's codec artifacts and descriptor.
   */
  method Dump(store: Store, path: Path, visits: seq<Obj>, supply: seq<Token>, rt: Runtime) returns (arts: Artifacts)
    requires |supply| == |visits|
    modifies store
    ensures arts == LayoutArtifacts(path, Pickle(KnownTypesOf(rt.hooks), rt.analyze, visits, supply).1, rt.codecs)
    ensures store.files == LayoutFiles(old(store.files), path,
      Pickle(KnownTypesOf(rt.hooks), rt.analyze, visits, supply).0,
      Pickle(KnownTypesOf(rt.hooks), rt.analyze, visits, supply).1, rt.codecs)
  {
    var stream, refs := SerializeModel(rt.hooks, rt.analyze, visits, supply);
    if |refs| == 0 {
      var art := store.Write(path, Pickled(stream));
      return map[FileName := art];
    }
    var art := store.Write(path + [FileName], Pickled(stream));
    arts := map[FileName := art];
    ghost var base := store.files;
    for i := 0 to |refs|
      invariant arts == Mux(path + [FileName], FilingsOf(path, refs[..i], rt.codecs))
      invariant store.files == WriteRefs(base, path, refs[..i], rt.codecs)
    {
      var e := refs[i];
      MuxGrows(path, refs, i, rt.codecs);
      WriteRefsGrows(base, path, refs, i, rt.codecs);
      var sub := SubDump(store, path + [e.token], e.io, e.obj, rt.codecs);
      arts := arts + Prefixed(e.token, sub);
      var d := store.Write(path + [DescriptorName(e.token)], SerializeIo(e.io));
      arts := arts[DescriptorName(e.token) := d];
    }
    assert refs[..|refs|] == refs;
  }

  /** One more reference adds its prefixed codec artifacts and then its descriptor to the artifacts. */
  lemma MuxGrows(path: Path, refs: seq<RefEntry>, i: nat, codecs: Codecs)
    requires i < |refs|
    ensures
      var e := refs[i];
      Mux(path + [FileName], FilingsOf(path, refs[..i + 1], codecs)) ==
        (Mux(path + [FileName], FilingsOf(path, refs[..i], codecs))
         + Prefixed(e.token, SubArtifacts(path + [e.token], codecs.dump(e.io, e.obj))))
        [DescriptorName(e.token) := path + [DescriptorName(e.token)]]
  {
    var before, after := FilingsOf(path, refs[..i], codecs), FilingsOf(path, refs[..i + 1], codecs);
    assert after[..i] == before && after[i] == FilingOf(path, refs[i], codecs);
  }

  /** One more reference writes its codec artifacts and then its descriptor. */
  lemma WriteRefsGrows(files: Storage, path: Path, refs: seq<RefEntry>, i: nat, codecs: Codecs)
    requires i < |refs|
    ensures
      var e := refs[i];
      WriteRefs(files, path, refs[..i + 1], codecs) ==
        WriteItems(WriteRefs(files, path, refs[..i], codecs), path + [e.token], codecs.dump(e.io, e.obj))
          [path + [DescriptorName(e.token)] := SerializeIo(e.io)]
  {
    assert refs[..i + 1][..i] == refs[..i] && refs[..i + 1][i] == refs[i];
  }

  // ---------------------------------------------------------------------------
  // Load

  /** `with art.open() as f: self._deserialize_io(f)` */
  function ReadDescriptor(files: Storage, art: Path, modules: Modules): Result<Codec> {
    if art !in files then Err(MissingFile) else DeserializeIo(files[art], modules)
  }

  /** The blobs a codec reads from the artifacts it is handed; None when one of them is missing. */
  function ReadGroup(files: Storage, group: Artifacts): Option<map<string, Blob>> {
    if group.Values <= files.Keys then Some(map k | k in group :: files[group[k]]) else None
  }

  /** io.load(artifacts): the reference reloaded by its codec, or the error the codec raises. */
  function LoadSub(files: Storage, io: Codec, group: Artifacts, codecs: Codecs): (r: Result<Obj>)
    ensures r.Ok? ==> group.Values <= files.Keys
    ensures r.Err? ==> r.error == MissingFile || r.error == CodecFailed(io.cls)
  {
    match ReadGroup(files, group)
    case None => Err(MissingFile)
    case Some(blobs) =>
      match codecs.load(io, blobs)
      case None => Err(CodecFailed(io.cls))
      case Some(o) => Ok(o)
  }

  /** Every descriptor among names can be read back into a codec. */
  predicate DescriptorsReadable(files: Storage, arts: Artifacts, names: set<string>, modules: Modules) {
    forall n :: n in names && n in arts && IsDescriptor(n) ==> ReadDescriptor(files, arts[n], modules).Ok?
  }

  /** ref_ios: every descriptor's token, with the codec read from it. */
  function RefIos(files: Storage, arts: Artifacts, names: set<string>, modules: Modules): map<Token, Codec>
    requires names <= arts.Keys && DescriptorsReadable(files, arts, names, modules)
  {
    forall t | t in DescriptorTokens(names) ensures IsDescriptor(DescriptorName(t)) {
      DescriptorNameIsDescriptor(t);
    }
    map t | t in DescriptorTokens(names) :: ReadDescriptor(files, arts[DescriptorName(t)], modules).value
  }

  /** ref_artifacts.get(t, {}) on the defaultdict the loop builds. */
  function GroupOr(groups: map<Token, Artifacts>, t: Token): Artifacts {
    if t in groups then groups[t] else map[]
  }

  /** Every reference reloads. */
  predicate SubsLoadable(files: Storage, arts: Artifacts, names: set<string>, ios: map<Token, Codec>, codecs: Codecs) {
    forall t :: t in ios ==> LoadSub(files, ios[t], Group(arts, names, t), codecs).Ok?
  }

  /**
   * The refs load hands the unpickler: the ValueError of a data name without "_",
   * the error of a descriptor that cannot be read back, the error of a codec that
   * cannot reload its reference, or every descriptor's token with its reloaded
   * object. Which error surfaces first depends on the order of the artifacts. Refs
   * come back only when every name sorted: no data name lacks "_", and every
   * descriptor reads back.
   */
  ghost function LoadRefs(files: Storage, arts: Artifacts, root: Path, rt: Runtime): (r: Result<map<Token, Obj>>)
    ensures r.Ok? ==> BadNames(Others(arts, root, arts.Keys)) == {}
    ensures r.Ok? ==> DescriptorsReadable(files, arts, Others(arts, root, arts.Keys), rt.modules)
  {
    var names := Others(arts, root, arts.Keys);
    if BadNames(names) != {} then
      var n :| n in BadNames(names);
      Err(BadName(n))
    else if !DescriptorsReadable(files, arts, names, rt.modules) then
      var n :| n in names && n in arts && IsDescriptor(n) && ReadDescriptor(files, arts[n], rt.modules).Err?;
      Err(ReadDescriptor(files, arts[n], rt.modules).error)
    else
      var ios := RefIos(files, arts, names, rt.modules);
      if !SubsLoadable(files, arts, names, ios, rt.codecs) then
        var t :| t in ios && LoadSub(files, ios[t], Group(arts, names, t), rt.codecs).Err?;
        Err(LoadSub(files, ios[t], Group(arts, names, t), rt.codecs).error)
      else
        Ok(map t | t in ios :: LoadSub(files, ios[t], Group(arts, names, t), rt.codecs).value)
  }

  /**
   * What PickleModelIO.load returns: the KeyError of a missing "data.pkl"; no refs
   * when it is the only artifact, LoadRefs otherwise; then the root stream read and
   * unpickled against those refs. A graph comes back only from a pickle stream at
   * the handle of "data.pkl", one object per item of that stream.
   */
  ghost function LoadSpec(files: Storage, arts: Artifacts, rt: Runtime): (r: Result<seq<Obj>>)
    ensures r.Ok? ==> FileName in arts && arts[FileName] in files && files[arts[FileName]].Pickled?
    ensures r.Ok? ==> |r.value| == |files[arts[FileName]].stream|
  {
    if FileName !in arts then Err(MissingKey(FileName))
    else
      var root := arts[FileName];
      var refs := if |arts| > 1 then LoadRefs(files, arts, root, rt) else Ok(map[]);
      if refs.Err? then Err(refs.error)
      else if root !in files then Err(MissingFile)
      else
        match files[root]
        case Pickled(stream) => DeserializeModel(stream, refs.value)
        case _ => Err(NotAStream)
  }

  /**
   * The first loop of PickleModelIO.load: every artifact other than the root's is
   * either a descriptor, read back into ref_ios under its token, or a data artifact,
   * grouped in ref_artifacts under the token before its first "_". Fails on a data
   * name without "_" and on a descriptor that cannot be read back.
   */
  method SortArtifacts(files: Storage, arts: Artifacts, root: Path, modules: Modules)
    returns (r: Result<(map<Token, Codec>, map<Token, Artifacts>)>)
    ensures r.Err? ==>
      BadNames(Others(arts, root, arts.Keys)) != {} || !DescriptorsReadable(files, arts, Others(arts, root, arts.Keys), modules)
    ensures r.Ok? ==> BadNames(Others(arts, root, arts.Keys)) == {}
    ensures r.Ok? ==> DescriptorsReadable(files, arts, Others(arts, root, arts.Keys), modules)
    ensures r.Ok? ==> r.value.0 == RefIos(files, arts, Others(arts, root, arts.Keys), modules)
    ensures r.Ok? ==> forall t :: GroupOr(r.value.1, t) == Group(arts, Others(arts, root, arts.Keys), t)
  {
    var refArtifacts: map<Token, Artifacts> := map[];
    var refIos: map<Token, Codec> := map[];
    var todo := arts.Keys;
    ghost var done: set<string> := {};
    while todo != {}
      invariant todo <= arts.Keys && done == arts.Keys - todo
      invariant BadNames(Others(arts, root, done)) == {}
      invariant DescriptorsReadable(files, arts, Others(arts, root, done), modules)
      invariant refIos == RefIos(files, arts, Others(arts, root, done), modules)
      invariant forall t :: GroupOr(refArtifacts, t) == Group(arts, Others(arts, root, done), t)
      decreases todo
    {
      var n :| n in todo;
      ghost var names := Others(arts, root, done);
      todo, done := todo - {n}, done + {n};
      OthersStep(arts, root, done - {n}, n);
      assert done - {n} + {n} == done;
      var art := arts[n];
      if art == root {
        continue;
      }
      if EndsWith(n, IoExt) {
        var io := ReadDescriptor(files, art, modules);
        if io.Err? {
          UnreadableDescriptor(files, arts, root, modules, n);
          return Err(io.error);
        }
        DescriptorStep(files, arts, names, modules, n);
        refIos := refIos[DescriptorToken(n) := io.value];
      } else {
        var split := SplitOnce(n, Sep);
        if split.None? {
          BadNameFound(arts, root, n);
          return Err(BadName(n));
        }
        var (t, k) := split.value;
        DataStep(files, arts, names, modules, n);
        refArtifacts := refArtifacts[t := GroupOr(refArtifacts, t)[k := art]];
      }
    }
    assert done == arts.Keys;
    return Ok((refIos, refArtifacts));
  }

  /** A bad name or an unreadable descriptor makes the refs fail. */
  lemma UnsortedRefs(files: Storage, arts: Artifacts, root: Path, rt: Runtime)
    requires BadNames(Others(arts, root, arts.Keys)) != {} || !DescriptorsReadable(files, arts, Others(arts, root, arts.Keys), rt.modules)
    ensures LoadRefs(files, arts, root, rt).Err?
  {
  }

  /** Once the artifacts are sorted, the refs are the references reloaded, unless a codec fails. */
  lemma SortedRefs(files: Storage, arts: Artifacts, root: Path, rt: Runtime, ios: map<Token, Codec>, groups: map<Token, Artifacts>)
    requires BadNames(Others(arts, root, arts.Keys)) == {}
    requires DescriptorsReadable(files, arts, Others(arts, root, arts.Keys), rt.modules)
    requires ios == RefIos(files, arts, Others(arts, root, arts.Keys), rt.modules)
    requires forall t :: GroupOr(groups, t) == Group(arts, Others(arts, root, arts.Keys), t)
    ensures LoadRefs(files, arts, root, rt).Ok? <==>
      !exists t :: t in ios && LoadSub(files, ios[t], GroupOr(groups, t), rt.codecs).Err?
    ensures LoadRefs(files, arts, root, rt).Ok? ==>
      && LoadRefs(files, arts, root, rt).value.Keys == ios.Keys
      && forall t :: t in ios ==>
           LoadSub(files, ios[t], GroupOr(groups, t), rt.codecs) == Ok(LoadRefs(files, arts, root, rt).value[t])
  {
    if !SubsLoadable(files, arts, Others(arts, root, arts.Keys), ios, rt.codecs) {
      SomeSubFails(files, arts, root, rt, ios, groups);
    } else {
      EverySubLoads(files, arts, root, rt, ios, groups);
    }
  }

  /** A codec that cannot reload its reference makes the refs fail. */
  lemma SomeSubFails(files: Storage, arts: Artifacts, root: Path, rt: Runtime, ios: map<Token, Codec>, groups: map<Token, Artifacts>)
    requires BadNames(Others(arts, root, arts.Keys)) == {}
    requires DescriptorsReadable(files, arts, Others(arts, root, arts.Keys), rt.modules)
    requires ios == RefIos(files, arts, Others(arts, root, arts.Keys), rt.modules)
    requires forall t :: GroupOr(groups, t) == Group(arts, Others(arts, root, arts.Keys), t)
    requires !SubsLoadable(files, arts, Others(arts, root, arts.Keys), ios, rt.codecs)
    ensures LoadRefs(files, arts, root, rt).Err?
    ensures exists t :: t in ios && LoadSub(files, ios[t], GroupOr(groups, t), rt.codecs).Err?
  {
    var names := Others(arts, root, arts.Keys);
    var t :| t in ios && LoadSub(files, ios[t], Group(arts, names, t), rt.codecs).Err?;
    assert LoadSub(files, ios[t], GroupOr(groups, t), rt.codecs).Err?;
  }

  /** When every codec reloads its reference, the refs are those reloaded objects. */
  lemma EverySubLoads(files: Storage, arts: Artifacts, root: Path, rt: Runtime, ios: map<Token, Codec>, groups: map<Token, Artifacts>)
    requires BadNames(Others(arts, root, arts.Keys)) == {}
    requires DescriptorsReadable(files, arts, Others(arts, root, arts.Keys), rt.modules)
    requires ios == RefIos(files, arts, Others(arts, root, arts.Keys), rt.modules)
    requires forall t :: GroupOr(groups, t) == Group(arts, Others(arts, root, arts.Keys), t)
    requires SubsLoadable(files, arts, Others(arts, root, arts.Keys), ios, rt.codecs)
    ensures !exists t :: t in ios && LoadSub(files, ios[t], GroupOr(groups, t), rt.codecs).Err?
    ensures LoadRefs(files, arts, root, rt).Ok?
    ensures LoadRefs(files, arts, root, rt).value.Keys == ios.Keys
    ensures forall t :: t in ios ==> LoadSub(files, ios[t], GroupOr(groups, t), rt.codecs) == Ok(LoadRefs(files, arts, root, rt).value[t])
  {
    var names := Others(arts, root, arts.Keys);
    var loaded := map t | t in ios :: LoadSub(files, ios[t], Group(arts, names, t), rt.codecs).value;
    assert LoadRefs(files, arts, root, rt) == Ok(loaded);
  }

  /** A descriptor that cannot be read back leaves the artifacts unreadable. */
  lemma UnreadableDescriptor(files: Storage, arts: Artifacts, root: Path, modules: Modules, n: string)
    requires n in arts && arts[n] != root && IsDescriptor(n)
    requires ReadDescriptor(files, arts[n], modules).Err?
    ensures !DescriptorsReadable(files, arts, Others(arts, root, arts.Keys), modules)
  {
    assert n in Others(arts, root, arts.Keys);
  }

  /** A data name without "_" is a bad name. */
  lemma BadNameFound(arts: Artifacts, root: Path, n: string)
    requires n in arts && arts[n] != root && !IsDescriptor(n) && Sep !in n
    ensures BadNames(Others(arts, root, arts.Keys)) != {}
  {
    assert n in BadNames(Others(arts, root, arts.Keys));
  }

  /** Reading back one more descriptor: ref_ios gains its token; the groups stay. */
  lemma DescriptorStep(files: Storage, arts: Artifacts, names: set<string>, modules: Modules, n: string)
    requires names <= arts.Keys && n in arts && IsDescriptor(n)
    requires BadNames(names) == {} && DescriptorsReadable(files, arts, names, modules)
    requires ReadDescriptor(files, arts[n], modules).Ok?
    ensures BadNames(names + {n}) == {}
    ensures DescriptorsReadable(files, arts, names + {n}, modules)
    ensures RefIos(files, arts, names + {n}, modules) ==
      RefIos(files, arts, names, modules)[DescriptorToken(n) := ReadDescriptor(files, arts[n], modules).value]
    ensures forall t :: Group(arts, names + {n}, t) == Group(arts, names, t)
  {
    BadNamesStep(names, n);
    assert DescriptorsReadable(files, arts, names + {n}, modules);
    RefIosStep(files, arts, names, modules, n);
    forall t ensures Group(arts, names + {n}, t) == Group(arts, names, t) {
      GroupStep(arts, names, n, t);
    }
  }

  /** ref_ios[ref_uuid] = io: one more descriptor adds its token, with the codec read from it. */
  lemma RefIosStep(files: Storage, arts: Artifacts, names: set<string>, modules: Modules, n: string)
    requires names <= arts.Keys && n in arts && IsDescriptor(n)
    requires DescriptorsReadable(files, arts, names + {n}, modules)
    ensures DescriptorsReadable(files, arts, names, modules)
    ensures RefIos(files, arts, names + {n}, modules) ==
      RefIos(files, arts, names, modules)[DescriptorToken(n) := ReadDescriptor(files, arts[n], modules).value]
  {
    assert DescriptorsReadable(files, arts, names, modules);
    var after := RefIos(files, arts, names + {n}, modules);
    var before := RefIos(files, arts, names, modules);
    RefIosAt(files, arts, names + {n}, modules);
    RefIosAt(files, arts, names, modules);
    DescriptorTokensStep(names, n);
    DescriptorNameToken(n);
    forall t | t in before ensures t in after && after[t] == before[t] {
      ReadSameDescriptor(files, arts, modules, t, before[t], after[t]);
    }
    MapUpdate(before, after, DescriptorToken(n), ReadDescriptor(files, arts[n], modules).value);
  }

  /** The tokens of ref_ios and the codec each was read into, unfolded for the steps above. */
  lemma RefIosAt(files: Storage, arts: Artifacts, names: set<string>, modules: Modules)
    requires names <= arts.Keys && DescriptorsReadable(files, arts, names, modules)
    ensures RefIos(files, arts, names, modules).Keys == DescriptorTokens(names)
    ensures forall t :: t in RefIos(files, arts, names, modules) ==>
      ReadDescriptor(files, arts[DescriptorName(t)], modules) == Ok(RefIos(files, arts, names, modules)[t])
  {
  }

  /** A descriptor read twice gives the same codec. */
  lemma ReadSameDescriptor(files: Storage, arts: Artifacts, modules: Modules, t: Token, io1: Codec, io2: Codec)
    requires DescriptorName(t) in arts
    requires ReadDescriptor(files, arts[DescriptorName(t)], modules) == Ok(io1)
    requires ReadDescriptor(files, arts[DescriptorName(t)], modules) == Ok(io2)
    ensures io1 == io2
  {
  }

  /** A map that adds one key to another, and agrees with it elsewhere, is that map updated at the key. */
  lemma MapUpdate(before: map<Token, Codec>, after: map<Token, Codec>, k: Token, v: Codec)
    requires after.Keys == before.Keys + {k} && after[k] == v
    requires forall t :: t in before && t != k ==> after[t] == before[t]
    ensures after == before[k := v]
  {
  }

  /** Grouping one more data name: its group gains it; ref_ios stays. */
  lemma DataStep(files: Storage, arts: Artifacts, names: set<string>, modules: Modules, n: string)
    requires names <= arts.Keys && n in arts && !IsDescriptor(n) && Sep in n
    requires BadNames(names) == {} && DescriptorsReadable(files, arts, names, modules)
    ensures BadNames(names + {n}) == {}
    ensures DescriptorsReadable(files, arts, names + {n}, modules)
    ensures RefIos(files, arts, names + {n}, modules) == RefIos(files, arts, names, modules)
    ensures forall t :: Group(arts, names + {n}, t) ==
                        if t == DataToken(n) then Group(arts, names, t)[DataSubName(n) := arts[n]] else Group(arts, names, t)
  {
    BadNamesStep(names, n);
    DescriptorTokensStep(names, n);
    forall t ensures Group(arts, names + {n}, t) ==
      if t == DataToken(n) then Group(arts, names, t)[DataSubName(n) := arts[n]] else Group(arts, names, t)
    {
      GroupStep(arts, names, n, t);
    }
  }

  /**
   * The second loop of PickleModelIO.load: every token of ref_ios reloaded by its
   * codec from its group of artifacts; fails with the first codec that fails.
   */
  method ReloadRefs(ios: map<Token, Codec>, groups: map<Token, Artifacts>, reload: (Codec, Artifacts) -> Result<Obj>)
    returns (r: Result<map<Token, Obj>>)
    ensures r.Err? <==> exists t :: t in ios && reload(ios[t], GroupOr(groups, t)).Err?
    ensures r.Ok? ==> r.value.Keys == ios.Keys
    ensures r.Ok? ==> forall t :: t in ios ==> reload(ios[t], GroupOr(groups, t)) == Ok(r.value[t])
  {
    var refs: map<Token, Obj> := map[];
    var todo := ios.Keys;
    while todo != {}
      invariant todo <= ios.Keys && refs.Keys == ios.Keys - todo
      invariant forall t :: t in refs ==> reload(ios[t], GroupOr(groups, t)) == Ok(refs[t])
      decreases todo
    {
      var t :| t in todo;
      var obj := reload(ios[t], GroupOr(groups, t));
      if obj.Err? {
        return Err(obj.error);
      }
      refs := refs[t := obj.value];
      todo := todo - {t};
    }
    return Ok(refs);
  }

  /** Two maps with the same keys and the same values are one. */
  lemma SameRefs(m1: map<Token, Obj>, m2: map<Token, Obj>)
    requires m1.Keys == m2.Keys && forall t :: t in m1 ==> m1[t] == m2[t]
    ensures m1 == m2
  {
  }

  /**
   * PickleModelIO.load: sort the artifacts into descriptors and data groups, reload
   * every reference with the codec its descriptor names, then unpickle the root.
   * It succeeds exactly when LoadSpec does, with the same graph. It reports the very
   * error LoadSpec does whenever the order of the artifacts plays no part: a missing
   * "data.pkl", a lone artifact, or refs that sort and reload.
   */
  method Load(store: Store, arts: Artifacts, rt: Runtime) returns (r: Result<seq<Obj>>)
    ensures r.Ok? <==> LoadSpec(store.files, arts, rt).Ok?
    ensures r.Ok? ==> r == LoadSpec(store.files, arts, rt)
    ensures FileName !in arts ==> r == Err(MissingKey(FileName))
    ensures FileName in arts && (|arts| <= 1 || LoadRefs(store.files, arts, arts[FileName], rt).Ok?) ==>
      r == LoadSpec(store.files, arts, rt)
  {
    if FileName !in arts {
      return Err(MissingKey(FileName));
    }
    var files := store.files;
    var root := arts[FileName];
    var refs: map<Token, Obj> := map[];
    if |arts| > 1 {
      var sorted := SortArtifacts(files, arts, root, rt.modules);
      if sorted.Err? {
        UnsortedRefs(files, arts, root, rt);
        return Err(sorted.error);
      }
      var (refIos, refArtifacts) := sorted.value;
      SortedRefs(files, arts, root, rt, refIos, refArtifacts);
      var reloaded := ReloadRefs(refIos, refArtifacts, (io, group) => LoadSub(files, io, group, rt.codecs));
      if reloaded.Err? {
        return Err(reloaded.error);
      }
      refs := reloaded.value;
      SameRefs(refs, LoadRefs(files, arts, root, rt).value);
    }
    if root !in files {
      return Err(MissingFile);
    }
    match files[root]
    case Pickled(stream) =>
      r := DeserializeModel(stream, refs);
    case _ =>
      r := Err(NotAStream);
  }


  /** A lone "data.pkl" is unpickled against no refs. */
  lemma LoadSingleArtifact(files: Storage, root: Path, rt: Runtime)
    ensures LoadSpec(files, map[FileName := root], rt) ==
      if root !in files then Err(MissingFile)
      else if files[root].Pickled? then DeserializeModel(files[root].stream, map[])
      else Err(NotAStream)
  {
    assert |map[FileName := root]| == 1;
  }

  /** With several artifacts, load unpickles the root stream against the refs LoadRefs rebuilds. */
  lemma LoadWithRefs(files: Storage, arts: Artifacts, rt: Runtime, stream: seq<Item>, refs: map<Token, Obj>)
    requires FileName in arts && |arts| > 1
    requires arts[FileName] in files && files[arts[FileName]] == Pickled(stream)
    requires LoadRefs(files, arts, arts[FileName], rt) == Ok(refs)
    ensures LoadSpec(files, arts, rt) == DeserializeModel(stream, refs)
  {
  }

  /** When the names sort and every token reloads to its expected object, those objects are the refs. */
  lemma LoadRefsAre(files: Storage, arts: Artifacts, root: Path, rt: Runtime, expected: map<Token, Obj>)
    requires BadNames(Others(arts, root, arts.Keys)) == {}
    requires DescriptorsReadable(files, arts, Others(arts, root, arts.Keys), rt.modules)
    requires RefIos(files, arts, Others(arts, root, arts.Keys), rt.modules).Keys == expected.Keys
    requires
      var names := Others(arts, root, arts.Keys);
      var ios := RefIos(files, arts, names, rt.modules);
      forall t :: t in ios ==> LoadSub(files, ios[t], Group(arts, names, t), rt.codecs) == Ok(expected[t])
    ensures LoadRefs(files, arts, root, rt) == Ok(expected)
  {
    var names := Others(arts, root, arts.Keys);
    var ios := RefIos(files, arts, names, rt.modules);
    assert SubsLoadable(files, arts, names, ios, rt.codecs);
    var loaded := map t | t in ios :: LoadSub(files, ios[t], Group(arts, names, t), rt.codecs).value;
    assert LoadRefs(files, arts, root, rt) == Ok(loaded);
    SameRefs(loaded, expected);
  }

  /** The refs load returns hold exactly the tokens of the descriptors it found. */
  lemma LoadedTokens(files: Storage, arts: Artifacts, root: Path, rt: Runtime)
    requires LoadRefs(files, arts, root, rt).Ok?
    ensures LoadRefs(files, arts, root, rt).value.Keys == DescriptorTokens(Others(arts, root, arts.Keys))
  {
  }

  /** A descriptor with no data artifacts under its token hands its codec no artifacts. */
  lemma DescriptorWithoutData(arts: Artifacts, names: set<string>, t: Token)
    requires forall n :: n in names && IsData(n) ==> DataToken(n) != t
    ensures Group(arts, names, t) == map[]
  {
  }

  /**
   * A token in the stream without a descriptor among the artifacts is never reloaded:
   * when it is the first such token, load fails with its KeyError.
   */
  lemma MissingDescriptorFails(files: Storage, arts: Artifacts, rt: Runtime, i: nat)
    requires FileName in arts && |arts| > 1 && LoadRefs(files, arts, arts[FileName], rt).Ok?
    requires arts[FileName] in files && files[arts[FileName]].Pickled?
    requires
      var stream := files[arts[FileName]].stream;
      && i < |stream| && stream[i].Placeholder?
      && stream[i].pid !in DescriptorTokens(Others(arts, arts[FileName], arts.Keys))
      && forall j :: 0 <= j < i && stream[j].Placeholder? ==>
           stream[j].pid in DescriptorTokens(Others(arts, arts[FileName], arts.Keys))
    ensures LoadSpec(files, arts, rt) == Err(MissingKey(files[arts[FileName]].stream[i].pid))
  {
    var root := arts[FileName];
    LoadedTokens(files, arts, root, rt);
    FirstMissingToken(files[root].stream, LoadRefs(files, arts, root, rt).value, i);
  }
}
