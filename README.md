# Reference-splitting pickle codec

This project models `PickleModelIO`, the model codec in `mlem/contrib/callable.py`, and proves its properties in Dafny.
The codec pickles an arbitrary object graph. It also pulls out every inner object that has a specialised (non-pickle) codec of its own, such as a framework model nested inside a Python callable.

- **Dump** offers every object the pickler meets to `_ModelPickler.persistent_id`.
  - An object of a known type whose analyzed codec is not a pickling one is replaced in the stream by a fresh uuid4 token. `(io, obj)` is recorded under that token.
  - With no such object, the stream alone is written at the path, as the single artifact `data.pkl`.
  - Otherwise the stream goes to `path/data.pkl`. Each token's codec writes its own artifacts under `path/<token>`, which are renamed `<token>_<name>`. A descriptor `<token>.io` holds the codec's class identity `module.ClassName`.
- **Load** sorts the artifacts back:
  - names ending in `.io` are descriptors;
  - other names are split at their first `_`.
  
  Load then reimports each descriptor's codec class and reloads each token's object with that codec. Finally it unpickles the root stream, and `_ModelUnpickler.persistent_load` substitutes the reloaded object for each token.

The modules, one file each:

- `values.dfy` (Values): the entities — objects, codecs, stream items, blobs, storage, artifacts, refs entries, analyzer hooks — and the collaborators bundled as a `Runtime`.
- `text.dfy` (Text): splitting and joining strings on a character.
- `descriptor.dfy` (Descriptor): `_serialize_io` / `_deserialize_io`.
- `pickler.dfy` (Pickler): `_ModelPickler` as a class with its `refs` dict, `known_types`, `_get_non_pickle_io`, `persistent_id`, and `_serialize_model` as a loop over the pickler's visits.
- `unpickler.dfy` (Unpickler): `persistent_load` and `_deserialize_model`.
- `multiplex.dfy` (Multiplex): how dump names the artifacts and how load sorts those names back.
- `pickle_io.dfy` (PickleIO):
  - a `Store` class for the storage;
  - `dump` as a method that writes into the store, specified by layout functions;
  - `load` as a method with both of its loops, specified by `LoadSpec`.
- `roundtrip.dfy` (RoundTrip): load after dump gives back the graph, plus the layout facts dump promises.

Nothing is executed: the properties are proved for all inputs.

## Model

| member | source | states |
|---|---|---|
| Descriptor.ParseIdentity | mlem/contrib/callable.py:128-130 | the identity text is split at its last dot into a non-empty module name and a dot-free class name that rejoin to the text; an empty module name is refused |
| Descriptor.SerializeIo | mlem/contrib/callable.py:112-119 | the descriptor is text from which a well-named class's module and class names parse back |
| Descriptor.DeserializeIo | mlem/contrib/callable.py:121-131 | a blob that is not text is undecodable; a codec comes back only from the identity text of a well-named class, and it is what resolving that class gives |
| Text.SplitOnce | mlem/contrib/callable.py:81 | `split("_", maxsplit=1)` unpacks exactly when the name holds a `_`; then the head has no `_` and head, `_`, tail rejoin to the name |
| Text.SplitOnceOfJoin | mlem/contrib/callable.py:81 | splitting `head_tail` gives back head and tail when head has no `_` |
| Text.JoinSplit | mlem/contrib/callable.py:129-130 | joining the pieces of a split on dots gives the string back |
| Text.SplitAppend | mlem/contrib/callable.py:119-130 | appending a dot and a dot-free piece to a string appends that piece to its split |
| Descriptor.Resolve | mlem/contrib/callable.py:131 | instantiating `module.__dict__[name]` succeeds exactly when the module name is non-empty, importable, and defines the name |
| Descriptor.ParseIdentityOfIdentity | mlem/contrib/callable.py:112-119 | parsing the `module.ClassName` text written for a well-named class gives back its module and class names |
| Descriptor.DescriptorRoundTrip | mlem/contrib/callable.py:112-131 | reading back a descriptor resolves exactly the class it was written for |
| Descriptor.ReloadsSameClass | mlem/contrib/callable.py:112-131 | when the registry holds the class, the reloaded codec is an instance of the same class |
| Pickler.TokenIndex | mlem/contrib/callable.py:180 | the position of a token in the insertion-ordered refs dict, equal to its length exactly when the token is absent |
| Pickler.Put | mlem/contrib/callable.py:180 | `refs[token] = (io, obj)`: the new entry is present; every other entry is kept; a fresh token appends at the end; distinct tokens stay distinct |
| Pickler.KnownTypesAreUnion | mlem/contrib/callable.py:147-151 | a type is known exactly when some hook that is not a CallableModelType lists it in non-empty valid_types |
| Pickler.CollectKnownTypes | mlem/contrib/callable.py:147-151 | the loop over the hooks computes the union of known types |
| Pickler.NonPickleIo | mlem/contrib/callable.py:153-173 | None for an object of no known type, for a non-model, and for a pickling codec; otherwise the analyzed codec |
| Pickler.Pickle | mlem/contrib/callable.py:89-99 | the reference pass over the visits: one stream item per visit and at most one refs entry per visit |
| Pickler.ModelPickler.constructor | mlem/contrib/callable.py:142-151 | a new pickler has empty refs and the known types of the hooks |
| Pickler.ModelPickler.PersistentId | mlem/contrib/callable.py:175-181 | returns None and leaves refs unchanged in the three non-intercepting cases; otherwise records `(io, obj)` under the minted token, which it returns; with a fresh token, refs grows by exactly that entry |
| Pickler.SerializeModel | mlem/contrib/callable.py:89-99 | a fresh pickler over the visits yields the stream and refs of `Pickle`, and the refs dict it returns has distinct tokens |
| Pickler.PickleStream | mlem/contrib/callable.py:175-181 | one stream item per visit: its token when intercepted, the object itself otherwise |
| Pickler.PickleRefsSound | mlem/contrib/callable.py:175-181 | refs carry distinct tokens, each minted for a visit, with that visit's specialised codec |
| Pickler.PickleRefsComplete | mlem/contrib/callable.py:175-181 | with distinct tokens, every intercepted visit keeps its own entry in refs |
| Pickler.NoRefsIffNoInterception | mlem/contrib/callable.py:37-42 | refs is empty exactly when no visit is intercepted |
| Unpickler.PersistentLoad | mlem/contrib/callable.py:189-190 | returns `refs[pid]` when present, otherwise a KeyError for that pid |
| Unpickler.DeserializeModel | mlem/contrib/callable.py:102-109 | succeeds exactly when every token in the stream has a reloaded object; then each item is replaced in place by its object |
| Unpickler.FirstMissingToken | mlem/contrib/callable.py:189-190 | the first token without a reloaded object is the one whose KeyError surfaces |
| Multiplex.DataNameParts | mlem/contrib/callable.py:81 | `<token>_<name>` splits back at the first `_` into its token and name when the token has no `_` |
| Multiplex.Prefixed | mlem/contrib/callable.py:49-56 | the renamed codec artifacts are exactly the `<token>_<name>` of the codec's names, each at its own handle |
| Multiplex.Mux | mlem/contrib/callable.py:44-62 | the artifacts dump returns with references: `data.pkl` is always among them, and the last reference's descriptor keeps the handle it was written at |
| Multiplex.FileNameReserved | mlem/contrib/callable.py:44-62 | no reference's artifact is named `data.pkl` |
| Multiplex.OriginUnique | mlem/contrib/callable.py:48-62 | an artifact name comes from only one token |
| Multiplex.MuxRoot | mlem/contrib/callable.py:44-46 | the artifacts map `data.pkl` to the root stream |
| Multiplex.MuxHas | mlem/contrib/callable.py:48-62 | every name a reference files is in the artifacts, with the handle that reference gave it |
| Multiplex.MuxOrigin | mlem/contrib/callable.py:48-62 | every artifact other than `data.pkl` comes from some reference |
| Multiplex.DescriptorNameToken | mlem/contrib/callable.py:76-77 | stripping `.io` from a descriptor name and appending it again gives the name back |
| Multiplex.DescriptorTokens | mlem/contrib/callable.py:76-79 | every token load collects has its descriptor among the names |
| Multiplex.SubNames | mlem/contrib/callable.py:80-82 | every sub-name grouped under a token comes from a `<token>_<name>` artifact |
| Multiplex.DataNameSplit | mlem/contrib/callable.py:81 | splitting at the first `_` and rejoining gives the name back |
| Multiplex.DataNameEndsWith | mlem/contrib/callable.py:76 | a renamed codec artifact reads as a descriptor only when the codec's own name ends in `.io` |
| Multiplex.DemuxNames | mlem/contrib/callable.py:72-74 | after dump, load skips exactly `data.pkl` |
| Multiplex.DemuxNoBadNames | mlem/contrib/callable.py:80-81 | after dump, no artifact name lacks the `_` load splits on |
| Multiplex.DemuxDescriptorTokens | mlem/contrib/callable.py:76-79 | after dump, load collects exactly the tokens dump filed |
| Multiplex.DescriptorFiled | mlem/contrib/callable.py:57-77 | every descriptor name among the dumped artifacts belongs to a dumped token |
| Multiplex.FiledDescriptor | mlem/contrib/callable.py:57-77 | every dumped token's descriptor is among the names load sorts |
| Multiplex.DemuxDescriptor | mlem/contrib/callable.py:57-62 | each token's descriptor name maps to the handle its descriptor was written at |
| Multiplex.DemuxGroup | mlem/contrib/callable.py:80-84 | after dump, load hands each token's codec exactly the artifacts that codec returned |
| Multiplex.GroupedIsFiled | mlem/contrib/callable.py:80-82 | a sub-name load groups under a dumped token is one that token's codec returned |
| Multiplex.FiledIsGrouped | mlem/contrib/callable.py:80-82 | each artifact a token's codec returned is grouped back under that token, with its handle |
| Multiplex.PrefixedSize | mlem/contrib/callable.py:49-56 | renaming keeps the number of codec artifacts |
| Multiplex.MuxFresh | mlem/contrib/callable.py:48-62 | a later reference files no name an earlier one filed |
| Multiplex.MuxSize | mlem/contrib/callable.py:44-63 | the artifacts number 1 + N + the total of the codecs' artifacts |
| PickleIO.Store.Write | mlem/contrib/callable.py:40-41 | writing sets the blob at the path and returns the path as the artifact |
| PickleIO.SubArtifactsAt | mlem/contrib/callable.py:52-54 | the codec returns one artifact per name it writes, at `base/name` |
| PickleIO.WriteItemsAt | mlem/contrib/callable.py:52-54 | the blob at `base/name` is the last one the codec wrote under that name |
| PickleIO.WriteItemsElsewhere | mlem/contrib/callable.py:52-54 | the codec writes nothing outside `base` |
| PickleIO.SubDump | mlem/contrib/callable.py:52-54 | `io.dump(storage, path/token, obj)` writes the codec's blobs under the token's directory and returns their handles |
| PickleIO.WriteRefs | mlem/contrib/callable.py:48-62 | writing every reference's codec artifacts and descriptor touches nothing outside `path` |
| PickleIO.LayoutFiles | mlem/contrib/callable.py:36-63 | the storage after dump: every path other than `path` and the paths below it keeps its blob |
| PickleIO.LayoutArtifacts | mlem/contrib/callable.py:36-68 | the artifacts dump returns always hold `data.pkl`, and are a single artifact exactly when nothing was intercepted, the case load tells apart with `len(artifacts) > 1` |
| PickleIO.Dump | mlem/contrib/callable.py:36-63 | the store is the layout of the pickled stream and refs, and the artifacts returned name it |
| PickleIO.MuxGrows | mlem/contrib/callable.py:48-62 | one more reference adds its prefixed codec artifacts, then its descriptor, to the artifacts |
| PickleIO.WriteRefsGrows | mlem/contrib/callable.py:48-62 | one more reference writes its codec artifacts, then its descriptor |
| PickleIO.LoadSub | mlem/contrib/callable.py:84 | `io.load(group)` succeeds only when every handed artifact exists, and fails only with a missing file or the codec's own failure |
| PickleIO.SortArtifacts | mlem/contrib/callable.py:72-82 | the first loop fails exactly on a name without `_` or an unreadable descriptor; otherwise it returns ref_ios and each token's group |
| PickleIO.UnsortedRefs | mlem/contrib/callable.py:76-81 | a bad name or an unreadable descriptor makes load fail |
| PickleIO.SortedRefs | mlem/contrib/callable.py:83-84 | once sorted, the refs are each token's reloaded object, unless a codec fails |
| PickleIO.UnreadableDescriptor | mlem/contrib/callable.py:76-79 | a descriptor that does not read back makes the descriptors unreadable |
| PickleIO.BadNameFound | mlem/contrib/callable.py:80-81 | a non-root, non-descriptor name without `_` is a bad name |
| PickleIO.DescriptorStep | mlem/contrib/callable.py:76-79 | one more descriptor adds its token to ref_ios and leaves the groups unchanged |
| PickleIO.RefIosStep | mlem/contrib/callable.py:76-79 | `ref_ios[ref_uuid] = io` adds the descriptor's token with the codec read from it |
| PickleIO.DataStep | mlem/contrib/callable.py:80-82 | one more data name joins its token's group and leaves ref_ios unchanged |
| PickleIO.ReloadRefs | mlem/contrib/callable.py:83-84 | the second loop, given `io.load`, fails exactly when some codec's load fails; otherwise it maps every token of ref_ios to what its codec loaded from the token's group |
| PickleIO.LoadRefs | mlem/contrib/callable.py:67-84 | the refs load rebuilds come back only when no data name lacks `_` and every descriptor reads back |
| PickleIO.LoadSpec | mlem/contrib/callable.py:65-86 | a graph comes back only from a pickle stream at the handle of `data.pkl`, one object per item of that stream |
| PickleIO.Load | mlem/contrib/callable.py:65-86 | load succeeds exactly when LoadSpec does, and then returns the same graph; a missing `data.pkl` fails with its KeyError; with a lone artifact, or once the refs sort and reload, it reports exactly the error LoadSpec does (a missing or non-stream root, a KeyError from `persistent_load`) |
| PickleIO.LoadSingleArtifact | mlem/contrib/callable.py:66-86 | a lone `data.pkl` is unpickled against empty refs |
| PickleIO.LoadedTokens | mlem/contrib/callable.py:83-84 | the reloaded refs hold exactly the descriptor tokens |
| PickleIO.DescriptorWithoutData | mlem/contrib/callable.py:84 | a descriptor with no data artifacts gives its codec an empty dict |
| PickleIO.LoadWithRefs | mlem/contrib/callable.py:65-86 | with several artifacts, load unpickles the root stream against the refs rebuilt from the others |
| PickleIO.MissingDescriptorFails | mlem/contrib/callable.py:83-86 | the first stream token without a descriptor fails load with its KeyError |
| RoundTrip.RefObjectsAt | mlem/contrib/callable.py:175-190 | with distinct tokens, each token maps to the object it was minted for |
| RoundTrip.RefObjectsKeys | mlem/contrib/callable.py:175-190 | the unpickler's refs hold exactly the pickler's tokens |
| RoundTrip.UnpickleAfterPickle | mlem/contrib/callable.py:175-190 | unpickling the stream against the recorded refs gives back every visited object |
| RoundTrip.FileNameNotDescriptor | mlem/contrib/callable.py:32-34 | `data.pkl` is never a descriptor name |
| RoundTrip.WriteRefsRoot | mlem/contrib/callable.py:44-62 | writing the references leaves the root stream in place |
| RoundTrip.WriteRefsDescriptor | mlem/contrib/callable.py:57-62 | each descriptor holds its codec's class identity and is overwritten by no other reference |
| RoundTrip.WriteRefsSub | mlem/contrib/callable.py:49-56 | each codec's artifacts remain under `path/token` and are overwritten by no other reference |
| RoundTrip.ItemsMapKey | mlem/contrib/callable.py:52-54 | every key of the codec's artifact dict is a name the codec wrote |
| RoundTrip.FilingsDemuxable | mlem/contrib/callable.py:48-82 | the names dump gives to references can be sorted back by load |
| RoundTrip.DescriptorReloads | mlem/contrib/callable.py:57-79 | each descriptor, where load finds it, reads back as its own codec |
| RoundTrip.GroupReadsBack | mlem/contrib/callable.py:52-84 | reading back a reference's artifacts gives its codec the blobs it wrote |
| RoundTrip.SubReloads | mlem/contrib/callable.py:84 | each codec, handed the group for its token, reloads its object |
| RoundTrip.DumpedNamesSort | mlem/contrib/callable.py:72-82 | after dump, load finds no bad name and can read back every descriptor |
| RoundTrip.DumpedTokens | mlem/contrib/callable.py:48-82 | after dump, load finds no bad name, and the descriptors it finds are exactly those of the refs' tokens |
| RoundTrip.DumpedDescriptorsRead | mlem/contrib/callable.py:57-79 | after dump, every descriptor load finds reads back |
| RoundTrip.LoadRefsSorted | mlem/contrib/callable.py:83-84 | once names sort and every codec reloads, the refs are each token with its reloaded object |
| RoundTrip.TokenReloads | mlem/contrib/callable.py:83-84 | after dump, the codec read back for a token reloads that token's object |
| RoundTrip.ReloadAfterDump | mlem/contrib/callable.py:36-84 | load rebuilds exactly the refs the unpickler needs: each token with the object it was minted for |
| RoundTrip.LoadAfterLayout | mlem/contrib/callable.py:36-86 | loading the layout unpickles its stream against its refs |
| RoundTrip.LoadAfterRefs | mlem/contrib/callable.py:44-86 | with references, load finds the stream at `path/data.pkl` and the refs dump recorded |
| RoundTrip.RoundTrip | mlem/contrib/callable.py:36-86 | load(dump(model)) gives back every visited object |
| RoundTrip.SingleArtifact | mlem/contrib/callable.py:39-42 | with nothing intercepted, dump writes the stream alone at path and returns `{data.pkl: path}` |
| RoundTrip.ArtifactCount | mlem/contrib/callable.py:44-63 | with N references, dump returns 1 + N + the total of the codecs' distinct artifact names |
| RoundTrip.IoSuffixedArtifactMisread | mlem/contrib/callable.py:76-84 | for every token `t` and every codec artifact name `k` ending in `.io`, the filed name `t_k` reads as a descriptor, of the token `t_` + `k` without `.io`, never `t`; and load hands `t`'s codec no artifact named `k` |
| RoundTrip.DumpThenLoad | mlem/contrib/callable.py:36-86 | dump followed by load through one store returns the visited objects |

## Left out

- The pickle format, dill, and the pickler's traversal of the object graph are not modelled.
  - The objects the pickler offers to `persistent_id` are given as a sequence of visits.
  - The stream is one item per visit.
  - Memoisation, and the stream's bytes, are not modelled.
- uuid4 is a token supply passed as a parameter, so randomness is not modelled. The round trip assumes the draws are pairwise distinct and contain no `_`, which uuid4 strings satisfy.
- Storage is a map from paths to blobs, and `posixpath.join(p, n)` appends one component. Absolute components and `..` are not modelled.
- A specialised codec's dump is modelled as the ordered names and blobs it writes, each at `base/name`. Codecs that write elsewhere, or return handles other than the paths they wrote, are not modelled.
- The codec's load is a function of the blobs it is handed, and its exceptions become a failure of that codec.
- UTF-8 encoding of the descriptor is not modelled: the descriptor blob is its text, and a blob that is not text is undecodable.
- `import_module`'s relative-package argument `pkg_name` is not modelled. Import is a lookup in a registry of modules, and instantiation returns the registry's default instance of the class.
- isinstance against known_types is a test on the set of class names of the object and its bases.
- `ModelAnalyzer.analyze` is a parameter. Its ValueError for a non-model becomes `NotAModel`.
- `_ModelPickler.model` is stored by the source but never read, so it is not modelled.
- PickleIO.Load: when the first loop fails (a data name without `_`, a descriptor that does not read back) or the second loop fails (a codec that cannot reload its reference), the contract states that load fails but not which error it reports. The source iterates over a dict, so the first failing artifact depends on insertion order, and `LoadSpec` leaves that choice open. Every other error is pinned down.
- PickleIO.Dump: cannot fail. In the source a specialised codec's `io.dump` raising, or `storage.open` failing, aborts dump and leaves the artifacts already written in storage; storage writes and codec dumps always succeed here.
- Pickler.NonPickleIo: `ModelAnalyzer.analyze` either finds a model or raises the ValueError the source catches. Any other exception from the analyzer propagates out of `persistent_id` in the source and is not modelled.
- PickleIO.LoadSub: fails with a missing file whenever any artifact handed to the codec is missing from storage. In the source it is up to the codec whether it opens that artifact at all.
- Shared sub-objects: each visit of an object mints its own token, since `persistent_id` draws a fresh uuid4 on every call, so an object visited twice is recorded and dumped twice. Object identity is not modelled: the round trip gives back equal objects, not one shared object.
- RoundTrip.RoundTrip: holds only for codecs that round-trip their own artifacts (`CodecRoundTrips`):
  - a well-named class that the registry resolves to the very instance used;
  - no artifact name ending in `.io` (`IoSuffixedArtifactMisread` shows why);
  - a load that returns the object from what dump wrote.
- `CallableModelType` (`process`, `predict`, `get_requirements`), the lightgbm and other framework codecs, and the test files are not part of this model.
