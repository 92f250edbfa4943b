/**
 * The flat artifact namespace of PickleModelIO: dump files the root stream as
 * "data.pkl", each reference's descriptor as "<token>.io" and each of its codec's
 * own artifacts k as "<token>_<k>"; load sorts names back into descriptors (names
 * ending in ".io") and data groups (split on the first "_").
 */
module Multiplex {
  import opened Values
  import opened Text

  // ---------------------------------------------------------------------------
  // Dump side: building the names

  /** uuid + ".io" */
  function DescriptorName(t: Token): string {
    t + IoExt
  }

  /** f"{uuid}_{k}" */
  function DataName(t: Token, k: string): string {
    t + [Sep] + k
  }

  /** n reads as t, the separator, and a sub-artifact name. */
  predicate IsDataNameOf(n: string, t: Token) {
    |t| < |n| && n[..|t|] == t && n[|t|] == Sep
  }

  /** The sub-artifact name that follows t and the separator. */
  function SubName(n: string, t: Token): string
    requires IsDataNameOf(n, t)
  {
    n[|t| + 1..]
  }

  lemma DataNameParts(t: Token, k: string)
    ensures IsDataNameOf(DataName(t, k), t) && SubName(DataName(t, k), t) == k
  {
    assert DataName(t, k)[..|t|] == t;
  }

  /** {f"{uuid}_{k}": v for k, v in sub.items()} */
  function Prefixed(t: Token, sub: Artifacts): (r: Artifacts)
    ensures forall n :: n in r <==> IsDataNameOf(n, t) && SubName(n, t) in sub
    ensures forall n :: n in r ==> r[n] == sub[SubName(n, t)]
  {
    forall k | k in sub ensures IsDataNameOf(DataName(t, k), t) && SubName(DataName(t, k), t) == k {
      DataNameParts(t, k);
    }
    var r := map k | k in sub :: DataName(t, k) := sub[k];
    assert forall n :: IsDataNameOf(n, t) ==> n == DataName(t, SubName(n, t));
    r
  }

  /** What dump files for one reference: its token, its codec's artifacts, its descriptor's handle. */
  datatype Filing = Filing(token: Token, sub: Artifacts, descriptor: Path)

  /**
   * The artifacts dump returns when there are references: the root first, then for
   * each reference in order its prefixed sub-artifacts and its descriptor. "data.pkl"
   * is always among them, and the last descriptor written keeps its handle.
   */
  function Mux(root: Path, groups: seq<Filing>): (r: Artifacts)
    ensures FileName in r
    ensures |groups| > 0 ==>
      var last := groups[|groups| - 1];
      DescriptorName(last.token) in r && r[DescriptorName(last.token)] == last.descriptor
  {
    if |groups| == 0 then map[FileName := root]
    else
      var g := groups[|groups| - 1];
      var before := Mux(root, groups[..|groups| - 1]);
      assert FileName in before;
      (before + Prefixed(g.token, g.sub))[DescriptorName(g.token) := g.descriptor]
  }

  /** Tokens free of the separator, and pairwise distinct, as uuid4 strings in a dict are. */
  predicate MuxableFilings(groups: seq<Filing>) {
    && (forall i :: 0 <= i < |groups| ==> Sep !in groups[i].token)
    && (forall i, j :: 0 <= i < j < |groups| ==> groups[i].token != groups[j].token)
  }

  /** n is one of the names dump files for g. */
  predicate FromFiling(n: string, g: Filing) {
    n == DescriptorName(g.token) || (IsDataNameOf(n, g.token) && SubName(n, g.token) in g.sub)
  }

  /** The handle dump files under n for g. */
  function Lookup(n: string, g: Filing): Path
    requires FromFiling(n, g)
  {
    if n == DescriptorName(g.token) then g.descriptor else g.sub[SubName(n, g.token)]
  }

  lemma DescriptorNameHasNoSep(t: Token)
    requires Sep !in t
    ensures Sep !in DescriptorName(t)
  {
    assert forall i :: 0 <= i < |t| ==> DescriptorName(t)[i] == t[i];
    assert DescriptorName(t)[|t|..] == IoExt;
  }

  /** The reserved root name is never a token-derived name. */
  lemma FileNameReserved(g: Filing)
    requires Sep !in g.token
    ensures !FromFiling(FileName, g)
  {
    var d := DescriptorName(g.token);
    assert d[|d| - 1] == 'o' && FileName[|FileName| - 1] == 'l';
    assert forall i :: 0 <= i < |FileName| ==> FileName[i] != Sep;
  }

  /** A name is derived from at most one token. */
  lemma OriginUnique(n: string, g1: Filing, g2: Filing)
    requires Sep !in g1.token && Sep !in g2.token
    requires FromFiling(n, g1) && FromFiling(n, g2)
    ensures g1.token == g2.token
  {
    var t1, t2 := g1.token, g2.token;
    if n == DescriptorName(t1) && n == DescriptorName(t2) {
      assert t1 == n[..|n| - 3] == t2;
    } else if n == DescriptorName(t1) {
      DescriptorNameHasNoSep(t1);
    } else if n == DescriptorName(t2) {
      DescriptorNameHasNoSep(t2);
    }
  }

  /** The root is filed under "data.pkl", which no token claims. */
  lemma {:induction false} MuxRoot(root: Path, groups: seq<Filing>)
    requires MuxableFilings(groups)
    ensures FileName in Mux(root, groups) && Mux(root, groups)[FileName] == root
  {
    if |groups| > 0 {
      var last := |groups| - 1;
      assert MuxableFilings(groups[..last]);
      MuxRoot(root, groups[..last]);
      FileNameReserved(groups[last]);
    }
  }

  /** One step of Mux: the last filing's names are added over the earlier ones. */
  lemma MuxStep(root: Path, groups: seq<Filing>, n: string)
    requires |groups| > 0
    ensures n in Mux(root, groups) <==> n in Mux(root, groups[..|groups| - 1]) || FromFiling(n, groups[|groups| - 1])
    ensures n in Mux(root, groups) && FromFiling(n, groups[|groups| - 1]) ==>
      Mux(root, groups)[n] == Lookup(n, groups[|groups| - 1])
    ensures n in Mux(root, groups) && !FromFiling(n, groups[|groups| - 1]) ==>
      Mux(root, groups)[n] == Mux(root, groups[..|groups| - 1])[n]
  {
    var g := groups[|groups| - 1];
    var p := Prefixed(g.token, g.sub);
    assert Mux(root, groups) == (Mux(root, groups[..|groups| - 1]) + p)[DescriptorName(g.token) := g.descriptor];
    if n != DescriptorName(g.token) && FromFiling(n, g) {
      assert n in p && p[n] == g.sub[SubName(n, g.token)];
    }
  }

  /** Every name derived from a filing is in the multiplexed set, holding the handle filed under it. */
  lemma {:induction false} MuxHas(root: Path, groups: seq<Filing>, i: nat, n: string)
    requires MuxableFilings(groups)
    requires i < |groups| && FromFiling(n, groups[i])
    ensures n in Mux(root, groups) && Mux(root, groups)[n] == Lookup(n, groups[i])
    decreases |groups|, 1
  {
    if i < |groups| - 1 {
      MuxHasEarlier(root, groups, i, n);
    } else {
      MuxStep(root, groups, n);
    }
  }

  /** A name filed by an earlier filing keeps its handle past the later ones. */
  lemma {:induction false} MuxHasEarlier(root: Path, groups: seq<Filing>, i: nat, n: string)
    requires MuxableFilings(groups)
    requires i < |groups| - 1 && FromFiling(n, groups[i])
    ensures n in Mux(root, groups) && Mux(root, groups)[n] == Lookup(n, groups[i])
    decreases |groups|, 0
  {
    var gs := groups[..|groups| - 1];
    assert MuxableFilings(gs) && gs[i] == groups[i];
    MuxHas(root, gs, i, n);
    NotFromOther(groups, i, |groups| - 1, n);
    MuxStep(root, groups, n);
  }

  /** A name filed by one filing is not filed by another. */
  lemma NotFromOther(groups: seq<Filing>, i: nat, j: nat, n: string)
    requires MuxableFilings(groups)
    requires i < j < |groups| && FromFiling(n, groups[i])
    ensures !FromFiling(n, groups[j])
  {
    if FromFiling(n, groups[j]) {
      OriginUnique(n, groups[i], groups[j]);
      assert false;
    }
  }

  /** Every name of the multiplexed set other than "data.pkl" comes from some filing. */
  lemma {:induction false} MuxOrigin(root: Path, groups: seq<Filing>, n: string) returns (i: nat)
    requires n in Mux(root, groups) && n != FileName
    ensures i < |groups| && FromFiling(n, groups[i])
  {
    if |groups| > 0 {
      var last := |groups| - 1;
      var g := groups[last];
      if n == DescriptorName(g.token) || n in Prefixed(g.token, g.sub) {
        i := last;
      } else {
        i := MuxOrigin(root, groups[..last], n);
        assert groups[..last][i] == groups[i];
      }
    }
  }

  // ---------------------------------------------------------------------------
  // Load side: sorting the names

  /** The names load visits past the root check: those whose artifact is not the root's. */
  function Others(arts: Artifacts, root: Path, within: set<string>): set<string> {
    set n | n in within && n in arts && arts[n] != root
  }

  /** art_name.endswith(".io") */
  predicate IsDescriptor(n: string) {
    EndsWith(n, IoExt)
  }

  /** art_name[:-len(".io")] */
  function DescriptorToken(n: string): Token
    requires IsDescriptor(n)
  {
    n[..|n| - |IoExt|]
  }

  lemma DescriptorNameToken(n: string)
    requires IsDescriptor(n)
    ensures DescriptorName(DescriptorToken(n)) == n
  {
    assert n == n[..|n| - |IoExt|] + n[|n| - |IoExt|..];
  }

  /** uuid + ".io" ends in ".io", and stripping it gives uuid back. */
  lemma DescriptorNameIsDescriptor(t: Token)
    ensures IsDescriptor(DescriptorName(t)) && DescriptorToken(DescriptorName(t)) == t
  {
    var n := DescriptorName(t);
    assert n[|n| - |IoExt|..] == IoExt && n[..|n| - |IoExt|] == t;
  }

  /** The tokens of ref_ios: one per descriptor name. */
  function DescriptorTokens(names: set<string>): (r: set<Token>)
    ensures forall t :: t in r ==> DescriptorName(t) in names
  {
    forall n | n in names && IsDescriptor(n) ensures DescriptorName(DescriptorToken(n)) == n {
      DescriptorNameToken(n);
    }
    set n | n in names && IsDescriptor(n) :: DescriptorToken(n)
  }

  /** Data names without "_": their split cannot be unpacked and load raises ValueError. */
  function BadNames(names: set<string>): set<string> {
    set n | n in names && !IsDescriptor(n) && Sep !in n
  }

  /** A data name that splits into a token and a sub-artifact name. */
  predicate IsData(n: string) {
    !IsDescriptor(n) && Sep in n
  }

  /** ref_uuid of a data name: what precedes its first "_". */
  function DataToken(n: string): Token
    requires Sep in n
  {
    SplitOnce(n, Sep).value.0
  }

  /** subname of a data name: what follows its first "_". */
  function DataSubName(n: string): string
    requires Sep in n
  {
    SplitOnce(n, Sep).value.1
  }

  /** The sub-artifact names grouped under t. */
  function SubNames(names: set<string>, t: Token): (r: set<string>)
    ensures forall k :: k in r ==> DataName(t, k) in names
  {
    set n | n in names && IsData(n) && DataToken(n) == t :: DataSubName(n)
  }

  /**
   * ref_artifacts.get(t, {}): the artifacts grouped under t, keyed by sub-artifact
   * name; empty when no data name carries t.
   */
  function Group(arts: Artifacts, names: set<string>, t: Token): Artifacts {
    map k | k in SubNames(names, t) && DataName(t, k) in arts :: arts[DataName(t, k)]
  }

  /** A data name is its token, the separator and its sub-artifact name. */
  lemma DataNameSplit(n: string)
    requires Sep in n
    ensures DataName(DataToken(n), DataSubName(n)) == n
  {
  }

  /** Visiting one more name adds it to the names sorted unless its artifact is the root's. */
  lemma OthersStep(arts: Artifacts, root: Path, within: set<string>, n: string)
    requires n in arts
    ensures Others(arts, root, within + {n}) ==
      if arts[n] == root then Others(arts, root, within) else Others(arts, root, within) + {n}
  {
  }

  /** A descriptor name adds its token to ref_ios; any other name adds none. */
  lemma DescriptorTokensStep(names: set<string>, n: string)
    ensures DescriptorTokens(names + {n}) ==
      if IsDescriptor(n) then DescriptorTokens(names) + {DescriptorToken(n)} else DescriptorTokens(names)
  {
  }

  /** A data name without a separator is one more bad name; any other name adds none. */
  lemma BadNamesStep(names: set<string>, n: string)
    ensures BadNames(names + {n}) == if IsDescriptor(n) || Sep in n then BadNames(names) else BadNames(names) + {n}
  {
  }

  /** ref_artifacts[ref_uuid][subname] = art: one data name grows one group by one entry. */
  lemma GroupStep(arts: Artifacts, names: set<string>, n: string, t: Token)
    requires n in arts
    ensures Group(arts, names + {n}, t) ==
      if IsData(n) && DataToken(n) == t then Group(arts, names, t)[DataSubName(n) := arts[n]] else Group(arts, names, t)
  {
    if IsData(n) {
      DataNameSplit(n);
    }
    var before, after := SubNames(names, t), SubNames(names + {n}, t);
    if IsData(n) && DataToken(n) == t {
      assert after == before + {DataSubName(n)};
    } else {
      assert after == before;
    }
  }

  /** A name ends in ".io" only if its sub-artifact name does. */
  lemma DataNameEndsWith(t: Token, k: string)
    requires IsDescriptor(DataName(t, k))
    ensures IsDescriptor(k)
  {
    var n := DataName(t, k);
    assert n[|t|] == Sep;
    assert n[|n| - 3] == '.' && n[|n| - 2] == 'i' && n[|n| - 1] == 'o';
    assert |t| < |n| - 3;
    assert n[|n| - |IoExt|..] == k[|k| - |IoExt|..];
  }

  /** The tokens a sequence of groups files under. */
  function TokenSet(groups: seq<Filing>): set<Token> {
    set i | 0 <= i < |groups| :: groups[i].token
  }

  /**
   * What load needs of dumped names to sort them back: separator-free distinct
   * tokens, sub-artifact names not ending in ".io" (which would be misread as
   * descriptors), and handles other than the root's.
   */
  predicate DemuxableFilings(root: Path, groups: seq<Filing>) {
    && MuxableFilings(groups)
    && (forall i, k :: 0 <= i < |groups| && k in groups[i].sub ==> !IsDescriptor(k))
    && (forall i :: 0 <= i < |groups| ==> groups[i].descriptor != root && root !in groups[i].sub.Values)
  }

  /** Past the root check, load visits every dumped name but "data.pkl". */
  lemma DemuxNames(root: Path, groups: seq<Filing>)
    requires DemuxableFilings(root, groups)
    ensures Others(Mux(root, groups), root, Mux(root, groups).Keys) == Mux(root, groups).Keys - {FileName}
  {
    var arts := Mux(root, groups);
    MuxRoot(root, groups);
    forall n | n in arts && n != FileName
      ensures arts[n] != root
    {
      var i := MuxOrigin(root, groups, n);
      MuxHas(root, groups, i, n);
      if n != DescriptorName(groups[i].token) {
        assert arts[n] in groups[i].sub.Values;
      }
    }
  }

  /** A dumped name other than "data.pkl" is a descriptor name or holds a "_". */
  lemma NameShape(root: Path, groups: seq<Filing>, n: string)
    requires n in Mux(root, groups) && n != FileName
    ensures IsDescriptor(n) || Sep in n
  {
    var i := MuxOrigin(root, groups, n);
    var t := groups[i].token;
    if n != DescriptorName(t) {
      assert n[|t|] == Sep;
    }
  }

  /** Every dumped name is a descriptor name or splits on "_": load raises no ValueError. */
  lemma DemuxNoBadNames(root: Path, groups: seq<Filing>)
    requires DemuxableFilings(root, groups)
    ensures BadNames(Others(Mux(root, groups), root, Mux(root, groups).Keys)) == {}
  {
    var arts := Mux(root, groups);
    var names := Others(arts, root, arts.Keys);
    MuxRoot(root, groups);
    forall n | n in names
      ensures IsDescriptor(n) || Sep in n
    {
      NameShape(root, groups, n);
    }
  }

  /** The descriptor names load finds are exactly those of the dumped tokens. */
  lemma DemuxDescriptorTokens(root: Path, groups: seq<Filing>)
    requires DemuxableFilings(root, groups)
    ensures DescriptorTokens(Others(Mux(root, groups), root, Mux(root, groups).Keys)) == TokenSet(groups)
  {
    var arts := Mux(root, groups);
    var names := Others(arts, root, arts.Keys);
    DemuxNames(root, groups);
    forall t | t in DescriptorTokens(names)
      ensures t in TokenSet(groups)
    {
      DescriptorFiled(root, groups, t);
    }
    forall i | 0 <= i < |groups|
      ensures groups[i].token in DescriptorTokens(names)
    {
      FiledDescriptor(root, groups, i);
    }
  }

  /** A descriptor name among the dumped names is that of a dumped token. */
  lemma DescriptorFiled(root: Path, groups: seq<Filing>, t: Token)
    requires DemuxableFilings(root, groups)
    requires DescriptorName(t) in Mux(root, groups) && DescriptorName(t) != FileName
    ensures t in TokenSet(groups)
  {
    var n := DescriptorName(t);
    var i := MuxOrigin(root, groups, n);
    var g := groups[i];
    if n == DescriptorName(g.token) {
      DescriptorNameInjective(t, g.token);
    } else {
      var k := SubName(n, g.token);
      assert !IsDescriptor(k);
      DataNameRebuilt(n, g.token);
      DataNameEndsWith(g.token, k);
      assert false;
    }
  }

  /** Different tokens have different descriptor names. */
  lemma DescriptorNameInjective(t1: Token, t2: Token)
    requires DescriptorName(t1) == DescriptorName(t2)
    ensures t1 == t2
  {
    assert t1 == DescriptorName(t1)[..|t1|];
  }

  /** A name that reads as t and the separator is the data name of t and what follows. */
  lemma DataNameRebuilt(n: string, t: Token)
    requires IsDataNameOf(n, t)
    ensures n == DataName(t, SubName(n, t))
  {
    assert n == n[..|t|] + [n[|t|]] + n[|t| + 1..];
  }

  /** Every dumped token's descriptor is among the names load visits. */
  lemma FiledDescriptor(root: Path, groups: seq<Filing>, i: nat)
    requires DemuxableFilings(root, groups) && i < |groups|
    requires Others(Mux(root, groups), root, Mux(root, groups).Keys) == Mux(root, groups).Keys - {FileName}
    ensures groups[i].token in DescriptorTokens(Others(Mux(root, groups), root, Mux(root, groups).Keys))
  {
    var n := DescriptorName(groups[i].token);
    MuxHas(root, groups, i, n);
    FileNameReserved(groups[i]);
    assert IsDescriptor(n);
    assert DescriptorToken(n) == groups[i].token;
  }

  /** Each dumped descriptor name holds the descriptor's handle. */
  lemma DemuxDescriptor(root: Path, groups: seq<Filing>, i: nat)
    requires MuxableFilings(groups) && i < |groups|
    ensures DescriptorName(groups[i].token) in Mux(root, groups)
    ensures Mux(root, groups)[DescriptorName(groups[i].token)] == groups[i].descriptor
  {
    MuxHas(root, groups, i, DescriptorName(groups[i].token));
  }

  /** The data names load groups under a dumped token are exactly its codec's artifacts. */
  lemma DemuxGroup(root: Path, groups: seq<Filing>, i: nat)
    requires DemuxableFilings(root, groups) && i < |groups|
    ensures Group(Mux(root, groups), Others(Mux(root, groups), root, Mux(root, groups).Keys), groups[i].token) == groups[i].sub
  {
    var arts := Mux(root, groups);
    var names := Others(arts, root, arts.Keys);
    var g := groups[i];
    DemuxNames(root, groups);
    forall k | k in SubNames(names, g.token)
      ensures k in g.sub
    {
      GroupedIsFiled(root, groups, i, k);
    }
    forall k | k in g.sub
      ensures k in SubNames(names, g.token) && DataName(g.token, k) in arts && arts[DataName(g.token, k)] == g.sub[k]
    {
      FiledIsGrouped(root, groups, i, k);
    }
    GroupIs(arts, names, g.token, g.sub);
  }

  /** A group is the artifacts it should be once its names and handles agree. */
  lemma GroupIs(arts: Artifacts, names: set<string>, t: Token, sub: Artifacts)
    requires forall k :: k in SubNames(names, t) ==> k in sub
    requires forall k :: k in sub ==> k in SubNames(names, t) && DataName(t, k) in arts && arts[DataName(t, k)] == sub[k]
    ensures Group(arts, names, t) == sub
  {
    assert Group(arts, names, t).Keys == sub.Keys;
  }

  /** A sub-artifact name load groups under a dumped token is one its codec returned. */
  lemma GroupedIsFiled(root: Path, groups: seq<Filing>, i: nat, k: string)
    requires DemuxableFilings(root, groups) && i < |groups|
    requires DataName(groups[i].token, k) in Mux(root, groups)
    ensures k in groups[i].sub
  {
    var t := groups[i].token;
    var n := DataName(t, k);
    DataNameParts(t, k);
    FileNameReserved(Filing(t, map[k := []], []));
    var j := MuxOrigin(root, groups, n);
    OriginUnique(n, groups[j], Filing(t, map[k := []], []));
    assert j == i;
    assert n != DescriptorName(t) by {
      DescriptorNameHasNoSep(t);
    }
  }

  /** Each artifact a dumped token's codec returned is grouped back under that token, with its handle. */
  lemma FiledIsGrouped(root: Path, groups: seq<Filing>, i: nat, k: string)
    requires DemuxableFilings(root, groups) && i < |groups| && k in groups[i].sub
    requires Others(Mux(root, groups), root, Mux(root, groups).Keys) == Mux(root, groups).Keys - {FileName}
    ensures
      var arts := Mux(root, groups);
      && k in SubNames(Others(arts, root, arts.Keys), groups[i].token)
      && DataName(groups[i].token, k) in arts && arts[DataName(groups[i].token, k)] == groups[i].sub[k]
  {
    var arts := Mux(root, groups);
    var names := Others(arts, root, arts.Keys);
    var g := groups[i];
    var t := g.token;
    var n := DataName(t, k);
    DataNameParts(t, k);
    MuxHas(root, groups, i, n);
    FileNameReserved(g);
    assert n in names;
    if IsDescriptor(n) {
      DataNameEndsWith(t, k);
    }
    SplitOnceOfJoin(t, k, Sep);
    assert IsData(n) && DataToken(n) == t && DataSubName(n) == k;
  }

  // ---------------------------------------------------------------------------
  // Size of the multiplexed set

  /** The total number of sub-artifacts over the groups. */
  function SubTotal(groups: seq<Filing>): nat {
    if |groups| == 0 then 0 else SubTotal(groups[..|groups| - 1]) + |groups[|groups| - 1].sub|
  }

  lemma {:induction false} PrefixedKeys(t: Token, keys: set<string>, sub: Artifacts)
    requires keys <= sub.Keys
    ensures |set n | n in Prefixed(t, sub) && SubName(n, t) in keys| == |keys|
    decreases |keys|
  {
    var p := Prefixed(t, sub);
    if keys != {} {
      var k :| k in keys;
      PrefixedKeys(t, keys - {k}, sub);
      DataNameParts(t, k);
      var a := set n | n in p && SubName(n, t) in keys;
      var b := set n | n in p && SubName(n, t) in keys - {k};
      assert a == b + {DataName(t, k)};
      assert DataName(t, k) !in b;
    } else {
      var a := set n | n in p && SubName(n, t) in keys;
      assert a == {};
    }
  }

  /** Prefixing keeps one name per sub-artifact. */
  lemma PrefixedSize(t: Token, sub: Artifacts)
    ensures |Prefixed(t, sub)| == |sub|
  {
    var p := Prefixed(t, sub);
    PrefixedKeys(t, sub.Keys, sub);
    assert (set n | n in p && SubName(n, t) in sub.Keys) == p.Keys;
  }

  /** A name filed before the last filing is not one the last filing adds. */
  lemma MuxFresh(root: Path, groups: seq<Filing>, n: string)
    requires MuxableFilings(groups) && |groups| > 0
    requires n in Mux(root, groups[..|groups| - 1])
    ensures !FromFiling(n, groups[|groups| - 1])
  {
    var last := |groups| - 1;
    var gs, g := groups[..last], groups[last];
    if n == FileName {
      FileNameReserved(g);
    } else {
      var i := MuxOrigin(root, gs, n);
      assert gs[i] == groups[i];
      if FromFiling(n, g) {
        OriginUnique(n, gs[i], g);
        assert false;
      }
    }
  }

  /** Adding disjoint names and one more name counts them all. */
  lemma DisjointSize(m: Artifacts, p: Artifacts, d: string, h: Path)
    requires m.Keys !! p.Keys && d !in m && d !in p
    ensures |(m + p)[d := h]| == |m| + |p| + 1
  {
    MergeSize(m, p);
    assert d !in m + p;
  }

  /** Merging maps with disjoint keys adds their sizes. */
  lemma MergeSize(m: Artifacts, p: Artifacts)
    requires m.Keys !! p.Keys
    ensures |m + p| == |m| + |p|
  {
    assert (m + p).Keys == m.Keys + p.Keys;
    assert |(m + p).Keys| == |m.Keys| + |p.Keys|;
  }

  /**
   * With N references whose codecs return M1 ... MN artifacts, the multiplexed set
   * has exactly 1 + N + (M1 + ... + MN) names.
   */
  lemma {:induction false} MuxSize(root: Path, groups: seq<Filing>)
    requires MuxableFilings(groups)
    ensures |Mux(root, groups)| == 1 + |groups| + SubTotal(groups)
  {
    if |groups| > 0 {
      var last := |groups| - 1;
      var gs, g := groups[..last], groups[last];
      assert MuxableFilings(gs);
      MuxSize(root, gs);
      PrefixedSize(g.token, g.sub);
      var p := Prefixed(g.token, g.sub);
      var d := DescriptorName(g.token);
      forall n | n in Mux(root, gs)
        ensures n !in p && n != d
      {
        MuxFresh(root, groups, n);
      }
      assert d !in p;
      DisjointSize(Mux(root, gs), p, d, g.descriptor);
    }
  }
}
