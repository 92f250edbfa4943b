/**
 * _ModelPickler: the generic pickler whose persistent_id hook pulls every
 * sub-object that has a specialised codec out of the stream, replacing it by a
 * fresh token and recording (io, obj) under that token in its refs dict.
 *
 * The pickler's traversal of the object graph is dill's and is not modelled: the
 * objects it offers to persistent_id are given, in order, as `visits`, and the
 * stream it writes is one Item per visit. uuid4() is a token supply: supply[i] is
 * the token minted when visits[i] is intercepted.
 */
module Pickler {
  import opened Values

  // ---------------------------------------------------------------------------
  // The refs dict: insertion-ordered, one entry per token.

  predicate DistinctTokens(refs: seq<RefEntry>) {
    forall i, j :: 0 <= i < j < |refs| ==> refs[i].token != refs[j].token
  }

  predicate HasToken(refs: seq<RefEntry>, t: Token) {
    exists i :: 0 <= i < |refs| && refs[i].token == t
  }

  /** Position of the first entry with token t, or |refs| when there is none. */
  function TokenIndex(refs: seq<RefEntry>, t: Token): (i: nat)
    ensures i <= |refs|
    ensures i < |refs| ==> refs[i].token == t
    ensures i == |refs| <==> !HasToken(refs, t)
  {
    if |refs| == 0 then 0
    else if refs[0].token == t then 0
    else
      assert HasToken(refs, t) ==> HasToken(refs[1..], t) by {
        if HasToken(refs, t) {
          var j :| 0 <= j < |refs| && refs[j].token == t;
          assert refs[1..][j - 1].token == t;
        }
      }
      1 + TokenIndex(refs[1..], t)
  }

  /** refs[e.token] = (e.io, e.obj): replaces the entry with that token in place, or appends. */
  function Put(refs: seq<RefEntry>, e: RefEntry): (r: seq<RefEntry>)
    ensures e in r
    ensures forall x :: x in r ==> x == e || x in refs
    ensures forall x :: x in refs && x.token != e.token ==> x in r
    ensures !HasToken(refs, e.token) ==> r == refs + [e]
    ensures DistinctTokens(refs) ==> DistinctTokens(r)
  {
    var i := TokenIndex(refs, e.token);
    if i == |refs| then refs + [e]
    else
      var r := refs[i := e];
      assert r[i] == e;
      assert forall j :: 0 <= j < |refs| && j != i ==> r[j] == refs[j];
      r
  }

  // ---------------------------------------------------------------------------
  // known_types

  /** Whether a hook adds its valid_types: it is not a CallableModelType and valid_types is truthy. */
  predicate Contributes(h: Hook) {
    !h.isCallableModelType && h.validTypes.Some? && |h.validTypes.value| > 0
  }

  /** The types the hooks in order add to known_types. */
  function KnownTypesOf(hooks: seq<Hook>): set<TypeName> {
    if |hooks| == 0 then {}
    else
      var h := hooks[|hooks| - 1];
      KnownTypesOf(hooks[..|hooks| - 1]) + (if Contributes(h) then set t | t in h.validTypes.value else {})
  }

  /**
   * known_types is the union of valid_types over the contributing hooks: a type is
   * known exactly when some hook that is not a CallableModelType lists it.
   */
  lemma {:induction false} KnownTypesAreUnion(hooks: seq<Hook>, t: TypeName)
    ensures t in KnownTypesOf(hooks) <==>
      exists i :: 0 <= i < |hooks| && Contributes(hooks[i]) && t in hooks[i].validTypes.value
  {
    if |hooks| > 0 {
      var n := |hooks| - 1;
      KnownTypesAreUnion(hooks[..n], t);
      if t in KnownTypesOf(hooks[..n]) {
        var i :| 0 <= i < n && Contributes(hooks[..n][i]) && t in hooks[..n][i].validTypes.value;
        assert hooks[i] == hooks[..n][i];
      }
      if exists i :: 0 <= i < |hooks| && Contributes(hooks[i]) && t in hooks[i].validTypes.value {
        var i :| 0 <= i < |hooks| && Contributes(hooks[i]) && t in hooks[i].validTypes.value;
        if i < n {
          assert hooks[..n][i] == hooks[i];
        }
      }
    }
  }

  /** The loop of _ModelPickler.__init__ that gathers known_types. */
  method CollectKnownTypes(hooks: seq<Hook>) returns (known: set<TypeName>)
    ensures known == KnownTypesOf(hooks)
  {
    known := {};
    for i := 0 to |hooks|
      invariant known == KnownTypesOf(hooks[..i])
    {
      var h := hooks[i];
      if !h.isCallableModelType && h.validTypes.Some? && |h.validTypes.value| > 0 {
        known := known + set t | t in h.validTypes.value;
      }
      assert hooks[..i + 1][..i] == hooks[..i];
    }
    assert hooks[..|hooks|] == hooks;
  }

  // ---------------------------------------------------------------------------
  // _get_non_pickle_io and persistent_id

  /** isinstance(io, (PickleModelIO, SimplePickleIO)) */
  predicate IsPickleIo(io: Codec) {
    IsInstance(io, PickleModelIOClass) || IsInstance(io, SimplePickleIOClass)
  }

  /**
   * _get_non_pickle_io: the specialised codec of obj, or None when obj is of no
   * known type (the analyzer is then not consulted), when the analyzer finds no
   * model in it, or when the codec it finds is a pickling one.
   */
  function NonPickleIo(known: set<TypeName>, analyze: Obj -> Analysis, obj: Obj): (r: Option<Codec>)
    ensures obj.classes * known == {} ==> r.None?
    ensures analyze(obj).NotAModel? ==> r.None?
    ensures r.Some? ==> analyze(obj) == ModelOf(r.value) && !IsPickleIo(r.value)
    ensures obj.classes * known != {} && analyze(obj).ModelOf? && !IsPickleIo(analyze(obj).io) ==> r.Some?
  {
    if obj.classes * known == {} then None
    else
      match analyze(obj)
      case NotAModel => None
      case ModelOf(io) => if IsPickleIo(io) then None else Some(io)
  }

  class ModelPickler {
    const knownTypes: set<TypeName>
    const analyze: Obj -> Analysis
    var refs: seq<RefEntry>

    ghost predicate Valid()
      reads this
    {
      DistinctTokens(refs)
    }

    /** _ModelPickler.__init__: empty refs, known_types gathered from the hooks. */
    constructor (hooks: seq<Hook>, analyze: Obj -> Analysis)
      ensures Valid()
      ensures knownTypes == KnownTypesOf(hooks) && this.analyze == analyze && refs == []
    {
      var known := CollectKnownTypes(hooks);
      knownTypes := known;
      this.analyze := analyze;
      refs := [];
    }

    /**
     * persistent_id: None and refs untouched when obj has no specialised codec;
     * otherwise refs[minted] = (io, obj) and the token is returned. With a fresh
     * token, refs grows by exactly that entry and no earlier entry changes.
     */
    method PersistentId(obj: Obj, minted: Token) returns (pid: Option<Token>)
      requires Valid()
      modifies this
      ensures Valid()
      ensures NonPickleIo(knownTypes, analyze, obj).None? ==> pid.None? && refs == old(refs)
      ensures NonPickleIo(knownTypes, analyze, obj).Some? ==>
        pid == Some(minted) && refs == Put(old(refs), RefEntry(minted, NonPickleIo(knownTypes, analyze, obj).value, obj))
      ensures NonPickleIo(knownTypes, analyze, obj).Some? && !HasToken(old(refs), minted) ==>
        refs == old(refs) + [RefEntry(minted, NonPickleIo(knownTypes, analyze, obj).value, obj)]
    {
      var io := NonPickleIo(knownTypes, analyze, obj);
      if io.None? {
        return None;
      }
      refs := Put(refs, RefEntry(minted, io.value, obj));
      pid := Some(minted);
    }
  }

  // ---------------------------------------------------------------------------
  // The pickling pass: stream and refs

  /**
   * The stream and refs the pickler produces over the visits: one stream item per
   * visit, and at most one refs entry per visit.
   */
  function Pickle(known: set<TypeName>, analyze: Obj -> Analysis, visits: seq<Obj>, supply: seq<Token>): (r: (seq<Item>, seq<RefEntry>))
    requires |supply| == |visits|
    ensures |r.0| == |visits| && |r.1| <= |visits|
  {
    if |visits| == 0 then ([], [])
    else
      var n := |visits| - 1;
      var (stream, refs) := Pickle(known, analyze, visits[..n], supply[..n]);
      match NonPickleIo(known, analyze, visits[n])
      case None => (stream + [Leaf(visits[n])], refs)
      case Some(io) => (stream + [Placeholder(supply[n])], Put(refs, RefEntry(supply[n], io, visits[n])))
  }

  /**
   * _serialize_model: a fresh pickler offers each visit to persistent_id and writes
   * the token it returns, or the object itself; the refs dict it returns has one
   * entry per token.
   */
  method SerializeModel(hooks: seq<Hook>, analyze: Obj -> Analysis, visits: seq<Obj>, supply: seq<Token>)
    returns (stream: seq<Item>, refs: seq<RefEntry>)
    requires |supply| == |visits|
    ensures (stream, refs) == Pickle(KnownTypesOf(hooks), analyze, visits, supply)
    ensures DistinctTokens(refs)
  {
    var pickler := new ModelPickler(hooks, analyze);
    stream := [];
    for i := 0 to |visits|
      invariant pickler.Valid() && pickler.knownTypes == KnownTypesOf(hooks) && pickler.analyze == analyze
      invariant (stream, pickler.refs) == Pickle(KnownTypesOf(hooks), analyze, visits[..i], supply[..i])
    {
      assert visits[..i + 1][..i] == visits[..i] && visits[..i + 1][i] == visits[i];
      assert supply[..i + 1][..i] == supply[..i] && supply[..i + 1][i] == supply[i];
      var pid := pickler.PersistentId(visits[i], supply[i]);
      match pid
      case None => stream := stream + [Leaf(visits[i])];
      case Some(t) => stream := stream + [Placeholder(t)];
    }
    assert visits[..|visits|] == visits;
    assert supply[..|supply|] == supply;
    refs := pickler.refs;
  }

  /** Each visit becomes one stream item: its token when intercepted, the object itself otherwise. */
  lemma {:induction false} PickleStream(known: set<TypeName>, analyze: Obj -> Analysis, visits: seq<Obj>, supply: seq<Token>)
    requires |supply| == |visits|
    ensures |Pickle(known, analyze, visits, supply).0| == |visits|
    ensures forall i :: 0 <= i < |visits| ==>
      Pickle(known, analyze, visits, supply).0[i] ==
        (if NonPickleIo(known, analyze, visits[i]).Some? then Placeholder(supply[i]) else Leaf(visits[i]))
  {
    if |visits| > 0 {
      var n := |visits| - 1;
      PickleStream(known, analyze, visits[..n], supply[..n]);
    }
  }

  /** The refs always carry distinct tokens, each minted for a visit, with that visit's specialised codec. */
  lemma {:induction false} PickleRefsSound(known: set<TypeName>, analyze: Obj -> Analysis, visits: seq<Obj>, supply: seq<Token>)
    requires |supply| == |visits|
    ensures DistinctTokens(Pickle(known, analyze, visits, supply).1)
    ensures forall e :: e in Pickle(known, analyze, visits, supply).1 ==>
      e.token in supply && e.obj in visits && NonPickleIo(known, analyze, e.obj) == Some(e.io)
  {
    if |visits| > 0 {
      var n := |visits| - 1;
      PickleRefsSound(known, analyze, visits[..n], supply[..n]);
      forall e | e in Pickle(known, analyze, visits[..n], supply[..n]).1
        ensures e.token in supply && e.obj in visits
      {
        assert e.token in supply[..n];
        assert e.obj in visits[..n];
      }
    }
  }

  /** Pairwise distinct tokens, as uuid4 draws them. */
  predicate DistinctSupply(supply: seq<Token>) {
    forall i, j :: 0 <= i < j < |supply| ==> supply[i] != supply[j]
  }

  /**
   * With distinct tokens, the refs are exhaustive: every intercepted visit has its
   * own entry, which no later interception overwrites.
   */
  lemma {:induction false} PickleRefsComplete(known: set<TypeName>, analyze: Obj -> Analysis, visits: seq<Obj>, supply: seq<Token>)
    requires |supply| == |visits| && DistinctSupply(supply)
    ensures forall i :: 0 <= i < |visits| && NonPickleIo(known, analyze, visits[i]).Some? ==>
      RefEntry(supply[i], NonPickleIo(known, analyze, visits[i]).value, visits[i]) in Pickle(known, analyze, visits, supply).1
  {
    if |visits| > 0 {
      var n := |visits| - 1;
      PickleRefsComplete(known, analyze, visits[..n], supply[..n]);
      PickleRefsSound(known, analyze, visits[..n], supply[..n]);
      var refs := Pickle(known, analyze, visits[..n], supply[..n]).1;
      forall i | 0 <= i < n && NonPickleIo(known, analyze, visits[i]).Some?
        ensures RefEntry(supply[i], NonPickleIo(known, analyze, visits[i]).value, visits[i]) in Pickle(known, analyze, visits, supply).1
      {
        assert visits[..n][i] == visits[i] && supply[..n][i] == supply[i];
        assert supply[i] != supply[n];
      }
    }
  }

  /** No refs are recorded exactly when no visit is intercepted: then dump writes a single artifact. */
  lemma {:induction false} NoRefsIffNoInterception(known: set<TypeName>, analyze: Obj -> Analysis, visits: seq<Obj>, supply: seq<Token>)
    requires |supply| == |visits|
    ensures Pickle(known, analyze, visits, supply).1 == [] <==>
      forall i :: 0 <= i < |visits| ==> NonPickleIo(known, analyze, visits[i]).None?
  {
    if |visits| > 0 {
      var n := |visits| - 1;
      NoRefsIffNoInterception(known, analyze, visits[..n], supply[..n]);
      if Pickle(known, analyze, visits[..n], supply[..n]).1 == [] {
        forall i | 0 <= i < n ensures NonPickleIo(known, analyze, visits[i]).None? {
          assert visits[..n][i] == visits[i];
        }
      }
      if forall i :: 0 <= i < |visits| ==> NonPickleIo(known, analyze, visits[i]).None? {
        forall i | 0 <= i < n ensures NonPickleIo(known, analyze, visits[..n][i]).None? {
          assert visits[..n][i] == visits[i];
        }
      }
    }
  }
}
