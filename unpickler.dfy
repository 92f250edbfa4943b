/**
 * _ModelUnpickler: the generic unpickler whose persistent_load hook substitutes,
 * for each token met in the stream, the sub-object reloaded under that token.
 */
module Unpickler {
  import opened Values

  /** persistent_load: refs[pid], or the KeyError of a token that was never reloaded. */
  function PersistentLoad(refs: map<Token, Obj>, pid: Token): (r: Result<Obj>)
    ensures r.Ok? <==> pid in refs
    ensures r.Ok? ==> r.value == refs[pid]
    ensures r.Err? ==> r.error == MissingKey(pid)
  {
    if pid in refs then Ok(refs[pid]) else Err(MissingKey(pid))
  }

  /** Every token in the stream has a reloaded sub-object. */
  predicate Resolvable(stream: seq<Item>, refs: map<Token, Obj>) {
    forall i :: 0 <= i < |stream| && stream[i].Placeholder? ==> stream[i].pid in refs
  }

  /** What the i-th stream item stands for, once its token is resolved. */
  function Resolved(item: Item, refs: map<Token, Obj>): Obj
    requires item.Placeholder? ==> item.pid in refs
  {
    match item
    case Leaf(o) => o
    case Placeholder(pid) => refs[pid]
  }

  /**
   * _deserialize_model: unpickle the stream, each token substituted in place in a
   * single pass. Fails exactly when some token has no reloaded sub-object, and
   * then no default is put in its place.
   */
  function DeserializeModel(stream: seq<Item>, refs: map<Token, Obj>): (r: Result<seq<Obj>>)
    ensures r.Ok? <==> Resolvable(stream, refs)
    ensures r.Ok? ==> |r.value| == |stream|
    ensures r.Ok? ==> forall i :: 0 <= i < |stream| ==> r.value[i] == Resolved(stream[i], refs)
  {
    if |stream| == 0 then Ok([])
    else
      var head := match stream[0]
        case Leaf(o) => Ok(o)
        case Placeholder(pid) => PersistentLoad(refs, pid);
      if head.Err? then Err(head.error)
      else
        var tail := DeserializeModel(stream[1..], refs);
        assert forall i :: 1 <= i < |stream| ==> stream[i] == stream[1..][i - 1];
        if tail.Err? then Err(tail.error) else Ok([head.value] + tail.value)
  }

  /**
   * The first token of the stream without a reloaded sub-object is the one whose
   * KeyError surfaces.
   */
  lemma {:induction false} FirstMissingToken(stream: seq<Item>, refs: map<Token, Obj>, i: nat)
    requires i < |stream| && stream[i].Placeholder? && stream[i].pid !in refs
    requires forall j :: 0 <= j < i && stream[j].Placeholder? ==> stream[j].pid in refs
    ensures DeserializeModel(stream, refs) == Err(MissingKey(stream[i].pid))
  {
    if i > 0 {
      assert forall j :: 0 <= j < i - 1 ==> stream[1..][j] == stream[j + 1];
      FirstMissingToken(stream[1..], refs, i - 1);
    }
  }
}
