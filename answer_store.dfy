/**
 * The answer store: a dictionary from the composite key
 * `questionId + "_" + subId` to the option id the user last chose.
 */
module AnswerStore {
  import opened Optional

  type Store = map<string, string>

  /** The composite key built by the template `${questionId}_${subId}`. */
  function Key(questionId: string, subId: string): string {
    questionId + "_" + subId
  }

  /** Property access on the store: the stored value, or `undefined`. */
  function Lookup(store: Store, key: string): Option<string> {
    if key in store then Some(store[key]) else None
  }

  /** The spread update `{...store, [key]: value}`: an unconditional upsert. */
  function Record(store: Store, questionId: string, subId: string, value: string): (r: Store)
    ensures Lookup(r, Key(questionId, subId)) == Some(value)
    ensures forall k :: k != Key(questionId, subId) ==> Lookup(r, k) == Lookup(store, k)
    ensures r.Keys == store.Keys + {Key(questionId, subId)}
  {
    store[Key(questionId, subId) := value]
  }

  /** One call `handleAnswerChange(questionId, subId, value)`. */
  datatype Write = Write(questionId: string, subId: string, value: string)

  /** The store after applying `writes` in order to `store`. */
  function Replay(store: Store, writes: seq<Write>): Store {
    if writes == [] then store
    else
      var w := writes[|writes| - 1];
      Record(Replay(store, writes[..|writes| - 1]), w.questionId, w.subId, w.value)
  }

  /** Reference definition: the value of the most recent write to `key`, if any. */
  function LastWrite(writes: seq<Write>, key: string): Option<string> {
    if writes == [] then None
    else
      var w := writes[|writes| - 1];
      if Key(w.questionId, w.subId) == key then Some(w.value)
      else LastWrite(writes[..|writes| - 1], key)
  }

  /** Last write wins, and a key never written reads as `undefined`. */
  lemma {:induction false} ReplayIsLastWrite(writes: seq<Write>, key: string)
    ensures Lookup(Replay(map[], writes), key) == LastWrite(writes, key)
  {
    if writes != [] {
      ReplayIsLastWrite(writes[..|writes| - 1], key);
    }
  }

  /** Writing the same unit twice keeps only the second value. */
  lemma OverwriteKeepsLatest(store: Store, questionId: string, subId: string, v1: string, v2: string)
    ensures Record(Record(store, questionId, subId, v1), questionId, subId, v2)
         == Record(store, questionId, subId, v2)
  {
    var once := Record(store, questionId, subId, v2);
    var twice := Record(Record(store, questionId, subId, v1), questionId, subId, v2);
    assert twice.Keys == once.Keys;
    forall k | k in once ensures twice[k] == once[k] {
      assert Lookup(twice, k) == Lookup(once, k);
    }
  }

  /**
   * Keys cannot collide when the section id contains no separator: the
   * first `_` of a key ends the section id.
   */
  lemma KeyInjective(q1: string, s1: string, q2: string, s2: string)
    requires '_' !in q1 && '_' !in q2
    requires Key(q1, s1) == Key(q2, s2)
    ensures q1 == q2 && s1 == s2
  {
    var k := Key(q1, s1);
    assert k == q1 + "_" + s1 == q2 + "_" + s2;
    assert k[..|q1|] == q1 && k[|q1|] == '_';
    assert k[..|q2|] == q2 && k[|q2|] == '_';
    assert k[|q1| + 1..] == s1;
    assert k[|q2| + 1..] == s2;
  }

  /** Without that condition two different units share a key. */
  lemma KeyCollision()
    ensures Key("a_b", "c") == Key("a", "b_c")
  {
  }
}
