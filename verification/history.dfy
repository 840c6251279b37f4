/**
 Chat-history items as the agents see them: an identity, a type tag
 (message, function call, function call output) and, for messages, a role.
 Also the order-preserving subsequence relation used to state what
 truncation and merging keep.
 */
module History {

  type ItemId = string

  datatype Role = System | Developer | User | Assistant

  /** The `type` tag of a chat item; only messages carry a role. */
  datatype ItemKind = Message(role: Role) | FunctionCall | FunctionCallOutput

  datatype Item = Item(id: ItemId, kind: ItemKind)

  /** The item's type is "function_call" or "function_call_output". */
  predicate IsFunctionCall(item: Item) {
    item.kind.FunctionCall? || item.kind.FunctionCallOutput?
  }

  /** The item is a message whose role is "system". */
  predicate IsSystemMessage(item: Item) {
    item.kind.Message? && item.kind.role == System
  }

  /** The ids occurring in a history. */
  function Ids(items: seq<Item>): set<ItemId> {
    set k | 0 <= k < |items| :: items[k].id
  }

  /** No id occurs twice. */
  predicate UniqueIds(items: seq<Item>) {
    forall i, j :: 0 <= i < j < |items| ==> items[i].id != items[j].id
  }

  /** `idx` places each element of `a` at a position of `b`, positions strictly increasing. */
  ghost predicate IsEmbedding<T>(a: seq<T>, b: seq<T>, idx: seq<int>) {
    && |idx| == |a|
    && (forall k :: 0 <= k < |idx| ==> 0 <= idx[k] < |b| && a[k] == b[idx[k]])
    && (forall i, j :: 0 <= i < j < |idx| ==> idx[i] < idx[j])
  }

  /** `a` can be obtained from `b` by deleting elements: every element of `a`
      comes from `b` and the relative order is kept. */
  ghost predicate IsSubsequence<T>(a: seq<T>, b: seq<T>) {
    exists idx :: IsEmbedding(a, b, idx)
  }

  lemma SubsequenceEmpty<T>(b: seq<T>)
    ensures IsSubsequence([], b)
  {
    assert IsEmbedding([], b, []);
  }

  /** Appending an element to the source keeps a subsequence a subsequence. */
  lemma SubsequenceExtendSource<T>(a: seq<T>, b: seq<T>, x: T)
    requires IsSubsequence(a, b)
    ensures IsSubsequence(a, b + [x])
  {
    var idx :| IsEmbedding(a, b, idx);
    assert IsEmbedding(a, b + [x], idx);
  }

  /** Appending the same element to both sides keeps a subsequence a subsequence. */
  lemma SubsequenceExtendBoth<T>(a: seq<T>, b: seq<T>, x: T)
    requires IsSubsequence(a, b)
    ensures IsSubsequence(a + [x], b + [x])
  {
    var idx :| IsEmbedding(a, b, idx);
    assert IsEmbedding(a + [x], b + [x], idx + [|b|]);
  }

  /** Every element of a subsequence occurs in the source. */
  lemma SubsequenceElements<T>(a: seq<T>, b: seq<T>)
    requires IsSubsequence(a, b)
    ensures forall k :: 0 <= k < |a| ==> a[k] in b
  {
    var idx :| IsEmbedding(a, b, idx);
    forall k | 0 <= k < |a|
      ensures a[k] in b
    {
      assert a[k] == b[idx[k]];
    }
  }

  /** Dropping a prefix of a subsequence leaves a subsequence. */
  lemma SubsequenceSuffix<T>(a: seq<T>, b: seq<T>, d: nat)
    requires IsSubsequence(a, b)
    requires d <= |a|
    ensures IsSubsequence(a[d..], b)
  {
    var idx :| IsEmbedding(a, b, idx);
    assert IsEmbedding(a[d..], b, idx[d..]);
  }

  lemma SubsequenceTransitive<T>(a: seq<T>, b: seq<T>, c: seq<T>)
    requires IsSubsequence(a, b) && IsSubsequence(b, c)
    ensures IsSubsequence(a, c)
  {
    var ab :| IsEmbedding(a, b, ab);
    var bc :| IsEmbedding(b, c, bc);
    var ac := seq(|a|, k requires 0 <= k < |a| => bc[ab[k]]);
    assert IsEmbedding(a, c, ac);
  }

  /** A subsequence of a history with unique ids has unique ids. */
  lemma SubsequenceUniqueIds(a: seq<Item>, b: seq<Item>)
    requires IsSubsequence(a, b)
    requires UniqueIds(b)
    ensures UniqueIds(a)
  {
    var idx :| IsEmbedding(a, b, idx);
    forall i, j | 0 <= i < j < |a|
      ensures a[i].id != a[j].id
    {
      assert a[i] == b[idx[i]] && a[j] == b[idx[j]] && idx[i] < idx[j];
    }
  }
}
