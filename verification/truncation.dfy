/**
 The chat-context truncation applied to a predecessor's history on handoff
 (`BaseAgent._truncate_chat_ctx`): scan newest to oldest, keep eligible items
 until the limit is reached, restore oldest-first order, then drop any
 leading run of function-call items.
 */
module Truncation {
  import opened History

  /** The two filter switches, `keep_system_message` and `keep_function_call`. */
  datatype Policy = Policy(keepSystemMessage: bool, keepFunctionCall: bool)

  /** `_valid_item`: an item is eligible unless a filter switch excludes it. */
  function Eligible(item: Item, p: Policy): (r: bool)
    ensures item.kind.Message? && item.kind.role != System ==> r
    ensures item.kind == Message(System) ==> (r <==> p.keepSystemMessage)
    ensures !item.kind.Message? ==> (r <==> p.keepFunctionCall)
  {
    && !(!p.keepSystemMessage && IsSystemMessage(item))
    && !(!p.keepFunctionCall && IsFunctionCall(item))
  }

  function Reverse<T>(s: seq<T>): (r: seq<T>)
    ensures |r| == |s|
    ensures forall k :: 0 <= k < |s| ==> r[k] == s[|s| - 1 - k]
  {
    if |s| == 0 then [] else [s[|s| - 1]] + Reverse(s[..|s| - 1])
  }

  /**
   The items collected by the newest-to-oldest scan, already in oldest-first
   order. `budget` is the limit minus the items kept so far. The stop test
   runs after the (possible) append: an eligible item ends the scan when the
   budget was at most one, an ineligible one when it was at most zero, so a
   limit of zero or less still lets the newest item through.
   */
  function Window(items: seq<Item>, budget: int, p: Policy): (r: seq<Item>)
    ensures forall k :: 0 <= k < |r| ==> Eligible(r[k], p)
    ensures |r| <= if budget <= 1 then 1 else budget
    decreases |items|
  {
    if |items| == 0 then []
    else
      var rest := items[..|items| - 1];
      var item := items[|items| - 1];
      if Eligible(item, p) then
        if budget <= 1 then [item] else Window(rest, budget - 1, p) + [item]
      else if budget <= 0 then []
      else Window(rest, budget, p)
  }

  /** The window keeps items of the history in their original order. */
  lemma {:induction false} WindowIsSubsequence(items: seq<Item>, budget: int, p: Policy)
    ensures IsSubsequence(Window(items, budget, p), items)
    decreases |items|
  {
    if |items| == 0 {
      SubsequenceEmpty(items);
    } else {
      var rest := items[..|items| - 1];
      var item := items[|items| - 1];
      assert items == rest + [item];
      SubsequenceEmpty(rest);
      SubsequenceEmpty(items);
      if Eligible(item, p) {
        if budget <= 1 {
          SubsequenceExtendBoth([], rest, item);
          assert [] + [item] == [item];
        } else {
          WindowIsSubsequence(rest, budget - 1, p);
          SubsequenceExtendBoth(Window(rest, budget - 1, p), rest, item);
        }
      } else if budget > 0 {
        WindowIsSubsequence(rest, budget, p);
        SubsequenceExtendSource(Window(rest, budget, p), rest, item);
      }
    }
  }

  /** The `while ... pop(0)` loop: drop the leading run of function-call items. */
  function StripLeadingCalls(s: seq<Item>): (r: seq<Item>)
    ensures |r| <= |s| && r == s[|s| - |r|..]
    ensures |r| > 0 ==> !IsFunctionCall(r[0])
    ensures forall k :: 0 <= k < |s| - |r| ==> IsFunctionCall(s[k])
  {
    if |s| > 0 && IsFunctionCall(s[0]) then StripLeadingCalls(s[1..]) else s
  }

  /** `_truncate_chat_ctx(items, keep_last_n_messages, keep_system_message, keep_function_call)`. */
  function Truncate(items: seq<Item>, keepLastN: int, p: Policy): (r: seq<Item>)
    ensures IsSubsequence(r, items)
    ensures keepLastN >= 1 ==> |r| <= keepLastN
    ensures keepLastN <= 0 ==> |r| <= 1
    ensures |r| > 0 ==> !IsFunctionCall(r[0])
    ensures forall k :: 0 <= k < |r| ==> Eligible(r[k], p)
    ensures !p.keepSystemMessage ==> forall k :: 0 <= k < |r| ==> !IsSystemMessage(r[k])
    ensures !p.keepFunctionCall ==> forall k :: 0 <= k < |r| ==> !IsFunctionCall(r[k])
  {
    var w := Window(items, keepLastN, p);
    var r := StripLeadingCalls(w);
    WindowIsSubsequence(items, keepLastN, p);
    SubsequenceSuffix(w, items, |w| - |r|);
    r
  }

  // ---------------------------------------------------------------------
  // An independent description of the window: the last `n` eligible items.

  /** The eligible items of a history, in their original order. */
  function EligibleItems(items: seq<Item>, p: Policy): (r: seq<Item>)
    ensures |r| <= |items|
    ensures forall k :: 0 <= k < |r| ==> Eligible(r[k], p)
    decreases |items|
  {
    if |items| == 0 then []
    else
      var rest := items[..|items| - 1];
      var item := items[|items| - 1];
      if Eligible(item, p) then EligibleItems(rest, p) + [item] else EligibleItems(rest, p)
  }

  /** No eligible item is lost by the filter. */
  lemma {:induction false} EligibleItemsComplete(items: seq<Item>, p: Policy, k: nat)
    requires k < |items| && Eligible(items[k], p)
    ensures items[k] in EligibleItems(items, p)
    decreases |items|
  {
    var rest := items[..|items| - 1];
    if k < |items| - 1 {
      assert items[k] == rest[k];
      EligibleItemsComplete(rest, p, k);
    }
  }

  /** The last `n` elements of `s` (all of `s` when it is shorter). */
  function LastN<T>(s: seq<T>, n: nat): (r: seq<T>)
    ensures |r| == if |s| <= n then |s| else n
    ensures r == s[|s| - |r|..]
  {
    if |s| <= n then s else s[|s| - n..]
  }

  lemma LastNAppend<T>(s: seq<T>, x: T, n: nat)
    requires n >= 1
    ensures LastN(s + [x], n) == LastN(s, n - 1) + [x]
  {
    if |s| + 1 > n {
      assert (s + [x])[|s| + 1 - n..] == s[|s| - (n - 1)..] + [x];
    }
  }

  /** The reference the scan is checked against: for a positive limit the window
      is the newest `n` eligible items, ineligible items being skipped without
      counting; for a limit of zero or less it is the newest item, if eligible. */
  function NewestEligible(items: seq<Item>, n: int, p: Policy): seq<Item> {
    if n <= 0 then
      if |items| > 0 && Eligible(items[|items| - 1], p) then [items[|items| - 1]] else []
    else LastN(EligibleItems(items, p), n)
  }

  lemma {:induction false} WindowIsNewestEligible(items: seq<Item>, n: int, p: Policy)
    ensures Window(items, n, p) == NewestEligible(items, n, p)
    decreases |items|
  {
    if |items| > 0 && n >= 1 {
      var rest := items[..|items| - 1];
      var item := items[|items| - 1];
      if Eligible(item, p) {
        if n > 1 {
          WindowIsNewestEligible(rest, n - 1, p);
        }
        LastNAppend(EligibleItems(rest, p), item, n);
      } else {
        WindowIsNewestEligible(rest, n, p);
      }
    }
  }

  /** Filtering a history whose items are all eligible changes nothing. */
  lemma {:induction false} EligibleItemsOfEligible(items: seq<Item>, p: Policy)
    requires forall k :: 0 <= k < |items| ==> Eligible(items[k], p)
    ensures EligibleItems(items, p) == items
    decreases |items|
  {
    if |items| > 0 {
      var rest := items[..|items| - 1];
      EligibleItemsOfEligible(rest, p);
      assert items == rest + [items[|items| - 1]];
    }
  }

  /** Filtering distributes over concatenation. */
  lemma {:induction false} EligibleItemsAppend(s: seq<Item>, t: seq<Item>, p: Policy)
    ensures EligibleItems(s + t, p) == EligibleItems(s, p) + EligibleItems(t, p)
    decreases |t|
  {
    if |t| == 0 {
      assert s + t == s;
    } else {
      var t' := t[..|t| - 1];
      assert (s + t)[..|s + t| - 1] == s + t';
      assert (s + t)[|s + t| - 1] == t[|t| - 1];
      EligibleItemsAppend(s, t', p);
    }
  }

  // ---------------------------------------------------------------------
  // Properties of truncation.

  /** Re-truncating a truncated history with the same parameters returns it unchanged. */
  lemma TruncateIdempotent(items: seq<Item>, n: int, p: Policy)
    ensures Truncate(Truncate(items, n, p), n, p) == Truncate(items, n, p)
  {
    var r := Truncate(items, n, p);
    WindowIsNewestEligible(r, n, p);
    if n >= 1 {
      EligibleItemsOfEligible(r, p);
    }
    assert Window(r, n, p) == r;
  }

  /** For a positive limit, an ineligible item anywhere in the history has no
      influence on the result: it is skipped without counting toward the limit. */
  lemma IneligibleItemsNotCounted(before: seq<Item>, x: Item, after: seq<Item>, n: int, p: Policy)
    requires n >= 1
    requires !Eligible(x, p)
    ensures Truncate(before + [x] + after, n, p) == Truncate(before + after, n, p)
  {
    EligibleItemsAppend(before + [x], after, p);
    EligibleItemsAppend(before, [x], p);
    EligibleItemsAppend(before, after, p);
    assert EligibleItems([x], p) == [] by {
      assert [x][..0] == [];
    }
    WindowIsNewestEligible(before + [x] + after, n, p);
    WindowIsNewestEligible(before + after, n, p);
  }

  /** With enough eligible items available, a positive limit is reached exactly
      by the window (before the leading calls are dropped). */
  lemma WindowFillsLimit(items: seq<Item>, n: int, p: Policy)
    requires n >= 1
    requires |EligibleItems(items, p)| >= n
    ensures |Window(items, n, p)| == n
  {
    WindowIsNewestEligible(items, n, p);
  }

  /** A limit of zero (or less) does not empty the result: the stop test follows
      the append, so the newest item survives when it is an eligible message. */
  lemma NonPositiveLimitKeepsNewest(items: seq<Item>, n: int, p: Policy)
    requires n <= 0
    ensures Truncate(items, n, p) ==
      if |items| > 0 && Eligible(items[|items| - 1], p) && !IsFunctionCall(items[|items| - 1])
      then [items[|items| - 1]] else []
  {
    WindowIsNewestEligible(items, n, p);
  }

  // ---------------------------------------------------------------------
  // The scan as the source writes it: a loop with an early exit.

  /** The `for item in reversed(items)` loop with its early `break`: the
      collected items, newest first. */
  method ScanNewestFirst(items: seq<Item>, keepLastN: int, p: Policy) returns (newItems: seq<Item>)
    ensures Reverse(newItems) == Window(items, keepLastN, p)
  {
    newItems := [];
    var i := |items|;
    assert items[..i] == items;
    while i > 0
      invariant 0 <= i <= |items|
      invariant Window(items[..i], keepLastN - |newItems|, p) + Reverse(newItems)
                == Window(items, keepLastN, p)
      decreases i
    {
      var item := items[i - 1];
      ScanStep(items, i, newItems, keepLastN, p);
      if Eligible(item, p) {
        newItems := newItems + [item];
      }
      if |newItems| >= keepLastN {
        break;
      }
      i := i - 1;
    }
  }

  /** One iteration of the scan keeps the loop invariant, and an iteration that
      stops has collected the whole window. */
  lemma ScanStep(items: seq<Item>, i: int, newItems: seq<Item>, n: int, p: Policy)
    requires 0 < i <= |items|
    requires Window(items[..i], n - |newItems|, p) + Reverse(newItems) == Window(items, n, p)
    ensures var item := items[i - 1];
            var next := if Eligible(item, p) then newItems + [item] else newItems;
            if |next| >= n then Reverse(next) == Window(items, n, p)
            else Window(items[..i - 1], n - |next|, p) + Reverse(next) == Window(items, n, p)
  {
    if Eligible(items[i - 1], p) {
      ScanKeep(items, i, newItems, n, p);
    } else {
      ScanSkip(items, i, newItems, n, p);
    }
  }

  /** Window of a prefix, one item shorter. */
  lemma PrefixWindowStep(items: seq<Item>, i: int, budget: int, p: Policy)
    requires 0 < i <= |items|
    ensures Window(items[..i], budget, p) ==
              if Eligible(items[i - 1], p) then
                if budget <= 1 then [items[i - 1]] else Window(items[..i - 1], budget - 1, p) + [items[i - 1]]
              else if budget <= 0 then [] else Window(items[..i - 1], budget, p)
  {
    var prefix := items[..i];
    assert prefix[..i - 1] == items[..i - 1];
    WindowStep(prefix, budget, p);
  }

  /** The eligible-item case of `ScanStep`. */
  lemma ScanKeep(items: seq<Item>, i: int, newItems: seq<Item>, n: int, p: Policy)
    requires 0 < i <= |items| && Eligible(items[i - 1], p)
    requires Window(items[..i], n - |newItems|, p) + Reverse(newItems) == Window(items, n, p)
    ensures var next := newItems + [items[i - 1]];
            if |next| >= n then Reverse(next) == Window(items, n, p)
            else Window(items[..i - 1], n - |next|, p) + Reverse(next) == Window(items, n, p)
  {
    var item := items[i - 1];
    PrefixWindowStep(items, i, n - |newItems|, p);
    ReverseAppend(newItems, item);
    if n - |newItems| > 1 {
      var older := Window(items[..i - 1], n - |newItems| - 1, p);
      assert (older + [item]) + Reverse(newItems) == older + ([item] + Reverse(newItems));
    }
  }

  /** The ineligible-item case of `ScanStep`. */
  lemma ScanSkip(items: seq<Item>, i: int, newItems: seq<Item>, n: int, p: Policy)
    requires 0 < i <= |items| && !Eligible(items[i - 1], p)
    requires Window(items[..i], n - |newItems|, p) + Reverse(newItems) == Window(items, n, p)
    ensures if |newItems| >= n then Reverse(newItems) == Window(items, n, p)
            else Window(items[..i - 1], n - |newItems|, p) + Reverse(newItems) == Window(items, n, p)
  {
    PrefixWindowStep(items, i, n - |newItems|, p);
  }

  /** `_truncate_chat_ctx` as written: the scan, the reversal, then popping
      leading function-call items one at a time. */
  method TruncateChatContext(items: seq<Item>, keepLastN: int, p: Policy) returns (r: seq<Item>)
    ensures r == Truncate(items, keepLastN, p)
  {
    var newItems := ScanNewestFirst(items, keepLastN, p);
    r := Reverse(newItems);
    while |r| > 0 && IsFunctionCall(r[0])
      invariant StripLeadingCalls(r) == Truncate(items, keepLastN, p)
      decreases |r|
    {
      r := r[1..];
    }
  }

  /** A window that does not start with a function call is the truncation itself. */
  lemma TruncateOfWindow(items: seq<Item>, n: int, p: Policy, w: seq<Item>)
    requires Window(items, n, p) == w
    requires |w| > 0 && !IsFunctionCall(w[0])
    ensures Truncate(items, n, p) == w
  {
  }

  /** One step of the scan: how the window of a non-empty history is made from
      its newest item and the window of the older items. */
  lemma WindowStep(items: seq<Item>, budget: int, p: Policy)
    requires |items| > 0
    ensures var item := items[|items| - 1];
            var rest := items[..|items| - 1];
            Window(items, budget, p) ==
              if Eligible(item, p) then
                if budget <= 1 then [item] else Window(rest, budget - 1, p) + [item]
              else if budget <= 0 then [] else Window(rest, budget, p)
  {
  }

  lemma ReverseAppend<T>(s: seq<T>, x: T)
    ensures Reverse(s + [x]) == [x] + Reverse(s)
  {
    assert (s + [x])[..|s|] == s;
  }
}

/** Truncation on the shape of a typical intake conversation. */
module TruncationExamples {
  import opened History
  import opened Truncation

  /** A system prompt, a user turn, a tool call and its output, then an
      assistant reply, a user turn and the newest assistant reply. */
  predicate IsConversation(c: seq<Item>) {
    && |c| == 7
    && c[0].kind == Message(System)
    && c[1].kind == Message(User)
    && c[2].kind == FunctionCall
    && c[3].kind == FunctionCallOutput
    && c[4].kind == Message(Assistant)
    && c[5].kind == Message(User)
    && c[6].kind == Message(Assistant)
  }

  /** An eligible item extends the window of the older prefix. */
  lemma PrefixKeep(c: seq<Item>, k: nat, budget: int, p: Policy)
    requires 0 < k <= |c| && Eligible(c[k - 1], p) && budget >= 2
    ensures Window(c[..k], budget, p) == Window(c[..k - 1], budget - 1, p) + [c[k - 1]]
  {
    WindowStep(c[..k], budget, p);
    assert c[..k][..k - 1] == c[..k - 1];
  }

  /** An eligible item reached with the last unit of budget ends the scan. */
  lemma PrefixLast(c: seq<Item>, k: nat, budget: int, p: Policy)
    requires 0 < k <= |c| && Eligible(c[k - 1], p) && budget <= 1
    ensures Window(c[..k], budget, p) == [c[k - 1]]
  {
    WindowStep(c[..k], budget, p);
  }

  /** An ineligible item is passed over without using budget. */
  lemma PrefixSkip(c: seq<Item>, k: nat, budget: int, p: Policy)
    requires 0 < k <= |c| && !Eligible(c[k - 1], p) && budget >= 1
    ensures Window(c[..k], budget, p) == Window(c[..k - 1], budget, p)
  {
    WindowStep(c[..k], budget, p);
    assert c[..k][..k - 1] == c[..k - 1];
  }

  /** A limit of 3 keeps the three newest messages; the call and the system message are not reached. */
  lemma NewestThreeKept(c: seq<Item>)
    requires IsConversation(c)
    ensures Truncate(c, 3, Policy(false, true)) == c[4..]
  {
    var p := Policy(false, true);
    assert Window(c[..5], 1, p) == [c[4]] by {
      PrefixLast(c, 5, 1, p);
    }
    assert Window(c[..6], 2, p) == [c[4], c[5]] by {
      PrefixKeep(c, 6, 2, p);
    }
    assert Window(c, 3, p) == [c[4], c[5], c[6]] by {
      PrefixKeep(c, 7, 3, p);
      assert c[..7] == c;
    }
    TruncateOfWindow(c, 3, p, [c[4], c[5], c[6]]);
  }

  /** A limit of 2 keeps the two newest messages. */
  lemma NewestTwoKept(c: seq<Item>)
    requires IsConversation(c)
    ensures Truncate(c, 2, Policy(false, true)) == c[5..]
  {
    var p := Policy(false, true);
    assert Window(c[..6], 1, p) == [c[5]] by {
      PrefixLast(c, 6, 1, p);
    }
    assert Window(c, 2, p) == [c[5], c[6]] by {
      PrefixKeep(c, 7, 2, p);
      assert c[..7] == c;
    }
    TruncateOfWindow(c, 2, p, [c[5], c[6]]);
  }

  /** A call, its output and a user turn: all three fit in a window of three. */
  lemma CallsFirstWindow(c: seq<Item>)
    requires |c| == 3 && c[0].kind == FunctionCall && c[1].kind == FunctionCallOutput && c[2].kind == Message(User)
    ensures Window(c, 3, Policy(false, true)) == c
  {
    var p := Policy(false, true);
    assert Window(c[..1], 1, p) == [c[0]] by {
      PrefixLast(c, 1, 1, p);
    }
    assert Window(c[..2], 2, p) == [c[0], c[1]] by {
      PrefixKeep(c, 2, 2, p);
    }
    PrefixKeep(c, 3, 3, p);
    assert c[..3] == c;
  }

  /** A leading function call and its output are dropped even when function calls are kept. */
  lemma LeadingCallsDropped(c: seq<Item>)
    requires |c| == 3 && c[0].kind == FunctionCall && c[1].kind == FunctionCallOutput && c[2].kind == Message(User)
    ensures Truncate(c, 3, Policy(false, true)) == [c[2]]
  {
    CallsFirstWindow(c);
    assert c[1..][1..] == [c[2]];
    assert StripLeadingCalls(c) == StripLeadingCalls(c[1..]);
    assert StripLeadingCalls(c[1..]) == StripLeadingCalls([c[2]]);
  }

  /** The window of the first four items, reached with 47 of the 50 left. */
  lemma OlderKeptWindow(c: seq<Item>)
    requires IsConversation(c)
    ensures Window(c[..4], 47, Policy(false, true)) == [c[1], c[2], c[3]]
  {
    var p := Policy(false, true);
    assert Window(c[..1], 44, p) == [] by {
      PrefixSkip(c, 1, 44, p);
      assert c[..0] == [];
    }
    assert Window(c[..2], 45, p) == [c[1]] by {
      PrefixKeep(c, 2, 45, p);
    }
    assert Window(c[..3], 46, p) == [c[1], c[2]] by {
      PrefixKeep(c, 3, 46, p);
    }
    PrefixKeep(c, 4, 47, p);
  }

  /** The window of the whole conversation when function calls are kept. */
  lemma KeptWindow(c: seq<Item>)
    requires IsConversation(c)
    ensures Window(c, 50, Policy(false, true)) == c[1..]
  {
    var p := Policy(false, true);
    OlderKeptWindow(c);
    assert Window(c[..5], 48, p) == [c[1], c[2], c[3], c[4]] by {
      PrefixKeep(c, 5, 48, p);
    }
    assert Window(c[..6], 49, p) == [c[1], c[2], c[3], c[4], c[5]] by {
      PrefixKeep(c, 6, 49, p);
    }
    assert Window(c, 50, p) == [c[1], c[2], c[3], c[4], c[5], c[6]] by {
      PrefixKeep(c, 7, 50, p);
      assert c[..7] == c;
    }
    assert c[1..] == [c[1], c[2], c[3], c[4], c[5], c[6]];
  }

  /** With a larger limit the call in the middle survives; the system message does not. */
  lemma MiddleCallsKept(c: seq<Item>)
    requires IsConversation(c)
    ensures Truncate(c, 50, Policy(false, true)) == c[1..]
  {
    KeptWindow(c);
    TruncateOfWindow(c, 50, Policy(false, true), c[1..]);
  }

  /** Without function calls, the first four items leave only the user turn. */
  lemma OlderFilteredWindow(c: seq<Item>)
    requires IsConversation(c)
    ensures Window(c[..4], 47, Policy(false, false)) == [c[1]]
  {
    var p := Policy(false, false);
    assert Window(c[..1], 46, p) == [] by {
      PrefixSkip(c, 1, 46, p);
      assert c[..0] == [];
    }
    assert Window(c[..2], 47, p) == [c[1]] by {
      PrefixKeep(c, 2, 47, p);
    }
    assert Window(c[..3], 47, p) == [c[1]] by {
      PrefixSkip(c, 3, 47, p);
    }
    PrefixSkip(c, 4, 47, p);
  }

  /** The window of the whole conversation without function calls. */
  lemma FilteredWindow(c: seq<Item>)
    requires IsConversation(c)
    ensures Window(c, 50, Policy(false, false)) == [c[1], c[4], c[5], c[6]]
  {
    var p := Policy(false, false);
    OlderFilteredWindow(c);
    assert Window(c[..5], 48, p) == [c[1], c[4]] by {
      PrefixKeep(c, 5, 48, p);
    }
    assert Window(c[..6], 49, p) == [c[1], c[4], c[5]] by {
      PrefixKeep(c, 6, 49, p);
    }
    PrefixKeep(c, 7, 50, p);
    assert c[..7] == c;
  }

  /** Without keeping function calls, the call and its output are filtered out. */
  lemma MiddleCallsFiltered(c: seq<Item>)
    requires IsConversation(c)
    ensures Truncate(c, 50, Policy(false, false)) == [c[1], c[4], c[5], c[6]]
  {
    FilteredWindow(c);
    TruncateOfWindow(c, 50, Policy(false, false), [c[1], c[4], c[5], c[6]]);
  }

  /** A limit of zero keeps the newest message. */
  lemma ZeroLimitKeepsOne(c: seq<Item>)
    requires IsConversation(c)
    ensures Truncate(c, 0, Policy(false, true)) == [c[6]]
  {
    NonPositiveLimitKeepsNewest(c, 0, Policy(false, true));
  }
}
