/** Trimming a review transcript to the model's context: a suffix of whole blocks is kept behind the head. */
module Transcript {
  import opened Text

  const TOOL := "tool"

  /** A message, with the JSON text of its tool calls ("" when it has none). */
  datatype Message = Message(role: string, content: string, toolCalls: string)

  function Chars(m: Message): nat {
    |m.content| + |m.toolCalls|
  }

  function Total(ms: seq<Message>): nat
    decreases |ms|
  {
    if ms == [] then 0 else Total(ms[..|ms| - 1]) + Chars(ms[|ms| - 1])
  }

  function HeadLen(ms: seq<Message>): nat {
    if |ms| < 2 then |ms| else 2
  }

  /** A position where a block begins: behind the head, or at a message that is no tool reply. */
  predicate Opens(ms: seq<Message>, p: nat) {
    HeadLen(ms) <= p < |ms| && (p == HeadLen(ms) || ms[p].role != TOOL)
  }

  /** The block beginnings before position `n`. */
  function Openings(ms: seq<Message>, n: nat): seq<nat> {
    if n == 0 then [] else Openings(ms, n - 1) + if Opens(ms, n - 1) then [n - 1] else []
  }

  function Budget(ms: seq<Message>, maxChars: int): int {
    maxChars - Total(ms[..HeadLen(ms)])
  }

  /** Where the kept suffix begins: the longest run of whole blocks that fits, or the last block alone. */
  ghost predicate Cut(ms: seq<Message>, maxChars: int, p: nat) {
    && Opens(ms, p)
    && (Total(ms[p..]) <= Budget(ms, maxChars) || forall q: nat | p < q :: !Opens(ms, q))
    && forall q: nat | Opens(ms, q) && q < p :: Total(ms[q..]) > Budget(ms, maxChars)
  }

  function Note(dropped: nat): Message {
    Message("user",
      "[" + Decimal(dropped) + " earlier turn(s)" + " were dropped from this review transcript "
      + "to fit the model's context window. "
      + "Continue reviewing using only the history below.]", "")
  }

  /** The reader is told in the user's voice how many turns are missing. */
  lemma NoteTells(dropped: nat)
    ensures var note := Note(dropped);
            note.role == "user" && note.toolCalls == "" && "[" + Decimal(dropped) + " earlier turn(s)" <= note.content
  {
    var front := "[" + Decimal(dropped) + " earlier turn(s)";
    assert Note(dropped).content[..|front|] == front;
  }

  function Flatten(blocks: seq<seq<Message>>): seq<Message>
    decreases |blocks|
  {
    if blocks == [] then [] else blocks[0] + Flatten(blocks[1..])
  }

  lemma {:induction false} TotalSplit(ms: seq<Message>, ns: seq<Message>)
    ensures Total(ms + ns) == Total(ms) + Total(ns)
    decreases |ns|
  {
    if ns == [] {
      assert ms + ns == ms;
    } else {
      assert (ms + ns)[..|ms + ns| - 1] == ms + ns[..|ns| - 1];
      TotalSplit(ms, ns[..|ns| - 1]);
    }
  }

  lemma {:induction false} OpeningsAre(ms: seq<Message>, n: nat)
    ensures var s := Openings(ms, n);
            && (forall k | 0 <= k < |s| :: s[k] < n && Opens(ms, s[k]))
            && (forall j, k | 0 <= j < k < |s| :: s[j] < s[k])
            && (forall p: nat | p < n && Opens(ms, p) :: p in s)
    decreases n
  {
    if n > 0 {
      OpeningsAre(ms, n - 1);
    }
  }

  /** The blocks of the messages before `n`: each message but a tool reply begins one. */
  function BlocksOf(ms: seq<Message>, n: nat): (blocks: seq<seq<Message>>)
    requires n <= |ms|
    ensures blocks == [] <==> n <= HeadLen(ms)
    decreases n
  {
    if n <= HeadLen(ms) then []
    else
      var before := BlocksOf(ms, n - 1);
      if Opens(ms, n - 1) then before + [[ms[n - 1]]]
      else before[..|before| - 1] + [before[|before| - 1] + [ms[n - 1]]]
  }

  lemma OneMore(ms: seq<Message>, n: nat)
    requires HeadLen(ms) < n <= |ms|
    ensures var before, s, m := BlocksOf(ms, n - 1), Openings(ms, n - 1), ms[n - 1];
            if Opens(ms, n - 1) then Openings(ms, n) == s + [n - 1] && BlocksOf(ms, n) == before + [[m]]
            else
              && Openings(ms, n) == s && before != []
              && BlocksOf(ms, n) == before[..|before| - 1] + [before[|before| - 1] + [m]]
  {
  }

  lemma NoBlocks(ms: seq<Message>)
    ensures BlocksOf(ms, HeadLen(ms)) == []
  {
  }

  method SplitBlocks(ms: seq<Message>) returns (blocks: seq<seq<Message>>)
    ensures blocks == BlocksOf(ms, |ms|)
  {
    hide Total, Flatten, Openings, BlocksOf;
    blocks := [];
    var i := HeadLen(ms);
    NoBlocks(ms);
    while i < |ms|
      invariant HeadLen(ms) <= i <= |ms| && blocks == BlocksOf(ms, i)
      invariant i < |ms| ==> Opens(ms, i)
    {
      OneMore(ms, i + 1);
      var block := [ms[i]];
      i := i + 1;
      while i < |ms| && ms[i].role == TOOL
        invariant HeadLen(ms) < i <= |ms| && blocks + [block] == BlocksOf(ms, i)
      {
        OneMore(ms, i + 1);
        ghost var before := BlocksOf(ms, i);
        assert before[..|before| - 1] == blocks && before[|before| - 1] == block;
        block := block + [ms[i]];
        i := i + 1;
      }
      blocks := blocks + [block];
    }
  }

  lemma {:induction false} FlattenSnoc(blocks: seq<seq<Message>>, last: seq<Message>)
    ensures Flatten(blocks + [last]) == Flatten(blocks) + last
    decreases |blocks|
  {
    if blocks == [] {
      assert blocks + [last] == [last];
      assert Flatten([last][1..]) == [];
    } else {
      assert (blocks + [last])[1..] == blocks[1..] + [last];
      FlattenSnoc(blocks[1..], last);
    }
  }

  lemma {:induction false} BlocksCount(ms: seq<Message>, n: nat)
    requires n <= |ms|
    ensures |BlocksOf(ms, n)| == |Openings(ms, n)|
    decreases n
  {
    if n <= HeadLen(ms) {
      NoOpenings(ms, n);
    } else {
      BlocksCount(ms, n - 1);
    }
  }

  lemma LoneBlock(blocks: seq<seq<Message>>, m: Message)
    ensures Flatten((blocks + [[m]])[|blocks|..]) == [m]
  {
    assert (blocks + [[m]])[|blocks|..] == [] + [[m]];
    FlattenSnoc([], [m]);
  }

  /** The blocks from the k-th one on hold the messages from the k-th opening on. */
  lemma {:induction false} BlocksAt(ms: seq<Message>, n: nat, k: nat)
    requires n <= |ms| && |BlocksOf(ms, n)| == |Openings(ms, n)| && k < |BlocksOf(ms, n)|
    ensures Openings(ms, n)[k] < n && Flatten(BlocksOf(ms, n)[k..]) == ms[Openings(ms, n)[k]..n]
    decreases n
  {
    hide Flatten, Openings, BlocksOf, Opens;
    var m := ms[n - 1];
    var before, s := BlocksOf(ms, n - 1), Openings(ms, n - 1);
    OneMore(ms, n);
    BlocksCount(ms, n - 1);
    if k < |before| {
      BlocksAt(ms, n - 1, k);
      BlocksGrow(before, m, k);
      assert ms[s[k]..n] == ms[s[k]..n - 1] + [m];
    } else {
      LoneBlock(before, m);
      assert ms[n - 1..n] == [m];
    }
  }

  lemma BlocksGrow(before: seq<seq<Message>>, m: Message, k: nat)
    requires k < |before|
    ensures Flatten((before + [[m]])[k..]) == Flatten(before[k..]) + [m]
    ensures Flatten((before[..|before| - 1] + [before[|before| - 1] + [m]])[k..]) == Flatten(before[k..]) + [m]
  {
    var n := |before| - 1;
    assert (before + [[m]])[k..] == before[k..] + [[m]];
    FlattenSnoc(before[k..], [m]);
    assert (before[..n] + [before[n] + [m]])[k..] == before[k..n] + [before[n] + [m]];
    FlattenSnoc(before[k..n], before[n] + [m]);
    assert before[k..] == before[k..n] + [before[n]];
    FlattenSnoc(before[k..n], before[n]);
  }

  lemma {:induction false} NoOpenings(ms: seq<Message>, n: nat)
    requires n <= HeadLen(ms)
    ensures Openings(ms, n) == []
    decreases n
  {
    if n > 0 {
      NoOpenings(ms, n - 1);
    }
  }

  lemma {:induction false} FlattenTotal(blocks: seq<seq<Message>>)
    requires blocks != []
    ensures Total(Flatten(blocks)) == Total(blocks[0]) + Total(Flatten(blocks[1..]))
  {
    TotalSplit(blocks[0], Flatten(blocks[1..]));
  }

  lemma SuffixTotal(ms: seq<Message>, p: nat, q: nat)
    requires p <= q <= |ms|
    ensures Total(ms[p..]) >= Total(ms[q..])
  {
    assert ms[p..] == ms[p..q] + ms[q..];
    TotalSplit(ms[p..q], ms[q..]);
  }

  method TotalChars(ms: seq<Message>) returns (n: nat)
    ensures n == Total(ms)
  {
    n := 0;
    for k := 0 to |ms|
      invariant n == Total(ms[..k])
    {
      assert ms[..k + 1][..k] == ms[..k];
      n := n + Chars(ms[k]);
    }
    assert ms[..|ms|] == ms;
  }

  /** The newest blocks that fit, and at least one. */
  method KeepNewest(blocks: seq<seq<Message>>, budget: int) returns (k: nat)
    requires blocks != []
    ensures k < |blocks|
    ensures Total(Flatten(blocks[k..])) <= budget || k == |blocks| - 1
    ensures k > 0 ==> Total(Flatten(blocks[k - 1..])) > budget
  {
    hide Total, Flatten;
    k := |blocks|;
    var keptChars := 0;
    NothingKept(blocks);
    while k > 0
      invariant 0 <= k <= |blocks| && keptChars == Total(Flatten(blocks[k..]))
      invariant k < |blocks| - 1 ==> keptChars <= budget
    {
      var blockChars := TotalChars(blocks[k - 1]);
      FlattenTotal(blocks[k - 1..]);
      assert blocks[k - 1..][1..] == blocks[k..];
      if k < |blocks| && keptChars + blockChars > budget {
        return;
      }
      k := k - 1;
      keptChars := keptChars + blockChars;
    }
  }

  lemma NothingKept(blocks: seq<seq<Message>>)
    ensures Total(Flatten(blocks[|blocks|..])) == 0
  {
    assert blocks[|blocks|..] == [];
  }

  /** What the trimmed transcript must be: the head, a note, and the suffix from `p` on. */
  function Trimmed(ms: seq<Message>, p: nat): seq<Message>
    requires HeadLen(ms) <= p <= |ms|
  {
    ms[..HeadLen(ms)] + [Note(|Openings(ms, p)|)] + ms[p..]
  }

  method TrimReviewTranscript(ms: seq<Message>, maxChars: int) returns (r: seq<Message>)
    ensures Total(ms) <= maxChars || |ms| <= 2 ==> r == ms
    ensures Total(ms) > maxChars && |ms| > 2 ==>
              exists p: nat ::
                Cut(ms, maxChars, p)
                && r == if p == 2 then ms else ms[..2] + [Note(|Openings(ms, p)|)] + ms[p..]
  {
    hide Total, Flatten, Openings, BlocksOf, Note;
    var total := TotalChars(ms);
    if total <= maxChars {
      return ms;
    }
    var headChars := TotalChars(ms[..HeadLen(ms)]);
    var blocks := SplitBlocks(ms);
    if blocks == [] {
      return ms;
    }
    var k := KeepNewest(blocks, maxChars - headChars);
    ghost var p := CutAt(ms, maxChars, k);
    BlocksAt(ms, |ms|, k);
    if k == 0 {
      return ms;
    }
    var kept := FlattenBlocks(blocks[k..]);
    assert ms[p..|ms|] == ms[p..];
    r := ms[..HeadLen(ms)] + [Note(k)] + kept;
  }

  method FlattenBlocks(blocks: seq<seq<Message>>) returns (r: seq<Message>)
    ensures r == Flatten(blocks)
  {
    r := [];
    for k := 0 to |blocks|
      invariant r == Flatten(blocks[..k])
    {
      assert blocks[..k + 1] == blocks[..k] + [blocks[k]];
      FlattenSnoc(blocks[..k], blocks[k]);
      r := r + blocks[k];
    }
    assert blocks[..|blocks|] == blocks;
  }

  lemma {:induction false} OpeningsBefore(ms: seq<Message>, n: nat, k: nat)
    requires k < |Openings(ms, n)|
    ensures Openings(ms, Openings(ms, n)[k]) == Openings(ms, n)[..k]
    decreases n
  {
    if n > 0 && k < |Openings(ms, n - 1)| {
      OpeningsBefore(ms, n - 1, k);
      assert Openings(ms, n)[..k] == Openings(ms, n - 1)[..k];
    }
  }

  lemma CutAt(ms: seq<Message>, maxChars: int, k: nat) returns (p: nat)
    requires var blocks := BlocksOf(ms, |ms|);
             && k < |blocks|
             && (Total(Flatten(blocks[k..])) <= Budget(ms, maxChars) || k == |blocks| - 1)
             && (k > 0 ==> Total(Flatten(blocks[k - 1..])) > Budget(ms, maxChars))
    ensures k < |Openings(ms, |ms|)| == |BlocksOf(ms, |ms|)|
    ensures p == Openings(ms, |ms|)[k] && Cut(ms, maxChars, p)
    ensures |Openings(ms, p)| == k && (k == 0 <==> p == HeadLen(ms))
  {
    hide Total, Flatten, Openings, BlocksOf;
    BlocksCount(ms, |ms|);
    var s := Openings(ms, |ms|);
    p := s[k];
    OpeningsAre(ms, |ms|);
    OpeningsBefore(ms, |ms|, k);
    BlocksAt(ms, |ms|, k);
    assert ms[p..|ms|] == ms[p..];
    assert Opens(ms, HeadLen(ms)) && s[0] == HeadLen(ms);
    if k > 0 {
      BlocksAt(ms, |ms|, k - 1);
      assert ms[s[k - 1]..|ms|] == ms[s[k - 1]..];
    }
    forall q: nat | Opens(ms, q) && q < p ensures Total(ms[q..]) > Budget(ms, maxChars) {
      var j :| 0 <= j < |s| && s[j] == q;
      SuffixTotal(ms, q, s[k - 1]);
    }
  }

  // ---------------------------------------------------------------------------------------------
  // What the cut means
  // ---------------------------------------------------------------------------------------------

  /** There is one cut, so the result is determined. */
  lemma CutIsUnique(ms: seq<Message>, maxChars: int, p: nat, q: nat)
    requires Cut(ms, maxChars, p) && Cut(ms, maxChars, q)
    ensures p == q
  {
    hide Total, Budget, Opens;
  }

  /** A message is kept exactly when the message that opens its block is: no tool reply is cut from its call. */
  lemma BlocksStayWhole(ms: seq<Message>, maxChars: int, p: nat, opener: nat, t: nat)
    requires Cut(ms, maxChars, p) && Opens(ms, opener) && opener <= t < |ms|
    requires forall x: nat | opener < x <= t :: ms[x].role == TOOL
    ensures p <= opener <==> p <= t
    ensures p > HeadLen(ms) ==> ms[p].role != TOOL
  {
    hide Total, Budget;
  }

  /** A trimmed transcript is within the limit, but for its note, exactly when the last block fits behind the head. */
  lemma WithinLimitIff(ms: seq<Message>, maxChars: int, p: nat, last: nat)
    requires Cut(ms, maxChars, p) && Opens(ms, last) && forall q: nat | last < q :: !Opens(ms, q)
    ensures Total(Trimmed(ms, p)) <= maxChars + Chars(Note(|Openings(ms, p)|))
            <==> Total(ms[last..]) <= Budget(ms, maxChars)
  {
    hide Total, Openings, Note;
    var head, note := ms[..HeadLen(ms)], Note(|Openings(ms, p)|);
    TotalSplit(head + [note], ms[p..]);
    TotalSplit(head, [note]);
    TotalOne(note);
    assert p <= last;
    SuffixTotal(ms, p, last);
  }

  lemma TotalOne(m: Message)
    ensures Total([m]) == Chars(m)
  {
    assert [m][..0] == [];
  }
}
