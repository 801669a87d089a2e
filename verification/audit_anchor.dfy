/** The external anchor of the audit chains: an append-only log of chain heads that only ratchets upwards. */
module AuditAnchor {
  import opened AuditChain
  import opened Options

  const HOST_CHAIN := "host"
  const DECISIONS := "decisions:"

  /** A decoded line of the anchor log. */
  datatype Entry = Entry(chain: Json, seqNo: Json, hash: Json)

  datatype Head = Head(seqNo: int, hash: string)

  datatype Anchor = Anchor(chain: string, head: Head)

  predicate UsableChain(chain: string) {
    && chain != "" && chain != "." && chain != ".." && chain != "*"
    && (forall i | 0 <= i < |chain| :: chain[i] != '/' && chain[i] != '\\' && chain[i] != '\0')
    && var plan := PlanPart(chain); plan != "" && forall i | 0 <= i < |plan| :: plan[i] != ':'
  }

  function PlanPart(chain: string): string {
    if DECISIONS <= chain then chain[|DECISIONS|..] else chain
  }

  /** What a log line anchors, if anything. */
  function Anchored(e: Entry): Option<Anchor> {
    if e.chain.Str? && UsableChain(e.chain.s) && e.seqNo.Int? && e.hash.Str? && e.hash.s != "" then
      Some(Anchor(e.chain.s, Head(e.seqNo.n, e.hash.s)))
    else None
  }

  /** The strongest anchor of every chain. */
  function Strongest(log: seq<Entry>): map<string, Head> {
    if log == [] then map[]
    else
      var before := Strongest(log[..|log| - 1]);
      var a := Anchored(log[|log| - 1]);
      if a.None? || (a.value.chain in before && a.value.head.seqNo <= before[a.value.chain].seqNo) then before
      else before[a.value.chain := a.value.head]
  }

  method Anchors(log: seq<Entry>) returns (strongest: map<string, Head>)
    ensures strongest == Strongest(log)
  {
    strongest := map[];
    for k := 0 to |log|
      invariant strongest == Strongest(log[..k])
    {
      assert log[..k + 1][..k] == log[..k];
      var a := Anchored(log[k]);
      if a.Some? {
        var chain, head := a.value.chain, a.value.head;
        if chain !in strongest || head.seqNo > strongest[chain].seqNo {
          strongest := strongest[chain := head];
        }
      }
    }
    assert log[..|log|] == log;
  }

  predicate AnchorsAt(log: seq<Entry>, i: nat, chain: string)
    requires i < |log|
  {
    Anchored(log[i]).Some? && Anchored(log[i]).value.chain == chain
  }

  /** The declared meaning: the highest number ever anchored for the chain and, at that number, the hash anchored
      first. */
  ghost predicate IsStrongest(log: seq<Entry>, chain: string, head: Head) {
    exists i | 0 <= i < |log| ::
      && AnchorsAt(log, i, chain) && Anchored(log[i]).value.head == head
      && forall j | 0 <= j < |log| && AnchorsAt(log, j, chain) ::
           Anchored(log[j]).value.head.seqNo <= head.seqNo && (j < i ==> Anchored(log[j]).value.head.seqNo < head.seqNo)
  }

  lemma {:induction false} StrongestIsStrongest(log: seq<Entry>, chain: string)
    ensures chain in Strongest(log) <==> exists i | 0 <= i < |log| :: AnchorsAt(log, i, chain)
    ensures chain in Strongest(log) ==> IsStrongest(log, chain, Strongest(log)[chain])
    decreases |log|
  {
    hide UsableChain;
    if log != [] {
      var n := |log| - 1;
      var before := log[..n];
      StrongestIsStrongest(before, chain);
      assert forall i | 0 <= i < n :: log[i] == before[i];
      assert forall i | 0 <= i < n :: AnchorsAt(log, i, chain) <==> AnchorsAt(before, i, chain);
      if AnchorsAt(log, n, chain) {
        if chain !in Strongest(before) || Anchored(log[n]).value.head.seqNo > Strongest(before)[chain].seqNo {
          assert Anchored(log[n]).value.head == Strongest(log)[chain];
        }
      }
    }
  }

  /** At least as strong: a higher number, or the same number and the very same hash. */
  predicate NotWeaker(a: Head, b: Head) {
    b.seqNo > a.seqNo || b == a
  }

  /** Whatever is appended to the log, an anchored number never falls and the hash at it is never replaced. */
  lemma {:induction false} Ratchet(log: seq<Entry>, more: seq<Entry>, chain: string)
    requires chain in Strongest(log)
    ensures chain in Strongest(log + more) && NotWeaker(Strongest(log)[chain], Strongest(log + more)[chain])
    decreases |more|
  {
    if more == [] {
      assert log + more == log;
    } else {
      assert (log + more)[..|log + more| - 1] == log + more[..|more| - 1];
      Ratchet(log, more[..|more| - 1], chain);
    }
  }

  // ---------------------------------------------------------------------------------------------
  // Anchoring passes
  // ---------------------------------------------------------------------------------------------

  /** The head of a stream: its last record, when that carries an integer number and a non-empty hash. */
  function HeadOf(f: File): Option<Head> {
    var tail := Tail(f.lines);
    if tail.Some? && tail.value.seqNo.Int? && tail.value.hash.Str? && tail.value.hash.s != "" then
      Some(Head(tail.value.seqNo.n, tail.value.hash.s))
    else None
  }

  /** A chain and its head at the time of a pass. */
  datatype Reading = Reading(chain: string, head: Option<Head>)

  predicate Raises(known: map<string, Head>, r: Reading) {
    r.head.Some? && (r.chain in known ==> r.head.value.seqNo > known[r.chain].seqNo)
  }

  function EntryOf(r: Reading): Entry
    requires r.head.Some?
  {
    Entry(Str(r.chain), Int(r.head.value.seqNo), Str(r.head.value.hash))
  }

  /** What a pass appends, given the anchors known when it began. */
  function PassEntries(known: map<string, Head>, readings: seq<Reading>): seq<Entry> {
    if readings == [] then []
    else
      var n := |readings| - 1;
      PassEntries(known, readings[..n]) + if Raises(known, readings[n]) then [EntryOf(readings[n])] else []
  }

  class AnchorLog {
    var log: seq<Entry>

    /** One anchoring pass; a log that cannot be read is left alone. */
    method AnchorHeads(readable: bool, readings: seq<Reading>) returns (appended: nat)
      modifies this
      ensures log == old(log) + if readable then PassEntries(Strongest(old(log)), readings) else []
      ensures appended == |log| - |old(log)|
    {
      appended := 0;
      if !readable {
        return;
      }
      var known := Anchors(log);
      for k := 0 to |readings|
        invariant log == old(log) + PassEntries(known, readings[..k]) && appended == |log| - |old(log)|
      {
        var r := readings[k];
        assert readings[..k + 1][..k] == readings[..k];
        if r.head.Some? {
          if r.chain in known && r.head.value.seqNo <= known[r.chain].seqNo {
            continue;
          }
          log := log + [EntryOf(r)];
          appended := appended + 1;
        }
      }
      assert readings[..|readings|] == readings;
    }
  }

  function AfterPass(log: seq<Entry>, readings: seq<Reading>): seq<Entry> {
    log + PassEntries(Strongest(log), readings)
  }

  /** Heads are read from streams, so a digest in a head is never empty. */
  predicate RealHeads(readings: seq<Reading>) {
    forall i | 0 <= i < |readings| :: readings[i].head.Some? ==> readings[i].head.value.hash != ""
  }

  lemma StrongestStep(log: seq<Entry>, e: Entry)
    ensures var a := Anchored(e);
            Strongest(log + [e])
            == if a.None? || (a.value.chain in Strongest(log)
                              && a.value.head.seqNo <= Strongest(log)[a.value.chain].seqNo)
                                    then Strongest(log) else Strongest(log)[a.value.chain := a.value.head]
  {
    assert (log + [e])[..|log|] == log;
  }

  function PassStep(log: seq<Entry>, known: map<string, Head>, r: Reading): seq<Entry> {
    if Raises(known, r) then log + [EntryOf(r)] else log
  }

  lemma AfterPassStep(log: seq<Entry>, readings: seq<Reading>)
    requires readings != []
    ensures var n := |readings| - 1;
            AfterPass(log, readings) == PassStep(AfterPass(log, readings[..n]), Strongest(log), readings[n])
  {
  }

  lemma AfterNoReadings(log: seq<Entry>)
    ensures AfterPass(log, []) == log
  {
  }

  /** One appended head: the chain's anchor becomes it when it is above, and no other chain is touched. */
  lemma EntryRaises(log: seq<Entry>, r: Reading, chain: string)
    requires r.head.Some? && r.head.value.hash != "" && UsableChain(chain)
    ensures var before, after := Strongest(log), Strongest(log + [EntryOf(r)]);
            if r.chain != chain then
              (chain in after <==> chain in before) && (chain in before ==> after[chain] == before[chain])
            else
              && chain in after && r.head.value.seqNo <= after[chain].seqNo
              && (after[chain] == r.head.value || (chain in before && after[chain] == before[chain]))
  {
    hide Strongest, UsableChain;
    StrongestStep(log, EntryOf(r));
  }

  /** After a pass the anchor of a usable chain is at least every head the pass read for it. */
  lemma {:induction false} PassCovers(log: seq<Entry>, readings: seq<Reading>, chain: string)
    requires UsableChain(chain) && RealHeads(readings)
    ensures var after := Strongest(AfterPass(log, readings));
            forall i | 0 <= i < |readings| && readings[i].chain == chain && readings[i].head.Some? ::
              chain in after && readings[i].head.value.seqNo <= after[chain].seqNo
    decreases |readings|
  {
    hide Strongest, UsableChain, PassEntries, EntryOf;
    if readings != [] {
      var n := |readings| - 1;
      var r := readings[n];
      var mid := AfterPass(log, readings[..n]);
      PassCovers(log, readings[..n], chain);
      AfterPassStep(log, readings);
      forall i | 0 <= i < |readings| && readings[i].chain == chain && readings[i].head.Some?
        ensures chain in Strongest(AfterPass(log, readings))
        ensures readings[i].head.value.seqNo <= Strongest(AfterPass(log, readings))[chain].seqNo
      {
        if i < n {
          assert readings[i] == readings[..n][i];
        } else if !Raises(Strongest(log), r) {
          Ratchet(log, PassEntries(Strongest(log), readings), chain);
        }
        if Raises(Strongest(log), r) {
          EntryRaises(mid, r, chain);
          if i < n {
            Ratchet(mid, [EntryOf(r)], chain);
          }
        }
      }
    }
  }

  /** The anchor after a pass is the one before it, or a head the pass read above the one before it. */
  lemma {:induction false} PassOrigin(log: seq<Entry>, readings: seq<Reading>, chain: string)
    requires UsableChain(chain) && RealHeads(readings)
    ensures var before, after := Strongest(log), Strongest(AfterPass(log, readings));
            chain in after ==>
              || (chain in before && after[chain] == before[chain])
              || exists i | 0 <= i < |readings| ::
                   readings[i].chain == chain && Raises(before, readings[i]) && after[chain] == readings[i].head.value
    decreases |readings|
  {
    hide Strongest, UsableChain, PassEntries, EntryOf;
    if readings == [] {
      AfterNoReadings(log);
    } else {
      var n := |readings| - 1;
      PassOrigin(log, readings[..n], chain);
      AfterPassStep(log, readings);
      assert forall i | 0 <= i < n :: readings[i] == readings[..n][i];
      if Raises(Strongest(log), readings[n]) {
        EntryRaises(AfterPass(log, readings[..n]), readings[n], chain);
      }
    }
  }

  /** An anchor moves during a pass exactly when the pass read a head above it. */
  lemma PassMovesIff(log: seq<Entry>, readings: seq<Reading>, chain: string)
    requires UsableChain(chain) && RealHeads(readings) && chain in Strongest(log)
    ensures var before, after := Strongest(log), Strongest(AfterPass(log, readings));
            && chain in after && NotWeaker(before[chain], after[chain])
            && (after[chain] != before[chain]
                <==> exists i | 0 <= i < |readings| :: readings[i].chain == chain && Raises(before, readings[i]))
  {
    hide Strongest, UsableChain, PassEntries, EntryOf;
    PassCovers(log, readings, chain);
    PassOrigin(log, readings, chain);
    Ratchet(log, PassEntries(Strongest(log), readings), chain);
  }

  lemma {:induction false} NothingAppendedIff(known: map<string, Head>, readings: seq<Reading>)
    ensures PassEntries(known, readings) == [] <==> forall i | 0 <= i < |readings| :: !Raises(known, readings[i])
    decreases |readings|
  {
    if readings != [] {
      var n := |readings| - 1;
      NothingAppendedIff(known, readings[..n]);
      assert forall i | 0 <= i < n :: readings[i] == readings[..n][i];
    }
  }

  lemma {:induction false} OnlyUsableAnchored(log: seq<Entry>, chain: string)
    requires chain in Strongest(log)
    ensures UsableChain(chain)
    decreases |log|
  {
    hide UsableChain;
    if log != [] && chain in Strongest(log[..|log| - 1]) {
      OnlyUsableAnchored(log[..|log| - 1], chain);
    }
  }

  /** A second pass over the same heads appends nothing, unless a stream with a head has a name that anchors nothing:
      such a head is appended again on every pass. */
  lemma RepeatPassAppendsNothingIff(log: seq<Entry>, readings: seq<Reading>)
    requires RealHeads(readings)
    ensures var once := AfterPass(log, readings);
            AfterPass(once, readings) == once
            <==> forall i | 0 <= i < |readings| && readings[i].head.Some? :: UsableChain(readings[i].chain)
  {
    hide Strongest, UsableChain, PassEntries, EntryOf;
    var once := AfterPass(log, readings);
    var known := Strongest(once);
    NothingAppendedIff(known, readings);
    assert AfterPass(once, readings) == once <==> PassEntries(known, readings) == [];
    forall i | 0 <= i < |readings| && readings[i].head.Some?
      ensures Raises(known, readings[i]) <==> !UsableChain(readings[i].chain)
    {
      var chain := readings[i].chain;
      if UsableChain(chain) {
        PassCovers(log, readings, chain);
      } else if chain in known {
        OnlyUsableAnchored(once, chain);
      }
    }
  }

  function LogAfter(log: seq<Entry>, passes: seq<seq<Reading>>): seq<Entry>
    decreases |passes|
  {
    if passes == [] then log else AfterPass(LogAfter(log, passes[..|passes| - 1]), passes[|passes| - 1])
  }

  predicate AboveAnchor(readings: seq<Reading>, chain: string, anchor: Head) {
    exists i | 0 <= i < |readings| ::
      readings[i].chain == chain && readings[i].head.Some? && readings[i].head.value.seqNo > anchor.seqNo
  }

  /** Over any run of passes, with any streams in between, an anchor never weakens; and it is still the same after
      the run exactly when no pass read a head above it. */
  lemma {:induction false} AnchorSurvivesIff(log: seq<Entry>, passes: seq<seq<Reading>>, chain: string)
    requires chain in Strongest(log) && forall k | 0 <= k < |passes| :: RealHeads(passes[k])
    ensures var before, after := Strongest(log), Strongest(LogAfter(log, passes));
            && chain in after && NotWeaker(before[chain], after[chain])
            && (after[chain] == before[chain]
                <==> forall k | 0 <= k < |passes| :: !AboveAnchor(passes[k], chain, before[chain]))
    decreases |passes|
  {
    hide Strongest, UsableChain, PassEntries, EntryOf, RealHeads;
    OnlyUsableAnchored(log, chain);
    if passes != [] {
      var n := |passes| - 1;
      var mid := LogAfter(log, passes[..n]);
      assert forall k | 0 <= k < n :: passes[k] == passes[..n][k];
      AnchorSurvivesIff(log, passes[..n], chain);
      PassMovesIff(mid, passes[n], chain);
      assert Strongest(mid)[chain] == Strongest(log)[chain] ==>
          (AboveAnchor(passes[n], chain, Strongest(log)[chain])
           <==> exists i | 0 <= i < |passes[n]| :: passes[n][i].chain == chain && Raises(Strongest(mid), passes[n][i]));
    }
  }
}
