/** Tool calls of one assistant message. Modern calls are content blocks, legacy
    calls a second list; both may name the same call once. The selector and the
    planner merge the two lists independently, one with the full validity check
    (`strict`), the other checking identities only and validating blocks later. */
module ToolIntents {
  import opened Journals
  import opened Transcript

  datatype Occurrence = Occurrence(intent: ToolUse, legacy: bool)

  /** Calls seen so far and the legacy calls that no block carries. */
  datatype Merge = BadIntent | Merge(seen: map<string, Occurrence>, extra: seq<ToolUse>)

  predicate Admitted(u: ToolUse, strict: bool) { if strict then u.Valid() else u.callId != "" }

  function ModernStep(m: Merge, b: Block, strict: bool): Merge {
    if m.BadIntent? || !(b.Use? || b.UseMissing?) then m
    else if b.UseMissing? || !Admitted(b.intent, strict) || b.intent.callId in m.seen then BadIntent
    else m.(seen := m.seen[b.intent.callId := Occurrence(b.intent, false)])
  }

  function LegacyStep(m: Merge, u: ToolUse, strict: bool): Merge {
    if m.BadIntent? then m
    else if !Admitted(u, strict) then BadIntent
    else if u.callId in m.seen then
      var o := m.seen[u.callId];
      if o.legacy || o.intent.alias != u.alias || o.intent.arguments != u.arguments then BadIntent
      else m.(seen := m.seen[u.callId := o.(legacy := true)])
    else Merge(m.seen[u.callId := Occurrence(u, true)], m.extra + [u])
  }

  function ModernPass(blocks: seq<Block>, strict: bool): Merge {
    if blocks == [] then Merge(map[], [])
    else ModernStep(ModernPass(blocks[..|blocks| - 1], strict), blocks[|blocks| - 1], strict)
  }

  function MergeIntents(blocks: seq<Block>, intents: seq<ToolUse>, strict: bool): Merge {
    if intents == [] then ModernPass(blocks, strict)
    else LegacyStep(MergeIntents(blocks, intents[..|intents| - 1], strict), intents[|intents| - 1], strict)
  }

  /** The call a block contributes, if any. */
  function BlockCalls(b: Block): seq<string> { if b.Use? then [b.intent.callId] else [] }

  function ToolCallIds(blocks: seq<Block>): seq<string> {
    if blocks == [] then []
    else ToolCallIds(blocks[..|blocks| - 1]) + BlockCalls(blocks[|blocks| - 1])
  }

  function UseBlocks(extra: seq<ToolUse>): (r: seq<Block>)
    ensures |r| == |extra|
    ensures forall k :: 0 <= k < |r| ==> r[k] == Use(extra[k])
  {
    seq(|extra|, i requires 0 <= i < |extra| => Use(extra[i]))
  }

  /** The calls of a merged message, in the order both readers list them. */
  function MergedCalls(blocks: seq<Block>, extra: seq<ToolUse>): seq<string> {
    ToolCallIds(blocks + UseBlocks(extra))
  }

  predicate Distinct(ids: seq<string>) {
    forall j, k :: 0 <= j < k < |ids| ==> ids[j] != ids[k]
  }

  lemma ToolCallIdsSnoc(blocks: seq<Block>, b: Block)
    ensures ToolCallIds(blocks + [b]) == ToolCallIds(blocks) + BlockCalls(b)
  {
    assert (blocks + [b])[..|blocks|] == blocks;
  }

  lemma MergedCallsSnoc(blocks: seq<Block>, extra: seq<ToolUse>, u: ToolUse)
    ensures MergedCalls(blocks, extra + [u]) == MergedCalls(blocks, extra) + [u.callId]
  {
    assert blocks + UseBlocks(extra + [u]) == (blocks + UseBlocks(extra)) + [Use(u)];
    ToolCallIdsSnoc(blocks + UseBlocks(extra), Use(u));
  }

  lemma MergedCallsNone(blocks: seq<Block>)
    ensures MergedCalls(blocks, []) == ToolCallIds(blocks)
  {
    assert blocks + UseBlocks([]) == blocks;
  }

  lemma {:induction false} ModernCalls(blocks: seq<Block>, strict: bool)
    requires ModernPass(blocks, strict).Merge?
    ensures var m := ModernPass(blocks, strict); var ids := ToolCallIds(blocks);
      m.extra == [] && Distinct(ids) && (forall c :: c in m.seen <==> c in ids) && (forall c :: c in ids ==> c != "")
  {
    if blocks == [] {
    } else {
      ModernCalls(blocks[..|blocks| - 1], strict);
    }
  }

  /** A merged message lists each call it names exactly once, and no nameless one. */
  lemma {:induction false} MergedCallsAreExact(blocks: seq<Block>, intents: seq<ToolUse>, strict: bool)
    requires MergeIntents(blocks, intents, strict).Merge?
    ensures var m := MergeIntents(blocks, intents, strict); var ids := MergedCalls(blocks, m.extra);
      Distinct(ids) && (forall c :: c in m.seen <==> c in ids) && (forall c :: c in ids ==> c != "")
  {
    if intents == [] {
      ModernCalls(blocks, strict);
      MergedCallsNone(blocks);
    } else {
      var u := intents[|intents| - 1];
      var p := MergeIntents(blocks, intents[..|intents| - 1], strict);
      MergedCallsAreExact(blocks, intents[..|intents| - 1], strict);
      if u.callId !in p.seen {
        MergedCallsSnoc(blocks, p.extra, u);
      }
    }
  }

  ghost predicate AllUsesValid(blocks: seq<Block>) {
    forall k :: 0 <= k < |blocks| && (blocks[k].Use? || blocks[k].UseMissing?) ==> blocks[k].Valid()
  }

  ghost predicate AllValid(uses: seq<ToolUse>) {
    forall k :: 0 <= k < |uses| ==> uses[k].Valid()
  }

  lemma {:induction false} ModernStrictness(blocks: seq<Block>)
    ensures ModernPass(blocks, true).Merge? <==> ModernPass(blocks, false).Merge? && AllUsesValid(blocks)
    ensures ModernPass(blocks, true).Merge? ==> ModernPass(blocks, true) == ModernPass(blocks, false)
    ensures ModernPass(blocks, true).Merge? ==>
      forall c :: c in ModernPass(blocks, true).seen ==>
        ModernPass(blocks, true).seen[c].intent.Valid() && ModernPass(blocks, true).seen[c].intent.callId == c
    ensures ModernPass(blocks, false).Merge? ==> ModernPass(blocks, false).extra == []
  {
    if blocks == [] {
    } else {
      var n := |blocks| - 1;
      ModernStrictness(blocks[..n]);
      assert AllUsesValid(blocks) <==>
        AllUsesValid(blocks[..n]) && ((blocks[n].Use? || blocks[n].UseMissing?) ==> blocks[n].Valid());
    }
  }

  /** The strict merge succeeds iff the loose one does and every call it ends up
      with is valid; then both end with the same calls. */
  lemma {:induction false} Strictness(blocks: seq<Block>, intents: seq<ToolUse>)
    ensures var s := MergeIntents(blocks, intents, true); var l := MergeIntents(blocks, intents, false);
      && (s.Merge? <==> l.Merge? && AllUsesValid(blocks) && AllValid(l.extra))
      && (s.Merge? ==> s == l && forall c :: c in s.seen ==> s.seen[c].intent.Valid() && s.seen[c].intent.callId == c)
  {
    if intents == [] {
      ModernStrictness(blocks);
    } else {
      var n := |intents| - 1;
      Strictness(blocks, intents[..n]);
      var l0, l := MergeIntents(blocks, intents[..n], false), MergeIntents(blocks, intents, false);
      if l.Merge? {
        assert l.extra == l0.extra || l.extra == l0.extra + [intents[n]];
        assert AllValid(l.extra) ==> AllValid(l0.extra) by {
          if AllValid(l.extra) {
            forall k | 0 <= k < |l0.extra| ensures l0.extra[k].Valid() { assert l.extra[k] == l0.extra[k]; }
          }
        }
        if l.extra != l0.extra {
          assert l.extra[|l0.extra|] == intents[n];
        }
      }
    }
  }

  /** Nothing is merged out of an empty message only. */
  lemma {:induction false} EmptyMerge(blocks: seq<Block>, intents: seq<ToolUse>, strict: bool)
    requires MergeIntents(blocks, intents, strict).Merge?
    ensures blocks == [] && MergeIntents(blocks, intents, strict).extra == [] <==> blocks == [] && intents == []
  {
    if intents == [] {
      ModernCalls(blocks, strict);
    } else if blocks == [] {
      var n := |intents| - 1;
      EmptyMerge(blocks, intents[..n], strict);
      MergedCallsAreExact(blocks, intents[..n], strict);
      if intents[..n] == [] {
        ModernCalls(blocks, strict);
      }
    }
  }

  lemma {:induction false} ModernFailureSticks(blocks: seq<Block>, i: nat, strict: bool)
    requires i <= |blocks| && ModernPass(blocks[..i], strict).BadIntent?
    ensures ModernPass(blocks, strict).BadIntent?
  {
    if i == |blocks| {
      assert blocks[..i] == blocks;
    } else {
      var n := |blocks| - 1;
      assert blocks[..n][..i] == blocks[..i];
      ModernFailureSticks(blocks[..n], i, strict);
    }
  }

  lemma {:induction false} LegacyFailureSticks(blocks: seq<Block>, intents: seq<ToolUse>, i: nat, strict: bool)
    requires i <= |intents| && MergeIntents(blocks, intents[..i], strict).BadIntent?
    ensures MergeIntents(blocks, intents, strict).BadIntent?
  {
    if i == |intents| {
      assert intents[..i] == intents;
    } else {
      var n := |intents| - 1;
      assert intents[..n][..i] == intents[..i];
      LegacyFailureSticks(blocks, intents[..n], i, strict);
    }
  }

  /** The selector's reader (`assistantToolCallIDs`). */
  method AssistantToolCallIds(blocks: seq<Block>, intents: seq<ToolUse>) returns (ok: bool, callIds: seq<string>)
    ensures ok == MergeIntents(blocks, intents, true).Merge?
    ensures ok ==> callIds == MergedCalls(blocks, MergeIntents(blocks, intents, true).extra)
  {
    var seen: map<string, Occurrence> := map[];
    callIds := [];
    for i := 0 to |blocks|
      invariant ModernPass(blocks[..i], true) == Merge(seen, [])
      invariant callIds == ToolCallIds(blocks[..i])
    {
      assert blocks[..i + 1][..i] == blocks[..i];
      var b := blocks[i];
      if b.Use? || b.UseMissing? {
        if b.UseMissing? || !b.intent.Valid() || b.intent.callId in seen {
          ModernFailureSticks(blocks, i + 1, true);
          LegacyFailureSticks(blocks, intents, 0, true);
          return false, [];
        }
        seen := seen[b.intent.callId := Occurrence(b.intent, false)];
        callIds := callIds + [b.intent.callId];
      }
    }
    assert blocks[..|blocks|] == blocks;
    ghost var extra: seq<ToolUse> := [];
    MergedCallsNone(blocks);
    for i := 0 to |intents|
      invariant MergeIntents(blocks, intents[..i], true) == Merge(seen, extra)
      invariant callIds == MergedCalls(blocks, extra)
    {
      assert intents[..i + 1][..i] == intents[..i];
      var u := intents[i];
      if !u.Valid() {
        LegacyFailureSticks(blocks, intents, i + 1, true);
        return false, [];
      }
      if u.callId in seen {
        var o := seen[u.callId];
        if o.legacy || o.intent.alias != u.alias || o.intent.arguments != u.arguments {
          LegacyFailureSticks(blocks, intents, i + 1, true);
          return false, [];
        }
        seen := seen[u.callId := o.(legacy := true)];
      } else {
        MergedCallsSnoc(blocks, extra, u);
        seen := seen[u.callId := Occurrence(u, true)];
        extra := extra + [u];
        callIds := callIds + [u.callId];
      }
    }
    assert intents[..|intents|] == intents;
    ok := true;
  }

  /** The planner's reader (`canonicalAssistantBlocks`): legacy calls become blocks. */
  method CanonicalAssistantBlocks(blocks: seq<Block>, intents: seq<ToolUse>) returns (ok: bool, canonical: seq<Block>)
    ensures ok == MergeIntents(blocks, intents, false).Merge?
    ensures ok ==> canonical == blocks + UseBlocks(MergeIntents(blocks, intents, false).extra)
  {
    var seen: map<string, Occurrence> := map[];
    for i := 0 to |blocks|
      invariant ModernPass(blocks[..i], false) == Merge(seen, [])
    {
      assert blocks[..i + 1][..i] == blocks[..i];
      var b := blocks[i];
      if b.Use? || b.UseMissing? {
        if b.UseMissing? || b.intent.callId == "" || b.intent.callId in seen {
          ModernFailureSticks(blocks, i + 1, false);
          LegacyFailureSticks(blocks, intents, 0, false);
          return false, [];
        }
        seen := seen[b.intent.callId := Occurrence(b.intent, false)];
      }
    }
    assert blocks[..|blocks|] == blocks;
    ghost var extra: seq<ToolUse> := [];
    canonical := blocks;
    for i := 0 to |intents|
      invariant MergeIntents(blocks, intents[..i], false) == Merge(seen, extra)
      invariant canonical == blocks + UseBlocks(extra)
    {
      assert intents[..i + 1][..i] == intents[..i];
      var u := intents[i];
      if u.callId == "" {
        LegacyFailureSticks(blocks, intents, i + 1, false);
        return false, [];
      }
      if u.callId in seen {
        var o := seen[u.callId];
        if o.legacy || o.intent.alias != u.alias || o.intent.arguments != u.arguments {
          LegacyFailureSticks(blocks, intents, i + 1, false);
          return false, [];
        }
        seen := seen[u.callId := o.(legacy := true)];
      } else {
        assert blocks + UseBlocks(extra + [u]) == blocks + UseBlocks(extra) + [Use(u)];
        seen := seen[u.callId := Occurrence(u, true)];
        extra := extra + [u];
        canonical := canonical + [Use(u)];
      }
    }
    assert intents[..|intents|] == intents;
    ok := true;
  }

  // ---- when a message merges ----

  /** A call has a name; the strict reader also wants an alias and arguments it can read. */
  predicate UseOk(u: ToolUse, strict: bool) {
    u.callId != "" && (strict ==> u.alias != "" && u.arguments.WellFormed?)
  }

  predicate InBlocks(blocks: seq<Block>, c: string) {
    exists k :: 0 <= k < |blocks| && blocks[k].Use? && blocks[k].intent.callId == c
  }

  predicate InIntents(intents: seq<ToolUse>, c: string) {
    exists k :: 0 <= k < |intents| && intents[k].callId == c
  }

  predicate BlocksOk(blocks: seq<Block>, strict: bool) {
    && (forall k :: 0 <= k < |blocks| ==>
      !blocks[k].UseMissing? && (blocks[k].Use? ==> UseOk(blocks[k].intent, strict)))
    && forall j, k :: 0 <= j < k < |blocks| && blocks[j].Use? && blocks[k].Use? ==>
      blocks[j].intent.callId != blocks[k].intent.callId
  }

  /** An older intent repeats the block of its call, if there is one, word for word. */
  predicate IntentOk(blocks: seq<Block>, u: ToolUse, strict: bool) {
    && UseOk(u, strict)
    && forall k :: 0 <= k < |blocks| && blocks[k].Use? && blocks[k].intent.callId == u.callId ==>
      blocks[k].intent.alias == u.alias && blocks[k].intent.arguments == u.arguments
  }

  predicate IntentsOk(blocks: seq<Block>, intents: seq<ToolUse>, strict: bool) {
    && (forall k :: 0 <= k < |intents| ==> IntentOk(blocks, intents[k], strict))
    && forall j, k :: 0 <= j < k < |intents| ==> intents[j].callId != intents[k].callId
  }

  /** The older intents no block carries, in order. */
  function NotInBlocks(blocks: seq<Block>, intents: seq<ToolUse>): seq<ToolUse> {
    if intents == [] then []
    else
      var u := intents[|intents| - 1];
      NotInBlocks(blocks, intents[..|intents| - 1]) + (if InBlocks(blocks, u.callId) then [] else [u])
  }

  ghost predicate SeenBlocks(blocks: seq<Block>, seen: map<string, Occurrence>) {
    && (forall c :: c in seen <==> InBlocks(blocks, c))
    && (forall k :: 0 <= k < |blocks| && blocks[k].Use? ==>
      blocks[k].intent.callId in seen && seen[blocks[k].intent.callId] == Occurrence(blocks[k].intent, false))
  }

  lemma InBlocksSnoc(blocks: seq<Block>, c: string)
    requires blocks != []
    ensures var n := |blocks| - 1;
      InBlocks(blocks, c) <==> InBlocks(blocks[..n], c) || (blocks[n].Use? && blocks[n].intent.callId == c)
  {
    var n := |blocks| - 1;
    assert forall k :: 0 <= k < n ==> blocks[..n][k] == blocks[k];
  }

  lemma BlocksOkSnoc(blocks: seq<Block>, strict: bool)
    requires blocks != []
    ensures var n := |blocks| - 1; var b := blocks[n];
      BlocksOk(blocks, strict) <==>
        && BlocksOk(blocks[..n], strict) && !b.UseMissing?
        && (b.Use? ==> UseOk(b.intent, strict) && !InBlocks(blocks[..n], b.intent.callId))
  {
    var n := |blocks| - 1;
    assert forall k :: 0 <= k < n ==> blocks[..n][k] == blocks[k];
  }

  lemma {:induction false} ModernIff(blocks: seq<Block>, strict: bool)
    ensures ModernPass(blocks, strict).Merge? <==> BlocksOk(blocks, strict)
    ensures ModernPass(blocks, strict).Merge? ==>
      SeenBlocks(blocks, ModernPass(blocks, strict).seen) && ModernPass(blocks, strict).extra == []
  {
    if blocks == [] {
    } else {
      var n := |blocks| - 1;
      ModernIff(blocks[..n], strict);
      BlocksOkSnoc(blocks, strict);
      forall c ensures InBlocks(blocks, c) <==>
        InBlocks(blocks[..n], c) || (blocks[n].Use? && blocks[n].intent.callId == c)
      {
        InBlocksSnoc(blocks, c);
      }
      assert forall k :: 0 <= k < n ==> blocks[..n][k] == blocks[k];
    }
  }

  ghost predicate SeenAll(blocks: seq<Block>, intents: seq<ToolUse>, seen: map<string, Occurrence>) {
    && (forall c :: c in seen <==> InBlocks(blocks, c) || InIntents(intents, c))
    && (forall c :: c in seen ==> (seen[c].legacy <==> InIntents(intents, c)))
    && (forall k :: 0 <= k < |blocks| && blocks[k].Use? ==>
      blocks[k].intent.callId in seen && seen[blocks[k].intent.callId].intent == blocks[k].intent)
  }

  lemma IntentsOkSnoc(blocks: seq<Block>, intents: seq<ToolUse>, strict: bool)
    requires intents != []
    ensures var n := |intents| - 1;
      && (IntentsOk(blocks, intents, strict) <==>
        && IntentsOk(blocks, intents[..n], strict) && IntentOk(blocks, intents[n], strict)
        && !InIntents(intents[..n], intents[n].callId))
      && forall c :: InIntents(intents, c) <==> InIntents(intents[..n], c) || intents[n].callId == c
  {
    var n := |intents| - 1;
    assert forall k :: 0 <= k < n ==> intents[..n][k] == intents[k];
  }

  lemma OneIntent(blocks: seq<Block>, intents: seq<ToolUse>, m: Merge, u: ToolUse, strict: bool)
    requires m.Merge? && SeenAll(blocks, intents, m.seen) && BlocksOk(blocks, strict)
    ensures LegacyStep(m, u, strict).Merge? <==> IntentOk(blocks, u, strict) && !InIntents(intents, u.callId)
    ensures LegacyStep(m, u, strict).Merge? ==>
      LegacyStep(m, u, strict).extra == m.extra + (if InBlocks(blocks, u.callId) then [] else [u])
  {
    if InBlocks(blocks, u.callId) {
      var k :| 0 <= k < |blocks| && blocks[k].Use? && blocks[k].intent.callId == u.callId;
      assert m.seen[u.callId].intent == blocks[k].intent;
    }
    assert m.Merge? ==> m.extra + [] == m.extra;
  }

  lemma OneIntentSeen(blocks: seq<Block>, intents: seq<ToolUse>, m: Merge, u: ToolUse, strict: bool)
    requires m.Merge? && SeenAll(blocks, intents, m.seen) && LegacyStep(m, u, strict).Merge?
    requires BlocksOk(blocks, strict)
    ensures SeenAll(blocks, intents + [u], LegacyStep(m, u, strict).seen)
  {
    var longer, seen' := intents + [u], LegacyStep(m, u, strict).seen;
    IntentsOkSnoc(blocks, longer, strict);
    assert longer[..|intents|] == intents && longer[|intents|] == u;
    assert seen'.Keys == m.seen.Keys + {u.callId};
    forall c | c in seen' ensures seen'[c].legacy <==> InIntents(longer, c) {
      if c != u.callId { assert seen'[c] == m.seen[c]; }
    }
    forall k | 0 <= k < |blocks| && blocks[k].Use?
      ensures blocks[k].intent.callId in seen' && seen'[blocks[k].intent.callId].intent == blocks[k].intent
    {
      assert m.seen[blocks[k].intent.callId].intent == blocks[k].intent;
    }
  }

  lemma {:induction false} MergeSeen(blocks: seq<Block>, intents: seq<ToolUse>, strict: bool)
    ensures MergeIntents(blocks, intents, strict).Merge? <==>
      BlocksOk(blocks, strict) && IntentsOk(blocks, intents, strict)
    ensures MergeIntents(blocks, intents, strict).Merge? ==>
      SeenAll(blocks, intents, MergeIntents(blocks, intents, strict).seen)
  {
    if intents == [] {
      ModernIff(blocks, strict);
    } else {
      var n := |intents| - 1;
      MergeSeen(blocks, intents[..n], strict);
      IntentsOkSnoc(blocks, intents, strict);
      var m := MergeIntents(blocks, intents[..n], strict);
      if m.Merge? {
        OneIntent(blocks, intents[..n], m, intents[n], strict);
        assert intents == intents[..n] + [intents[n]];
        if LegacyStep(m, intents[n], strict).Merge? {
          OneIntentSeen(blocks, intents[..n], m, intents[n], strict);
        }
      }
    }
  }

  lemma {:induction false} MergeExtra(blocks: seq<Block>, intents: seq<ToolUse>, strict: bool)
    requires MergeIntents(blocks, intents, strict).Merge?
    ensures MergeIntents(blocks, intents, strict).extra == NotInBlocks(blocks, intents)
  {
    if intents == [] {
      ModernIff(blocks, strict);
    } else {
      var n := |intents| - 1;
      MergeExtra(blocks, intents[..n], strict);
      MergeSeen(blocks, intents[..n], strict);
      OneIntent(blocks, intents[..n], MergeIntents(blocks, intents[..n], strict), intents[n], strict);
    }
  }

  /** A message merges exactly if its blocks' calls are well named and different, and its
      older intents are well named, different, and repeat their blocks word for word; then
      the intents no block carries are added behind the blocks, in order. */
  lemma MergeIff(blocks: seq<Block>, intents: seq<ToolUse>, strict: bool)
    ensures MergeIntents(blocks, intents, strict).Merge? <==>
      BlocksOk(blocks, strict) && IntentsOk(blocks, intents, strict)
    ensures MergeIntents(blocks, intents, strict).Merge? ==>
      MergeIntents(blocks, intents, strict).extra == NotInBlocks(blocks, intents)
  {
    MergeSeen(blocks, intents, strict);
    if MergeIntents(blocks, intents, strict).Merge? { MergeExtra(blocks, intents, strict); }
  }
}
