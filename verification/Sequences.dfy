/** A request as the engine holds it: its tokens, its page table and how far its KV has come. */
module Sequences {
  import opened PrefixView
  import opened Pages
  import opened Pool

  class Sequence {
    const seqId: nat
    const promptTokens: nat
    const maxTokens: nat
    const ignoreEos: bool
    const priority: int
    var tokenIds: seq<Token>
    var status: Status
    var cachedTokens: nat
    var physicalCachedTokens: nat
    var scheduledTokens: nat
    var blockTable: seq<BlockId>
    var logicalIndices: seq<nat>
    var compressed: bool
    var isPrefill: bool
    var restoreAttempted: bool

    function State(): Request
      reads this
    {
      Request(tokenIds, promptTokens, maxTokens, status, cachedTokens, physicalCachedTokens, scheduledTokens,
              blockTable, logicalIndices, compressed, isPrefill, restoreAttempted)
    }

    constructor (id: nat, prompt: seq<Token>, limit: nat, runOn: bool, level: int)
      requires prompt != []
      ensures seqId == id
      ensures State() == Request(prompt, |prompt|, limit, Waiting, 0, 0, 0, [], [], false, true, false)
    {
      seqId, tokenIds, promptTokens, maxTokens := id, prompt, |prompt|, limit;
      ignoreEos, priority := runOn, level;
      status, cachedTokens, physicalCachedTokens, scheduledTokens := Waiting, 0, 0, 0;
      blockTable, logicalIndices, compressed, isPrefill, restoreAttempted := [], [], false, true, false;
    }

    function NumBlocks(blockSize: nat): (n: nat)
      requires blockSize > 0
      reads `tokenIds
    {
      PagesFor(|tokenIds|, blockSize)
    }

    /** The tokens of page `i`. */
    function Block(i: nat, blockSize: nat): seq<Token>
      requires blockSize > 0 && i < NumBlocks(blockSize)
      reads `tokenIds
    {
      PagesForBounds(|tokenIds|, blockSize);
      StartMonotone(i, NumBlocks(blockSize) - 1, blockSize);
      StartIs(i, blockSize);
      StartIs(i + 1, blockSize);
      var end := (i + 1) * blockSize;
      tokenIds[i * blockSize..if end <= |tokenIds| then end else |tokenIds|]
    }

    predicate IsTerminal()
      reads `status
    {
      status == Finished || status == Cancelled
    }

    method AppendToken(token: Token)
      modifies `tokenIds
      ensures State() == old(State()).(tokens := old(tokenIds) + [token])
    {
      tokenIds := tokenIds + [token];
    }

    method Cancel()
      modifies `status
      ensures State() == old(State()).(status := if old(IsTerminal()) then old(status) else Cancelled)
    {
      if !IsTerminal() {
        status := Cancelled;
      }
    }

    /** A restore may only begin for a waiting request, and is attempted once. */
    method BeginRestore() returns (ok: bool)
      modifies `status, `restoreAttempted
      ensures ok == (old(status) == Waiting)
      ensures State() == if ok then old(State()).(status := WaitingForKv, attempted := true) else old(State())
    {
      if status != Waiting {
        return false;
      }
      status, restoreAttempted := WaitingForKv, true;
      return true;
    }

    /** A restore ends, well or badly, by putting the request back among the waiting. */
    method EndRestore() returns (ok: bool)
      modifies `status
      ensures ok == (old(status) == WaitingForKv)
      ensures State() == if ok then old(State()).(status := Waiting) else old(State())
    {
      if status != WaitingForKv {
        return false;
      }
      status := Waiting;
      return true;
    }
  }

  /** The tokens of a full page, as the index keys it. */
  lemma BlockIsKey(s: Sequence, i: nat, bs: nat)
    requires bs > 0 && i < s.NumBlocks(bs) && Start(i + 1, bs) <= |s.tokenIds|
    ensures Start(i, bs) <= Start(i + 1, bs) && s.Block(i, bs) == s.tokenIds[Start(i, bs)..Start(i + 1, bs)]
  {
    StartIs(i, bs);
    StartIs(i + 1, bs);
  }
}
