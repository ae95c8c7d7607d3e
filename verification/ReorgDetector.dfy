/** The reorg detector's check, its cache of verified blocks, and the loop of checks and purges. */
module ReorgDetector {
  import opened Sums
  import opened Ledger
  import opened Paging

  const QUERY_LIMIT: nat := 1000

  datatype IndexedBlock = IndexedBlock(number: int, hash: string, parent: string)

  datatype Header = Header(hash: string, parent: string)

  /** The node's answer for a block number; None is an RPC error. */
  type Rpc = int -> Option<Header>

  function Min(a: nat, b: nat): nat {
    if a < b then a else b
  }

  function UnfinalizedNumbers(blocks: map<int, Block>): set<int> {
    set n | n in blocks && blocks[n].finality != Finalized
  }

  function RowOf(blocks: map<int, Block>, n: int): IndexedBlock
    requires n in blocks
  {
    IndexedBlock(n, blocks[n].hash, blocks[n].parent)
  }

  function Numbers(list: seq<IndexedBlock>): (r: seq<int>)
    ensures |r| == |list| && forall i | 0 <= i < |list| :: r[i] == list[i].number
  {
    seq(|list|, i requires 0 <= i < |list| => list[i].number)
  }

  /** The newest unfinalized rows, oldest first. */
  ghost predicate NewestUnfinalized(blocks: map<int, Block>, list: seq<IndexedBlock>) {
    && |list| <= 1000 && Ascending(Numbers(list))
    && (forall b | b in list ::
          b.number in blocks && blocks[b.number].finality != Finalized && b == RowOf(blocks, b.number))
    && (forall n | n in blocks && blocks[n].finality != Finalized ::
          RowOf(blocks, n) in list || (|list| == 1000 && n < list[0].number))
  }

  lemma {:induction false} GreatestExists(s: set<int>)
    requires s != {}
    ensures exists m :: m in s && forall x | x in s :: x <= m
    decreases |s|
  {
    var y := SomeMember(s);
    var rest := s - {y};
    if rest == {} {
      assert s == {y};
    } else {
      GreatestExists(rest);
      var m :| m in rest && forall x | x in rest :: x <= m;
      var greatest := if m >= y then m else y;
      assert greatest in s;
      forall x | x in s ensures x <= greatest { assert x == y || x in rest; }
    }
  }

  /** ORDER BY DESC LIMIT n, turned round. */
  method Newest(s: set<int>, limit: nat) returns (ns: seq<int>)
    ensures |ns| == Min(|s|, limit) && Ascending(ns)
    ensures forall i | 0 <= i < |ns| :: ns[i] in s
    ensures forall n | n in s :: n in ns || (|s| > limit && forall i | 0 <= i < |ns| :: n < ns[i])
  {
    ns := [];
    var rest := s;
    while |ns| < limit && rest != {}
      invariant rest <= s && |ns| <= limit && |ns| + |rest| == |s| && Ascending(ns)
      invariant forall i | 0 <= i < |ns| :: ns[i] in s && forall n | n in rest :: n < ns[i]
      invariant forall n | n in s :: n in rest || n in ns
      decreases rest
    {
      GreatestExists(rest);
      var m :| m in rest && forall x | x in rest :: x <= m;
      ns := [m] + ns;
      rest := rest - {m};
    }
  }

  function RowsAt(blocks: map<int, Block>, ns: seq<int>): (r: seq<IndexedBlock>)
    requires forall i | 0 <= i < |ns| :: ns[i] in blocks
    ensures |r| == |ns| && forall i | 0 <= i < |ns| :: r[i] == RowOf(blocks, ns[i])
  {
    if ns == [] then [] else [RowOf(blocks, ns[0])] + RowsAt(blocks, ns[1..])
  }

  lemma RowsAtMember(blocks: map<int, Block>, ns: seq<int>, n: int)
    requires (forall i | 0 <= i < |ns| :: ns[i] in blocks) && n in ns
    ensures n in blocks && RowOf(blocks, n) in RowsAt(blocks, ns)
  {
    var i :| 0 <= i < |ns| && ns[i] == n;
    assert RowsAt(blocks, ns)[i] == RowOf(blocks, n);
  }

  /** GetUnfinalized: the newest thousand, handed back in ascending order. */
  method GetUnfinalized(blocks: map<int, Block>) returns (list: seq<IndexedBlock>)
    ensures NewestUnfinalized(blocks, list)
  {
    var ns := Newest(UnfinalizedNumbers(blocks), QUERY_LIMIT);
    list := RowsAt(blocks, ns);
    assert Numbers(list) == ns;
    forall n | n in blocks && blocks[n].finality != Finalized
      ensures RowOf(blocks, n) in list || (|list| == 1000 && n < list[0].number)
    {
      assert n in UnfinalizedNumbers(blocks);
      if n in ns { RowsAtMember(blocks, ns, n); }
    }
  }

  function Reversed(list: seq<IndexedBlock>): (r: seq<IndexedBlock>)
    ensures |r| == |list| && forall i | 0 <= i < |list| :: r[i] == list[|list| - 1 - i]
  {
    if list == [] then [] else Reversed(list[1..]) + [list[0]]
  }

  /** The list is turned newest first, and cut, only when it is longer than the check depth. */
  function Examined(list: seq<IndexedBlock>, maxCheckDepth: nat): seq<IndexedBlock> {
    if |list| > maxCheckDepth then Reversed(list)[..maxCheckDepth] else list
  }

  // ----- What one check looks for -----

  /** The indexed hash under a number, as the later entries of the list override earlier ones. */
  function HashAt(list: seq<IndexedBlock>, n: int): Option<string> {
    if list == [] then None
    else if list[|list| - 1].number == n then Some(list[|list| - 1].hash)
    else HashAt(list[..|list| - 1], n)
  }

  predicate Linked(list: seq<IndexedBlock>, b: IndexedBlock) {
    b.parent == "" || HashAt(list, b.number - 1).None? || HashAt(list, b.number - 1).value == b.parent
  }

  predicate Matches(h: Header, b: IndexedBlock) {
    h.hash == b.hash && (b.parent == "" || h.parent == "" || h.parent == b.parent)
  }

  predicate Mismatch(rpc: Rpc, b: IndexedBlock) {
    rpc(b.number).Some? && !Matches(rpc(b.number).value, b)
  }

  predicate Cached(cache: map<int, string>, b: IndexedBlock) {
    b.number in cache && cache[b.number] == b.hash
  }

  function FirstUnlinked(list: seq<IndexedBlock>, i: nat): Option<IndexedBlock>
    requires i <= |list|
    decreases |list| - i
  {
    if i == |list| then None
    else if !Linked(list, list[i]) then Some(list[i])
    else FirstUnlinked(list, i + 1)
  }

  lemma ShortIsLinked(list: seq<IndexedBlock>)
    requires |list| < 2
    ensures FirstUnlinked(list, 0).None?
  {
    if |list| == 1 {
      assert list[..0] == [];
      assert HashAt(list, list[0].number - 1).None?;
      assert FirstUnlinked(list, |list|).None?;
    }
  }

  /** From position `i` on, the first block that is not cached and does not match. Position 0 ignores the cache. */
  function FirstMismatch(list: seq<IndexedBlock>, rpc: Rpc, cache: map<int, string>, i: nat): Option<IndexedBlock>
    requires i <= |list|
    decreases |list| - i
  {
    if i == |list| then None
    else if (i == 0 || !Cached(cache, list[i])) && Mismatch(rpc, list[i]) then Some(list[i])
    else FirstMismatch(list, rpc, cache, i + 1)
  }

  function Emission(list: seq<IndexedBlock>, rpc: Rpc, cache: map<int, string>): Option<IndexedBlock> {
    if FirstUnlinked(list, 0).Some? then FirstUnlinked(list, 0) else FirstMismatch(list, rpc, cache, 0)
  }

  /** The cache a quiet check leaves: blocks confirmed now, or carried over from the last check. */
  function Verified(list: seq<IndexedBlock>, rpc: Rpc, cache: map<int, string>, n: nat): map<int, string>
    requires n <= |list|
  {
    if n == 0 then map[]
    else
      var done, b := Verified(list, rpc, cache, n - 1), list[n - 1];
      if n > 1 && Cached(cache, b) then done[b.number := b.hash]
      else if rpc(b.number).None? then done
      else done[b.number := rpc(b.number).value.hash]
  }

  /** The cache after a check: forgotten on an emission. */
  function Remembered(list: seq<IndexedBlock>, rpc: Rpc, cache: map<int, string>): map<int, string> {
    if Emission(list, rpc, cache).Some? then map[] else Verified(list, rpc, cache, |list|)
  }

  class Detector {
    const maxCheckDepth: nat
    var lastVerified: map<int, string>
    var consecutiveRPCErrs: nat

    constructor (maxCheckDepth: nat)
      requires maxCheckDepth > 0
      ensures this.maxCheckDepth == maxCheckDepth && lastVerified == map[]
    {
      this.maxCheckDepth, lastVerified, consecutiveRPCErrs := maxCheckDepth, map[], 0;
    }

    /** verifyParentHashChain. */
    method VerifyParentHashChain(list: seq<IndexedBlock>) returns (r: Option<IndexedBlock>)
      ensures r == FirstUnlinked(list, 0)
    {
      if |list| < 2 {
        ShortIsLinked(list);
        return None;
      }
      var hashByNumber: map<int, string> := map[];
      for i := 0 to |list|
        invariant forall n :: HashAt(list[..i], n) == if n in hashByNumber then Some(hashByNumber[n]) else None
      {
        assert list[..i + 1][..i] == list[..i];
        hashByNumber := hashByNumber[list[i].number := list[i].hash];
      }
      assert list[..|list|] == list;
      for i := 0 to |list|
        invariant FirstUnlinked(list, 0) == FirstUnlinked(list, i)
      {
        var block := list[i];
        if block.parent == "" || block.number - 1 !in hashByNumber { continue; }
        if block.parent != hashByNumber[block.number - 1] { return Some(block); }
      }
      return None;
    }

    /** verifyBlock: None is an RPC error, otherwise the on-chain hash when it matches. */
    method VerifyBlock(b: IndexedBlock, rpc: Rpc) returns (failed: bool, same: bool, onchain: string)
      modifies this`consecutiveRPCErrs
      ensures failed == rpc(b.number).None?
      ensures !failed ==> onchain == rpc(b.number).value.hash && same == !Mismatch(rpc, b)
      ensures consecutiveRPCErrs == if failed then old(consecutiveRPCErrs) + 1 else 0
    {
      match rpc(b.number)
      case None =>
        consecutiveRPCErrs := consecutiveRPCErrs + 1;
        return true, false, "";
      case Some(h) =>
        consecutiveRPCErrs := 0;
        if h.hash != b.hash { return false, false, h.hash; }
        if b.parent != "" && h.parent != "" && b.parent != h.parent { return false, false, h.hash; }
        return false, true, h.hash;
    }

    /** The second half of check: the first block is always asked for, the others unless cached. */
    method VerifyAgainstNode(examined: seq<IndexedBlock>, rpc: Rpc) returns (emitted: Option<IndexedBlock>)
      requires |examined| > 0
      modifies this`lastVerified, this`consecutiveRPCErrs
      ensures emitted == FirstMismatch(examined, rpc, old(lastVerified), 0)
      ensures lastVerified == if emitted.Some? then map[] else Verified(examined, rpc, old(lastVerified), |examined|)
    {
      var newVerified: map<int, string> := map[];
      var failed, same, onchain := VerifyBlock(examined[0], rpc);
      if !failed && !same {
        lastVerified := map[];
        return Some(examined[0]);
      }
      if !failed { newVerified := newVerified[examined[0].number := onchain]; }
      assert newVerified == Verified(examined, rpc, lastVerified, 1);
      for i := 1 to |examined|
        invariant FirstMismatch(examined, rpc, lastVerified, 0) == FirstMismatch(examined, rpc, lastVerified, i)
        invariant lastVerified == old(lastVerified)
        invariant newVerified == Verified(examined, rpc, lastVerified, i)
      {
        var block := examined[i];
        if block.number in lastVerified && lastVerified[block.number] == block.hash {
          newVerified := newVerified[block.number := block.hash];
          continue;
        }
        failed, same, onchain := VerifyBlock(block, rpc);
        if failed { continue; }
        if !same {
          lastVerified := map[];
          return Some(block);
        }
        newVerified := newVerified[block.number := onchain];
      }
      lastVerified := newVerified;
      return None;
    }

    /** check: emits at most one fork block, and forgets what it verified when it does. */
    method Check(blocks: map<int, Block>, rpc: Rpc)
      returns (emitted: Option<IndexedBlock>, ghost list: seq<IndexedBlock>)
      requires maxCheckDepth > 0
      modifies this`lastVerified, this`consecutiveRPCErrs
      ensures NewestUnfinalized(blocks, list)
      ensures emitted == Emission(Examined(list, maxCheckDepth), rpc, old(lastVerified))
      ensures lastVerified == Remembered(Examined(list, maxCheckDepth), rpc, old(lastVerified))
    {
      var found := GetUnfinalized(blocks);
      list := found;
      if |found| == 0 {
        lastVerified := map[];
        return None, list;
      }
      var examined := Examined(found, maxCheckDepth);
      emitted := VerifyParentHashChain(examined);
      if emitted.Some? {
        lastVerified := map[];
      } else {
        emitted := VerifyAgainstNode(examined, rpc);
      }
    }
  }
}
