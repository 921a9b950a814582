// One node, one storage access at a time: SaveBlockToTrie runs under the mutex, the handlers of LAST
// responses run beside it without the mutex.

module Interleaving {
  import opened Options
  import opened Words
  import opened Encoding
  import opened Chain
  import opened Protocol

  /** Where a SaveBlockToTrie call stands, with the indices it has read so far. */
  datatype Saver =
    | Idle
    | GotCurrent(block: Block, current: Word)
    | GotBoth(block: Block, current: Word, last: Word)
    | WroteCurrent(block: Block, last: Word)
    | WroteLast(block: Block)

  /** `handlers` holds what each LAST handler in flight was given and has read. */
  datatype Memory = Memory(
    current: Block, last: Block, blocks: map<string, Block>, saver: Saver, handlers: map<nat, LastReader>)

  datatype Access =
    | Begin(block: Block)
    | SaverReadsLast(block: Block)
    | SaverChecks
    | SaverWritesLast(block: Block)
    | SaverWritesBlock
    | HandlerReads(id: nat, block: Block)
    | HandlerWrites(id: nat, block: Block)

  ghost predicate CanAccess(m: Memory, genuine: set<Block>, a: Access) {
    match a
    case Begin(b) => m.saver.Idle? && b in genuine && 1 <= b.index < TWO_64 - 1
    case SaverReadsLast(b) => m.saver.GotCurrent? && m.saver.block == b
    case SaverChecks => m.saver.GotBoth?
    case SaverWritesLast(b) => m.saver.WroteCurrent? && m.saver.block == b
    case SaverWritesBlock => m.saver.WroteLast?
    case HandlerReads(id, b) => b in genuine && id !in m.handlers
    case HandlerWrites(id, b) => id in m.handlers && m.handlers[id].block == b
  }

  function Perform(m: Memory, a: Access): Memory {
    match a
    case Begin(b) => m.(saver := GotCurrent(b, m.current.index))
    case SaverReadsLast(_) =>
      if m.saver.GotCurrent? then m.(saver := GotBoth(m.saver.block, m.saver.current, m.last.index)) else m
    case SaverChecks =>
      if !m.saver.GotBoth? then m
      else if m.saver.block.index != Add64(m.saver.current, 1) then m.(saver := Idle)
      else m.(current := m.saver.block, saver := WroteCurrent(m.saver.block, m.saver.last))
    case SaverWritesLast(_) =>
      if m.saver.WroteCurrent?
      then m.(last := Later(m.last, m.saver.block, m.saver.last), saver := WroteLast(m.saver.block))
      else m
    case SaverWritesBlock =>
      if m.saver.WroteLast?
      then m.(blocks := m.blocks[BlockKey(m.saver.block.index) := m.saver.block], saver := Idle)
      else m
    case HandlerReads(id, b) => m.(handlers := m.handlers[id := LastReader(b, m.last.index)])
    case HandlerWrites(id, _) =>
      if id in m.handlers
      then m.(last := Later(m.last, m.handlers[id].block, m.handlers[id].seen), handlers := m.handlers - {id})
      else m
  }

  ghost predicate LegalRun(m: Memory, genuine: set<Block>, run: seq<Access>)
    decreases |run|
  {
    run == [] || (CanAccess(m, genuine, run[0]) && LegalRun(Perform(m, run[0]), genuine, run[1..]))
  }

  function PerformAll(m: Memory, run: seq<Access>): Memory
    decreases |run|
  {
    if run == [] then m else PerformAll(Perform(m, run[0]), run[1..])
  }

  // ---------- Safety under every interleaving ----------

  /** The trie holds exactly the heights 0 .. h, each under its own key. */
  ghost predicate HoldsThrough(blocks: map<string, Block>, h: int) {
    && (forall key :: key in blocks ==> blocks[key].index <= h && key == BlockKey(blocks[key].index))
    && (forall k: nat :: k <= h ==> BlockKey(k) in blocks)
  }

  predicate Between(s: Saver) {
    s.WroteCurrent? || s.WroteLast?
  }

  /** CURRENT is the top of the trie, or one above it while a save is between its writes; LAST and all
      blocks under way are genesis or created blocks. */
  ghost predicate Safe(m: Memory, genuine: set<Block>) {
    && m.last in genuine && m.current in genuine && m.current.index < TWO_64 - 1
    && (forall id :: id in m.handlers ==> m.handlers[id].block in genuine)
    && (!m.saver.Idle? ==> m.saver.block in genuine && 1 <= m.saver.block.index < TWO_64 - 1)
    && (m.saver.GotCurrent? || m.saver.GotBoth? ==> m.saver.current == m.current.index)
    && (if Between(m.saver)
        then m.current == m.saver.block && HoldsThrough(m.blocks, m.current.index - 1)
        else HoldsThrough(m.blocks, m.current.index) && m.blocks[BlockKey(m.current.index)] == m.current)
  }

  lemma AccessSafe(m: Memory, genuine: set<Block>, a: Access)
    requires Safe(m, genuine) && CanAccess(m, genuine, a)
    ensures Safe(Perform(m, a), genuine)
    ensures forall key :: key in m.blocks ==> key in Perform(m, a).blocks && Perform(m, a).blocks[key] == m.blocks[key]
    ensures m.current.index <= Perform(m, a).current.index
  {
    hide BlockKey, HoldsThrough;
    if a.SaverWritesBlock? {
      WriteBlockSafe(m, genuine);
    } else if ByHandler(a) {
      HandlerSafe(m, genuine, a);
    } else {
      SaverSafe(m, genuine, a);
    }
  }

  predicate ByHandler(a: Access) {
    a.HandlerReads? || a.HandlerWrites?
  }

  lemma HandlerSafe(m: Memory, genuine: set<Block>, a: Access)
    requires Safe(m, genuine) && CanAccess(m, genuine, a) && ByHandler(a)
    ensures Safe(Perform(m, a), genuine)
    ensures Perform(m, a).blocks == m.blocks && m.current.index <= Perform(m, a).current.index
  {
    hide BlockKey, HoldsThrough, Between;
  }

  lemma SaverSafe(m: Memory, genuine: set<Block>, a: Access)
    requires Safe(m, genuine) && CanAccess(m, genuine, a) && !ByHandler(a) && !a.SaverWritesBlock?
    ensures Safe(Perform(m, a), genuine)
    ensures Perform(m, a).blocks == m.blocks && m.current.index <= Perform(m, a).current.index
  {
    hide BlockKey, HoldsThrough;
  }

  lemma WriteBlockSafe(m: Memory, genuine: set<Block>)
    requires Safe(m, genuine) && m.saver.WroteLast?
    ensures Safe(Perform(m, SaverWritesBlock), genuine)
    ensures forall key :: key in m.blocks ==> key != BlockKey(m.saver.block.index)
  {
    hide BlockKey;
    var b := m.saver.block;
    forall key | key in m.blocks
      ensures key != BlockKey(b.index)
    {
      BlockKeysNeverCollide(m.blocks[key].index, b.index);
    }
    assert HoldsThrough(Perform(m, SaverWritesBlock).blocks, b.index);
  }

  /** However the accesses are interleaved and however many handlers run: the trie stays contiguous with
      CURRENT, LAST stays a genesis or created block, nothing stored changes and CURRENT never goes back. */
  lemma {:induction false} InterleavingSafe(m: Memory, genuine: set<Block>, run: seq<Access>)
    requires Safe(m, genuine) && LegalRun(m, genuine, run)
    ensures Safe(PerformAll(m, run), genuine)
    ensures m.current.index <= PerformAll(m, run).current.index
    ensures forall key :: key in m.blocks ==>
              key in PerformAll(m, run).blocks && PerformAll(m, run).blocks[key] == m.blocks[key]
    decreases |run|
  {
    hide Safe, CanAccess, Perform;
    if run != [] {
      AccessSafe(m, genuine, run[0]);
      InterleavingSafe(Perform(m, run[0]), genuine, run[1..]);
    }
  }

  // ---------- Exactly when LAST goes back, by the schedule ----------

  datatype Party = Save | Handler(id: nat)

  /** The accesses to LAST, by whom. */
  predicate ReadsLast(a: Access) {
    a.SaverReadsLast? || a.HandlerReads?
  }

  predicate WritesLast(a: Access) {
    a.SaverWritesLast? || a.HandlerWrites?
  }

  function PartyOf(a: Access): Party {
    if a.HandlerReads? || a.HandlerWrites? then Handler(a.id) else Save
  }

  /** The position of the party's latest read before position `k`, if any. */
  function LatestRead(run: seq<Access>, k: nat, party: Party): (r: Option<nat>)
    requires k <= |run|
    ensures r.Some? ==> r.value < k && ReadsLast(run[r.value]) && PartyOf(run[r.value]) == party
  {
    if k == 0 then None
    else if ReadsLast(run[k - 1]) && PartyOf(run[k - 1]) == party then Some(k - 1)
    else LatestRead(run, k - 1, party)
  }

  /** The height of LAST before position `k`, read off the schedule: a write takes when its block is later than LAST
      was at the party's read. */
  function LastAt(first: nat, run: seq<Access>, k: nat): nat
    requires k <= |run|
    decreases k
  {
    if k == 0 then first
    else if WritesLast(run[k - 1]) then
      match LatestRead(run, k - 1, PartyOf(run[k - 1]))
      case None => LastAt(first, run, k - 1)
      case Some(r) =>
        if run[k - 1].block.index > LastAt(first, run, r) then run[k - 1].block.index else LastAt(first, run, k - 1)
    else LastAt(first, run, k - 1)
  }

  /** The height of the latest block among what LAST named first and the blocks of the writes before position `k`. */
  function TopWrite(first: nat, run: seq<Access>, k: nat): (h: nat)
    requires k <= |run|
    ensures first <= h
  {
    if k == 0 then first
    else
      var before := TopWrite(first, run, k - 1);
      if WritesLast(run[k - 1]) && run[k - 1].block.index > before then run[k - 1].block.index else before
  }

  /** The write at position `w` is of a block later than everything before its own read, and between its read and
      itself another access writes a block that is later still. */
  predicate OvertakenWrite(first: nat, run: seq<Access>, w: nat)
    requires w < |run|
  {
    WritesLast(run[w]) &&
    match LatestRead(run, w, PartyOf(run[w]))
    case None => false
    case Some(r) => TopWrite(first, run, r) < run[w].block.index && WrittenBetween(run, r, w, run[w].block.index)
  }

  predicate WrittenBetween(run: seq<Access>, r: nat, w: nat, h: nat)
    requires w < |run|
  {
    exists u :: r < u < w && WritesLast(run[u]) && run[u].block.index > h
  }

  predicate NeverGoesBack(m: Memory, run: seq<Access>)
    decreases |run|
  {
    run == [] || (m.last.index <= Perform(m, run[0]).last.index && NeverGoesBack(Perform(m, run[0]), run[1..]))
  }

  /** The state after the first k accesses. */
  function StateAt(m: Memory, run: seq<Access>, k: nat): Memory
    requires k <= |run|
  {
    if k == 0 then m else Perform(StateAt(m, run, k - 1), run[k - 1])
  }

  lemma {:induction false} StateAtRest(m: Memory, run: seq<Access>, k: nat)
    requires 0 < k <= |run|
    ensures StateAt(m, run, k) == StateAt(Perform(m, run[0]), run[1..], k - 1)
    decreases k
  {
    hide Perform;
    if k > 1 {
      StateAtRest(m, run, k - 1);
      assert run[1..][k - 2] == run[k - 1];
    }
  }

  lemma {:induction false} LegalAt(m: Memory, genuine: set<Block>, run: seq<Access>, k: nat)
    requires LegalRun(m, genuine, run) && k < |run|
    ensures CanAccess(StateAt(m, run, k), genuine, run[k])
    decreases k
  {
    hide Perform, CanAccess;
    if k > 0 {
      LegalAt(Perform(m, run[0]), genuine, run[1..], k - 1);
      StateAtRest(m, run, k);
    }
  }

  predicate Steady(m: Memory, run: seq<Access>, k: nat)
    requires k < |run|
  {
    StateAt(m, run, k).last.index <= StateAt(m, run, k + 1).last.index
  }

  lemma {:induction false} NeverGoesBackAt(m: Memory, run: seq<Access>)
    ensures NeverGoesBack(m, run) <==> forall k :: 0 <= k < |run| ==> Steady(m, run, k)
    decreases |run|
  {
    hide Perform;
    if run != [] {
      var m1, rest := Perform(m, run[0]), run[1..];
      NeverGoesBackAt(m1, rest);
      assert Steady(m, run, 0) <==> m.last.index <= m1.last.index by { FirstState(m, run); }
      forall k | 0 <= k < |rest|
        ensures Steady(m1, rest, k) <==> Steady(m, run, k + 1)
      {
        StateAtRest(m, run, k + 1);
        StateAtRest(m, run, k + 2);
      }
      assert (forall k :: 0 < k < |run| ==> Steady(m, run, k)) <==>
             (forall k :: 0 <= k < |rest| ==> Steady(m1, rest, k)) by {
        assert forall k :: 0 < k < |run| ==> (Steady(m, run, k) <==> Steady(m1, rest, k - 1));
      }
    }
  }

  lemma FirstState(m: Memory, run: seq<Access>)
    requires run != []
    ensures StateAt(m, run, 0) == m && StateAt(m, run, 1) == Perform(m, run[0])
  {
    hide Perform;
    assert StateAt(m, run, 1) == Perform(StateAt(m, run, 0), run[0]);
  }

  /** What a party remembers of LAST is what LAST was when it read, read off the schedule. */
  predicate Remembers(first: nat, run: seq<Access>, k: nat, party: Party, seen: nat)
    requires k <= |run|
  {
    match LatestRead(run, k, party)
    case None => false
    case Some(r) => LastAt(first, run, r) == seen
  }

  /** LAST stands where the schedule says, and every party remembers where it stood at its own read. */
  ghost predicate Tracked(m: Memory, run: seq<Access>, k: nat)
    requires k <= |run|
  {
    var s, first := StateAt(m, run, k), m.last.index;
    && s.last.index == LastAt(first, run, k)
    && (forall id :: id in s.handlers ==> Remembers(first, run, k, Handler(id), s.handlers[id].seen))
    && (s.saver.GotBoth? || s.saver.WroteCurrent? ==> Remembers(first, run, k, Save, s.saver.last))
  }

  lemma {:induction false} TopWriteGrows(first: nat, run: seq<Access>, j: nat, k: nat)
    requires j <= k <= |run|
    ensures TopWrite(first, run, j) <= TopWrite(first, run, k)
    decreases k
  {
    if j < k {
      TopWriteGrows(first, run, j, k - 1);
    }
  }

  /** The top write passes `h` between two positions exactly when some access between them writes a later block. */
  lemma {:induction false} TopWriteRises(first: nat, run: seq<Access>, r: nat, w: nat, h: nat)
    requires r < w < |run| && ReadsLast(run[r]) && TopWrite(first, run, r) <= h
    ensures TopWrite(first, run, w) > h <==> WrittenBetween(run, r, w, h)
    decreases w
  {
    if w == r + 1 {
      assert TopWrite(first, run, w) == TopWrite(first, run, r);
    } else {
      TopWriteRises(first, run, r, w - 1, h);
      var u := w - 1;
      if WritesLast(run[u]) && run[u].block.index > h {
        assert WrittenBetween(run, r, w, h);
      }
      if WrittenBetween(run, r, w - 1, h) {
        var v :| r < v < w - 1 && WritesLast(run[v]) && run[v].block.index > h;
        assert WrittenBetween(run, r, w, h);
      }
    }
  }

  /** One write, while LAST was always the top write: it goes back exactly when the write is overtaken. */
  lemma WriteGoesBackIff(first: nat, run: seq<Access>, w: nat, seen: nat)
    requires w < |run| && WritesLast(run[w]) && Remembers(first, run, w, PartyOf(run[w]), seen)
    requires forall j :: 0 <= j <= w ==> LastIsTop(first, run, j)
    ensures seen < run[w].block.index < LastAt(first, run, w) <==> OvertakenWrite(first, run, w)
  {
    hide LastAt, TopWrite;
    var r := LatestRead(run, w, PartyOf(run[w])).value;
    assert LastIsTop(first, run, r) && LastIsTop(first, run, w);
    if seen < run[w].block.index {
      TopWriteRises(first, run, r, w, run[w].block.index);
    }
  }

  predicate LastIsTop(first: nat, run: seq<Access>, k: nat)
    requires k <= |run|
  {
    LastAt(first, run, k) == TopWrite(first, run, k)
  }

  /** The party that accesses LAST at position k remembers something, and the access does what it says. */
  lemma WriteAt(m: Memory, genuine: set<Block>, run: seq<Access>, k: nat) returns (seen: nat)
    requires k < |run| && Tracked(m, run, k) && CanAccess(StateAt(m, run, k), genuine, run[k]) && WritesLast(run[k])
    ensures Remembers(m.last.index, run, k, PartyOf(run[k]), seen)
    ensures StateAt(m, run, k + 1).last == Later(StateAt(m, run, k).last, run[k].block, seen)
  {
    hide BlockKey, LatestRead, LastAt;
    var s := StateAt(m, run, k);
    assert StateAt(m, run, k + 1) == Perform(s, run[k]);
    seen := if run[k].HandlerWrites? then s.handlers[run[k].id].seen else s.saver.last;
  }

  lemma OtherAt(m: Memory, run: seq<Access>, k: nat)
    requires k < |run| && !WritesLast(run[k])
    ensures StateAt(m, run, k + 1).last == StateAt(m, run, k).last
  {
    assert StateAt(m, run, k + 1) == Perform(StateAt(m, run, k), run[k]);
  }

  lemma RemembersOn(first: nat, run: seq<Access>, k: nat, party: Party, seen: nat)
    requires k < |run| && Remembers(first, run, k, party, seen) && !(ReadsLast(run[k]) && PartyOf(run[k]) == party)
    ensures Remembers(first, run, k + 1, party, seen)
  {
    assert LatestRead(run, k + 1, party) == LatestRead(run, k, party);
  }

  lemma RemembersRead(first: nat, run: seq<Access>, k: nat)
    requires k < |run| && ReadsLast(run[k])
    ensures Remembers(first, run, k + 1, PartyOf(run[k]), LastAt(first, run, k))
  {
    assert LatestRead(run, k + 1, PartyOf(run[k])) == Some(k);
  }

  /** Every access keeps the schedule and the memory in step. */
  lemma TrackedOn(m: Memory, genuine: set<Block>, run: seq<Access>, k: nat)
    requires k < |run| && Tracked(m, run, k) && CanAccess(StateAt(m, run, k), genuine, run[k])
    ensures Tracked(m, run, k + 1)
  {
    hide BlockKey, LatestRead, LastAt, Remembers, StateAt;
    LastOn(m, genuine, run, k);
    HandlersOn(m, genuine, run, k);
    SaverOn(m, genuine, run, k);
  }

  lemma LastOn(m: Memory, genuine: set<Block>, run: seq<Access>, k: nat)
    requires k < |run| && Tracked(m, run, k) && CanAccess(StateAt(m, run, k), genuine, run[k])
    ensures StateAt(m, run, k + 1).last.index == LastAt(m.last.index, run, k + 1)
  {
    hide Perform, CanAccess;
    if WritesLast(run[k]) {
      var seen := WriteAt(m, genuine, run, k);
    } else {
      OtherAt(m, run, k);
    }
  }

  lemma HandlersOn(m: Memory, genuine: set<Block>, run: seq<Access>, k: nat)
    requires k < |run| && Tracked(m, run, k) && CanAccess(StateAt(m, run, k), genuine, run[k])
    ensures var s := StateAt(m, run, k + 1);
            forall id :: id in s.handlers ==> Remembers(m.last.index, run, k + 1, Handler(id), s.handlers[id].seen)
  {
    hide BlockKey, LatestRead, LastAt, Remembers;
    var s, s', first := StateAt(m, run, k), StateAt(m, run, k + 1), m.last.index;
    assert s' == Perform(s, run[k]);
    forall id | id in s'.handlers
      ensures Remembers(first, run, k + 1, Handler(id), s'.handlers[id].seen)
    {
      if run[k].HandlerReads? && run[k].id == id {
        RemembersRead(first, run, k);
      } else {
        RemembersOn(first, run, k, Handler(id), s.handlers[id].seen);
      }
    }
  }

  lemma SaverOn(m: Memory, genuine: set<Block>, run: seq<Access>, k: nat)
    requires k < |run| && Tracked(m, run, k) && CanAccess(StateAt(m, run, k), genuine, run[k])
    ensures var s := StateAt(m, run, k + 1);
            s.saver.GotBoth? || s.saver.WroteCurrent? ==> Remembers(m.last.index, run, k + 1, Save, s.saver.last)
  {
    hide BlockKey, LatestRead, LastAt, Remembers;
    var s, s', first := StateAt(m, run, k), StateAt(m, run, k + 1), m.last.index;
    assert s' == Perform(s, run[k]);
    if run[k].SaverReadsLast? {
      RemembersRead(first, run, k);
    } else if s'.saver.GotBoth? || s'.saver.WroteCurrent? {
      RemembersOn(first, run, k, Save, s.saver.last);
    }
  }

  lemma {:induction false} TrackedThrough(m: Memory, genuine: set<Block>, run: seq<Access>, k: nat)
    requires LegalRun(m, genuine, run) && m.saver.Idle? && m.handlers == map[] && k <= |run|
    ensures Tracked(m, run, k)
    decreases k
  {
    hide Perform, CanAccess, LegalRun;
    if k > 0 {
      TrackedThrough(m, genuine, run, k - 1);
      LegalAt(m, genuine, run, k - 1);
      TrackedOn(m, genuine, run, k - 1);
    }
  }

  /** While LAST has not gone back, it is the top write. */
  lemma {:induction false} SteadyIsTop(m: Memory, genuine: set<Block>, run: seq<Access>, k: nat)
    requires LegalRun(m, genuine, run) && m.saver.Idle? && m.handlers == map[] && k <= |run|
    requires forall j :: 0 <= j < k ==> Steady(m, run, j)
    ensures forall j :: 0 <= j <= k ==> LastIsTop(m.last.index, run, j)
    decreases k
  {
    hide Perform, CanAccess, LegalRun, StateAt;
    if k > 0 {
      SteadyIsTop(m, genuine, run, k - 1);
      TrackedThrough(m, genuine, run, k - 1);
      TrackedThrough(m, genuine, run, k);
      assert Steady(m, run, k - 1);
      LegalAt(m, genuine, run, k - 1);
      if WritesLast(run[k - 1]) {
        var seen := WriteAt(m, genuine, run, k - 1);
      }
      NextTop(m.last.index, run, k - 1);
    }
  }

  lemma NextTop(first: nat, run: seq<Access>, k: nat)
    requires k < |run| && LastAt(first, run, k) <= LastAt(first, run, k + 1)
    requires WritesLast(run[k]) ==> LatestRead(run, k, PartyOf(run[k])).Some?
    requires forall j :: 0 <= j <= k ==> LastIsTop(first, run, j)
    ensures LastIsTop(first, run, k + 1)
  {
    assert LastIsTop(first, run, k);
    if WritesLast(run[k]) {
      var r := LatestRead(run, k, PartyOf(run[k])).value;
      assert LastIsTop(first, run, r);
      TopWriteGrows(first, run, r, k);
    }
  }

  /** While LAST has not gone back before position k, it does so there exactly when an overtaken write stands there. */
  lemma StepGoesBackIff(m: Memory, genuine: set<Block>, run: seq<Access>, k: nat)
    requires LegalRun(m, genuine, run) && m.saver.Idle? && m.handlers == map[] && k < |run|
    requires forall j :: 0 <= j < k ==> Steady(m, run, j)
    ensures Steady(m, run, k) <==> !OvertakenWrite(m.last.index, run, k)
  {
    hide Perform, CanAccess, LegalRun, LatestRead, TopWrite, LastAt, LastIsTop, Remembers, OvertakenWrite;
    TrackedThrough(m, genuine, run, k);
    SteadyIsTop(m, genuine, run, k);
    LegalAt(m, genuine, run, k);
    if WritesLast(run[k]) {
      var seen := WriteAt(m, genuine, run, k);
      WriteGoesBackIff(m.last.index, run, k, seen);
    } else {
      OtherAt(m, run, k);
      OnlyWritesAreOvertaken(m.last.index, run, k);
    }
  }

  lemma OnlyWritesAreOvertaken(first: nat, run: seq<Access>, k: nat)
    requires k < |run| && !WritesLast(run[k])
    ensures !OvertakenWrite(first, run, k)
  {
  }

  /** From an idle node: LAST never goes back over a run exactly when no access writes LAST after another access,
      between its own read and its write, has written a later block. */
  lemma LastNeverGoesBackIff(m: Memory, genuine: set<Block>, run: seq<Access>)
    requires LegalRun(m, genuine, run) && m.saver.Idle? && m.handlers == map[]
    ensures NeverGoesBack(m, run) <==> forall w :: 0 <= w < |run| ==> !OvertakenWrite(m.last.index, run, w)
  {
    hide Perform, CanAccess, LegalRun, Steady, OvertakenWrite, NeverGoesBack;
    NeverGoesBackAt(m, run);
    if forall k :: 0 <= k < |run| ==> Steady(m, run, k) {
      forall w | 0 <= w < |run|
        ensures !OvertakenWrite(m.last.index, run, w)
      {
        StepGoesBackIff(m, genuine, run, w);
      }
    } else {
      var k := FirstDrop(m, run);
      StepGoesBackIff(m, genuine, run, k);
    }
  }

  lemma FirstDrop(m: Memory, run: seq<Access>) returns (k: nat)
    requires exists j :: 0 <= j < |run| && !Steady(m, run, j)
    ensures k < |run| && !Steady(m, run, k) && forall j :: 0 <= j < k ==> Steady(m, run, j)
  {
    hide Steady;
    k := 0;
    while Steady(m, run, k)
      invariant k < |run| && forall j :: 0 <= j < k ==> Steady(m, run, j)
      decreases |run| - k
    {
      k := k + 1;
    }
  }

  /** A handler that takes the mutex, like a save, has nobody else's write between its read and its write. */
  predicate Serialised(run: seq<Access>) {
    forall w :: 0 <= w < |run| && WritesLast(run[w]) ==>
      var r := LatestRead(run, w, PartyOf(run[w])); r.Some? ==> forall u :: r.value < u < w ==> !WritesLast(run[u])
  }

  /** With every handler under the mutex LAST never goes back. */
  lemma MutexMakesLastMonotone(m: Memory, genuine: set<Block>, run: seq<Access>)
    requires LegalRun(m, genuine, run) && m.saver.Idle? && m.handlers == map[] && Serialised(run)
    ensures NeverGoesBack(m, run)
  {
    hide LegalRun, NeverGoesBack, LatestRead, TopWrite;
    LastNeverGoesBackIff(m, genuine, run);
  }

  /** One save of the next block beside one handler: LAST goes back exactly when the handler writes between the save's
      read and write of LAST, and its block is later than the save's, which is later than LAST was. */
  lemma OneHandlerBesideOneSave(m: Memory, genuine: set<Block>, run: seq<Access>, rs: nat, ws: nat, rh: nat, wh: nat)
    requires LegalRun(m, genuine, run) && m.saver.Idle? && m.handlers == map[]
    requires rs < ws < |run| && rh < wh < |run| && run[rs].SaverReadsLast? && run[ws].SaverWritesLast? &&
             run[rh].HandlerReads?
    requires run[wh] == HandlerWrites(run[rh].id, run[rh].block)
    requires forall k :: 0 <= k < |run| ==>
               (ReadsLast(run[k]) <==> k == rs || k == rh) && (WritesLast(run[k]) <==> k == ws || k == wh)
    requires m.current.index <= m.last.index && run[ws].block.index == m.current.index + 1
    ensures NeverGoesBack(m, run) <==> !(rs < wh < ws && m.last.index < run[ws].block.index < run[wh].block.index)
  {
    hide LegalRun, NeverGoesBack, LatestRead, TopWrite;
    LastNeverGoesBackIff(m, genuine, run);
    var first := m.last.index;
    OnlyRead(run, rs, ws);
    OnlyRead(run, rh, wh);
    OnlyWrites(first, run, rs, ws, wh);
    OnlyWrites(first, run, rh, ws, wh);
    assert WrittenBetween(run, rs, ws, run[ws].block.index) <==>
           rs < wh < ws && run[wh].block.index > run[ws].block.index;
    assert WrittenBetween(run, rh, wh, run[wh].block.index) <==>
           rh < ws < wh && run[ws].block.index > run[wh].block.index;
    forall w | 0 <= w < |run| && w != ws && w != wh
      ensures !OvertakenWrite(first, run, w)
    {
    }
    assert OvertakenWrite(first, run, ws) <==>
           TopWrite(first, run, rs) < run[ws].block.index && rs < wh < ws && run[wh].block.index > run[ws].block.index;
    assert !OvertakenWrite(first, run, wh);
  }

  /** The only read of a party is the one its write goes with. */
  lemma {:induction false} OnlyRead(run: seq<Access>, r: nat, k: nat)
    requires r < k <= |run| && ReadsLast(run[r])
    requires forall j :: r < j < k ==> !(ReadsLast(run[j]) && PartyOf(run[j]) == PartyOf(run[r]))
    ensures LatestRead(run, k, PartyOf(run[r])) == Some(r)
    decreases k
  {
    if r < k - 1 {
      OnlyRead(run, r, k - 1);
    }
  }

  /** With two writes at most, the top write is LAST or one of their blocks. */
  lemma {:induction false} OnlyWrites(first: nat, run: seq<Access>, k: nat, ws: nat, wh: nat)
    requires k <= |run| && ws < |run| && wh < |run|
    requires forall j :: 0 <= j < k && WritesLast(run[j]) ==> j == ws || j == wh
    requires WritesLast(run[ws]) && WritesLast(run[wh]) && ws != wh
    ensures TopWrite(first, run, k)
            == Highest3(first, if ws < k then run[ws].block.index else 0, if wh < k then run[wh].block.index else 0)
    decreases k
  {
    if k > 0 {
      OnlyWrites(first, run, k - 1, ws, wh);
    }
  }

  function Highest3(a: nat, b: nat, c: nat): nat {
    var d := if a < b then b else a;
    if d < c then c else d
  }

  // ---------- Exactly when CURRENT passes LAST ----------

  /** CURRENT is not above LAST, except while a save has yet to write LAST. */
  predicate InOrder(m: Memory) {
    m.saver.WroteCurrent? || m.current.index <= m.last.index
  }

  /** A handler writes a block later than what it read and older than CURRENT; or a save leaves LAST alone because of
      what it read, although LAST has gone below its block since. */
  predicate Disorders(m: Memory, a: Access) {
    match a
    case HandlerWrites(id, b) =>
      !m.saver.WroteCurrent? && id in m.handlers && m.handlers[id].seen < b.index < m.current.index
    case SaverWritesLast(b) => m.saver.WroteCurrent? && m.last.index < b.index <= m.saver.last
    case _ => false
  }

  lemma AccessKeepsOrderIff(m: Memory, genuine: set<Block>, a: Access)
    requires Safe(m, genuine) && CanAccess(m, genuine, a) && InOrder(m)
    ensures InOrder(Perform(m, a)) <==> !Disorders(m, a)
  {
    hide HoldsThrough, BlockKey;
  }

  lemma {:induction false} SafeAt(m: Memory, genuine: set<Block>, run: seq<Access>, k: nat)
    requires Safe(m, genuine) && LegalRun(m, genuine, run) && k <= |run|
    ensures Safe(StateAt(m, run, k), genuine)
    decreases k
  {
    hide Safe, CanAccess, Perform, LegalRun;
    if k > 0 {
      SafeAt(m, genuine, run, k - 1);
      LegalAt(m, genuine, run, k - 1);
      AccessSafe(StateAt(m, run, k - 1), genuine, run[k - 1]);
    }
  }

  /** In order after each of the first k accesses. */
  predicate InOrderThrough(m: Memory, run: seq<Access>, k: nat)
    requires k <= |run|
  {
    InOrder(StateAt(m, run, k)) && (k == 0 || InOrderThrough(m, run, k - 1))
  }

  predicate NothingDisorders(m: Memory, run: seq<Access>, k: nat)
    requires k <= |run|
  {
    k == 0 || (!Disorders(StateAt(m, run, k - 1), run[k - 1]) && NothingDisorders(m, run, k - 1))
  }

  /** From any safe state, a save and handlers under way: exactly the disordering accesses break the order. */
  lemma {:induction false} OrderUpTo(m: Memory, genuine: set<Block>, run: seq<Access>, k: nat)
    requires Safe(m, genuine) && LegalRun(m, genuine, run) && InOrder(m) && k <= |run|
    ensures InOrderThrough(m, run, k) <==> NothingDisorders(m, run, k)
    decreases k
  {
    hide Safe, CanAccess, Perform, LegalRun, InOrder, Disorders;
    if k > 0 {
      OrderUpTo(m, genuine, run, k - 1);
      SafeAt(m, genuine, run, k - 1);
      LegalAt(m, genuine, run, k - 1);
      if InOrderThrough(m, run, k - 1) {
        AccessKeepsOrderIff(StateAt(m, run, k - 1), genuine, run[k - 1]);
      }
    }
  }

  // The same by the schedule.

  /** The height of CURRENT before position `k`, read off the schedule. */
  function CurrentAt(start: nat, run: seq<Access>, k: nat): nat
    requires k <= |run|
    decreases k, 0
  {
    if k == 0 then start
    else if PassesCheck(start, run, k - 1) then CurrentAt(start, run, k - 1) + 1
    else CurrentAt(start, run, k - 1)
  }

  /** The save that checks at position `q` is one of the next block. */
  predicate PassesCheck(start: nat, run: seq<Access>, q: nat)
    requires q < |run|
    decreases q, 1
  {
    run[q].SaverChecks? &&
    match LatestRead(run, q, Save)
    case None => false
    case Some(r) => run[r].block.index == CurrentAt(start, run, q) + 1
  }

  /** At position `k` a save has written CURRENT and not yet LAST. */
  predicate MidSave(start: nat, run: seq<Access>, k: nat)
    requires k <= |run|
  {
    exists q :: 0 <= q < k && PassesCheck(start, run, q) && forall u :: q < u < k ==> ByHandler(run[u])
  }

  /** Between the positions a save writes LAST, or leaves it, for a block above `h`. */
  predicate SavedBetween(run: seq<Access>, r: nat, w: nat, h: nat)
    requires w < |run|
  {
    exists u :: r < u < w && run[u].SaverWritesLast? && run[u].block.index > h
  }

  /** A handler writes a block later than LAST was at its read, after a save of a still later block since then and
      not in the middle of another save; or a save leaves LAST alone because LAST had reached its block at its read,
      although LAST has gone below that block since. */
  predicate LateWrite(first: nat, start: nat, run: seq<Access>, w: nat)
    requires w < |run|
  {
    WritesLast(run[w]) &&
    match LatestRead(run, w, PartyOf(run[w]))
    case None => false
    case Some(r) =>
      var h := run[w].block.index;
      if run[w].HandlerWrites?
      then LastAt(first, run, r) < h && SavedBetween(run, r, w, h) && !MidSave(start, run, w)
      else LastAt(first, run, w) < h <= LastAt(first, run, r)
  }

  lemma MidSaveOn(start: nat, run: seq<Access>, k: nat)
    requires k < |run|
    ensures MidSave(start, run, k + 1) <==> PassesCheck(start, run, k) || (ByHandler(run[k]) && MidSave(start, run, k))
  {
    hide PassesCheck, ByHandler;
    if MidSave(start, run, k + 1) {
      var q :| 0 <= q < k + 1 && PassesCheck(start, run, q) && forall u :: q < u < k + 1 ==> ByHandler(run[u]);
      assert q < k ==> MidSave(start, run, k);
    }
    if PassesCheck(start, run, k) {
      assert MidSave(start, run, k + 1);
    }
    if ByHandler(run[k]) && MidSave(start, run, k) {
      var q :| 0 <= q < k && PassesCheck(start, run, q) && forall u :: q < u < k ==> ByHandler(run[u]);
      assert MidSave(start, run, k + 1);
    }
  }

  /** CURRENT and the save under way stand where the schedule says. */
  predicate SaveTracked(m: Memory, run: seq<Access>, k: nat)
    requires k <= |run|
  {
    var s, start := StateAt(m, run, k), m.current.index;
    && s.current.index == CurrentAt(start, run, k)
    && (s.saver.WroteCurrent? <==> MidSave(start, run, k))
    && (s.saver.GotBoth? || s.saver.WroteCurrent? ==>
          LatestRead(run, k, Save).Some? && run[LatestRead(run, k, Save).value].block == s.saver.block)
  }

  lemma SaveTrackedOn(m: Memory, genuine: set<Block>, run: seq<Access>, k: nat)
    requires k < |run| && SaveTracked(m, run, k)
    requires Safe(StateAt(m, run, k), genuine) && CanAccess(StateAt(m, run, k), genuine, run[k])
    ensures SaveTracked(m, run, k + 1)
  {
    hide BlockKey, HoldsThrough, MidSave;
    MidSaveOn(m.current.index, run, k);
    var s, s', start := StateAt(m, run, k), StateAt(m, run, k + 1), m.current.index;
    assert s' == Perform(s, run[k]);
    assert PassesCheck(start, run, k) <==> run[k].SaverChecks? && s.saver.block.index == s.current.index + 1;
    assert s'.current.index == CurrentAt(start, run, k + 1);
    assert (s'.saver.WroteCurrent? <==> MidSave(start, run, k + 1));
  }

  lemma {:induction false} SaveTrackedThrough(m: Memory, genuine: set<Block>, run: seq<Access>, k: nat)
    requires Safe(m, genuine) && LegalRun(m, genuine, run) && m.saver.Idle? && k <= |run|
    ensures SaveTracked(m, run, k)
    decreases k
  {
    hide Safe, Perform, CanAccess, LegalRun;
    if k > 0 {
      SaveTrackedThrough(m, genuine, run, k - 1);
      SafeAt(m, genuine, run, k - 1);
      LegalAt(m, genuine, run, k - 1);
      SaveTrackedOn(m, genuine, run, k - 1);
    }
  }

  lemma {:induction false} CurrentGrows(m: Memory, genuine: set<Block>, run: seq<Access>, j: nat, k: nat)
    requires Safe(m, genuine) && LegalRun(m, genuine, run) && j <= k <= |run|
    ensures StateAt(m, run, j).current.index <= StateAt(m, run, k).current.index
    decreases k
  {
    hide Safe, Perform, CanAccess, LegalRun;
    if j < k {
      CurrentGrows(m, genuine, run, j, k - 1);
      SafeAt(m, genuine, run, k - 1);
      LegalAt(m, genuine, run, k - 1);
      AccessSafe(StateAt(m, run, k - 1), genuine, run[k - 1]);
    }
  }

  /** A node in order at a read can only pass a height above what was read by saves that write LAST afterwards. */
  lemma {:induction false} PassedBySave(m: Memory, genuine: set<Block>, run: seq<Access>, r: nat, k: nat, h: nat)
    requires Safe(m, genuine) && LegalRun(m, genuine, run) && r < k < |run| && run[r].HandlerReads?
    requires InOrder(StateAt(m, run, r)) && StateAt(m, run, r).last.index < h < StateAt(m, run, k).current.index
    ensures StateAt(m, run, k).saver.WroteCurrent? || SavedBetween(run, r, k, h)
    decreases k
  {
    hide BlockKey, HoldsThrough, LegalRun;
    var j := k - 1;
    SafeAt(m, genuine, run, j);
    LegalAt(m, genuine, run, j);
    assert StateAt(m, run, k) == Perform(StateAt(m, run, j), run[j]);
    if r < j && h < StateAt(m, run, j).current.index {
      PassedBySave(m, genuine, run, r, j, h);
      if SavedBetween(run, r, j, h) {
        var u :| r < u < j && run[u].SaverWritesLast? && run[u].block.index > h;
        assert SavedBetween(run, r, k, h);
      } else if run[j].SaverWritesLast? {
        assert SavedBetween(run, r, k, h);
      }
    }
  }

  /** Where a save writes LAST for a block, CURRENT is at that block. */
  lemma SavedRaises(m: Memory, genuine: set<Block>, run: seq<Access>, u: nat, w: nat)
    requires Safe(m, genuine) && LegalRun(m, genuine, run) && u <= w < |run| && run[u].SaverWritesLast?
    ensures run[u].block.index <= StateAt(m, run, w).current.index
  {
    hide LegalRun, StateAt, HoldsThrough;
    SafeAt(m, genuine, run, u);
    LegalAt(m, genuine, run, u);
    CurrentGrows(m, genuine, run, u, w);
  }

  lemma {:induction false} InOrderBefore(m: Memory, run: seq<Access>, j: nat, k: nat)
    requires j <= k <= |run| && InOrderThrough(m, run, k)
    ensures InOrder(StateAt(m, run, j))
    decreases k
  {
    hide InOrder, StateAt;
    if j < k {
      InOrderBefore(m, run, j, k - 1);
    }
  }

  lemma HandlerLateIff(m: Memory, genuine: set<Block>, run: seq<Access>, w: nat)
    requires Safe(m, genuine) && LegalRun(m, genuine, run) && m.saver.Idle? && m.handlers == map[] && w < |run|
    requires InOrderThrough(m, run, w) && run[w].HandlerWrites?
    ensures Disorders(StateAt(m, run, w), run[w]) <==> LateWrite(m.last.index, m.current.index, run, w)
  {
    hide Safe, LegalRun, StateAt, LastAt, CurrentAt, MidSave, InOrder, LatestRead, InOrderThrough, SavedBetween;
    var s, h := StateAt(m, run, w), run[w].block.index;
    TrackedThrough(m, genuine, run, w);
    SaveTrackedThrough(m, genuine, run, w);
    LegalAt(m, genuine, run, w);
    assert Remembers(m.last.index, run, w, Handler(run[w].id), s.handlers[run[w].id].seen);
    var r := LatestRead(run, w, Handler(run[w].id)).value;
    TrackedThrough(m, genuine, run, r);
    InOrderBefore(m, run, r, w);
    if s.handlers[run[w].id].seen < h && !s.saver.WroteCurrent? {
      PassedIff(m, genuine, run, r, w, h);
    }
  }

  lemma PassedIff(m: Memory, genuine: set<Block>, run: seq<Access>, r: nat, w: nat, h: nat)
    requires Safe(m, genuine) && LegalRun(m, genuine, run) && r < w < |run| && run[r].HandlerReads?
    requires InOrder(StateAt(m, run, r)) && StateAt(m, run, r).last.index < h && !StateAt(m, run, w).saver.WroteCurrent?
    ensures h < StateAt(m, run, w).current.index <==> SavedBetween(run, r, w, h)
  {
    hide Safe, LegalRun, StateAt, InOrder;
    if h < StateAt(m, run, w).current.index {
      PassedBySave(m, genuine, run, r, w, h);
    }
    if SavedBetween(run, r, w, h) {
      var u :| r < u < w && run[u].SaverWritesLast? && run[u].block.index > h;
      SavedRaises(m, genuine, run, u, w);
    }
  }

  lemma SaverLateIff(m: Memory, genuine: set<Block>, run: seq<Access>, w: nat)
    requires LegalRun(m, genuine, run) && m.saver.Idle? && m.handlers == map[] && w < |run|
    requires !run[w].HandlerWrites?
    ensures Disorders(StateAt(m, run, w), run[w]) <==> LateWrite(m.last.index, m.current.index, run, w)
  {
    hide LegalRun, StateAt, LastAt, CurrentAt, MidSave, LatestRead, SavedBetween;
    TrackedThrough(m, genuine, run, w);
    LegalAt(m, genuine, run, w);
  }

  lemma {:induction false} OrderThroughIff(m: Memory, genuine: set<Block>, run: seq<Access>, k: nat)
    requires Safe(m, genuine) && LegalRun(m, genuine, run) && m.saver.Idle? && m.handlers == map[] && InOrder(m)
    requires k <= |run|
    ensures InOrderThrough(m, run, k) <==>
            forall w :: 0 <= w < k ==> !LateWrite(m.last.index, m.current.index, run, w)
    decreases k
  {
    hide Safe, CanAccess, Perform, LegalRun, InOrder, Disorders, LateWrite;
    if k > 0 {
      OrderThroughIff(m, genuine, run, k - 1);
      SafeAt(m, genuine, run, k - 1);
      LegalAt(m, genuine, run, k - 1);
      if InOrderThrough(m, run, k - 1) {
        AccessKeepsOrderIff(StateAt(m, run, k - 1), genuine, run[k - 1]);
        if run[k - 1].HandlerWrites? {
          HandlerLateIff(m, genuine, run, k - 1);
        } else {
          SaverLateIff(m, genuine, run, k - 1);
        }
      }
    }
  }

  /** From an idle node, over every interleaving: CURRENT stays at or below LAST outside a save exactly when the
      schedule holds no late write. */
  lemma OrderKeptIff(m: Memory, genuine: set<Block>, run: seq<Access>)
    requires Safe(m, genuine) && LegalRun(m, genuine, run) && m.saver.Idle? && m.handlers == map[] && InOrder(m)
    ensures InOrderThrough(m, run, |run|) <==>
            forall w :: 0 <= w < |run| ==> !LateWrite(m.last.index, m.current.index, run, w)
  {
    hide *;
    OrderThroughIff(m, genuine, run, |run|);
  }

  /** Every handler writes right after it has read, with or without the mutex. */
  predicate Indivisible(run: seq<Access>) {
    forall k :: 0 <= k < |run| && run[k].HandlerWrites? ==> k > 0 && run[k - 1] == HandlerReads(run[k].id, run[k].block)
  }

  /** What a save remembers of LAST is not above the present LAST. */
  predicate SaverBelowLast(m: Memory) {
    m.saver.GotBoth? || m.saver.WroteCurrent? ==> m.saver.last <= m.last.index
  }

  lemma IndivisibleAt(m: Memory, genuine: set<Block>, run: seq<Access>, k: nat)
    requires LegalRun(m, genuine, run) && Indivisible(run) && k < |run|
    requires SaverBelowLast(StateAt(m, run, k)) && InOrder(StateAt(m, run, k)) &&
             CanAccess(StateAt(m, run, k), genuine, run[k])
    ensures !Disorders(StateAt(m, run, k), run[k]) && SaverBelowLast(StateAt(m, run, k + 1))
  {
    hide BlockKey, LegalRun;
    var s := StateAt(m, run, k);
    assert StateAt(m, run, k + 1) == Perform(s, run[k]);
    if run[k].HandlerWrites? {
      assert s == Perform(StateAt(m, run, k - 1), HandlerReads(run[k].id, run[k].block));
      assert s.handlers[run[k].id].seen == s.last.index;
    }
  }

  lemma {:induction false} IndivisibleUpTo(m: Memory, genuine: set<Block>, run: seq<Access>, k: nat)
    requires Safe(m, genuine) && LegalRun(m, genuine, run) && Indivisible(run) && m.saver.Idle? && InOrder(m) &&
             k <= |run|
    ensures InOrder(StateAt(m, run, k)) && SaverBelowLast(StateAt(m, run, k))
    decreases k
  {
    hide Safe, CanAccess, Perform, LegalRun, Disorders, InOrder;
    if k > 0 {
      IndivisibleUpTo(m, genuine, run, k - 1);
      SafeAt(m, genuine, run, k - 1);
      LegalAt(m, genuine, run, k - 1);
      IndivisibleAt(m, genuine, run, k - 1);
      AccessKeepsOrderIff(StateAt(m, run, k - 1), genuine, run[k - 1]);
    }
  }

  /** Handlers that write right after they have read keep CURRENT at or below LAST outside a save. */
  lemma IndivisibleHandlersKeepOrder(m: Memory, genuine: set<Block>, run: seq<Access>)
    requires Safe(m, genuine) && LegalRun(m, genuine, run) && Indivisible(run) && m.saver.Idle? && InOrder(m)
    ensures forall k :: 0 <= k <= |run| ==> InOrder(StateAt(m, run, k))
  {
    hide *;
    forall k | 0 <= k <= |run|
      ensures InOrder(StateAt(m, run, k))
    {
      IndivisibleUpTo(m, genuine, run, k);
    }
  }

  /** Yet they let LAST go back: a save that read LAST before the handler wrote it overwrites the handler's later
      block. */
  lemma IndivisibleIsNotEnough(m: Memory, genuine: set<Block>, b: Block, c: Block)
    requires Safe(m, genuine) && m.saver.Idle? && m.handlers == map[] && m.current.index == m.last.index
    requires b in genuine && c in genuine && b.index == m.current.index + 1 && c.index > b.index && b.index < TWO_64 - 1
    ensures var run := [Begin(b), SaverReadsLast(b), HandlerReads(0, c), HandlerWrites(0, c), SaverChecks,
                        SaverWritesLast(b)];
            && LegalRun(m, genuine, run) && Indivisible(run)
            && StateAt(m, run, 4).last == c && PerformAll(m, run).last == b
  {
    hide BlockKey, Safe;
    var run := [Begin(b), SaverReadsLast(b), HandlerReads(0, c), HandlerWrites(0, c), SaverChecks, SaverWritesLast(b)];
    var m1 := Perform(m, run[0]);
    var m2 := Perform(m1, run[1]);
    var m3 := Perform(m2, run[2]);
    var m4 := Perform(m3, run[3]);
    var m5 := Perform(m4, run[4]);
    NoAccess(Perform(m5, run[5]), genuine);
    LegalCons(m5, genuine, run[5], []);
    LegalCons(m4, genuine, run[4], [run[5]]);
    LegalCons(m3, genuine, run[3], [run[4], run[5]]);
    LegalCons(m2, genuine, run[2], [run[3], run[4], run[5]]);
    LegalCons(m1, genuine, run[1], [run[2], run[3], run[4], run[5]]);
    LegalCons(m, genuine, run[0], [run[1], run[2], run[3], run[4], run[5]]);
    assert StateAt(m, run, 1) == m1 && StateAt(m, run, 2) == m2 && StateAt(m, run, 3) == m3 && StateAt(m, run, 4) == m4;
  }

  lemma LegalCons(m: Memory, genuine: set<Block>, a: Access, rest: seq<Access>)
    requires CanAccess(m, genuine, a) && LegalRun(Perform(m, a), genuine, rest)
    ensures LegalRun(m, genuine, [a] + rest) && PerformAll(m, [a] + rest) == PerformAll(Perform(m, a), rest)
  {
    assert ([a] + rest)[1..] == rest;
  }

  /** There is a block for every height in between that a node may come to store. */
  ghost predicate BlocksThrough(genuine: set<Block>, low: nat, high: nat) {
    forall h :: low < h <= high ==> BlockFor(genuine, h)
  }

  ghost predicate BlockFor(genuine: set<Block>, h: nat) {
    h < TWO_64 - 1 && exists b :: b in genuine && b.index == h
  }

  /** With the handler's read and write apart, even CURRENT <= LAST can fail: some interleaving from this state breaks
      it exactly when there are blocks through the second height above LAST. */
  lemma SplitHandlerBreaksOrder(m: Memory, genuine: set<Block>)
    requires Safe(m, genuine) && m.saver.Idle? && m.handlers == map[] && InOrder(m)
    ensures (exists run :: LegalRun(m, genuine, run) && !InOrder(PerformAll(m, run))) <==>
            BlocksThrough(genuine, m.current.index, m.last.index + 2)
  {
    hide Safe, LegalRun, PerformAll, InOrder, BlocksThrough;
    if exists run :: LegalRun(m, genuine, run) && !InOrder(PerformAll(m, run)) {
      var run :| LegalRun(m, genuine, run) && !InOrder(PerformAll(m, run));
      LowStart(m, genuine);
      LowThrough(m, genuine, run, m.current.index, m.last.index);
      LowBreaks(PerformAll(m, run), genuine, m.current.index, m.last.index);
    }
    if BlocksThrough(genuine, m.current.index, m.last.index + 2) {
      var run := BreakingRun(m, genuine);
    }
  }

  /** The way from CURRENT = `c` and LAST = `l`: LAST and all that anybody remembers of it stay at `l` or above; while
      LAST is still there CURRENT can only pass it in the middle of a save; and CURRENT has come over genuine blocks. */
  ghost predicate Low(m: Memory, genuine: set<Block>, c: nat, l: nat) {
    && l <= m.last.index
    && (forall id :: id in m.handlers ==> l <= m.handlers[id].seen)
    && (m.saver.GotBoth? || m.saver.WroteCurrent? ==> l <= m.saver.last && (m.last.index == l ==> m.saver.last == l))
    && (m.last.index == l ==> m.current.index <= l || (m.saver.WroteCurrent? && m.current.index == l + 1))
    && BlocksThrough(genuine, c, m.current.index)
  }

  lemma LowStart(m: Memory, genuine: set<Block>)
    requires m.saver.Idle? && m.handlers == map[] && InOrder(m)
    ensures Low(m, genuine, m.current.index, m.last.index)
  {
  }

  lemma LowOn(m: Memory, genuine: set<Block>, a: Access, c: nat, l: nat)
    requires Safe(m, genuine) && CanAccess(m, genuine, a) && Low(m, genuine, c, l)
    ensures Low(Perform(m, a), genuine, c, l)
  {
    hide HoldsThrough, BlockKey, BlockFor;
    if a.SaverChecks? && m.saver.block.index == m.current.index + 1 {
      assert BlockFor(genuine, m.saver.block.index) by { HasBlock(genuine, m.saver.block); }
    }
  }

  lemma HasBlock(genuine: set<Block>, b: Block)
    requires b in genuine && b.index < TWO_64 - 1
    ensures BlockFor(genuine, b.index)
  {
  }

  lemma {:induction false} LowThrough(m: Memory, genuine: set<Block>, run: seq<Access>, c: nat, l: nat)
    requires Safe(m, genuine) && LegalRun(m, genuine, run) && Low(m, genuine, c, l)
    ensures Low(PerformAll(m, run), genuine, c, l)
    decreases |run|
  {
    hide Safe, CanAccess, Perform, Low;
    if run != [] {
      AccessSafe(m, genuine, run[0]);
      LowOn(m, genuine, run[0], c, l);
      LowThrough(Perform(m, run[0]), genuine, run[1..], c, l);
    }
  }

  lemma LowBreaks(m: Memory, genuine: set<Block>, c: nat, l: nat)
    requires Low(m, genuine, c, l) && !InOrder(m)
    ensures BlocksThrough(genuine, c, l + 2)
  {
    hide BlockFor;
  }

  /** A handler reads LAST for the block above it, saves take CURRENT past that block, and the handler writes. */
  lemma BreakingRun(m: Memory, genuine: set<Block>) returns (run: seq<Access>)
    requires m.saver.Idle? && m.handlers == map[] && InOrder(m)
    requires BlocksThrough(genuine, m.current.index, m.last.index + 2)
    ensures LegalRun(m, genuine, run) && !InOrder(PerformAll(m, run))
  {
    hide BlockKey, LegalRun, PerformAll, FullSave;
    var l := m.last.index;
    assert BlockFor(genuine, l + 1);
    var c :| c in genuine && c.index == l + 1;
    var m1 := Perform(m, HandlerReads(0, c));
    var saves := SaveUpTo(m1, genuine, l + 2);
    var m2 := PerformAll(m1, saves);
    assert m1.handlers == map[0 := LastReader(c, l)] == m2.handlers;
    assert Perform(m2, HandlerWrites(0, c)).last.index <= l + 1 < m2.current.index;
    NoAccess(Perform(m2, HandlerWrites(0, c)), genuine);
    LegalCons(m2, genuine, HandlerWrites(0, c), []);
    AppendRuns(m1, genuine, saves, [HandlerWrites(0, c)] + []);
    LegalCons(m, genuine, HandlerReads(0, c), saves + ([HandlerWrites(0, c)] + []));
    run := [HandlerReads(0, c)] + (saves + ([HandlerWrites(0, c)] + []));
  }

  /** Undisturbed saves of one next block after another. */
  lemma {:induction false} SaveUpTo(m: Memory, genuine: set<Block>, h: nat) returns (run: seq<Access>)
    requires m.saver.Idle? && m.current.index <= h && BlocksThrough(genuine, m.current.index, h)
    ensures LegalRun(m, genuine, run)
    ensures var m' := PerformAll(m, run); m'.saver.Idle? && m'.current.index == h && m'.handlers == m.handlers
    decreases h - m.current.index
  {
    hide BlockKey, LegalRun, PerformAll, FullSave;
    if m.current.index == h {
      run := [];
      NoAccess(m, genuine);
    } else {
      assert BlockFor(genuine, m.current.index + 1);
      var b :| b in genuine && b.index == m.current.index + 1;
      SaveAll(m, genuine, b);
      var m1 := PerformAll(m, FullSave(b));
      var rest := SaveUpTo(m1, genuine, h);
      AppendRuns(m, genuine, FullSave(b), rest);
      run := FullSave(b) + rest;
    }
  }

  function FullSave(b: Block): seq<Access> {
    [Begin(b)] + ([SaverReadsLast(b)] + ([SaverChecks] + ([SaverWritesLast(b)] + ([SaverWritesBlock] + []))))
  }

  /** An undisturbed save of the next block. */
  lemma SaveAll(m: Memory, genuine: set<Block>, b: Block)
    requires m.saver.Idle? && b in genuine && b.index == m.current.index + 1 < TWO_64 - 1
    ensures LegalRun(m, genuine, FullSave(b))
    ensures PerformAll(m, FullSave(b)) ==
            m.(current := b, last := Later(m.last, b, m.last.index), blocks := m.blocks[BlockKey(b.index) := b])
  {
    hide BlockKey, LegalRun, PerformAll;
    var m1 := Perform(m, Begin(b));
    var m2 := Perform(m1, SaverReadsLast(b));
    var m3 := Perform(m2, SaverChecks);
    var m4 := Perform(m3, SaverWritesLast(b));
    NoAccess(Perform(m4, SaverWritesBlock), genuine);
    LegalCons(m4, genuine, SaverWritesBlock, []);
    LegalCons(m3, genuine, SaverWritesLast(b), [SaverWritesBlock] + []);
    LegalCons(m2, genuine, SaverChecks, [SaverWritesLast(b)] + ([SaverWritesBlock] + []));
    LegalCons(m1, genuine, SaverReadsLast(b), [SaverChecks] + ([SaverWritesLast(b)] + ([SaverWritesBlock] + [])));
    LegalCons(m, genuine, Begin(b),
              [SaverReadsLast(b)] + ([SaverChecks] + ([SaverWritesLast(b)] + ([SaverWritesBlock] + []))));
  }

  function MemoryOf(n: Node): Memory {
    Memory(n.current, n.last, n.blocks, Idle, map[])
  }

  /** With nothing in between, the single accesses of a save add up to SaveBlock. */
  lemma UndisturbedSaveIsSaveBlock(n: Node, genuine: set<Block>, b: Block)
    requires b in genuine && 1 <= b.index < TWO_64 - 1 && n.current.index < TWO_64 - 1
    ensures var n' := SaveBlock(n, b).0;
            if b.index == n.current.index + 1
            then LegalRun(MemoryOf(n), genuine, FullSave(b)) && PerformAll(MemoryOf(n), FullSave(b)) == MemoryOf(n')
            else
              && LegalRun(MemoryOf(n), genuine, RefusedSave(b))
              && PerformAll(MemoryOf(n), RefusedSave(b)) == MemoryOf(n')
  {
    hide BlockKey, LegalRun, PerformAll;
    var m := MemoryOf(n);
    if b.index == n.current.index + 1 {
      SaveAll(m, genuine, b);
    } else {
      var m1 := Perform(m, Begin(b));
      var m2 := Perform(m1, SaverReadsLast(b));
      NoAccess(Perform(m2, SaverChecks), genuine);
      LegalCons(m2, genuine, SaverChecks, []);
      LegalCons(m1, genuine, SaverReadsLast(b), [SaverChecks] + []);
      LegalCons(m, genuine, Begin(b), [SaverReadsLast(b)] + ([SaverChecks] + []));
    }
  }

  /** With nothing in between, a handler stores the later of the two blocks, as its steps in a run do. */
  lemma UndisturbedHandlerIsLater(n: Node, genuine: set<Block>, b: Block)
    requires b in genuine
    ensures var run := [HandlerReads(0, b), HandlerWrites(0, b)];
            && LegalRun(MemoryOf(n), genuine, run)
            && PerformAll(MemoryOf(n), run) == MemoryOf(n.(last := if b.index > n.last.index then b else n.last))
  {
    hide LegalRun, PerformAll;
    var m := MemoryOf(n);
    var m1 := Perform(m, HandlerReads(0, b));
    NoAccess(Perform(m1, HandlerWrites(0, b)), genuine);
    LegalCons(m1, genuine, HandlerWrites(0, b), []);
    assert [HandlerWrites(0, b)] + [] == [HandlerWrites(0, b)];
    LegalCons(m, genuine, HandlerReads(0, b), [HandlerWrites(0, b)]);
    assert [HandlerReads(0, b)] + [HandlerWrites(0, b)] == [HandlerReads(0, b), HandlerWrites(0, b)];
    assert m1.handlers - {0} == map[];
  }

  function RefusedSave(b: Block): seq<Access> {
    [Begin(b)] + ([SaverReadsLast(b)] + ([SaverChecks] + []))
  }

  lemma NoAccess(m: Memory, genuine: set<Block>)
    ensures LegalRun(m, genuine, []) && PerformAll(m, []) == m
  {
  }

  lemma {:induction false} AppendRuns(m: Memory, genuine: set<Block>, a: seq<Access>, b: seq<Access>)
    requires LegalRun(m, genuine, a) && LegalRun(PerformAll(m, a), genuine, b)
    ensures LegalRun(m, genuine, a + b) && PerformAll(m, a + b) == PerformAll(PerformAll(m, a), b)
    decreases |a|
  {
    hide CanAccess, Perform;
    if a == [] {
      assert a + b == b;
    } else {
      AppendRuns(Perform(m, a[0]), genuine, a[1..], b);
      assert (a + b)[1..] == a[1..] + b;
    }
  }
}
