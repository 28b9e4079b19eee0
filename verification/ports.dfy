/** The bots of one machine and their ports. Each bot owns a block of four consecutive ports; a new bot gets the
    lowest block no registered port touches. */
module Ports {
  import opened Prelude

  const FIRST: nat := 47300
  const BLOCKS: nat := 150

  datatype Bot = Bot(name: string, alias: string, transport: nat, gui: nat)

  datatype AddError = InvalidName | DirectoryExists | NameTaken | TransportConflict(port: nat) | GuiConflict(port: nat) | NoPorts

  // ---------------------------------------------------------------- the registry as a sequence

  predicate Has(bots: seq<Bot>, name: string) {
    exists i :: 0 <= i < |bots| && bots[i].name == name
  }

  /** The four ports a bot keeps from others. */
  function Claimed(b: Bot): set<nat> {
    {b.transport, b.gui, b.transport + 2, b.transport + 3}
  }

  function UsedPorts(bots: seq<Bot>): set<nat> {
    set i, p | 0 <= i < |bots| && p in Claimed(bots[i]) :: p
  }

  function Base(k: nat): nat {
    FIRST + 4 * k
  }

  function BlockPorts(base: nat): set<nat> {
    {base, base + 1, base + 2, base + 3}
  }

  predicate Free(bots: seq<Bot>, k: nat) {
    BlockPorts(Base(k)) !! UsedPorts(bots)
  }

  predicate IsLeastFree(bots: seq<Bot>, k: nat) {
    Free(bots, k) && forall j :: 0 <= j < k ==> !Free(bots, j)
  }

  /** The first bot, in order, whose ports collide with those of an entry. */
  function Conflict(bots: seq<Bot>, e: Bot): Option<AddError> {
    if bots == [] then None
    else
      var b := bots[0];
      if b.transport == e.transport || b.gui == e.transport then Some(TransportConflict(e.transport))
      else if b.gui == e.gui || b.transport == e.gui then Some(GuiConflict(e.gui))
      else Conflict(bots[1..], e)
  }

  /** Position of the first bot of a name, or the number of bots. */
  function IndexOf(bots: seq<Bot>, name: string): (i: nat)
    ensures i <= |bots| && (i < |bots| <==> Has(bots, name))
    ensures i < |bots| ==> bots[i].name == name
    ensures forall j :: 0 <= j < i ==> bots[j].name != name
  {
    if bots == [] then 0
    else if bots[0].name == name then 0
    else
      var i := IndexOf(bots[1..], name);
      assert forall j :: 0 < j < |bots| ==> bots[j] == bots[1..][j - 1];
      i + 1
  }

  predicate IsNameChar(c: char) {
    'a' <= c <= 'z' || 'A' <= c <= 'Z' || '0' <= c <= '9' || c == '-' || c == '_'
  }

  predicate ValidName(name: string) {
    name != "" && forall i :: 0 <= i < |name| ==> IsNameChar(name[i])
  }

  // ---------------------------------------------------------------- the invariant

  /** The bot owns block `k`. */
  predicate Owns(b: Bot, k: nat) {
    k < BLOCKS && b.transport == Base(k) && b.gui == b.transport + 1
  }

  /** The block a bot's transport port opens. */
  function BlockOf(b: Bot): int {
    (b.transport - FIRST) / 4
  }

  predicate Placed(b: Bot) {
    BlockOf(b) >= 0 && Owns(b, BlockOf(b))
  }

  predicate Inv(bots: seq<Bot>) {
    && (forall i :: 0 <= i < |bots| ==> Placed(bots[i]))
    && (forall i, j :: 0 <= i < j < |bots| ==> bots[i].name != bots[j].name && bots[i].transport != bots[j].transport)
  }

  /** The bots' blocks are pairwise disjoint. */
  lemma BlocksAreDisjoint(bots: seq<Bot>, i: nat, j: nat)
    requires Inv(bots) && i < j < |bots|
    ensures Claimed(bots[i]) !! Claimed(bots[j])
    ensures Claimed(bots[i]) == BlockPorts(bots[i].transport)
  {
    assert Placed(bots[i]) && Placed(bots[j]);
  }

  /** A block is free exactly when no bot owns it. */
  lemma FreeMeansUnowned(bots: seq<Bot>, k: nat)
    requires Inv(bots) && k < BLOCKS
    ensures Free(bots, k) <==> forall i :: 0 <= i < |bots| ==> !Owns(bots[i], k)
  {
    forall i | 0 <= i < |bots| ensures Owns(bots[i], k) <==> !(BlockPorts(Base(k)) !! Claimed(bots[i])) {
      assert Placed(bots[i]);
      if BlockOf(bots[i]) == k {
        assert Base(k) in BlockPorts(Base(k)) && Base(k) in Claimed(bots[i]);
      }
    }
    assert Free(bots, k) <==> forall i :: 0 <= i < |bots| ==> BlockPorts(Base(k)) !! Claimed(bots[i]) by {
      forall i, p | 0 <= i < |bots| && p in BlockPorts(Base(k)) && p in Claimed(bots[i]) ensures p in UsedPorts(bots) {
      }
    }
  }

  function OwnedBlocks(bots: seq<Bot>): set<int> {
    if bots == [] then {} else OwnedBlocks(bots[..|bots| - 1]) + {BlockOf(bots[|bots| - 1])}
  }

  lemma {:induction false} OwnedMembers(bots: seq<Bot>, k: int)
    ensures k in OwnedBlocks(bots) <==> exists i :: 0 <= i < |bots| && BlockOf(bots[i]) == k
  {
    if bots != [] {
      var n := |bots| - 1;
      OwnedMembers(bots[..n], k);
      assert forall i :: 0 <= i < n ==> bots[i] == bots[..n][i];
    }
  }

  lemma OtherBlock(bots: seq<Bot>, i: nat, j: nat)
    requires Inv(bots) && i < j < |bots|
    ensures BlockOf(bots[i]) != BlockOf(bots[j])
  {
    assert Placed(bots[i]) && Placed(bots[j]);
  }

  lemma InvOfPrefix(bots: seq<Bot>, n: nat)
    requires Inv(bots) && n <= |bots|
    ensures Inv(bots[..n])
  {
    assert forall i :: 0 <= i < n ==> bots[..n][i] == bots[i] && Placed(bots[i]);
  }

  lemma LastBlockIsNew(bots: seq<Bot>)
    requires Inv(bots) && bots != []
    ensures BlockOf(bots[|bots| - 1]) !in OwnedBlocks(bots[..|bots| - 1])
  {
    var n := |bots| - 1;
    OwnedMembers(bots[..n], BlockOf(bots[n]));
    forall i | 0 <= i < n ensures BlockOf(bots[..n][i]) != BlockOf(bots[n]) {
      OtherBlock(bots, i, n);
    }
  }

  /** As many blocks are owned as there are bots. */
  lemma {:induction false} OneBlockEach(bots: seq<Bot>)
    requires Inv(bots)
    ensures |OwnedBlocks(bots)| == |bots|
  {
    if bots != [] {
      InvOfPrefix(bots, |bots| - 1);
      OneBlockEach(bots[..|bots| - 1]);
      LastBlockIsNew(bots);
    }
  }

  /** The owned blocks are the blocks below 150 that are not free. */
  lemma OwnedIsNotFree(bots: seq<Bot>) returns (owned: set<nat>)
    requires Inv(bots)
    ensures owned == OwnedBlocks(bots) && |owned| == |bots|
    ensures forall k :: k in owned ==> k < BLOCKS
    ensures forall k: nat :: k < BLOCKS ==> (Free(bots, k) <==> k !in owned)
  {
    OneBlockEach(bots);
    forall k ensures k in OwnedBlocks(bots) <==> exists i :: 0 <= i < |bots| && BlockOf(bots[i]) == k {
      OwnedMembers(bots, k);
    }
    forall k | k in OwnedBlocks(bots) ensures 0 <= k < BLOCKS {
      var i :| 0 <= i < |bots| && BlockOf(bots[i]) == k;
      assert Placed(bots[i]);
    }
    owned := set k | k in OwnedBlocks(bots) && k >= 0;
    assert owned == OwnedBlocks(bots);
    forall k: nat | k < BLOCKS ensures Free(bots, k) <==> k !in owned {
      FreeMeansUnowned(bots, k);
      assert forall i :: 0 <= i < |bots| ==> Placed(bots[i]);
      assert forall i :: 0 <= i < |bots| ==> (Owns(bots[i], k) <==> BlockOf(bots[i]) == k);
    }
  }

  /** Allocation can fail only when all 150 blocks are registered, and there are never more bots than blocks. */
  lemma NoFreeBlockMeansFull(bots: seq<Bot>)
    requires Inv(bots)
    ensures |bots| <= BLOCKS
    ensures (forall k :: 0 <= k < BLOCKS ==> !Free(bots, k)) <==> |bots| == BLOCKS
  {
    var owned := OwnedIsNotFree(bots);
    FullWhen(owned, BLOCKS);
    assert (forall k :: 0 <= k < BLOCKS ==> !Free(bots, k)) <==> forall k: nat :: k < BLOCKS ==> k in owned;
  }

  /** Naturals below `n` are all of them exactly when there are `n`. */
  lemma FullWhen(s: set<nat>, n: nat)
    requires forall k :: k in s ==> k < n
    ensures |s| <= n
    ensures (forall k: nat :: k < n ==> k in s) <==> |s| == n
  {
    BoundedSetSize(s, n);
    if k: nat :| k < n && k !in s {
      BoundedSetSize(s + {k}, n);
    } else {
      CoveringSetSize(s, n);
    }
  }

  /** The least free block is accepted: adding a bot of a new name on it never conflicts, and keeps the invariant. */
  lemma LeastBlockIsAccepted(bots: seq<Bot>, e: Bot, k: nat)
    requires Inv(bots) && k < BLOCKS && Free(bots, k) && Owns(e, k) && !Has(bots, e.name)
    ensures Conflict(bots, e).None? && Inv(bots + [e])
  {
    FreeMeansUnowned(bots, k);
    forall i | 0 <= i < |bots| ensures bots[i].transport != e.transport && bots[i].gui != e.transport
      && bots[i].gui != e.gui && bots[i].transport != e.gui && bots[i].name != e.name
    {
      assert Placed(bots[i]) && !Owns(bots[i], k);
    }
    NoConflict(bots, e);
    assert Placed(e);
  }

  lemma {:induction false} NoConflict(bots: seq<Bot>, e: Bot)
    ensures Conflict(bots, e).None? <==>
      (forall i :: 0 <= i < |bots| ==>
        bots[i].transport != e.transport && bots[i].gui != e.transport && bots[i].gui != e.gui && bots[i].transport != e.gui)
  {
    if bots != [] {
      NoConflict(bots[1..], e);
      assert forall i :: 0 < i < |bots| ==> bots[i] == bots[1..][i - 1];
    }
  }

  lemma RemoveKeepsInv(bots: seq<Bot>, i: nat)
    requires Inv(bots) && i < |bots|
    ensures Inv(bots[..i] + bots[i + 1..]) && !Has(bots[..i] + bots[i + 1..], bots[i].name)
    ensures Placed(bots[i]) && Free(bots[..i] + bots[i + 1..], BlockOf(bots[i]))
  {
    var rest := bots[..i] + bots[i + 1..];
    forall j | 0 <= j < |rest| ensures rest[j] == bots[if j < i then j else j + 1] {
    }
    assert Inv(rest);
    assert Placed(bots[i]);
    FreeMeansUnowned(rest, BlockOf(bots[i]));
  }

  // ---------------------------------------------------------------- commands

  datatype Command = AddBot(name: string, alias: Option<string>, directoryExists: bool) | RemoveBot(name: string, alive: bool, force: bool)

  /** The first free block from `k` on, or the number of blocks. */
  function FreeFrom(bots: seq<Bot>, k: nat): nat
    decreases BLOCKS - k
  {
    if k >= BLOCKS || Free(bots, k) then k else FreeFrom(bots, k + 1)
  }

  lemma {:induction false} FreeFromIs(bots: seq<Bot>, k: nat, least: nat)
    requires k <= least < BLOCKS && IsLeastFree(bots, least)
    ensures FreeFrom(bots, k) == least
    decreases least - k
  {
    if k < least {
      FreeFromIs(bots, k + 1, least);
    }
  }

  lemma {:induction false} NoneFreeFrom(bots: seq<Bot>, k: nat)
    requires k <= BLOCKS && forall j :: k <= j < BLOCKS ==> !Free(bots, j)
    ensures FreeFrom(bots, k) == BLOCKS
    decreases BLOCKS - k
  {
    if k < BLOCKS {
      NoneFreeFrom(bots, k + 1);
    }
  }

  /** The registry after a bot of a valid name was to be added. */
  function AddTo(bots: seq<Bot>, name: string, alias: Option<string>): seq<Bot> {
    var k := FreeFrom(bots, 0);
    if k >= BLOCKS || Has(bots, name) then bots
    else bots + [Bot(name, if alias.Some? then alias.value else name, Base(k), Base(k) + 1)]
  }

  /** The registry after a command. */
  function After(bots: seq<Bot>, c: Command): seq<Bot> {
    match c
    case AddBot(name, alias, directoryExists) =>
      if !ValidName(name) || directoryExists then bots else AddTo(bots, name, alias)
    case RemoveBot(name, alive, force) =>
      var i := IndexOf(bots, name);
      if i == |bots| || (alive && !force) then bots else bots[..i] + bots[i + 1..]
  }

  lemma AddIs(bots: seq<Bot>, name: string, alias: Option<string>, k: nat)
    requires k < BLOCKS && IsLeastFree(bots, k)
    ensures AddTo(bots, name, alias)
      == if Has(bots, name) then bots else bots + [Bot(name, if alias.Some? then alias.value else name, Base(k), Base(k) + 1)]
  {
    FreeFromIs(bots, 0, k);
  }

  lemma NoAdd(bots: seq<Bot>, name: string, alias: Option<string>)
    requires forall k :: 0 <= k < BLOCKS ==> !Free(bots, k)
    ensures AddTo(bots, name, alias) == bots
  {
    NoneFreeFrom(bots, 0);
  }

  /** Registration of a valid name: without a free block it fails, then on a name already there, and else the bot gets
      the least free block. */
  ghost predicate Decided(bots: seq<Bot>, name: string, alias: Option<string>, r: Result<Bot, AddError>) {
    && (r == Err(NoPorts) <==> |bots| == BLOCKS)
    && (r == Err(NameTaken) <==> |bots| < BLOCKS && Has(bots, name))
    && (r.Ok? <==> |bots| < BLOCKS && !Has(bots, name))
    && (r.Err? ==> r.error == NoPorts || r.error == NameTaken)
    && (r.Ok? ==>
          && r.value.name == name && r.value.alias == (if alias.Some? then alias.value else name)
          && Placed(r.value) && IsLeastFree(bots, BlockOf(r.value)))
  }

  lemma AddedAs(bots: seq<Bot>, name: string, alias: Option<string>, r: Result<Bot, AddError>)
    requires Inv(bots) && Decided(bots, name, alias, r)
    ensures AddTo(bots, name, alias) == if r.Ok? then bots + [r.value] else bots
  {
    if r.Ok? {
      PlacedAdds(bots, r.value, alias);
    } else if r.error == NoPorts {
      FullAddsNothing(bots, name, alias);
    } else {
      TakenAddsNothing(bots, name, alias);
    }
  }

  lemma PlacedAdds(bots: seq<Bot>, e: Bot, alias: Option<string>)
    requires Placed(e) && IsLeastFree(bots, BlockOf(e)) && !Has(bots, e.name) && e.alias == (if alias.Some? then alias.value else e.name)
    ensures AddTo(bots, e.name, alias) == bots + [e]
  {
    PlacedIs(e);
    AddIs(bots, e.name, alias, BlockOf(e));
  }

  lemma FullAddsNothing(bots: seq<Bot>, name: string, alias: Option<string>)
    requires Inv(bots) && |bots| == BLOCKS
    ensures AddTo(bots, name, alias) == bots
  {
    NoFreeBlockMeansFull(bots);
    NoAdd(bots, name, alias);
  }

  lemma PlacedIs(b: Bot)
    requires Placed(b)
    ensures 0 <= BlockOf(b) < BLOCKS && b == Bot(b.name, b.alias, Base(BlockOf(b)), Base(BlockOf(b)) + 1)
  {
  }

  lemma TakenAddsNothing(bots: seq<Bot>, name: string, alias: Option<string>)
    requires Has(bots, name)
    ensures AddTo(bots, name, alias) == bots
  {
  }

  function AfterAll(bots: seq<Bot>, commands: seq<Command>): seq<Bot> {
    if commands == [] then bots
    else After(AfterAll(bots, commands[..|commands| - 1]), commands[|commands| - 1])
  }

  // ---------------------------------------------------------------- the registry

  class BotRegistry {
    var bots: seq<Bot>

    constructor ()
      ensures bots == []
    {
      bots := [];
    }

    method Add(e: Bot) returns (r: Result<bool, AddError>)
      modifies this
      ensures Has(old(bots), e.name) ==> r == Err(NameTaken)
      ensures !Has(old(bots), e.name) && Conflict(old(bots), e).Some? ==> r == Err(Conflict(old(bots), e).value)
      ensures r.Ok? <==> !Has(old(bots), e.name) && Conflict(old(bots), e).None?
      ensures bots == if r.Ok? then old(bots) + [e] else old(bots)
    {
      if Has(bots, e.name) {
        return Err(NameTaken);
      }
      for i := 0 to |bots|
        invariant Conflict(bots, e) == Conflict(bots[i..], e)
      {
        var b := bots[i];
        assert bots[i..][1..] == bots[i + 1..];
        if b.transport == e.transport || b.gui == e.transport {
          return Err(TransportConflict(e.transport));
        }
        if b.gui == e.gui || b.transport == e.gui {
          return Err(GuiConflict(e.gui));
        }
      }
      bots := bots + [e];
      r := Ok(true);
    }

    method Remove(name: string) returns (r: Option<Bot>)
      modifies this
      ensures r.None? <==> !Has(old(bots), name)
      ensures r.None? ==> bots == old(bots)
      ensures r.Some? ==>
        var i := IndexOf(old(bots), name);
        r == Some(old(bots)[i]) && bots == old(bots)[..i] + old(bots)[i + 1..]
    {
      var i := IndexOf(bots, name);
      if i == |bots| {
        return None;
      }
      r := Some(bots[i]);
      bots := bots[..i] + bots[i + 1..];
    }

    /** The least block, from 47300 in steps of four, none of whose ports is used. */
    method AllocatePorts() returns (r: Option<(nat, nat)>)
      ensures r.None? <==> forall k :: 0 <= k < BLOCKS ==> !Free(bots, k)
      ensures r.Some? ==> exists k :: 0 <= k < BLOCKS && IsLeastFree(bots, k) && r.value == (Base(k), Base(k) + 1)
    {
      var used := UsedPorts(bots);
      var base := FIRST;
      ghost var k: nat := 0;
      while base < 47900
        invariant base == Base(k) && k <= BLOCKS
        invariant forall j :: 0 <= j < k ==> !Free(bots, j)
      {
        if base !in used && base + 1 !in used && base + 2 !in used && base + 3 !in used {
          assert IsLeastFree(bots, k);
          return Some((base, base + 1));
        }
        assert !Free(bots, k) by {
          assert base in BlockPorts(Base(k)) && base + 1 in BlockPorts(Base(k));
          assert base + 2 in BlockPorts(Base(k)) && base + 3 in BlockPorts(Base(k));
        }
        base := base + 4;
        k := k + 1;
      }
      r := None;
    }

    /** Registers a new bot on the least free block. With a valid new name and no directory it fails exactly when
        150 bots are registered; the registry's own checks never reject it. */
    method BotAdd(name: string, alias: Option<string>, directoryExists: bool) returns (r: Result<Bot, AddError>)
      requires Inv(bots)
      modifies this
      ensures Inv(bots)
      ensures r.Err? ==> bots == old(bots)
      ensures r == Err(InvalidName) <==> !ValidName(name)
      ensures r == Err(DirectoryExists) <==> ValidName(name) && directoryExists
      ensures ValidName(name) && !directoryExists ==>
        && (r == Err(NoPorts) <==> |old(bots)| == BLOCKS)
        && (r == Err(NameTaken) <==> |old(bots)| < BLOCKS && Has(old(bots), name))
        && (r.Ok? <==> |old(bots)| < BLOCKS && !Has(old(bots), name))
      ensures r.Ok? ==> bots == old(bots) + [r.value] && r.value.name == name
      ensures r.Ok? ==> Placed(r.value) && IsLeastFree(old(bots), BlockOf(r.value))
      ensures r.Ok? ==> r.value.alias == if alias.Some? then alias.value else name
      ensures bots == After(old(bots), AddBot(name, alias, directoryExists))
    {
      if !ValidName(name) {
        return Err(InvalidName);
      }
      if directoryExists {
        return Err(DirectoryExists);
      }
      r := Register(name, alias);
      AddedAs(old(bots), name, alias, r);
    }

    /** Allocates the ports and enters the bot. */
    method Register(name: string, alias: Option<string>) returns (r: Result<Bot, AddError>)
      requires Inv(bots)
      modifies this
      ensures Inv(bots) && Decided(old(bots), name, alias, r)
      ensures bots == if r.Ok? then old(bots) + [r.value] else old(bots)
    {
      NoFreeBlockMeansFull(bots);
      var ports := AllocatePorts();
      if ports.None? {
        return Err(NoPorts);
      }
      ghost var k :| 0 <= k < BLOCKS && IsLeastFree(bots, k) && ports.value == (Base(k), Base(k) + 1);
      var e := Bot(name, if alias.Some? then alias.value else name, ports.value.0, ports.value.1);
      assert Owns(e, k);
      if !Has(bots, name) {
        LeastBlockIsAccepted(bots, e, k);
      }
      var added := Add(e);
      if added.Err? {
        return Err(added.error);
      }
      r := Ok(e);
    }

    /** A running bot is removed only by force. Removing frees the bot's block. */
    method BotRemove(name: string, alive: bool, force: bool) returns (removed: bool)
      requires Inv(bots)
      modifies this
      ensures Inv(bots)
      ensures removed <==> Has(old(bots), name) && (alive ==> force)
      ensures !removed ==> bots == old(bots)
      ensures removed ==> !Has(bots, name) && |bots| == |old(bots)| - 1
      ensures removed ==> forall b :: b in bots <==> b in old(bots) && b.name != name
      ensures removed ==> exists b :: b in old(bots) && b.name == name && Placed(b) && Free(bots, BlockOf(b))
      ensures bots == After(old(bots), RemoveBot(name, alive, force))
    {
      var i := IndexOf(bots, name);
      if i == |bots| {
        return false;
      }
      if alive && !force {
        return false;
      }
      RemoveKeepsInv(bots, i);
      ghost var before := bots;
      bots := bots[..i] + bots[i + 1..];
      assert before[i] in before;
      RemovedOne(before, i);
      removed := true;
    }
  }

  lemma RemovedOne(bots: seq<Bot>, i: nat)
    requires Inv(bots) && i < |bots|
    ensures forall b :: b in bots[..i] + bots[i + 1..] <==> b in bots && b.name != bots[i].name
  {
    var before, after := bots[..i], bots[i + 1..];
    assert bots == before + [bots[i]] + after;
    assert forall j :: 0 <= j < |before| ==> before[j].name != bots[i].name;
    assert forall j :: 0 <= j < |after| ==> after[j] == bots[i + 1 + j];
  }

  // ---------------------------------------------------------------- whole runs

  /** Any sequence of commands, from an empty registry, does what each of them does, in order, and keeps the blocks
      disjoint. */
  method RunCommands(commands: seq<Command>) returns (registry: BotRegistry)
    ensures registry.bots == AfterAll([], commands)
    ensures Inv(registry.bots) && |registry.bots| <= BLOCKS
    ensures forall i, j :: 0 <= i < j < |registry.bots| ==> Claimed(registry.bots[i]) !! Claimed(registry.bots[j])
  {
    registry := new BotRegistry();
    for i := 0 to |commands|
      invariant Inv(registry.bots) && fresh(registry)
      invariant registry.bots == AfterAll([], commands[..i])
    {
      assert commands[..i + 1][..i] == commands[..i];
      match commands[i] {
        case AddBot(name, alias, exists_) =>
          var added := registry.BotAdd(name, alias, exists_);
        case RemoveBot(name, alive, force) =>
          var removed := registry.BotRemove(name, alive, force);
      }
    }
    assert commands[..|commands|] == commands;
    NoFreeBlockMeansFull(registry.bots);
    forall i, j | 0 <= i < j < |registry.bots| ensures Claimed(registry.bots[i]) !! Claimed(registry.bots[j]) {
      BlocksAreDisjoint(registry.bots, i, j);
    }
  }

  /** A bot of the registry has a transport port of the fixed range, four apart, and the next port for its GUI. */
  lemma PortsAre(bots: seq<Bot>, i: nat)
    requires Inv(bots) && i < |bots|
    ensures 47300 <= bots[i].transport <= 47896 && (bots[i].transport - 47300) % 4 == 0
    ensures bots[i].gui == bots[i].transport + 1
  {
    assert Placed(bots[i]);
  }

  /** The block a new bot gets: it starts at the lowest of the ports 47300, 47304 and so on such that no bot has its
      transport port, its GUI port or one of the next two within it. */
  lemma LeastFreeIs(bots: seq<Bot>, k: nat)
    ensures IsLeastFree(bots, k) <==>
      NoBotIn(bots, k) && forall j :: 0 <= j < k ==> !NoBotIn(bots, j)
  {
    forall j: nat ensures Free(bots, j) <==> NoBotIn(bots, j) {
      FreeIsUntouched(bots, j);
    }
  }

  /** The four ports from 47300 and four times `k` on are nobody's. */
  predicate NoBotIn(bots: seq<Bot>, k: nat) {
    Untouched(bots, 47300 + 4 * k)
  }

  predicate Within(p: nat, base: nat) {
    base <= p <= base + 3
  }

  predicate Untouched(bots: seq<Bot>, base: nat) {
    forall i :: 0 <= i < |bots| ==>
      && !Within(bots[i].transport, base) && !Within(bots[i].gui, base)
      && !Within(bots[i].transport + 2, base) && !Within(bots[i].transport + 3, base)
  }

  lemma FreeIsUntouched(bots: seq<Bot>, k: nat)
    ensures Free(bots, k) <==> Untouched(bots, 47300 + 4 * k)
  {
    var base := 47300 + 4 * k;
    assert forall p :: p in BlockPorts(Base(k)) <==> Within(p, base);
    if Free(bots, k) {
      forall i | 0 <= i < |bots|
        ensures !Within(bots[i].transport, base) && !Within(bots[i].gui, base)
        ensures !Within(bots[i].transport + 2, base) && !Within(bots[i].transport + 3, base)
      {
        assert Claimed(bots[i]) <= UsedPorts(bots);
      }
    }
  }

  /** Names are made of ASCII letters, digits, hyphens and underscores, here by their codes. */
  lemma NamesAre(name: string)
    ensures ValidName(name) <==> |name| >= 1 && forall i :: 0 <= i < |name| ==> IsNameCode(name[i] as int)
  {
    assert forall i :: 0 <= i < |name| ==> (IsNameChar(name[i]) <==> IsNameCode(name[i] as int));
  }

  predicate IsNameCode(n: int) {
    48 <= n <= 57 || 65 <= n <= 90 || 97 <= n <= 122 || n == 45 || n == 95
  }

  /** The two bots share a transport or GUI port. */
  predicate SharePort(b: Bot, e: Bot) {
    b.transport == e.transport || b.transport == e.gui || b.gui == e.transport || b.gui == e.gui
  }

  /** Bot `i` is the first to share a port with the entry, and the error says which port of the entry it is. */
  predicate FirstClash(bots: seq<Bot>, e: Bot, i: int) {
    && 0 <= i < |bots| && SharePort(bots[i], e) && (forall j :: 0 <= j < i ==> !SharePort(bots[j], e))
    && Conflict(bots, e) == Some(if e.transport == bots[i].transport || e.transport == bots[i].gui
                                 then TransportConflict(e.transport) else GuiConflict(e.gui))
  }

  /** An entry is accepted exactly when no bot shares a port with it; otherwise the first such bot decides, and its
      clash with the transport port is reported before one with the GUI port. */
  lemma {:induction false} ConflictWhen(bots: seq<Bot>, e: Bot)
    ensures Conflict(bots, e) == None <==> forall i :: 0 <= i < |bots| ==> !SharePort(bots[i], e)
    ensures Conflict(bots, e).Some? ==> exists i :: FirstClash(bots, e, i)
  {
    if bots != [] {
      ConflictWhen(bots[1..], e);
      assert forall i :: 0 < i < |bots| ==> bots[i] == bots[1..][i - 1];
      if SharePort(bots[0], e) {
        assert FirstClash(bots, e, 0);
      } else if Conflict(bots, e).Some? {
        var i :| FirstClash(bots[1..], e, i);
        assert FirstClash(bots, e, i + 1);
      }
    }
  }
}
