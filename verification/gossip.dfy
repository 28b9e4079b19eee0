/** The peer registry of one machine and what gossip does to it: pulling the list another machine advertises,
    pruning what that machine no longer advertises, merging the rest, and choosing what to advertise. */
module Gossip {
  import opened Prelude
  import opened Address
  import Framing

  datatype Role = Primary | Secondary | Worker

  datatype Row = Row(
    pubkey: string,
    eth: Option<string>,
    address: string,
    gui: Option<string>,
    role: Role,
    display: Option<string>,
    sid: Option<string>,
    status: Option<string>)

  /** Rows by alias; the table also keeps public keys unique. */
  type Store = map<string, Row>

  datatype RemotePeer = RemotePeer(
    alias: string,
    pubkey: string,
    eth: string,
    address: string,
    gui: Option<string>,
    role: string,
    display: Option<string>,
    sid: Option<string>,
    status: Option<string>)

  predicate UniqueKeys(s: Store) {
    forall a, b :: a in s && b in s && s[a].pubkey == s[b].pubkey ==> a == b
  }

  // ---------------------------------------------------------------- roles and identities

  function RoleName(r: Role): string {
    match r case Primary => "primary" case Secondary => "secondary" case Worker => "worker"
  }

  /** Any text that is no role reads as the default. */
  function RoleOf(name: string): Role {
    if name == "primary" then Primary else if name == "secondary" then Secondary else Worker
  }

  /** Ethereum addresses are compared trimmed and without case. */
  function Normal(eth: string): string {
    Lower(Framing.Trim(eth))
  }

  predicate IsSelf(me: Option<string>, eth: string) {
    me.Some? && Lower(me.value) == Normal(eth)
  }

  function Coalesce<T>(a: Option<T>, b: Option<T>): Option<T> {
    if a.Some? then a else b
  }

  // ---------------------------------------------------------------- statements of the peer table

  predicate EthKnown(s: Store, eth: string) {
    exists a :: a in s && s[a].eth == Some(eth)
  }

  predicate KeyKnown(s: Store, pubkey: string) {
    exists a :: a in s && s[a].pubkey == pubkey
  }

  /** Update the rows of the Ethereum address, else the row of the public key, else insert; an insert fails when
      the alias is taken. Alias and role of an existing row stay. */
  function UpsertAnnounce(s: Store, alias: string, pubkey: string, address: string, gui: Option<string>,
                          eth: string, role: Role): Option<Store>
  {
    if EthKnown(s, eth) then
      Some(map a | a in s ::
        if s[a].eth == Some(eth) then s[a].(address := address, gui := Coalesce(gui, s[a].gui)) else s[a])
    else if KeyKnown(s, pubkey) then
      Some(map a | a in s ::
        if s[a].pubkey == pubkey then s[a].(address := address, gui := Coalesce(gui, s[a].gui), eth := Some(eth)) else s[a])
    else if alias in s then None
    else Some(s[alias := Row(pubkey, Some(eth), address, gui, role, None, None, None)])
  }

  function UpdateIdentity(s: Store, eth: string, role: Role, display: Option<string>): Store {
    map a | a in s ::
      if s[a].eth == Some(eth) then s[a].(role := role, display := Coalesce(display, s[a].display)) else s[a]
  }

  function UpdateSession(s: Store, eth: string, sid: Option<string>, status: Option<string>): Store {
    map a | a in s ::
      if s[a].eth == Some(eth) then s[a].(sid := Coalesce(sid, s[a].sid), status := Coalesce(status, s[a].status)) else s[a]
  }

  // ---------------------------------------------------------------- merge

  /** The filters that look at the announcement alone. */
  predicate Passes(rp: RemotePeer, me: Option<string>) {
    !Unreachable(rp.address) && !Blank(rp.eth) && !Blank(rp.pubkey) && !IsSelf(me, rp.eth)
  }

  /** The filters every announced peer passes before it is stored. */
  predicate Accepted(s: Store, rp: RemotePeer, me: Option<string>, allowCreate: bool) {
    && Passes(rp, me)
    && (allowCreate || EthKnown(s, Framing.Trim(rp.eth)) || rp.alias in s)
  }

  function GuiOf(rp: RemotePeer): Option<string> {
    Coalesce(rp.gui, DeriveGui(rp.address))
  }

  function MergeOne(s: Store, rp: RemotePeer, me: Option<string>, allowCreate: bool): Store {
    if Accepted(s, rp, me, allowCreate) then Stored(s, rp) else s
  }

  /** The store after an accepted announcement. */
  function Stored(s: Store, rp: RemotePeer): Store {
    var upserted := UpsertAnnounce(s, rp.alias, rp.pubkey, rp.address, GuiOf(rp), rp.eth, RoleOf(rp.role));
    if upserted.None? then s
    else UpdateSession(UpdateIdentity(upserted.value, rp.eth, RoleOf(rp.role), rp.display), rp.eth, rp.sid, rp.status)
  }

  function Merge(s: Store, remote: seq<RemotePeer>, me: Option<string>, allowCreate: bool): Store {
    if remote == [] then s
    else MergeOne(Merge(s, remote[..|remote| - 1], me, allowCreate), remote[|remote| - 1], me, allowCreate)
  }

  /** The announcement passes, and its identity is known or its alias free. */
  predicate Takes(s: Store, rp: RemotePeer, me: Option<string>, allowCreate: bool) {
    Accepted(s, rp, me, allowCreate) && (EthKnown(s, rp.eth) || KeyKnown(s, rp.pubkey) || rp.alias !in s)
  }

  /** How many announcements of a list are taken. */
  function Taken(s: Store, remote: seq<RemotePeer>, me: Option<string>, allowCreate: bool): nat {
    if remote == [] then 0
    else
      var n := |remote| - 1;
      Taken(s, remote[..n], me, allowCreate)
      + if Takes(Merge(s, remote[..n], me, allowCreate), remote[n], me, allowCreate) then 1 else 0
  }

  // ---------------------------------------------------------------- prune and pull

  function Advertised(remote: seq<RemotePeer>): set<string> {
    set i | 0 <= i < |remote| && Normal(remote[i].eth) != "" :: Normal(remote[i].eth)
  }

  /** A row of the pulled host, with an identity, not this machine's own, that the host no longer advertises. */
  predicate Prunable(r: Row, host: string, advertised: set<string>, me: Option<string>) {
    && r.eth.Some? && Normal(r.eth.value) != "" && !IsSelf(me, r.eth.value)
    && Host(r.address) == Some(host) && Normal(r.eth.value) !in advertised
  }

  function Prune(s: Store, base: string, remote: seq<RemotePeer>, me: Option<string>): Store {
    if Host(base).None? then s
    else map a | a in s && !Prunable(s[a], Host(base).value, Advertised(remote), me) :: s[a]
  }

  /** What one successful fetch does. */
  function Pull(s: Store, base: string, remote: seq<RemotePeer>, me: Option<string>): Store {
    Merge(Prune(s, base, remote, me), remote, me, true)
  }

  /** One tick: the candidates in order, each with the list fetched from it, if any. */
  function Tick(s: Store, bases: seq<string>, fetched: seq<Option<seq<RemotePeer>>>, me: Option<string>): Store
    requires |bases| == |fetched|
  {
    if bases == [] then s
    else
      var n := |bases| - 1;
      var before := Tick(s, bases[..n], fetched[..n], me);
      if fetched[n].None? then before else Pull(before, bases[n], fetched[n].value, me)
  }

  class Registry {
    var rows: Store

    constructor (rows: Store)
      ensures this.rows == rows
    {
      this.rows := rows;
    }

    /** One announcement: the filters, the upsert, then the two updates by Ethereum address. */
    method MergeAnnounced(rp: RemotePeer, me: Option<string>, allowCreate: bool) returns (merged: bool)
      modifies this
      ensures rows == MergeOne(old(rows), rp, me, allowCreate)
      ensures merged == Takes(old(rows), rp, me, allowCreate)
    {
      merged := false;
      if Unreachable(rp.address) || Blank(rp.eth) || Blank(rp.pubkey) || IsSelf(me, rp.eth) {
        return;
      }
      if !allowCreate && !EthKnown(rows, Framing.Trim(rp.eth)) && rp.alias !in rows {
        return;
      }
      var role := RoleOf(rp.role);
      var upserted := UpsertAnnounce(rows, rp.alias, rp.pubkey, rp.address, GuiOf(rp), rp.eth, role);
      if upserted.Some? {
        rows := UpdateIdentity(upserted.value, rp.eth, role, rp.display);
        merged := true;
        if rp.sid.Some? || rp.status.Some? {
          rows := UpdateSession(rows, rp.eth, rp.sid, rp.status);
        } else {
          EmptySessionUpdate(rows, rp.eth);
        }
      }
    }

    method MergeRemotePeers(remote: seq<RemotePeer>, me: Option<string>, allowCreate: bool) returns (merged: nat)
      modifies this
      ensures rows == Merge(old(rows), remote, me, allowCreate)
      ensures merged == Taken(old(rows), remote, me, allowCreate)
    {
      merged := 0;
      for i := 0 to |remote|
        invariant rows == Merge(old(rows), remote[..i], me, allowCreate)
        invariant merged == Taken(old(rows), remote[..i], me, allowCreate)
      {
        assert remote[..i + 1][..i] == remote[..i];
        var stored := MergeAnnounced(remote[i], me, allowCreate);
        if stored {
          merged := merged + 1;
        }
      }
      assert remote[..|remote|] == remote;
    }

    /** `listing` is the table in the order it is read. */
    method PruneAbsentFromRemote(base: string, remote: seq<RemotePeer>, me: Option<string>, listing: seq<string>)
      returns (pruned: nat)
      requires forall a :: a in listing <==> a in rows
      modifies this
      ensures rows == Prune(old(rows), base, remote, me)
      ensures pruned == |old(rows)| - |rows|
    {
      pruned := 0;
      var baseHost := Host(base);
      if baseHost.None? {
        return;
      }
      var advertised := Advertised(remote);
      var toDelete := SelectAbsent(listing, baseHost.value, advertised, me);
      pruned := DeleteAll(toDelete);
    }

    method SelectAbsent(listing: seq<string>, host: string, advertised: set<string>, me: Option<string>)
      returns (toDelete: seq<string>)
      requires forall a :: a in listing <==> a in rows
      ensures forall a :: a in toDelete <==> a in rows && Prunable(rows[a], host, advertised, me)
    {
      toDelete := [];
      for i := 0 to |listing|
        invariant forall a :: a in toDelete ==> a in rows && Prunable(rows[a], host, advertised, me)
        invariant forall k :: 0 <= k < i && Prunable(rows[listing[k]], host, advertised, me) ==> listing[k] in toDelete
      {
        var prunable := Prunable(rows[listing[i]], host, advertised, me);
        if prunable {
          toDelete := toDelete + [listing[i]];
        }
      }
    }

    method DeleteAll(aliases: seq<string>) returns (deleted: nat)
      modifies this
      ensures rows == map a | a in old(rows) && a !in aliases :: old(rows)[a]
      ensures deleted == |old(rows)| - |rows|
    {
      deleted := 0;
      for i := 0 to |aliases|
        invariant rows.Keys == set a | a in old(rows) && a !in aliases[..i]
        invariant forall a :: a in rows ==> rows[a] == old(rows)[a]
        invariant deleted == |old(rows)| - |rows|
      {
        if aliases[i] in rows {
          assert (rows - {aliases[i]}).Keys == rows.Keys - {aliases[i]};
          rows := rows - {aliases[i]};
          deleted := deleted + 1;
        }
        assert aliases[..i + 1] == aliases[..i] + [aliases[i]];
      }
      assert aliases[..|aliases|] == aliases;
    }

    /** One tick over the candidates. A failed fetch neither prunes nor merges. */
    method SyncTickOnce(bases: seq<string>, fetched: seq<Option<seq<RemotePeer>>>, me: Option<string>)
      requires |bases| == |fetched|
      modifies this
      ensures rows == Tick(old(rows), bases, fetched, me)
    {
      for i := 0 to |bases|
        invariant rows == Tick(old(rows), bases[..i], fetched[..i], me)
      {
        assert bases[..i + 1][..i] == bases[..i] && fetched[..i + 1][..i] == fetched[..i];
        if fetched[i].Some? {
          var listing := Listing(rows);
          var pruned := PruneAbsentFromRemote(bases[i], fetched[i].value, me, listing);
          var merged := MergeRemotePeers(fetched[i].value, me, true);
        }
      }
      assert bases[..|bases|] == bases && fetched[..|fetched|] == fetched;
    }
  }

  /** The aliases of a table, each once, in some order. */
  method Listing(s: Store) returns (listing: seq<string>)
    ensures forall a :: a in listing <==> a in s
    ensures |listing| == |s|
  {
    listing := [];
    var rest := s.Keys;
    while rest != {}
      invariant rest <= s.Keys
      invariant forall a :: a in listing <==> a in s && a !in rest
      invariant |listing| + |rest| == |s|
      decreases |rest|
    {
      var a :| a in rest;
      rest := rest - {a};
      listing := listing + [a];
    }
  }

  lemma EmptySessionUpdate(s: Store, eth: string)
    ensures UpdateSession(s, eth, None, None) == s
  {
  }

  // ---------------------------------------------------------------- one announced peer

  /** The rows an accepted announcement updates. */
  predicate Touches(s: Store, rp: RemotePeer, a: string)
    requires a in s
  {
    if EthKnown(s, rp.eth) then s[a].eth == Some(rp.eth) else s[a].pubkey == rp.pubkey
  }

  function Absorb(r: Row, rp: RemotePeer): Row {
    r.(address := rp.address, gui := Coalesce(GuiOf(rp), r.gui), eth := Some(rp.eth), role := RoleOf(rp.role),
       display := Coalesce(rp.display, r.display), sid := Coalesce(rp.sid, r.sid), status := Coalesce(rp.status, r.status))
  }

  function FreshRow(rp: RemotePeer): Row {
    Row(rp.pubkey, Some(rp.eth), rp.address, GuiOf(rp), RoleOf(rp.role), rp.display, rp.sid, rp.status)
  }

  predicate Known(s: Store, rp: RemotePeer) {
    EthKnown(s, rp.eth) || KeyKnown(s, rp.pubkey)
  }

  lemma KnownRows(s: Store, rp: RemotePeer)
    requires Known(s, rp)
    ensures Stored(s, rp).Keys == s.Keys
    ensures forall a :: a in s ==> Stored(s, rp)[a] == if Touches(s, rp, a) then Absorb(s[a], rp) else s[a]
  {
    if !EthKnown(s, rp.eth) {
      assert forall a :: a in s ==> s[a].eth != Some(rp.eth);
    }
  }

  lemma NewRow(s: Store, rp: RemotePeer)
    requires !Known(s, rp)
    ensures Stored(s, rp) == if rp.alias in s then s else s[rp.alias := FreshRow(rp)]
  {
    assert forall a :: a in s ==> s[a].eth != Some(rp.eth);
  }

  /** The effect of one announcement, row by row: an accepted one updates the rows of its identity or, when it
      has none and its alias is free, adds one row; nothing else changes and nothing leaves. */
  lemma MergeOneRows(s: Store, rp: RemotePeer, me: Option<string>, allowCreate: bool)
    ensures var z := MergeOne(s, rp, me, allowCreate); var ok := Accepted(s, rp, me, allowCreate);
      && (forall a :: a in s ==> a in z && z[a] == if ok && Known(s, rp) && Touches(s, rp, a) then Absorb(s[a], rp) else s[a])
      && (forall a :: a in z && a !in s <==> ok && !Known(s, rp) && a == rp.alias && rp.alias !in s)
      && (ok && !Known(s, rp) && rp.alias !in s ==> z[rp.alias] == FreshRow(rp))
  {
    if Known(s, rp) {
      KnownRows(s, rp);
    } else {
      NewRow(s, rp);
    }
  }

  // ---------------------------------------------------------------- what a pull guarantees

  /** A row of the pulled host, with an identity that is not this machine's own. */
  predicate HostedAt(r: Row, host: string, me: Option<string>) {
    r.eth.Some? && Normal(r.eth.value) != "" && !IsSelf(me, r.eth.value) && Host(r.address) == Some(host)
  }

  predicate Lists(remote: seq<RemotePeer>, eth: string) {
    exists i :: 0 <= i < |remote| && remote[i].eth == eth
  }

  lemma ListsMore(remote: seq<RemotePeer>, n: nat, eth: string)
    requires n <= |remote| && Lists(remote[..n], eth)
    ensures Lists(remote, eth)
  {
    var i :| 0 <= i < n && remote[..n][i].eth == eth;
    assert remote[i].eth == eth;
  }

  lemma {:induction false} MergeAddsOnlyAdvertised(s: Store, remote: seq<RemotePeer>, me: Option<string>, a: string)
    requires a in Merge(s, remote, me, true)
    ensures var r := Merge(s, remote, me, true)[a];
      (a in s && r == s[a]) || (r.eth.Some? && Lists(remote, r.eth.value))
  {
    if remote != [] {
      var n := |remote| - 1;
      var before := Merge(s, remote[..n], me, true);
      MergeOneRows(before, remote[n], me, true);
      assert Lists(remote, remote[n].eth);
      if a in before {
        MergeAddsOnlyAdvertised(s, remote[..n], me, a);
        if before[a].eth.Some? && Lists(remote[..n], before[a].eth.value) {
          ListsMore(remote, n, before[a].eth.value);
        }
      }
    }
  }

  /** After a successful pull every row on the base's host, other than this machine's own, is one the base just
      advertised. */
  lemma PullLeavesOnlyAdvertised(s: Store, base: string, remote: seq<RemotePeer>, me: Option<string>, a: string)
    requires Host(base).Some? && a in Pull(s, base, remote, me)
    requires HostedAt(Pull(s, base, remote, me)[a], Host(base).value, me)
    ensures Normal(Pull(s, base, remote, me)[a].eth.value) in Advertised(remote)
  {
    MergeAddsOnlyAdvertised(Prune(s, base, remote, me), remote, me, a);
  }

  /** No announcement this machine accepts bears the row's identity. */
  predicate Unannounced(r: Row, remote: seq<RemotePeer>, me: Option<string>) {
    forall i :: 0 <= i < |remote| && !IsSelf(me, remote[i].eth) ==>
      r.eth != Some(remote[i].eth) && r.pubkey != remote[i].pubkey
  }

  lemma {:induction false} MergeKeepsUnannounced(s: Store, remote: seq<RemotePeer>, me: Option<string>, allowCreate: bool, a: string)
    requires a in s && Unannounced(s[a], remote, me)
    ensures a in Merge(s, remote, me, allowCreate) && Merge(s, remote, me, allowCreate)[a] == s[a]
  {
    if remote != [] {
      var n := |remote| - 1;
      assert Unannounced(s[a], remote[..n], me) by {
        assert forall i :: 0 <= i < n ==> remote[..n][i] == remote[i];
      }
      MergeKeepsUnannounced(s, remote[..n], me, allowCreate, a);
      MergeOneRows(Merge(s, remote[..n], me, allowCreate), remote[n], me, allowCreate);
    }
  }

  /** A row no accepted announcement names survives a pull exactly when it is not on the base's host, or has no
      identity, or is this machine's own or still advertised; and then it is unchanged. */
  lemma PullKeepsUnannounced(s: Store, base: string, remote: seq<RemotePeer>, me: Option<string>, a: string)
    requires a in s && Unannounced(s[a], remote, me)
    requires forall i :: 0 <= i < |remote| ==> remote[i].alias != a
    ensures a in Pull(s, base, remote, me) <==>
      !(Host(base).Some? && HostedAt(s[a], Host(base).value, me) && Normal(s[a].eth.value) !in Advertised(remote))
    ensures a in Pull(s, base, remote, me) ==> Pull(s, base, remote, me)[a] == s[a]
  {
    var p := Prune(s, base, remote, me);
    if a in p {
      MergeKeepsUnannounced(p, remote, me, true, a);
    } else {
      MergeAddsNoOther(p, remote, me, a);
    }
  }

  lemma {:induction false} MergeAddsNoOther(s: Store, remote: seq<RemotePeer>, me: Option<string>, a: string)
    requires a !in s && forall i :: 0 <= i < |remote| ==> remote[i].alias != a
    ensures a !in Merge(s, remote, me, true)
  {
    if remote != [] {
      var n := |remote| - 1;
      assert forall i :: 0 <= i < n ==> remote[..n][i] == remote[i];
      MergeAddsNoOther(s, remote[..n], me, a);
      MergeOneRows(Merge(s, remote[..n], me, true), remote[n], me, true);
    }
  }

  /** This machine's own row survives every pull unchanged, unless the list announces its public key under
      another Ethereum address. */
  lemma PullKeepsOwnRow(s: Store, base: string, remote: seq<RemotePeer>, me: Option<string>, a: string)
    requires a in s && s[a].eth.Some? && IsSelf(me, s[a].eth.value)
    requires forall i :: 0 <= i < |remote| && remote[i].pubkey == s[a].pubkey ==> IsSelf(me, remote[i].eth)
    ensures a in Pull(s, base, remote, me) && Pull(s, base, remote, me)[a] == s[a]
  {
    MergeKeepsUnannounced(Prune(s, base, remote, me), remote, me, true, a);
  }

  /** The exact condition for one announcement: the own row changes if and only if the announcement passes the
      filters, its Ethereum address is unknown here and its public key is that row's. */
  lemma OwnRowChangesOnlyByKey(s: Store, rp: RemotePeer, me: Option<string>, a: string)
    requires a in s && s[a].eth.Some? && IsSelf(me, s[a].eth.value)
    ensures MergeOne(s, rp, me, true)[a] != s[a] <==>
      Accepted(s, rp, me, true) && !EthKnown(s, rp.eth) && s[a].pubkey == rp.pubkey
  {
    MergeOneRows(s, rp, me, true);
  }

  /** A failed fetch changes nothing, so nothing is deleted. */
  lemma FailedFetchChangesNothing(s: Store, bases: seq<string>, fetched: seq<Option<seq<RemotePeer>>>, me: Option<string>)
    requires |bases| == |fetched| && forall i :: 0 <= i < |fetched| ==> fetched[i].None?
    ensures Tick(s, bases, fetched, me) == s
  {
    if bases != [] {
      FailedFetchChangesNothing(s, bases[..|bases| - 1], fetched[..|bases| - 1], me);
    }
  }

  // ---------------------------------------------------------------- announcements that fit the table

  predicate DistinctKeys(es: seq<RemotePeer>) {
    forall i, j :: 0 <= i < j < |es| ==> es[i].pubkey != es[j].pubkey
  }

  /** A row of the announcement's Ethereum address has its key. */
  predicate RowFits(r: Row, rp: RemotePeer) {
    r.eth == Some(rp.eth) ==> r.pubkey == rp.pubkey
  }

  predicate Fits(s: Store, rp: RemotePeer) {
    forall a :: a in s ==> RowFits(s[a], rp)
  }

  predicate Apart(x: RemotePeer, y: RemotePeer) {
    x.pubkey != y.pubkey && x.eth != y.eth
  }

  predicate PassingAreApart(remote: seq<RemotePeer>, me: Option<string>) {
    forall i, j :: 0 <= i < j < |remote| && Passes(remote[i], me) && Passes(remote[j], me) ==> Apart(remote[i], remote[j])
  }

  /** The announcements that pass the filters fit the table, and no two share a key or an Ethereum address. */
  predicate ListFits(s: Store, remote: seq<RemotePeer>, me: Option<string>) {
    && PassingAreApart(remote, me)
    && forall i :: 0 <= i < |remote| && Passes(remote[i], me) ==> Fits(s, remote[i])
  }

  lemma FitTouches(s: Store, rp: RemotePeer, a: string)
    requires UniqueKeys(s) && Fits(s, rp) && a in s
    ensures Touches(s, rp, a) <==> s[a].pubkey == rp.pubkey
    ensures Known(s, rp) <==> KeyKnown(s, rp.pubkey)
  {
    if EthKnown(s, rp.eth) {
      var b :| b in s && s[b].eth == Some(rp.eth);
      assert s[b].pubkey == rp.pubkey;
    }
  }

  /** An announcement that fits is about the one row with its public key. */
  lemma StoredRows(s: Store, rp: RemotePeer)
    requires UniqueKeys(s) && Fits(s, rp)
    ensures var z := Stored(s, rp);
      && (forall a :: a in s ==> a in z && z[a] == if s[a].pubkey == rp.pubkey then Absorb(s[a], rp) else s[a])
      && (forall a :: a in z && a !in s ==> !KeyKnown(s, rp.pubkey) && a == rp.alias && z[a] == FreshRow(rp))
      && (!KeyKnown(s, rp.pubkey) ==> rp.alias in z)
  {
    forall a | a in s ensures Touches(s, rp, a) <==> s[a].pubkey == rp.pubkey
      ensures Known(s, rp) <==> KeyKnown(s, rp.pubkey)
    {
      FitTouches(s, rp, a);
    }
    if Known(s, rp) {
      KnownRows(s, rp);
    } else {
      NewRow(s, rp);
    }
  }

  lemma StoredFit(s: Store, rp: RemotePeer)
    requires UniqueKeys(s) && Fits(s, rp)
    ensures UniqueKeys(Stored(s, rp)) && Fits(Stored(s, rp), rp)
  {
    StoredRows(s, rp);
    var z := Stored(s, rp);
    assert forall a :: a in z && a !in s ==> z[a].pubkey == rp.pubkey && !KeyKnown(s, rp.pubkey);
    assert forall a :: a in s ==> z[a].pubkey == s[a].pubkey && RowFits(s[a], rp);
  }

  lemma StoringKeepsFit(s: Store, rp: RemotePeer, other: RemotePeer)
    requires UniqueKeys(s) && Fits(s, rp) && Fits(s, other) && Apart(rp, other)
    ensures Fits(Stored(s, rp), other)
  {
    StoredRows(s, rp);
    var z := Stored(s, rp);
    forall a | a in z ensures RowFits(z[a], other) {
      assert a in s ==> RowFits(s[a], other);
    }
  }

  lemma {:induction false} MergeKeepsFit(s: Store, remote: seq<RemotePeer>, me: Option<string>, rp: RemotePeer)
    requires UniqueKeys(s) && ListFits(s, remote, me) && Fits(s, rp)
    requires forall i :: 0 <= i < |remote| && Passes(remote[i], me) ==> remote[i] == rp || Apart(remote[i], rp)
    ensures UniqueKeys(Merge(s, remote, me, true)) && Fits(Merge(s, remote, me, true), rp)
  {
    if remote != [] {
      var n := |remote| - 1;
      var before, last := Merge(s, remote[..n], me, true), remote[n];
      assert forall i :: 0 <= i < n ==> remote[..n][i] == remote[i];
      MergeKeepsFit(s, remote[..n], me, rp);
      if Passes(last, me) {
        MergeKeepsFit(s, remote[..n], me, last);
        StoredFit(before, last);
        if last != rp {
          StoringKeepsFit(before, last, rp);
        }
      }
    }
  }

  // ---------------------------------------------------------------- consistent identities

  /** Public keys are written in lower-case hexadecimal. */
  predicate IsKey(p: string) {
    Lower(p) == p
  }

  /** An Ethereum address is derived from a public key: `eth` is that derivation. */
  ghost predicate Derives(eth: string -> string) {
    forall p, q :: KeysApart(eth, p, q)
  }

  predicate KeysApart(eth: string -> string, p: string, q: string) {
    IsKey(p) && IsKey(q) && Normal(eth(p)) == Normal(eth(q)) ==> p == q
  }

  predicate ConsistentStore(s: Store, eth: string -> string) {
    && UniqueKeys(s)
    && forall a :: a in s ==> IsKey(s[a].pubkey) && (s[a].eth.Some? ==> s[a].eth.value == eth(s[a].pubkey))
  }

  predicate ConsistentPeer(rp: RemotePeer, eth: string -> string) {
    IsKey(rp.pubkey) && rp.eth == eth(rp.pubkey)
  }

  predicate ConsistentList(remote: seq<RemotePeer>, eth: string -> string) {
    DistinctKeys(remote) && forall i :: 0 <= i < |remote| ==> ConsistentPeer(remote[i], eth)
  }

  /** Consistent identities fit. */
  lemma ConsistentFits(s: Store, rp: RemotePeer, eth: string -> string)
    requires Derives(eth) && ConsistentStore(s, eth) && ConsistentPeer(rp, eth)
    ensures Fits(s, rp)
  {
    forall a | a in s ensures RowFits(s[a], rp) {
      assert KeysApart(eth, s[a].pubkey, rp.pubkey);
    }
  }

  lemma ConsistentListFits(s: Store, remote: seq<RemotePeer>, me: Option<string>, eth: string -> string)
    requires Derives(eth) && ConsistentStore(s, eth) && ConsistentList(remote, eth)
    ensures ListFits(s, remote, me)
  {
    forall i | 0 <= i < |remote| ensures Fits(s, remote[i]) {
      ConsistentFits(s, remote[i], eth);
    }
    forall i, j | 0 <= i < j < |remote| ensures Apart(remote[i], remote[j]) {
      assert KeysApart(eth, remote[i].pubkey, remote[j].pubkey);
    }
  }

  /** With consistent identities an announcement is about the one row with its public key. */
  lemma MergeOneConsistent(s: Store, rp: RemotePeer, me: Option<string>, eth: string -> string)
    requires Derives(eth) && ConsistentStore(s, eth) && ConsistentPeer(rp, eth)
    ensures var z := MergeOne(s, rp, me, true); var ok := Accepted(s, rp, me, true);
      && ConsistentStore(z, eth)
      && (forall a :: a in s ==> a in z && z[a] == if ok && s[a].pubkey == rp.pubkey then Absorb(s[a], rp) else s[a])
      && (forall a :: a in z && a !in s ==> ok && !KeyKnown(s, rp.pubkey) && a == rp.alias && z[a] == FreshRow(rp))
      && (ok && !KeyKnown(s, rp.pubkey) ==> rp.alias in z)
  {
    ConsistentFits(s, rp, eth);
    StoredFit(s, rp);
    StoredRows(s, rp);
    var z := Stored(s, rp);
    forall a | a in z ensures IsKey(z[a].pubkey) && (z[a].eth.Some? ==> z[a].eth.value == eth(z[a].pubkey)) {
      assert a in s || z[a] == FreshRow(rp);
    }
  }

  // ---------------------------------------------------------------- what merging settles

  /** The announcement has nothing left to change: its row already shows it, or its alias belongs to another
      identity. */
  predicate Shown(s: Store, rp: RemotePeer) {
    || (exists a :: a in s && s[a].pubkey == rp.pubkey && s[a] == Absorb(s[a], rp))
    || (!KeyKnown(s, rp.pubkey) && rp.alias in s)
  }

  predicate Settled(s: Store, rp: RemotePeer, me: Option<string>) {
    Passes(rp, me) ==> Shown(s, rp)
  }

  lemma StoringShows(s: Store, rp: RemotePeer)
    requires UniqueKeys(s) && Fits(s, rp)
    ensures Shown(Stored(s, rp), rp)
  {
    StoredRows(s, rp);
    var z := Stored(s, rp);
    if KeyKnown(s, rp.pubkey) {
      var a :| a in s && s[a].pubkey == rp.pubkey;
      assert z[a] == Absorb(z[a], rp);
    } else if rp.alias !in s {
      assert z[rp.alias] == Absorb(z[rp.alias], rp);
    }
  }

  lemma OthersStayShown(s: Store, rp: RemotePeer, other: RemotePeer)
    requires UniqueKeys(s) && Fits(s, other) && Apart(other, rp) && Shown(s, rp)
    ensures Shown(Stored(s, other), rp)
  {
    StoredRows(s, other);
    var z := Stored(s, other);
    if a :| a in s && s[a].pubkey == rp.pubkey && s[a] == Absorb(s[a], rp) {
      assert z[a] == s[a];
    }
  }

  /** Storing an announcement settles it and keeps those of other identities settled. */
  lemma MergingSettles(s: Store, rp: RemotePeer, other: RemotePeer, me: Option<string>)
    requires UniqueKeys(s) && Fits(s, rp) && Passes(rp, me)
    requires other == rp || (Passes(other, me) ==> Apart(rp, other) && Shown(s, other))
    ensures Settled(MergeOne(s, rp, me, true), other, me)
  {
    if other == rp {
      StoringShows(s, rp);
    } else if Passes(other, me) {
      OthersStayShown(s, other, rp);
    }
  }

  lemma {:induction false} MergeSettlesAll(s: Store, remote: seq<RemotePeer>, me: Option<string>)
    requires UniqueKeys(s) && ListFits(s, remote, me)
    ensures forall i :: 0 <= i < |remote| ==> Settled(Merge(s, remote, me, true), remote[i], me)
  {
    if remote != [] {
      var n := |remote| - 1;
      var rest, last := remote[..n], remote[n];
      var before := Merge(s, rest, me, true);
      assert forall i :: 0 <= i < n ==> rest[i] == remote[i];
      MergeSettlesAll(s, rest, me);
      if Passes(last, me) {
        MergeKeepsFit(s, rest, me, last);
        forall i | 0 <= i <= n ensures Settled(MergeOne(before, last, me, true), remote[i], me) {
          if i < n {
            assert Settled(before, rest[i], me);
          }
          MergingSettles(before, last, remote[i], me);
        }
      }
    }
  }

  // ---------------------------------------------------------------- repeating a pull

  /** The announcement's Ethereum address is known, or neither is its key and its alias is taken. */
  predicate Quiet(s: Store, rp: RemotePeer) {
    EthKnown(s, rp.eth) || (!KeyKnown(s, rp.pubkey) && rp.alias in s)
  }

  predicate AllQuiet(s: Store, remote: seq<RemotePeer>, me: Option<string>) {
    forall i :: 0 <= i < |remote| && Passes(remote[i], me) ==> Quiet(s, remote[i])
  }

  /** The row after every announcement of its Ethereum address, in order. */
  function AbsorbAll(r: Row, remote: seq<RemotePeer>, me: Option<string>): (q: Row)
    ensures q.pubkey == r.pubkey && q.eth == r.eth
  {
    if remote == [] then r
    else
      var rp := remote[|remote| - 1];
      var q := AbsorbAll(r, remote[..|remote| - 1], me);
      if Passes(rp, me) && r.eth == Some(rp.eth) then Absorb(q, rp) else q
  }

  /** The same aliases with the same identities. */
  predicate SameIdentities(s: Store, z: Store) {
    z.Keys == s.Keys && forall a :: a in s ==> z[a].pubkey == s[a].pubkey && z[a].eth == s[a].eth
  }

  lemma SameKnown(s: Store, z: Store, rp: RemotePeer)
    requires SameIdentities(s, z)
    ensures EthKnown(z, rp.eth) <==> EthKnown(s, rp.eth)
    ensures KeyKnown(z, rp.pubkey) <==> KeyKnown(s, rp.pubkey)
  {
    assert forall a :: a in z ==> a in s;
    assert forall a :: a in s ==> a in z;
  }

  /** A quiet announcement updates the rows of its Ethereum address and nothing else. */
  lemma QuietStep(s: Store, rp: RemotePeer, me: Option<string>)
    requires Passes(rp, me) ==> Quiet(s, rp)
    ensures MergeOne(s, rp, me, true).Keys == s.Keys
    ensures forall a :: a in s ==>
      MergeOne(s, rp, me, true)[a] == if Passes(rp, me) && s[a].eth == Some(rp.eth) then Absorb(s[a], rp) else s[a]
  {
    MergeOneRows(s, rp, me, true);
    assert EthKnown(s, rp.eth) || forall a :: a in s ==> s[a].eth != Some(rp.eth);
  }

  /** Quiet announcements change no identity and update rows by Ethereum address only. */
  lemma {:induction false} QuietMerge(s: Store, remote: seq<RemotePeer>, me: Option<string>)
    requires AllQuiet(s, remote, me)
    ensures SameIdentities(s, Merge(s, remote, me, true))
    ensures forall a :: a in s ==> Merge(s, remote, me, true)[a] == AbsorbAll(s[a], remote, me)
  {
    if remote != [] {
      var n := |remote| - 1;
      var before := Merge(s, remote[..n], me, true);
      assert forall i :: 0 <= i < n ==> remote[..n][i] == remote[i];
      QuietMerge(s, remote[..n], me);
      SameKnown(s, before, remote[n]);
      QuietStep(before, remote[n], me);
      forall a | a in s ensures MergeOne(before, remote[n], me, true)[a] == AbsorbAll(s[a], remote, me) {
        assert before[a] == AbsorbAll(s[a], remote[..n], me);
      }
    }
  }

  predicate PassingKeysDiffer(remote: seq<RemotePeer>, me: Option<string>) {
    forall i, j :: 0 <= i < j < |remote| && Passes(remote[i], me) && Passes(remote[j], me) ==> remote[i].pubkey != remote[j].pubkey
  }

  /** Row `a` is new, or was given the announcement's Ethereum address through its key. */
  predicate Disturbed(s: Store, z: Store, a: string, rp: RemotePeer) {
    && a in z
    && (a in s ==> z[a].pubkey == rp.pubkey && z[a].eth == Some(rp.eth) && z[a].eth != s[a].eth)
  }

  lemma DisturbanceStarts(s: Store, before: Store, rp: RemotePeer, me: Option<string>) returns (a: string)
    requires SameIdentities(s, before) && Passes(rp, me) && !Quiet(s, rp)
    ensures Disturbed(s, MergeOne(before, rp, me, true), a, rp)
  {
    SameKnown(s, before, rp);
    MergeOneRows(before, rp, me, true);
    if KeyKnown(before, rp.pubkey) {
      a :| a in before && before[a].pubkey == rp.pubkey;
    } else {
      a := rp.alias;
    }
  }

  /** A moved row is not moved again by an announcement of another key. */
  lemma DisturbanceStays(s: Store, before: Store, rp: RemotePeer, last: RemotePeer, me: Option<string>, a: string)
    requires Disturbed(s, before, a, rp) && (Passes(last, me) ==> last.pubkey != rp.pubkey)
    ensures Disturbed(s, MergeOne(before, last, me, true), a, rp)
  {
    MergeOneRows(before, last, me, true);
    if a in s && Passes(last, me) && Touches(before, last, a) {
      assert EthKnown(before, last.eth);
    }
  }

  lemma {:induction false} NoiseDisturbs(s: Store, remote: seq<RemotePeer>, me: Option<string>) returns (a: string, i: nat)
    requires PassingKeysDiffer(remote, me) && !AllQuiet(s, remote, me)
    ensures i < |remote| && Passes(remote[i], me) && Disturbed(s, Merge(s, remote, me, true), a, remote[i])
  {
    var n := |remote| - 1;
    var before := Merge(s, remote[..n], me, true);
    assert forall i :: 0 <= i < n ==> remote[..n][i] == remote[i];
    if AllQuiet(s, remote[..n], me) {
      QuietMerge(s, remote[..n], me);
      i := n;
      a := DisturbanceStarts(s, before, remote[n], me);
    } else {
      a, i := NoiseDisturbs(s, remote[..n], me);
      DisturbanceStays(s, before, remote[i], remote[n], me, a);
    }
  }

  /** Exactly when merging a list changes nothing, for any table and any list whose accepted announcements have
      different keys: each is quiet, and each row already shows the announcements of its Ethereum address. */
  lemma MergeChangesNothingWhen(s: Store, remote: seq<RemotePeer>, me: Option<string>)
    requires PassingKeysDiffer(remote, me)
    ensures Merge(s, remote, me, true) == s <==>
      AllQuiet(s, remote, me) && forall a :: a in s ==> s[a] == AbsorbAll(s[a], remote, me)
  {
    if AllQuiet(s, remote, me) {
      QuietMerge(s, remote, me);
    } else {
      var a, i := NoiseDisturbs(s, remote, me);
    }
  }

  /** After one announcement the rows of its Ethereum address show it and the others are as before. */
  lemma MergedRowShows(s: Store, rp: RemotePeer, me: Option<string>, a: string)
    requires a in MergeOne(s, rp, me, true)
    ensures var z := MergeOne(s, rp, me, true);
      if Passes(rp, me) && z[a].eth == Some(rp.eth) then z[a] == Absorb(z[a], rp) else a in s && z[a] == s[a]
  {
    MergeOneRows(s, rp, me, true);
    if a in s && s[a].eth == Some(rp.eth) {
      assert EthKnown(s, rp.eth);
    }
  }

  /** After merging announcements of different Ethereum addresses, every row that bears one of them shows it. */
  lemma {:induction false} MergedRowsShow(s: Store, remote: seq<RemotePeer>, me: Option<string>, a: string, i: nat)
    requires PassingAreApart(remote, me) && i < |remote| && Passes(remote[i], me) && a in Merge(s, remote, me, true)
    requires Merge(s, remote, me, true)[a].eth == Some(remote[i].eth)
    ensures Merge(s, remote, me, true)[a] == Absorb(Merge(s, remote, me, true)[a], remote[i])
  {
    var n := |remote| - 1;
    MergedRowShows(Merge(s, remote[..n], me, true), remote[n], me, a);
    if i < n {
      assert forall j :: 0 <= j < n ==> remote[..n][j] == remote[j];
      assert Passes(remote[n], me) ==> Apart(remote[i], remote[n]);
      MergedRowsShow(s, remote[..n], me, a, i);
    }
  }

  lemma {:induction false} NothingToAbsorb(r: Row, remote: seq<RemotePeer>, me: Option<string>)
    requires forall i :: 0 <= i < |remote| && Passes(remote[i], me) && r.eth == Some(remote[i].eth) ==> r == Absorb(r, remote[i])
    ensures AbsorbAll(r, remote, me) == r
  {
    if remote != [] {
      var n := |remote| - 1;
      assert forall i :: 0 <= i < n ==> remote[..n][i] == remote[i];
      NothingToAbsorb(r, remote[..n], me);
    }
  }

  lemma PruneAgain(s: Store, base: string, remote: seq<RemotePeer>, me: Option<string>)
    ensures Prune(Pull(s, base, remote, me), base, remote, me) == Pull(s, base, remote, me)
  {
    var z := Pull(s, base, remote, me);
    if Host(base).Some? {
      forall a | a in z ensures !Prunable(z[a], Host(base).value, Advertised(remote), me) {
        if HostedAt(z[a], Host(base).value, me) {
          PullLeavesOnlyAdvertised(s, base, remote, me, a);
        }
      }
    }
  }

  /** Exactly when repeating a pull changes nothing: every accepted announcement meets a row of its Ethereum
      address, or no row of its key and its alias taken; and, where announcements share an Ethereum address, the
      rows already show all of them in order. */
  lemma PullRepeatsWhen(s: Store, base: string, remote: seq<RemotePeer>, me: Option<string>)
    requires PassingKeysDiffer(remote, me)
    ensures var z := Pull(s, base, remote, me);
      Pull(z, base, remote, me) == z <==>
        AllQuiet(z, remote, me) && forall a :: a in z ==> z[a] == AbsorbAll(z[a], remote, me)
    ensures var z := Pull(s, base, remote, me);
      PassingAreApart(remote, me) ==> (Pull(z, base, remote, me) == z <==> AllQuiet(z, remote, me))
  {
    var z := Pull(s, base, remote, me);
    PruneAgain(s, base, remote, me);
    MergeChangesNothingWhen(z, remote, me);
    if PassingAreApart(remote, me) {
      forall a | a in z ensures z[a] == AbsorbAll(z[a], remote, me) {
        forall i | 0 <= i < |remote| && Passes(remote[i], me) && z[a].eth == Some(remote[i].eth)
          ensures z[a] == Absorb(z[a], remote[i])
        {
          MergedRowsShow(Prune(s, base, remote, me), remote, me, a, i);
        }
        NothingToAbsorb(z[a], remote, me);
      }
    }
  }

  /** Repeating a pull changes nothing when, before the pull, no accepted announcement meets a row of its Ethereum
      address with another key, and no two share a key or an Ethereum address. */
  lemma PullIsIdempotent(s: Store, base: string, remote: seq<RemotePeer>, me: Option<string>)
    requires UniqueKeys(s) && ListFits(Prune(s, base, remote, me), remote, me)
    ensures Pull(Pull(s, base, remote, me), base, remote, me) == Pull(s, base, remote, me)
  {
    var z := Pull(s, base, remote, me);
    MergeSettlesAll(Prune(s, base, remote, me), remote, me);
    forall i | 0 <= i < |remote| && Passes(remote[i], me) ensures Quiet(z, remote[i]) {
      assert Settled(z, remote[i], me);
    }
    PullRepeatsWhen(s, base, remote, me);
  }

  lemma MergeTwo(s: Store, one: RemotePeer, two: RemotePeer, me: Option<string>)
    ensures Merge(s, [one, two], me, true) == MergeOne(MergeOne(s, one, me, true), two, me, true)
  {
    assert [one, two][..1] == [one];
    assert [one][..0] == [];
    assert Merge(s, [], me, true) == s;
    assert Merge(s, [one], me, true) == MergeOne(s, one, me, true);
  }

  /** A table of one row, which bears the key of one announcement and the Ethereum address of the other. */
  function Mixed(alias: string, pubkey: string, eth: string): Store {
    map[alias := Row(pubkey, Some(eth), "", None, Worker, None, None, None)]
  }

  /** A lone row takes on the announcement's fields when it bears its Ethereum address or key, and keeps its key. */
  lemma LoneRow(s: Store, z: string, rp: RemotePeer, me: Option<string>)
    requires s.Keys == {z} && Passes(rp, me) && (s[z].eth == Some(rp.eth) || s[z].pubkey == rp.pubkey)
    ensures MergeOne(s, rp, me, true) == map[z := Absorb(s[z], rp)]
  {
    assert z in s;
    assert EthKnown(s, rp.eth) || KeyKnown(s, rp.pubkey);
    assert Touches(s, rp, z) by {
      if EthKnown(s, rp.eth) {
        var a :| a in s && s[a].eth == Some(rp.eth);
        assert a == z;
      }
    }
    KnownRows(s, rp);
  }

  /** Two announcements pulled into such a table: the first updates the row by its Ethereum address, the second
      moves it to another one by its key. */
  lemma FirstPull(z: string, one: RemotePeer, two: RemotePeer, me: Option<string>)
    requires Passes(one, me) && Passes(two, me) && Apart(one, two)
    ensures var y := Merge(Mixed(z, two.pubkey, one.eth), [one, two], me, true);
      y.Keys == {z} && y[z].pubkey == two.pubkey && y[z].eth == Some(two.eth)
  {
    var s := Mixed(z, two.pubkey, one.eth);
    LoneRow(s, z, one, me);
    LoneRow(map[z := Absorb(s[z], one)], z, two, me);
    MergeTwo(s, one, two, me);
  }

  /** The next pull then adds the first announcement as a new row. */
  lemma SecondPull(z: string, y: Store, one: RemotePeer, two: RemotePeer, me: Option<string>)
    requires Passes(one, me) && Passes(two, me) && Apart(one, two) && one.alias != z
    requires y.Keys == {z} && y[z].pubkey == two.pubkey && y[z].eth == Some(two.eth)
    ensures one.alias in Merge(y, [one, two], me, true)
  {
    assert !EthKnown(y, one.eth) && !KeyKnown(y, one.pubkey);
    MergeOneRows(y, one, me, true);
    MergeOneRows(MergeOne(y, one, me, true), two, me, true);
    MergeTwo(y, one, two, me);
  }

  lemma AdvertisedStay(s: Store, base: string, remote: seq<RemotePeer>, me: Option<string>)
    requires forall a :: a in s ==> s[a].eth.Some? && Lists(remote, s[a].eth.value)
    ensures Prune(s, base, remote, me) == s
  {
  }

  /** Without that condition a repeated pull can go on changing the table. */
  lemma RepeatedPullAddsRow(z: string, base: string, one: RemotePeer, two: RemotePeer, me: Option<string>)
    requires Passes(one, me) && Passes(two, me) && Apart(one, two) && one.alias != z
    ensures var y := Pull(Mixed(z, two.pubkey, one.eth), base, [one, two], me);
      one.alias !in y && one.alias in Pull(y, base, [one, two], me)
  {
    var s := Mixed(z, two.pubkey, one.eth);
    assert Lists([one, two], one.eth) && Lists([one, two], two.eth) by {
      assert [one, two][0].eth == one.eth && [one, two][1].eth == two.eth;
    }
    AdvertisedStay(s, base, [one, two], me);
    FirstPull(z, one, two, me);
    var y := Pull(s, base, [one, two], me);
    AdvertisedStay(y, base, [one, two], me);
    SecondPull(z, y, one, two, me);
  }

  lemma TrimOfLetter(x: char)
    requires !Framing.IsSpace(x)
    ensures Framing.Trim([x]) == [x]
  {
    assert Framing.TrimStart([x]) == [x] && Framing.TrimEnd([x]) == [x];
  }

  /** An announcement whose address, Ethereum address and key are one letter each. */
  function Short(alias: string, address: char, eth: char, pubkey: char): RemotePeer {
    RemotePeer(alias, [pubkey], [eth], [address], None, "", None, None, None)
  }

  lemma ShortPasses(alias: string, address: char, eth: char, pubkey: char)
    requires !Framing.IsSpace(address) && !Framing.IsSpace(eth) && !Framing.IsSpace(pubkey)
    ensures Passes(Short(alias, address, eth, pubkey), None)
  {
    TrimOfLetter(address);
    TrimOfLetter(eth);
    TrimOfLetter(pubkey);
    assert forall part: string :: |part| > 1 ==> !Contains([address], part);
  }

  /** A concrete such table and list: row `z` of key P and Ethereum address 1, and announcements of key Q under 1
      and of key P under 2. */
  lemma PullIsNotAlwaysIdempotent()
    ensures var s, list := Mixed("z", "P", "1"), [Short("q", 'h', '1', 'Q'), Short("r", 'h', '2', 'P')];
      Pull(Pull(s, "h", list, None), "h", list, None) != Pull(s, "h", list, None)
  {
    var one, two := Short("q", 'h', '1', 'Q'), Short("r", 'h', '2', 'P');
    ShortPasses("q", 'h', '1', 'Q');
    ShortPasses("r", 'h', '2', 'P');
    RepeatedPullAddsRow("z", "h", one, two, None);
  }

  /** A row agrees with an announcement on every field the announcement sets. */
  predicate Shows(r: Row, rp: RemotePeer) {
    && r.pubkey == rp.pubkey && r.eth == Some(rp.eth) && r.address == rp.address && r.role == RoleOf(rp.role)
    && (rp.display.Some? ==> r.display == rp.display)
    && (rp.sid.Some? ==> r.sid == rp.sid)
    && (rp.status.Some? ==> r.status == rp.status)
    && (GuiOf(rp).Some? ==> r.gui == GuiOf(rp))
  }

  /** After a pull of announcements that fit, each that passes the filters is shown by the row of its identity,
      unless there is none because another identity holds its alias. */
  lemma PullAdopts(s: Store, base: string, remote: seq<RemotePeer>, me: Option<string>, i: nat)
    requires UniqueKeys(s) && ListFits(Prune(s, base, remote, me), remote, me)
    requires i < |remote| && Passes(remote[i], me)
    ensures var z := Pull(s, base, remote, me);
      || (exists a :: a in z && Shows(z[a], remote[i]))
      || (!KeyKnown(z, remote[i].pubkey) && remote[i].alias in z)
  {
    MergeSettlesAll(Prune(s, base, remote, me), remote, me);
    var z := Pull(s, base, remote, me);
    assert Settled(z, remote[i], me);
    if exists a :: a in z && z[a].pubkey == remote[i].pubkey && z[a] == Absorb(z[a], remote[i]) {
      var a :| a in z && z[a].pubkey == remote[i].pubkey && z[a] == Absorb(z[a], remote[i]);
      assert Shows(z[a], remote[i]);
    }
  }

  // ---------------------------------------------------------------- what a machine advertises

  /** What a machine knows about itself when it advertises: its Ethereum address, its address, the live terminal
      sessions, and the aliases its own keys let it drive. */
  datatype Local = Local(me: Option<string>, address: Option<string>, live: set<string>, drivable: set<string>)

  predicate IsTmux(sid: Option<string>) {
    sid.Some? && "tmux:" <= sid.value
  }

  function NonEmpty(t: Option<string>): Option<string> {
    if t == Some("") then None else t
  }

  function Entry(a: string, r: Row, eth: string, address: string): RemotePeer {
    RemotePeer(a, r.pubkey, eth, address, DeriveGui(address), RoleName(r.role), NonEmpty(r.display), NonEmpty(r.sid),
               NonEmpty(r.status))
  }

  function AdvertiseRow(a: string, r: Row, l: Local): Option<RemotePeer> {
    if Unreachable(r.address) || r.eth.None? || Blank(r.eth.value) || Blank(r.pubkey) then None
    else
      var eth := r.eth.value;
      var own := if l.address.Some? then l.address.value else r.address;
      if IsSelf(l.me, eth) then Some(Entry(a, r, eth, own))
      else if IsTmux(r.sid) then
        if r.sid.value in l.live then Some(Entry(a, r, eth, r.address)) else None
      else if a in l.drivable then
        if l.address.Some? && !SameAddress(r.address, l.address.value) then None else Some(Entry(a, r, eth, own))
      else if l.address.Some? && SameHost(l.address.value, r.address) then Some(Entry(a, r, eth, r.address))
      else None
  }

  /** The list a machine serves, in the order of its table. */
  function Advertise(s: Store, order: seq<string>, l: Local): seq<RemotePeer>
    requires forall a :: a in order ==> a in s
  {
    if order == [] then []
    else
      var last := order[|order| - 1];
      var entry := AdvertiseRow(last, s[last], l);
      Advertise(s, order[..|order| - 1], l) + if entry.Some? then [entry.value] else []
  }

  /** The address is on another host than this machine. */
  predicate RemoteHomed(own: Option<string>, address: string) {
    own.Some? && Host(address).Some? && !EqIgnoreCase(own.value, Host(address).value)
  }

  /** Exactly when a row homed elsewhere is advertised: it is the machine's own identity, its terminal session
      name is live here, or it is drivable here and its address spells this machine's up to slashes and case. */
  lemma RemoteHomedAdvertisedWhen(a: string, r: Row, l: Local)
    requires l.address.Some? && RemoteHomed(Host(l.address.value), r.address)
    ensures AdvertiseRow(a, r, l).Some? <==>
      && !Unreachable(r.address) && r.eth.Some? && !Blank(r.eth.value) && !Blank(r.pubkey)
      && (|| IsSelf(l.me, r.eth.value)
          || (IsTmux(r.sid) && r.sid.value in l.live)
          || (!IsTmux(r.sid) && a in l.drivable && SameAddress(r.address, l.address.value)))
  {
  }

  /** When the own address is known and well formed and terminal names do not collide, a row homed elsewhere that
      is not the machine's own identity is never advertised. */
  lemma RemoteHomedNotAdvertised(a: string, r: Row, l: Local)
    requires l.address.Some? && Tidy(l.address.value) && RemoteHomed(Host(l.address.value), r.address)
    requires r.eth.Some? ==> !IsSelf(l.me, r.eth.value)
    requires IsTmux(r.sid) ==> r.sid.value !in l.live
    ensures AdvertiseRow(a, r, l).None?
  {
    if SameAddress(r.address, l.address.value) {
      SameAddressBothTidy(l.address.value, r.address);
      SameAddressSameHost(l.address.value, r.address);
    }
  }

  lemma {:induction false} AdvertisedFrom(s: Store, order: seq<string>, l: Local, i: nat) returns (k: nat)
    requires (forall a :: a in order ==> a in s) && i < |Advertise(s, order, l)|
    ensures k < |order| && AdvertiseRow(order[k], s[order[k]], l) == Some(Advertise(s, order, l)[i])
  {
    var n := |order| - 1;
    var before := Advertise(s, order[..n], l);
    if i < |before| {
      k := AdvertisedFrom(s, order[..n], l, i);
    } else {
      k := n;
    }
  }

  /** An entry is made of its row; its address is the row's or, for the own identity or another spelling of it,
      the machine's. */
  lemma EntryFacts(a: string, r: Row, l: Local)
    requires AdvertiseRow(a, r, l).Some?
    ensures var e := AdvertiseRow(a, r, l).value;
      && r.eth == Some(e.eth) && e == Entry(a, r, e.eth, e.address)
      && (e.address == r.address || (l.address == Some(e.address) && (IsSelf(l.me, e.eth) || SameAddress(r.address, e.address))))
  {
  }

  /** Distinct rows give entries of distinct public keys. */
  lemma {:induction false} AdvertisedDistinct(s: Store, order: seq<string>, l: Local)
    requires UniqueKeys(s) && forall a :: a in order ==> a in s
    requires forall i, j :: 0 <= i < j < |order| ==> order[i] != order[j]
    ensures DistinctKeys(Advertise(s, order, l))
  {
    if order != [] {
      var n := |order| - 1;
      var rest, es := Advertise(s, order[..n], l), Advertise(s, order, l);
      AdvertisedDistinct(s, order[..n], l);
      assert order[n] in order;
      forall i | 0 <= i < |rest| ensures rest[i].pubkey != s[order[n]].pubkey {
        var k := AdvertisedFrom(s, order[..n], l, i);
        assert order[..n][k] == order[k] && order[k] in order;
        EntryFacts(order[k], s[order[k]], l);
      }
      if AdvertiseRow(order[n], s[order[n]], l).Some? {
        EntryFacts(order[n], s[order[n]], l);
        assert es == rest + [AdvertiseRow(order[n], s[order[n]], l).value];
      } else {
        assert es == rest;
      }
    }
  }

  // ---------------------------------------------------------------- pull candidates

  /** A base URL without trailing slashes and case. */
  function UrlKey(url: string): string {
    Lower(TrimSlashes(Framing.Trim(url)))
  }

  predicate Admissible(url: string, self: Option<string>) {
    var u := Framing.Trim(url);
    u != "" && !Unreachable(u) && !(self.Some? && Host(u).Some? && EqIgnoreCase(self.value, Host(u).value))
  }

  predicate IsSeparator(c: char) {
    c == ',' || c == ' ' || c == '\t' || c == '\n' || c == '\r'
  }

  /** The pieces between separators; empty ones are not admissible. */
  function Pieces(t: string): seq<string> {
    if t == "" then [""]
    else
      var rest := Pieces(t[1..]);
      if IsSeparator(t[0]) then [""] + rest else if rest == [] then [[t[0]]] else [[t[0]] + rest[0]] + rest[1..]
  }

  /** The URLs of the peer table, then those of the environment. */
  function AllUrls(table: seq<string>, bootstrap: Option<string>): seq<string> {
    table + if bootstrap.Some? then Pieces(bootstrap.value) else []
  }

  /** The keys of the accepted elements before position `k`. */
  function KeysBefore<T, K>(xs: seq<T>, ok: T -> bool, key: T -> K, k: nat): set<K>
    requires k <= |xs|
  {
    set j | 0 <= j < k && ok(xs[j]) :: key(xs[j])
  }

  /** Position `k` holds an accepted element and no earlier position holds one with its key. */
  predicate FirstOfItsKey<T, K(==)>(xs: seq<T>, ok: T -> bool, key: T -> K, k: nat)
    requires k < |xs|
  {
    ok(xs[k]) && key(xs[k]) !in KeysBefore(xs, ok, key, k)
  }

  /** The positions below `n` of first occurrences, in order. */
  function FirstPositions<T, K(==)>(xs: seq<T>, ok: T -> bool, key: T -> K, n: nat): (r: seq<nat>)
    requires n <= |xs|
    ensures forall i :: 0 <= i < |r| ==> r[i] < n
  {
    if n == 0 then []
    else
      var rest := FirstPositions(xs, ok, key, n - 1);
      if FirstOfItsKey(xs, ok, key, n - 1) then rest + [n - 1] else rest
  }

  /** The positions increase and are exactly those of first occurrences. */
  lemma {:induction false} PositionsAreFirstOccurrences<T, K>(xs: seq<T>, ok: T -> bool, key: T -> K, n: nat)
    requires n <= |xs|
    ensures var r := FirstPositions(xs, ok, key, n);
      && (forall i, j :: 0 <= i < j < |r| ==> r[i] < r[j])
      && (forall k: nat :: k in r <==> k < n && FirstOfItsKey(xs, ok, key, k))
  {
    if n > 0 {
      PositionsAreFirstOccurrences(xs, ok, key, n - 1);
    }
  }

  /** Every accepted element shares its key with exactly one of the positions. */
  lemma {:induction false} EachKeyHasOnePosition<T, K>(xs: seq<T>, ok: T -> bool, key: T -> K, n: nat, k: nat) returns (i: nat)
    requires k < n <= |xs| && ok(xs[k])
    ensures var r := FirstPositions(xs, ok, key, n);
      && i < |r| && key(xs[r[i]]) == key(xs[k])
      && forall j :: 0 <= j < |r| && key(xs[r[j]]) == key(xs[k]) ==> j == i
  {
    var rest := FirstPositions(xs, ok, key, n - 1);
    if k < n - 1 {
      i := EachKeyHasOnePosition(xs, ok, key, n - 1, k);
      assert key(xs[k]) in KeysBefore(xs, ok, key, n - 1);
    } else if FirstOfItsKey(xs, ok, key, k) {
      i := |rest|;
      PositionsAreFirstOccurrences(xs, ok, key, n - 1);
      forall j | 0 <= j < |rest| ensures key(xs[rest[j]]) != key(xs[k]) {
        assert rest[j] in rest;
        assert key(xs[rest[j]]) in KeysBefore(xs, ok, key, k);
      }
    } else {
      var j :| 0 <= j < k && ok(xs[j]) && key(xs[j]) == key(xs[k]);
      i := EachKeyHasOnePosition(xs, ok, key, n - 1, j);
    }
  }

  method IsCandidate(url: string, self: Option<string>) returns (ok: bool)
    ensures ok == Admissible(url, self)
  {
    var u := Framing.Trim(url);
    if u == "" || Unreachable(u) {
      return false;
    }
    var host := Host(u);
    if self.Some? && host.Some? {
      return !EqIgnoreCase(self.value, host.value);
    }
    return true;
  }

  function TrimmedAt(urls: seq<string>, positions: seq<nat>): seq<string>
    requires forall i :: 0 <= i < |positions| ==> positions[i] < |urls|
  {
    if positions == [] then []
    else TrimmedAt(urls, positions[..|positions| - 1]) + [Framing.Trim(urls[positions[|positions| - 1]])]
  }

  /** The distinct admissible URLs, trimmed, in order, each where it first occurs. */
  function Candidates(urls: seq<string>, self: Option<string>): seq<string> {
    TrimmedAt(urls, FirstPositions(urls, Filter(self), UrlKey, |urls|))
  }

  function Filter(self: Option<string>): string -> bool {
    u => Admissible(u, self)
  }

  method CombinePullCandidates(table: seq<string>, bootstrap: Option<string>, self: Option<string>) returns (out: seq<string>)
    ensures out == Candidates(AllUrls(table, bootstrap), self)
  {
    out := DistinctUrls(AllUrls(table, bootstrap), self, Filter(self));
  }

  method DistinctUrls(urls: seq<string>, self: Option<string>, ghost ok: string -> bool) returns (out: seq<string>)
    requires forall u :: ok(u) == Admissible(u, self)
    ensures out == TrimmedAt(urls, FirstPositions(urls, ok, UrlKey, |urls|))
  {
    var seen: set<string> := {};
    out := [];
    for k := 0 to |urls|
      invariant out == TrimmedAt(urls, FirstPositions(urls, ok, UrlKey, k))
      invariant seen == KeysBefore(urls, ok, UrlKey, k)
    {
      NextCandidate(urls, ok, UrlKey, k);
      var admissible := IsCandidate(urls[k], self);
      if admissible {
        var key := UrlKey(urls[k]);
        if key !in seen {
          seen := seen + {key};
          out := out + [Framing.Trim(urls[k])];
        }
      }
    }
  }

  lemma NextCandidate(urls: seq<string>, ok: string -> bool, key: string -> string, k: nat)
    requires k < |urls|
    ensures var first := ok(urls[k]) && key(urls[k]) !in KeysBefore(urls, ok, key, k);
      && KeysBefore(urls, ok, key, k + 1) == KeysBefore(urls, ok, key, k) + (if first then {key(urls[k])} else {})
      && TrimmedAt(urls, FirstPositions(urls, ok, key, k + 1))
         == if first then TrimmedAt(urls, FirstPositions(urls, ok, key, k)) + [Framing.Trim(urls[k])]
            else TrimmedAt(urls, FirstPositions(urls, ok, key, k))
  {
    var r := FirstPositions(urls, ok, key, k);
    assert (r + [k])[..|r|] == r;
  }
}
