/** What merging counts, what it does when it may not create rows, and what a machine advertises of each row. */
module Merging {
  import opened Prelude
  import opened Address
  import opened Gossip
  import Framing

  // ---------------------------------------------------------------- what is counted

  /** An accepted announcement is counted exactly when the table then has its Ethereum address. */
  lemma CountedWhen(s: Store, rp: RemotePeer, me: Option<string>, allowCreate: bool)
    ensures Takes(s, rp, me, allowCreate) <==>
      Accepted(s, rp, me, allowCreate) && EthKnown(MergeOne(s, rp, me, allowCreate), rp.eth)
    ensures !Takes(s, rp, me, allowCreate) ==> MergeOne(s, rp, me, allowCreate) == s
  {
    var z := MergeOne(s, rp, me, allowCreate);
    MergeOneRows(s, rp, me, allowCreate);
    if Accepted(s, rp, me, allowCreate) {
      if EthKnown(s, rp.eth) {
        var a :| a in s && s[a].eth == Some(rp.eth);
        assert z[a].eth == Some(rp.eth);
      } else if KeyKnown(s, rp.pubkey) {
        var a :| a in s && s[a].pubkey == rp.pubkey;
        assert z[a].eth == Some(rp.eth);
      } else if rp.alias !in s {
        assert z[rp.alias].eth == Some(rp.eth);
      } else {
        assert forall a :: a in s ==> s[a].eth != Some(rp.eth);
      }
    }
  }

  /** Announcement `i` of a list is counted, in the table the earlier ones left. */
  predicate CountedAt(s: Store, remote: seq<RemotePeer>, me: Option<string>, allowCreate: bool, i: nat)
    requires i < |remote|
  {
    Takes(Merge(s, remote[..i], me, allowCreate), remote[i], me, allowCreate)
  }

  function Positions(s: Store, remote: seq<RemotePeer>, me: Option<string>, allowCreate: bool): set<nat> {
    set i: nat | i < |remote| && CountedAt(s, remote, me, allowCreate, i)
  }

  lemma CountedEarlier(s: Store, remote: seq<RemotePeer>, me: Option<string>, allowCreate: bool, n: nat, i: nat)
    requires i < n <= |remote|
    ensures CountedAt(s, remote[..n], me, allowCreate, i) == CountedAt(s, remote, me, allowCreate, i)
  {
    assert remote[..n][..i] == remote[..i];
  }

  lemma PositionsGrow(s: Store, remote: seq<RemotePeer>, me: Option<string>, allowCreate: bool)
    requires remote != []
    ensures var n := |remote| - 1;
      Positions(s, remote, me, allowCreate)
        == Positions(s, remote[..n], me, allowCreate) + (if CountedAt(s, remote, me, allowCreate, n) then {n} else {})
  {
    var n := |remote| - 1;
    forall i: nat | i < n ensures CountedAt(s, remote[..n], me, allowCreate, i) == CountedAt(s, remote, me, allowCreate, i) {
      CountedEarlier(s, remote, me, allowCreate, n, i);
    }
  }

  /** The number a merge reports is the number of announcements counted, each in the table the earlier ones left. */
  lemma {:induction false} TakenCounts(s: Store, remote: seq<RemotePeer>, me: Option<string>, allowCreate: bool)
    ensures Taken(s, remote, me, allowCreate) == |Positions(s, remote, me, allowCreate)|
  {
    if remote == [] {
      assert Positions(s, remote, me, allowCreate) == {};
    } else {
      TakenCounts(s, remote[..|remote| - 1], me, allowCreate);
      PositionsGrow(s, remote, me, allowCreate);
    }
  }

  // ---------------------------------------------------------------- without creation

  /** When rows may not be created, an announcement is dropped unless its trimmed Ethereum address or its alias is in
      the table, and otherwise handled as ever. So a row is still created exactly when the address is in the table
      only in its trimmed spelling, and neither its key nor its alias is; never when it is announced trimmed. */
  lemma MergeWithoutCreation(s: Store, rp: RemotePeer, me: Option<string>)
    ensures MergeOne(s, rp, me, false) ==
      if EthKnown(s, Framing.Trim(rp.eth)) || rp.alias in s then MergeOne(s, rp, me, true) else s
    ensures MergeOne(s, rp, me, false).Keys != s.Keys <==>
      Passes(rp, me) && EthKnown(s, Framing.Trim(rp.eth)) && !EthKnown(s, rp.eth) && !KeyKnown(s, rp.pubkey) && rp.alias !in s
  {
    MergeOneRows(s, rp, me, false);
    var z := MergeOne(s, rp, me, false);
    if Accepted(s, rp, me, false) && !Known(s, rp) && rp.alias !in s {
      assert rp.alias in z.Keys && rp.alias !in s.Keys;
    } else {
      assert forall a :: a in z.Keys <==> a in s.Keys;
    }
  }

  /** Such an announcement: an address with a space before it, for which the table has the address alone. */
  lemma UntrimmedAddressIsCreated()
    ensures var s := Mixed("z", "P", "1"); var rp := Short("q", 'h', '1', 'Q').(eth := " 1");
      EthKnown(s, "1") && "q" !in s && "q" in MergeOne(s, rp, None, false)
  {
    var s := Mixed("z", "P", "1");
    var rp := Short("q", 'h', '1', 'Q').(eth := " 1");
    assert s["z"].eth == Some("1");
    assert " 1" == " " + "1" + "";
    Framing.TrimPadded(" ", "1", "");
    ShortPasses("q", 'h', '1', 'Q');
    TrimOfLetter('1');
    assert Passes(rp, None);
    assert forall a :: a in s ==> a == "z";
    assert rp.eth[0] == ' ' && "1"[0] == '1' && rp.pubkey[0] == 'Q' && "P"[0] == 'P';
    MergeWithoutCreation(s, rp, None);
    MergeOneRows(s, rp, None, false);
  }

  // ---------------------------------------------------------------- roles

  /** Roles are written as three words and read back; any other word reads as a worker. */
  lemma RolesAre(r: Role, name: string)
    ensures RoleOf(RoleName(r)) == r
    ensures RoleOf(name) == r && r != Worker ==> name == RoleName(r)
    ensures RoleName(Primary) == "primary" && RoleName(Secondary) == "secondary" && RoleName(Worker) == "worker"
    ensures RoleOf(name) == Worker <==> name != "primary" && name != "secondary"
  {
  }

  // ---------------------------------------------------------------- what is advertised

  /** The row can be reached from elsewhere and has an identity. */
  predicate Presentable(r: Row) {
    !Unreachable(r.address) && r.eth.Some? && Framing.Trim(r.eth.value) != "" && Framing.Trim(r.pubkey) != ""
  }

  /** The row is the machine's own, by its Ethereum address up to case and white space. */
  predicate Own(r: Row, l: Local) {
    l.me.Some? && r.eth.Some? && EqIgnoreCase(l.me.value, Framing.Trim(r.eth.value))
  }

  predicate Terminal(r: Row) {
    r.sid.Some? && |r.sid.value| >= 5 && r.sid.value[..5] == "tmux:"
  }

  function Filled(t: Option<string>): Option<string> {
    if t.Some? && |t.value| > 0 then t else None
  }

  /** Exactly which rows are advertised: presentable ones that are the machine's own, show a terminal session live here,
      are driven here and not known at another address, or else are at this machine's host. */
  lemma AdvertisedWhen(a: string, r: Row, l: Local)
    ensures AdvertiseRow(a, r, l).Some? <==>
      && Presentable(r)
      && (|| Own(r, l)
          || (Terminal(r) && r.sid.value in l.live)
          || (!Terminal(r) && a in l.drivable && (l.address.None? || SameAddress(r.address, l.address.value)))
          || (!Terminal(r) && a !in l.drivable && l.address.Some? && SameHost(l.address.value, r.address)))
  {
    assert Terminal(r) <==> IsTmux(r.sid);
  }

  /** What is advertised of a row: its fields, without those that are empty; for the machine's own row and one driven
      here the machine's address, if it is known; and the GUI of the address that is advertised. */
  lemma AdvertisedAs(a: string, r: Row, l: Local)
    requires AdvertiseRow(a, r, l).Some?
    ensures var e := AdvertiseRow(a, r, l).value;
      && e.alias == a && e.pubkey == r.pubkey && Some(e.eth) == r.eth && RoleOf(e.role) == r.role
      && e.display == Filled(r.display) && e.sid == Filled(r.sid) && e.status == Filled(r.status)
      && e.address == (if l.address.Some? && (Own(r, l) || (!Terminal(r) && a in l.drivable)) then l.address.value else r.address)
      && e.gui == DeriveGui(e.address)
  {
    assert Terminal(r) <==> IsTmux(r.sid);
    RolesAre(r.role, "");
  }

  // ---------------------------------------------------------------- the URLs of the environment

  /** Comma, space, tab, line feed and carriage return, by their codes. */
  predicate Separates(c: char) {
    c as int in {44, 32, 9, 10, 13}
  }

  /** The URLs of the environment are the pieces between separators. */
  lemma {:induction false} PiecesAre(piece: string, sep: char, rest: string)
    requires (forall i :: 0 <= i < |piece| ==> !Separates(piece[i])) && Separates(sep)
    ensures Pieces(piece) == [piece]
    ensures Pieces(piece + [sep] + rest) == [piece] + Pieces(rest)
  {
    if piece == "" {
      assert piece + [sep] + rest == [sep] + rest;
      assert ([sep] + rest)[1..] == rest;
    } else {
      PiecesAre(piece[1..], sep, rest);
      assert (piece + [sep] + rest)[1..] == piece[1..] + [sep] + rest;
      assert [piece[0]] + piece[1..] == piece;
      assert ([piece[1..]] + Pieces(rest))[1..] == Pieces(rest);
    }
  }
}
