/** Gossip between any number of machines. Every identity has one home machine; the fields of its row are set
    there and travel by pulls of what each machine advertises. */
module Fleet {
  import opened Prelude
  import opened Address
  import opened Gossip
  import Framing

  /** The fixed facts of a fleet: the address and own Ethereum address of each machine, the home of each public
      key, the derivation of Ethereum addresses, and the normalised host of every address. */
  datatype Net = Net(
    addr: seq<string>,
    me: seq<Option<string>>,
    home: string -> nat,
    eth: string -> string,
    host: string -> string)

  /** The host of an address in lower case, or nothing. */
  function HostKey(address: string): string {
    var host := Host(address);
    if host.Some? then Lower(host.value) else ""
  }

  predicate KeyIs(c: Net, address: string) {
    c.host(address) == HostKey(address)
  }

  /** Both addresses have a host, and it is the same up to case. */
  predicate Near(c: Net, a: string, b: string) {
    c.host(a) == c.host(b) && c.host(a) != ""
  }

  /** `Near` is what the code's comparison of hosts says. */
  lemma NearIsSameHost(c: Net, a: string, b: string)
    requires KeyIs(c, a) && KeyIs(c, b)
    ensures Near(c, a, b) <==> SameHost(a, b)
    ensures c.host(a) == "" <==> Host(a).None?
  {
    KeyOf(a);
    KeyOf(b);
  }

  lemma KeyOf(a: string)
    ensures HostKey(a) == "" <==> Host(a).None?
    ensures Host(a).Some? ==> HostKey(a) == Lower(Host(a).value)
  {
    if Host(a).Some? {
      assert |Lower(Host(a).value)| == |Host(a).value|;
    }
  }

  /** Every machine knows a well-formed address of its own, no two are on the same host, and a machine's own
      identity is at home there. */
  ghost predicate ValidNet(c: Net) {
    && |c.addr| == |c.me| && Derives(c.eth)
    && (forall a :: KeyIs(c, a))
    && (forall m :: AddressOk(c, m))
    && (forall m, n :: HostsApart(c, m, n))
    && (forall pk :: c.home(pk) < |c.addr|)
    && (forall m, pk :: SelfAtHome(c, m, pk))
  }

  predicate AddressOk(c: Net, m: int) {
    0 <= m < |c.addr| ==> Tidy(c.addr[m]) && c.host(c.addr[m]) != ""
  }

  predicate HostsApart(c: Net, m: int, n: int) {
    0 <= m < |c.addr| && 0 <= n < |c.addr| && Near(c, c.addr[m], c.addr[n]) ==> m == n
  }

  predicate SelfAtHome(c: Net, m: int, pk: string) {
    0 <= m < |c.me| && IsKey(pk) && IsSelf(c.me[m], c.eth(pk)) ==> c.home(pk) == m
  }

  // ---------------------------------------------------------------- such fleets exist

  lemma HostOfLetter(x: char)
    requires 'a' <= x <= 'z'
    ensures HostKey([x]) == [x] && Tidy([x])
  {
    assert FindSep([x]) == 1;
    assert UntilSlash([x]) == [x];
    assert Framing.TrimStart([x]) == [x] && Framing.TrimEnd([x]) == [x];
    assert Lower([x]) == [x];
  }

  /** A derivation that keeps keys apart, for the examples. */
  function Marked(pk: string): string {
    "x" + pk + "x"
  }

  lemma MarkedIsNormal(pk: string)
    requires IsKey(pk)
    ensures Lower(Marked(pk)) == Marked(pk) && Normal(Marked(pk)) == Marked(pk)
  {
    var t := Marked(pk);
    assert t[0] == 'x' && t[|t| - 1] == 'x';
    assert forall i :: 0 < i < |t| - 1 ==> t[i] == pk[i - 1] && Lower(pk)[i - 1] == pk[i - 1];
    assert Lower(t) == t;
  }

  lemma MarkedDerives(pk: string, qk: string)
    ensures KeysApart(Marked, pk, qk)
  {
    if IsKey(pk) && IsKey(qk) {
      MarkedIsNormal(pk);
      MarkedIsNormal(qk);
      assert Marked(pk)[1..|pk| + 1] == pk && Marked(qk)[1..|qk| + 1] == qk;
    }
  }

  /** Two machines, each the home of its own identity and the first of every other. */
  function TwoMachines(p: string, q: string): Net {
    Net(["a", "b"], [Some(Marked(p)), Some(Marked(q))], pk => if pk == q then 1 else 0, Marked, HostKey)
  }

  lemma OwnKeyAtHome(p: string, q: string, m: int, pk: string)
    requires IsKey(p) && IsKey(q) && p != q
    ensures SelfAtHome(TwoMachines(p, q), m, pk)
  {
    if IsKey(pk) {
      MarkedIsNormal(p);
      MarkedIsNormal(q);
      MarkedIsNormal(pk);
      MarkedDerives(pk, p);
      MarkedDerives(pk, q);
    }
  }

  /** The assumptions about fleets can be met, with any two keys at home on different machines. */
  lemma FleetsExist(p: string, q: string)
    requires IsKey(p) && IsKey(q) && p != q
    ensures var c := TwoMachines(p, q);
      ValidNet(c) && c.home(p) == 0 && c.home(q) == 1 && IsSelf(c.me[0], c.eth(p)) && IsSelf(c.me[1], c.eth(q))
  {
    var c := TwoMachines(p, q);
    HostOfLetter('a');
    HostOfLetter('b');
    MarkedIsNormal(p);
    MarkedIsNormal(q);
    forall pk, qk ensures KeysApart(c.eth, pk, qk) {
      MarkedDerives(pk, qk);
    }
    forall m, n ensures HostsApart(c, m, n) {
    }
    forall m, pk ensures SelfAtHome(c, m, pk) {
      OwnKeyAtHome(p, q, m, pk);
    }
  }

  datatype Value = RoleIs(role: Role) | NameIs(name: string) | SidIs(sid: string) | StatusIs(status: string)

  /** At its home `at`, the identity's field was set to a value. */
  datatype Fact = Fact(at: nat, pubkey: string, value: Value)

  datatype Snapshot = Snapshot(source: nat, base: string, entries: seq<RemotePeer>)

  datatype World = World(stores: seq<Store>, snapshots: seq<Snapshot>, history: set<Fact>)

  datatype Step =
    | HomeWrite(m: nat, alias: string, row: Row)
    | Delete(m: nat, alias: string)
    | Fetch(source: nat, base: string, order: seq<string>, live: set<string>, drivable: set<string>)
    | Apply(m: nat, k: nat)

  /** The facts a row states about its identity. */
  function FactsOf(at: nat, r: Row): set<Fact> {
    {Fact(at, r.pubkey, RoleIs(r.role))}
    + (if r.display.Some? then {Fact(at, r.pubkey, NameIs(r.display.value))} else {})
    + (if r.sid.Some? then {Fact(at, r.pubkey, SidIs(r.sid.value))} else {})
    + (if r.status.Some? then {Fact(at, r.pubkey, StatusIs(r.status.value))} else {})
  }

  function LocalOf(c: Net, m: nat, live: set<string>, drivable: set<string>): Local
    requires m < |c.addr| == |c.me|
  {
    Local(c.me[m], Some(c.addr[m]), live, drivable)
  }

  ghost predicate Enabled(c: Net, w: World, step: Step) {
    && |w.stores| == |c.addr| == |c.me|
    && match step
       case HomeWrite(m, alias, row) =>
         && m < |w.stores| && IsKey(row.pubkey) && c.home(row.pubkey) == m && Near(c, row.address, c.addr[m])
         && (row.eth.Some? ==> row.eth.value == c.eth(row.pubkey))
         && (alias in w.stores[m] ==> w.stores[m][alias].pubkey == row.pubkey)
         && (forall a :: a in w.stores[m] && a != alias ==> w.stores[m][a].pubkey != row.pubkey)
       case Delete(m, alias) => m < |w.stores|
       case Fetch(b, base, order, live, drivable) =>
         && b < |w.stores| && Near(c, base, c.addr[b])
         && (forall a :: a in order <==> a in w.stores[b]) && (forall i, j :: 0 <= i < j < |order| ==> order[i] != order[j])
       case Apply(m, k) => m < |w.stores| && k < |w.snapshots| && w.snapshots[k].source != m
  }

  function Next(c: Net, w: World, step: Step): World
    requires Enabled(c, w, step)
  {
    match step
    case HomeWrite(m, alias, row) =>
      w.(stores := w.stores[m := w.stores[m][alias := row]], history := w.history + FactsOf(m, row))
    case Delete(m, alias) => w.(stores := w.stores[m := w.stores[m] - {alias}])
    case Fetch(b, base, order, live, drivable) =>
      w.(snapshots := w.snapshots + [Snapshot(b, base, Advertise(w.stores[b], order, LocalOf(c, b, live, drivable)))])
    case Apply(m, k) =>
      var snap := w.snapshots[k];
      w.(stores := w.stores[m := Pull(w.stores[m], snap.base, snap.entries, c.me[m])])
  }

  ghost predicate Reaches(c: Net, w: World, steps: seq<Step>, z: World)
    decreases |steps|
  {
    if steps == [] then w == z else Enabled(c, w, steps[0]) && Reaches(c, Next(c, w, steps[0]), steps[1..], z)
  }

  function EmptyWorld(c: Net): World {
    World(seq(|c.addr|, i => map[]), [], {})
  }

  // ---------------------------------------------------------------- the invariant

  /** A row: its key is in lower case, its Ethereum address is its key's, its address is on its home's host, and every field it states was
      set at its home. */
  ghost predicate RowOk(c: Net, history: set<Fact>, r: Row)
    requires ValidNet(c)
  {
    && IsKey(r.pubkey) && (r.eth.Some? ==> r.eth.value == c.eth(r.pubkey))
    && Near(c, r.address, c.addr[c.home(r.pubkey)])
    && FactsOf(c.home(r.pubkey), r) <= history
  }

  ghost predicate StoreOk(c: Net, history: set<Fact>, s: Store)
    requires ValidNet(c)
  {
    UniqueKeys(s) && forall a :: a in s ==> RowOk(c, history, s[a])
  }

  ghost predicate SnapshotOk(c: Net, history: set<Fact>, snap: Snapshot)
    requires ValidNet(c)
  {
    && snap.source < |c.addr| && Near(c, snap.base, c.addr[snap.source])
    && EntriesOk(c, history, snap.entries)
    && DistinctKeys(snap.entries)
  }

  ghost predicate Inv(c: Net, w: World) {
    && ValidNet(c) && |w.stores| == |c.addr|
    && (forall f :: f in w.history ==> f.at == c.home(f.pubkey))
    && (forall m :: 0 <= m < |w.stores| ==> StoreOk(c, w.history, w.stores[m]))
    && (forall k :: 0 <= k < |w.snapshots| ==> SnapshotOk(c, w.history, w.snapshots[k]))
  }

  // ---------------------------------------------------------------- every step keeps it

  lemma OkGrows(c: Net, h: set<Fact>, g: set<Fact>, s: Store)
    requires ValidNet(c) && h <= g && StoreOk(c, h, s)
    ensures StoreOk(c, g, s)
  {
    forall a | a in s ensures RowOk(c, g, s[a]) {
      assert RowOk(c, h, s[a]);
    }
  }

  lemma SnapshotGrows(c: Net, h: set<Fact>, g: set<Fact>, snap: Snapshot)
    requires ValidNet(c) && h <= g && SnapshotOk(c, h, snap)
    ensures SnapshotOk(c, g, snap)
  {
    forall i | 0 <= i < |snap.entries|
      ensures ConsistentPeer(snap.entries[i], c.eth) && RowOk(c, g, FreshRow(snap.entries[i]))
    {
      assert RowOk(c, h, FreshRow(snap.entries[i]));
    }
  }

  lemma HomeWriteKeepsInv(c: Net, w: World, m: nat, alias: string, row: Row)
    requires Inv(c, w) && Enabled(c, w, HomeWrite(m, alias, row))
    ensures Inv(c, Next(c, w, HomeWrite(m, alias, row)))
  {
    var z := Next(c, w, HomeWrite(m, alias, row));
    forall n | 0 <= n < |z.stores| ensures StoreOk(c, z.history, z.stores[n]) {
      OkGrows(c, w.history, z.history, w.stores[n]);
      if n == m {
        assert RowOk(c, z.history, row);
        forall a | a in z.stores[n] ensures RowOk(c, z.history, z.stores[n][a]) {
          assert a != alias ==> RowOk(c, z.history, w.stores[n][a]);
        }
      }
    }
    forall k | 0 <= k < |z.snapshots| ensures SnapshotOk(c, z.history, z.snapshots[k]) {
      SnapshotGrows(c, w.history, z.history, w.snapshots[k]);
    }
  }

  lemma DeleteKeepsInv(c: Net, w: World, m: nat, alias: string)
    requires Inv(c, w) && Enabled(c, w, Delete(m, alias))
    ensures Inv(c, Next(c, w, Delete(m, alias)))
  {
    var z := Next(c, w, Delete(m, alias));
    forall n | 0 <= n < |z.stores| ensures StoreOk(c, z.history, z.stores[n]) {
      assert StoreOk(c, w.history, w.stores[n]);
    }
  }

  /** What absorbing or adding an announced row states was stated by the announcement or by the row. */
  lemma AbsorbKeepsOk(c: Net, h: set<Fact>, r: Row, rp: RemotePeer)
    requires ValidNet(c) && RowOk(c, h, r) && RowOk(c, h, FreshRow(rp)) && r.pubkey == rp.pubkey
    ensures RowOk(c, h, Absorb(r, rp))
  {
    var at := c.home(r.pubkey);
    forall f | f in FactsOf(at, Absorb(r, rp)) ensures f in h {
      assert f in FactsOf(at, r) || f in FactsOf(at, FreshRow(rp));
    }
  }

  ghost predicate EntriesOk(c: Net, h: set<Fact>, es: seq<RemotePeer>)
    requires ValidNet(c)
  {
    forall i :: 0 <= i < |es| ==> ConsistentPeer(es[i], c.eth) && RowOk(c, h, FreshRow(es[i]))
  }

  lemma {:induction false} MergeKeepsOk(c: Net, h: set<Fact>, s: Store, remote: seq<RemotePeer>, me: Option<string>)
    requires ValidNet(c) && StoreOk(c, h, s) && EntriesOk(c, h, remote)
    ensures StoreOk(c, h, Merge(s, remote, me, true))
  {
    if remote != [] {
      var n := |remote| - 1;
      assert EntriesOk(c, h, remote[..n]);
      MergeKeepsOk(c, h, s, remote[..n], me);
      MergeOneKeepsOk(c, h, Merge(s, remote[..n], me, true), remote[n], me);
    }
  }

  lemma ConsistentIfOk(c: Net, h: set<Fact>, s: Store)
    requires ValidNet(c) && StoreOk(c, h, s)
    ensures ConsistentStore(s, c.eth)
  {
    forall a | a in s ensures IsKey(s[a].pubkey) && (s[a].eth.Some? ==> s[a].eth.value == c.eth(s[a].pubkey)) {
      assert RowOk(c, h, s[a]);
    }
  }

  lemma MergeOneKeepsOk(c: Net, h: set<Fact>, s: Store, rp: RemotePeer, me: Option<string>)
    requires ValidNet(c) && StoreOk(c, h, s) && ConsistentPeer(rp, c.eth) && RowOk(c, h, FreshRow(rp))
    ensures StoreOk(c, h, MergeOne(s, rp, me, true))
  {
    ConsistentIfOk(c, h, s);
    MergeOneConsistent(s, rp, me, c.eth);
    var z := MergeOne(s, rp, me, true);
    forall a | a in z ensures RowOk(c, h, z[a]) {
      if a in s {
        assert RowOk(c, h, s[a]);
        if s[a].pubkey == rp.pubkey {
          AbsorbKeepsOk(c, h, s[a], rp);
        }
      }
    }
  }

  lemma ApplyKeepsInv(c: Net, w: World, m: nat, k: nat)
    requires Inv(c, w) && Enabled(c, w, Apply(m, k))
    ensures Inv(c, Next(c, w, Apply(m, k)))
  {
    var snap := w.snapshots[k];
    var pruned := Prune(w.stores[m], snap.base, snap.entries, c.me[m]);
    assert SnapshotOk(c, w.history, snap);
    assert StoreOk(c, w.history, w.stores[m]);
    assert StoreOk(c, w.history, pruned) by {
      forall a | a in pruned ensures RowOk(c, w.history, pruned[a]) {
        assert RowOk(c, w.history, w.stores[m][a]);
      }
    }
    MergeKeepsOk(c, w.history, pruned, snap.entries, c.me[m]);
    var z := Next(c, w, Apply(m, k));
    forall n | 0 <= n < |z.stores| ensures StoreOk(c, z.history, z.stores[n]) {
      assert StoreOk(c, w.history, w.stores[n]);
    }
  }

  /** The machine's address stands for a row's address only where they are on the same host. */
  lemma AdvertisedAddress(c: Net, h: set<Fact>, b: nat, r: Row, address: string)
    requires ValidNet(c) && b < |c.addr| && RowOk(c, h, r) && r.eth.Some?
    requires address == r.address || (address == c.addr[b] && (IsSelf(c.me[b], r.eth.value) || SameAddress(r.address, address)))
    ensures Near(c, address, c.addr[c.home(r.pubkey)])
  {
    assert AddressOk(c, b) && SelfAtHome(c, b, r.pubkey);
    if address != r.address && !IsSelf(c.me[b], r.eth.value) {
      SameAddressBothTidy(c.addr[b], r.address);
      SameAddressSameHost(c.addr[b], r.address);
      assert KeyIs(c, c.addr[b]) && KeyIs(c, r.address);
      NearIsSameHost(c, c.addr[b], r.address);
    }
  }

  lemma EntryStatesRow(at: nat, a: string, r: Row, eth: string, address: string)
    ensures FactsOf(at, FreshRow(Entry(a, r, eth, address))) <= FactsOf(at, r)
  {
    assert RoleOf(RoleName(r.role)) == r.role;
  }

  /** The one entry a row of a valid store gives rise to. */
  lemma AdvertisedRowOk(c: Net, h: set<Fact>, b: nat, a: string, r: Row, live: set<string>, drivable: set<string>)
    requires ValidNet(c) && b < |c.addr| && RowOk(c, h, r)
    requires AdvertiseRow(a, r, LocalOf(c, b, live, drivable)).Some?
    ensures var e := AdvertiseRow(a, r, LocalOf(c, b, live, drivable)).value;
      e.pubkey == r.pubkey && ConsistentPeer(e, c.eth) && RowOk(c, h, FreshRow(e))
  {
    var e := AdvertiseRow(a, r, LocalOf(c, b, live, drivable)).value;
    EntryFacts(a, r, LocalOf(c, b, live, drivable));
    AdvertisedAddress(c, h, b, r, e.address);
    EntryStatesRow(c.home(r.pubkey), a, r, e.eth, e.address);
  }

  lemma AdvertiseOk(c: Net, h: set<Fact>, b: nat, s: Store, order: seq<string>, live: set<string>, drivable: set<string>)
    requires ValidNet(c) && b < |c.addr| && StoreOk(c, h, s) && forall a :: a in order ==> a in s
    ensures EntriesOk(c, h, Advertise(s, order, LocalOf(c, b, live, drivable)))
  {
    var l := LocalOf(c, b, live, drivable);
    var es := Advertise(s, order, l);
    forall i | 0 <= i < |es| ensures ConsistentPeer(es[i], c.eth) && RowOk(c, h, FreshRow(es[i])) {
      var k := AdvertisedFrom(s, order, l, i);
      assert order[k] in order;
      assert RowOk(c, h, s[order[k]]);
      AdvertisedRowOk(c, h, b, order[k], s[order[k]], live, drivable);
    }
  }

  lemma FetchedOk(c: Net, h: set<Fact>, s: Store, b: nat, base: string, order: seq<string>, live: set<string>, drivable: set<string>)
    requires ValidNet(c) && b < |c.addr| && StoreOk(c, h, s) && Near(c, base, c.addr[b])
    requires forall a :: a in order ==> a in s
    requires forall i, j :: 0 <= i < j < |order| ==> order[i] != order[j]
    ensures SnapshotOk(c, h, Snapshot(b, base, Advertise(s, order, LocalOf(c, b, live, drivable))))
  {
    AdvertiseOk(c, h, b, s, order, live, drivable);
    AdvertisedDistinct(s, order, LocalOf(c, b, live, drivable));
  }

  lemma FetchKeepsInv(c: Net, w: World, b: nat, base: string, order: seq<string>, live: set<string>, drivable: set<string>)
    requires Inv(c, w) && Enabled(c, w, Fetch(b, base, order, live, drivable))
    ensures Inv(c, Next(c, w, Fetch(b, base, order, live, drivable)))
  {
    FetchedOk(c, w.history, w.stores[b], b, base, order, live, drivable);
    var z := Next(c, w, Fetch(b, base, order, live, drivable));
    forall k | 0 <= k < |z.snapshots| ensures SnapshotOk(c, z.history, z.snapshots[k]) {
      if k < |w.snapshots| {
        assert z.snapshots[k] == w.snapshots[k];
      }
    }
  }

  lemma StepKeepsInv(c: Net, w: World, step: Step)
    requires Inv(c, w) && Enabled(c, w, step)
    ensures Inv(c, Next(c, w, step))
  {
    match step {
      case HomeWrite(m, alias, row) => HomeWriteKeepsInv(c, w, m, alias, row);
      case Delete(m, alias) => DeleteKeepsInv(c, w, m, alias);
      case Fetch(b, base, order, live, drivable) => FetchKeepsInv(c, w, b, base, order, live, drivable);
      case Apply(m, k) => ApplyKeepsInv(c, w, m, k);
    }
  }

  lemma {:induction false} RunKeepsInv(c: Net, w: World, steps: seq<Step>, z: World)
    requires Inv(c, w) && Reaches(c, w, steps, z)
    ensures Inv(c, z)
    decreases |steps|
  {
    if steps != [] {
      StepKeepsInv(c, w, steps[0]);
      RunKeepsInv(c, Next(c, w, steps[0]), steps[1..], z);
    }
  }

  // ---------------------------------------------------------------- provenance

  lemma EmptyInv(c: Net)
    requires ValidNet(c)
    ensures Inv(c, EmptyWorld(c)) && OwnSnapshots(c, EmptyWorld(c))
  {
  }

  /** In every run, every role, display name and session field of any machine's row was at some time set at the
      home of its identity, and its address is on the host of that home. */
  lemma FieldsComeFromHome(c: Net, steps: seq<Step>, w: World, m: nat, a: string, f: Fact)
    requires ValidNet(c) && Reaches(c, EmptyWorld(c), steps, w) && m < |w.stores| && a in w.stores[m]
    requires f in FactsOf(c.home(w.stores[m][a].pubkey), w.stores[m][a])
    ensures exists i :: 0 <= i < |steps| && WritesAtHome(c, steps[i], f)
    ensures Near(c, w.stores[m][a].address, c.addr[c.home(w.stores[m][a].pubkey)])
  {
    EmptyInv(c);
    RunKeepsInv(c, EmptyWorld(c), steps, w);
    assert StoreOk(c, w.history, w.stores[m]);
    assert RowOk(c, w.history, w.stores[m][a]);
    var i := FactWasWritten(c, EmptyWorld(c), steps, w, f);
  }

  /** The step sets the field, at the home of its identity. */
  predicate WritesAtHome(c: Net, step: Step, f: Fact) {
    step.HomeWrite? && step.m == f.at == c.home(f.pubkey) && f in FactsOf(f.at, step.row)
  }

  /** A fact of the history that was not there at the start was written by a home edit of the run. */
  lemma {:induction false} FactWasWritten(c: Net, w: World, steps: seq<Step>, z: World, f: Fact) returns (i: nat)
    requires Reaches(c, w, steps, z) && f in z.history && f !in w.history
    ensures i < |steps| && WritesAtHome(c, steps[i], f)
    decreases |steps|
  {
    var step := steps[0];
    var next := Next(c, w, step);
    if f in next.history {
      i := 0;
    } else {
      var j := FactWasWritten(c, next, steps[1..], z, f);
      assert steps[1..][j] == steps[j + 1];
      i := j + 1;
    }
  }

  // ---------------------------------------------------------------- ownership

  /** No row homed elsewhere carries a terminal session name that is live on the machine it is fetched from. */
  ghost predicate NoCollision(c: Net, w: World, step: Step)
    requires Enabled(c, w, step)
  {
    step.Fetch? ==> forall a :: a in w.stores[step.source] && c.home(w.stores[step.source][a].pubkey) != step.source
                      && IsTmux(w.stores[step.source][a].sid)
                      ==> w.stores[step.source][a].sid.value !in step.live
  }

  ghost predicate Orderly(c: Net, w: World, steps: seq<Step>, z: World)
    decreases |steps|
  {
    if steps == [] then w == z
    else Enabled(c, w, steps[0]) && NoCollision(c, w, steps[0]) && Orderly(c, Next(c, w, steps[0]), steps[1..], z)
  }

  /** Every snapshot holds only identities at home on the machine it came from. */
  ghost predicate OwnSnapshots(c: Net, w: World) {
    forall k, i :: 0 <= k < |w.snapshots| && 0 <= i < |w.snapshots[k].entries| ==>
      c.home(w.snapshots[k].entries[i].pubkey) == w.snapshots[k].source
  }

  /** A row of another home is on another host, so it is not advertised. */
  lemma OnlyOwnAdvertised(c: Net, h: set<Fact>, b: nat, a: string, r: Row, live: set<string>, drivable: set<string>)
    requires ValidNet(c) && b < |c.addr| && RowOk(c, h, r) && c.home(r.pubkey) != b
    requires IsTmux(r.sid) ==> r.sid.value !in live
    ensures AdvertiseRow(a, r, LocalOf(c, b, live, drivable)).None?
  {
    var l := LocalOf(c, b, live, drivable);
    assert AddressOk(c, b) && SelfAtHome(c, b, r.pubkey) && HostsApart(c, b, c.home(r.pubkey));
    assert KeyIs(c, c.addr[b]) && KeyIs(c, r.address);
    NearIsSameHost(c, c.addr[b], r.address);
    NearIsSameHost(c, r.address, c.addr[b]);
    RemoteHomedNotAdvertised(a, r, l);
  }

  lemma StepKeepsOwnSnapshots(c: Net, w: World, step: Step)
    requires Inv(c, w) && OwnSnapshots(c, w) && Enabled(c, w, step) && NoCollision(c, w, step)
    ensures OwnSnapshots(c, Next(c, w, step))
  {
    if step.Fetch? {
      var b := step.source;
      var s, l := w.stores[b], LocalOf(c, b, step.live, step.drivable);
      var es := Advertise(s, step.order, l);
      assert StoreOk(c, w.history, s);
      forall i | 0 <= i < |es| ensures c.home(es[i].pubkey) == b {
        var k := AdvertisedFrom(s, step.order, l, i);
        var a := step.order[k];
        assert a in step.order;
        assert RowOk(c, w.history, s[a]);
        if c.home(s[a].pubkey) != b {
          OnlyOwnAdvertised(c, w.history, b, a, s[a], step.live, step.drivable);
        }
        AdvertisedRowOk(c, w.history, b, a, s[a], step.live, step.drivable);
      }
      var z := Next(c, w, step);
      forall k, i | 0 <= k < |z.snapshots| && 0 <= i < |z.snapshots[k].entries|
        ensures c.home(z.snapshots[k].entries[i].pubkey) == z.snapshots[k].source
      {
        if k < |w.snapshots| {
          assert z.snapshots[k] == w.snapshots[k];
        }
      }
    }
  }

  lemma {:induction false} OrderlyRun(c: Net, w: World, steps: seq<Step>, z: World)
    requires Inv(c, w) && OwnSnapshots(c, w) && Orderly(c, w, steps, z)
    ensures Inv(c, z) && OwnSnapshots(c, z)
    decreases |steps|
  {
    if steps != [] {
      StepKeepsInv(c, w, steps[0]);
      StepKeepsOwnSnapshots(c, w, steps[0]);
      OrderlyRun(c, Next(c, w, steps[0]), steps[1..], z);
    }
  }

  /** Applying a snapshot of another home leaves a row of an identity at home here alone. */
  lemma OwnRowUntouched(c: Net, h: set<Fact>, s: Store, snap: Snapshot, m: nat, a: string)
    requires ValidNet(c) && m < |c.addr| && StoreOk(c, h, s) && SnapshotOk(c, h, snap) && snap.source != m
    requires a in s && c.home(s[a].pubkey) == m
    requires forall i :: 0 <= i < |snap.entries| ==> c.home(snap.entries[i].pubkey) == snap.source
    ensures a in Pull(s, snap.base, snap.entries, c.me[m]) && Pull(s, snap.base, snap.entries, c.me[m])[a] == s[a]
  {
    assert RowOk(c, h, s[a]);
    NotPruned(c, s[a], snap, m);
    forall i | 0 <= i < |snap.entries|
      ensures s[a].eth != Some(snap.entries[i].eth) && s[a].pubkey != snap.entries[i].pubkey
    {
      assert RowOk(c, h, FreshRow(snap.entries[i]));
      KeysDiffer(c, s[a].pubkey, snap.entries[i].pubkey);
    }
    MergeKeepsUnannounced(Prune(s, snap.base, snap.entries, c.me[m]), snap.entries, c.me[m], true, a);
  }

  lemma KeysDiffer(c: Net, p: string, q: string)
    requires ValidNet(c) && IsKey(p) && IsKey(q) && p != q
    ensures c.eth(p) != c.eth(q)
  {
    assert KeysApart(c.eth, p, q);
  }

  lemma NotPruned(c: Net, r: Row, snap: Snapshot, m: nat)
    requires ValidNet(c) && m < |c.addr| && snap.source < |c.addr| && snap.source != m
    requires Near(c, r.address, c.addr[m]) && Near(c, snap.base, c.addr[snap.source])
    ensures Host(r.address) != Host(snap.base)
  {
    assert HostsApart(c, m, snap.source);
    assert KeyIs(c, r.address) && KeyIs(c, snap.base);
  }

  /** Steps other than a pull change a row only if they name it. */
  lemma OtherStepsKeepRow(c: Net, w: World, step: Step, m: nat, a: string)
    requires Enabled(c, w, step) && !step.Apply? && m < |w.stores| && a in w.stores[m]
    requires !(step.HomeWrite? && step.m == m && step.alias == a) && !(step.Delete? && step.m == m && step.alias == a)
    ensures a in Next(c, w, step).stores[m] && Next(c, w, step).stores[m][a] == w.stores[m][a]
  {
  }

  lemma ApplyKeepsHomeRow(c: Net, w: World, n: nat, k: nat, m: nat, a: string)
    requires Inv(c, w) && OwnSnapshots(c, w) && Enabled(c, w, Apply(n, k))
    requires m < |w.stores| && a in w.stores[m] && c.home(w.stores[m][a].pubkey) == m
    ensures a in Next(c, w, Apply(n, k)).stores[m] && Next(c, w, Apply(n, k)).stores[m][a] == w.stores[m][a]
  {
    if n == m {
      OwnRowUntouched(c, w.history, w.stores[m], w.snapshots[k], m, a);
    }
  }

  /** In every run without name collisions, a machine's rows of identities at home there change only by its own
      edits: no pull, of any snapshot however old, touches or prunes them. */
  lemma HomeRowsAreOwn(c: Net, steps: seq<Step>, w: World, step: Step, m: nat, a: string)
    requires ValidNet(c) && Orderly(c, EmptyWorld(c), steps, w) && Enabled(c, w, step)
    requires m < |w.stores| && a in w.stores[m] && c.home(w.stores[m][a].pubkey) == m
    requires !(step.HomeWrite? && step.m == m && step.alias == a) && !(step.Delete? && step.m == m && step.alias == a)
    ensures a in Next(c, w, step).stores[m] && Next(c, w, step).stores[m][a] == w.stores[m][a]
  {
    EmptyInv(c);
    OrderlyRun(c, EmptyWorld(c), steps, w);
    match step {
      case Apply(n, k) => ApplyKeepsHomeRow(c, w, n, k, m, a);
      case _ => OtherStepsKeepRow(c, w, step, m, a);
    }
  }

  // ---------------------------------------------------------------- convergence

  /** The list a step of fetching would serve now. */
  function Served(c: Net, w: World, fetch: Step): seq<RemotePeer>
    requires fetch.Fetch? && Enabled(c, w, fetch)
  {
    Advertise(w.stores[fetch.source], fetch.order, LocalOf(c, fetch.source, fetch.live, fetch.drivable))
  }

  /** One pull from a quiet home: a machine applies the list another serves in the state it is still in. For every
      entry that passes the puller's filters, the puller then either has a row that agrees with the home's row it
      was made from, or has no row of that identity because its alias is another's. */
  lemma OnePullConverges(c: Net, steps: seq<Step>, w: World, fetch: Step, m: nat, i: nat) returns (home: Row)
    requires ValidNet(c) && Reaches(c, EmptyWorld(c), steps, w)
    requires fetch.Fetch? && Enabled(c, w, fetch) && m < |w.stores| && m != fetch.source
    requires i < |Served(c, w, fetch)| && Accepted(w.stores[m], Served(c, w, fetch)[i], c.me[m], true)
    ensures home in w.stores[fetch.source].Values && home.pubkey == Served(c, w, fetch)[i].pubkey
    ensures Enabled(c, Next(c, w, fetch), Apply(m, |w.snapshots|))
    ensures var e := Served(c, w, fetch)[i];
      var z := Next(c, Next(c, w, fetch), Apply(m, |w.snapshots|)).stores[m];
      (exists a :: a in z && Agrees(z[a], home)) || (!KeyKnown(z, e.pubkey) && e.alias in z)
  {
    FetchThenApply(c, w, fetch, m);
    EmptyInv(c);
    RunKeepsInv(c, EmptyWorld(c), steps, w);
    home := HomeOf(c, w, fetch, i);
    PullOfServed(c, w, fetch, m, i, home);
  }

  lemma FetchThenApply(c: Net, w: World, fetch: Step, m: nat)
    requires fetch.Fetch? && Enabled(c, w, fetch) && m < |w.stores| && m != fetch.source
    ensures Enabled(c, Next(c, w, fetch), Apply(m, |w.snapshots|))
    ensures Next(c, Next(c, w, fetch), Apply(m, |w.snapshots|)).stores[m]
         == Pull(w.stores[m], fetch.base, Served(c, w, fetch), c.me[m])
  {
  }

  /** The row an entry was made from. */
  lemma HomeOf(c: Net, w: World, fetch: Step, i: nat) returns (home: Row)
    requires fetch.Fetch? && Enabled(c, w, fetch) && i < |Served(c, w, fetch)|
    ensures home in w.stores[fetch.source].Values
    ensures var e := Served(c, w, fetch)[i]; home.eth == Some(e.eth) && e == Entry(e.alias, home, e.eth, e.address)
  {
    var s, l := w.stores[fetch.source], LocalOf(c, fetch.source, fetch.live, fetch.drivable);
    var k := AdvertisedFrom(s, fetch.order, l, i);
    assert fetch.order[k] in fetch.order;
    home := s[fetch.order[k]];
    EntryFacts(fetch.order[k], home, l);
  }

  lemma PullOfServed(c: Net, w: World, fetch: Step, m: nat, i: nat, home: Row)
    requires Inv(c, w) && fetch.Fetch? && Enabled(c, w, fetch) && m < |w.stores|
    requires i < |Served(c, w, fetch)| && Accepted(w.stores[m], Served(c, w, fetch)[i], c.me[m], true)
    requires var e := Served(c, w, fetch)[i]; home.eth == Some(e.eth) && e == Entry(e.alias, home, e.eth, e.address)
    ensures var e := Served(c, w, fetch)[i];
      var z := Pull(w.stores[m], fetch.base, Served(c, w, fetch), c.me[m]);
      (exists a :: a in z && Agrees(z[a], home)) || (!KeyKnown(z, e.pubkey) && e.alias in z)
  {
    var es := Served(c, w, fetch);
    FetchedOk(c, w.history, w.stores[fetch.source], fetch.source, fetch.base, fetch.order, fetch.live, fetch.drivable);
    ConsistentIfOk(c, w.history, w.stores[m]);
    PullFits(c, w.stores[m], fetch.base, es, m);
    PullAdopts(w.stores[m], fetch.base, es, c.me[m], i);
    ShowsAgrees(Pull(w.stores[m], fetch.base, es, c.me[m]), es[i], es[i].alias, home);
  }

  /** Consistent announcements fit what pruning leaves. */
  lemma PullFits(c: Net, s: Store, base: string, es: seq<RemotePeer>, m: nat)
    requires ValidNet(c) && m < |c.me| && ConsistentStore(s, c.eth) && ConsistentList(es, c.eth)
    ensures ListFits(Prune(s, base, es, c.me[m]), es, c.me[m])
  {
    ConsistentListFits(Prune(s, base, es, c.me[m]), es, c.me[m], c.eth);
  }

  lemma ShowsAgrees(z: Store, e: RemotePeer, a: string, home: Row)
    requires home.eth == Some(e.eth) && e == Entry(a, home, e.eth, e.address)
    ensures (exists b :: b in z && Shows(z[b], e)) ==> exists b :: b in z && Agrees(z[b], home)
  {
    if exists b :: b in z && Shows(z[b], e) {
      var b :| b in z && Shows(z[b], e);
      assert RoleOf(RoleName(home.role)) == home.role;
      assert Agrees(z[b], home);
    }
  }

  /** A copy agrees with the home's row on identity, role, and every other field the home has set. */
  predicate Agrees(copy: Row, home: Row) {
    && copy.pubkey == home.pubkey && copy.eth == home.eth && copy.role == home.role
    && (NonEmpty(home.display).Some? ==> copy.display == home.display)
    && (NonEmpty(home.sid).Some? ==> copy.sid == home.sid)
    && (NonEmpty(home.status).Some? ==> copy.status == home.status)
  }
}
