/** URLs as they are written: scheme, host, port and path. What the daemon reads off them, and what a pull does to
    the rows of one host at any of its ports. */
module Urls {
  import opened Prelude
  import opened Address
  import opened Gossip
  import Framing
  import Json

  /** The name of a host: not empty, without slash and colon, and without white space at its ends. */
  predicate IsHostName(h: string) {
    h != "" && '/' !in h && ':' !in h && !Framing.IsSpace(h[0]) && !Framing.IsSpace(h[|h| - 1])
  }

  predicate HasSep(s: string) {
    exists i: nat :: i < |s| && SepAt(s, i)
  }

  datatype Url = Url(scheme: Option<string>, host: string, port: Option<string>, path: Option<string>)

  predicate WellFormed(u: Url) {
    && IsHostName(u.host)
    && (u.scheme.Some? ==> !HasSep(u.scheme.value))
    && (u.port.Some? ==> Json.IsNatLexeme(u.port.value))
    && (u.path.Some? ==> !HasSep(u.path.value))
  }

  /** Host and port. */
  function Authority(u: Url): string {
    u.host + if u.port.Some? then ":" + u.port.value else ""
  }

  function AfterSlashes(u: Url): string {
    Authority(u) + if u.path.Some? then "/" + u.path.value else ""
  }

  function Text(u: Url): string {
    if u.scheme.Some? then u.scheme.value + "://" + AfterSlashes(u) else AfterSlashes(u)
  }

  // ---------------------------------------------------------------- the host of a URL

  lemma AuthorityHasNoSlash(u: Url)
    requires WellFormed(u)
    ensures '/' !in Authority(u) && Authority(u) != ""
    ensures forall i :: 0 <= i < |Authority(u)| && Authority(u)[i] == ':' ==>
      i == |u.host| && u.port.Some? && i + 1 < |Authority(u)|
  {
  }

  lemma NoSepInAuthority(u: Url, i: nat)
    requires WellFormed(u) && i <= |Authority(u)|
    ensures !SepAt(AfterSlashes(u), i)
  {
    AuthorityHasNoSlash(u);
    var t, a := AfterSlashes(u), Authority(u);
    assert forall k :: 0 <= k < |a| ==> t[k] == a[k];
    if i < |a| && a[i] == ':' {
      assert t[i + 1] == a[i + 1] && a[i + 1] in a;
    }
  }

  lemma NoSepAfterSlashes(u: Url, i: nat)
    requires WellFormed(u)
    ensures !SepAt(AfterSlashes(u), i)
  {
    var n := |Authority(u)|;
    if i <= n {
      NoSepInAuthority(u, i);
    } else if u.path.Some? {
      var t, p := AfterSlashes(u), u.path.value;
      assert forall k :: 0 <= k < |p| ==> t[n + 1 + k] == p[k];
      assert !SepAt(p, i - n - 1);
    }
  }

  lemma SchemeEndsAt(scheme: string, rest: string)
    requires !HasSep(scheme)
    ensures FindSep(scheme + "://" + rest) == |scheme|
    ensures (scheme + "://" + rest)[|scheme| + 3..] == rest
  {
    var url := scheme + "://" + rest;
    forall i: nat | i < |scheme| ensures !SepAt(url, i) {
      assert forall k :: 0 <= k < |scheme| ==> url[k] == scheme[k];
      assert url[|scheme|] == ':';
      assert !SepAt(scheme, i);
    }
    assert SepAt(url, |scheme|);
    SepIsFirst(url, |scheme|);
  }

  lemma AfterSchemeIs(u: Url)
    requires WellFormed(u)
    ensures AfterScheme(Text(u)) == AfterSlashes(u)
  {
    var rest := AfterSlashes(u);
    forall i: nat ensures !SepAt(rest, i) {
      NoSepAfterSlashes(u, i);
    }
    SepIsFirst(rest, |rest|);
    if u.scheme.Some? {
      SchemeEndsAt(u.scheme.value, rest);
      assert rest[..|rest|] == rest;
    }
  }

  lemma {:induction false} NoColonInPort(h: string, port: string)
    requires ':' !in h && ':' !in port
    ensures BeforeLastColon(h + ":" + port) == h
    decreases |port|
  {
    var s := h + ":" + port;
    assert s[|h|] == ':';
    if port != "" {
      assert s[|s| - 1] == port[|port| - 1];
      assert s[..|s| - 1] == h + ":" + port[..|port| - 1];
      NoColonInPort(h, port[..|port| - 1]);
    } else {
      assert s[..|s| - 1] == h;
    }
  }

  lemma HostPart(u: Url)
    requires WellFormed(u)
    ensures BeforeLastColon(Authority(u)) == u.host && Framing.Trim(u.host) == u.host
  {
    if u.port.Some? {
      assert Authority(u) == u.host + ":" + u.port.value;
      NoColonInPort(u.host, u.port.value);
    } else {
      assert Authority(u) == u.host;
    }
    assert Framing.TrimStart(u.host) == u.host && Framing.TrimEnd(u.host) == u.host;
  }

  /** The host of a URL is the host, whatever scheme, port and path stand around it. */
  lemma HostOfUrl(u: Url)
    requires WellFormed(u)
    ensures Host(Text(u)) == Some(u.host)
  {
    AfterSchemeIs(u);
    AuthorityHasNoSlash(u);
    var a, t := Authority(u), AfterSlashes(u);
    assert forall i :: 0 <= i < |a| ==> t[i] == a[i];
    SlashIsFirst(t, |a|);
    assert t[..|a|] == a;
    HostPart(u);
  }

  // ---------------------------------------------------------------- the GUI of a URL

  lemma {:induction false} TrimSlashesOfDigits(t: string)
    requires Json.IsNatLexeme(t)
    ensures TrimSlashes(t) == t
  {
    assert Json.IsDigit(t[|t| - 1]);
  }

  lemma LastColonIs(s: string, m: nat)
    requires m < |s| && s[m] == ':' && ':' !in s[m + 1..]
    ensures LastColon(s) == m
  {
  }

  lemma PortReads(port: nat)
    requires port < 0x1_0000
    ensures ReadPort(Json.PrintNat(port)) == Some(port) && ':' !in Json.PrintNat(port) && TrimSlashes(Json.PrintNat(port)) == Json.PrintNat(port)
  {
    var digits := Json.PrintNat(port);
    assert forall i :: 0 <= i < |digits| ==> Json.IsDigit(digits[i]);
    assert Json.IsDigit(digits[0]);
    Json.NatRoundTrip(port);
    TrimSlashesOfDigits(digits);
  }

  lemma GuiOfText(url: string, m: nat, port: nat)
    requires LastColon(url) == m < |url| && ReadPort(TrimSlashes(url[m + 1..])) == Some(port)
    ensures DeriveGui(url) == Some(url[..m] + ":" + Json.PrintNat(GuiPort(port)))
  {
  }

  lemma TwoUp(port: nat)
    requires port < 0x1_0000
    ensures GuiPort(port) == if port < 0xFFFE then port + 2 else port - 0xFFFE
  {
  }

  lemma GuiOfDigits(before: string, digits: string, port: nat)
    requires ':' !in digits && ReadPort(TrimSlashes(digits)) == Some(port)
    ensures DeriveGui(before + ":" + digits) == Some(before + ":" + Json.PrintNat(GuiPort(port)))
  {
    var url := before + ":" + digits;
    assert url[|before|] == ':' && url[|before| + 1..] == digits && url[..|before|] == before;
    LastColonIs(url, |before|);
    GuiOfText(url, |before|, port);
  }

  /** The GUI of a transport URL without a path is the same URL two ports up, and port numbers are 16 bits. */
  lemma GuiOfUrl(before: string, port: nat)
    requires port < 0x1_0000
    ensures DeriveGui(before + ":" + Json.PrintNat(port))
      == Some(before + ":" + Json.PrintNat(if port < 0xFFFE then port + 2 else port - 0xFFFE))
  {
    PortReads(port);
    GuiOfDigits(before, Json.PrintNat(port), port);
    TwoUp(port);
  }

  /** Two texts are equal up to case when they differ at most in that a letter is a capital in one of them. */
  lemma EqualUpToCase(a: string, b: string)
    ensures EqIgnoreCase(a, b) <==>
      |a| == |b| && forall i :: 0 <= i < |a| ==> SameLetter(a[i], b[i])
  {
    assert |Lower(a)| == |a| && |Lower(b)| == |b|;
    if |a| == |b| {
      assert forall i :: 0 <= i < |a| ==> (SameLetter(a[i], b[i]) <==> Lower(a)[i] == Lower(b)[i]);
      if forall i :: 0 <= i < |a| ==> SameLetter(a[i], b[i]) {
        assert Lower(a) == Lower(b);
      }
    }
  }

  predicate SameLetter(c: char, d: char) {
    || c == d
    || ('A' <= c <= 'Z' && 'a' <= d <= 'z' && d as int - c as int == 32)
    || ('A' <= d <= 'Z' && 'a' <= c <= 'z' && c as int - d as int == 32)
  }

  // ---------------------------------------------------------------- pulling from one port of a host

  /** Two spellings of one Ethereum address: the same up to white space around it and case. */
  predicate SameEth(a: string, b: string) {
    EqIgnoreCase(Framing.Trim(a), Framing.Trim(b))
  }

  /** After a pull from any port of a host, each row at any port of it that has an identity, and is not this
      machine's own, is one that the list names. */
  lemma PullClearsHost(s: Store, from: Url, remote: seq<RemotePeer>, me: Option<string>, a: string, at: Url)
    requires WellFormed(from) && WellFormed(at) && at.host == from.host
    requires a in Pull(s, Text(from), remote, me)
    requires var r := Pull(s, Text(from), remote, me)[a];
      r.address == Text(at) && r.eth.Some? && Framing.Trim(r.eth.value) != ""
    ensures var eth := Pull(s, Text(from), remote, me)[a].eth.value;
      || (exists i :: 0 <= i < |remote| && SameEth(remote[i].eth, eth))
      || (me.Some? && EqIgnoreCase(me.value, Framing.Trim(eth)))
  {
    HostOfUrl(from);
    HostOfUrl(at);
    var r := Pull(s, Text(from), remote, me)[a];
    assert |Normal(r.eth.value)| == |Framing.Trim(r.eth.value)|;
    if !IsSelf(me, r.eth.value) {
      PullLeavesOnlyAdvertised(s, Text(from), remote, me, a);
      var i :| 0 <= i < |remote| && Normal(remote[i].eth) == Normal(r.eth.value);
      assert SameEth(remote[i].eth, r.eth.value);
    }
  }

  /** A row at another host that the list does not name stays as it is; one at the host itself leaves, when it has
      an identity that is not this machine's own and the list does not name that in any spelling. */
  lemma PullPrunesByHost(s: Store, from: Url, remote: seq<RemotePeer>, me: Option<string>, a: string, at: Url)
    requires WellFormed(from) && WellFormed(at) && a in s && s[a].address == Text(at)
    requires s[a].eth.Some? && Framing.Trim(s[a].eth.value) != "" && !(me.Some? && EqIgnoreCase(me.value, Framing.Trim(s[a].eth.value)))
    requires forall i :: 0 <= i < |remote| ==>
      remote[i].alias != a && remote[i].pubkey != s[a].pubkey && !SameEth(remote[i].eth, s[a].eth.value)
    ensures a in Pull(s, Text(from), remote, me) <==> at.host != from.host
    ensures at.host != from.host ==> Pull(s, Text(from), remote, me)[a] == s[a]
  {
    HostOfUrl(from);
    HostOfUrl(at);
    assert |Normal(s[a].eth.value)| == |Framing.Trim(s[a].eth.value)|;
    assert forall i :: 0 <= i < |remote| ==> !SameEth(remote[i].eth, s[a].eth.value);
    PullKeepsUnannounced(s, Text(from), remote, me, a);
  }

  /** A URL without white space around it is a pull candidate exactly when other machines can reach it and its host is
      not the machine's own, whatever the ports. */
  lemma CandidateWhen(u: Url, self: Option<string>)
    requires WellFormed(u) && Framing.Trim(Text(u)) == Text(u)
    ensures Admissible(Text(u), self) <==> !Unreachable(Text(u)) && !(self.Some? && EqIgnoreCase(self.value, u.host))
  {
    HostOfUrl(u);
    AuthorityHasNoSlash(u);
  }

  // ---------------------------------------------------------------- addresses other machines cannot reach

  lemma ContainsPart(before: string, part: string, after: string)
    ensures Contains(before + part + after, part)
  {
    var s := before + part + after;
    assert s[|before|..] == part + after;
    assert OccursAt(s, part, |before|);
  }

  /** Loopback and wildcard addresses: an announcement at one of them, at any port, is never stored. */
  lemma LoopbackIsNotStored(s: Store, rp: RemotePeer, me: Option<string>, allowCreate: bool, before: string, part: string, after: string)
    requires part == "127.0.0.1" || part == "0.0.0.0" || part == "localhost" || part == "[::1]" || part == "://unknown"
    requires Framing.Trim(rp.address) == before + part + after || Framing.Trim(rp.address) == ""
    ensures MergeOne(s, rp, me, allowCreate) == s
  {
    ContainsPart(before, part, after);
  }
}
