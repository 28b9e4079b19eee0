/** Transport addresses of machines: the host of a URL, addresses no other machine can reach, the GUI URL derived
    from a transport URL, and when two spellings name the same host. */
module Address {
  import opened Prelude
  import Json
  import Framing

  // ---------------------------------------------------------------- ASCII case and search

  function LowerChar(c: char): char {
    if 'A' <= c <= 'Z' then (c as int + 32) as char else c
  }

  function Lower(s: string): (t: string)
    ensures |t| == |s|
    ensures forall i :: 0 <= i < |s| ==> t[i] == LowerChar(s[i])
  {
    seq(|s|, i requires 0 <= i < |s| => LowerChar(s[i]))
  }

  predicate EqIgnoreCase(a: string, b: string) {
    Lower(a) == Lower(b)
  }

  predicate Contains(s: string, part: string) {
    exists i :: 0 <= i <= |s| && OccursAt(s, part, i)
  }

  predicate OccursAt(s: string, part: string, i: nat)
    requires i <= |s|
  {
    part <= s[i..]
  }

  predicate Blank(s: string) {
    Framing.Trim(s) == ""
  }

  /** An address other machines cannot reach. */
  predicate Unreachable(address: string) {
    var a := Framing.Trim(address);
    || a == "" || Contains(a, "127.0.0.1") || Contains(a, "0.0.0.0") || Contains(a, "localhost")
    || Contains(a, "[::1]") || Contains(a, "://unknown")
  }

  // ---------------------------------------------------------------- the host of a URL

  predicate SepAt(s: string, i: nat) {
    i + 3 <= |s| && s[i] == ':' && s[i + 1] == '/' && s[i + 2] == '/'
  }

  /** Position of the first `://`, or the length of the text. */
  function FindSep(s: string): (n: nat)
    ensures n <= |s| && (n < |s| ==> n + 3 <= |s|)
  {
    if s == "" || SepAt(s, 0) then 0 else 1 + FindSep(s[1..])
  }

  lemma {:induction false} SepFound(s: string)
    ensures FindSep(s) < |s| ==> SepAt(s, FindSep(s))
    ensures forall i: nat :: i < FindSep(s) ==> !SepAt(s, i)
  {
    if s != "" && !SepAt(s, 0) {
      SepFound(s[1..]);
      forall i: nat | i < FindSep(s) ensures !SepAt(s, i) {
        if i > 0 {
          assert !SepAt(s[1..], i - 1);
        }
      }
    }
  }

  lemma SepIsFirst(s: string, n: nat)
    requires n <= |s| && (n < |s| ==> SepAt(s, n))
    requires forall i: nat :: i < n ==> !SepAt(s, i)
    ensures FindSep(s) == n
  {
    SepFound(s);
    var m := FindSep(s);
    assert SepAt(s, m) || m == |s|;
    assert SepAt(s, n) || n == |s|;
  }

  /** The piece between the first and the second `://`, or the whole text. */
  function AfterScheme(url: string): string {
    if FindSep(url) == |url| then url else FirstPiece(url[FindSep(url) + 3..])
  }

  function FirstPiece(rest: string): string {
    rest[..FindSep(rest)]
  }

  function UntilSlash(s: string): (t: string)
    ensures |t| <= |s| && t == s[..|t|] && '/' !in t
    ensures |t| < |s| ==> s[|t|] == '/'
  {
    if s == "" || s[0] == '/' then "" else [s[0]] + UntilSlash(s[1..])
  }

  lemma SlashIsFirst(s: string, n: nat)
    requires n <= |s| && (n < |s| ==> s[n] == '/')
    requires forall i :: 0 <= i < n ==> s[i] != '/'
    ensures UntilSlash(s) == s[..n]
  {
    var t := UntilSlash(s);
    assert forall i :: 0 <= i < |t| ==> t[i] == s[i];
  }

  /** The text before the last colon, or the whole text. */
  function BeforeLastColon(s: string): string {
    if ':' !in s then s else if s[|s| - 1] == ':' then s[..|s| - 1] else BeforeLastColon(s[..|s| - 1])
  }

  function Host(url: string): Option<string> {
    var host := Framing.Trim(BeforeLastColon(UntilSlash(AfterScheme(url))));
    if host == "" then None else Some(host)
  }

  /** Both addresses have a host, and it is the same up to ASCII case. */
  predicate SameHost(a: string, b: string) {
    Host(a).Some? && Host(b).Some? && EqIgnoreCase(Host(a).value, Host(b).value)
  }

  // ---------------------------------------------------------------- the host ignores case

  lemma LowerSlice(s: string, i: nat, j: nat)
    requires i <= j <= |s|
    ensures Lower(s[i..j]) == Lower(s)[i..j]
  {
  }

  lemma LowerSep(s: string)
    ensures FindSep(Lower(s)) == FindSep(s)
  {
    SepFound(s);
    assert forall i: nat :: SepAt(Lower(s), i) <==> SepAt(s, i);
    SepIsFirst(Lower(s), FindSep(s));
  }

  lemma LowerAfterScheme(url: string)
    ensures AfterScheme(Lower(url)) == Lower(AfterScheme(url))
  {
    LowerSep(url);
    var i := FindSep(url);
    if i < |url| {
      var rest := url[i + 3..];
      LowerSlice(url, i + 3, |url|);
      assert Lower(url)[i + 3..] == Lower(rest);
      LowerSep(rest);
      LowerSlice(rest, 0, FindSep(rest));
    }
  }

  lemma LowerUntilSlash(s: string)
    ensures UntilSlash(Lower(s)) == Lower(UntilSlash(s))
  {
    var t := UntilSlash(s);
    assert forall i :: 0 <= i < |t| ==> s[i] == t[i];
    SlashIsFirst(Lower(s), |t|);
    LowerSlice(s, 0, |t|);
  }

  lemma {:induction false} LowerBeforeLastColon(s: string)
    ensures BeforeLastColon(Lower(s)) == Lower(BeforeLastColon(s))
  {
    assert ':' in Lower(s) <==> ':' in s by {
      assert forall i :: 0 <= i < |s| ==> (Lower(s)[i] == ':' <==> s[i] == ':');
    }
    if ':' in s {
      LowerSlice(s, 0, |s| - 1);
      assert Lower(s)[..|s| - 1] == Lower(s[..|s| - 1]);
      if s[|s| - 1] != ':' {
        LowerBeforeLastColon(s[..|s| - 1]);
      }
    }
  }

  lemma {:induction false} LowerTrimStart(s: string)
    ensures Framing.TrimStart(Lower(s)) == Lower(Framing.TrimStart(s))
  {
    if s != "" && Framing.IsSpace(s[0]) {
      assert Lower(s)[1..] == Lower(s[1..]);
      LowerTrimStart(s[1..]);
    }
  }

  lemma {:induction false} LowerTrimEnd(s: string)
    ensures Framing.TrimEnd(Lower(s)) == Lower(Framing.TrimEnd(s))
  {
    if s != "" && Framing.IsSpace(s[|s| - 1]) {
      assert Lower(s)[..|s| - 1] == Lower(s[..|s| - 1]);
      LowerTrimEnd(s[..|s| - 1]);
    }
  }

  lemma HostIgnoresCase(url: string)
    ensures Host(Lower(url)) == if Host(url).Some? then Some(Lower(Host(url).value)) else None
  {
    LowerAfterScheme(url);
    var s := AfterScheme(url);
    LowerUntilSlash(s);
    LowerBeforeLastColon(UntilSlash(s));
    var t := BeforeLastColon(UntilSlash(s));
    LowerTrimStart(t);
    LowerTrimEnd(Framing.TrimStart(t));
  }

  // ---------------------------------------------------------------- trailing slashes

  function TrimSlashes(s: string): string {
    if s != "" && s[|s| - 1] == '/' then TrimSlashes(s[..|s| - 1]) else s
  }

  /** Before its trailing slashes the text is not empty and does not end with a colon. */
  predicate Tidy(s: string) {
    s != "" && (if s[|s| - 1] == '/' then Tidy(s[..|s| - 1]) else s[|s| - 1] != ':')
  }

  lemma {:induction false} TidyTail(s: string, i: nat)
    requires Tidy(s) && SepAt(s, i)
    ensures i + 3 < |s| && Tidy(s[i + 3..])
  {
    var n := |s| - 1;
    if s[n] == '/' {
      TidyEnd(s[..n]);
      if i + 3 < |s| {
        TidyTail(s[..n], i);
        assert s[i + 3..][..n - i - 3] == s[..n][i + 3..];
      }
    }
  }

  lemma TidyEnd(s: string)
    requires Tidy(s)
    ensures s[|s| - 1] != ':' && (|s| >= 2 && s[|s| - 1] == '/' ==> s[|s| - 2] != ':')
  {
    if |s| >= 2 && s[|s| - 1] == '/' {
      var t := s[..|s| - 1];
      assert Tidy(t) && t[|t| - 1] == s[|s| - 2];
    }
  }

  lemma SepOfSlashed(s: string, i: nat)
    requires Tidy(s)
    ensures SepAt(s + "/", i) <==> SepAt(s, i)
  {
    TidyEnd(s);
    var t := s + "/";
    assert forall k :: 0 <= k < |s| ==> t[k] == s[k];
  }

  lemma SlashKeepsSep(s: string)
    requires Tidy(s)
    ensures FindSep(s + "/") == if FindSep(s) < |s| then FindSep(s) else |s| + 1
  {
    SepFound(s);
    var n := if FindSep(s) < |s| then FindSep(s) else |s| + 1;
    forall i: nat | i < n ensures !SepAt(s + "/", i) {
      SepOfSlashed(s, i);
    }
    SepOfSlashed(s, n);
    SepIsFirst(s + "/", n);
  }

  lemma PieceOfSlashed(rest: string)
    requires Tidy(rest)
    ensures FirstPiece(rest + "/") == FirstPiece(rest) || FirstPiece(rest + "/") == FirstPiece(rest) + "/"
  {
    SlashKeepsSep(rest);
    SliceOfPair(rest, "/", FindSep(rest));
  }

  lemma SchemeOfSlashed(s: string)
    requires Tidy(s)
    ensures AfterScheme(s + "/") == AfterScheme(s) || AfterScheme(s + "/") == AfterScheme(s) + "/"
  {
    SlashKeepsSep(s);
    if FindSep(s) < |s| {
      PieceAfterSep(s, FindSep(s));
    }
  }

  lemma PieceAfterSep(s: string, i: nat)
    requires Tidy(s) && FindSep(s) == i < |s|
    ensures i + 3 <= |s|
    ensures var a, b := FirstPiece((s + "/")[i + 3..]), FirstPiece(s[i + 3..]); a == b || a == b + "/"
  {
    SepFound(s);
    TidyTail(s, i);
    SliceOfPair(s, "/", i + 3);
    PieceOfSlashed(s[i + 3..]);
  }

  lemma SliceOfPair(s: string, x: string, i: nat)
    requires i <= |s|
    ensures (s + x)[i..] == s[i..] + x && (s + x)[..i] == s[..i] && (s + x)[..|s| + |x|] == s + x
  {
  }

  lemma SlashKeepsHost(s: string)
    requires Tidy(s)
    ensures Host(s + "/") == Host(s)
  {
    SchemeOfSlashed(s);
    SlashInTail(AfterScheme(s), "/");
  }

  lemma {:induction false} SlashInTail(h: string, x: string)
    ensures UntilSlash(h + x) == if |UntilSlash(h)| < |h| then UntilSlash(h) else h + UntilSlash(x)
  {
    if h == "" {
      assert h + x == x;
    } else if h[0] != '/' {
      assert (h + x)[1..] == h[1..] + x;
      SlashInTail(h[1..], x);
    }
  }

  lemma {:induction false} TrimSlashesKeepsHost(s: string)
    requires Tidy(s)
    ensures Host(TrimSlashes(s)) == Host(s)
  {
    if s[|s| - 1] == '/' {
      var t := s[..|s| - 1];
      assert t + "/" == s;
      SlashKeepsHost(t);
      TrimSlashesKeepsHost(t);
    }
  }

  /** Two spellings of one address: the same up to trailing slashes and ASCII case. */
  predicate SameAddress(a: string, b: string) {
    EqIgnoreCase(TrimSlashes(a), TrimSlashes(b))
  }

  /** Addresses equal up to trailing slashes and case are on the same host. */
  lemma SameAddressSameHost(a: string, b: string)
    requires Tidy(a) && Tidy(b) && SameAddress(a, b)
    ensures Host(a).Some? <==> Host(b).Some?
    ensures Host(a).Some? ==> SameHost(a, b)
  {
    TrimSlashesKeepsHost(a);
    TrimSlashesKeepsHost(b);
    HostIgnoresCase(TrimSlashes(a));
    HostIgnoresCase(TrimSlashes(b));
  }

  lemma SameAddressBothTidy(a: string, b: string)
    requires Tidy(a) && SameAddress(a, b)
    ensures Tidy(b)
  {
    TidyIffTrimmed(a);
    TidyIffTrimmed(b);
    var s, t := TrimSlashes(a), TrimSlashes(b);
    assert |s| == |t|;
    assert Lower(s)[|s| - 1] == LowerChar(s[|s| - 1]) && Lower(t)[|t| - 1] == LowerChar(t[|t| - 1]);
  }

  lemma {:induction false} TidyIffTrimmed(s: string)
    ensures var t := TrimSlashes(s); Tidy(s) <==> t != "" && t[|t| - 1] != ':'
  {
    if s != "" && s[|s| - 1] == '/' {
      TidyIffTrimmed(s[..|s| - 1]);
    }
  }

  // ---------------------------------------------------------------- the GUI URL of a transport URL

  /** Position of the last colon, or the length of the text if it has none. */
  function LastColon(s: string): (n: nat)
    ensures n <= |s|
    ensures n < |s| ==> s[n] == ':' && ':' !in s[n + 1..]
    ensures n == |s| <==> ':' !in s
  {
    if ':' !in s then |s|
    else if s[|s| - 1] == ':' then |s| - 1
    else
      var n := LastColon(s[..|s| - 1]);
      assert ':' in s[..|s| - 1];
      assert s[n + 1..] == s[..|s| - 1][n + 1..] + [s[|s| - 1]];
      n
  }

  /** An unsigned 16-bit number as the standard library of Rust reads it: an optional plus, then digits. */
  function ReadPort(t: string): Option<nat> {
    var digits := if t != "" && t[0] == '+' then t[1..] else t;
    if Json.IsNatLexeme(digits) && Json.ReadNat(digits) < 0x1_0000 then Some(Json.ReadNat(digits)) else None
  }

  /** The GUI listens two ports above the transport; the port is 16 bits wide. */
  function GuiPort(port: nat): nat {
    (port + 2) % 0x1_0000
  }

  function DeriveGui(url: string): Option<string> {
    var i := LastColon(url);
    if i == |url| then None
    else
      var port := ReadPort(TrimSlashes(url[i + 1..]));
      if port.None? then None
      else Some(url[..i] + ":" + Json.PrintNat(GuiPort(port.value)))
  }
}
