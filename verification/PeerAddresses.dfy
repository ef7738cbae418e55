/** The addresses a pair link carries: a transport prefix that may be missing, and an authority. */
module PeerAddresses {
  import opened GoStrings

  const PREFIXES: seq<(string, string)> :=
    [("wss://", "wss://"), ("ws://", "ws://"), ("https://", "wss://"), ("http://", "ws://")]

  /** The canonical form of the first transport prefix that fits, and what follows the prefix. */
  function TakePrefix(h: string, i: nat): (string, string)
    requires i <= |PREFIXES|
    decreases |PREFIXES| - i
  {
    if i == |PREFIXES| then ("", h)
    else if HasPrefix(ToLower(h), PREFIXES[i].0) then (PREFIXES[i].1, h[|PREFIXES[i].0|..])
    else TakePrefix(h, i + 1)
  }

  function BeforeSlash(s: string): (t: string)
    ensures '/' !in t && t <= s && ('/' !in s ==> t == s)
  {
    if s == "" || s[0] == '/' then "" else [s[0]] + BeforeSlash(s[1..])
  }

  function SplitScheme(host: string): (string, string) {
    var (scheme, rest) := TakePrefix(TrimSpace(host), 0);
    (scheme, TrimSpace(BeforeSlash(rest)))
  }

  method SplitSchemeLoop(host: string) returns (scheme: string, authority: string)
    ensures (scheme, authority) == SplitScheme(host)
  {
    var h := TrimSpace(host);
    ghost var trimmed := h;
    var lower := ToLower(h);
    scheme := "";
    var i := 0;
    while i < |PREFIXES|
      invariant 0 <= i <= |PREFIXES|
      invariant h == trimmed && scheme == "" && TakePrefix(trimmed, 0) == TakePrefix(trimmed, i)
    {
      if HasPrefix(lower, PREFIXES[i].0) {
        scheme := PREFIXES[i].1;
        h := h[|PREFIXES[i].0|..];
        break;
      }
      i := i + 1;
    }
    assert (scheme, h) == TakePrefix(trimmed, 0);
    var cut := Authority(h);
    authority := TrimSpace(cut);
  }

  method Authority(h: string) returns (a: string)
    ensures a == BeforeSlash(h)
  {
    var cut := 0;
    while cut < |h| && h[cut] != '/'
      invariant 0 <= cut <= |h| && '/' !in h[..cut]
    {
      cut := cut + 1;
    }
    a := h[..cut];
    FirstSlash(h, cut);
  }

  lemma {:induction false} FirstSlash(h: string, cut: nat)
    requires cut <= |h| && '/' !in h[..cut] && (cut < |h| ==> h[cut] == '/')
    ensures BeforeSlash(h) == h[..cut]
  {
    if cut > 0 {
      assert h[..cut] == [h[0]] + h[1..][..cut - 1];
      FirstSlash(h[1..], cut - 1);
    }
  }

  /** What is left of an address that names a peer: a transport or none, and an authority without slashes. */
  predicate Clean(a: string) {
    a != "" && Trimmed(a) && '/' !in a
  }

  predicate CleanAddress(h: string) {
    || Clean(h)
    || (HasPrefix(h, "wss://") && Clean(h[6..]))
    || (HasPrefix(h, "ws://") && Clean(h[5..]))
  }

  function Address(host: string): string {
    SplitScheme(host).0 + SplitScheme(host).1
  }

  lemma {:induction false} TrimStaysInside(s: string, c: char)
    requires c !in s
    ensures c !in TrimLeft(s) && c !in TrimRight(s)
  {
    if s != "" {
      if IsSpace(s[0]) {
        TrimStaysInside(s[1..], c);
      }
      if IsSpace(s[|s| - 1]) {
        TrimStaysInside(s[..|s| - 1], c);
      }
    }
  }

  lemma AuthorityIsClean(host: string)
    ensures SplitScheme(host).0 in ["", "ws://", "wss://"]
    ensures SplitScheme(host).1 != "" ==> Clean(SplitScheme(host).1)
  {
    var cut := BeforeSlash(TakePrefix(TrimSpace(host), 0).1);
    TrimStaysInside(cut, '/');
    TrimStaysInside(TrimLeft(cut), '/');
  }

  lemma NoPrefix(a: string, prefix: string, k: nat)
    requires '/' !in a && k < |prefix| && prefix[k] == '/'
    ensures !HasPrefix(ToLower(a), prefix)
  {
    if |prefix| <= |a| {
      assert ToLower(a)[..|prefix|][k] == LowerChar(a[k]);
      assert a[k] in a;
    }
  }

  lemma PlainHasNoPrefix(a: string)
    requires '/' !in a
    ensures TakePrefix(a, 0) == ("", a)
  {
    NoPrefix(a, "wss://", 4);
    NoPrefix(a, "ws://", 3);
    NoPrefix(a, "https://", 6);
    NoPrefix(a, "http://", 5);
    assert TakePrefix(a, 3) == ("", a);
    assert TakePrefix(a, 2) == ("", a);
    assert TakePrefix(a, 1) == ("", a);
  }

  lemma SecurePrefix(a: string)
    ensures TakePrefix("wss://" + a, 0) == ("wss://", a)
  {
    var h := "wss://" + a;
    assert ToLower(h)[..6] == "wss://";
    assert h[6..] == a;
  }

  lemma OpenPrefix(a: string)
    ensures TakePrefix("ws://" + a, 0) == ("ws://", a)
  {
    var h := "ws://" + a;
    assert |h| >= 6 ==> ToLower(h)[..6][2] == ':';
    assert "wss://"[2] == 's';
    assert !HasPrefix(ToLower(h), PREFIXES[0].0);
    assert ToLower(h)[..5] == "ws://";
    assert h[5..] == a;
    assert TakePrefix(h, 1) == ("ws://", a);
  }

  /** An address that is already clean is taken apart at its prefix and nowhere else. */
  lemma CleanSplits(scheme: string, a: string)
    requires scheme in ["", "ws://", "wss://"] && Clean(a)
    ensures SplitScheme(scheme + a) == (scheme, a)
  {
    var h := scheme + a;
    PlainHasNoPrefix(a);
    SecurePrefix(a);
    OpenPrefix(a);
    assert h[|h| - 1] == a[|a| - 1];
    if scheme == "" {
      assert h == a;
    } else {
      assert h[0] == 'w';
    }
    assert TrimSpace(h) == h;
  }

  /** What an address becomes is clean, and a clean address is left alone. */
  lemma AddressIsClean(host: string)
    ensures SplitScheme(host).1 != "" ==> CleanAddress(Address(host)) && SplitScheme(Address(host)) == SplitScheme(host)
  {
    AuthorityIsClean(host);
    var (s, a) := SplitScheme(host);
    if a != "" {
      CleanSplits(s, a);
      assert s == "wss://" ==> (s + a)[6..] == a;
      assert s == "ws://" ==> (s + a)[5..] == a;
      assert s == "" ==> s + a == a;
    }
  }

  lemma CleanAddressStays(h: string)
    requires CleanAddress(h)
    ensures Address(h) == h && SplitScheme(h).1 != "" && Trimmed(h) && h != ""
  {
    if Clean(h) {
      CleanSplits("", h);
      assert "" + h == h;
    } else if HasPrefix(h, "wss://") && Clean(h[6..]) {
      CleanSplits("wss://", h[6..]);
      assert "wss://" + h[6..] == h;
      assert h[0] == 'w' && h[|h| - 1] == h[6..][|h| - 7];
    } else {
      CleanSplits("ws://", h[5..]);
      assert "ws://" + h[5..] == h;
      assert h[0] == 'w' && h[|h| - 1] == h[5..][|h| - 6];
    }
  }

  /** A transport as people write it, in lower case, and the transport it means. */
  predicate Transport(written: string, meant: string) {
    || (written == "wss://" && meant == "wss://") || (written == "https://" && meant == "wss://")
    || (written == "ws://" && meant == "ws://") || (written == "http://" && meant == "ws://")
  }

  lemma PrefixTaken(prefix: string, meant: string, rest: string)
    requires Transport(ToLower(prefix), meant)
    ensures TakePrefix(prefix + rest, 0) == (meant, rest)
  {
    var h, l := prefix + rest, ToLower(prefix);
    assert ToLower(h)[..|prefix|] == l;
    assert h[|prefix|..] == rest;
    assert forall i :: 0 <= i < |l| ==> ToLower(h)[i] == l[i];
    PrefixesApart(ToLower(h), l);
    if l == "wss://" {
      assert HasPrefix(ToLower(h), PREFIXES[0].0);
    } else if l == "ws://" {
      assert TakePrefix(h, 1) == (meant, rest);
    } else if l == "https://" {
      assert TakePrefix(h, 2) == (meant, rest);
      assert TakePrefix(h, 1) == (meant, rest);
    } else {
      assert TakePrefix(h, 3) == (meant, rest);
      assert TakePrefix(h, 2) == (meant, rest);
      assert TakePrefix(h, 1) == (meant, rest);
    }
  }

  lemma PrefixesApart(h: string, l: string)
    requires HasPrefix(h, l)
    ensures l == "ws://" ==> !HasPrefix(h, "wss://")
    ensures l == "https://" ==> !HasPrefix(h, "wss://") && !HasPrefix(h, "ws://")
    ensures l == "http://" ==> !HasPrefix(h, "wss://") && !HasPrefix(h, "ws://") && !HasPrefix(h, "https://")
  {
    assert forall i :: 0 <= i < |l| ==> h[i] == h[..|l|][i] == l[i];
    assert |h| >= 6 ==> h[..6][0] == h[0] && h[..6][2] == h[2];
    assert |h| >= 5 ==> h[..5][0] == h[0];
    assert |h| >= 8 ==> h[..8][4] == h[4];
    assert "wss://"[0] == 'w' && "wss://"[2] == 's' && "ws://"[0] == 'w' && "https://"[4] == 's';
  }

  /** https means wss and http means ws, in any case, and whatever path follows the authority is dropped. */
  lemma TransportIsRead(prefix: string, meant: string, a: string, path: string)
    requires Transport(ToLower(prefix), meant) && Clean(a)
    requires path == "" || (path[0] == '/' && !IsSpace(path[|path| - 1]))
    ensures SplitScheme(prefix + (a + path)) == (meant, a)
  {
    var h := prefix + (a + path);
    PrefixTaken(prefix, meant, a + path);
    PrefixIsNoSpace(prefix, meant);
    assert h[0] == prefix[0] && h[|h| - 1] == (if path == "" then a[|a| - 1] else path[|path| - 1]);
    assert TrimSpace(h) == h;
    assert (a + path)[..|a|] == a;
    FirstSlash(a + path, |a|);
  }

  lemma PrefixIsNoSpace(prefix: string, meant: string)
    requires Transport(ToLower(prefix), meant)
    ensures prefix != "" && !IsSpace(prefix[0])
  {
    assert ToLower(prefix)[0] == LowerChar(prefix[0]);
  }
}
